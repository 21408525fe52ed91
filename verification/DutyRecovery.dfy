/** Recovery: no history of grants, refusals, crashes and clock steps silences the radio for longer than
    a long window plus the skew after the last write of the ledger. */
module DutyRecovery {
  import opened Common
  import opened Ledger
  import opened History
  import opened Claims
  import opened DutyProtocol
  import opened DutyCalls
  import opened DutyGuarantees

  /** The stamps on disk and in the records, and those a process is about to write, are within the skew
      of their clock. */
  ghost predicate Stamped(s: State) {
    && WellStamped(s.disk)
    && (s.at.Some? ==> StampsBounded(Live(s.history), s.at.value.clock.wall))
    && forall p <- s.procs :: s.procs[p].Loaded? || s.procs[p].Granting? ==>
         StampsBounded(s.procs[p].work, s.procs[p].now.clock.wall)
  }

  lemma LoadKeepsStamped(env: Env, s: State, p: nat, now: Sample)
    requires Inv(env, s) && Stamped(s) && Enabled(env, s, Load(p, now))
    ensures Stamped(Apply(env, s, Load(p, now)))
  {
    KeptStamps(env.limits, s.disk, s.procs[p].firstUse, now.clock);
  }

  lemma WriteKeepsStamped(env: Env, s: State, l: Label)
    requires Inv(env, s) && Stamped(s) && Enabled(env, s, l) && Writes(l)
    ensures Stamped(Apply(env, s, l))
  {
    var s', ph := Apply(env, s, l), s.procs[l.p];
    assert StampsBounded(ph.work, ph.now.clock.wall);
    assert WellStamped(s'.disk);
    StepKeepsInv(env, s, l);
    assert s'.disk == Stored(true, Some(s'.at.value.clock), Live(s'.history));
  }

  lemma OtherKeepsStamped(env: Env, s: State, l: Label)
    requires env.limits.Valid() && Stamped(s) && Enabled(env, s, l) && !Writes(l) && !l.Load?
    ensures Stamped(Apply(env, s, l))
  {
    OnlyWritesRecord(env, s, l);
  }

  lemma {:induction false} RunKeepsStamped(env: Env, s: State, run: seq<Label>)
    requires Inv(env, s) && Stamped(s) && Legal(env, s, run)
    ensures Inv(env, Exec(env, s, run)) && Stamped(Exec(env, s, run))
    decreases |run|
  {
    if run != [] {
      var l := run[0];
      StepKeepsInv(env, s, l);
      if Writes(l) {
        WriteKeepsStamped(env, s, l);
      } else if l.Load? {
        LoadKeepsStamped(env, s, l.p, l.now);
      } else {
        OtherKeepsStamped(env, s, l);
      }
      RunKeepsStamped(env, Apply(env, s, l), run[1..]);
    }
  }

  /** In every reachable state the ledger on disk carries no stamp beyond its own clock plus the skew. */
  lemma PersistedStampsAreBounded(env: Env, procs: set<nat>, run: seq<Label>)
    requires env.limits.Valid() && Legal(env, Start(procs), run)
    ensures WellStamped(Exec(env, Start(procs), run).disk)
  {
    RunKeepsStamped(env, Start(procs), run);
  }

  lemma {:induction false} LivePositive(h: seq<Record>)
    requires forall r <- h :: r.airtime > 0.0
    ensures forall e <- Live(h) :: e.airtime > 0.0
  {
    if h != [] {
      assert h[|h| - 1] in h;
      LivePositive(h[..|h| - 1]);
    }
  }

  /** A long window plus the skew after the last write, with a steady clock, nothing is counted. */
  lemma NothingCounts(env: Env, s: State, now: Sample, work: seq<Entry>)
    requires Inv(env, s) && Stamped(s) && Faithful(env, s, now, work)
    requires Steady(s.at.value.clock, now.clock)
    requires now.time - s.at.value.time >= env.limits.longWindow + CLOCK_SKEW_S
    ensures work == []
  {
    var past := s.at.value.clock;
    LiveOfView(s.history, past, now.clock, env.limits.longWindow);
    RebaseByZero(Live(s.history));
    NothingLeft(Live(s.history), past.wall, now.clock.wall - env.limits.longWindow);
  }

  /** In every interleaving: whoever decides a long window plus the skew after the last write, the clock
      having been steady since, grants every packet that fits the long limit alone. */
  lemma LateVerdictsGrant(env: Env, procs: set<nat>, run: seq<Label>, p: nat)
    requires env.limits.Valid() && Legal(env, Start(procs), run)
    requires Enabled(env, Exec(env, Start(procs), run), Verdict(p))
    ensures var s := Exec(env, Start(procs), run);
            var ph := s.procs[p];
            && s.at.Some?
            && (&& Steady(s.at.value.clock, ph.now.clock)
                && ph.now.time - s.at.value.time >= env.limits.longWindow + CLOCK_SKEW_S
                && Percent(ph.airtime, env.limits.longWindow) <= env.limits.longLimit
                ==> Apply(env, s, Verdict(p)).procs[p].Granting?)
  {
    RunKeepsStamped(env, Start(procs), run);
    var s := Exec(env, Start(procs), run);
    var ph := s.procs[p];
    assert PhaseOk(env, s, ph);
    if Steady(s.at.value.clock, ph.now.clock) && ph.now.time - s.at.value.time >= env.limits.longWindow + CLOCK_SKEW_S {
      NothingCounts(env, s, ph.now, ph.work);
    }
  }

  /** After any history at all: if the ledger is there and nobody is inside the lock, then a long window
      plus the skew after its last write, the clock having been steady since, an undisturbed call for any
      packet that fits the long limit alone is granted. */
  lemma TheRadioRecovers(env: Env, procs: set<nat>, run: seq<Label>, p: nat, airtime: real, now: Sample)
      returns (more: seq<Label>)
    requires env.limits.Valid() && Legal(env, Start(procs), run)
    requires var s := Exec(env, Start(procs), run);
             && p in s.procs && s.procs[p].Idle? && s.holder.None? && s.disk.Stored?
             && now.time == s.time && Physical(env.origin, now)
             && s.disk.clock.Some? && Steady(s.disk.clock.value, now.clock)
             && now.clock.mono - s.disk.clock.value.mono >= env.limits.longWindow + CLOCK_SKEW_S
    requires airtime > 0.0 && Percent(airtime, env.limits.longWindow) <= env.limits.longLimit
    ensures var s := Exec(env, Start(procs), run);
            && Legal(env, s, more)
            && GrantedOne(s, Exec(env, s, more), now, airtime)
  {
    RunKeepsStamped(env, Start(procs), run);
    var s := Exec(env, Start(procs), run);
    assert forall r <- s.history :: SoundRecord(r, s.at.value, env.limits.longWindow, PerWrite);
    LivePositive(s.history);
    Recovery(env.limits, s.disk, [], airtime, now.clock);
    var e;
    more, e := SoloCallIsReserve(env, s, p, airtime, now, RELIABLE);
  }
}
