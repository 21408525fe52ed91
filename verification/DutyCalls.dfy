/** A reservation that nobody disturbs, as a run of the protocol: it computes what the ledger's
    specification says, the very first call included. */
module DutyCalls {
  import opened Common
  import opened Ledger
  import opened History
  import opened Claims
  import opened DutyProtocol

  lemma {:induction false} ExecSnoc(env: Env, s: State, run: seq<Label>, l: Label)
    requires env.limits.Valid() && Legal(env, s, run) && Enabled(env, Exec(env, s, run), l)
    ensures Legal(env, s, run + [l]) && Exec(env, s, run + [l]) == Apply(env, Exec(env, s, run), l)
    decreases |run|
  {
    if run == [] {
      assert [] + [l] == [l] && [l][1..] == [];
    } else {
      assert (run + [l])[1..] == run[1..] + [l] && (run + [l])[0] == run[0];
      ExecSnoc(env, Apply(env, s, run[0]), run[1..], l);
    }
  }

  /** The run leads from s to e. */
  ghost predicate Leads(env: Env, s: State, run: seq<Label>, e: State) {
    env.limits.Valid() && Legal(env, s, run) && Exec(env, s, run) == e
  }

  /** One more step of a run under construction. */
  lemma Then(env: Env, s: State, run: seq<Label>, e: State, l: Label) returns (run': seq<Label>, e': State)
    requires Leads(env, s, run, e) && Enabled(env, e, l)
    ensures Leads(env, s, run', e') && e' == Apply(env, e, l)
  {
    ExecSnoc(env, s, run, l);
    run', e' := run + [l], Apply(env, e, l);
  }

  /** In the middle of the call of `p`, which holds the lock: nothing else has moved, and the records
      still hold the same charges. */
  ghost predicate Inside(s: State, e: State, p: nat) {
    && p in s.procs && s.procs[p].Idle? && p in e.procs && e.procs == s.procs[p := e.procs[p]]
    && e.time == s.time && e.lockFile && e.holder == Some(p)
    && e.granted == s.granted && SameCharges(s.history, e.history)
  }

  /** The call is over: everything is as before it but for the ledger, its records and the grants. */
  ghost predicate Over(s: State, e: State) {
    && e.procs == s.procs && e.time == s.time && e.lockFile && e.holder.None?
    && Extends(s.history, e.history) && |e.history| <= |s.history| + 1
  }

  /** The new charge and the grant of it. */
  ghost predicate GrantedOne(s: State, e: State, now: Sample, airtime: real) {
    && e.granted == s.granted + [Claim(|s.history|, airtime)]
    && SameCharges(e.history, s.history + [NewCharge(now, airtime)])
  }

  lemma SoloRefusal(env: Env, s: State, run: seq<Label>, e: State, p: nat) returns (run': seq<Label>, e': State)
    requires Leads(env, s, run, e) && Inside(s, e, p) && e.procs[p] == Leaving(None)
    ensures Leads(env, s, run', e') && Over(s, e') && e'.disk == e.disk && e'.granted == s.granted
  {
    run', e' := Then(env, s, run, e, Return(p, true));
    assert e'.procs == s.procs;
  }

  lemma RewrittenSame(s: State, now: Sample, window: real)
    ensures SameCharges(s.history, Rewritten(s, now, window))
  {
    if s.at.Some? {
      PersistedSame(s.history, s.at.value.clock, now.clock, window);
    }
  }

  /** A call that passed the limits charges and returns. */
  lemma SoloCharge(env: Env, s: State, run: seq<Label>, e: State, p: nat, outcome: WriteOutcome)
      returns (run': seq<Label>, e': State)
    requires Leads(env, s, run, e) && Inside(s, e, p) && e.procs[p].Granting?
    ensures Leads(env, s, run', e') && Over(s, e')
    ensures var ph := e.procs[p];
            && e'.disk == Write(e.disk, ph.work + [Entry(ph.now.clock.wall, ph.airtime)], ph.now.clock, outcome)
            && (outcome == Written ==> GrantedOne(s, e', ph.now, ph.airtime))
            && (outcome != Written ==> e'.granted == s.granted)
  {
    RewrittenSame(e, e.procs[p].now, env.limits.longWindow);
    run', e' := Then(env, s, run, e, WriteCharge(p, outcome));
    run', e' := Then(env, s, run', e', Return(p, true));
    assert e'.procs == s.procs;
  }

  /** The last steps: decide on what was loaded, charge it if it fits, and return. */
  lemma SoloVerdict(env: Env, s: State, run: seq<Label>, e: State, p: nat, outcome: WriteOutcome)
      returns (run': seq<Label>, e': State)
    requires Leads(env, s, run, e) && Inside(s, e, p)
    requires e.procs[p].Loaded? && !e.procs[p].firstUse && !e.procs[p].rebased
    ensures Leads(env, s, run', e') && Over(s, e')
    ensures var ph := e.procs[p];
            var (verdict, disk) := Commit(Verdicts(env, ph), e.disk, ph.work, ph.airtime, ph.now.clock, outcome);
            && e'.disk == disk
            && (verdict == None ==> GrantedOne(s, e', ph.now, ph.airtime))
            && (verdict != None ==> e'.granted == s.granted)
  {
    var decided := Goto(e, p, VerdictPhase(e.procs[p], Verdicts(env, e.procs[p])));
    run', e' := Then(env, s, run, e, Verdict(p));
    assert e' == decided;
    if decided.procs[p].Granting? {
      run', e' := SoloCharge(env, s, run', e', p, outcome);
    } else {
      run', e' := SoloRefusal(env, s, run', e', p);
    }
  }

  /** Open the lock file, making it if there is none, and take the lock. */
  lemma SoloLock(env: Env, s: State, p: nat, airtime: real) returns (run: seq<Label>, e: State)
    requires env.limits.Valid() && p in s.procs && s.procs[p].Idle? && s.holder.None? && airtime > 0.0
    ensures Leads(env, s, run, e) && Inside(s, e, p)
    ensures e.disk == s.disk && e.procs[p] == Holding(Reserving(airtime), !s.lockFile)
  {
    if s.lockFile {
      run, e := Then(env, s, [], s, Open(p, Reserving(airtime)));
    } else {
      run, e := Then(env, s, [], s, NotFound(p, airtime));
      run, e := Then(env, s, run, e, Create(p));
    }
    run, e := Then(env, s, run, e, Flock(p));
  }

  /** One of the two writes that may be due before the verdict. */
  lemma SoloWriteBack(env: Env, s: State, run: seq<Label>, e: State, p: nat, outcome: WriteOutcome)
      returns (run': seq<Label>, e': State)
    requires Leads(env, s, run, e) && Inside(s, e, p)
    requires e.procs[p].Loaded? && (e.procs[p].firstUse || e.procs[p].rebased)
    ensures Leads(env, s, run', e') && Inside(s, e', p)
    ensures var ph := e.procs[p];
            var (ok, disk) := Persist(e.disk, ph.work, ph.now.clock, true, outcome);
            && e'.disk == disk
            && e'.procs[p] == if ok then ph.(firstUse := false, rebased := ph.firstUse && ph.rebased) else Leaving(None)
  {
    RewrittenSame(e, e.procs[p].now, env.limits.longWindow);
    if e.procs[p].firstUse {
      run', e' := Then(env, s, run, e, WriteInit(p, outcome));
    } else {
      run', e' := Then(env, s, run, e, WriteRebase(p, outcome));
    }
  }

  /** The writes that are due, and the verdict, on what was loaded. */
  lemma SoloSettle(env: Env, s: State, run: seq<Label>, e: State, p: nat, io: Io)
      returns (run': seq<Label>, e': State)
    requires Leads(env, s, run, e) && Inside(s, e, p) && e.procs[p].Loaded?
    ensures Leads(env, s, run', e') && Over(s, e')
    ensures var ph := e.procs[p];
            var (verdict, disk) := Settle(Verdicts(env, ph), e.disk, ph.work, ph.firstUse, ph.rebased,
                                          ph.airtime, ph.now.clock, io);
            && e'.disk == disk
            && (verdict == None ==> GrantedOne(s, e', ph.now, ph.airtime))
            && (verdict != None ==> e'.granted == s.granted)
  {
    run', e' := run, e;
    if e'.procs[p].firstUse {
      run', e' := SoloWriteBack(env, s, run', e', p, io.init);
    }
    if e'.procs[p].Loaded? && e'.procs[p].rebased {
      run', e' := SoloWriteBack(env, s, run', e', p, io.rebase);
    }
    if e'.procs[p].Loaded? {
      run', e' := SoloVerdict(env, s, run', e', p, io.charge);
    } else {
      run', e' := SoloRefusal(env, s, run', e', p);
    }
  }

  /** A reservation that nobody disturbs is a run of the protocol whose verdict and disk are those of
      `Reserve`, whatever its writes do, with first use exactly when there was no lock file. A grant is
      one new charge of the airtime asked for, at the instant of the call. */
  lemma SoloCallIsReserve(env: Env, s: State, p: nat, airtime: real, now: Sample, io: Io)
      returns (run: seq<Label>, e: State)
    requires env.limits.Valid() && p in s.procs && s.procs[p].Idle? && s.holder.None?
    requires now.time == s.time && Physical(env.origin, now) && airtime > 0.0
    ensures Leads(env, s, run, e) && Over(s, e)
    ensures var (verdict, disk) := Reserve(env.limits, s.disk, !s.lockFile, airtime, now.clock, io);
            && e.disk == disk
            && (verdict == None ==> GrantedOne(s, e, now, airtime))
            && (verdict != None ==> e.granted == s.granted)
  {
    run, e := SoloLock(env, s, p, airtime);
    if Read(s.disk, !s.lockFile, now.clock).Failure? {
      run, e := Then(env, s, run, e, LoadFails(p, now));
      run, e := SoloRefusal(env, s, run, e, p);
    } else {
      run, e := Then(env, s, run, e, Load(p, now));
      run, e := SoloSettle(env, s, run, e, p, io);
    }
  }
}
