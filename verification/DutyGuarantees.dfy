/** What holds over every run of the ledger protocol from an empty directory: for every interleaving of
    any number of processes, with crashes, failed writes and deletions of the ledger. */
module DutyGuarantees {
  import opened Common
  import opened Ledger
  import opened History
  import opened Claims
  import opened DutyProtocol

  // ---------------------------------------------------------------------------
  // Theorems over every run from an empty directory

  /** At most one caller ever gets the first-use transition. */
  lemma FirstUseOnce(env: Env, procs: set<nat>, run: seq<Label>)
    requires env.limits.Valid() && Legal(env, Start(procs), run)
    ensures Exec(env, Start(procs), run).firstUses <= 1
  {
    RunKeepsInv(env, Start(procs), run);
  }

  /** Every caller that was told it may transmit has its own charge among the persisted ones, of exactly
      the airtime it was granted: no two grants share one, so that in every window of true time the
      airtime granted is at most the airtime charged. */
  lemma GrantsArePrepaid(env: Env, procs: set<nat>, run: seq<Label>, end: real, window: real)
    requires env.limits.Valid() && Legal(env, Start(procs), run)
    ensures var s := Exec(env, Start(procs), run);
            && PaidInFull(s.history, s.granted) && Distinct(s.granted)
            && Claimed(s.history, s.granted, end, window) <= Charged(s.history, end, window)
  {
    RunKeepsInv(env, Start(procs), run);
    var s := Exec(env, Start(procs), run);
    ChargesArePositive(env, s);
    GrantsAreCovered(s.history, s.granted);
    ClaimedAtMostCharged(s.history, s.granted, end, window);
  }

  /** The airtime of the last reservation that process p has called for, read off the labels alone. */
  function LastAsked(run: seq<Label>, p: nat, before: Option<real>): Option<real> {
    if run == [] then before else LastAsked(run[1..], p, AskedBy(run[0], p, before))
  }

  function AskedBy(l: Label, p: nat, before: Option<real>): Option<real> {
    match l
    case Open(q, Reserving(airtime)) => if q == p then Some(airtime) else before
    case NotFound(q, airtime) => if q == p then Some(airtime) else before
    case _ => before
  }

  ghost predicate Carries(s: State, p: nat, asked: Option<real>) {
    p in s.procs && (Asked(s.procs[p]).Some? ==> Asked(s.procs[p]) == asked)
  }

  lemma StepCarries(env: Env, s: State, l: Label, p: nat, asked: Option<real>)
    requires env.limits.Valid() && Enabled(env, s, l) && Carries(s, p, asked)
    ensures Carries(Apply(env, s, l), p, AskedBy(l, p, asked))
  {
  }

  lemma {:induction false} RunCarries(env: Env, s: State, run: seq<Label>, p: nat, asked: Option<real>)
    requires env.limits.Valid() && Legal(env, s, run) && Carries(s, p, asked)
    ensures Carries(Exec(env, s, run), p, LastAsked(run, p, asked))
    decreases |run|
  {
    if run != [] {
      StepCarries(env, s, run[0], p, asked);
      RunCarries(env, Apply(env, s, run[0]), run[1..], p, AskedBy(run[0], p, asked));
    }
  }

  /** What a caller is granted is what it asked for: in every run, a return that grants hands out exactly
      the airtime of that process's last call. */
  lemma GrantedAsAsked(env: Env, procs: set<nat>, run: seq<Label>, p: nat)
    requires env.limits.Valid() && Legal(env, Start(procs), run)
    requires Enabled(env, Exec(env, Start(procs), run), Return(p, true))
    ensures var s := Exec(env, Start(procs), run);
            var s' := Apply(env, s, Return(p, true));
            || s'.granted == s.granted
            || exists g :: s'.granted == s.granted + [g] && LastAsked(run, p, None) == Some(g.airtime)
  {
    ProcsStay(env, Start(procs), run);
    RunCarries(env, Start(procs), run, p, None);
  }

  lemma {:induction false} ProcsStay(env: Env, s: State, run: seq<Label>)
    requires env.limits.Valid() && Legal(env, s, run)
    ensures Exec(env, s, run).procs.Keys == s.procs.Keys
    decreases |run|
  {
    if run != [] {
      ProcsStay(env, Apply(env, s, run[0]), run[1..]);
    }
  }

  /** A caller is told it may transmit by one kind of step only: its own undisturbed return after its
      charge was completely written. A failed write, a failed unlock or a crash never grants. */
  lemma OnlyACleanReturnGrants(env: Env, s: State, l: Label)
    requires env.limits.Valid() && Enabled(env, s, l)
    ensures Apply(env, s, l).granted != s.granted ==>
              && l.Return? && l.unlocked && s.procs[l.p].grant.Some?
              && Apply(env, s, l).granted == s.granted + [s.procs[l.p].grant.value]
    ensures (exists p :: p in Apply(env, s, l).procs && p in s.procs && s.procs[p] != Apply(env, s, l).procs[p]
                         && Apply(env, s, l).procs[p].Leaving? && Apply(env, s, l).procs[p].grant.Some?)
            ==> l.WriteCharge? && l.outcome == Written
  {
  }

  /** Whenever a process decides, or has decided to grant, no charge that is unexpired by its true age
      (less the tolerance of the writes it went through) is missing from the entries it decides on. */
  lemma DecidesOnEverything(env: Env, procs: set<nat>, run: seq<Label>, p: nat)
    requires env.limits.Valid() && Legal(env, Start(procs), run)
    requires var s := Exec(env, Start(procs), run);
             p in s.procs && (s.procs[p].Granting? || (s.procs[p].Loaded? && !s.procs[p].firstUse))
    ensures var s := Exec(env, Start(procs), run);
            var now, work := s.procs[p].now, s.procs[p].work;
            && s.at.Some?
            && var v := View(s.history, s.at.value.clock, now.clock, env.limits.longWindow);
            && work == Live(v) && |v| == |s.history|
            && forall i :: 0 <= i < |v| ==>
                 now.time - s.history[i].born + CLOCK_SKEW_S * s.history[i].writes as real < env.limits.longWindow
                 ==> v[i].live
  {
    RunKeepsInv(env, Start(procs), run);
    var s := Exec(env, Start(procs), run);
    assert PhaseOk(env, s, s.procs[p]);
    NothingUnexpiredMissing(env.origin, s.history, s.at.value, s.procs[p].now, env.limits.longWindow, PerWrite);
  }

  /** Once the ledger has been deleted with nobody inside the lock, nothing is ever charged again. */
  ghost predicate Wiped(s: State) {
    && s.disk == Absent && s.at.Some? && s.lockFile
    && forall p <- s.procs :: !s.procs[p].Loaded? && !s.procs[p].Granting? && !First(s.procs[p])
  }

  lemma {:induction false} WipedLedgerRefuses(env: Env, s: State, run: seq<Label>)
    requires env.limits.Valid() && Inv(env, s) && Wiped(s) && Legal(env, s, run)
    ensures Exec(env, s, run).history == s.history && Wiped(Exec(env, s, run))
    decreases |run|
  {
    if run != [] {
      StepKeepsInv(env, s, run[0]);
      var s' := Apply(env, s, run[0]);
      assert Wiped(s') && s'.history == s.history;
      WipedLedgerRefuses(env, s', run[1..]);
    }
  }

  /** The ledger may be deleted at any moment; if nobody is inside the lock then, so it is from there on. */
  lemma DeletionSilences(env: Env, s: State, run: seq<Label>)
    requires Inv(env, s) && s.at.Some? && s.holder.None? && Legal(env, s.(disk := Absent), run)
    ensures Legal(env, s, [Delete] + run)
    ensures Exec(env, s, [Delete] + run).history == s.history && Exec(env, s, [Delete] + run).disk == Absent
  {
    var s' := Apply(env, s, Delete);
    assert ([Delete] + run)[1..] == run;
    StepKeepsInv(env, s, Delete);
    assert forall p <- s.procs :: !Critical(s.procs[p]) && PhaseOk(env, s, s.procs[p]);
    WipedLedgerRefuses(env, s', run);
  }

  // ---------------------------------------------------------------------------
  // The legal limit, in true time

  /** The step replaces the ledger. */
  predicate Writes(l: Label) {
    (l.WriteInit? || l.WriteRebase? || l.WriteCharge?) && l.outcome != KeptOld
  }

  /** If the step writes, the wall clock hid no gain between the last write and the writer's sample. */
  ghost predicate Quiet(env: Env, s: State, l: Label)
    requires Enabled(env, s, l)
  {
    Writes(l) && s.at.Some? ==> !HiddenGain(s.at.value, s.procs[l.p].now)
  }

  /** No write of the run follows the previous one after a hidden gain of the wall clock. */
  ghost predicate QuietRun(env: Env, s: State, run: seq<Label>)
    requires env.limits.Valid() && Legal(env, s, run)
    decreases |run|
  {
    run == [] || (Quiet(env, s, run[0]) && QuietRun(env, Apply(env, s, run[0]), run[1..]))
  }

  /** What the count of writes of a charge counts: one for the write that made it, and one for every write
      of the ledger after it. */
  lemma WritesAreCounted(env: Env, s: State, l: Label)
    requires Inv(env, s) && Enabled(env, s, l)
    ensures var h, h' := s.history, Apply(env, s, l).history;
            && |h'| == |h| + (if l.WriteCharge? && Writes(l) then 1 else 0)
            && (forall i :: 0 <= i < |h| ==> h'[i].writes == h[i].writes + if Writes(l) then 1 else 0)
            && (|h'| > |h| ==> h'[|h|].writes == 1)
  {
    if Writes(l) && s.at.Some? {
      var now := s.procs[l.p].now;
      ViewAt(s.history, s.at.value.clock, now.clock, env.limits.longWindow);
      CountedAt(View(s.history, s.at.value.clock, now.clock, env.limits.longWindow));
    } else if !Writes(l) {
      OnlyWritesRecord(env, s, l);
    }
  }

  /** Whoever is about to charge has passed the limits on what it works with. */
  ghost predicate Decided(env: Env, s: State)
    requires env.limits.Valid()
  {
    forall p <- s.procs :: s.procs[p].Granting? ==>
      Decide(env.limits, s.procs[p].work, s.procs[p].airtime, s.procs[p].now.clock.wall) == None
  }

  lemma StepKeepsDecided(env: Env, s: State, l: Label)
    requires env.limits.Valid() && Decided(env, s) && Enabled(env, s, l)
    ensures Decided(env, Apply(env, s, l))
  {
    var s' := Apply(env, s, l);
    if !l.Verdict? {
      assert forall q <- s'.procs :: s'.procs[q].Granting? ==> q in s.procs && s'.procs[q] == s.procs[q];
    }
  }

  lemma OnlyWritesRecord(env: Env, s: State, l: Label)
    requires env.limits.Valid() && Enabled(env, s, l) && !Writes(l)
    ensures Apply(env, s, l).history == s.history && Apply(env, s, l).at == s.at
  {
  }

  /** What the write of this step, if it is one, over-credits. */
  function StepLog(env: Env, s: State, l: Label): seq<Gained>
    requires Enabled(env, s, l)
  {
    if Writes(l) && s.at.Some? then [Gained(s.procs[l.p].now.time, Gain(s.at.value, s.procs[l.p].now))] else []
  }

  /** The writes of a run, each with what the wall clock had gained on true time unnoticed. */
  function GainLog(env: Env, s: State, run: seq<Label>): seq<Gained>
    requires env.limits.Valid() && Legal(env, s, run)
    decreases |run|
  {
    if run == [] then [] else StepLog(env, s, run[0]) + GainLog(env, Apply(env, s, run[0]), run[1..])
  }

  lemma {:induction false} GainsAreGains(env: Env, s: State, run: seq<Label>)
    requires env.limits.Valid() && Legal(env, s, run)
    ensures forall g <- GainLog(env, s, run) :: g.seconds >= 0.0
    decreases |run|
  {
    if run != [] {
      GainsAreGains(env, Apply(env, s, run[0]), run[1..]);
    }
  }

  /** Every charge is credited with at most its true age plus what the writes since it have let through. */
  ghost predicate CreditKept(env: Env, s: State, log: seq<Gained>) {
    && (s.at.None? ==> log == [])
    && (s.at.Some? ==>
          Sound(s.history, s.at.value, env.limits.longWindow, Logged(log)) && Orderly(log, s.at.value.time))
  }

  lemma WriteKeepsCredit(env: Env, s: State, l: Label, log: seq<Gained>)
    requires Inv(env, s) && Enabled(env, s, l) && Writes(l) && CreditKept(env, s, log)
    ensures CreditKept(env, Apply(env, s, l), log + StepLog(env, s, l))
  {
    var ph, long := s.procs[l.p], env.limits.longWindow;
    assert PhaseOk(env, s, ph);
    if l.WriteCharge? {
      ChargeKeepsSound(env.origin, s.history, s.at.value, ph.now, long, ph.airtime, Logged(log));
    } else if s.at.Some? {
      PersistKeepsSound(env.origin, s.history, s.at.value, ph.now, long, Logged(log));
    }
  }

  lemma StepKeepsCredit(env: Env, s: State, l: Label, log: seq<Gained>)
    requires Inv(env, s) && Enabled(env, s, l) && CreditKept(env, s, log)
    ensures CreditKept(env, Apply(env, s, l), log + StepLog(env, s, l))
  {
    if Writes(l) {
      WriteKeepsCredit(env, s, l, log);
    } else {
      OnlyWritesRecord(env, s, l);
      assert log + StepLog(env, s, l) == log;
    }
  }

  lemma LogSplits(env: Env, s: State, run: seq<Label>, log: seq<Gained>)
    requires env.limits.Valid() && run != [] && Legal(env, s, run)
    ensures log + GainLog(env, s, run)
         == (log + StepLog(env, s, run[0])) + GainLog(env, Apply(env, s, run[0]), run[1..])
  {
  }

  lemma {:induction false} RunKeepsCredit(env: Env, s: State, run: seq<Label>, log: seq<Gained>)
    requires Inv(env, s) && Legal(env, s, run) && CreditKept(env, s, log)
    ensures CreditKept(env, Exec(env, s, run), log + GainLog(env, s, run))
    decreases |run|
  {
    if run == [] {
      assert log + [] == log;
    } else {
      StepKeepsInv(env, s, run[0]);
      StepKeepsCredit(env, s, run[0], log);
      RunKeepsCredit(env, Apply(env, s, run[0]), run[1..], log + StepLog(env, s, run[0]));
      LogSplits(env, s, run, log);
    }
  }

  ghost predicate WindowsKept(env: Env, s: State, slack: real) {
    LongKept(s.history, env.limits, slack) && ShortKept(s.history, env.limits, slack)
  }

  lemma WriteKeepsWindows(env: Env, s: State, l: Label, log: seq<Gained>, slack: real)
    requires Inv(env, s) && Decided(env, s) && Enabled(env, s, l) && Writes(l)
    requires CreditKept(env, s, log) && WindowsKept(env, s, slack) && 0.0 <= slack
    requires Budget(log + StepLog(env, s, l), env.limits.longWindow, slack)
    ensures WindowsKept(env, Apply(env, s, l), slack)
  {
    var ph, long := s.procs[l.p], env.limits.longWindow;
    assert PhaseOk(env, s, ph);
    if l.WriteCharge? {
      ChargeKeepsWindows(env.origin, s.history, s.at.value, ph.now, env.limits, ph.airtime, log, slack);
    } else if s.at.Some? {
      PersistedSame(s.history, s.at.value.clock, ph.now.clock, long);
      SameLimitsKept(s.history, Rewritten(s, ph.now, long), env.limits, slack);
    }
  }

  lemma StepKeepsWindows(env: Env, s: State, l: Label, log: seq<Gained>, slack: real)
    requires Inv(env, s) && Decided(env, s) && Enabled(env, s, l)
    requires CreditKept(env, s, log) && WindowsKept(env, s, slack) && 0.0 <= slack
    requires Budget(log + StepLog(env, s, l), env.limits.longWindow, slack)
    ensures WindowsKept(env, Apply(env, s, l), slack)
  {
    if Writes(l) {
      WriteKeepsWindows(env, s, l, log, slack);
    } else {
      OnlyWritesRecord(env, s, l);
    }
  }

  lemma {:induction false} RunKeepsWindows(env: Env, s: State, run: seq<Label>, log: seq<Gained>, slack: real)
    requires Inv(env, s) && Decided(env, s) && Legal(env, s, run)
    requires CreditKept(env, s, log) && WindowsKept(env, s, slack) && 0.0 <= slack
    requires Budget(log + GainLog(env, s, run), env.limits.longWindow, slack)
    ensures WindowsKept(env, Exec(env, s, run), slack)
    decreases |run|
  {
    if run != [] {
      var s', step := Apply(env, s, run[0]), StepLog(env, s, run[0]);
      LogSplits(env, s, run, log);
      GainsAreGains(env, s', run[1..]);
      EarlierBudget(log + step, GainLog(env, s', run[1..]), env.limits.longWindow, slack);
      StepKeepsInv(env, s, run[0]);
      StepKeepsDecided(env, s, run[0]);
      StepKeepsCredit(env, s, run[0], log);
      StepKeepsWindows(env, s, run[0], log, slack);
      RunKeepsWindows(env, s', run[1..], log + step, slack);
    }
  }

  /** The limits hold, for charges and for grants, on windows that are short by the slack. */
  ghost predicate WithinLimits(env: Env, s: State, slack: real) {
    && LongKept(s.history, env.limits, slack) && ShortKept(s.history, env.limits, slack)
    && InRange(s.history, s.granted)
    && LongGranted(s.history, s.granted, env.limits, slack) && ShortGranted(s.history, s.granted, env.limits, slack)
  }

  /** For every interleaving of any number of processes, with crashes, failed writes and deletions, and for
      every wall clock. If in no long window of true time the ledger's writes let through more than
      `slack` seconds of hidden gain, then in every window of true time that is shorter by the slack,
      ending at any instant, the airtime charged and the airtime granted are within what the long limit
      allows in a whole window; and the same with the short window, unless it holds a single packet. */
  lemma AirtimeWithinBudget(env: Env, procs: set<nat>, run: seq<Label>, slack: real)
    requires env.limits.Valid() && Legal(env, Start(procs), run) && 0.0 <= slack
    requires Budget(GainLog(env, Start(procs), run), env.limits.longWindow, slack)
    ensures WithinLimits(env, Exec(env, Start(procs), run), slack)
  {
    EmptyKept(env.limits);
    assert [] + GainLog(env, Start(procs), run) == GainLog(env, Start(procs), run);
    RunKeepsWindows(env, Start(procs), run, [], slack);
    RunKeepsInv(env, Start(procs), run);
    var s := Exec(env, Start(procs), run);
    ChargesArePositive(env, s);
    GrantsWithinLimits(s.history, s.granted, env.limits, slack);
  }

  /** A run has no hidden gain exactly when its writes over-credit nothing. */
  lemma {:induction false} QuietMeansNoGains(env: Env, s: State, run: seq<Label>)
    requires Inv(env, s) && Legal(env, s, run)
    ensures QuietRun(env, s, run) <==> NoGains(GainLog(env, s, run))
    decreases |run|
  {
    if run != [] {
      var l, s' := run[0], Apply(env, s, run[0]);
      StepKeepsInv(env, s, l);
      QuietMeansNoGains(env, s', run[1..]);
      QuietStep(env, s, l);
      var step, rest := StepLog(env, s, l), GainLog(env, s', run[1..]);
      assert forall g :: g in step + rest <==> g in step || g in rest;
    }
  }

  lemma QuietStep(env: Env, s: State, l: Label)
    requires Inv(env, s) && Enabled(env, s, l)
    ensures Quiet(env, s, l) <==> NoGains(StepLog(env, s, l))
  {
    if Writes(l) && s.at.Some? {
      var ph := s.procs[l.p];
      assert PhaseOk(env, s, ph);
      OverCreditBound(env.origin, s.at.value, ph.now);
      assert StepLog(env, s, l)[0] in StepLog(env, s, l);
    }
  }

  lemma NoGainsBudget(log: seq<Gained>, window: real)
    requires NoGains(log)
    ensures Budget(log, window, 0.0)
  {
    forall end: real
      ensures GainIn(log, end, window) <= 0.0
    {
      NothingGained(log, 0.0, end, window);
    }
  }

  /** Without any hidden gain: in every window of true time ending at any instant, the airtime charged and
      the airtime granted are within the long limit; and within the short limit unless the window holds a
      single packet. */
  lemma AirtimeWithinLimits(env: Env, procs: set<nat>, run: seq<Label>)
    requires env.limits.Valid() && Legal(env, Start(procs), run) && QuietRun(env, Start(procs), run)
    ensures WithinLimits(env, Exec(env, Start(procs), run), 0.0)
  {
    QuietMeansNoGains(env, Start(procs), run);
    NoGainsBudget(GainLog(env, Start(procs), run), env.limits.longWindow);
    AirtimeWithinBudget(env, procs, run, 0.0);
  }

  /** In every run a charge is credited with at most its true age plus what the writes since it have let
      through. */
  lemma CreditIsLogged(env: Env, procs: set<nat>, run: seq<Label>)
    requires env.limits.Valid() && Legal(env, Start(procs), run)
    ensures var s, log := Exec(env, Start(procs), run), GainLog(env, Start(procs), run);
            s.at.Some? ==> Sound(s.history, s.at.value, env.limits.longWindow, Logged(log))
  {
    assert [] + GainLog(env, Start(procs), run) == GainLog(env, Start(procs), run);
    RunKeepsCredit(env, Start(procs), run, []);
  }

  /** In every run without hidden gains no charge is ever credited with more than its true age: what is
      still in the ledger reads no older than it is, and what left it is a whole window old in true time. */
  lemma CreditIsTrue(env: Env, procs: set<nat>, run: seq<Label>)
    requires env.limits.Valid() && Legal(env, Start(procs), run) && QuietRun(env, Start(procs), run)
    ensures var s := Exec(env, Start(procs), run);
            s.at.Some? ==> Sound(s.history, s.at.value, env.limits.longWindow, Logged([]))
  {
    CreditIsLogged(env, procs, run);
    QuietMeansNoGains(env, Start(procs), run);
    var s := Exec(env, Start(procs), run);
    if s.at.Some? {
      SoundWithoutGains(s.history, s.at.value, env.limits.longWindow, GainLog(env, Start(procs), run));
    }
  }

  /** In every such run, a process whose own sample follows the last write without a hidden gain decides
      on every charge younger than the long window in true time. */
  lemma DecidesOnTheTrueWindow(env: Env, procs: set<nat>, run: seq<Label>, p: nat)
    requires env.limits.Valid() && Legal(env, Start(procs), run) && QuietRun(env, Start(procs), run)
    requires var s := Exec(env, Start(procs), run);
             && p in s.procs && s.procs[p].Granting?
             && (s.at.Some? ==> !HiddenGain(s.at.value, s.procs[p].now))
    ensures var s := Exec(env, Start(procs), run);
            var now, work := s.procs[p].now, s.procs[p].work;
            && s.at.Some?
            && var v := View(s.history, s.at.value.clock, now.clock, env.limits.longWindow);
            && work == Live(v) && |v| == |s.history|
            && forall i :: 0 <= i < |v| && now.time - s.history[i].born < env.limits.longWindow ==> v[i].live
  {
    RunKeepsInv(env, Start(procs), run);
    CreditIsTrue(env, procs, run);
    var s := Exec(env, Start(procs), run);
    assert PhaseOk(env, s, s.procs[p]);
    var at, now := s.at.value, s.procs[p].now;
    NothingUnexpiredMissing(env.origin, s.history, at, now, env.limits.longWindow, Logged([]));
    OverCreditBound(env.origin, at, now);
    forall i | 0 <= i < |s.history|
      ensures Tolerance(Noted(Logged([]), at, now), s.history[i].born, s.history[i].writes) == 0.0
    {
      NothingGained([Gained(now.time, Gain(at, now))], s.history[i].born, 0.0, 0.0);
    }
  }

  // ---------------------------------------------------------------------------
  // A steady wall clock needs no further assumption

  /** Every sample taken in the run, and every sample still in use in the state, satisfies `ok`. */
  ghost predicate RunSamples(run: seq<Label>, ok: Sample -> bool) {
    forall l <- run :: l.Load? ==> ok(l.now)
  }

  ghost predicate StateSamples(s: State, ok: Sample -> bool) {
    && (s.at.Some? ==> ok(s.at.value))
    && (forall p <- s.procs :: s.procs[p].Loaded? || s.procs[p].Granting? ==> ok(s.procs[p].now))
  }

  lemma MoveKeepsSamples(s: State, s': State, p: nat, ok: Sample -> bool)
    requires StateSamples(s, ok) && p in s'.procs && s'.procs == s.procs[p := s'.procs[p]]
    requires s'.at == s.at || (s'.at.Some? && ok(s'.at.value))
    requires s'.procs[p].Loaded? || s'.procs[p].Granting? ==> ok(s'.procs[p].now)
    ensures StateSamples(s', ok)
  {
  }

  lemma StepKeepsSamples(env: Env, s: State, l: Label, ok: Sample -> bool)
    requires env.limits.Valid() && Enabled(env, s, l) && StateSamples(s, ok) && (l.Load? ==> ok(l.now))
    ensures StateSamples(Apply(env, s, l), ok)
  {
    if !l.Tick? && !l.Delete? {
      MoveKeepsSamples(s, Apply(env, s, l), l.p, ok);
    }
  }

  /** Every sample of the run reads the true time plus one fixed offset, across reboots too. */
  ghost predicate SteadyRun(run: seq<Label>, offset: real) {
    RunSamples(run, x => OnTime(x, offset))
  }

  lemma {:induction false} SteadyRunIsQuiet(env: Env, s: State, run: seq<Label>, offset: real)
    requires env.limits.Valid() && Legal(env, s, run) && SteadyRun(run, offset)
    requires StateSamples(s, x => OnTime(x, offset))
    ensures QuietRun(env, s, run)
    decreases |run|
  {
    if run != [] {
      assert run[0] in run;
      StepKeepsSamples(env, s, run[0], x => OnTime(x, offset));
      SteadyRunIsQuiet(env, Apply(env, s, run[0]), run[1..], offset);
    }
  }

  lemma SteadyClockKeepsLimits(env: Env, procs: set<nat>, run: seq<Label>, offset: real)
    requires env.limits.Valid() && Legal(env, Start(procs), run) && SteadyRun(run, offset)
    ensures WithinLimits(env, Exec(env, Start(procs), run), 0.0)
  {
    SteadyRunIsQuiet(env, Start(procs), run, offset);
    AirtimeWithinLimits(env, procs, run);
  }

  // ---------------------------------------------------------------------------
  // Within one boot and with a steady clock, the verdict is the exact test on true time

  ghost predicate InBoot(x: Sample, offset: real, boot: nat) {
    OnTime(x, offset) && x.clock.boot == boot
  }

  ghost predicate OneBootRun(run: seq<Label>, offset: real, boot: nat) {
    RunSamples(run, x => InBoot(x, offset, boot))
  }

  ghost predicate OneBoot(s: State, offset: real, boot: nat) {
    StateSamples(s, x => InBoot(x, offset, boot))
  }

  ghost predicate ExactStore(env: Env, s: State, offset: real) {
    s.at.Some? ==> Exact(s.history, s.at.value, env.limits.longWindow, offset)
  }

  lemma WriteKeepsExact(env: Env, s: State, l: Label, offset: real, boot: nat)
    requires Inv(env, s) && OneBoot(s, offset, boot) && ExactStore(env, s, offset) && Enabled(env, s, l) && Writes(l)
    ensures ExactStore(env, Apply(env, s, l), offset)
  {
    var ph := s.procs[l.p];
    assert PhaseOk(env, s, ph);
    if s.at.Some? {
      ViewExact(env.origin, s.history, s.at.value, ph.now, env.limits.longWindow, offset);
    }
  }

  lemma {:induction false} RunKeepsExact(env: Env, s: State, run: seq<Label>, offset: real, boot: nat)
    requires Inv(env, s) && OneBoot(s, offset, boot) && ExactStore(env, s, offset)
    requires Legal(env, s, run) && OneBootRun(run, offset, boot)
    ensures var e := Exec(env, s, run); Inv(env, e) && OneBoot(e, offset, boot) && ExactStore(env, e, offset)
    decreases |run|
  {
    if run != [] {
      var l, s' := run[0], Apply(env, s, run[0]);
      assert l in run;
      StepKeepsInv(env, s, l);
      StepKeepsSamples(env, s, l, x => InBoot(x, offset, boot));
      if Writes(l) {
        WriteKeepsExact(env, s, l, offset, boot);
      } else {
        OnlyWritesRecord(env, s, l);
      }
      RunKeepsExact(env, s', run[1..], offset, boot);
    }
  }

  /** The limits applied to what was really charged in the two windows ending now. */
  predicate TrulyFits(limits: Limits, history: seq<Record>, airtime: real, now: real)
    requires limits.Valid()
  {
    var short, long := Charged(history, now, limits.shortWindow), Charged(history, now, limits.longWindow);
    && (short > 0.0 ==> Percent(short + airtime, limits.shortWindow) <= limits.shortLimit)
    && Percent(long + airtime, limits.longWindow) <= limits.longLimit
  }

  lemma CountedExactly(limits: Limits, entries: seq<Entry>, history: seq<Record>, airtime: real, wall: real, now: real)
    requires limits.Valid()
    requires Used(entries, limits.shortWindow, wall) == Charged(history, now, limits.shortWindow)
    requires Used(entries, limits.longWindow, wall) == Charged(history, now, limits.longWindow)
    ensures Decide(limits, entries, airtime, wall) == None <==> TrulyFits(limits, history, airtime, now)
  {
  }

  /** Nothing is refused without need either: whoever decides, with any number of processes, crashes and
      deletions before it, grants exactly when the packet fits what was truly charged. */
  lemma VerdictIsExact(env: Env, procs: set<nat>, run: seq<Label>, offset: real, boot: nat, p: nat)
    requires env.limits.Valid() && Legal(env, Start(procs), run) && OneBootRun(run, offset, boot)
    requires Enabled(env, Exec(env, Start(procs), run), Verdict(p))
    ensures var s := Exec(env, Start(procs), run);
            var s' := Apply(env, s, Verdict(p));
            s'.procs[p].Granting? <==> TrulyFits(env.limits, s.history, s.procs[p].airtime, s.procs[p].now.time)
  {
    RunKeepsExact(env, Start(procs), run, offset, boot);
    var s := Exec(env, Start(procs), run);
    assert PhaseOk(env, s, s.procs[p]);
    var at, now, limits := s.at.value, s.procs[p].now, env.limits;
    CountsTheTrueWindow(env.origin, s.history, at, now, limits.longWindow, limits.longWindow, offset);
    CountsTheTrueWindow(env.origin, s.history, at, now, limits.longWindow, limits.shortWindow, offset);
    CountedExactly(limits, s.procs[p].work, s.history, s.procs[p].airtime, now.clock.wall, now.time);
  }

  /** Without any assumption on the wall clock: at every moment a charge still in the ledger is credited
      with at most its true age plus the skew per later write, and one that left it had been credited a
      whole window on the same terms. */
  lemma CreditIsBounded(env: Env, procs: set<nat>, run: seq<Label>)
    requires env.limits.Valid() && Legal(env, Start(procs), run)
    ensures var s := Exec(env, Start(procs), run);
            s.at.Some? ==> Sound(s.history, s.at.value, env.limits.longWindow, PerWrite)
  {
    RunKeepsInv(env, Start(procs), run);
  }
}
