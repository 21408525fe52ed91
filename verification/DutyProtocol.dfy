/** Any number of processes reserving airtime through one lock file and one ledger file, step by step:
    a crash is possible at every step, writes can fail before or after the rename, and the environment
    may delete the ledger at any moment. */
module DutyProtocol {
  import opened Common
  import opened Ledger
  import opened History
  import opened Claims

  /** What a run cannot change: the configured limits, and where each boot's monotonic clock starts. */
  datatype Env = Env(limits: Limits, origin: nat -> real)

  /** `reserve` with the airtime its caller asks for, or `usage`. */
  datatype Call = Reserving(airtime: real) | Status

  /** Where a process is inside one call. */
  datatype Phase =
    | Idle
    | Missing(airtime: real)                                     // the lock file was not found
    | Opened(call: Call, firstUse: bool)                         // lock file open, not locked
    | Holding(call: Call, firstUse: bool)                        // locked
    | Loaded(airtime: real, firstUse: bool, rebased: bool, now: Sample, work: seq<Entry>)
    | Granting(airtime: real, now: Sample, work: seq<Entry>)     // limits passed, nothing charged yet
    | Leaving(grant: Option<Claim>)                              // about to unlock and return

  /** `history` and `at` are the true story: every charge that reached the disk, and the sample of the
      last write. `granted` lists what callers were told they may transmit, each with its charge. */
  datatype State = State(
    time: real,
    lockFile: bool,
    holder: Option<nat>,
    disk: Disk,
    procs: map<nat, Phase>,
    history: seq<Record>,
    at: Option<Sample>,
    firstUses: nat,
    granted: seq<Claim>)

  datatype Label =
    | Tick(seconds: real)
    | Open(p: nat, call: Call)
    | NotFound(p: nat, airtime: real)
    | Create(p: nat)
    | LostRace(p: nat)
    | Flock(p: nat)
    | GiveUp(p: nat)
    | Load(p: nat, now: Sample)
    | LoadFails(p: nat, now: Sample)
    | Peek(p: nat)
    | WriteInit(p: nat, outcome: WriteOutcome)
    | WriteRebase(p: nat, outcome: WriteOutcome)
    | Verdict(p: nat)
    | WriteCharge(p: nat, outcome: WriteOutcome)
    | Return(p: nat, unlocked: bool)
    | Crash(p: nat)
    | Delete

  // ---------------------------------------------------------------------------
  // The steps

  ghost predicate Enabled(env: Env, s: State, l: Label) {
    match l
    case Tick(seconds) => seconds >= 0.0
    case Delete => true
    case Open(p, call) => p in s.procs && s.procs[p].Idle? && s.lockFile && (call.Reserving? ==> call.airtime > 0.0)
    case NotFound(p, airtime) => p in s.procs && s.procs[p].Idle? && !s.lockFile && airtime > 0.0
    case Create(p) => p in s.procs && s.procs[p].Missing? && !s.lockFile
    case LostRace(p) => p in s.procs && s.procs[p].Missing? && s.lockFile
    case Flock(p) => p in s.procs && s.procs[p].Opened? && s.holder.None?
    case GiveUp(p) => p in s.procs && s.procs[p].Opened?
    case Load(p, now) => CanRead(env, s, p, now) && Read(s.disk, s.procs[p].firstUse, now.clock).Success?
    case LoadFails(p, now) => CanRead(env, s, p, now) && Read(s.disk, s.procs[p].firstUse, now.clock).Failure?
    case Peek(p) => p in s.procs && s.procs[p].Holding? && s.procs[p].call.Status?
    case WriteInit(p, _) => p in s.procs && s.procs[p].Loaded? && s.procs[p].firstUse
    case WriteRebase(p, _) => p in s.procs && s.procs[p].Loaded? && !s.procs[p].firstUse && s.procs[p].rebased
    case Verdict(p) => p in s.procs && s.procs[p].Loaded? && !s.procs[p].firstUse && !s.procs[p].rebased
    case WriteCharge(p, _) => p in s.procs && s.procs[p].Granting?
    case Return(p, _) => p in s.procs && s.procs[p].Leaving?
    case Crash(p) => p in s.procs
  }

  ghost predicate CanRead(env: Env, s: State, p: nat, now: Sample) {
    && p in s.procs && s.procs[p].Holding? && s.procs[p].call.Reserving?
    && now.time == s.time && Physical(env.origin, now)
  }

  function Goto(s: State, p: nat, phase: Phase): State {
    s.(procs := s.procs[p := phase])
  }

  /** The records after a write at `now`; before the very first write there are none. */
  function Rewritten(s: State, now: Sample, window: real): seq<Record> {
    if s.at.Some? then Persisted(s.history, s.at.value.clock, now.clock, window) else s.history
  }

  function Release(s: State, p: nat): State {
    if s.holder == Some(p) then s.(holder := None) else s
  }

  function Apply(env: Env, s: State, l: Label): State
    requires env.limits.Valid() && Enabled(env, s, l)
  {
    match l
    case Tick(seconds) => s.(time := s.time + seconds)
    case Delete => s.(disk := Absent)
    case Open(p, call) => Goto(s, p, Opened(call, false))
    case NotFound(p, airtime) => Goto(s, p, Missing(airtime))
    case Create(p) =>
      Goto(s.(lockFile := true, firstUses := s.firstUses + 1), p, Opened(Reserving(s.procs[p].airtime), true))
    case LostRace(p) => Goto(s, p, Opened(Reserving(s.procs[p].airtime), false))
    case Flock(p) => Goto(s.(holder := Some(p)), p, Holding(s.procs[p].call, s.procs[p].firstUse))
    case GiveUp(p) => Goto(s, p, Idle)
    case Load(p, now) => Goto(s, p, LoadedPhase(env, s, s.procs[p].call.airtime, s.procs[p].firstUse, now))
    case LoadFails(p, now) => Goto(s, p, Leaving(None))
    case Peek(p) => Goto(s, p, Leaving(None))
    case WriteInit(p, outcome) => WriteBack(env, s, p, outcome, s.procs[p].rebased)
    case WriteRebase(p, outcome) => WriteBack(env, s, p, outcome, false)
    case Verdict(p) => Goto(s, p, VerdictPhase(s.procs[p], Verdicts(env, s.procs[p])))
    case WriteCharge(p, outcome) => WriteOut(env, s, p, outcome)
    case Return(p, unlocked) =>
      var left := Release(Goto(s, p, Idle), p);
      if unlocked && s.procs[p].grant.Some? then left.(granted := s.granted + [s.procs[p].grant.value]) else left
    case Crash(p) => Release(Goto(s, p, Idle), p)
  }

  /** What a process holds after reading, correcting and pruning. */
  function LoadedPhase(env: Env, s: State, airtime: real, firstUse: bool, now: Sample): Phase
    requires Read(s.disk, firstUse, now.clock).Success?
  {
    var r := Read(s.disk, firstUse, now.clock).value;
    Loaded(airtime, firstUse, r.rebased, now, Kept(env.limits, r, now.clock))
  }

  /** The limit decision on what the process has loaded. */
  function Verdicts(env: Env, ph: Phase): Option<Refusal>
    requires env.limits.Valid() && ph.Loaded?
  {
    Decide(env.limits, ph.work, ph.airtime, ph.now.clock.wall)
  }

  function VerdictPhase(ph: Phase, decision: Option<Refusal>): Phase
    requires ph.Loaded?
  {
    if decision.Some? then Leaving(None) else Granting(ph.airtime, ph.now, ph.work)
  }

  /** Replace the ledger by the entries with the new charge appended. */
  function WriteOut(env: Env, s: State, p: nat, outcome: WriteOutcome): State
    requires p in s.procs && s.procs[p].Granting?
  {
    var ph := s.procs[p];
    if outcome == KeptOld then Goto(s, p, Leaving(None))
    else
      var records := Rewritten(s, ph.now, env.limits.longWindow) + [NewCharge(ph.now, ph.airtime)];
      var charged := s.(disk := Stored(true, Some(ph.now.clock), ph.work + [Entry(ph.now.clock.wall, ph.airtime)]),
                        history := records, at := Some(ph.now));
      Goto(charged, p, Leaving(if outcome == Written then Some(Claim(|records| - 1, ph.airtime)) else None))
  }

  /** Replace the ledger by the corrected entries; `rebased` tells whether a second write is due. */
  function WriteBack(env: Env, s: State, p: nat, outcome: WriteOutcome, rebased: bool): State
    requires p in s.procs && s.procs[p].Loaded?
  {
    var ph := s.procs[p];
    if outcome == KeptOld then Goto(s, p, Leaving(None))
    else
      var written := s.(disk := Stored(true, Some(ph.now.clock), ph.work),
                        history := Rewritten(s, ph.now, env.limits.longWindow), at := Some(ph.now));
      Goto(written, p, if outcome == Written then ph.(firstUse := false, rebased := rebased) else Leaving(None))
  }

  // ---------------------------------------------------------------------------
  // Runs

  function Start(procs: set<nat>): State {
    State(0.0, false, None, Absent, map p | p in procs :: Idle, [], None, 0, [])
  }

  ghost predicate Legal(env: Env, s: State, run: seq<Label>)
    requires env.limits.Valid()
    decreases |run|
  {
    run == [] || (Enabled(env, s, run[0]) && Legal(env, Apply(env, s, run[0]), run[1..]))
  }

  function Exec(env: Env, s: State, run: seq<Label>): State
    requires env.limits.Valid() && Legal(env, s, run)
    decreases |run|
  {
    if run == [] then s else Exec(env, Apply(env, s, run[0]), run[1..])
  }

  // ---------------------------------------------------------------------------
  // What every step keeps

  predicate Critical(ph: Phase) {
    ph.Holding? || ph.Loaded? || ph.Granting? || ph.Leaving?
  }

  predicate First(ph: Phase) {
    (ph.Opened? || ph.Holding? || ph.Loaded?) && ph.firstUse
  }

  /** The airtime a process inside a reservation was called with, as long as it may still be granted. */
  function Asked(ph: Phase): Option<real> {
    match ph
    case Missing(airtime) => Some(airtime)
    case Opened(Reserving(airtime), _) => Some(airtime)
    case Holding(Reserving(airtime), _) => Some(airtime)
    case Loaded(airtime, _, _, _, _) => Some(airtime)
    case Granting(airtime, _, _) => Some(airtime)
    case Leaving(Some(grant)) => Some(grant.airtime)
    case _ => None
  }

  /** The process works on exactly what the records show at its own sample. */
  ghost predicate Faithful(env: Env, s: State, now: Sample, work: seq<Entry>) {
    && s.at.Some? && s.at.value.time <= now.time <= s.time && Physical(env.origin, now)
    && work == Live(View(s.history, s.at.value.clock, now.clock, env.limits.longWindow))
  }

  ghost predicate PhaseOk(env: Env, s: State, ph: Phase) {
    && (Asked(ph).Some? ==> Asked(ph).value > 0.0)
    && (First(ph) ==> s.at.None?)
    && (!ph.Idle? && !ph.Missing? ==> s.lockFile)
    && ((ph.Opened? || ph.Holding?) && ph.call.Status? ==> !ph.firstUse)
    && (ph.Loaded? && ph.firstUse ==>
          ph.work == [] && !ph.rebased && ph.now.time <= s.time && Physical(env.origin, ph.now))
    && (ph.Loaded? && !ph.firstUse ==> Faithful(env, s, ph.now, ph.work))
    && (ph.Granting? ==> Faithful(env, s, ph.now, ph.work))
    && (ph.Leaving? && ph.grant.Some? ==> Pays(s.history, ph.grant.value) && Untold(s, ph.grant.value.charge))
  }

  ghost predicate StoreOk(env: Env, s: State) {
    if s.at.None? then s.history == [] && s.disk == Absent
    else
      && Physical(env.origin, s.at.value) && s.at.value.time <= s.time
      && Sound(s.history, s.at.value, env.limits.longWindow, PerWrite)
      && (s.disk == Absent || s.disk == Stored(true, Some(s.at.value.clock), Live(s.history)))
  }

  /** Nobody has been told of this charge yet. */
  predicate Untold(s: State, charge: nat) {
    forall g <- s.granted :: g.charge != charge
  }

  /** Every grant is a charge of its own, of exactly the airtime granted. */
  ghost predicate GrantsOk(s: State) {
    PaidInFull(s.history, s.granted) && Distinct(s.granted)
  }

  ghost predicate Inv(env: Env, s: State) {
    && env.limits.Valid()
    && s.firstUses == (if s.lockFile then 1 else 0)
    && (s.at.Some? ==> s.lockFile)
    && (s.holder.Some? ==> s.holder.value in s.procs)
    && (forall p <- s.procs :: Critical(s.procs[p]) <==> s.holder == Some(p))
    && (forall p, q :: p in s.procs && q in s.procs && First(s.procs[p]) && First(s.procs[q]) ==> p == q)
    && (forall p <- s.procs :: PhaseOk(env, s, s.procs[p]))
    && StoreOk(env, s)
    && GrantsOk(s)
  }

  /** A process is not disturbed while the records stay and nobody returns its charge. */
  lemma PhaseStays(env: Env, s: State, s': State, ph: Phase)
    requires PhaseOk(env, s, ph)
    requires s'.at == s.at && s'.history == s.history && s.time <= s'.time && (s.lockFile ==> s'.lockFile)
    requires ph.Leaving? && ph.grant.Some? ==> Untold(s', ph.grant.value.charge)
    ensures PhaseOk(env, s', ph)
  {
  }

  /** Before the lock is taken: opening, finding nothing, losing the race, giving up. */
  lemma OuterStepKeepsInv(env: Env, s: State, l: Label)
    requires Inv(env, s) && Enabled(env, s, l)
    requires l.Open? || l.NotFound? || l.LostRace? || l.GiveUp?
    ensures Inv(env, Apply(env, s, l))
  {
    assert PhaseOk(env, s, s.procs[l.p]);
    MoveKeepsInv(env, s, l.p, match l
                              case Open(_, call) => Opened(call, false)
                              case NotFound(_, airtime) => Missing(airtime)
                              case LostRace(p) => Opened(Reserving(s.procs[p].airtime), false)
                              case _ => Idle);
  }

  lemma WorldStepKeepsInv(env: Env, s: State, l: Label)
    requires Inv(env, s) && Enabled(env, s, l)
    requires l.Tick? || l.Delete?
    ensures Inv(env, Apply(env, s, l))
  {
    var s' := Apply(env, s, l);
    forall q | q in s'.procs
      ensures PhaseOk(env, s', s'.procs[q])
    {
      PhaseStays(env, s, s', s.procs[q]);
    }
  }

  lemma CreateKeepsInv(env: Env, s: State, p: nat)
    requires Inv(env, s) && Enabled(env, s, Create(p))
    ensures Inv(env, Apply(env, s, Create(p)))
  {
    var s' := Apply(env, s, Create(p));
    forall q | q in s'.procs
      ensures PhaseOk(env, s', s'.procs[q])
    {
      assert PhaseOk(env, s, s.procs[q]);
      if q != p {
        PhaseStays(env, s, s', s.procs[q]);
      }
    }
  }

  lemma FlockKeepsInv(env: Env, s: State, p: nat)
    requires Inv(env, s) && Enabled(env, s, Flock(p))
    ensures Inv(env, Apply(env, s, Flock(p)))
  {
    var s' := Apply(env, s, Flock(p));
    forall q | q in s'.procs
      ensures PhaseOk(env, s', s'.procs[q])
    {
      assert PhaseOk(env, s, s.procs[q]);
      if q != p {
        PhaseStays(env, s, s', s.procs[q]);
      }
    }
  }

  /** Losing the lock, by returning or by crashing. */
  lemma LeaveKeepsInv(env: Env, s: State, p: nat)
    requires Inv(env, s) && p in s.procs
    ensures Inv(env, Release(Goto(s, p, Idle), p))
  {
    var s' := Release(Goto(s, p, Idle), p);
    forall q | q in s'.procs
      ensures PhaseOk(env, s', s'.procs[q])
    {
      assert PhaseOk(env, s, s.procs[q]);
      if q != p {
        PhaseStays(env, s, s', s.procs[q]);
      }
    }
  }

  /** The caller is told: its charge moves from the phase to the list of grants. */
  function Told(s: State, p: nat, grant: Claim): State {
    Goto(s, p, Leaving(None)).(granted := s.granted + [grant])
  }

  lemma TellingKeepsInv(env: Env, s: State, p: nat, grant: Claim)
    requires Inv(env, s) && p in s.procs && s.procs[p] == Leaving(Some(grant))
    ensures Inv(env, Told(s, p, grant))
  {
    var s' := Told(s, p, grant);
    assert PhaseOk(env, s, s.procs[p]);
    forall q | q in s'.procs
      ensures PhaseOk(env, s', s'.procs[q])
    {
      if q != p {
        assert PhaseOk(env, s, s.procs[q]) && !Critical(s.procs[q]);
        PhaseStays(env, s, s', s.procs[q]);
      }
    }
  }

  lemma ReturnKeepsInv(env: Env, s: State, p: nat, unlocked: bool)
    requires Inv(env, s) && Enabled(env, s, Return(p, unlocked))
    ensures Inv(env, Apply(env, s, Return(p, unlocked)))
  {
    if unlocked && s.procs[p].grant.Some? {
      var told := Told(s, p, s.procs[p].grant.value);
      TellingKeepsInv(env, s, p, s.procs[p].grant.value);
      LeaveKeepsInv(env, told, p);
      assert told.procs[p := Idle] == s.procs[p := Idle];
    } else {
      LeaveKeepsInv(env, s, p);
    }
  }

  lemma VerdictKeepsInv(env: Env, s: State, p: nat, decision: Option<Refusal>)
    requires Inv(env, s) && Enabled(env, s, Verdict(p))
    ensures Inv(env, Goto(s, p, VerdictPhase(s.procs[p], decision)))
  {
    assert PhaseOk(env, s, s.procs[p]);
    MoveKeepsInv(env, s, p, VerdictPhase(s.procs[p], decision));
  }

  lemma StopKeepsInv(env: Env, s: State, p: nat)
    requires Inv(env, s) && p in s.procs && Critical(s.procs[p])
    ensures Inv(env, Goto(s, p, Leaving(None)))
  {
    assert PhaseOk(env, s, s.procs[p]);
    MoveKeepsInv(env, s, p, Leaving(None));
  }

  lemma LoadFaithful(env: Env, s: State, airtime: real, first: bool, now: Sample)
    requires StoreOk(env, s) && (first ==> s.at.None?)
    requires now.time == s.time && Physical(env.origin, now) && Read(s.disk, first, now.clock).Success?
    ensures var ph := LoadedPhase(env, s, airtime, first, now);
            if s.at.None? then first && ph.work == [] && !ph.rebased else Faithful(env, s, now, ph.work)
  {
    if s.at.Some? {
      var past, live := s.at.value.clock, Live(s.history);
      assert s.disk == Stored(true, Some(past), live);
      assert Read(s.disk, first, now.clock).value.entries == Rebase(live, Shift(past, now.clock));
      LiveOfView(s.history, past, now.clock, env.limits.longWindow);
    }
  }

  lemma LoadKeepsInv(env: Env, s: State, p: nat, now: Sample)
    requires Inv(env, s) && CanRead(env, s, p, now) && Read(s.disk, s.procs[p].firstUse, now.clock).Success?
    ensures Inv(env, Goto(s, p, LoadedPhase(env, s, s.procs[p].call.airtime, s.procs[p].firstUse, now)))
  {
    assert PhaseOk(env, s, s.procs[p]);
    var airtime, first := s.procs[p].call.airtime, s.procs[p].firstUse;
    LoadFaithful(env, s, airtime, first, now);
    MoveKeepsInv(env, s, p, LoadedPhase(env, s, airtime, first, now));
  }

  /** A move of one process that changes nothing else. */
  lemma MoveKeepsInv(env: Env, s: State, p: nat, ph: Phase)
    requires Inv(env, s) && p in s.procs
    requires Critical(ph) == Critical(s.procs[p]) && (First(ph) ==> First(s.procs[p])) && PhaseOk(env, s, ph)
    ensures Inv(env, Goto(s, p, ph))
  {
    var s' := Goto(s, p, ph);
    forall q | q in s'.procs
      ensures PhaseOk(env, s', s'.procs[q])
    {
      PhaseStays(env, s, s', if q == p then ph else s.procs[q]);
    }
  }

  /** The holder `p` replaces the ledger and moves on; every other process is outside the lock. */
  lemma HolderKeepsInv(env: Env, s: State, s': State, p: nat)
    requires Inv(env, s) && p in s.procs && Critical(s.procs[p])
    requires p in s'.procs
    requires s' == s.(disk := s'.disk, history := s'.history, at := s'.at, procs := s.procs[p := s'.procs[p]])
    requires Critical(s'.procs[p]) && !First(s'.procs[p])
    requires s.at.None? ==> First(s.procs[p])
    requires s'.at.Some? && StoreOk(env, s') && PhaseOk(env, s', s'.procs[p])
    requires Extends(s.history, s'.history)
    ensures Inv(env, s')
  {
    assert PhaseOk(env, s, s.procs[p]);
    forall q | q in s'.procs
      ensures PhaseOk(env, s', s'.procs[q])
    {
      if q != p {
        assert PhaseOk(env, s, s.procs[q]) && !Critical(s.procs[q]);
        assert !First(s.procs[q]);
      }
    }
  }

  /** The corrected ledger is on disk; looking again at the same sample shows the same entries. */
  lemma RewrittenShows(env: Env, s: State, now: Sample, work: seq<Entry>)
    requires env.limits.Valid() && StoreOk(env, s) && Faithful(env, s, now, work)
    ensures var h, window := Rewritten(s, now, env.limits.longWindow), env.limits.longWindow;
            && |h| == |s.history| && Extends(s.history, h)
            && Live(h) == work && Live(View(h, now.clock, now.clock, window)) == work
            && Sound(h, now, window, PerWrite)
  {
    var window := env.limits.longWindow;
    PersistKeepsSound(env.origin, s.history, s.at.value, now, window, PerWrite);
    ViewTwice(s.history, s.at.value.clock, now.clock, window);
    ViewAt(s.history, s.at.value.clock, now.clock, window);
    CountedAt(View(s.history, s.at.value.clock, now.clock, window));
  }

  lemma WriteBackKeepsInv(env: Env, s: State, p: nat, outcome: WriteOutcome, rebased: bool)
    requires Inv(env, s) && p in s.procs && s.procs[p].Loaded?
    ensures Inv(env, WriteBack(env, s, p, outcome, rebased))
  {
    assert PhaseOk(env, s, s.procs[p]);
    var now, work := s.procs[p].now, s.procs[p].work;
    var s' := WriteBack(env, s, p, outcome, rebased);
    if outcome == KeptOld {
      MoveKeepsInv(env, s, p, Leaving(None));
    } else {
      if s.at.Some? {
        RewrittenShows(env, s, now, work);
      }
      HolderKeepsInv(env, s, s', p);
    }
  }

  lemma ChargeKeepsInv(env: Env, s: State, p: nat, outcome: WriteOutcome)
    requires Inv(env, s) && p in s.procs && s.procs[p].Granting?
    ensures Inv(env, WriteOut(env, s, p, outcome))
  {
    assert PhaseOk(env, s, s.procs[p]);
    if outcome == KeptOld {
      StopKeepsInv(env, s, p);
    } else {
      var s' := WriteOut(env, s, p, outcome);
      assert s'.procs == s.procs[p := s'.procs[p]] && s'.procs[p].Leaving? && s'.at.Some?;
      ChargedStore(env, s, p, outcome);
      HolderKeepsInv(env, s, s', p);
    }
  }

  /** The records with the new charge are what the charged ledger shows. */
  lemma ChargedRecords(env: Env, s: State, now: Sample, work: seq<Entry>, airtime: real)
    requires env.limits.Valid() && StoreOk(env, s) && Faithful(env, s, now, work) && airtime > 0.0
    ensures var records := Rewritten(s, now, env.limits.longWindow) + [NewCharge(now, airtime)];
            && Extends(s.history, records) && |records| == |s.history| + 1
            && Live(records) == work + [Entry(now.clock.wall, airtime)]
            && Sound(records, now, env.limits.longWindow, PerWrite)
  {
    RewrittenShows(env, s, now, work);
    var rewritten := Rewritten(s, now, env.limits.longWindow);
    var records := rewritten + [NewCharge(now, airtime)];
    assert records[..|rewritten|] == rewritten;
    ChargeKeepsSound(env.origin, s.history, s.at.value, now, env.limits.longWindow, airtime, PerWrite);
  }

  lemma ChargedStore(env: Env, s: State, p: nat, outcome: WriteOutcome)
    requires env.limits.Valid() && StoreOk(env, s) && GrantsOk(s) && s.lockFile && outcome != KeptOld
    requires p in s.procs && s.procs[p].Granting? && PhaseOk(env, s, s.procs[p])
    ensures var s' := WriteOut(env, s, p, outcome);
            StoreOk(env, s') && PhaseOk(env, s', s'.procs[p]) && Extends(s.history, s'.history)
  {
    ChargedRecords(env, s, s.procs[p].now, s.procs[p].work, s.procs[p].airtime);
  }

  lemma StepKeepsInv(env: Env, s: State, l: Label)
    requires Inv(env, s) && Enabled(env, s, l)
    ensures Inv(env, Apply(env, s, l))
  {
    match l
    case Load(p, now) => LoadKeepsInv(env, s, p, now);
    case WriteInit(p, outcome) => WriteBackKeepsInv(env, s, p, outcome, s.procs[p].rebased);
    case WriteRebase(p, outcome) => WriteBackKeepsInv(env, s, p, outcome, false);
    case WriteCharge(p, outcome) => ChargeKeepsInv(env, s, p, outcome);
    case Flock(p) => FlockKeepsInv(env, s, p);
    case Return(p, unlocked) => ReturnKeepsInv(env, s, p, unlocked);
    case Crash(p) => LeaveKeepsInv(env, s, p);
    case LoadFails(p, _) => StopKeepsInv(env, s, p);
    case Peek(p) => StopKeepsInv(env, s, p);
    case Verdict(p) => VerdictKeepsInv(env, s, p, Verdicts(env, s.procs[p]));
    case Create(p) => CreateKeepsInv(env, s, p);
    case Tick(_) => WorldStepKeepsInv(env, s, l);
    case Delete => WorldStepKeepsInv(env, s, l);
    case _ => OuterStepKeepsInv(env, s, l);
  }

  lemma {:induction false} RunKeepsInv(env: Env, s: State, run: seq<Label>)
    requires Inv(env, s) && Legal(env, s, run)
    ensures Inv(env, Exec(env, s, run))
    decreases |run|
  {
    if run != [] {
      StepKeepsInv(env, s, run[0]);
      RunKeepsInv(env, Apply(env, s, run[0]), run[1..]);
    }
  }

  lemma ChargesArePositive(env: Env, s: State)
    requires Inv(env, s)
    ensures forall r <- s.history :: r.airtime > 0.0
  {
    if s.at.Some? {
      assert forall r <- s.history :: SoundRecord(r, s.at.value, env.limits.longWindow, PerWrite);
    }
  }
}
