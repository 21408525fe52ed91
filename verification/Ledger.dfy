/** The airtime ledger: what one locked operation computes from the ledger file and one clock sample,
    and what its stamp correction credits to the recorded transmissions in true time. */
module Ledger {
  import opened Common

  const CLOCK_SKEW_S := 60.0

  /** A reservation as it is stored: the wall-clock stamp and the seconds on air. */
  datatype Entry = Entry(stamp: real, airtime: real)

  /** The clock evidence of the host: monotonic time is comparable only within one boot. */
  datatype Clock = Clock(boot: nat, mono: real, wall: real)

  datatype Limits = Limits(shortWindow: real, shortLimit: real, longWindow: real, longLimit: real) {
    predicate Valid() {
      0.0 < shortWindow <= longWindow && 0.0 <= shortLimit && 0.0 <= longLimit
    }
  }

  /** What the ledger's path can hold. `Damaged` covers everything that fails to parse: bad JSON,
      an unknown version, entries that are not pairs of finite numbers. */
  datatype Disk =
    | Absent
    | Blank
    | Damaged
    | Stored(initialised: bool, clock: Option<Clock>, entries: seq<Entry>)

  /** Why airtime is not granted: the ledger, the limits, or the lock. */
  datatype Refusal =
    | Disappeared | Empty | Unreadable | WriteFailed
    | ShortTerm | LongTerm
    | LockBusy | LockBroken | NotReleased

  // ---------------------------------------------------------------------------
  // Correction of stamps

  function Abs(x: real): real {
    if x < 0.0 then -x else x
  }

  /** How far every stamp is moved when a ledger written at `past` is read at `now`. */
  function Shift(past: Clock, now: Clock): real {
    if past.boot != now.boot then
      var step := now.wall - past.wall;
      if step > CLOCK_SKEW_S then step else 0.0
    else
      var step := (now.wall - past.wall) - (now.mono - past.mono);
      if Abs(step) <= CLOCK_SKEW_S then 0.0 else step
  }

  function ShiftOf(clock: Option<Clock>, now: Clock): real {
    if clock.Some? then Shift(clock.value, now) else 0.0
  }

  function Rebase(entries: seq<Entry>, step: real): seq<Entry> {
    if entries == [] then []
    else
      var e := entries[|entries| - 1];
      Rebase(entries[..|entries| - 1], step) + [e.(stamp := e.stamp + step)]
  }

  // ---------------------------------------------------------------------------
  // Windows

  function Prune(entries: seq<Entry>, cutoff: real): seq<Entry> {
    if entries == [] then []
    else
      var e := entries[|entries| - 1];
      Prune(entries[..|entries| - 1], cutoff) + if e.stamp > cutoff then [e] else []
  }

  function Used(entries: seq<Entry>, window: real, now: real): real {
    if entries == [] then 0.0
    else
      var e := entries[|entries| - 1];
      Used(entries[..|entries| - 1], window, now) + if e.stamp > now - window then e.airtime else 0.0
  }

  function Percent(seconds: real, window: real): real
    requires window > 0.0
  {
    seconds / window * 100.0
  }

  /** The limit decision on pruned entries; None grants. */
  function Decide(limits: Limits, entries: seq<Entry>, airtime: real, now: real): Option<Refusal>
    requires limits.Valid()
  {
    var short, long := Used(entries, limits.shortWindow, now), Used(entries, limits.longWindow, now);
    if short > 0.0 && Percent(short + airtime, limits.shortWindow) > limits.shortLimit then Some(ShortTerm)
    else if Percent(long + airtime, limits.longWindow) > limits.longLimit then Some(LongTerm)
    else None
  }

  // ---------------------------------------------------------------------------
  // Reading

  predicate Plausible(e: Entry, now: Clock) {
    e.airtime > 0.0 && e.stamp <= now.wall + CLOCK_SKEW_S
  }

  predicate Usable(entries: seq<Entry>, now: Clock) {
    forall e <- entries :: Plausible(e, now)
  }

  datatype Reading = Reading(entries: seq<Entry>, rebased: bool)

  function Read(disk: Disk, firstUse: bool, now: Clock): Result<Reading, Refusal> {
    match disk
    case Absent => if firstUse then Success(Reading([], false)) else Failure(Disappeared)
    case Blank => Failure(Empty)
    case Damaged => Failure(Unreadable)
    case Stored(initialised, clock, entries) =>
      if entries == [] && !(firstUse || initialised) then Failure(Unreadable)
      else if !Usable(entries, now) then Failure(Unreadable)
      else
        var step := ShiftOf(clock, now);
        Success(Reading(Rebase(entries, step), entries != [] && step != 0.0))
  }

  // ---------------------------------------------------------------------------
  // One locked reservation

  /** How an atomic replacement of the ledger can end: done; failed with the old file in place; or
      failed after the rename (the directory sync), with the new file in place. */
  datatype WriteOutcome = Written | KeptOld | KeptNew

  function Write(disk: Disk, entries: seq<Entry>, now: Clock, outcome: WriteOutcome): Disk {
    if outcome == KeptOld then disk else Stored(true, Some(now), entries)
  }

  /** The outcomes of the (up to) three writes of one reservation. */
  datatype Io = Io(init: WriteOutcome, rebase: WriteOutcome, charge: WriteOutcome)

  const RELIABLE := Io(Written, Written, Written)

  /** A write that is needed only in some cases: whether the operation goes on, and the disk. */
  function Persist(disk: Disk, entries: seq<Entry>, now: Clock, needed: bool, outcome: WriteOutcome): (bool, Disk) {
    if needed then (outcome == Written, Write(disk, entries, now, outcome)) else (true, disk)
  }

  /** Act on the limit decision: the charge is persisted before the transmission may begin. */
  function Commit(decision: Option<Refusal>, disk: Disk, entries: seq<Entry>, airtime: real, now: Clock,
                  outcome: WriteOutcome): (Option<Refusal>, Disk)
  {
    if decision.Some? then (decision, disk)
    else
      (if outcome == Written then None else Some(WriteFailed),
       Write(disk, entries + [Entry(now.wall, airtime)], now, outcome))
  }

  /** Everything after reading and pruning: the writes that are due, then the decision. */
  function Settle(decision: Option<Refusal>, disk: Disk, entries: seq<Entry>, firstUse: bool, rebased: bool,
                  airtime: real, now: Clock, io: Io): (Option<Refusal>, Disk)
  {
    var (ok1, disk1) := Persist(disk, entries, now, firstUse, io.init);
    if !ok1 then (Some(WriteFailed), disk1)
    else
      var (ok2, disk2) := Persist(disk1, entries, now, rebased, io.rebase);
      if !ok2 then (Some(WriteFailed), disk2)
      else Commit(decision, disk2, entries, airtime, now, io.charge)
  }

  function Kept(limits: Limits, reading: Reading, now: Clock): seq<Entry> {
    Prune(reading.entries, now.wall - limits.longWindow)
  }

  /** `reserve` between taking and releasing the lock: the verdict (None grants) and the new disk. */
  function Reserve(limits: Limits, disk: Disk, firstUse: bool, airtime: real, now: Clock, io: Io)
    : (Option<Refusal>, Disk)
    requires limits.Valid()
  {
    var r := Read(disk, firstUse, now);
    if r.Failure? then (Some(r.error), disk)
    else
      var entries := Kept(limits, r.value, now);
      Settle(Decide(limits, entries, airtime, now.wall), disk, entries, firstUse, r.value.rebased, airtime, now, io)
  }

  // ---------------------------------------------------------------------------
  // Recovery: stamps never run ahead of the recorded clock by more than the skew, and a correction is
  // applied once.

  ghost predicate StampsBounded(entries: seq<Entry>, wall: real) {
    forall e <- entries :: e.stamp <= wall + CLOCK_SKEW_S
  }

  ghost predicate WellStamped(disk: Disk) {
    disk.Stored? ==> disk.clock.Some? && StampsBounded(disk.entries, disk.clock.value.wall)
  }

  /** Monotonic time does not run backwards within one boot. */
  predicate Later(past: Clock, now: Clock) {
    past.boot == now.boot ==> past.mono <= now.mono
  }

  lemma {:induction false} RebaseStamps(entries: seq<Entry>, step: real)
    ensures |Rebase(entries, step)| == |entries|
    ensures forall i :: 0 <= i < |entries| ==> Rebase(entries, step)[i] == entries[i].(stamp := entries[i].stamp + step)
  {
    if entries != [] {
      RebaseStamps(entries[..|entries| - 1], step);
    }
  }

  lemma {:induction false} RebaseByZero(entries: seq<Entry>)
    ensures Rebase(entries, 0.0) == entries
  {
    RebaseStamps(entries, 0.0);
  }

  lemma {:induction false} PruneKeeps(entries: seq<Entry>, cutoff: real)
    ensures forall e :: e in Prune(entries, cutoff) <==> e in entries && e.stamp > cutoff
    ensures (forall e <- entries :: e.stamp > cutoff) ==> Prune(entries, cutoff) == entries
  {
    if entries != [] {
      var n := |entries| - 1;
      assert entries == entries[..n] + [entries[n]];
      PruneKeeps(entries[..n], cutoff);
    }
  }

  lemma ReadStamps(disk: Disk, firstUse: bool, now: Clock)
    requires WellStamped(disk) && Read(disk, firstUse, now).Success?
    requires disk.Stored? ==> Later(disk.clock.value, now)
    ensures StampsBounded(Read(disk, firstUse, now).value.entries, now.wall)
  {
    if disk.Stored? {
      var r := Rebase(disk.entries, ShiftOf(disk.clock, now));
      RebaseStamps(disk.entries, ShiftOf(disk.clock, now));
      forall i | 0 <= i < |r|
        ensures r[i].stamp <= now.wall + CLOCK_SKEW_S
      {
        assert disk.entries[i] in disk.entries && Plausible(disk.entries[i], now);
        ShiftKeepsBound(disk.clock.value, now, disk.entries[i].stamp);
      }
    }
  }

  /** A stamp within the skew of both clock readings stays so when it is corrected. */
  lemma ShiftKeepsBound(past: Clock, now: Clock, stamp: real)
    requires Later(past, now)
    requires stamp <= past.wall + CLOCK_SKEW_S && stamp <= now.wall + CLOCK_SKEW_S
    ensures stamp + Shift(past, now) <= now.wall + CLOCK_SKEW_S
  {
  }

  /** The three disks a reservation can leave: the old one, the corrected ledger, the charged ledger. */
  ghost predicate LeftAs(d: Disk, disk: Disk, kept: seq<Entry>, airtime: real, now: Clock) {
    || d == disk
    || d == Stored(true, Some(now), kept)
    || d == Stored(true, Some(now), kept + [Entry(now.wall, airtime)])
  }

  lemma SettleLeaves(decision: Option<Refusal>, disk: Disk, entries: seq<Entry>, firstUse: bool, rebased: bool,
                     airtime: real, now: Clock, io: Io)
    ensures var (verdict, d) := Settle(decision, disk, entries, firstUse, rebased, airtime, now, io);
            && LeftAs(d, disk, entries, airtime, now)
            && (verdict == None ==> d == Stored(true, Some(now), entries + [Entry(now.wall, airtime)]))
            && (verdict == None <==> decision == None && io.charge == Written
                                     && (firstUse ==> io.init == Written) && (rebased ==> io.rebase == Written))
  {
  }

  /** A grant is always charged on disk; a ledger that cannot be read refuses and stays as it is; and
      every other failure refuses too, leaving the old ledger, the corrected one or the charged one. */
  lemma FailClosed(limits: Limits, disk: Disk, firstUse: bool, airtime: real, now: Clock, io: Io)
    requires limits.Valid()
    ensures var (verdict, d) := Reserve(limits, disk, firstUse, airtime, now, io);
            if Read(disk, firstUse, now).Failure? then verdict.Some? && d == disk
            else
              var kept := Kept(limits, Read(disk, firstUse, now).value, now);
              && LeftAs(d, disk, kept, airtime, now)
              && (verdict == None ==> d == Stored(true, Some(now), kept + [Entry(now.wall, airtime)]))
              && (verdict == None ==> Decide(limits, kept, airtime, now.wall) == None)
  {
    if Read(disk, firstUse, now).Success? {
      var r := Read(disk, firstUse, now).value;
      var kept := Kept(limits, r, now);
      SettleLeaves(Decide(limits, kept, airtime, now.wall), disk, kept, firstUse, r.rebased, airtime, now, io);
    }
  }

  // ---------------------------------------------------------------------------
  // What one reservation does, on the disk value itself

  /** The refusal is about the ledger, not about a limit, a write or the lock. */
  predicate OnLedger(r: Refusal) {
    r.Disappeared? || r.Empty? || r.Unreadable?
  }

  /** The ledger cannot be trusted: gone, empty or damaged; emptied by somebody else; or with an entry of
      no airtime, or of a time more than a minute ahead. */
  ghost predicate Unusable(disk: Disk, firstUse: bool, now: Clock) {
    match disk
    case Absent => !firstUse
    case Blank => true
    case Damaged => true
    case Stored(initialised, _, entries) =>
      || (entries == [] && !initialised && !firstUse)
      || exists e <- entries :: e.airtime <= 0.0 || e.stamp > now.wall + 60.0
  }

  lemma UnusableIsUnread(disk: Disk, firstUse: bool, now: Clock)
    ensures Unusable(disk, firstUse, now) <==> Read(disk, firstUse, now).Failure?
    ensures Unusable(disk, firstUse, now) ==> OnLedger(Read(disk, firstUse, now).error)
  {
    if disk.Stored? && !Usable(disk.entries, now) {
      var e :| e in disk.entries && !Plausible(e, now);
    }
  }

  /** A reservation refuses on account of the ledger exactly when it is unusable, and then leaves it as it
      is, whatever the limits and the writes; every other refusal is a limit or a failed write. */
  lemma UnusableRefuses(limits: Limits, disk: Disk, firstUse: bool, airtime: real, now: Clock, io: Io)
    requires limits.Valid()
    ensures var (verdict, d) := Reserve(limits, disk, firstUse, airtime, now, io);
            && (Unusable(disk, firstUse, now) <==> verdict.Some? && OnLedger(verdict.value))
            && (Unusable(disk, firstUse, now) ==> d == disk)
            && (!Unusable(disk, firstUse, now) ==>
                  verdict == None || verdict.value.WriteFailed? || verdict.value.ShortTerm? || verdict.value.LongTerm?)
  {
    UnusableIsUnread(disk, firstUse, now);
  }

  /** The entries of a usable ledger, corrected for a step of the clock, that are younger than the window. */
  function Seen(disk: Disk, now: Clock, window: real): seq<Entry> {
    if disk.Stored? then Prune(Rebase(disk.entries, ShiftOf(disk.clock, now)), now.wall - window) else []
  }

  predicate Stepped(disk: Disk, now: Clock) {
    disk.Stored? && disk.entries != [] && ShiftOf(disk.clock, now) != 0.0
  }

  /** A ledger that carries no clock, or one that shows no step, is taken at face value. */
  lemma FaceValue(disk: Disk, now: Clock, window: real)
    requires disk.Stored? && (disk.clock == None || Shift(disk.clock.value, now) == 0.0)
    ensures !Stepped(disk, now) && Seen(disk, now, window) == Prune(disk.entries, now.wall - window)
  {
    RebaseByZero(disk.entries);
  }

  /** The packet fits both limits beside these entries; alone in the short window it always fits that. */
  predicate FitsBeside(limits: Limits, entries: seq<Entry>, airtime: real, now: real) {
    var short, long := Used(entries, limits.shortWindow, now), Used(entries, limits.longWindow, now);
    && (short <= 0.0 || (short + airtime) * 100.0 <= limits.shortLimit * limits.shortWindow)
    && (long + airtime) * 100.0 <= limits.longLimit * limits.longWindow
  }

  lemma DecideIsFits(limits: Limits, entries: seq<Entry>, airtime: real, now: real)
    requires limits.Valid()
    ensures Decide(limits, entries, airtime, now) == None <==> FitsBeside(limits, entries, airtime, now)
  {
    var short, long := Used(entries, limits.shortWindow, now), Used(entries, limits.longWindow, now);
    PercentAtMost(short + airtime, limits.shortWindow, limits.shortLimit);
    PercentAtMost(long + airtime, limits.longWindow, limits.longLimit);
  }

  /** A reservation on a usable ledger: it is granted exactly when it fits beside what is seen and every
      write that is due succeeds. With working writes a grant leaves what is seen and the new charge; a
      refusal leaves what is seen if the ledger is new or the clock has stepped, and else the old ledger. */
  lemma ReserveOutcome(limits: Limits, disk: Disk, firstUse: bool, airtime: real, now: Clock, io: Io)
    requires limits.Valid() && !Unusable(disk, firstUse, now)
    ensures var seen := Seen(disk, now, limits.longWindow);
            var (verdict, d) := Reserve(limits, disk, firstUse, airtime, now, io);
            && (verdict == None <==>
                  && FitsBeside(limits, seen, airtime, now.wall) && io.charge == Written
                  && (firstUse ==> io.init == Written) && (Stepped(disk, now) ==> io.rebase == Written))
            && (io == RELIABLE ==>
                  d == if FitsBeside(limits, seen, airtime, now.wall)
                       then Stored(true, Some(now), seen + [Entry(now.wall, airtime)])
                       else if firstUse || Stepped(disk, now) then Stored(true, Some(now), seen) else disk)
  {
    UnusableIsUnread(disk, firstUse, now);
    DecideIsFits(limits, Seen(disk, now, limits.longWindow), airtime, now.wall);
  }

  lemma PercentAtMost(seconds: real, window: real, limit: real)
    requires window > 0.0
    ensures Percent(seconds, window) <= limit <==> seconds * 100.0 <= limit * window
  {
    var q := seconds / window;
    assert q * window == seconds;
    if q * 100.0 <= limit {
      assert q * 100.0 * window <= limit * window;
    } else {
      assert q * 100.0 * window > limit * window;
    }
  }

  lemma KeptStamps(limits: Limits, disk: Disk, firstUse: bool, now: Clock)
    requires WellStamped(disk) && Read(disk, firstUse, now).Success?
    requires disk.Stored? ==> Later(disk.clock.value, now)
    ensures StampsBounded(Kept(limits, Read(disk, firstUse, now).value, now), now.wall)
  {
    ReadStamps(disk, firstUse, now);
    PruneKeeps(Read(disk, firstUse, now).value.entries, now.wall - limits.longWindow);
  }

  lemma LeftKeepsStamps(d: Disk, disk: Disk, kept: seq<Entry>, airtime: real, now: Clock)
    requires WellStamped(disk) && StampsBounded(kept, now.wall) && LeftAs(d, disk, kept, airtime, now)
    ensures WellStamped(d)
  {
  }

  /** Every persisted stamp is at most the persisted wall time plus the skew, after any outcome. */
  lemma ReserveKeepsStamps(limits: Limits, disk: Disk, firstUse: bool, airtime: real, now: Clock, io: Io)
    requires limits.Valid() && WellStamped(disk)
    requires disk.Stored? ==> Later(disk.clock.value, now)
    ensures WellStamped(Reserve(limits, disk, firstUse, airtime, now, io).1)
  {
    FailClosed(limits, disk, firstUse, airtime, now, io);
    if Read(disk, firstUse, now).Success? {
      var r := Read(disk, firstUse, now).value;
      KeptStamps(limits, disk, firstUse, now);
      LeftKeepsStamps(Reserve(limits, disk, firstUse, airtime, now, io).1, disk, Kept(limits, r, now), airtime, now);
    }
  }

  /** A detected step is on disk after the operation, whatever the limit verdict, so a later steady
      reading of that disk applies no correction at all. */
  lemma StepAppliedOnce(limits: Limits, disk: Disk, firstUse: bool, airtime: real, now: Clock, later: Clock)
    requires limits.Valid() && !Unusable(disk, firstUse, now) && Stepped(disk, now)
    requires Steady(now, later)
    ensures var d := Reserve(limits, disk, firstUse, airtime, now, RELIABLE).1;
            && d.Stored? && d.clock == Some(now)
            && Seen(disk, now, limits.longWindow) <= d.entries
            && !Stepped(d, later) && Rebase(d.entries, ShiftOf(d.clock, later)) == d.entries
  {
    ReserveOutcome(limits, disk, firstUse, airtime, now, RELIABLE);
    RebaseByZero(Reserve(limits, disk, firstUse, airtime, now, RELIABLE).1.entries);
  }

  /** The wall clock and the monotonic clock advanced together, within one boot. */
  predicate Steady(past: Clock, now: Clock) {
    past.boot == now.boot && now.wall - past.wall == now.mono - past.mono >= 0.0
  }

  datatype Attempt = Attempt(airtime: real, now: Clock)

  /** The attempts, in order, on one disk, all refused. */
  ghost predicate AllRefused(limits: Limits, disk: Disk, tries: seq<Attempt>)
    requires limits.Valid()
    decreases |tries|
  {
    tries == [] ||
    var (verdict, d) := Reserve(limits, disk, false, tries[0].airtime, tries[0].now, RELIABLE);
    verdict.Some? && AllRefused(limits, d, tries[1..])
  }

  function DiskAfter(limits: Limits, disk: Disk, tries: seq<Attempt>): Disk
    requires limits.Valid()
    decreases |tries|
  {
    if tries == [] then disk
    else DiskAfter(limits, Reserve(limits, disk, false, tries[0].airtime, tries[0].now, RELIABLE).1, tries[1..])
  }

  lemma {:induction false} SteadyRefusalsChangeNothing(limits: Limits, disk: Disk, tries: seq<Attempt>)
    requires limits.Valid() && disk.Stored? && disk.clock.Some?
    requires forall a <- tries :: Steady(disk.clock.value, a.now)
    requires AllRefused(limits, disk, tries)
    ensures DiskAfter(limits, disk, tries) == disk
    decreases |tries|
  {
    if tries != [] {
      assert tries[0] in tries;
      SteadyRefusalsChangeNothing(limits, disk, tries[1..]);
    }
  }

  lemma NothingLeft(entries: seq<Entry>, wall: real, cutoff: real)
    requires StampsBounded(entries, wall) && wall + CLOCK_SKEW_S <= cutoff
    ensures Prune(entries, cutoff) == []
  {
    PruneKeeps(entries, cutoff);
    var kept := Prune(entries, cutoff);
    assert forall i :: 0 <= i < |kept| ==> kept[i] in kept;
  }

  /** Recovery: after a write in this boot, with a steady clock, any number of refused attempts and no
      grant, a long window plus the skew later every packet that fits the long limit alone is granted. */
  lemma Recovery(limits: Limits, disk: Disk, tries: seq<Attempt>, airtime: real, now: Clock)
    requires limits.Valid() && WellStamped(disk)
    requires disk.Stored? && disk.initialised && (forall e <- disk.entries :: e.airtime > 0.0)
    requires forall a <- tries :: Steady(disk.clock.value, a.now)
    requires AllRefused(limits, disk, tries)
    requires Steady(disk.clock.value, now)
    requires now.mono - disk.clock.value.mono >= limits.longWindow + CLOCK_SKEW_S
    requires Percent(airtime, limits.longWindow) <= limits.longLimit
    ensures Reserve(limits, DiskAfter(limits, disk, tries), false, airtime, now, RELIABLE).0 == None
  {
    SteadyRefusalsChangeNothing(limits, disk, tries);
    RebaseByZero(disk.entries);
    NothingLeft(disk.entries, disk.clock.value.wall, now.wall - limits.longWindow);
    assert Read(disk, false, now) == Success(Reading(disk.entries, false));
    assert Decide(limits, [], airtime, now.wall) == None;
  }
}
