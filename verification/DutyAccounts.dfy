/** The account object over a state directory: the same operations as imperative code, proved against
    the functions of the ledger. The lock is held by the caller of each locked part. */
module DutyAccounts {
  import opened Common
  import opened Ledger

  /** The state directory: the lock file, which is never removed, and the ledger beside it. */
  class StateDir {
    var lockFile: bool
    var ledger: Disk

    constructor ()
      ensures !lockFile && ledger == Absent
    {
      lockFile, ledger := false, Absent;
    }
  }

  class DutyAccount {
    const dir: StateDir
    const limits: Limits
    var pendingRebase: bool

    /** A pending correction has been read from a ledger, and that was under the lock file. */
    ghost predicate Valid()
      reads this, dir
    {
      limits.Valid() && (pendingRebase ==> dir.lockFile)
    }

    constructor (dir: StateDir, limits: Limits)
      requires limits.Valid()
      ensures Valid() && this.dir == dir && this.limits == limits && !pendingRebase
    {
      this.dir, this.limits, pendingRebase := dir, limits, false;
    }

    /** The bounded wait for the lock: the first decisive attempt settles it. */
    method Flock(tries: seq<Try>, ghost last: nat) returns (t: Try)
      requires Settled(tries, last)
      ensures t == tries[last]
    {
      var i := 0;
      while !Decisive(tries[i])
        invariant 0 <= i <= last
        decreases last - i
      {
        i := i + 1;
      }
      return tries[i];
    }

    /** Open the lock file, creating it only for a reservation, and lock it. First use exactly when this
        very call made the file: not when it was there, and not when a rival made it in between. A status
        read creates nothing. */
    method OpenLocked(create: bool, rival: bool, tries: seq<Try>, ghost last: nat)
        returns (r: Option<Result<bool, Refusal>>)
      requires Settled(tries, last)
      modifies dir`lockFile
      ensures dir.lockFile == (old(dir.lockFile) || create)
      ensures r == if !dir.lockFile then None else Some(Locked(tries[last], !old(dir.lockFile) && !rival))
    {
      var firstUse := false;
      if !dir.lockFile {
        if !create {
          return None;
        }
        dir.lockFile := true;
        firstUse := !rival;
      }
      var t := Flock(tries, last);
      return Some(Locked(t, firstUse));
    }

    /** Read and validate entry by entry, then correct the stamps. */
    method ReadLedger(firstUse: bool, now: Clock) returns (r: Result<seq<Entry>, Refusal>)
      requires Valid() && dir.lockFile
      modifies this`pendingRebase
      ensures Valid()
      ensures var spec := Read(dir.ledger, firstUse, now);
              && r == (if spec.Failure? then Failure(spec.error) else Success(spec.value.entries))
              && (spec.Success? && !dir.ledger.Absent? ==> pendingRebase == spec.value.rebased)
              && (spec.Failure? || dir.ledger.Absent? ==> pendingRebase == old(pendingRebase))
      ensures r.Failure? <==> Unusable(dir.ledger, firstUse, now)
      ensures r.Success? && dir.ledger.Stored? ==>
                && r.value == Rebase(dir.ledger.entries, ShiftOf(dir.ledger.clock, now))
                && pendingRebase == Stepped(dir.ledger, now)
    {
      UnusableIsUnread(dir.ledger, firstUse, now);
      match dir.ledger
      case Absent => return if firstUse then Success([]) else Failure(Disappeared);
      case Blank => return Failure(Empty);
      case Damaged => return Failure(Unreadable);
      case Stored(initialised, clock, raw) =>
        if raw == [] && !(firstUse || initialised) {
          return Failure(Unreadable);
        }
        for i := 0 to |raw|
          invariant forall e <- raw[..i] :: Plausible(e, now)
        {
          if raw[i].airtime <= 0.0 || raw[i].stamp > now.wall + CLOCK_SKEW_S {
            assert raw[i] in raw && !Plausible(raw[i], now);
            return Failure(Unreadable);
          }
        }
        assert raw[..|raw|] == raw;
        var step := ShiftOf(clock, now);
        var entries := Rebase(raw, step);
        pendingRebase := raw != [] && step != 0.0;
        return Success(entries);
    }

    method WriteLedger(entries: seq<Entry>, now: Clock, outcome: WriteOutcome) returns (ok: bool)
      modifies dir`ledger
      ensures dir.ledger == Write(old(dir.ledger), entries, now, outcome)
      ensures ok <==> outcome == Written
    {
      if outcome != KeptOld {
        dir.ledger := Stored(true, Some(now), entries);
      }
      return outcome == Written;
    }

    /** `reserve` between taking and releasing the lock: refused on account of the ledger, which then stays
        as it is, exactly when that is unusable. */
    method ReserveLocked(firstUse: bool, airtime: real, now: Clock, io: Io) returns (verdict: Option<Refusal>)
      requires Valid() && dir.lockFile && (firstUse ==> !pendingRebase)
      modifies this`pendingRebase, dir`ledger
      ensures Valid()
      ensures (verdict, dir.ledger) == Reserve(limits, old(dir.ledger), firstUse, airtime, now, io)
      ensures Unusable(old(dir.ledger), firstUse, now) <==> verdict.Some? && OnLedger(verdict.value)
      ensures Unusable(old(dir.ledger), firstUse, now) ==> dir.ledger == old(dir.ledger)
    {
      UnusableRefuses(limits, dir.ledger, firstUse, airtime, now, io);
      var r := ReadLedger(firstUse, now);
      if r.Failure? {
        return Some(r.error);
      }
      var entries := Kept(limits, Reading(r.value, false), now);
      var ok := true;
      if firstUse {
        ok := WriteLedger(entries, now, io.init);
        if !ok {
          return Some(WriteFailed);
        }
      }
      if pendingRebase {
        ok := WriteLedger(entries, now, io.rebase);
        if !ok {
          return Some(WriteFailed);
        }
        pendingRebase := false;
      }
      verdict := Decide(limits, entries, airtime, now.wall);
      if verdict.Some? {
        return;
      }
      entries := entries + [Entry(now.wall, airtime)];
      ok := WriteLedger(entries, now, io.charge);
      return if ok then None else Some(WriteFailed);
    }

    /** `reserve`: without the lock it refuses and touches nothing; with it the ledger is that of the
        specification, and so is the verdict (None grants) unless the lock cannot be released. */
    method ReserveAirtime(airtime: real, now: Clock, io: Io, rival: bool, tries: seq<Try>, ghost last: nat,
                          unlocks: bool)
        returns (verdict: Option<Refusal>)
      requires Valid() && Settled(tries, last)
      modifies this`pendingRebase, dir
      ensures Valid() && dir.lockFile
      ensures !tries[last].Taken? ==>
                dir.ledger == old(dir.ledger) && verdict == Some(if tries[last].Broken? then LockBroken else LockBusy)
      ensures tries[last].Taken? ==>
                var firstUse := !old(dir.lockFile) && !rival;
                var (spec, ledger) := Reserve(limits, old(dir.ledger), firstUse, airtime, now, io);
                dir.ledger == ledger && verdict == if unlocks then spec else Some(NotReleased)
      ensures Unusable(old(dir.ledger), !old(dir.lockFile) && !rival, now) ==>
                verdict.Some? && dir.ledger == old(dir.ledger)
    {
      var lock := OpenLocked(true, rival, tries, last);
      if lock.value.Failure? {
        return Some(lock.value.error);
      }
      verdict := ReserveLocked(lock.value.value, airtime, now, io);
      if !unlocks {
        return Some(NotReleased);
      }
    }

    /** `usage`: zero before first use and when the system refuses the lock, nothing on a ledger that
        cannot be read, and an error when the lock is busy or cannot be released. A status read never
        initialises anything and never touches the ledger. */
    method Usage(now: Clock, tries: seq<Try>, ghost last: nat, unlocks: bool)
        returns (r: Result<Option<(real, real)>, Refusal>)
      requires Valid() && Settled(tries, last)
      modifies this`pendingRebase, dir`lockFile
      ensures Valid() && dir.lockFile == old(dir.lockFile)
      ensures !dir.lockFile || tries[last].Broken? ==> r == Success(Some((0.0, 0.0)))
      ensures dir.lockFile && tries[last].Contended? ==> r == Failure(LockBusy)
      ensures dir.lockFile && tries[last].Taken? && !unlocks ==> r == Failure(NotReleased)
      ensures dir.lockFile && tries[last].Taken? && unlocks && Unusable(dir.ledger, false, now) ==> r == Success(None)
      ensures dir.lockFile && tries[last].Taken? && unlocks && !Unusable(dir.ledger, false, now) ==>
                && dir.ledger.Stored?
                && var entries := Rebase(dir.ledger.entries, ShiftOf(dir.ledger.clock, now));
                r == Success(Some((Percent(Used(entries, limits.shortWindow, now.wall), limits.shortWindow),
                                   Percent(Used(entries, limits.longWindow, now.wall), limits.longWindow))))
    {
      var lock := OpenLocked(false, false, tries, last);
      if lock.None? || lock == Some(Failure(LockBroken)) {
        return Success(Some((0.0, 0.0)));
      }
      if lock.value.Failure? {
        return Failure(lock.value.error);
      }
      var read := ReadLedger(false, now);
      if !unlocks {
        return Failure(NotReleased);
      }
      return Success(if read.Failure? then None else Some(Percents(read.value, now.wall)));
    }

    /** The share of both windows that is used. */
    function Percents(entries: seq<Entry>, now: real): (real, real)
      requires limits.Valid()
    {
      (Percent(Used(entries, limits.shortWindow, now), limits.shortWindow),
       Percent(Used(entries, limits.longWindow, now), limits.longWindow))
    }
  }

  /** What the decisive attempt on the lock means for the caller. */
  function Locked(t: Try, firstUse: bool): Result<bool, Refusal> {
    match t
    case Taken => Success(firstUse)
    case Broken => Failure(LockBroken)
    case Contended(_) => Failure(LockBusy)
  }
}
