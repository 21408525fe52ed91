/** One hardware transaction of the SPI bus object, with every fault it can meet. */
module SpiBus {
  import opened Common

  datatype BusError = LockFailed | LockTimeout | AssertFailed | TransferFailed | DeassertFailed | UnlockFailed

  /** What the hardware and the kernel will answer during one transaction. */
  datatype Answers = Answers(tries: seq<Try>, asserts: bool, moves: Option<Bytes>, deasserts: bool, unlocks: bool)

  class Bus {
    const kernelCs: bool
    var held: bool             // this descriptor holds spi0.lock
    var selected: bool         // our chip select is active
    var moved: nat             // transfers that reached the wire

    constructor (kernelCs: bool)
      ensures this.kernelCs == kernelCs && !held && !selected && moved == 0
    {
      this.kernelCs := kernelCs;
      held, selected, moved := false, false, 0;
    }

    /** Bounded acquisition: the first decisive attempt settles it; the lock is held exactly when that
        attempt took it. */
    method AcquireLock(tries: seq<Try>, ghost last: nat) returns (r: Option<BusError>)
      requires Settled(tries, last)
      modifies this`held
      ensures r == None <==> tries[last].Taken?
      ensures held == (old(held) || r == None)
      ensures r == match tries[last]
                   case Taken => None
                   case Broken => Some(LockFailed)
                   case Contended(_) => Some(LockTimeout)
    {
      var i := 0;
      while true
        invariant 0 <= i <= last && held == old(held)
        decreases last - i
      {
        match tries[i]
        case Taken =>
          held := true;
          return None;
        case Broken =>
          return Some(LockFailed);
        case Contended(late) =>
          if late {
            return Some(LockTimeout);
          }
        i := i + 1;
      }
    }

    /** One complete transaction. Nothing reaches the wire unless the lock was taken and (with a soft
        chip select) the select asserted. However it ends, the lock is released unless the unlock itself
        failed, and the select is inactive unless its release failed; an error raised while cleaning up
        replaces the one before it. */
    method Transact(a: Answers, ghost last: nat) returns (r: Result<Bytes, BusError>)
      requires Settled(a.tries, last)
      modifies this
      ensures moved == old(moved) + (if a.tries[last].Taken? && (kernelCs || a.asserts) then 1 else 0)
      ensures held == (if a.tries[last].Taken? then !a.unlocks else old(held))
      ensures selected == (if a.tries[last].Taken? && !kernelCs && a.asserts then !a.deasserts else old(selected))
      ensures r.Success? <==>
              a.tries[last].Taken? && a.moves.Some? && a.unlocks && (kernelCs || (a.asserts && a.deasserts))
      ensures r.Success? ==> r.value == a.moves.value && !held && (kernelCs || !selected)
      ensures r.Failure? ==>
                r.error == if a.tries[last].Broken? then LockFailed
                           else if !a.tries[last].Taken? then LockTimeout
                           else if !a.unlocks then UnlockFailed
                           else if !kernelCs && !a.asserts then AssertFailed
                           else if !kernelCs && !a.deasserts then DeassertFailed
                           else TransferFailed
    {
      var e := AcquireLock(a.tries, last);
      if e.Some? {
        return Failure(e.value);
      }
      if kernelCs {
        moved := moved + 1;
        r := if a.moves.Some? then Success(a.moves.value) else Failure(TransferFailed);
      } else if !a.asserts {
        r := Failure(AssertFailed);
      } else {
        selected := true;
        moved := moved + 1;
        r := if a.moves.Some? then Success(a.moves.value) else Failure(TransferFailed);
        if a.deasserts {
          selected := false;
        } else {
          r := Failure(DeassertFailed);
        }
      }
      if a.unlocks {
        held := false;
      } else {
        r := Failure(UnlockFailed);
      }
    }
  }
}
