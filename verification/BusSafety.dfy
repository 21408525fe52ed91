/** The RX thread, the TX thread and any number of peer processes on one SPI bus. Both threads share one
    descriptor of spi0.lock, so `flock` does not exclude them from each other, and an unlock by either
    drops the lock for both: what keeps them apart is the radio lock together with `_tx_active`. */
module BusSafety {
  import opened Common

  /** Who an open file description of spi0.lock belongs to. */
  datatype Owner = Ours | Peer(n: nat)

  datatype Thread = RxThread | TxThread

  /** One bus transaction: acquire, assert CS, transfer, deassert CS, release. */
  datatype Xfer = Between | Locked | Moving | Ending(failed: bool) | Raised

  datatype XStep = Acquire | AcquireFails | Begin | BeginFails | Finish(failed: bool) | Unlock | UnlockFails

  /** The RX loop; `RxPoll` is inside `poll_rx`, with the radio lock held. */
  datatype Rx = RxTop | RxWait | RxWant | RxHeld | RxPoll(x: Xfer) | RxGot | RxDead

  /** The TX worker from its grant on; `TxSend` is inside `transmit`, `TxRestart` inside `start_rx`. */
  datatype Tx =
    | TxIdle | TxWant | TxHeld | TxSet | TxSend(x: Xfer) | TxAgain | TxRestart(x: Xfer)
    | TxClear(failed: bool) | TxDead

  /** `looksAgain` is how the RX loop is written: true in the source, where it looks at `_tx_active` a
      second time once it holds the radio lock. It never changes. */
  datatype State = State(
    looksAgain: bool,
    radio: Option<Thread>,      // owner of _radio_lock
    active: bool,               // _tx_active
    bus: Option<Owner>,         // owner of the flock on spi0.lock
    rx: Rx,
    tx: Tx,
    peers: map<nat, Xfer>)

  datatype Label =
    | RxCheck | RxIrq(fails: bool) | RxLock | RxLook | RxBus(step: XStep) | RxDone | RxLoop
    | TxGranted | TxLock | TxActivate | TxUnlock | TxBus(step: XStep) | TxSent | TxStray | TxDeactivate
    | PeerBus(n: nat, step: XStep) | PeerCrash(n: nat) | OurCrash

  // ---------------------------------------------------------------------------
  // One transaction

  /** `flock` succeeds on a free lock and on one our own descriptor already holds. */
  predicate XEnabled(bus: Option<Owner>, me: Owner, x: Xfer, step: XStep) {
    match step
    case Acquire => x.Between? && (bus.None? || bus == Some(me))
    case AcquireFails => x.Between?
    case Begin => x.Locked?
    case BeginFails => x.Locked?
    case Finish(_) => x.Moving?
    case Unlock => x.Ending?
    case UnlockFails => x.Ending?
  }

  function XNext(x: Xfer, step: XStep): Xfer {
    match step
    case Acquire => Locked
    case AcquireFails => Raised
    case Begin => Moving
    case BeginFails => Ending(true)
    case Finish(failed) => Ending(failed)
    case Unlock => if x == Ending(false) then Between else Raised
    case UnlockFails => Raised
  }

  /** LOCK_UN drops the lock of the whole descriptor, whoever took it. */
  function XBus(bus: Option<Owner>, me: Owner, step: XStep): Option<Owner> {
    if step.Acquire? then Some(me) else if step.Unlock? && bus == Some(me) then None else bus
  }

  // ---------------------------------------------------------------------------
  // The steps

  predicate Enabled(s: State, l: Label) {
    match l
    case RxCheck => s.rx.RxTop?
    case RxIrq(_) => s.rx.RxWait?
    case RxLock => s.rx.RxWant? && s.radio.None?
    case RxLook => s.rx.RxHeld?
    case RxBus(step) => s.rx.RxPoll? && XEnabled(s.bus, Ours, s.rx.x, step)
    case RxDone => s.rx.RxPoll? && (s.rx.x.Between? || s.rx.x.Raised?)
    case RxLoop => s.rx.RxGot?
    case TxGranted => s.tx.TxIdle?
    case TxLock => (s.tx.TxWant? || s.tx.TxAgain?) && s.radio.None?
    case TxActivate => s.tx.TxHeld?
    case TxUnlock => s.tx.TxSet?
    case TxBus(step) => (s.tx.TxSend? || s.tx.TxRestart?) && XEnabled(s.bus, Ours, s.tx.x, step)
    case TxSent => (s.tx.TxSend? || s.tx.TxRestart?) && (s.tx.x.Between? || s.tx.x.Raised?)
    case TxStray => (s.tx.TxSend? || s.tx.TxRestart?) && s.tx.x.Between?
    case TxDeactivate => s.tx.TxClear?
    case PeerBus(n, step) => n in s.peers && XEnabled(s.bus, Peer(n), s.peers[n], step)
    case PeerCrash(n) => n in s.peers
    case OurCrash => true
  }

  function Apply(s: State, l: Label): State
    requires Enabled(s, l)
  {
    match l
    case RxCheck => if s.active then s else s.(rx := RxWait)
    case RxIrq(fails) => s.(rx := if fails then RxDead else RxWant)
    case RxLock => s.(rx := RxHeld, radio := Some(RxThread))
    case RxLook =>
      if s.looksAgain && s.active then s.(rx := RxTop, radio := None) else s.(rx := RxPoll(Between))
    case RxBus(step) => s.(rx := RxPoll(XNext(s.rx.x, step)), bus := XBus(s.bus, Ours, step))
    case RxDone => s.(rx := if s.rx.x.Raised? then RxDead else RxGot, radio := None)
    case RxLoop => s.(rx := RxTop)
    case TxGranted => s.(tx := TxWant)
    case TxLock => s.(tx := if s.tx.TxWant? then TxHeld else TxRestart(Between), radio := Some(TxThread))
    case TxActivate => s.(tx := TxSet, active := true)
    case TxUnlock => s.(tx := TxSend(Between), radio := None)
    case TxBus(step) =>
      var x := XNext(s.tx.x, step);
      s.(tx := if s.tx.TxSend? then TxSend(x) else TxRestart(x), bus := XBus(s.bus, Ours, step))
    case TxSent =>
      if s.tx.TxSend? then s.(tx := if s.tx.x.Raised? then TxClear(true) else TxAgain)
      else s.(tx := TxClear(s.tx.x.Raised?), radio := None)
    // an exception that is neither a bus nor a radio fault: logged, and the worker goes on
    case TxStray => s.(tx := TxClear(false), radio := if s.tx.TxRestart? then None else s.radio)
    case TxDeactivate => s.(tx := if s.tx.failed then TxDead else TxIdle, active := false)
    case PeerBus(n, step) => s.(peers := s.peers[n := XNext(s.peers[n], step)], bus := XBus(s.bus, Peer(n), step))
    case PeerCrash(n) => s.(peers := s.peers[n := Between], bus := if s.bus == Some(Peer(n)) then None else s.bus)
    case OurCrash =>
      s.(rx := RxDead, tx := TxDead, radio := None, active := false,
         bus := if s.bus == Some(Ours) then None else s.bus)
  }

  /** After construction: both threads at the top of their loops, peers anywhere outside a transfer. */
  predicate Start(s: State) {
    && s.radio.None? && !s.active && s.bus.None? && s.rx.RxTop? && s.tx.TxIdle?
    && forall n <- s.peers :: s.peers[n].Between?
  }

  ghost predicate Legal(s: State, run: seq<Label>)
    decreases |run|
  {
    run == [] || (Enabled(s, run[0]) && Legal(Apply(s, run[0]), run[1..]))
  }

  function Exec(s: State, run: seq<Label>): State
    requires Legal(s, run)
    decreases |run|
  {
    if run == [] then s else Exec(Apply(s, run[0]), run[1..])
  }

  // ---------------------------------------------------------------------------
  // What every step keeps

  /** Inside the locked part of a transaction. */
  predicate InBus(x: Xfer) {
    x.Locked? || x.Moving? || x.Ending?
  }

  predicate RxOnBus(s: State) {
    s.rx.RxPoll? && InBus(s.rx.x)
  }

  predicate TxOnBus(s: State) {
    (s.tx.TxSend? || s.tx.TxRestart?) && InBus(s.tx.x)
  }

  ghost predicate Inv(s: State) {
    && s.looksAgain
    && (s.radio == Some(RxThread) <==> s.rx.RxHeld? || s.rx.RxPoll?)
    && (s.radio == Some(TxThread) <==> s.tx.TxHeld? || s.tx.TxSet? || s.tx.TxRestart?)
    && (s.active <==> s.tx.TxSet? || s.tx.TxSend? || s.tx.TxAgain? || s.tx.TxRestart? || s.tx.TxClear?)
    && (s.rx.RxPoll? ==> !s.active)
    && (RxOnBus(s) || TxOnBus(s) ==> s.bus == Some(Ours))
    && (forall n <- s.peers :: InBus(s.peers[n]) ==> s.bus == Some(Peer(n)))
  }

  lemma StepKeepsInv(s: State, l: Label)
    requires Inv(s) && Enabled(s, l)
    ensures Inv(Apply(s, l))
  {
  }

  lemma {:induction false} RunKeepsInv(s: State, run: seq<Label>)
    requires Inv(s) && Legal(s, run)
    ensures Inv(Exec(s, run))
    decreases |run|
  {
    if run != [] {
      StepKeepsInv(s, run[0]);
      RunKeepsInv(Apply(s, run[0]), run[1..]);
    }
  }

  // ---------------------------------------------------------------------------
  // Theorems over every interleaving

  datatype Actor = Rx | Tx | Other(n: nat)

  /** The actor has a transfer in progress on the wire. */
  predicate Transferring(s: State, a: Actor) {
    match a
    case Rx => s.rx == RxPoll(Moving)
    case Tx => s.tx == TxSend(Moving) || s.tx == TxRestart(Moving)
    case Other(n) => n in s.peers && s.peers[n].Moving?
  }

  function OwnerOf(a: Actor): Owner {
    if a.Other? then Peer(a.n) else Ours
  }

  /** At most one SPI transfer is in progress, and its process holds spi0.lock. */
  lemma OneTransferUnderTheLock(s: State, run: seq<Label>, a: Actor, b: Actor)
    requires Start(s) && s.looksAgain && Legal(s, run)
    ensures var e := Exec(s, run);
            && (Transferring(e, a) ==> e.bus == Some(OwnerOf(a)))
            && (Transferring(e, a) && Transferring(e, b) ==> a == b)
  {
    RunKeepsInv(s, run);
  }

  /** `poll_rx` never overlaps `transmit` or `start_rx`. */
  lemma PollNeverOverlapsTransmit(s: State, run: seq<Label>)
    requires Start(s) && s.looksAgain && Legal(s, run)
    ensures var e := Exec(s, run); !(e.rx.RxPoll? && (e.tx.TxSend? || e.tx.TxRestart?))
  {
    RunKeepsInv(s, run);
  }

  /** Every step of a run that gives up spi0.lock leaves no transaction of anybody without it: the
      other thread's transfer in particular is never left unprotected. */
  lemma UnlockNeverExposesATransfer(s: State, run: seq<Label>, l: Label)
    requires Start(s) && s.looksAgain && Legal(s, run) && Enabled(Exec(s, run), l)
    ensures var e, e' := Exec(s, run), Apply(Exec(s, run), l);
            e.bus.Some? && e'.bus.None? ==>
              !RxOnBus(e') && !TxOnBus(e') && forall n <- e'.peers :: !InBus(e'.peers[n])
  {
    RunKeepsInv(s, run);
    StepKeepsInv(Exec(s, run), l);
  }

  // ---------------------------------------------------------------------------
  // A bus fault is fatal to its thread, and nothing else is

  predicate Fails(step: XStep) {
    step.AcquireFails? || step.BeginFails? || step == Finish(true) || step.UnlockFails?
  }

  /** The transaction has failed: it can only end by raising. */
  predicate Failing(x: Xfer) {
    x == Ending(true) || x.Raised?
  }

  /** The thread has met a fault and will not serve again. */
  predicate RxDoomed(s: State) {
    s.rx.RxDead? || (s.rx.RxPoll? && Failing(s.rx.x))
  }

  predicate TxDoomed(s: State) {
    s.tx.TxDead? || s.tx == TxClear(true) || ((s.tx.TxSend? || s.tx.TxRestart?) && Failing(s.tx.x))
  }

  /** The step is a fault of the RX thread; of the TX thread. A crash ends both. */
  predicate RxFaults(l: Label) {
    l.OurCrash? || l == RxIrq(true) || (l.RxBus? && Fails(l.step))
  }

  predicate TxFaults(l: Label) {
    l.OurCrash? || (l.TxBus? && Fails(l.step))
  }

  lemma FaultsAreFatal(s: State, l: Label)
    requires Enabled(s, l)
    ensures RxDoomed(Apply(s, l)) <==> RxDoomed(s) || RxFaults(l)
    ensures TxDoomed(Apply(s, l)) <==> TxDoomed(s) || TxFaults(l)
  {
  }

  ghost predicate SomeFault(run: seq<Label>, fault: Label -> bool) {
    exists l <- run :: fault(l)
  }

  /** In every run a thread is doomed exactly when it met a fault: a failed transaction is never taken for
      a good one, and a stray exception or a fault of the other thread stops nobody. */
  lemma {:induction false} DoomedExactlyByFaults(s: State, run: seq<Label>)
    requires Legal(s, run)
    ensures RxDoomed(Exec(s, run)) <==> RxDoomed(s) || SomeFault(run, RxFaults)
    ensures TxDoomed(Exec(s, run)) <==> TxDoomed(s) || SomeFault(run, TxFaults)
    decreases |run|
  {
    if run != [] {
      FaultsAreFatal(s, run[0]);
      DoomedExactlyByFaults(Apply(s, run[0]), run[1..]);
      assert forall l :: l in run <==> l == run[0] || l in run[1..];
    }
  }

  /** A process may die at any moment, and the kernel then drops its lock. */
  lemma DeathFreesTheLock(s: State, n: nat)
    ensures Enabled(s, OurCrash) && Apply(s, OurCrash).bus != Some(Ours)
    ensures n in s.peers ==> Enabled(s, PeerCrash(n)) && Apply(s, PeerCrash(n)).bus != Some(Peer(n))
    ensures s.bus.Some? && s.bus != Some(Ours) ==> Apply(s, OurCrash).bus == s.bus
  {
  }

  // ---------------------------------------------------------------------------
  // The lock is not leaked

  /** The step is an unlock that fails. */
  predicate FailsUnlock(l: Label) {
    match l
    case RxBus(step) => step.UnlockFails?
    case TxBus(step) => step.UnlockFails?
    case PeerBus(_, step) => step.UnlockFails?
    case _ => false
  }

  /** The bus lock is held only by somebody inside a transaction. */
  ghost predicate NoLeak(s: State) {
    && (s.bus == Some(Ours) ==> RxOnBus(s) || TxOnBus(s))
    && (forall n :: s.bus == Some(Peer(n)) ==> n in s.peers && InBus(s.peers[n]))
  }

  lemma StepLeaksNothing(s: State, l: Label)
    requires Inv(s) && NoLeak(s) && Enabled(s, l) && !FailsUnlock(l)
    ensures NoLeak(Apply(s, l))
  {
  }

  /** As long as no unlock itself fails, spi0.lock is never leaked: after any faults, crashes and stray
      exceptions, whoever holds it is inside a transaction. */
  lemma {:induction false} LockIsNeverLeaked(s: State, run: seq<Label>)
    requires Inv(s) && NoLeak(s) && Legal(s, run) && forall l <- run :: !FailsUnlock(l)
    ensures Inv(Exec(s, run)) && NoLeak(Exec(s, run))
    decreases |run|
  {
    if run != [] {
      assert run[0] in run;
      StepKeepsInv(s, run[0]);
      StepLeaksNothing(s, run[0]);
      LockIsNeverLeaked(Apply(s, run[0]), run[1..]);
    }
  }

  // ---------------------------------------------------------------------------
  // The second look at `_tx_active` is needed

  lemma {:induction false} ExecSnoc(s: State, run: seq<Label>, l: Label)
    requires Legal(s, run) && Enabled(Exec(s, run), l)
    ensures Legal(s, run + [l]) && Exec(s, run + [l]) == Apply(Exec(s, run), l)
    decreases |run|
  {
    if run == [] {
      assert [] + [l] == [l] && [l][1..] == [];
    } else {
      assert (run + [l])[1..] == run[1..] + [l] && (run + [l])[0] == run[0];
      ExecSnoc(Apply(s, run[0]), run[1..], l);
    }
  }

  /** One more step of a run under construction. */
  lemma Then(s: State, run: seq<Label>, e: State, l: Label) returns (run': seq<Label>, e': State)
    requires Legal(s, run) && Exec(s, run) == e && Enabled(e, l)
    ensures Legal(s, run') && Exec(s, run') == e' && e' == Apply(e, l) && run <= run'
  {
    ExecSnoc(s, run, l);
    run', e' := run + [l], Apply(e, l);
  }

  /** The TX thread takes the radio while the RX thread waits for its interrupt. */
  lemma TxOvertakes(s: State) returns (run: seq<Label>, e: State)
    requires Start(s)
    ensures Legal(s, run) && Exec(s, run) == e
    ensures e == s.(rx := RxWant, tx := TxSend(Between), active := true)
  {
    run, e := Then(s, [], s, RxCheck);
    run, e := Then(s, run, e, TxGranted);
    run, e := Then(s, run, e, TxLock);
    run, e := Then(s, run, e, TxActivate);
    run, e := Then(s, run, e, TxUnlock);
    run, e := Then(s, run, e, RxIrq(false));
  }

  /** Without the second look the RX thread polls all the same. */
  lemma RxPollsAnyway(s: State) returns (run: seq<Label>, e: State)
    requires Start(s) && !s.looksAgain
    ensures Legal(s, run) && Exec(s, run) == e
    ensures e == s.(rx := RxPoll(Moving), tx := TxSend(Between), active := true,
                    radio := Some(RxThread), bus := Some(Ours))
  {
    run, e := TxOvertakes(s);
    run, e := Then(s, run, e, RxLock);
    run, e := Then(s, run, e, RxLook);
    run, e := Then(s, run, e, RxBus(Acquire));
    run, e := Then(s, run, e, RxBus(Begin));
  }

  /** The flock alone would not do. If the RX loop did not look again under the radio lock, then from
      every start a run puts both threads on the wire at once, through the one descriptor they share; the
      TX thread's unlock then leaves the RX thread's transfer without the lock. */
  lemma FlockAloneIsNotEnough(s: State) returns (both: seq<Label>, bare: seq<Label>)
    requires Start(s) && !s.looksAgain
    ensures Legal(s, both) && Transferring(Exec(s, both), Rx) && Transferring(Exec(s, both), Tx)
    ensures Legal(s, bare) && Transferring(Exec(s, bare), Rx) && Exec(s, bare).bus.None?
  {
    var e;
    both, e := RxPollsAnyway(s);
    both, e := Then(s, both, e, TxBus(Acquire));
    both, e := Then(s, both, e, TxBus(Begin));
    bare, e := Then(s, both, e, TxBus(Finish(false)));
    bare, e := Then(s, bare, e, TxBus(Unlock));
  }

  // ---------------------------------------------------------------------------
  // The machine does its work: nobody is safe only because nothing can happen

  /** A transaction of the RX thread, from one turn of its loop to the next. */
  lemma RxTurn(s: State) returns (run: seq<Label>, polling: State)
    requires Start(s)
    ensures Legal(s, run) && Exec(s, run) == s
    ensures exists part :: part <= run && Legal(s, part) && Exec(s, part) == polling && Transferring(polling, Rx)
  {
    var e, part;
    part, e := Then(s, [], s, RxCheck);
    part, e := Then(s, part, e, RxIrq(false));
    part, e := Then(s, part, e, RxLock);
    part, e := Then(s, part, e, RxLook);
    part, e := Then(s, part, e, RxBus(Acquire));
    part, e := Then(s, part, e, RxBus(Begin));
    polling := e;
    run, e := RxRest(s, part, e);
  }

  lemma RxRest(s: State, part: seq<Label>, polling: State) returns (run: seq<Label>, e: State)
    requires Start(s) && Legal(s, part) && Exec(s, part) == polling
    requires polling == s.(rx := RxPoll(Moving), radio := Some(RxThread), bus := Some(Ours))
    ensures Legal(s, run) && Exec(s, run) == e == s && part <= run
  {
    run, e := Then(s, part, polling, RxBus(Finish(false)));
    run, e := Then(s, run, e, RxBus(Unlock));
    run, e := Then(s, run, e, RxDone);
    run, e := Then(s, run, e, RxLoop);
  }

  /** A packet of the TX worker: it transmits, restarts reception and is idle again. */
  lemma TxTurn(s: State) returns (run: seq<Label>, sending: State)
    requires Start(s)
    ensures Legal(s, run) && Exec(s, run) == s
    ensures exists part :: part <= run && Legal(s, part) && Exec(s, part) == sending && Transferring(sending, Tx)
  {
    var e, part;
    part, e := Then(s, [], s, TxGranted);
    part, e := Then(s, part, e, TxLock);
    part, e := Then(s, part, e, TxActivate);
    part, e := Then(s, part, e, TxUnlock);
    part, e := Then(s, part, e, TxBus(Acquire));
    part, e := Then(s, part, e, TxBus(Begin));
    sending := e;
    run, e := TxRest(s, part, e);
  }

  lemma TxRest(s: State, part: seq<Label>, sending: State) returns (run: seq<Label>, e: State)
    requires Start(s) && Legal(s, part) && Exec(s, part) == sending
    requires sending == s.(tx := TxSend(Moving), active := true, bus := Some(Ours))
    ensures Legal(s, run) && Exec(s, run) == e == s && part <= run
  {
    run, e := Then(s, part, sending, TxBus(Finish(false)));
    run, e := Then(s, run, e, TxBus(Unlock));
    run, e := Then(s, run, e, TxSent);
    run, e := Then(s, run, e, TxLock);
    run, e := Then(s, run, e, TxSent);
    run, e := Then(s, run, e, TxDeactivate);
  }

  /** And a transaction of a peer. */
  lemma PeerTurn(s: State, n: nat) returns (run: seq<Label>, moving: State)
    requires Start(s) && n in s.peers
    ensures Legal(s, run) && Exec(s, run) == s
    ensures exists part :: part <= run && Legal(s, part) && Exec(s, part) == moving && Transferring(moving, Other(n))
  {
    var e, part;
    part, e := Then(s, [], s, PeerBus(n, Acquire));
    part, e := Then(s, part, e, PeerBus(n, Begin));
    moving := e;
    run, e := Then(s, part, e, PeerBus(n, Finish(false)));
    run, e := Then(s, run, e, PeerBus(n, Unlock));
    assert s.peers[n := Between] == s.peers;
  }
}
