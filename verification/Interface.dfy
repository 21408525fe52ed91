/** The interface object: its outbound methods as imperative code, each one a sequence of steps of the
    transmit pipeline. */
module Interface {
  import opened Common
  import opened Framing
  import opened AirTime
  import opened TxPipeline
  import opened Carriage

  const MAX_DUTY_HOLD := 120.0

  /** A packet in the queue, and when it was put there. */
  datatype Queued = Queued(data: Bytes, at: real)

  /** One answer of the duty account while a packet is held: a grant, a refusal read at some time, a
      ledger or lock failure, or any other exception. */
  datatype Reply = Grants | Refuses(at: real) | Blocks | Strays

  /** A reply that ends the wait: a refusal does so only once the packet is too old. */
  predicate Settles(r: Reply, queuedAt: real) {
    r.Refuses? ==> r.at - queuedAt > MAX_DUTY_HOLD
  }

  ghost predicate SettledAt(replies: seq<Reply>, queuedAt: real, k: nat) {
    k < |replies| && Settles(replies[k], queuedAt) && forall i :: 0 <= i < k ==> !Settles(replies[i], queuedAt)
  }

  /** What the radio reports for one frame: done, not confirmed in time, a bus or radio fault, or any
      other exception; the last two with or without the frame having been radiated. */
  datatype Signal = Confirmed | Unconfirmed | Fault(radiated: bool) | Stray(radiated: bool)

  /** How the restart of reception ends. */
  datatype Restarting = Restarts | RestartFaults | RestartStrays

  predicate Breaks(s: Signal) {
    s.Fault? || s.Stray?
  }

  ghost predicate Unbroken(signals: seq<Signal>, n: nat) {
    forall i :: 0 <= i < n && i < |signals| ==> !Breaks(signals[i])
  }

  /** The first thing to go wrong is a bus or radio fault. */
  ghost predicate Faulted(signals: seq<Signal>, count: nat, restart: Restarting) {
    || (exists n :: 0 <= n < count && n < |signals| && signals[n].Fault? && Unbroken(signals, n))
    || (restart.RestartFaults? && Unbroken(signals, count))
  }

  /** The first signal that breaks decides. */
  lemma FirstBreakDecides(signals: seq<Signal>, count: nat, restart: Restarting, n: nat)
    requires n <= count <= |signals| && Unbroken(signals, n) && (n < count ==> Breaks(signals[n]))
    ensures Unbroken(signals, count) <==> n == count
    ensures Faulted(signals, count, restart) <==> if n < count then signals[n].Fault? else restart.RestartFaults?
  {
  }

  class LoRaSPIInterface {
    const config: Config
    var online: bool
    var running: bool
    var fatal: Option<string>
    var txQueue: seq<Queued>
    var txOversize: nat
    var txDropped: nat
    var txActive: bool
    ghost var model: State

    ghost predicate Valid()
      reads this
    {
      && config.Valid()
      && online == model.online && running == model.run
      && |txQueue| == |model.queue| && (forall i :: 0 <= i < |txQueue| ==> txQueue[i].data == model.queue[i])
      && txOversize == model.oversize && txDropped == model.overflow
      && Reachable(config, model)
    }

    constructor (config: Config)
      requires config.Valid()
      ensures Valid() && this.config == config && model == START && !txActive && fatal.None?
    {
      this.config := config;
      online, running, fatal, txActive := true, true, None, false;
      txQueue, txOversize, txDropped := [], 0, 0;
      model := START;
      assert Reachable(config, START) by {
        assert Legal(config, START, []) && Exec(config, START, []) == START;
      }
    }

    ghost method Advance(l: Label)
      requires Reachable(config, model) && Enabled(config, model, l)
      modifies this`model
      ensures model == Apply(config, old(model), l) && Reachable(config, model)
    {
      ReachableStep(config, model, l);
      model := Apply(config, model, l);
    }

    /** Offline, over-long and overflowing packets change the counters at most; any other is appended,
        with the time it came. */
    method ProcessOutgoing(data: Bytes, now: real)
      requires Valid() && model.producer.Free?
      modifies this
      ensures Valid() && model.producer.Free?
      ensures online == old(online) && running == old(running) && txActive == old(txActive) && fatal == old(fatal)
      ensures var fits, room := |data| <= (if config.framing then 508 else 255), |old(txQueue)| < 64;
              && txQueue == old(txQueue) + (if online && fits && room then [Queued(data, now)] else [])
              && txOversize == old(txOversize) + (if online && !fits then 1 else 0)
              && txDropped == old(txDropped) + (if online && fits && !room then 1 else 0)
              && model.accepted == old(model.accepted) + (if online && fits && room then [data] else [])
    {
      Advance(Offer(data));
      if !online {
        return;
      }
      if |data| > MaxPacket(config) {
        txOversize := txOversize + 1;
        return;
      }
      if |txQueue| >= MAX_QUEUE_PACKETS {
        txDropped := txDropped + 1;
        return;
      }
      txQueue := txQueue + [Queued(data, now)];
      Advance(Append);
    }

    /** `_fail` on the fields: only the first fault counts, and it is the one recorded. */
    method Halt(exc: string)
      modifies this`running, this`online, this`fatal
      ensures !running && online == (old(online) && !old(running))
      ensures fatal == if old(running) then Some(exc) else old(fatal)
    {
      if !running {
        return;
      }
      running := false;
      online := false;
      fatal := Some(exc);
    }

    /** A fault while running is recorded, stops the loops and takes the interface offline; a later one
        changes nothing. */
    method Fail(exc: string)
      requires Valid()
      modifies this
      ensures Valid() && !running
      ensures online == (old(online) && !old(running)) && fatal == if old(running) then Some(exc) else old(fatal)
      ensures txQueue == old(txQueue) && txActive == old(txActive)
      ensures model == old(model).(run := false, online := online)
    {
      Advance(TxPipeline.Fail);
      Halt(exc);
    }

    /** The reservation loop of `_transmit`: refusals are retried until a reply settles the packet. */
    method AwaitReply(replies: seq<Reply>, queuedAt: real, ghost settled: nat) returns (r: Reply)
      requires SettledAt(replies, queuedAt, settled)
      ensures r == replies[settled]
      ensures r.Refuses? ==> r.at - queuedAt > 120.0
      ensures forall i :: 0 <= i < settled ==> replies[i].Refuses? && replies[i].at - queuedAt <= 120.0
    {
      var i := 0;
      while !Settles(replies[i], queuedAt)
        invariant 0 <= i <= settled
        decreases settled - i
      {
        i := i + 1;
      }
      return replies[i];
    }

    /** The frame loop of `_transmit`: every frame is keyed in order, confirmed or not, up to the first
        one that raises. */
    method KeyFrames(data: Bytes, frames: seq<Bytes>, signals: seq<Signal>) returns (n: nat)
      requires Valid() && model.worker == Keying(data, frames, 0) && |signals| >= |frames|
      modifies this`model
      ensures Valid() && n <= |frames| && Unbroken(signals, n) && (n < |frames| ==> Breaks(signals[n]))
      ensures model == old(model).(keyed := old(model).keyed + KeyedFrames(|old(model).finished|, frames, n),
                                   worker := Keying(data, frames, n))
    {
      n := 0;
      assert KeyedFrames(|model.finished|, frames, 0) == [];
      while n < |frames| && !Breaks(signals[n])
        invariant n <= |frames| && Valid() && Unbroken(signals, n)
        invariant model == old(model).(keyed := old(model).keyed + KeyedFrames(|old(model).finished|, frames, n),
                                       worker := Keying(data, frames, n))
      {
        Advance(Key);
        OneMoreFrame(|old(model).finished|, frames, n);
        n := n + 1;
      }
    }

    /** The frame that raised: radiated or not, the packet is over. A fault stops the interface. */
    method BreakOff(data: Bytes, frames: seq<Bytes>, n: nat, signal: Signal) returns (sent: nat)
      requires Valid() && model.worker == Keying(data, frames, n) && n < |frames| && Breaks(signal)
      modifies this
      ensures Valid() && txQueue == old(txQueue) && model.grants == old(model).grants
      ensures model.finished == old(model).finished + [Done(data, Errored)]
      ensures sent == n + (if signal.radiated then 1 else 0)
      ensures model.keyed == old(model).keyed + KeyedFrames(|old(model).finished|, frames, sent)[n..]
      ensures running == (old(running) && !signal.Fault?)
      ensures fatal.Some? <==> old(fatal).Some? || (old(running) && signal.Fault?)
    {
      sent := if signal.radiated then n + 1 else n;
      match signal
      case Fault(radiated) =>
        Advance(KeyFault(radiated));
        Halt("radio");
      case Stray(radiated) =>
        if radiated {
          Advance(Key);
        }
        Advance(Stumble);
    }

    /** Reception is restarted; the packet is transmitted exactly when that succeeds. */
    method RestartRx(data: Bytes, frames: seq<Bytes>, restart: Restarting) returns (fate: Fate)
      requires Valid() && model.worker == Keying(data, frames, |frames|)
      modifies this
      ensures Valid() && txQueue == old(txQueue) && model.grants == old(model).grants && model.keyed == old(model).keyed
      ensures model.finished == old(model).finished + [Done(data, fate)]
      ensures fate == if restart.Restarts? then Transmitted else Errored
      ensures running == (old(running) && !restart.RestartFaults?)
      ensures fatal.Some? <==> old(fatal).Some? || (old(running) && restart.RestartFaults?)
    {
      match restart
      case Restarts =>
        Advance(Restart);
        return Transmitted;
      case RestartFaults =>
        Advance(RestartFault);
        Halt("radio");
        return Errored;
      case RestartStrays =>
        Advance(Stumble);
        return Errored;
    }

    /** `_transmit` after the grant: key every frame, restart reception, and only then clear
        `_tx_active`, however it ends. Transmitted exactly when no frame raises and RX restarts. What was
        keyed is the first `sent` frames, in order; a bus or radio fault stops the interface and is
        recorded, any other exception does not. */
    method KeyUp(data: Bytes, frames: seq<Bytes>, signals: seq<Signal>, restart: Restarting)
        returns (fate: Fate, sent: nat)
      requires Valid() && model.worker == Keying(data, frames, 0) && |signals| >= |frames|
      modifies this
      ensures Valid() && !txActive && txQueue == old(txQueue)
      ensures model.finished == old(model).finished + [Done(data, fate)] && model.grants == old(model).grants
      ensures fate == if restart.Restarts? && Unbroken(signals, |frames|) then Transmitted else Errored
      ensures sent <= |frames| && (fate == Transmitted ==> sent == |frames|)
      ensures model.keyed == old(model).keyed + KeyedFrames(|old(model).finished|, frames, sent)
      ensures running == (old(running) && !Faulted(signals, |frames|, restart))
      ensures fatal.Some? <==> old(fatal).Some? || (old(running) && !running)
    {
      txActive := true;
      sent := KeyFrames(data, frames, signals);
      FirstBreakDecides(signals, |frames|, restart, sent);
      fate := Errored;
      if sent < |frames| {
        var n := sent;
        sent := BreakOff(data, frames, n, signals[n]);
        KeyedTail(|old(model).finished|, frames, n, sent);
      } else {
        fate := RestartRx(data, frames, restart);
      }
      txActive := false;
    }

    /** `_transmit` after its packet was popped, with everything the account and the radio answer given.
        Without a grant nothing is keyed and the packet is dropped or errored; with one, the one grant is
        for the airtime of all its frames, and the first `sent` of them are keyed. */
    method Transmit(data: Bytes, frames: seq<Bytes>, reply: Reply, signals: seq<Signal>, restart: Restarting)
        returns (fate: Fate, sent: nat)
      requires Valid() && model.worker == Reserving(data, frames) && |signals| >= |frames| && !txActive
      modifies this
      ensures Valid() && !txActive && txQueue == old(txQueue)
      ensures model.finished == old(model).finished + [Done(data, fate)]
      ensures sent <= |frames| && (fate == Transmitted ==> sent == |frames|)
      ensures model.keyed == old(model).keyed + KeyedFrames(|old(model).finished|, frames, sent)
      ensures !reply.Grants? ==>
                && sent == 0 && model.grants == old(model).grants
                && running == old(running) && fatal == old(fatal)
                && fate == if reply.Refuses? then DutyDropped else Errored
      ensures reply.Grants? ==>
                && model.grants == old(model).grants + [Grant(|old(model).finished|, AirtimeOf(config, frames))]
                && fate == (if restart.Restarts? && Unbroken(signals, |frames|) then Transmitted else Errored)
                && running == (old(running) && !Faulted(signals, |frames|, restart))
    {
      sent := 0;
      match reply
      case Blocks =>
        Advance(LedgerFault);
        fate := Errored;
      case Strays =>
        Advance(Stumble);
        fate := Errored;
      case Refuses(_) =>
        Advance(GiveUp);
        fate := DutyDropped;
      case Grants =>
        Advance(Granted);
        fate, sent := KeyUp(data, frames, signals, restart);
    }

    /** Pop the oldest packet and frame it. */
    method TakeNext(header: int) returns (next: Queued)
      requires Valid() && model.worker.Waiting? && running && txQueue != []
      modifies this`txQueue, this`model
      ensures Valid() && next == old(txQueue)[0] && txQueue == old(txQueue)[1..]
      ensures |next.data| <= MaxPacket(config)
      ensures model == old(model).(queue := model.queue,
                                   worker := Reserving(next.data, FramesOf(config, next.data, header)))
      ensures !config.framing ==> model.worker == Reserving(next.data, [next.data])
    {
      next := txQueue[0];
      assert |next.data| <= MaxPacket(config) && next.data == model.queue[0] by {
        ReachableAccounted(config, model);
        assert model.accepted[|model.accepted| - |model.queue|] == next.data;
      }
      Advance(Look);
      txQueue := txQueue[1..];
      Advance(Pop(header));
    }

    /** One turn of the inner loop of `_tx_loop`: nothing happens when stopped or when the queue is
        empty; otherwise the oldest packet, and only that one, is taken and finished, with exactly one
        grant if the account gave one and none otherwise. What is keyed is the first `sent` of that
        packet's own frames, all of them when it is transmitted and none without a grant. */
    method ServeNext(header: int, replies: seq<Reply>, ghost settled: nat, signals: seq<Signal>, restart: Restarting)
        returns (fate: Option<Fate>, sent: nat)
      requires Valid() && model.worker.Waiting? && !txActive && |signals| >= 2
      requires txQueue != [] ==> SettledAt(replies, txQueue[0].at, settled)
      modifies this
      ensures Valid() && !txActive
      ensures fate.None? <==> !old(running) || old(txQueue) == []
      ensures fate.None? ==> txQueue == old(txQueue) && model == old(model)
      ensures fate.Some? ==>
                && txQueue == old(txQueue)[1..] && |old(txQueue)[0].data| <= MaxPacket(config)
                && model.finished == old(model).finished + [Done(old(txQueue)[0].data, fate.value)]
                && model.grants == old(model).grants
                                   + (if replies[settled].Grants?
                                      then [Grant(|old(model).finished|, PacketAirtime(config, |old(txQueue)[0].data|))]
                                      else [])
                && (!replies[settled].Grants? ==> sent == 0)
                && var frames := FramesOf(config, old(txQueue)[0].data, header);
                && sent <= |frames| && (fate.value == Transmitted ==> sent == |frames|)
                && model.keyed == old(model).keyed + KeyedFrames(|old(model).finished|, frames, sent)
      ensures fate.Some? && !config.framing ==>
                model.keyed == old(model).keyed
                               + if sent == 0 then [] else [Keyed(|old(model).finished|, old(txQueue)[0].data)]
    {
      sent := 0;
      if !running || txQueue == [] {
        return None, 0;
      }
      var next := TakeNext(header);
      FrameShape(next.data, header);
      FramesByLength(config, next.data, header);
      var reply := AwaitReply(replies, next.at, settled);
      var f;
      f, sent := Transmit(next.data, FramesOf(config, next.data, header), reply, signals, restart);
      return Some(f), sent;
    }
  }

  lemma FramesByLength(c: Config, data: Bytes, header: int)
    requires |data| <= MaxPacket(c)
    ensures AirtimeOf(c, FramesOf(c, data, header)) == PacketAirtime(c, |data|)
    ensures !c.framing ==>
              && FramesOf(c, data, header) == [data]
              && forall packet: nat ::
                   KeyedFrames(packet, [data], 0) == [] && KeyedFrames(packet, [data], 1) == [Keyed(packet, data)]
  {
    assert FramesFor(c, data, FramesOf(c, data, header));
    AirtimeByLength(c, data, FramesOf(c, data, header));
  }

  /** The first n frames of a packet, as keyed. */
  function KeyedFrames(packet: nat, frames: seq<Bytes>, n: nat): seq<Keyed>
    requires n <= |frames|
  {
    seq(n, i requires 0 <= i < n => Keyed(packet, frames[i]))
  }

  lemma OneMoreFrame(packet: nat, frames: seq<Bytes>, n: nat)
    requires n < |frames|
    ensures KeyedFrames(packet, frames, n + 1) == KeyedFrames(packet, frames, n) + [Keyed(packet, frames[n])]
  {
  }

  lemma KeyedTail(packet: nat, frames: seq<Bytes>, n: nat, m: nat)
    requires n <= m <= |frames|
    ensures KeyedFrames(packet, frames, n) + KeyedFrames(packet, frames, m)[n..] == KeyedFrames(packet, frames, m)
  {
  }
}
