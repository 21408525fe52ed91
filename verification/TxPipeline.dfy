/** The outbound side of the interface: one producer, the bounded queue, the TX worker, and faults
    reported by the RX thread at any moment. */
module TxPipeline {
  import opened Common
  import opened Framing
  import opened AirTime

  const MAX_QUEUE_PACKETS := 64

  /** Framing on or off, and the seconds on air of a frame by its length. */
  datatype Config = Config(framing: bool, toa: nat -> real) {
    ghost predicate Valid() {
      forall n: nat :: toa(n) > 0.0
    }
  }

  /** The configuration the interface runs with. */
  function ModemConfig(framing: bool, m: Modem): (c: Config)
    requires m.Valid()
    ensures c.Valid() && c.framing == framing && forall n: nat :: c.toa(n) == TimeOnAir(m, n)
  {
    assert forall n: nat :: TimeOnAir(m, n) > 0.0 by {
      forall n: nat ensures TimeOnAir(m, n) > 0.0 {
        TimeOnAirMonotone(m, n, n);
      }
    }
    Config(framing, (n: nat) => TimeOnAir(m, n))
  }

  function MaxPacket(c: Config): nat {
    if c.framing then FRAMED_MTU else MAX_PAYLOAD
  }

  /** The LoRa frames of one packet; `header` is the random byte of the framing. */
  function FramesOf(c: Config, data: Bytes, header: int): seq<Bytes>
    requires |data| <= MaxPacket(c)
  {
    FrameShape(data, header);
    if c.framing then Frame(data, header).value else [data]
  }

  function AirtimeOf(c: Config, frames: seq<Bytes>): real {
    if frames == [] then 0.0 else AirtimeOf(c, frames[..|frames| - 1]) + c.toa(|frames[|frames| - 1]|)
  }

  // ---------------------------------------------------------------------------
  // State

  datatype Fate = Transmitted | DutyDropped | Errored

  datatype Done = Done(data: Bytes, fate: Fate)

  datatype Producer = Free | Appending(data: Bytes)

  datatype Worker =
    | Waiting
    | Popping                                                    // saw a packet and _run; about to pop
    | Reserving(data: Bytes, frames: seq<Bytes>)
    | Keying(data: Bytes, frames: seq<Bytes>, next: nat)
    | Stopped

  /** Packets are numbered in the order they were accepted. */
  datatype Grant = Grant(packet: nat, airtime: real)
  datatype Keyed = Keyed(packet: nat, raw: Bytes)

  datatype State = State(
    online: bool, run: bool,
    queue: seq<Bytes>, producer: Producer, worker: Worker,
    offers: nat, oversize: nat, overflow: nat,
    accepted: seq<Bytes>, finished: seq<Done>,
    grants: seq<Grant>, keyed: seq<Keyed>)

  const START := State(true, true, [], Free, Waiting, 0, 0, 0, [], [], [], [])

  datatype Label =
    | Offer(data: Bytes)
    | Append
    | Look
    | Pop(header: int)
    | Denied
    | Granted
    | GiveUp
    | LedgerFault
    | Key
    | KeyFault(radiated: bool)
    | Stumble
    | Restart
    | RestartFault
    | Fail

  predicate Enabled(c: Config, s: State, l: Label) {
    match l
    case Offer(_) => s.producer.Free?
    case Append => s.producer.Appending?
    case Look => s.worker.Waiting?
    case Pop(_) => s.worker.Popping? && s.queue != [] && |s.queue[0]| <= MaxPacket(c)
    case Denied => s.worker.Reserving?
    case Granted => s.worker.Reserving?
    case GiveUp => s.worker.Reserving?
    case LedgerFault => s.worker.Reserving?
    case Key => s.worker.Keying? && s.worker.next < |s.worker.frames|
    case KeyFault(_) => s.worker.Keying? && s.worker.next < |s.worker.frames|
    case Stumble => s.worker.Reserving? || s.worker.Keying?
    case Restart => s.worker.Keying? && s.worker.next == |s.worker.frames|
    case RestartFault => s.worker.Keying? && s.worker.next == |s.worker.frames|
    case Fail => true
  }

  function Finish(s: State, fate: Fate, w: Worker): State
    requires s.worker.Reserving? || s.worker.Keying?
  {
    s.(finished := s.finished + [Done(s.worker.data, fate)], worker := w)
  }

  /** `_fail`: the first fault stops both loops and takes the interface offline. */
  function Failed(s: State): State {
    s.(run := false, online := s.online && !s.run)
  }

  function KeyNext(s: State): State
    requires s.worker.Keying? && s.worker.next < |s.worker.frames|
  {
    s.(keyed := s.keyed + [Keyed(|s.finished|, s.worker.frames[s.worker.next])],
       worker := s.worker.(next := s.worker.next + 1))
  }

  function Apply(c: Config, s: State, l: Label): State
    requires Enabled(c, s, l)
  {
    match l
    case Offer(data) =>
      if !s.online then s
      else
        var s1 := s.(offers := s.offers + 1);
        if |data| > MaxPacket(c) then s1.(oversize := s.oversize + 1)
        else if |s.queue| >= MAX_QUEUE_PACKETS then s1.(overflow := s.overflow + 1)
        else s1.(producer := Appending(data))
    case Append =>
      s.(queue := s.queue + [s.producer.data], accepted := s.accepted + [s.producer.data], producer := Free)
    case Look => if !s.run then s.(worker := Stopped) else if s.queue == [] then s else s.(worker := Popping)
    case Pop(header) => s.(queue := s.queue[1..], worker := Reserving(s.queue[0], FramesOf(c, s.queue[0], header)))
    case Denied => s
    case Granted =>
      s.(grants := s.grants + [Grant(|s.finished|, AirtimeOf(c, s.worker.frames))],
         worker := Keying(s.worker.data, s.worker.frames, 0))
    case GiveUp => Finish(s, DutyDropped, Waiting)
    case LedgerFault => Finish(s, Errored, Waiting)
    case Key => KeyNext(s)
    case KeyFault(radiated) => Failed(Finish(if radiated then KeyNext(s) else s, Errored, Stopped))
    case Stumble => Finish(s, Errored, Waiting)
    case Restart => Finish(s, Transmitted, Waiting)
    case RestartFault => Failed(Finish(s, Errored, Stopped))
    case Fail => Failed(s)
  }

  ghost predicate Legal(c: Config, s: State, run: seq<Label>)
    decreases |run|
  {
    run == [] || (Enabled(c, s, run[0]) && Legal(c, Apply(c, s, run[0]), run[1..]))
  }

  function Exec(c: Config, s: State, run: seq<Label>): State
    requires Legal(c, s, run)
    decreases |run|
  {
    if run == [] then s else Exec(c, Apply(c, s, run[0]), run[1..])
  }

  // ---------------------------------------------------------------------------
  // Invariants

  function PacketsOf(ds: seq<Done>): seq<Bytes> {
    seq(|ds|, i requires 0 <= i < |ds| => ds[i].data)
  }

  function InHand(w: Worker): seq<Bytes> {
    if w.Reserving? || w.Keying? then [w.data] else []
  }

  function Pending(p: Producer): nat {
    if p.Appending? then 1 else 0
  }

  /** Every packet offered while online is in exactly one place, and the accepted ones are, in order,
      the finished ones, the one in hand and the queue. */
  ghost predicate Accounted(c: Config, s: State) {
    && s.accepted == PacketsOf(s.finished) + InHand(s.worker) + s.queue
    && s.offers == s.oversize + s.overflow + Pending(s.producer) + |s.accepted|
    && |s.queue| + Pending(s.producer) <= MAX_QUEUE_PACKETS
    && (s.producer.Appending? ==> |s.producer.data| <= MaxPacket(c))
    && (forall d <- s.accepted :: |d| <= MaxPacket(c))
    && (s.worker.Popping? ==> s.queue != [])
    && (s.run || !s.online)
  }

  ghost predicate FramesFit(frames: seq<Bytes>) {
    forall f <- frames :: |f| <= MAX_PAYLOAD
  }

  function TotalGranted(gs: seq<Grant>): real {
    if gs == [] then 0.0 else TotalGranted(gs[..|gs| - 1]) + gs[|gs| - 1].airtime
  }

  function TotalKeyed(c: Config, ks: seq<Keyed>): real {
    if ks == [] then 0.0 else TotalKeyed(c, ks[..|ks| - 1]) + c.toa(|ks[|ks| - 1].raw|)
  }

  ghost predicate HasGrant(gs: seq<Grant>, packet: nat) {
    exists j :: 0 <= j < |gs| && gs[j].packet == packet
  }

  /** Airtime granted to the packet in hand and not keyed yet. */
  function Unspent(c: Config, w: Worker): real {
    if w.Keying? && w.next <= |w.frames| then AirtimeOf(c, w.frames) - AirtimeOf(c, w.frames[..w.next]) else 0.0
  }

  /** Grants go to distinct packets, in order, at most to the one in hand. */
  ghost predicate GrantsOrdered(s: State) {
    && (forall i, j :: 0 <= i < j < |s.grants| ==> s.grants[i].packet < s.grants[j].packet)
    && (forall g <- s.grants :: g.packet < |s.finished| || (g.packet == |s.finished| && s.worker.Keying?))
  }

  /** Every keyed frame belongs to a granted packet and fits the radio. */
  ghost predicate KeyedGranted(s: State) {
    && (s.worker.Keying? ==> s.worker.next <= |s.worker.frames| && HasGrant(s.grants, |s.finished|))
    && (s.worker.Reserving? || s.worker.Keying? ==> FramesFit(s.worker.frames))
    && (forall k <- s.keyed :: |k.raw| <= MAX_PAYLOAD && HasGrant(s.grants, k.packet))
  }

  /** What is keyed plus what is still due never exceeds what was granted. */
  ghost predicate Solvent(c: Config, s: State) {
    TotalKeyed(c, s.keyed) + Unspent(c, s.worker) <= TotalGranted(s.grants)
  }

  ghost predicate Prepaid(c: Config, s: State) {
    GrantsOrdered(s) && KeyedGranted(s) && Solvent(c, s)
  }

  lemma {:induction false} AirtimeGrows(c: Config, frames: seq<Bytes>, n: nat)
    requires c.Valid() && n <= |frames|
    ensures 0.0 <= AirtimeOf(c, frames[..n]) <= AirtimeOf(c, frames)
    ensures n < |frames| ==> AirtimeOf(c, frames[..n + 1]) == AirtimeOf(c, frames[..n]) + c.toa(|frames[n]|)
    decreases |frames|
  {
    if n < |frames| {
      assert frames[..n + 1][..n] == frames[..n];
      AirtimeGrows(c, frames[..|frames| - 1], n);
      assert frames[..|frames| - 1][..n] == frames[..n];
    } else {
      assert frames[..n] == frames;
      if n > 0 {
        AirtimeGrows(c, frames[..n - 1], n - 1);
        assert frames[..n - 1][..n - 1] == frames[..n - 1];
      }
    }
  }

  lemma FinishKeepsAccount(c: Config, s: State, fate: Fate, w: Worker)
    requires Accounted(c, s) && (s.worker.Reserving? || s.worker.Keying?) && (w.Waiting? || w.Stopped?)
    ensures Accounted(c, Finish(s, fate, w)) && Accounted(c, Failed(Finish(s, fate, w)))
  {
    var s' := Finish(s, fate, w);
    assert PacketsOf(s'.finished) == PacketsOf(s.finished) + [s.worker.data];
    assert s'.accepted == PacketsOf(s'.finished) + InHand(s'.worker) + s'.queue;
  }

  lemma PopKeepsAccount(c: Config, s: State, header: int)
    requires Accounted(c, s) && Enabled(c, s, Pop(header))
    ensures Accounted(c, Apply(c, s, Pop(header)))
  {
    assert s.queue == [s.queue[0]] + s.queue[1..];
    assert PacketsOf(s.finished) + InHand(s.worker) + s.queue == PacketsOf(s.finished) + [s.queue[0]] + s.queue[1..];
  }

  lemma AppendKeepsAccount(c: Config, s: State)
    requires Accounted(c, s) && Enabled(c, s, Append)
    ensures Accounted(c, Apply(c, s, Append))
  {
    var done := PacketsOf(s.finished) + InHand(s.worker);
    assert done + s.queue + [s.producer.data] == done + (s.queue + [s.producer.data]);
  }

  lemma StepKeepsAccount(c: Config, s: State, l: Label)
    requires Accounted(c, s) && Enabled(c, s, l)
    ensures Accounted(c, Apply(c, s, l))
  {
    match l
    case Append => AppendKeepsAccount(c, s);
    case Pop(header) => PopKeepsAccount(c, s, header);
    case GiveUp => FinishKeepsAccount(c, s, DutyDropped, Waiting);
    case LedgerFault => FinishKeepsAccount(c, s, Errored, Waiting);
    case Stumble => FinishKeepsAccount(c, s, Errored, Waiting);
    case Restart => FinishKeepsAccount(c, s, Transmitted, Waiting);
    case RestartFault => FinishKeepsAccount(c, s, Errored, Stopped);
    case KeyFault(radiated) => FinishKeepsAccount(c, if radiated then KeyNext(s) else s, Errored, Stopped);
    case _ =>
  }

  lemma FramesOfFit(c: Config, data: Bytes, header: int)
    requires |data| <= MaxPacket(c)
    ensures FramesFit(FramesOf(c, data, header))
  {
    FrameShape(data, header);
  }

  lemma GrantKept(gs: seq<Grant>, g: Grant, packet: nat)
    requires HasGrant(gs, packet) || g.packet == packet
    ensures HasGrant(gs + [g], packet)
  {
    if HasGrant(gs, packet) {
      var j :| 0 <= j < |gs| && gs[j].packet == packet;
      assert (gs + [g])[j].packet == packet;
    } else {
      assert (gs + [g])[|gs|].packet == packet;
    }
  }

  lemma GrantingKeepsOrder(c: Config, s: State)
    requires GrantsOrdered(s) && s.worker.Reserving?
    ensures GrantsOrdered(Apply(c, s, Granted))
  {
    var gs := Apply(c, s, Granted).grants;
    forall i, j | 0 <= i < j < |gs|
      ensures gs[i].packet < gs[j].packet
    {
      assert gs[i] == s.grants[i] && s.grants[i] in s.grants;
    }
  }

  lemma GrantingKeepsKeyed(c: Config, s: State)
    requires KeyedGranted(s) && s.worker.Reserving?
    ensures KeyedGranted(Apply(c, s, Granted))
  {
    var s' := Apply(c, s, Granted);
    var g := Grant(|s.finished|, AirtimeOf(c, s.worker.frames));
    GrantKept(s.grants, g, |s.finished|);
    forall k | k in s'.keyed
      ensures HasGrant(s'.grants, k.packet)
    {
      GrantKept(s.grants, g, k.packet);
    }
  }

  lemma GrantingKeepsPrepaid(c: Config, s: State)
    requires Prepaid(c, s) && s.worker.Reserving?
    ensures Prepaid(c, Apply(c, s, Granted))
  {
    GrantingKeepsOrder(c, s);
    GrantingKeepsKeyed(c, s);
    var s' := Apply(c, s, Granted);
    assert s'.grants[..|s.grants|] == s.grants;
    assert s'.worker.frames[..0] == [];
  }

  lemma KeyingKeepsSolvent(c: Config, s: State)
    requires c.Valid() && Solvent(c, s) && s.worker.Keying? && s.worker.next < |s.worker.frames|
    ensures Solvent(c, KeyNext(s))
  {
    var k := Keyed(|s.finished|, s.worker.frames[s.worker.next]);
    assert (s.keyed + [k])[..|s.keyed|] == s.keyed;
    AirtimeGrows(c, s.worker.frames, s.worker.next);
  }

  lemma KeyingKeepsGranted(s: State)
    requires KeyedGranted(s) && s.worker.Keying? && s.worker.next < |s.worker.frames|
    ensures KeyedGranted(KeyNext(s))
  {
    assert s.worker.frames[s.worker.next] in s.worker.frames;
  }

  lemma KeyingKeepsPrepaid(c: Config, s: State)
    requires c.Valid() && Prepaid(c, s) && s.worker.Keying? && s.worker.next < |s.worker.frames|
    ensures Prepaid(c, KeyNext(s))
  {
    KeyingKeepsSolvent(c, s);
    KeyingKeepsGranted(s);
  }

  lemma FinishKeepsPrepaid(c: Config, s: State, fate: Fate, w: Worker)
    requires c.Valid() && Prepaid(c, s) && (s.worker.Reserving? || s.worker.Keying?) && (w.Waiting? || w.Stopped?)
    ensures Prepaid(c, Finish(s, fate, w))
  {
    if s.worker.Keying? {
      AirtimeGrows(c, s.worker.frames, s.worker.next);
    }
  }

  /** Steps that neither grant, key nor finish. */
  lemma OtherKeepsPrepaid(c: Config, s: State, s': State)
    requires Prepaid(c, s)
    requires s'.grants == s.grants && s'.keyed == s.keyed && s'.finished == s.finished
    requires s'.worker == s.worker || (!s.worker.Keying? && !s'.worker.Keying?)
    requires s'.worker.Reserving? ==> FramesFit(s'.worker.frames)
    ensures Prepaid(c, s')
  {
  }

  lemma StepKeepsPrepaid(c: Config, s: State, l: Label)
    requires c.Valid() && Prepaid(c, s) && Enabled(c, s, l)
    ensures Prepaid(c, Apply(c, s, l))
  {
    match l
    case Granted => GrantingKeepsPrepaid(c, s);
    case Key => KeyingKeepsPrepaid(c, s);
    case KeyFault(radiated) =>
      if radiated {
        KeyingKeepsPrepaid(c, s);
        FinishKeepsPrepaid(c, KeyNext(s), Errored, Stopped);
      } else {
        FinishKeepsPrepaid(c, s, Errored, Stopped);
      }
    case GiveUp => FinishKeepsPrepaid(c, s, DutyDropped, Waiting);
    case LedgerFault => FinishKeepsPrepaid(c, s, Errored, Waiting);
    case Stumble => FinishKeepsPrepaid(c, s, Errored, Waiting);
    case Restart => FinishKeepsPrepaid(c, s, Transmitted, Waiting);
    case RestartFault => FinishKeepsPrepaid(c, s, Errored, Stopped);
    case Pop(header) =>
      FramesOfFit(c, s.queue[0], header);
      OtherKeepsPrepaid(c, s, Apply(c, s, l));
    case _ => OtherKeepsPrepaid(c, s, Apply(c, s, l));
  }

  lemma {:induction false} RunKeepsAll(c: Config, s: State, run: seq<Label>)
    requires c.Valid() && Accounted(c, s) && Prepaid(c, s) && Legal(c, s, run)
    ensures Accounted(c, Exec(c, s, run)) && Prepaid(c, Exec(c, s, run))
    decreases |run|
  {
    if run != [] {
      StepKeepsAccount(c, s, run[0]);
      StepKeepsPrepaid(c, s, run[0]);
      RunKeepsAll(c, Apply(c, s, run[0]), run[1..]);
    }
  }

  /** Some run from the start ends in this state. */
  ghost predicate Reachable(c: Config, s: State) {
    exists run :: Legal(c, START, run) && Exec(c, START, run) == s
  }

  lemma {:induction false} ExecSnoc(c: Config, s: State, run: seq<Label>, l: Label)
    requires Legal(c, s, run) && Enabled(c, Exec(c, s, run), l)
    ensures Legal(c, s, run + [l]) && Exec(c, s, run + [l]) == Apply(c, Exec(c, s, run), l)
    decreases |run|
  {
    if run == [] {
      assert [] + [l] == [l] && [l][1..] == [];
    } else {
      assert (run + [l])[1..] == run[1..] + [l] && (run + [l])[0] == run[0];
      ExecSnoc(c, Apply(c, s, run[0]), run[1..], l);
    }
  }

  lemma ReachableStep(c: Config, s: State, l: Label)
    requires Reachable(c, s) && Enabled(c, s, l)
    ensures Reachable(c, Apply(c, s, l))
  {
    var run :| Legal(c, START, run) && Exec(c, START, run) == s;
    ExecSnoc(c, START, run, l);
  }

  lemma ReachableAccounted(c: Config, s: State)
    requires c.Valid() && Reachable(c, s)
    ensures Accounted(c, s) && Prepaid(c, s)
  {
    var run :| Legal(c, START, run) && Exec(c, START, run) == s;
    RunKeepsAll(c, START, run);
  }

  // ---------------------------------------------------------------------------
  // Theorems over every run

  /** Every packet offered while online is in exactly one place; packets leave in acceptance order; the
      queue never exceeds 64. */
  lemma EveryPacketIsAccounted(c: Config, run: seq<Label>)
    requires c.Valid() && Legal(c, START, run)
    ensures var e := Exec(c, START, run);
            && |e.queue| <= 64
            && PacketsOf(e.finished) + InHand(e.worker) + e.queue == e.accepted
            && e.offers == e.oversize + e.overflow + Pending(e.producer)
                           + |e.finished| + |InHand(e.worker)| + |e.queue|
  {
    RunKeepsAll(c, START, run);
  }

  /** Exactly one grant names this packet. */
  ghost predicate OneGrant(gs: seq<Grant>, packet: nat) {
    HasGrant(gs, packet) && forall i, j :: 0 <= i < j < |gs| ==> !(gs[i].packet == packet && gs[j].packet == packet)
  }

  /** Each frame keyed fits the radio and belongs to a packet with exactly one grant, and the airtime
      keyed never exceeds the airtime granted. */
  lemma EveryFrameIsPrepaid(c: Config, run: seq<Label>)
    requires c.Valid() && Legal(c, START, run)
    ensures var e := Exec(c, START, run);
            && TotalKeyed(c, e.keyed) <= TotalGranted(e.grants)
            && forall k <- e.keyed :: |k.raw| <= 255 && OneGrant(e.grants, k.packet)
  {
    RunKeepsAll(c, START, run);
    PrepaidMeans(c, Exec(c, START, run));
  }

  lemma PrepaidMeans(c: Config, s: State)
    requires c.Valid() && Prepaid(c, s)
    ensures TotalKeyed(c, s.keyed) <= TotalGranted(s.grants)
    ensures forall k <- s.keyed :: |k.raw| <= MAX_PAYLOAD && OneGrant(s.grants, k.packet)
  {
    if s.worker.Keying? {
      AirtimeGrows(c, s.worker.frames, s.worker.next);
    }
  }

  /** The same with the radio's own time on air, for every modem setting. */
  lemma KeyedAirtimeIsPrepaid(framing: bool, m: Modem, run: seq<Label>)
    requires m.Valid() && Legal(ModemConfig(framing, m), START, run)
    ensures var c := ModemConfig(framing, m);
            TotalKeyed(c, Exec(c, START, run).keyed) <= TotalGranted(Exec(c, START, run).grants)
  {
    EveryFrameIsPrepaid(ModemConfig(framing, m), run);
  }

  /** Grants and charges of the past are never taken back by any later step. */
  lemma {:induction false} NothingIsRefunded(c: Config, s: State, run: seq<Label>)
    requires c.Valid() && Legal(c, s, run)
    ensures s.grants <= Exec(c, s, run).grants && s.keyed <= Exec(c, s, run).keyed
    decreases |run|
  {
    if run != [] {
      NothingIsRefunded(c, Apply(c, s, run[0]), run[1..]);
    }
  }

  /** How many packets the worker has taken, or is bound to take. */
  function Committed(s: State): nat {
    |s.finished| + if s.worker.Popping? || s.worker.Reserving? || s.worker.Keying? then 1 else 0
  }

  /** Once `_run` is false no further packet is taken: whatever is keyed afterwards belongs to the packet
      that was in hand (or on its way into it) at that moment. */
  lemma {:induction false} StopIsFinal(c: Config, s: State, run: seq<Label>)
    requires c.Valid() && Legal(c, s, run) && !s.run
    ensures var e := Exec(c, s, run);
            && !e.run && Committed(e) == Committed(s)
            && forall i :: |s.keyed| <= i < |e.keyed| ==> e.keyed[i].packet + 1 == Committed(s)
    ensures s.keyed <= Exec(c, s, run).keyed
    decreases |run|
  {
    if run != [] {
      var s' := Apply(c, s, run[0]);
      StopIsFinal(c, s', run[1..]);
      var e := Exec(c, s, run);
      forall i | |s.keyed| <= i < |e.keyed|
        ensures e.keyed[i].packet + 1 == Committed(s)
      {
        if i < |s'.keyed| {
          assert e.keyed[i] == s'.keyed[i];
        }
      }
    }
  }
}
