/** What the transmit pipeline puts on the air is its packets: the frames keyed for a packet are the frames
    of that packet, from the first one on, and packets follow one another in the order of acceptance. */
module Carriage {
  import opened Common
  import opened AirTime
  import Framing
  import opened TxPipeline

  /** These are the frames of this packet, for some random header. */
  ghost predicate FramesFor(c: Config, data: Bytes, frames: seq<Bytes>) {
    |data| <= MaxPacket(c) && exists header: int :: frames == FramesOf(c, data, header)
  }

  /** The frames keyed for one packet, in order. */
  function KeyedOf(ks: seq<Keyed>, packet: nat): seq<Bytes> {
    if ks == [] then []
    else
      var k := ks[|ks| - 1];
      KeyedOf(ks[..|ks| - 1], packet) + if k.packet == packet then [k.raw] else []
  }

  /** What a finished packet has had on the air: a beginning of its frames; all of them if it was
      transmitted, none if it was dropped for its airtime. */
  ghost predicate WentOut(c: Config, d: Done, keyed: seq<Bytes>) {
    exists frames ::
      && FramesFor(c, d.data, frames) && keyed <= frames
      && (d.fate.Transmitted? ==> keyed == frames)
      && (d.fate.DutyDropped? ==> keyed == [])
  }

  /** Frames are keyed packet by packet, none ahead of the packet in hand. */
  ghost predicate InOrder(s: State) {
    && (forall i, j :: 0 <= i < j < |s.keyed| ==> s.keyed[i].packet <= s.keyed[j].packet)
    && (forall k <- s.keyed :: k.packet < |s.finished| || (k.packet == |s.finished| && s.worker.Keying?))
  }

  /** The worker holds the frames of its packet, each of a size the radio takes, and has keyed the first
      `next` of them. */
  ghost predicate InHandOk(c: Config, s: State) {
    && (s.worker.Reserving? || s.worker.Keying? ==>
          FramesFor(c, s.worker.data, s.worker.frames) && FramesFit(s.worker.frames))
    && (s.worker.Keying? ==>
          && s.worker.next <= |s.worker.frames|
          && KeyedOf(s.keyed, |s.finished|) == s.worker.frames[..s.worker.next])
  }

  ghost predicate AllWentOut(c: Config, s: State) {
    forall i: nat :: i < |s.finished| ==> WentOut(c, s.finished[i], KeyedOf(s.keyed, i))
  }

  ghost predicate Carries(c: Config, s: State) {
    InOrder(s) && InHandOk(c, s) && AllWentOut(c, s)
  }

  // ---------------------------------------------------------------------------
  // Every step keeps it

  lemma {:induction false} NothingKeyed(ks: seq<Keyed>, packet: nat)
    requires forall k <- ks :: k.packet != packet
    ensures KeyedOf(ks, packet) == []
  {
    if ks != [] {
      assert ks[|ks| - 1] in ks;
      NothingKeyed(ks[..|ks| - 1], packet);
    }
  }

  lemma OneMoreKeyed(ks: seq<Keyed>, k: Keyed, packet: nat)
    ensures KeyedOf(ks + [k], packet) == KeyedOf(ks, packet) + if k.packet == packet then [k.raw] else []
  {
    assert (ks + [k])[..|ks|] == ks;
  }

  lemma KeyingKeepsOrder(s: State)
    requires InOrder(s) && s.worker.Keying? && s.worker.next < |s.worker.frames|
    ensures InOrder(KeyNext(s))
  {
    var ks := KeyNext(s).keyed;
    forall i, j | 0 <= i < j < |ks|
      ensures ks[i].packet <= ks[j].packet
    {
      assert ks[i] == s.keyed[i] && s.keyed[i] in s.keyed;
    }
  }

  lemma KeyingKeepsInHand(c: Config, s: State)
    requires InHandOk(c, s) && s.worker.Keying? && s.worker.next < |s.worker.frames|
    ensures InHandOk(c, KeyNext(s))
  {
    var w := s.worker;
    OneMoreKeyed(s.keyed, Keyed(|s.finished|, w.frames[w.next]), |s.finished|);
    assert w.frames[..w.next + 1] == w.frames[..w.next] + [w.frames[w.next]];
  }

  lemma KeyingKeepsWentOut(c: Config, s: State)
    requires AllWentOut(c, s) && s.worker.Keying? && s.worker.next < |s.worker.frames|
    ensures AllWentOut(c, KeyNext(s))
  {
    forall i: nat | i < |s.finished|
      ensures WentOut(c, s.finished[i], KeyedOf(KeyNext(s).keyed, i))
    {
      OneMoreKeyed(s.keyed, Keyed(|s.finished|, s.worker.frames[s.worker.next]), i);
      assert KeyedOf(KeyNext(s).keyed, i) == KeyedOf(s.keyed, i);
    }
  }

  lemma KeyingCarries(c: Config, s: State)
    requires Carries(c, s) && s.worker.Keying? && s.worker.next < |s.worker.frames|
    ensures Carries(c, KeyNext(s))
  {
    KeyingKeepsOrder(s);
    KeyingKeepsInHand(c, s);
    KeyingKeepsWentOut(c, s);
  }

  /** The packet in hand is finished: what it has had on the air goes with it. */
  lemma FinishCarries(c: Config, s: State, fate: Fate, w: Worker)
    requires Carries(c, s) && (s.worker.Reserving? || s.worker.Keying?) && (w.Waiting? || w.Stopped?)
    requires fate.Transmitted? ==> s.worker.Keying? && s.worker.next == |s.worker.frames|
    requires fate.DutyDropped? ==> s.worker.Reserving?
    ensures Carries(c, Finish(s, fate, w))
  {
    var s', n := Finish(s, fate, w), |s.finished|;
    if s.worker.Reserving? {
      NothingKeyed(s.keyed, n);
    }
    assert WentOut(c, s'.finished[n], KeyedOf(s.keyed, n)) by {
      assert FramesFor(c, s.worker.data, s.worker.frames);
      assert s.worker.Keying? && s.worker.next == |s.worker.frames| ==>
          s.worker.frames[..s.worker.next] == s.worker.frames;
    }
    forall i: nat | i < |s'.finished|
      ensures WentOut(c, s'.finished[i], KeyedOf(s'.keyed, i))
    {
      if i < n {
        assert s'.finished[i] == s.finished[i];
      }
    }
  }

  lemma PopCarries(c: Config, s: State, header: int)
    requires Carries(c, s) && Enabled(c, s, Pop(header))
    ensures Carries(c, Apply(c, s, Pop(header)))
  {
    FramesOfFit(c, s.queue[0], header);
    assert FramesFor(c, s.queue[0], FramesOf(c, s.queue[0], header));
  }

  lemma GrantCarries(c: Config, s: State)
    requires Carries(c, s) && s.worker.Reserving?
    ensures Carries(c, Apply(c, s, Granted))
  {
    NothingKeyed(s.keyed, |s.finished|);
  }

  /** Steps that leave the packet in hand, the frames keyed and the packets finished alone. */
  lemma OtherCarries(c: Config, s: State, s': State)
    requires Carries(c, s) && s'.keyed == s.keyed && s'.finished == s.finished
    requires s'.worker == s.worker || (s.worker.Waiting? && (s'.worker.Popping? || s'.worker.Stopped?))
    ensures Carries(c, s')
  {
  }

  lemma StepCarries(c: Config, s: State, l: Label)
    requires Carries(c, s) && Enabled(c, s, l)
    ensures Carries(c, Apply(c, s, l))
  {
    match l
    case Granted => GrantCarries(c, s);
    case Key => KeyingCarries(c, s);
    case Pop(header) => PopCarries(c, s, header);
    case KeyFault(radiated) =>
      if radiated {
        KeyingCarries(c, s);
        FinishCarries(c, KeyNext(s), Errored, Stopped);
        OtherCarries(c, Finish(KeyNext(s), Errored, Stopped), Apply(c, s, l));
      } else {
        FinishCarries(c, s, Errored, Stopped);
        OtherCarries(c, Finish(s, Errored, Stopped), Apply(c, s, l));
      }
    case GiveUp => FinishCarries(c, s, DutyDropped, Waiting);
    case LedgerFault => FinishCarries(c, s, Errored, Waiting);
    case Stumble => FinishCarries(c, s, Errored, Waiting);
    case Restart => FinishCarries(c, s, Transmitted, Waiting);
    case RestartFault =>
      FinishCarries(c, s, Errored, Stopped);
      OtherCarries(c, Finish(s, Errored, Stopped), Apply(c, s, l));
    case _ => OtherCarries(c, s, Apply(c, s, l));
  }

  lemma {:induction false} RunCarries(c: Config, s: State, run: seq<Label>)
    requires Carries(c, s) && Legal(c, s, run)
    ensures Carries(c, Exec(c, s, run))
    decreases |run|
  {
    if run != [] {
      StepCarries(c, s, run[0]);
      RunCarries(c, Apply(c, s, run[0]), run[1..]);
    }
  }

  lemma ReachableCarries(c: Config, s: State)
    requires Reachable(c, s)
    ensures Carries(c, s)
  {
    var run :| Legal(c, START, run) && Exec(c, START, run) == s;
    RunCarries(c, START, run);
  }

  // ---------------------------------------------------------------------------
  // Theorems over every run

  lemma FinishedFirst(c: Config, s: State)
    requires Accounted(c, s)
    ensures PacketsOf(s.finished) <= s.accepted
  {
    var done, hand := PacketsOf(s.finished), InHand(s.worker);
    assert (done + hand + s.queue)[..|done|] == done;
  }

  /** Whatever happens, what is on the air is the accepted packets in their order: frames are keyed packet
      by packet; the finished packets are a beginning of the accepted ones; each has had a beginning of
      its own frames on the air, all of them if it was transmitted, none if it was dropped for its
      airtime; and of the packet in hand just the first `next` frames. */
  lemma WhatGoesOut(c: Config, run: seq<Label>)
    requires c.Valid() && Legal(c, START, run)
    ensures var e := Exec(c, START, run);
            && InOrder(e) && AllWentOut(c, e)
            && PacketsOf(e.finished) <= e.accepted
            && (e.worker.Keying? ==>
                  && FramesFor(c, e.worker.data, e.worker.frames) && e.worker.next <= |e.worker.frames|
                  && KeyedOf(e.keyed, |e.finished|) == e.worker.frames[..e.worker.next])
  {
    RunCarries(c, START, run);
    RunKeepsAll(c, START, run);
    FinishedFirst(c, Exec(c, START, run));
  }

  /** The radio's fatal size error cannot happen: every frame a worker may hand over, radiated or not, is
      of a size the radio takes. */
  lemma NothingTooLong(c: Config, run: seq<Label>)
    requires c.Valid() && Legal(c, START, run)
    ensures var w := Exec(c, START, run).worker;
            w.Reserving? || w.Keying? ==> forall f <- w.frames :: |f| <= 255
  {
    RunCarries(c, START, run);
  }

  // ---------------------------------------------------------------------------
  // In plain terms: packets, lengths and airtimes

  /** The seconds on air of a packet of n bytes: without framing that of one frame of n bytes; with it one
      more byte for the header, or two frames, the first of them full. */
  function PacketAirtime(c: Config, n: nat): real {
    if !c.framing then c.toa(n)
    else if n <= 254 then c.toa(n + 1)
    else c.toa(255) + c.toa(n - 253)
  }

  lemma AirtimeOfTwo(c: Config, a: Bytes, b: Bytes)
    ensures AirtimeOf(c, [a]) == c.toa(|a|) && AirtimeOf(c, [a, b]) == c.toa(|a|) + c.toa(|b|)
  {
    assert [a][..0] == [] && [a, b][..1] == [a];
    assert AirtimeOf(c, [a]) == c.toa(|a|);
  }

  lemma AirtimeByLength(c: Config, data: Bytes, frames: seq<Bytes>)
    requires FramesFor(c, data, frames)
    ensures AirtimeOf(c, frames) == PacketAirtime(c, |data|)
    ensures !c.framing ==> frames == [data]
  {
    var header: int :| frames == FramesOf(c, data, header);
    Framing.FrameShape(data, header);
    if |frames| == 1 {
      assert frames == [frames[0]];
      AirtimeOfTwo(c, frames[0], []);
    } else {
      assert frames == [frames[0], frames[1]];
      AirtimeOfTwo(c, frames[0], frames[1]);
    }
  }

  /** Every grant is for one accepted packet, and of the airtime of that packet's length. */
  ghost predicate Priced(c: Config, s: State) {
    forall g <- s.grants :: g.packet < |s.accepted| && g.airtime == PacketAirtime(c, |s.accepted[g.packet]|)
  }

  lemma PacketInHand(c: Config, s: State)
    requires Accounted(c, s) && (s.worker.Reserving? || s.worker.Keying?)
    ensures |s.finished| < |s.accepted| && s.worker.data == s.accepted[|s.finished|]
  {
    var done := PacketsOf(s.finished);
    assert (done + [s.worker.data] + s.queue)[|done|] == s.worker.data;
  }

  lemma StepKeepsPriced(c: Config, s: State, l: Label)
    requires Accounted(c, s) && Carries(c, s) && Priced(c, s) && Enabled(c, s, l)
    ensures Priced(c, Apply(c, s, l))
  {
    var s' := Apply(c, s, l);
    if l.Granted? {
      PacketInHand(c, s);
      AirtimeByLength(c, s.worker.data, s.worker.frames);
    } else {
      assert s'.grants == s.grants && s.accepted <= s'.accepted;
    }
  }

  lemma {:induction false} RunKeepsPriced(c: Config, s: State, run: seq<Label>)
    requires Accounted(c, s) && Carries(c, s) && Priced(c, s) && Legal(c, s, run)
    ensures Priced(c, Exec(c, s, run))
    decreases |run|
  {
    if run != [] {
      StepKeepsAccount(c, s, run[0]);
      StepCarries(c, s, run[0]);
      StepKeepsPriced(c, s, run[0]);
      RunKeepsPriced(c, Apply(c, s, run[0]), run[1..]);
    }
  }

  /** In every run each grant names an accepted packet and is of the airtime of that packet's length. */
  lemma GrantsByLength(c: Config, run: seq<Label>)
    requires c.Valid() && Legal(c, START, run)
    ensures Priced(c, Exec(c, START, run))
  {
    RunKeepsPriced(c, START, run);
  }

  /** What a finished packet has had on the air when frames are packets: itself if transmitted, nothing if
      dropped for its airtime, itself or nothing otherwise. */
  ghost predicate WentOutAsIs(d: Done, keyed: seq<Bytes>) {
    match d.fate
    case Transmitted => keyed == [d.data]
    case DutyDropped => keyed == []
    case Errored => keyed == [] || keyed == [d.data]
  }

  /** Without framing the frame is the packet, the whole packet and nothing but the packet. */
  lemma WithoutFraming(c: Config, run: seq<Label>)
    requires c.Valid() && !c.framing && Legal(c, START, run)
    ensures var e := Exec(c, START, run);
            && (forall i: nat :: i < |e.finished| ==> WentOutAsIs(e.finished[i], KeyedOf(e.keyed, i)))
            && (e.worker.Reserving? || e.worker.Keying? ==> e.worker.frames == [e.worker.data])
            && (forall g <- e.grants :: g.packet < |e.accepted| && g.airtime == c.toa(|e.accepted[g.packet]|))
  {
    RunCarries(c, START, run);
    GrantsByLength(c, run);
    var e := Exec(c, START, run);
    forall i: nat | i < |e.finished|
      ensures WentOutAsIs(e.finished[i], KeyedOf(e.keyed, i))
    {
      AsIs(c, e.finished[i], KeyedOf(e.keyed, i));
    }
    if e.worker.Reserving? || e.worker.Keying? {
      AirtimeByLength(c, e.worker.data, e.worker.frames);
    }
  }

  lemma AsIs(c: Config, d: Done, keyed: seq<Bytes>)
    requires !c.framing && WentOut(c, d, keyed)
    ensures WentOutAsIs(d, keyed)
  {
    var frames :| FramesFor(c, d.data, frames) && keyed <= frames
      && (d.fate.Transmitted? ==> keyed == frames) && (d.fate.DutyDropped? ==> keyed == []);
    AirtimeByLength(c, d.data, frames);
    assert |keyed| == 1 ==> keyed == frames;
  }
}
