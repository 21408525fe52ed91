/** From end to end: what the transmit pipeline keys is what a listening reassembler delivers. */
module Delivery {
  import opened Common
  import opened Framing
  import opened TxPipeline
  import opened Carriage

  // ---------------------------------------------------------------------------
  // The frames of one packet are a stretch of what is keyed

  /** How many frames belong to packets before this one. */
  function Before(ks: seq<Keyed>, packet: nat): nat {
    if ks == [] then 0
    else Before(ks[..|ks| - 1], packet) + if ks[|ks| - 1].packet < packet then 1 else 0
  }

  ghost predicate Sorted(ks: seq<Keyed>) {
    forall i, j :: 0 <= i < j < |ks| ==> ks[i].packet <= ks[j].packet
  }

  lemma {:induction false} BeforeCuts(ks: seq<Keyed>, packet: nat)
    requires Sorted(ks)
    ensures Before(ks, packet) <= |ks|
    ensures forall i :: 0 <= i < |ks| ==> (i < Before(ks, packet) <==> ks[i].packet < packet)
  {
    if ks != [] {
      BeforeCuts(ks[..|ks| - 1], packet);
    }
  }

  function Raws(ks: seq<Keyed>): seq<Bytes> {
    seq(|ks|, i requires 0 <= i < |ks| => ks[i].raw)
  }

  lemma {:induction false} AllOfOne(ks: seq<Keyed>, packet: nat)
    requires forall k <- ks :: k.packet == packet
    ensures KeyedOf(ks, packet) == Raws(ks)
  {
    if ks != [] {
      var n := |ks| - 1;
      assert ks[n] in ks;
      AllOfOne(ks[..n], packet);
    }
  }

  lemma {:induction false} KeyedConcat(a: seq<Keyed>, b: seq<Keyed>, packet: nat)
    ensures KeyedOf(a + b, packet) == KeyedOf(a, packet) + KeyedOf(b, packet)
    decreases |b|
  {
    if b == [] {
      assert a + b == a;
    } else {
      var n := |b| - 1;
      assert (a + b)[..|a + b| - 1] == a + b[..n];
      KeyedConcat(a, b[..n], packet);
    }
  }

  lemma {:induction false} BeforeGrows(ks: seq<Keyed>, packet: nat)
    ensures Before(ks, packet) <= Before(ks, packet + 1)
  {
    if ks != [] {
      BeforeGrows(ks[..|ks| - 1], packet);
    }
  }

  lemma MiddleOf(a: seq<Keyed>, b: seq<Keyed>, c: seq<Keyed>, packet: nat)
    requires (forall k <- a :: k.packet != packet) && (forall k <- c :: k.packet != packet)
    requires forall k <- b :: k.packet == packet
    ensures KeyedOf(a + b + c, packet) == Raws(b)
  {
    KeyedConcat(a + b, c, packet);
    KeyedConcat(a, b, packet);
    NothingKeyed(a, packet);
    NothingKeyed(c, packet);
    AllOfOne(b, packet);
  }

  /** The stretch of one packet. */
  function Stretch<T>(ks: seq<Keyed>, items: seq<T>, packet: nat): seq<T> {
    var from, to := Before(ks, packet), Before(ks, packet + 1);
    if from <= to <= |items| then items[from..to] else []
  }

  lemma StretchRange(ks: seq<Keyed>, packet: nat)
    requires Sorted(ks)
    ensures Before(ks, packet) <= Before(ks, packet + 1) <= |ks|
    ensures forall i :: 0 <= i < |ks| ==>
              (Before(ks, packet) <= i < Before(ks, packet + 1) <==> ks[i].packet == packet)
  {
    BeforeCuts(ks, packet);
    BeforeCuts(ks, packet + 1);
    BeforeGrows(ks, packet);
  }

  lemma StretchOf(ks: seq<Keyed>, packet: nat)
    requires Sorted(ks)
    ensures Before(ks, packet) <= Before(ks, packet + 1) <= |ks|
    ensures forall k <- Stretch(ks, ks, packet) :: k.packet == packet
    ensures Raws(Stretch(ks, ks, packet)) == KeyedOf(ks, packet)
  {
    var from, to := Before(ks, packet), Before(ks, packet + 1);
    StretchRange(ks, packet);
    MiddleOf(ks[..from], ks[from..to], ks[to..], packet);
    assert ks == ks[..from] + ks[from..to] + ks[to..];
  }

  // ---------------------------------------------------------------------------
  // One packet at the receiver

  /** Frames as they are heard: exactly those keyed, at some times, and the frames of one packet close
      enough together for the reassembler. */
  ghost predicate Heard(maxAge: Option<real>, ks: seq<Keyed>, heard: seq<Timed>) {
    && |heard| == |ks|
    && (forall i :: 0 <= i < |ks| ==> heard[i].raw == ks[i].raw)
    && (forall i :: 0 < i < |ks| && ks[i - 1].packet == ks[i].packet ==> !Stale(maxAge, heard[i - 1].at, heard[i].at))
  }

  /** The frame would be glued to the half that is pending. */
  predicate GluesFrame(maxAge: Option<real>, s: Half, f: Timed) {
    SplitFrame(f) && s.Pending() && s.tag == SeqOf(f.raw[0]) && !Expired(maxAge, s, f.at)
  }

  function Content(data: Bytes): seq<Bytes> {
    if data == [] then [] else [data]
  }

  /** The frames of one packet, heard together: the packet is delivered, unless it is empty, and nothing
      stays pending. */
  lemma PacketHeard(c: Config, maxAge: Option<real>, s: Half, data: Bytes, header: int, fs: seq<Timed>)
    requires c.framing && |data| <= MaxPacket(c)
    requires |fs| == |FramesOf(c, data, header)|
    requires forall i :: 0 <= i < |fs| ==> fs[i].raw == FramesOf(c, data, header)[i]
    requires forall i :: 0 < i < |fs| ==> !Stale(maxAge, fs[i - 1].at, fs[i].at)
    requires fs != [] ==> !GluesFrame(maxAge, s, fs[0])
    ensures Delivered(maxAge, s, fs) == Content(data) && !Final(maxAge, s, fs).Pending()
  {
    FrameShape(data, header);
    if data == [] {
      EmptyHeard(maxAge, s, fs);
    } else {
      var p := Sent(data, header, fs[0].at, fs[|fs| - 1].at);
      assert AirFrames(p) == fs;
      OnePacket(maxAge, s, p);
    }
  }

  lemma EmptyHeard(maxAge: Option<real>, s: Half, fs: seq<Timed>)
    requires |fs| == 1 && |fs[0].raw| == HEADER_L
    ensures Delivered(maxAge, s, fs) == [] && !Final(maxAge, s, fs).Pending()
  {
    assert fs[..0] == [];
    assert OutAt(maxAge, s, fs, 0) == None;
  }

  // ---------------------------------------------------------------------------
  // The whole run

  /** The packets transmitted, in the order they were accepted, but for empty ones. */
  function Transmissions(ds: seq<Done>): seq<Bytes> {
    if ds == [] then []
    else
      var d := ds[|ds| - 1];
      Transmissions(ds[..|ds| - 1]) + if d.fate.Transmitted? then Content(d.data) else []
  }

  /** No packet was broken off: each is on the air completely or not at all. */
  ghost predicate NoneBroken(s: State) {
    && (forall i: nat :: i < |s.finished| ==> s.finished[i].fate.Transmitted? || KeyedOf(s.keyed, i) == [])
    && KeyedOf(s.keyed, |s.finished|) == []
  }

  /** The frames of a transmitted packet are all there, with some header. */
  lemma TransmittedFrames(c: Config, e: State, n: nat) returns (header: int)
    requires Carries(c, e) && n < |e.finished| && e.finished[n].fate.Transmitted?
    ensures |e.finished[n].data| <= MaxPacket(c)
    ensures KeyedOf(e.keyed, n) == FramesOf(c, e.finished[n].data, header)
  {
    var d := e.finished[n];
    assert WentOut(c, d, KeyedOf(e.keyed, n));
    assert FramesFor(c, d.data, KeyedOf(e.keyed, n));
    header :| KeyedOf(e.keyed, n) == FramesOf(c, d.data, header);
  }

  /** One place of a stretch, in what was keyed and in what was heard. */
  lemma StretchAt(ks: seq<Keyed>, heard: seq<Timed>, packet: nat, i: nat)
    requires Sorted(ks) && |heard| == |ks| && i < |Stretch(ks, heard, packet)|
    ensures |Stretch(ks, heard, packet)| == |KeyedOf(ks, packet)| && Before(ks, packet) + i < |ks|
    ensures Stretch(ks, heard, packet)[i] == heard[Before(ks, packet) + i]
    ensures ks[Before(ks, packet) + i] == Keyed(packet, KeyedOf(ks, packet)[i])
  {
    StretchOf(ks, packet);
    var own := Stretch(ks, ks, packet);
    assert own[i] in own && Raws(own)[i] == own[i].raw;
  }

  /** The stretch of one packet is heard as its frames, close together. */
  lemma StretchIsHeard(maxAge: Option<real>, ks: seq<Keyed>, heard: seq<Timed>, packet: nat)
    requires Sorted(ks) && Heard(maxAge, ks, heard)
    ensures var fs := Stretch(ks, heard, packet);
            && |fs| == |KeyedOf(ks, packet)| && (forall i :: 0 <= i < |fs| ==> fs[i].raw == KeyedOf(ks, packet)[i])
            && (forall i :: 0 < i < |fs| ==> !Stale(maxAge, fs[i - 1].at, fs[i].at))
  {
    StretchOf(ks, packet);
    var fs := Stretch(ks, heard, packet);
    assert |fs| == |Raws(Stretch(ks, ks, packet))|;
    forall i | 0 <= i < |fs|
      ensures fs[i].raw == KeyedOf(ks, packet)[i]
      ensures i > 0 ==> !Stale(maxAge, fs[i - 1].at, fs[i].at)
    {
      StretchAt(ks, heard, packet, i);
      if i > 0 {
        StretchAt(ks, heard, packet, i - 1);
      }
    }
  }

  /** The stretch of a transmitted packet, from a state that its first frame does not glue to. */
  lemma StretchDelivers(c: Config, maxAge: Option<real>, s: Half, e: State, heard: seq<Timed>, n: nat)
    requires c.framing && Carries(c, e) && n < |e.finished| && e.finished[n].fate.Transmitted?
    requires Heard(maxAge, e.keyed, heard)
    requires var fs := Stretch(e.keyed, heard, n); fs != [] ==> !GluesFrame(maxAge, s, fs[0])
    ensures var fs := Stretch(e.keyed, heard, n);
            fs != [] && Delivered(maxAge, s, fs) == Content(e.finished[n].data) && !Final(maxAge, s, fs).Pending()
  {
    var header := TransmittedFrames(c, e, n);
    FrameShape(e.finished[n].data, header);
    StretchIsHeard(maxAge, e.keyed, heard, n);
    PacketHeard(c, maxAge, s, e.finished[n].data, header, Stretch(e.keyed, heard, n));
  }

  /** The frames of the first n packets, as heard. */
  function HeardUpTo(ks: seq<Keyed>, heard: seq<Timed>, n: nat): seq<Timed> {
    if Before(ks, n) <= |heard| then heard[..Before(ks, n)] else heard
  }

  lemma HeardOneMore(maxAge: Option<real>, ks: seq<Keyed>, heard: seq<Timed>, n: nat)
    requires Sorted(ks) && Heard(maxAge, ks, heard)
    ensures HeardUpTo(ks, heard, n + 1) == HeardUpTo(ks, heard, n) + Stretch(ks, heard, n)
    ensures HeardUpTo(ks, heard, n) == [] && Stretch(ks, heard, n) != [] ==>
              heard != [] && Stretch(ks, heard, n)[0] == heard[0]
  {
    StretchOf(ks, n);
    var from, to := Before(ks, n), Before(ks, n + 1);
    assert heard[..to] == heard[..from] + heard[from..to];
  }

  /** What is delivered of the first n packets, and nothing pending once any of it was heard. */
  ghost predicate DeliveredUpTo(maxAge: Option<real>, s: Half, e: State, heard: seq<Timed>, n: nat)
    requires n <= |e.finished|
  {
    var part := HeardUpTo(e.keyed, heard, n);
    && Delivered(maxAge, s, part) == Transmissions(e.finished[..n])
    && (part == [] ==> Final(maxAge, s, part) == s)
    && (part != [] ==> !Final(maxAge, s, part).Pending())
  }

  lemma NextTransmitted(c: Config, maxAge: Option<real>, s: Half, e: State, heard: seq<Timed>, n: nat)
    requires c.framing && Carries(c, e) && Heard(maxAge, e.keyed, heard)
    requires heard != [] ==> !GluesFrame(maxAge, s, heard[0])
    requires n < |e.finished| && DeliveredUpTo(maxAge, s, e, heard, n) && e.finished[n].fate.Transmitted?
    ensures var next := HeardUpTo(e.keyed, heard, n + 1);
            && next != [] && !Final(maxAge, s, next).Pending()
            && Delivered(maxAge, s, next) == Transmissions(e.finished[..n]) + Content(e.finished[n].data)
  {
    var part, fs := HeardUpTo(e.keyed, heard, n), Stretch(e.keyed, heard, n);
    HeardOneMore(maxAge, e.keyed, heard, n);
    StretchDelivers(c, maxAge, Final(maxAge, s, part), e, heard, n);
    RunConcat(maxAge, s, part, fs);
    FinalConcat(maxAge, s, part, fs);
  }

  lemma NextSilent(maxAge: Option<real>, e: State, heard: seq<Timed>, n: nat)
    requires InOrder(e) && Heard(maxAge, e.keyed, heard) && KeyedOf(e.keyed, n) == []
    ensures HeardUpTo(e.keyed, heard, n + 1) == HeardUpTo(e.keyed, heard, n)
  {
    HeardOneMore(maxAge, e.keyed, heard, n);
    StretchIsHeard(maxAge, e.keyed, heard, n);
    assert HeardUpTo(e.keyed, heard, n) + [] == HeardUpTo(e.keyed, heard, n);
  }

  lemma TransmissionsSnoc(ds: seq<Done>, n: nat)
    requires n < |ds|
    ensures Transmissions(ds[..n + 1])
         == Transmissions(ds[..n]) + if ds[n].fate.Transmitted? then Content(ds[n].data) else []
  {
    assert ds[..n + 1][..n] == ds[..n];
  }

  lemma NextPacket(c: Config, maxAge: Option<real>, s: Half, e: State, heard: seq<Timed>, n: nat)
    requires c.framing && Carries(c, e) && NoneBroken(e) && Heard(maxAge, e.keyed, heard)
    requires heard != [] ==> !GluesFrame(maxAge, s, heard[0])
    requires n < |e.finished| && DeliveredUpTo(maxAge, s, e, heard, n)
    ensures DeliveredUpTo(maxAge, s, e, heard, n + 1)
  {
    TransmissionsSnoc(e.finished, n);
    if e.finished[n].fate.Transmitted? {
      NextTransmitted(c, maxAge, s, e, heard, n);
    } else {
      NextSilent(maxAge, e, heard, n);
    }
  }

  lemma {:induction false} PacketsDelivered(c: Config, maxAge: Option<real>, s: Half, e: State, heard: seq<Timed>,
                                            n: nat)
    requires c.framing && Carries(c, e) && NoneBroken(e) && Heard(maxAge, e.keyed, heard)
    requires heard != [] ==> !GluesFrame(maxAge, s, heard[0])
    requires n <= |e.finished|
    ensures DeliveredUpTo(maxAge, s, e, heard, n)
  {
    if n == 0 {
      BeforeCuts(e.keyed, 0);
      assert e.finished[..0] == [] && HeardUpTo(e.keyed, heard, 0) == [];
    } else {
      PacketsDelivered(c, maxAge, s, e, heard, n - 1);
      NextPacket(c, maxAge, s, e, heard, n - 1);
    }
  }

  lemma NothingAfter(e: State)
    requires InOrder(e) && KeyedOf(e.keyed, |e.finished|) == []
    ensures Before(e.keyed, |e.finished|) == |e.keyed|
  {
    var n := |e.finished|;
    BeforeCuts(e.keyed, n + 1);
    assert Before(e.keyed, n + 1) == |e.keyed| by {
      if e.keyed != [] {
        assert e.keyed[|e.keyed| - 1] in e.keyed;
      }
    }
    StretchOf(e.keyed, n);
    assert |Raws(Stretch(e.keyed, e.keyed, n))| == 0;
  }

  /** With framing on, in every run of the pipeline in which no packet was broken off: a receiver that
      hears all that was keyed, the two frames of a packet close enough together, and that starts in any
      state the first frame does not glue to, delivers exactly the packets transmitted, in the order they
      were accepted (an empty packet is a header with nothing behind it, and delivers nothing). */
  lemma WhatIsSentIsDelivered(c: Config, run: seq<Label>, maxAge: Option<real>, s: Half, heard: seq<Timed>)
    requires c.Valid() && c.framing && Legal(c, START, run)
    requires var e := Exec(c, START, run); NoneBroken(e) && Heard(maxAge, e.keyed, heard)
    requires heard != [] ==> !GluesFrame(maxAge, s, heard[0])
    ensures Delivered(maxAge, s, heard) == Transmissions(Exec(c, START, run).finished)
  {
    var e := Exec(c, START, run);
    RunCarries(c, START, run);
    PacketsDelivered(c, maxAge, s, e, heard, |e.finished|);
    NothingAfter(e);
    assert e.finished[..|e.finished|] == e.finished && HeardUpTo(e.keyed, heard, |e.finished|) == heard;
  }
}
