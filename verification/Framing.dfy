/** The RNode air framing: the splitter `frame` and the timed reassembly automaton. */
module Framing {
  import opened Common

  const HEADER_L := 1
  const SEQ_UNSET := 255
  const FRAME_PAYLOAD := 254
  const FRAMED_MTU := 508

  // ---------------------------------------------------------------------------
  // The header byte: sequence in the high nibble, split flag in bit 0.

  /** `header & 0xF0` for any integer. */
  function HighNibble(header: int): (r: Byte)
    ensures r % 16 == 0
  {
    header / 16 % 16 * 16
  }

  function SeqOf(header: Byte): nat {
    header / 16
  }

  predicate IsSplit(header: Byte) {
    header % 2 == 1
  }

  // ---------------------------------------------------------------------------
  // Splitting

  /** Slices of at most 254 bytes; the empty packet still gives one (empty) slice. */
  function Chunks(data: Bytes): seq<Bytes>
    decreases |data|
  {
    if |data| <= FRAME_PAYLOAD then [data] else [data[..FRAME_PAYLOAD]] + Chunks(data[FRAME_PAYLOAD..])
  }

  function Head(data: Bytes, header: int): Byte {
    HighNibble(header) + if |data| > FRAME_PAYLOAD then 1 else 0
  }

  function Frame(data: Bytes, header: int): Result<seq<Bytes>, string> {
    if |data| > FRAMED_MTU then Failure("packet exceeds the RNode MTU")
    else
      var chunks := Chunks(data);
      Success(seq(|chunks|, i requires 0 <= i < |chunks| => [Head(data, header)] + chunks[i]))
  }

  function Payload(raw: Bytes): Bytes
    requires raw != []
  {
    raw[HEADER_L..]
  }

  /** A packet is refused exactly above 508 bytes. Otherwise it becomes one frame or two, every frame
      fits the radio FIFO and carries the same header, the split flag says which case it is, and the
      payloads put back together are the packet. */
  lemma FrameShape(data: Bytes, header: int)
    ensures Frame(data, header).Failure? <==> |data| > 508
    ensures |data| <= 508 ==>
              var fs := Frame(data, header).value;
              && |fs| == (if |data| <= 254 then 1 else 2)
              && (forall f <- fs :: 1 <= |f| <= 255)
              && (forall f <- fs :: SeqOf(f[0]) == header / 16 % 16 && (IsSplit(f[0]) <==> |fs| == 2))
              && data == Payload(fs[0]) + (if |fs| == 2 then Payload(fs[1]) else [])
              && (|fs| == 2 ==> |Payload(fs[0])| == 254)
  {
    if |data| <= FRAMED_MTU {
      var fs := Frame(data, header).value;
      if |data| <= FRAME_PAYLOAD {
        assert fs == [[Head(data, header)] + data];
      } else {
        var rest := data[FRAME_PAYLOAD..];
        assert Chunks(data) == [data[..FRAME_PAYLOAD], rest];
        assert fs == [[Head(data, header)] + data[..FRAME_PAYLOAD], [Head(data, header)] + rest];
        assert data == data[..FRAME_PAYLOAD] + rest;
      }
    }
  }

  // ---------------------------------------------------------------------------
  // Reassembling

  /** What the reassembler remembers: a pending half (or SEQ_UNSET) and the drop counter. */
  datatype Half = Half(tag: nat, buf: Bytes, since: real, dropped: nat) {
    predicate Pending() {
      tag != SEQ_UNSET
    }

    function Reset(): Half {
      this.(tag := SEQ_UNSET, buf := [])
    }

    function Drop(): Half {
      this.(dropped := dropped + 1)
    }
  }

  const IDLE := Half(SEQ_UNSET, [], 0.0, 0)

  /** A received frame and the monotonic time at which it was fed. */
  datatype Timed = Timed(at: real, raw: Bytes)

  predicate Stale(maxAge: Option<real>, since: real, now: real) {
    maxAge.Some? && now - since > maxAge.value
  }

  predicate Expired(maxAge: Option<real>, s: Half, now: real) {
    s.Pending() && Stale(maxAge, s.since, now)
  }

  /** One call of `feed`. */
  function Feed(maxAge: Option<real>, s: Half, f: Timed): (Half, Option<Bytes>) {
    if |f.raw| <= HEADER_L then
      ((if s.Pending() then s.Drop().Reset() else s).Drop(), None)
    else
      var tag, split, payload := SeqOf(f.raw[0]), IsSplit(f.raw[0]), Payload(f.raw);
      var s1 := if Expired(maxAge, s, f.at) then s.Drop().Reset() else s;
      if split then
        if !s1.Pending() then (Half(tag, payload, f.at, s1.dropped), None)
        else if s1.tag == tag then (s1.Reset(), Some(s1.buf + payload))
        else (Half(tag, payload, f.at, s1.dropped + 1), None)
      else
        (if s1.Pending() then s1.Drop().Reset() else s1, Some(payload))
  }

  /** The object of the source: every `Feed` is one step of the automaton. */
  class Reassembler {
    const maxAge: Option<real>
    var tag: nat
    var buf: Bytes
    var since: real
    var dropped: nat

    function State(): Half
      reads this
    {
      Half(tag, buf, since, dropped)
    }

    constructor (maxAge: Option<real>)
      ensures this.maxAge == maxAge && State() == IDLE
    {
      this.maxAge := maxAge;
      tag, buf, since, dropped := SEQ_UNSET, [], 0.0, 0;
    }

    method Reset()
      modifies this
      ensures State() == old(State()).Reset()
    {
      tag, buf := SEQ_UNSET, [];
    }

    method FeedRaw(raw: Bytes, now: real) returns (packet: Option<Bytes>)
      modifies this
      ensures (State(), packet) == Feed(maxAge, old(State()), Timed(now, raw))
    {
      if |raw| <= HEADER_L {
        if tag != SEQ_UNSET {
          dropped := dropped + 1;
          Reset();
        }
        dropped := dropped + 1;
        return None;
      }
      var header, payload := raw[0], raw[HEADER_L..];
      var s, split := header / 16, header % 2 == 1;
      if tag != SEQ_UNSET && maxAge.Some? && now - since > maxAge.value {
        dropped := dropped + 1;
        Reset();
      }
      if split {
        if tag == SEQ_UNSET {
          tag, buf, since := s, payload, now;
          return None;
        }
        if tag == s {
          packet := Some(buf + payload);
          Reset();
          return;
        }
        dropped := dropped + 1;
        tag, buf, since := s, payload, now;
        return None;
      }
      if tag != SEQ_UNSET {
        dropped := dropped + 1;
        Reset();
      }
      return Some(payload);
    }
  }

  // ---------------------------------------------------------------------------
  // Runs of the automaton over any timed sequence of frames

  function Final(maxAge: Option<real>, s: Half, fs: seq<Timed>): Half {
    if fs == [] then s else Feed(maxAge, Final(maxAge, s, fs[..|fs| - 1]), fs[|fs| - 1]).0
  }

  /** What the i-th frame of the run delivers. */
  function OutAt(maxAge: Option<real>, s: Half, fs: seq<Timed>, i: nat): Option<Bytes>
    requires i < |fs|
  {
    Feed(maxAge, Final(maxAge, s, fs[..i]), fs[i]).1
  }

  function Opt<T>(o: Option<T>): seq<T> {
    if o.Some? then [o.value] else []
  }

  /** The packets delivered by a run, in order. */
  function Delivered(maxAge: Option<real>, s: Half, fs: seq<Timed>): seq<Bytes> {
    if fs == [] then []
    else Delivered(maxAge, s, fs[..|fs| - 1]) + Opt(OutAt(maxAge, s, fs, |fs| - 1))
  }

  lemma FinalSnoc(maxAge: Option<real>, s: Half, fs: seq<Timed>, f: Timed)
    ensures Final(maxAge, s, fs + [f]) == Feed(maxAge, Final(maxAge, s, fs), f).0
  {
    assert (fs + [f])[..|fs|] == fs;
  }

  lemma DeliveredSnoc(maxAge: Option<real>, s: Half, fs: seq<Timed>, f: Timed)
    ensures Delivered(maxAge, s, fs + [f]) == Delivered(maxAge, s, fs) + Opt(Feed(maxAge, Final(maxAge, s, fs), f).1)
  {
    assert (fs + [f])[..|fs|] == fs;
  }

  lemma {:induction false} FinalConcat(maxAge: Option<real>, s: Half, a: seq<Timed>, b: seq<Timed>)
    ensures Final(maxAge, s, a + b) == Final(maxAge, Final(maxAge, s, a), b)
    decreases |b|
  {
    if b == [] {
      assert a + b == a;
    } else {
      var front, last := b[..|b| - 1], b[|b| - 1];
      assert b == front + [last] && a + b == (a + front) + [last];
      FinalConcat(maxAge, s, a, front);
      FinalSnoc(maxAge, s, a + front, last);
      FinalSnoc(maxAge, Final(maxAge, s, a), front, last);
    }
  }

  lemma ConcatOne(maxAge: Option<real>, s: Half, a: seq<Timed>, b: seq<Timed>, f: Timed)
    requires Delivered(maxAge, s, a + b) == Delivered(maxAge, s, a) + Delivered(maxAge, Final(maxAge, s, a), b)
    ensures Delivered(maxAge, s, a + b + [f])
         == Delivered(maxAge, s, a) + Delivered(maxAge, Final(maxAge, s, a), b + [f])
  {
    FinalConcat(maxAge, s, a, b);
    DeliveredSnoc(maxAge, s, a + b, f);
    DeliveredSnoc(maxAge, Final(maxAge, s, a), b, f);
  }

  lemma {:induction false} RunConcat(maxAge: Option<real>, s: Half, a: seq<Timed>, b: seq<Timed>)
    ensures Delivered(maxAge, s, a + b) == Delivered(maxAge, s, a) + Delivered(maxAge, Final(maxAge, s, a), b)
    decreases |b|
  {
    if b == [] {
      assert a + b == a;
    } else {
      var front, last := b[..|b| - 1], b[|b| - 1];
      assert b == front + [last] && a + b == a + front + [last];
      RunConcat(maxAge, s, a, front);
      ConcatOne(maxAge, s, a, front, last);
    }
  }

  // ---------------------------------------------------------------------------
  // Reference: what a run must deliver, stated on the frames alone, without any buffer.

  predicate SplitFrame(f: Timed) {
    |f.raw| > HEADER_L && IsSplit(f.raw[0])
  }

  predicate WholeFrame(f: Timed) {
    |f.raw| > HEADER_L && !IsSplit(f.raw[0])
  }

  /** Two consecutive frames that look like the two halves of one packet. */
  predicate Linked(maxAge: Option<real>, f: Timed, g: Timed) {
    && SplitFrame(f) && SplitFrame(g)
    && SeqOf(f.raw[0]) == SeqOf(g.raw[0])
    && !Stale(maxAge, f.at, g.at)
  }

  /** How many consecutive links end at frame i. */
  function Links(maxAge: Option<real>, fs: seq<Timed>, i: nat): nat
    requires i < |fs|
  {
    if i == 0 || !Linked(maxAge, fs[i - 1], fs[i]) then 0 else 1 + Links(maxAge, fs, i - 1)
  }

  /** The reference verdict on frame i: a whole frame is delivered alone; a split frame completes its
      predecessor exactly when an odd number of links ends at it. */
  function Reference(maxAge: Option<real>, fs: seq<Timed>, i: nat): Option<Bytes>
    requires i < |fs|
  {
    if WholeFrame(fs[i]) then Some(Payload(fs[i].raw))
    else if Links(maxAge, fs, i) % 2 == 1 then Some(Payload(fs[i - 1].raw) + Payload(fs[i].raw))
    else None
  }

  /** The pending half after a run is exactly its last frame, or there is none. */
  predicate PendingIsLast(maxAge: Option<real>, s: Half, fs: seq<Timed>) {
    if fs != [] && SplitFrame(fs[|fs| - 1]) && Links(maxAge, fs, |fs| - 1) % 2 == 0 then
      var f := fs[|fs| - 1];
      s.tag == SeqOf(f.raw[0]) && s.buf == Payload(f.raw) && s.since == f.at
    else s.tag == SEQ_UNSET && s.buf == []
  }

  lemma {:induction false} LinksPrefix(maxAge: Option<real>, fs: seq<Timed>, n: nat, i: nat)
    requires i < n <= |fs|
    ensures Links(maxAge, fs[..n], i) == Links(maxAge, fs, i)
  {
    if i > 0 {
      LinksPrefix(maxAge, fs, n, i - 1);
    }
  }

  /** One step from a pending half that is exactly the last frame. */
  lemma StepMatchesReference(maxAge: Option<real>, s: Half, fs: seq<Timed>)
    requires fs != [] && PendingIsLast(maxAge, s, fs[..|fs| - 1])
    ensures var (s', out) := Feed(maxAge, s, fs[|fs| - 1]);
            PendingIsLast(maxAge, s', fs) && out == Reference(maxAge, fs, |fs| - 1)
  {
    var n := |fs| - 1;
    if n > 0 {
      LinksPrefix(maxAge, fs, n, n - 1);
      assert fs[..n][n - 1] == fs[n - 1];
    }
  }

  lemma {:induction false} PendingHalf(maxAge: Option<real>, fs: seq<Timed>)
    ensures PendingIsLast(maxAge, Final(maxAge, IDLE, fs), fs)
  {
    if fs != [] {
      PendingHalf(maxAge, fs[..|fs| - 1]);
      StepMatchesReference(maxAge, Final(maxAge, IDLE, fs[..|fs| - 1]), fs);
    }
  }

  lemma ReferencePrefix(maxAge: Option<real>, fs: seq<Timed>, i: nat)
    requires i < |fs|
    ensures Reference(maxAge, fs[..i + 1], i) == Reference(maxAge, fs, i)
  {
    LinksPrefix(maxAge, fs, i + 1, i);
  }

  /** Every timed sequence of frames whatsoever: frame i delivers exactly what the reference says, and
      the pending half is exactly the last frame fed. */
  lemma RunMatchesReference(maxAge: Option<real>, fs: seq<Timed>)
    ensures forall i: nat :: i < |fs| ==> OutAt(maxAge, IDLE, fs, i) == Reference(maxAge, fs, i)
    ensures PendingIsLast(maxAge, Final(maxAge, IDLE, fs), fs)
  {
    PendingHalf(maxAge, fs);
    forall i: nat | i < |fs|
      ensures OutAt(maxAge, IDLE, fs, i) == Reference(maxAge, fs, i)
    {
      var upto := fs[..i + 1];
      assert upto[..i] == fs[..i] && upto[i] == fs[i];
      PendingHalf(maxAge, fs[..i]);
      StepMatchesReference(maxAge, Final(maxAge, IDLE, fs[..i]), upto);
      ReferencePrefix(maxAge, fs, i);
    }
  }

  /** Provenance read off the automaton itself: a delivery is one whole frame or two immediately
      consecutive split frames of equal sequence, no more than max_age apart. */
  lemma Provenance(maxAge: Option<real>, fs: seq<Timed>, i: nat)
    requires i < |fs| && OutAt(maxAge, IDLE, fs, i).Some?
    ensures var p := OutAt(maxAge, IDLE, fs, i).value;
            || (WholeFrame(fs[i]) && p == Payload(fs[i].raw))
            || (i > 0 && Linked(maxAge, fs[i - 1], fs[i]) && p == Payload(fs[i - 1].raw) + Payload(fs[i].raw))
  {
    RunMatchesReference(maxAge, fs);
  }

  /** The frames a delivery at i is made of. */
  function Sources(fs: seq<Timed>, i: nat): set<int>
    requires i < |fs|
  {
    if SplitFrame(fs[i]) then {i - 1, i} else {i}
  }

  /** No frame contributes to two packets. */
  lemma NoFrameTwice(maxAge: Option<real>, fs: seq<Timed>, i: nat, j: nat)
    requires i < j < |fs|
    requires OutAt(maxAge, IDLE, fs, i).Some? && OutAt(maxAge, IDLE, fs, j).Some?
    ensures Sources(fs, i) !! Sources(fs, j)
  {
    RunMatchesReference(maxAge, fs);
  }

  // ---------------------------------------------------------------------------
  // Conservation

  /** Frames that ended up in a delivered packet: one for a whole frame, two for a pair. */
  function FramesDelivered(maxAge: Option<real>, s: Half, fs: seq<Timed>): nat {
    if fs == [] then 0
    else
      var n := |fs| - 1;
      FramesDelivered(maxAge, s, fs[..n]) +
      if OutAt(maxAge, s, fs, n).None? then 0 else if SplitFrame(fs[n]) then 2 else 1
  }

  function PendingCount(s: Half): nat {
    if s.Pending() then 1 else 0
  }

  /** From any state and over any run, frames fed = delivered + dropped + pending. */
  lemma {:induction false} Conservation(maxAge: Option<real>, s: Half, fs: seq<Timed>)
    ensures var e := Final(maxAge, s, fs);
            s.dropped + PendingCount(s) + |fs| == FramesDelivered(maxAge, s, fs) + e.dropped + PendingCount(e)
  {
    if fs != [] {
      Conservation(maxAge, s, fs[..|fs| - 1]);
    }
  }

  // ---------------------------------------------------------------------------
  // Stream round trip and self-stabilisation

  /** One packet on the air: its bytes, the random header, and the arrival times of its frames. */
  datatype Sent = Sent(data: Bytes, header: int, first: real, second: real)

  ghost predicate Sendable(maxAge: Option<real>, p: Sent) {
    && 1 <= |p.data| <= FRAMED_MTU
    && (|p.data| > FRAME_PAYLOAD ==> !Stale(maxAge, p.first, p.second))
  }

  function AirFrames(p: Sent): seq<Timed>
    requires |p.data| <= FRAMED_MTU
  {
    FrameShape(p.data, p.header);
    var fs := Frame(p.data, p.header).value;
    [Timed(p.first, fs[0])] + if |fs| == 2 then [Timed(p.second, fs[1])] else []
  }

  ghost predicate AllSendable(maxAge: Option<real>, ps: seq<Sent>) {
    forall p <- ps :: Sendable(maxAge, p)
  }

  function Stream(ps: seq<Sent>): seq<Timed>
    requires forall p <- ps :: |p.data| <= FRAMED_MTU
  {
    if ps == [] then [] else AirFrames(ps[0]) + Stream(ps[1..])
  }

  function Datas(ps: seq<Sent>): seq<Bytes> {
    if ps == [] then [] else [ps[0].data] + Datas(ps[1..])
  }

  /** The only way a pending half can spoil what follows: the next packet is split, reuses its
      sequence, and starts before the half has gone stale. */
  predicate Glues(maxAge: Option<real>, s: Half, p: Sent) {
    s.Pending() && |p.data| > FRAME_PAYLOAD && s.tag == SeqOf(HighNibble(p.header)) && !Expired(maxAge, s, p.first)
  }

  lemma OnePacket(maxAge: Option<real>, s: Half, p: Sent)
    requires Sendable(maxAge, p) && !Glues(maxAge, s, p)
    ensures var e := Final(maxAge, s, AirFrames(p));
            && !e.Pending()
            && e.dropped == s.dropped + PendingCount(s)
            && Delivered(maxAge, s, AirFrames(p)) == [p.data]
  {
    FrameShape(p.data, p.header);
    var fs := AirFrames(p);
    var s1 := Feed(maxAge, s, fs[0]).0;
    assert fs[..0] == [];
    if |fs| == 1 {
      assert Final(maxAge, s, fs) == s1;
      assert Delivered(maxAge, s, fs) == Delivered(maxAge, s, fs[..0]) + Opt(OutAt(maxAge, s, fs, 0));
    } else {
      assert fs[..1] == [fs[0]];
      assert fs[..1][..0] == [];
      assert Final(maxAge, s, fs[..1]) == s1;
      assert s1.Pending() && s1.since == p.first && s1.tag == SeqOf(fs[1].raw[0]);
      assert Delivered(maxAge, s, fs[..1]) == [];
      assert OutAt(maxAge, s, fs, 1) == Some(p.data);
    }
  }

  /** Any list of packets of 1 to 508 bytes, with any headers, fed from any state that does not glue
      onto the first one: exactly that list is delivered in order; the run ends idle and only the
      half that was pending before is dropped. */
  lemma {:induction false} StreamDelivered(maxAge: Option<real>, s: Half, ps: seq<Sent>)
    requires AllSendable(maxAge, ps)
    requires ps != [] ==> !Glues(maxAge, s, ps[0])
    ensures Delivered(maxAge, s, Stream(ps)) == Datas(ps)
    ensures ps != [] ==>
              var e := Final(maxAge, s, Stream(ps));
              !e.Pending() && e.dropped == s.dropped + PendingCount(s)
    decreases |ps|
  {
    if ps != [] {
      OnePacket(maxAge, s, ps[0]);
      var s1 := Final(maxAge, s, AirFrames(ps[0]));
      StreamDelivered(maxAge, s1, ps[1..]);
      RunConcat(maxAge, s, AirFrames(ps[0]), Stream(ps[1..]));
      FinalConcat(maxAge, s, AirFrames(ps[0]), Stream(ps[1..]));
      if ps[1..] == [] {
        assert Final(maxAge, s1, Stream(ps[1..])) == s1;
      }
    }
  }

  /** Stream round trip from an idle reassembler. */
  lemma StreamRoundTrip(maxAge: Option<real>, s: Half, ps: seq<Sent>)
    requires !s.Pending() && AllSendable(maxAge, ps)
    ensures Delivered(maxAge, s, Stream(ps)) == Datas(ps)
    ensures !Final(maxAge, s, Stream(ps)).Pending()
    ensures Final(maxAge, s, Stream(ps)).dropped == s.dropped
  {
    StreamDelivered(maxAge, s, ps);
  }

  /** After any junk, one whole frame or one header-only frame clears the automaton: everything
      complete that follows is delivered exactly and in order. */
  lemma StabilisesAfterWholeFrame(maxAge: Option<real>, junk: seq<Timed>, sync: Timed, ps: seq<Sent>)
    requires AllSendable(maxAge, ps)
    requires !SplitFrame(sync)
    ensures var before := junk + [sync];
            Delivered(maxAge, IDLE, before + Stream(ps)) == Delivered(maxAge, IDLE, before) + Datas(ps)
  {
    var before := junk + [sync];
    assert before[..|before| - 1] == junk;
    StreamDelivered(maxAge, Final(maxAge, IDLE, before), ps);
    RunConcat(maxAge, IDLE, before, Stream(ps));
  }

  /** So does a silence longer than max_age. */
  lemma StabilisesAfterSilence(age: real, junk: seq<Timed>, ps: seq<Sent>)
    requires AllSendable(Some(age), ps) && ps != []
    requires junk != [] ==> ps[0].first - junk[|junk| - 1].at > age
    ensures Delivered(Some(age), IDLE, junk + Stream(ps)) == Delivered(Some(age), IDLE, junk) + Datas(ps)
  {
    PendingHalf(Some(age), junk);
    StreamDelivered(Some(age), Final(Some(age), IDLE, junk), ps);
    RunConcat(Some(age), IDLE, junk, Stream(ps));
  }

  /** The condition is needed: when the state does glue, the first frame of the packet is already
      swallowed by the stale half, and the packet's own second half is left pending. */
  lemma GlueSpoilsThePacket(maxAge: Option<real>, s: Half, p: Sent)
    requires Sendable(maxAge, p) && Glues(maxAge, s, p)
    ensures Delivered(maxAge, s, AirFrames(p)) == [s.buf + p.data[..FRAME_PAYLOAD]]
    ensures Final(maxAge, s, AirFrames(p)).Pending()
    ensures Final(maxAge, s, AirFrames(p)).buf == p.data[FRAME_PAYLOAD..]
  {
    FrameShape(p.data, p.header);
    var fs := AirFrames(p);
    var fr := Frame(p.data, p.header).value;
    assert Payload(fr[0]) == p.data[..FRAME_PAYLOAD] && Payload(fr[1]) == p.data[FRAME_PAYLOAD..] by {
      assert Chunks(p.data) == [p.data[..FRAME_PAYLOAD], p.data[FRAME_PAYLOAD..]];
    }
    var s1 := Feed(maxAge, s, fs[0]).0;
    assert fs[..1] == [fs[0]] && fs[..1][..0] == [] && fs[..0] == [];
    assert Final(maxAge, s, fs[..1]) == s1;
    assert Delivered(maxAge, s, fs[..1]) == Opt(OutAt(maxAge, s, fs[..1], 0));
    assert OutAt(maxAge, s, fs, 1) == None;
  }

  // ---------------------------------------------------------------------------
  // The firmware's four documented receive rules

  datatype Firmware = Firmware(tag: nat, buf: Bytes)

  function FirmwareStep(w: Firmware, raw: Bytes): (Firmware, Option<Bytes>)
    requires raw != []
  {
    var tag, payload := SeqOf(raw[0]), Payload(raw);
    if !IsSplit(raw[0]) then (Firmware(SEQ_UNSET, []), Some(payload))
    else if w.tag == SEQ_UNSET then (Firmware(tag, payload), None)
    else if w.tag == tag then (Firmware(SEQ_UNSET, []), Some(w.buf + payload))
    else (Firmware(tag, payload), None)
  }

  function Rules(s: Half): Firmware {
    Firmware(s.tag, s.buf)
  }

  function FirmwareFinal(w: Firmware, fs: seq<Timed>): Firmware
    requires forall f <- fs :: f.raw != []
  {
    if fs == [] then w else FirmwareStep(FirmwareFinal(w, fs[..|fs| - 1]), fs[|fs| - 1].raw).0
  }

  function FirmwareDelivered(w: Firmware, fs: seq<Timed>): seq<Bytes>
    requires forall f <- fs :: f.raw != []
  {
    if fs == [] then []
    else
      var n := |fs| - 1;
      FirmwareDelivered(w, fs[..n]) + Opt(FirmwareStep(FirmwareFinal(w, fs[..n]), fs[n].raw).1)
  }

  lemma RulesSnoc(w: Firmware, fs: seq<Timed>, f: Timed)
    requires forall g <- fs + [f] :: g.raw != []
    ensures forall g <- fs :: g.raw != []
    ensures var step := FirmwareStep(FirmwareFinal(w, fs), f.raw);
            && FirmwareFinal(w, fs + [f]) == step.0
            && FirmwareDelivered(w, fs + [f]) == FirmwareDelivered(w, fs) + Opt(step.1)
  {
    forall g | g in fs ensures g.raw != [] {
      assert g in fs + [f];
    }
    assert f in fs + [f];
    assert (fs + [f])[..|fs|] == fs;
  }

  /** From equal states one step delivers what the rules deliver, or nothing; and it withholds exactly
      when the rules would deliver a header-only frame, or complete a half that has gone stale. */
  lemma StepAgainstRules(maxAge: Option<real>, s: Half, f: Timed)
    requires f.raw != []
    ensures var ours, rules := Feed(maxAge, s, f).1, FirmwareStep(Rules(s), f.raw).1;
            && (ours == rules || ours == None)
            && (ours == rules <==>
                !(rules.Some? && (|f.raw| == HEADER_L || (IsSplit(f.raw[0]) && Expired(maxAge, s, f.at)))))
  {
  }

  /** Frame i is a first half with nothing to complete: after it, it is pending. */
  predicate Waits(maxAge: Option<real>, fs: seq<Timed>, i: nat)
    requires i < |fs|
  {
    SplitFrame(fs[i]) && Links(maxAge, fs, i) % 2 == 0
  }

  /** Frames with something behind the header, and no half left waiting past max_age. Silence with
      nothing pending may be of any length. */
  ghost predicate NoExpiry(maxAge: Option<real>, fs: seq<Timed>) {
    && (forall f <- fs :: |f.raw| > HEADER_L)
    && (forall i :: 0 < i < |fs| && Waits(maxAge, fs, i - 1) ==> !Stale(maxAge, fs[i - 1].at, fs[i].at))
  }

  lemma ExpiredMeans(maxAge: Option<real>, fs: seq<Timed>, i: nat)
    requires i < |fs|
    ensures var s := Final(maxAge, IDLE, fs[..i]);
            && (!s.Pending() ==> s.buf == [])
            && (Expired(maxAge, s, fs[i].at) <==>
                i > 0 && Waits(maxAge, fs, i - 1) && Stale(maxAge, fs[i - 1].at, fs[i].at))
  {
    PendingHalf(maxAge, fs[..i]);
    if i > 0 {
      LinksPrefix(maxAge, fs, i, i - 1);
    }
  }

  /** The condition on the frames is exactly that the automaton never drops a half for its age. */
  lemma NoExpiryIsExact(maxAge: Option<real>, fs: seq<Timed>)
    ensures NoExpiry(maxAge, fs) <==>
            && (forall f <- fs :: |f.raw| > HEADER_L)
            && (forall i: nat :: i < |fs| ==> !Expired(maxAge, Final(maxAge, IDLE, fs[..i]), fs[i].at))
  {
    forall i: nat | i < |fs|
      ensures Expired(maxAge, Final(maxAge, IDLE, fs[..i]), fs[i].at) <==>
              i > 0 && Waits(maxAge, fs, i - 1) && Stale(maxAge, fs[i - 1].at, fs[i].at)
    {
      ExpiredMeans(maxAge, fs, i);
    }
  }

  lemma NoExpiryPrefix(maxAge: Option<real>, fs: seq<Timed>, n: nat)
    requires NoExpiry(maxAge, fs) && n <= |fs|
    ensures NoExpiry(maxAge, fs[..n])
  {
    forall i | 0 < i < n && Waits(maxAge, fs[..n], i - 1)
      ensures !Stale(maxAge, fs[i - 1].at, fs[i].at)
    {
      LinksPrefix(maxAge, fs, n, i - 1);
    }
  }

  /** With no expiry and something behind the header, one step is one step of the rules. */
  lemma UnexpiredStep(maxAge: Option<real>, s: Half, f: Timed)
    requires |f.raw| > HEADER_L && !Expired(maxAge, s, f.at) && (!s.Pending() ==> s.buf == [])
    ensures Rules(Feed(maxAge, s, f).0) == FirmwareStep(Rules(s), f.raw).0
    ensures Feed(maxAge, s, f).1 == FirmwareStep(Rules(s), f.raw).1
  {
  }

  /** On every run without expiry the deliveries and the final buffer are those of the firmware. */
  lemma {:induction false} UnexpiredRunsMatchRules(maxAge: Option<real>, fs: seq<Timed>)
    requires NoExpiry(maxAge, fs)
    ensures Rules(Final(maxAge, IDLE, fs)) == FirmwareFinal(Rules(IDLE), fs)
    ensures Delivered(maxAge, IDLE, fs) == FirmwareDelivered(Rules(IDLE), fs)
  {
    if fs != [] {
      var n := |fs| - 1;
      assert fs[n] in fs;
      NoExpiryPrefix(maxAge, fs, n);
      UnexpiredRunsMatchRules(maxAge, fs[..n]);
      ExpiredMeans(maxAge, fs, n);
      UnexpiredStep(maxAge, Final(maxAge, IDLE, fs[..n]), fs[n]);
    }
  }

  // ---------------------------------------------------------------------------
  // When a run delivers nothing the firmware would not

  /** Two consecutive frames the firmware takes for the two halves of one packet: neither their age nor
      an empty payload matters to it. */
  predicate FirmwareLinked(f: Timed, g: Timed) {
    && f.raw != [] && g.raw != [] && IsSplit(f.raw[0]) && IsSplit(g.raw[0])
    && SeqOf(f.raw[0]) == SeqOf(g.raw[0])
  }

  function FirmwareLinks(fs: seq<Timed>, i: nat): nat
    requires i < |fs|
  {
    if i == 0 || !FirmwareLinked(fs[i - 1], fs[i]) then 0 else 1 + FirmwareLinks(fs, i - 1)
  }

  lemma {:induction false} FirmwareLinksPrefix(fs: seq<Timed>, n: nat, i: nat)
    requires i < n <= |fs|
    ensures FirmwareLinks(fs[..n], i) == FirmwareLinks(fs, i)
  {
    if i > 0 {
      FirmwareLinksPrefix(fs, n, i - 1);
    }
  }

  /** What the firmware delivers on frame i of a run. */
  function FirmwareOut(fs: seq<Timed>, i: nat): Option<Bytes>
    requires i < |fs| && forall f <- fs :: f.raw != []
  {
    FirmwareStep(FirmwareFinal(Rules(IDLE), fs[..i]), fs[i].raw).1
  }

  predicate FirmwareHolds(w: Firmware, fs: seq<Timed>)
    requires forall f <- fs :: f.raw != []
  {
    var n := |fs| - 1;
    if fs != [] && IsSplit(fs[n].raw[0]) && FirmwareLinks(fs, n) % 2 == 0 then
      w == Firmware(SeqOf(fs[n].raw[0]), Payload(fs[n].raw))
    else w == Rules(IDLE)
  }

  lemma {:induction false} FirmwarePending(fs: seq<Timed>)
    requires forall f <- fs :: f.raw != []
    ensures FirmwareHolds(FirmwareFinal(Rules(IDLE), fs), fs)
  {
    if fs != [] {
      var n := |fs| - 1;
      FirmwarePending(fs[..n]);
      if n > 0 {
        FirmwareLinksPrefix(fs, n, n - 1);
      }
    }
  }

  /** The firmware's verdict on frame i, by the parity of its links. */
  lemma FirmwareReference(fs: seq<Timed>, i: nat)
    requires i < |fs| && forall f <- fs :: f.raw != []
    ensures FirmwareOut(fs, i) ==
            if !IsSplit(fs[i].raw[0]) then Some(Payload(fs[i].raw))
            else if FirmwareLinks(fs, i) % 2 == 1 then Some(Payload(fs[i - 1].raw) + Payload(fs[i].raw))
            else None
  {
    FirmwarePending(fs[..i]);
    if i > 0 {
      FirmwareLinksPrefix(fs, i, i - 1);
    }
  }

  /** A chain of ours starts at a frame that is already the second half of a packet to the firmware. */
  predicate PairsAnew(maxAge: Option<real>, fs: seq<Timed>, i: nat) {
    && i + 1 < |fs| && Linked(maxAge, fs[i], fs[i + 1])
    && Links(maxAge, fs, i) == 0 && FirmwareLinks(fs, i) % 2 == 1
  }

  /** A chain of links of ours is also one of the firmware's, which may have begun earlier. */
  lemma {:induction false} ChainStart(maxAge: Option<real>, fs: seq<Timed>, i: nat) returns (j: nat)
    requires i < |fs|
    ensures j + Links(maxAge, fs, i) == i && Links(maxAge, fs, j) == 0
    ensures FirmwareLinks(fs, i) == FirmwareLinks(fs, j) + Links(maxAge, fs, i)
    ensures j < i ==> Linked(maxAge, fs[j], fs[j + 1])
  {
    j := i;
    if Links(maxAge, fs, i) > 0 {
      j := ChainStart(maxAge, fs, i - 1);
    }
  }

  /** Frame i delivers nothing, or what the firmware delivers on it. */
  ghost predicate DeliversNothingElse(maxAge: Option<real>, fs: seq<Timed>, i: nat)
    requires i < |fs| && forall f <- fs :: f.raw != []
  {
    OutAt(maxAge, IDLE, fs, i).None? || OutAt(maxAge, IDLE, fs, i) == FirmwareOut(fs, i)
  }

  lemma OtherDeliveryMeans(maxAge: Option<real>, fs: seq<Timed>, i: nat)
    requires i < |fs| && (forall f <- fs :: f.raw != []) && !DeliversNothingElse(maxAge, fs, i)
    ensures Links(maxAge, fs, i) % 2 == 1 && FirmwareLinks(fs, i) % 2 == 0
  {
    RunMatchesReference(maxAge, fs);
    FirmwareReference(fs, i);
  }

  lemma OtherDeliveryPairsAnew(maxAge: Option<real>, fs: seq<Timed>, i: nat) returns (j: nat)
    requires i < |fs| && (forall f <- fs :: f.raw != []) && !DeliversNothingElse(maxAge, fs, i)
    ensures PairsAnew(maxAge, fs, j)
  {
    OtherDeliveryMeans(maxAge, fs, i);
    j := ChainStart(maxAge, fs, i);
  }

  lemma PairingAnewDeliversOther(maxAge: Option<real>, fs: seq<Timed>, i: nat)
    requires (forall f <- fs :: f.raw != []) && PairsAnew(maxAge, fs, i)
    ensures !DeliversNothingElse(maxAge, fs, i + 1)
  {
    RunMatchesReference(maxAge, fs);
    FirmwareReference(fs, i + 1);
    assert Links(maxAge, fs, i + 1) == 1;
  }

  /** The documented "never delivers anything the firmware would not", over whole runs of frames that
      have a header: it holds exactly when no chain of ours starts where the firmware has already
      paired. */
  lemma NothingElseExactlyWhen(maxAge: Option<real>, fs: seq<Timed>)
    requires forall f <- fs :: f.raw != []
    ensures (forall i: nat :: i < |fs| ==> DeliversNothingElse(maxAge, fs, i)) <==>
            (forall i: nat :: !PairsAnew(maxAge, fs, i))
  {
    forall i: nat | i < |fs| && !DeliversNothingElse(maxAge, fs, i)
      ensures exists j: nat :: PairsAnew(maxAge, fs, j)
    {
      var j := OtherDeliveryPairsAnew(maxAge, fs, i);
    }
    forall i: nat | PairsAnew(maxAge, fs, i)
      ensures !DeliversNothingElse(maxAge, fs, i + 1)
    {
      PairingAnewDeliversOther(maxAge, fs, i);
    }
  }

  /** A run on which it fails: a half expires, and the later fragments pair up differently. */
  lemma ExpiryCanPairDifferently()
    ensures var fs := [Timed(0.0, [1, 10]), Timed(9.0, [1, 20]), Timed(10.0, [1, 30])];
            && Delivered(Some(5.0), IDLE, fs) == [[20, 30]]
            && FirmwareDelivered(Rules(IDLE), fs) == [[10, 20]]
  {
    var a, b, c := Timed(0.0, [1, 10]), Timed(9.0, [1, 20]), Timed(10.0, [1, 30]);
    OursPairsLate(a, b, c);
    RulesPairEarly(a, b, c);
  }

  lemma OursFirst(a: Timed)
    requires a == Timed(0.0, [1, 10])
    ensures Final(Some(5.0), IDLE, [a]) == Half(0, [10], 0.0, 0) && Delivered(Some(5.0), IDLE, [a]) == []
  {
    assert [a] == [] + [a];
    FinalSnoc(Some(5.0), IDLE, [], a);
    DeliveredSnoc(Some(5.0), IDLE, [], a);
  }

  lemma OursSecond(a: Timed, b: Timed)
    requires a == Timed(0.0, [1, 10]) && b == Timed(9.0, [1, 20])
    ensures Final(Some(5.0), IDLE, [a, b]) == Half(0, [20], 9.0, 1) && Delivered(Some(5.0), IDLE, [a, b]) == []
  {
    assert [a, b] == [a] + [b];
    OursFirst(a);
    FinalSnoc(Some(5.0), IDLE, [a], b);
    DeliveredSnoc(Some(5.0), IDLE, [a], b);
  }

  lemma OursPairsLate(a: Timed, b: Timed, c: Timed)
    requires a == Timed(0.0, [1, 10]) && b == Timed(9.0, [1, 20]) && c == Timed(10.0, [1, 30])
    ensures Delivered(Some(5.0), IDLE, [a, b, c]) == [[20, 30]]
  {
    assert [a, b, c] == [a, b] + [c];
    OursSecond(a, b);
    DeliveredSnoc(Some(5.0), IDLE, [a, b], c);
    assert [20] + Payload(c.raw) == [20, 30];
  }

  lemma RulesFirst(a: Timed)
    requires a.raw == [1, 10]
    ensures FirmwareFinal(Rules(IDLE), [a]) == Firmware(0, [10]) && FirmwareDelivered(Rules(IDLE), [a]) == []
  {
    assert [a] == [] + [a];
    RulesSnoc(Rules(IDLE), [], a);
  }

  lemma RulesSecond(a: Timed, b: Timed)
    requires a.raw == [1, 10] && b.raw == [1, 20]
    ensures FirmwareFinal(Rules(IDLE), [a, b]) == Rules(IDLE)
    ensures FirmwareDelivered(Rules(IDLE), [a, b]) == [[10, 20]]
  {
    assert [a, b] == [a] + [b];
    RulesFirst(a);
    RulesSnoc(Rules(IDLE), [a], b);
    assert [10] + Payload(b.raw) == [10, 20];
  }

  lemma RulesPairEarly(a: Timed, b: Timed, c: Timed)
    requires a.raw == [1, 10] && b.raw == [1, 20] && c.raw == [1, 30]
    ensures FirmwareDelivered(Rules(IDLE), [a, b, c]) == [[10, 20]]
  {
    assert [a, b, c] == [a, b] + [c];
    RulesSecond(a, b);
    RulesSnoc(Rules(IDLE), [a, b], c);
    assert FirmwareStep(Rules(IDLE), c.raw).1 == None;
  }
}
