/** LoRa time on air (Semtech SX1276/77/78/79 datasheet, section 4.1.1.7) and the reassembly timeout the
    interface derives from it. */
module AirTime {
  import opened Common
  import opened Framing

  const MAX_PAYLOAD := 255

  /** The modem settings a frame is sent with; `cr` is the denominator of the coding rate 4/cr. */
  datatype Modem = Modem(sf: nat, bw: real, cr: nat, preamble: nat) {
    predicate Valid() {
      7 <= sf <= 12 && bw > 0.0 && 5 <= cr <= 8
    }
  }

  function Pow2(n: nat): (r: nat)
    ensures r >= 1
  {
    if n == 0 then 1 else 2 * Pow2(n - 1)
  }

  function Ceil(n: int, d: int): int
    requires d > 0
  {
    -((-n) / d)
  }

  function SymbolTime(m: Modem): real
    requires m.Valid()
  {
    Pow2(m.sf) as real / m.bw
  }

  function LowDataRate(m: Modem): int
    requires m.Valid()
  {
    if SymbolTime(m) > 0.016 then 1 else 0
  }

  /** Payload bits that one coding block of `cr` symbols carries. */
  function BlockBits(m: Modem): int
    requires m.Valid()
  {
    4 * (m.sf - 2 * LowDataRate(m))
  }

  /** Bits to code after the first eight symbols; negative when those already hold everything. */
  function CodedBits(m: Modem, len: nat): int {
    8 * len - 4 * m.sf + 28 + 16
  }

  function PayloadSymbols(m: Modem, len: nat): int
    requires m.Valid()
  {
    var blocks := Ceil(CodedBits(m, len), BlockBits(m)) * m.cr;
    8 + if blocks > 0 then blocks else 0
  }

  /** Preamble plus payload symbols, in seconds. */
  function OnAir(preamble: nat, symbols: int, tsym: real): real {
    (preamble as real + 4.25) * tsym + symbols as real * tsym
  }

  function TimeOnAir(m: Modem, len: nat): real
    requires m.Valid()
  {
    OnAir(m.preamble, PayloadSymbols(m, len), SymbolTime(m))
  }

  lemma CeilIsLeast(n: int, d: int, k: int)
    requires d > 0
    ensures n <= Ceil(n, d) * d < n + d
    ensures k * d >= n <==> k >= Ceil(n, d)
  {
    var q := (-n) / d;
    assert -n == q * d + (-n) % d;
    assert Ceil(n, d) * d == n + (-n) % d;
    if k >= Ceil(n, d) {
      assert k * d >= Ceil(n, d) * d;
    } else {
      assert k * d <= (Ceil(n, d) - 1) * d;
    }
  }

  lemma ProductPositive(x: int, y: int)
    requires x >= 0 && y > 0
    ensures x * y >= 0 && (x > 0 ==> x * y > 0)
  {
  }

  lemma ScaledAtMost(a: int, b: int, cr: int)
    requires cr > 0
    ensures a <= b <==> a * cr <= b * cr
  {
    assert (b - a) * cr == b * cr - a * cr;
    if a <= b {
      ProductPositive(b - a, cr);
    } else {
      ProductPositive(a - b, cr);
      assert (a - b) * cr == a * cr - b * cr;
    }
  }

  /** The payload takes eight symbols plus the fewest whole coding blocks that hold its bits. */
  lemma SymbolsAreEnoughAndFewest(m: Modem, len: nat, blocks: nat)
    requires m.Valid()
    ensures BlockBits(m) > 0
    ensures PayloadSymbols(m, len) >= 8
    ensures blocks * BlockBits(m) >= CodedBits(m, len) <==> PayloadSymbols(m, len) <= 8 + blocks * m.cr
  {
    var c := Ceil(CodedBits(m, len), BlockBits(m));
    CeilIsLeast(CodedBits(m, len), BlockBits(m), blocks);
    ScaledAtMost(c, blocks, m.cr);
    ScaledAtMost(0, blocks, m.cr);
    ScaledAtMost(c, 0, m.cr);
  }

  lemma SymbolsMonotone(m: Modem, a: nat, b: nat)
    requires m.Valid() && a <= b
    ensures PayloadSymbols(m, a) <= PayloadSymbols(m, b)
  {
    var d := BlockBits(m);
    var ca, cb := Ceil(CodedBits(m, a), d), Ceil(CodedBits(m, b), d);
    CeilIsLeast(CodedBits(m, a), d, cb);
    CeilIsLeast(CodedBits(m, b), d, cb);
    ScaledAtMost(ca, cb, m.cr);
  }

  lemma OnAirMonotone(preamble: nat, a: int, b: int, tsym: real)
    requires 0 < a <= b && 0.0 < tsym
    ensures 0.0 < OnAir(preamble, a, tsym) <= OnAir(preamble, b, tsym)
  {
    var p, x, y := preamble as real + 4.25, a as real, b as real;
    assert 0.0 < p * tsym && 0.0 < x * tsym;
    assert 0.0 <= (y - x) * tsym;
  }

  /** Time on air is positive and never shrinks with the payload, through the ceiling and the
      low-data-rate terms, for every spreading factor, bandwidth and coding rate. */
  lemma TimeOnAirMonotone(m: Modem, a: nat, b: nat)
    requires m.Valid() && a <= b
    ensures 0.0 < TimeOnAir(m, a) <= TimeOnAir(m, b)
  {
    SymbolsMonotone(m, a, b);
    SymbolsAreEnoughAndFewest(m, a, 0);
    assert SymbolTime(m) > 0.0;
    OnAirMonotone(m.preamble, PayloadSymbols(m, a), PayloadSymbols(m, b), SymbolTime(m));
  }

  /** The age at which the interface calls a pending half stale. */
  function MaxAge(m: Modem): real
    requires m.Valid()
  {
    Max(5.0, 4.0 * TimeOnAir(m, MAX_PAYLOAD))
  }

  /** Packets whose second frame is heard within four full-frame airtimes of the first. */
  ghost predicate HeardInTime(m: Modem, ps: seq<Sent>)
    requires m.Valid()
  {
    forall p <- ps :: 1 <= |p.data| <= FRAMED_MTU && p.second - p.first <= 4.0 * TimeOnAir(m, MAX_PAYLOAD)
  }

  /** The interface's timeout never expires such a packet: the whole stream is delivered in order. */
  lemma TimeoutNeverSplitsAPacket(m: Modem, s: Half, ps: seq<Sent>)
    requires m.Valid() && !s.Pending() && HeardInTime(m, ps)
    ensures AllSendable(Some(MaxAge(m)), ps)
    ensures Delivered(Some(MaxAge(m)), s, Stream(ps)) == Datas(ps)
    ensures Final(Some(MaxAge(m)), s, Stream(ps)).dropped == s.dropped
  {
    assert AllSendable(Some(MaxAge(m)), ps);
    StreamRoundTrip(Some(MaxAge(m)), s, ps);
  }

  /** Fragments sent back to back are always heard in time: the second takes its own time on air. */
  lemma BackToBackIsInTime(m: Modem, p: Sent)
    requires m.Valid() && FRAME_PAYLOAD < |p.data| <= FRAMED_MTU
    requires p.second - p.first == TimeOnAir(m, |AirFrames(p)[|AirFrames(p)| - 1].raw|)
    ensures HeardInTime(m, [p])
  {
    FrameShape(p.data, p.header);
    var second := Frame(p.data, p.header).value[1];
    assert second in Frame(p.data, p.header).value;
    TimeOnAirMonotone(m, |second|, MAX_PAYLOAD);
  }

  lemma PowersOfTwo()
    ensures Pow2(7) == 128 && Pow2(8) == 256 && Pow2(12) == 4096
  {
    assert Pow2(4) == 16;
    assert Pow2(6) == 64;
    assert Pow2(8) == 256;
    assert Pow2(10) == 1024;
  }

  /** The samples in a symbol, for the six spreading factors. */
  function Chips(sf: nat): nat {
    match sf
    case 7 => 128
    case 8 => 256
    case 9 => 512
    case 10 => 1024
    case 11 => 2048
    case _ => 4096
  }

  lemma SixPowers(sf: nat)
    requires 7 <= sf <= 12
    ensures Pow2(sf) == Chips(sf)
  {
    PowersOfTwo();
  }

  /** Symbols of more than 16 milliseconds take the low-data-rate mode. */
  function SlowSymbols(m: Modem): nat {
    if 1000.0 * Chips(m.sf) as real > 16.0 * m.bw then 1 else 0
  }

  /** The datasheet's number of symbols, in the modem's own numbers: eight, and then whole blocks of `cr`,
      exactly as few as carry the bits of the payload. */
  lemma DatasheetSymbols(m: Modem, len: nat)
    requires m.Valid()
    ensures exists used: nat :: PayloadSymbols(m, len) == 8 + used * m.cr
    ensures forall blocks: nat ::
              blocks * (4 * (m.sf - 2 * SlowSymbols(m))) >= 8 * len - 4 * m.sf + 44 <==>
              PayloadSymbols(m, len) <= 8 + blocks * m.cr
  {
    SlowIsLowDataRate(m);
    forall blocks: nat
      ensures blocks * (4 * (m.sf - 2 * SlowSymbols(m))) >= 8 * len - 4 * m.sf + 44 <==>
              PayloadSymbols(m, len) <= 8 + blocks * m.cr
    {
      SymbolsAreEnoughAndFewest(m, len, blocks);
    }
    WholeBlocks(m, len);
  }

  lemma SlowIsLowDataRate(m: Modem)
    requires m.Valid()
    ensures Pow2(m.sf) == Chips(m.sf) && LowDataRate(m) == SlowSymbols(m)
  {
    SixPowers(m.sf);
    QuotientAbove(Chips(m.sf) as real, m.bw, 0.016);
  }

  lemma QuotientAbove(x: real, y: real, z: real)
    requires y > 0.0
    ensures x / y > z <==> x > z * y
  {
    var q := x / y;
    assert q * y == x;
    if q > z {
      assert (q - z) * y > 0.0;
    } else {
      assert (z - q) * y >= 0.0;
    }
  }

  lemma WholeBlocks(m: Modem, len: nat)
    requires m.Valid()
    ensures exists used: nat :: PayloadSymbols(m, len) == 8 + used * m.cr
  {
    var c := Ceil(CodedBits(m, len), BlockBits(m));
    ScaledAtMost(c, 0, m.cr);
    if c > 0 {
      var used: nat := c;
      assert PayloadSymbols(m, len) == 8 + used * m.cr;
    } else {
      var used: nat := 0;
      assert PayloadSymbols(m, len) == 8 + used * m.cr;
    }
  }

  lemma SymbolTimeIs(m: Modem)
    requires m.Valid()
    ensures SymbolTime(m) == Chips(m.sf) as real / m.bw
  {
    SixPowers(m.sf);
  }

  lemma TimeUnfolds(m: Modem, len: nat)
    requires m.Valid()
    ensures TimeOnAir(m, len) == OnAir(m.preamble, PayloadSymbols(m, len), Chips(m.sf) as real / m.bw)
  {
    SymbolTimeIs(m);
  }

  lemma OnAirFactors(preamble: nat, symbols: int, tsym: real)
    ensures OnAir(preamble, symbols, tsym) == (preamble as real + 4.25 + symbols as real) * tsym
  {
  }

  /** The datasheet's time on air: the preamble and those symbols, each of 2^sf chips at the rate of the
      bandwidth. */
  lemma DatasheetTime(m: Modem, len: nat, symbols: int, tsym: real)
    requires m.Valid() && symbols == PayloadSymbols(m, len) && tsym == Chips(m.sf) as real / m.bw
    ensures TimeOnAir(m, len) == (m.preamble as real + 4.25 + symbols as real) * tsym
  {
    TimeUnfolds(m, len);
    OnAirFactors(m.preamble, symbols, tsym);
  }

  /** The two sides of the threshold: 8.192 and 16.384 milliseconds a symbol. */
  lemma ThresholdFigures()
    ensures PayloadSymbols(Modem(10, 125000.0, 5, 8), 208) == 8 + 42 * 5
    ensures PayloadSymbols(Modem(11, 125000.0, 5, 8), 208) == 8 + 47 * 5
    ensures PayloadSymbols(Modem(11, 250000.0, 5, 8), 208) == 8 + 38 * 5
    ensures PayloadSymbols(Modem(12, 250000.0, 5, 8), 208) == 8 + 42 * 5
    ensures 4.18 < TimeOnAir(Modem(11, 125000.0, 5, 8), 208) < 4.19
  {
    SixPowers(10);
    SixPowers(11);
    SixPowers(12);
    SymbolsOf(Modem(10, 125000.0, 5, 8), 208, 40, 42);
    SymbolsOf(Modem(11, 125000.0, 5, 8), 208, 36, 47);
    SymbolsOf(Modem(11, 250000.0, 5, 8), 208, 44, 38);
    SymbolsOf(Modem(12, 250000.0, 5, 8), 208, 40, 42);
    assert OnAir(8, 243, 0.016384) == 4.182016;
  }

  /** The age is the least that is at least five seconds and at least four full frames. */
  lemma MaxAgeIsLeast(m: Modem, age: real)
    requires m.Valid()
    ensures age >= MaxAge(m) <==> age >= 5.0 && age >= 4.0 * TimeOnAir(m, 255)
  {
  }

  lemma CeilBetween(n: int, d: int, k: int)
    requires d > 0 && (k - 1) * d < n <= k * d
    ensures Ceil(n, d) == k
  {
    CeilIsLeast(n, d, k);
    CeilIsLeast(n, d, k - 1);
  }

  /** The symbols of a frame, from the number of coding blocks its bits need. */
  lemma SymbolsOf(m: Modem, len: nat, bits: int, blocks: nat)
    requires m.Valid() && bits == BlockBits(m) > 0
    requires (blocks - 1) * bits < CodedBits(m, len) <= blocks * bits
    ensures PayloadSymbols(m, len) == 8 + blocks * m.cr
  {
    CeilBetween(CodedBits(m, len), bits, blocks);
    ScaledAtMost(0, blocks, m.cr);
  }

  /** The measured figure: a 208-byte announce at SF8, 125 kHz, 4/5 takes 0.55 to 0.62 seconds. */
  lemma AnnounceFigure()
    ensures 0.55 < TimeOnAir(Modem(8, 125000.0, 5, 8), 208) < 0.62
  {
    PowersOfTwo();
    SymbolsOf(Modem(8, 125000.0, 5, 8), 208, 32, 53);
    assert OnAir(8, 273, 0.002048) == 0.584192;
  }

  /** Long symbols engage the low-data-rate mode: 50 bytes at SF12 and 125 kHz take 2.302 seconds, more
      than ten times what they take at SF7. */
  lemma LowDataRateFigure()
    ensures 2.301 < TimeOnAir(Modem(12, 125000.0, 5, 8), 50) < 2.303
    ensures TimeOnAir(Modem(12, 125000.0, 5, 8), 50) > 10.0 * TimeOnAir(Modem(7, 125000.0, 5, 8), 50)
  {
    PowersOfTwo();
    SymbolsOf(Modem(12, 125000.0, 5, 8), 50, 40, 10);
    SymbolsOf(Modem(7, 125000.0, 5, 8), 50, 28, 15);
    assert OnAir(8, 58, 0.032768) == 2.301952;
    assert OnAir(8, 83, 0.001024) == 0.097536;
  }
}
