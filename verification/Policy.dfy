/** The permitted segments of the band plan and the limit checks of the interface's constructor
    (ERC Recommendation 70-03, Annex 1, as the source tabulates it). */
module Policy {
  import opened Common
  import opened Ledger

  datatype Segment = Segment(lo: real, hi: real, pct: real)

  datatype Band = Band433 | Band868 | OtherBand

  function Segments(band: Band): seq<Segment> {
    match band
    case Band433 => [Segment(433050000.0, 434790000.0, 10.0)]
    case Band868 =>
      [ Segment(863000000.0, 865000000.0, 0.1),
        Segment(865000000.0, 868600000.0, 1.0),
        Segment(868700000.0, 869200000.0, 0.1),
        Segment(869400000.0, 869650000.0, 10.0),
        Segment(869700000.0, 870000000.0, 1.0) ]
    case OtherBand => []
  }

  /** The whole occupied bandwidth lies inside the segment. */
  predicate Holds(g: Segment, frequency: real, bandwidth: real) {
    g.lo <= frequency - bandwidth / 2.0 && frequency + bandwidth / 2.0 <= g.hi
  }

  /** The signal reaches frequency x: at most half the bandwidth away from the centre. */
  predicate Occupies(x: real, frequency: real, bandwidth: real) {
    2.0 * (x - frequency) <= bandwidth && 2.0 * (frequency - x) <= bandwidth
  }

  /** Holding a channel is holding every frequency its signal reaches. */
  lemma HoldsEveryFrequency(g: Segment, frequency: real, bandwidth: real)
    requires bandwidth >= 0.0
    ensures Holds(g, frequency, bandwidth) <==>
            forall x: real :: Occupies(x, frequency, bandwidth) ==> g.lo <= x <= g.hi
  {
    assert Occupies(frequency - bandwidth / 2.0, frequency, bandwidth);
    assert Occupies(frequency + bandwidth / 2.0, frequency, bandwidth);
  }

  function Scan(table: seq<Segment>, frequency: real, bandwidth: real): Option<real> {
    if table == [] then None
    else if Holds(table[0], frequency, bandwidth) then Some(table[0].pct)
    else Scan(table[1..], frequency, bandwidth)
  }

  function DutyCeiling(band: Band, frequency: real, bandwidth: real): Option<real> {
    Scan(Segments(band), frequency, bandwidth)
  }

  lemma {:induction false} ScanFindsFirst(table: seq<Segment>, frequency: real, bandwidth: real)
    ensures Scan(table, frequency, bandwidth).None? <==> forall g <- table :: !Holds(g, frequency, bandwidth)
    ensures Scan(table, frequency, bandwidth).Some? ==>
              exists g <- table :: Holds(g, frequency, bandwidth) && Scan(table, frequency, bandwidth) == Some(g.pct)
  {
    if table != [] {
      assert table == [table[0]] + table[1..];
      ScanFindsFirst(table[1..], frequency, bandwidth);
    }
  }

  /** A channel of positive width has a ceiling exactly when one segment holds all of it, and then it is
      that segment's: no other segment holds the channel. */
  lemma CeilingIsTheSegments(band: Band, frequency: real, bandwidth: real)
    requires bandwidth > 0.0
    ensures DutyCeiling(band, frequency, bandwidth).Some? <==>
            exists g <- Segments(band) :: Holds(g, frequency, bandwidth)
    ensures forall g <- Segments(band) ::
              Holds(g, frequency, bandwidth) ==> DutyCeiling(band, frequency, bandwidth) == Some(g.pct)
    ensures forall g, k :: g in Segments(band) && k in Segments(band) ==>
              Holds(g, frequency, bandwidth) && Holds(k, frequency, bandwidth) ==> g == k
  {
    ScanFindsFirst(Segments(band), frequency, bandwidth);
  }

  /** With no width the boundary channel lies in two segments; the scan then takes the stricter one. */
  lemma SharedEdgeIsStrict()
    ensures DutyCeiling(Band868, 865000000.0, 0.0) == Some(0.1)
  {
  }

  /** The two limit checks of the constructor on an accepted channel. */
  predicate Accepts(band: Band, frequency: real, bandwidth: real, shortLimit: real, longLimit: real) {
    var ceiling := DutyCeiling(band, frequency, bandwidth);
    ceiling.Some? && 0.0 < shortLimit <= 100.0 && 0.0 < longLimit <= ceiling.value
  }

  /** The account the constructor makes: the windows are the defaults, the limits the accepted ones. */
  function AccountLimits(shortLimit: real, longLimit: real): Limits {
    Limits(15.0, shortLimit, 3600.0, longLimit)
  }

  // ---------------------------------------------------------------------------
  // The band plan, in frequencies

  /** Every frequency the channel reaches lies in this stretch. */
  ghost predicate LiesIn(frequency: real, bandwidth: real, lo: real, hi: real) {
    forall x: real :: Occupies(x, frequency, bandwidth) ==> lo <= x <= hi
  }

  lemma LiesInSegment(g: Segment, frequency: real, bandwidth: real)
    requires bandwidth >= 0.0
    ensures Holds(g, frequency, bandwidth) <==> LiesIn(frequency, bandwidth, g.lo, g.hi)
  {
    HoldsEveryFrequency(g, frequency, bandwidth);
  }

  lemma ScanStep(g: Segment, rest: seq<Segment>, frequency: real, bandwidth: real)
    requires bandwidth >= 0.0
    ensures Scan([g] + rest, frequency, bandwidth)
         == if LiesIn(frequency, bandwidth, g.lo, g.hi) then Some(g.pct) else Scan(rest, frequency, bandwidth)
  {
    LiesInSegment(g, frequency, bandwidth);
    assert ([g] + rest)[1..] == rest;
  }

  /** What band 868 permits: a channel that lies in one of five stretches, each with its percentage. */
  lemma BandPlan868(frequency: real, bandwidth: real)
    requires bandwidth >= 0.0
    ensures DutyCeiling(Band868, frequency, bandwidth) ==
            if LiesIn(frequency, bandwidth, 863000000.0, 865000000.0) then Some(0.1)
            else if LiesIn(frequency, bandwidth, 865000000.0, 868600000.0) then Some(1.0)
            else if LiesIn(frequency, bandwidth, 868700000.0, 869200000.0) then Some(0.1)
            else if LiesIn(frequency, bandwidth, 869400000.0, 869650000.0) then Some(10.0)
            else if LiesIn(frequency, bandwidth, 869700000.0, 870000000.0) then Some(1.0)
            else None
  {
    var t := Segments(Band868);
    assert t == [t[0]] + t[1..] && t[1..] == [t[1]] + t[2..] && t[2..] == [t[2]] + t[3..];
    assert t[3..] == [t[3]] + t[4..] && t[4..] == [t[4]] + [];
    ScanStep(t[0], t[1..], frequency, bandwidth);
    ScanStep(t[1], t[2..], frequency, bandwidth);
    ScanStep(t[2], t[3..], frequency, bandwidth);
    ScanStep(t[3], t[4..], frequency, bandwidth);
    ScanStep(t[4], [], frequency, bandwidth);
  }

  lemma BandPlan433(frequency: real, bandwidth: real)
    requires bandwidth >= 0.0
    ensures DutyCeiling(Band433, frequency, bandwidth) ==
            if LiesIn(frequency, bandwidth, 433050000.0, 434790000.0) then Some(10.0) else None
    ensures DutyCeiling(OtherBand, frequency, bandwidth) == None
  {
    var t := Segments(Band433);
    assert t == [t[0]] + [];
    ScanStep(t[0], [], frequency, bandwidth);
  }

  /** The frequency is in no permitted stretch of its band: an alarm-only gap, or beyond the band. */
  predicate Reserved(band: Band, x: real) {
    match band
    case Band433 => x < 433050000.0 || 434790000.0 < x
    case Band868 =>
      || x < 863000000.0 || 870000000.0 < x
      || 868600000.0 < x < 868700000.0 || 869200000.0 < x < 869400000.0 || 869650000.0 < x < 869700000.0
    case OtherBand => true
  }

  /** A channel that reaches one reserved frequency is refused. */
  lemma ReservedIsRefused(band: Band, frequency: real, bandwidth: real, x: real)
    requires Occupies(x, frequency, bandwidth) && Reserved(band, x)
    ensures DutyCeiling(band, frequency, bandwidth) == None
  {
    BandPlan868(frequency, bandwidth);
    BandPlan433(frequency, bandwidth);
  }

  /** Two permitted stretches meet at 865 MHz; a channel across the edge lies in neither. */
  lemma AcrossIsRefused(frequency: real, bandwidth: real, x: real, y: real)
    requires Occupies(x, frequency, bandwidth) && Occupies(y, frequency, bandwidth)
    requires x < 865000000.0 < y
    ensures DutyCeiling(Band868, frequency, bandwidth) == None
  {
    BandPlan868(frequency, bandwidth);
  }

  /** What the constructor accepts on band 868, in frequencies and percentages. */
  lemma AcceptedOn868(frequency: real, bandwidth: real, shortLimit: real, longLimit: real)
    requires bandwidth > 0.0
    ensures Accepts(Band868, frequency, bandwidth, shortLimit, longLimit) <==>
            && 0.0 < shortLimit <= 100.0 && 0.0 < longLimit
            && (|| (LiesIn(frequency, bandwidth, 863000000.0, 865000000.0) && longLimit <= 0.1)
                || (LiesIn(frequency, bandwidth, 865000000.0, 868600000.0) && longLimit <= 1.0)
                || (LiesIn(frequency, bandwidth, 868700000.0, 869200000.0) && longLimit <= 0.1)
                || (LiesIn(frequency, bandwidth, 869400000.0, 869650000.0) && longLimit <= 10.0)
                || (LiesIn(frequency, bandwidth, 869700000.0, 870000000.0) && longLimit <= 1.0))
  {
    BandPlan868(frequency, bandwidth);
    assert Occupies(frequency - bandwidth / 2.0, frequency, bandwidth);
    assert Occupies(frequency + bandwidth / 2.0, frequency, bandwidth);
  }

  /** On band 433, and on any other. */
  lemma AcceptedOn433(frequency: real, bandwidth: real, shortLimit: real, longLimit: real)
    requires bandwidth > 0.0
    ensures Accepts(Band433, frequency, bandwidth, shortLimit, longLimit) <==>
            && 0.0 < shortLimit <= 100.0 && 0.0 < longLimit <= 10.0
            && LiesIn(frequency, bandwidth, 433050000.0, 434790000.0)
    ensures !Accepts(OtherBand, frequency, bandwidth, shortLimit, longLimit)
  {
    BandPlan433(frequency, bandwidth);
  }
}
