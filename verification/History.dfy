/** True time against the ledger: every charge ever persisted, with the instant it really happened,
    and what the ledger credits to it. */
module History {
  import opened Common
  import opened Ledger

  /** One instant: true time, which no code can read, and the clock sample taken at it. */
  datatype Sample = Sample(time: real, clock: Clock)

  /** Within one boot the monotonic clock measures true time from that boot's origin. */
  ghost predicate Physical(origin: nat -> real, s: Sample) {
    s.clock.mono == s.time - origin(s.clock.boot)
  }

  /** A charge: when it really happened, the stamp it carries now, whether it is still in the ledger,
      and how many ledger writes it has been through, its own included. */
  datatype Record = Record(born: real, airtime: real, stamp: real, live: bool, writes: nat)

  // ---------------------------------------------------------------------------
  // What one operation does to the records

  function Aged(r: Record, past: Clock, now: Clock, window: real): Record {
    if !r.live then r
    else
      var stamp := r.stamp + Shift(past, now);
      r.(stamp := stamp, live := stamp > now.wall - window)
  }

  /** The records as an operation at `now` sees them. */
  function View(h: seq<Record>, past: Clock, now: Clock, window: real): seq<Record> {
    if h == [] then [] else View(h[..|h| - 1], past, now, window) + [Aged(h[|h| - 1], past, now, window)]
  }

  /** The ledger entries of the records. */
  function Live(h: seq<Record>): seq<Entry> {
    if h == [] then []
    else
      var r := h[|h| - 1];
      Live(h[..|h| - 1]) + if r.live then [Entry(r.stamp, r.airtime)] else []
  }

  function Counted(h: seq<Record>): seq<Record> {
    if h == [] then []
    else
      var r := h[|h| - 1];
      Counted(h[..|h| - 1]) + [r.(writes := r.writes + 1)]
  }

  /** The records after the corrected, pruned ledger has been written at `now`. */
  function Persisted(h: seq<Record>, past: Clock, now: Clock, window: real): seq<Record> {
    Counted(View(h, past, now, window))
  }

  function NewCharge(now: Sample, airtime: real): Record {
    Record(now.time, airtime, now.clock.wall, true, 1)
  }

  lemma {:induction false} ViewAt(h: seq<Record>, past: Clock, now: Clock, window: real)
    ensures |View(h, past, now, window)| == |h|
    ensures forall i :: 0 <= i < |h| ==> View(h, past, now, window)[i] == Aged(h[i], past, now, window)
  {
    if h != [] {
      ViewAt(h[..|h| - 1], past, now, window);
    }
  }

  lemma LiveSnoc(h: seq<Record>, r: Record)
    ensures Live(h + [r]) == Live(h) + if r.live then [Entry(r.stamp, r.airtime)] else []
  {
    assert (h + [r])[..|h|] == h;
  }

  lemma {:induction false} CountedLive(h: seq<Record>)
    ensures Live(Counted(h)) == Live(h)
  {
    if h != [] {
      var n := |h| - 1;
      CountedLive(h[..n]);
      LiveSnoc(Counted(h[..n]), h[n].(writes := h[n].writes + 1));
    }
  }

  lemma {:induction false} CountedEach(h: seq<Record>)
    ensures |Counted(h)| == |h|
    ensures forall i :: 0 <= i < |h| ==> Counted(h)[i] == h[i].(writes := h[i].writes + 1)
  {
    if h != [] {
      CountedEach(h[..|h| - 1]);
    }
  }

  lemma CountedAt(h: seq<Record>)
    ensures |Counted(h)| == |h|
    ensures forall i :: 0 <= i < |h| ==> Counted(h)[i] == h[i].(writes := h[i].writes + 1)
    ensures Live(Counted(h)) == Live(h)
  {
    CountedEach(h);
    CountedLive(h);
  }

  lemma RebaseSnoc(entries: seq<Entry>, e: Entry, step: real)
    ensures Rebase(entries + [e], step) == Rebase(entries, step) + [e.(stamp := e.stamp + step)]
  {
    assert (entries + [e])[..|entries|] == entries;
  }

  lemma PruneSnoc(entries: seq<Entry>, e: Entry, cutoff: real)
    ensures Prune(entries + [e], cutoff) == Prune(entries, cutoff) + if e.stamp > cutoff then [e] else []
  {
    assert (entries + [e])[..|entries|] == entries;
  }

  /** What the code computes on the entries of the file is what the records show. */
  lemma {:induction false} LiveOfView(h: seq<Record>, past: Clock, now: Clock, window: real)
    ensures Live(View(h, past, now, window)) == Prune(Rebase(Live(h), Shift(past, now)), now.wall - window)
  {
    if h != [] {
      var n, step, cutoff := |h| - 1, Shift(past, now), now.wall - window;
      var r, rest, v := h[n], Live(h[..n]), View(h[..n], past, now, window);
      LiveOfView(h[..n], past, now, window);
      LiveSnoc(v, Aged(r, past, now, window));
      if r.live {
        var e := Entry(r.stamp, r.airtime);
        RebaseSnoc(rest, e, step);
        PruneSnoc(Rebase(rest, step), e.(stamp := e.stamp + step), cutoff);
      } else {
        assert rest + [] == rest && Live(v) + [] == Live(v);
      }
    }
  }

  /** Looking again at the same instant changes nothing. */
  lemma {:induction false} ViewTwice(h: seq<Record>, past: Clock, now: Clock, window: real)
    ensures View(Persisted(h, past, now, window), now, now, window) == Persisted(h, past, now, window)
  {
    var p := Persisted(h, past, now, window);
    ViewAt(h, past, now, window);
    CountedAt(View(h, past, now, window));
    ViewAt(p, now, now, window);
  }

  // ---------------------------------------------------------------------------
  // Credit: the age the ledger gives a charge, against its true age

  /** What reading at `now` a ledger written at `past` credits beyond the true time in between. */
  function OverCredit(past: Sample, now: Sample): real {
    (now.clock.wall - past.clock.wall - Shift(past.clock, now.clock)) - (now.time - past.time)
  }

  /** The wall clock gained on true time, by an amount the step detection lets through. */
  predicate HiddenGain(past: Sample, now: Sample) {
    var gain := (now.clock.wall - past.clock.wall) - (now.time - past.time);
    && gain > 0.0
    && (if past.clock.boot == now.clock.boot then gain else now.clock.wall - past.clock.wall) <= CLOCK_SKEW_S
  }

  /** One reading over-credits at most the skew; it over-credits at all exactly on a hidden gain, and a
      hidden gain is one of at most the skew. */
  lemma OverCreditBound(origin: nat -> real, past: Sample, now: Sample)
    requires Physical(origin, past) && Physical(origin, now) && past.time <= now.time
    ensures OverCredit(past, now) <= 60.0
    ensures OverCredit(past, now) > 0.0 <==> HiddenGain(past, now)
    ensures HiddenGain(past, now) ==> 0.0 < (now.clock.wall - past.clock.wall) - (now.time - past.time) <= 60.0
  {
  }

  /** What one reading credits, exactly. A step detected within a boot is taken out completely, in either
      direction; across a reboot a forward gap is credited with nothing; anything else is passed on. */
  lemma CreditOfOneReading(origin: nat -> real, past: Sample, now: Sample)
    requires Physical(origin, past) && Physical(origin, now)
    ensures var elapsed := now.time - past.time;
            var gain := (now.clock.wall - past.clock.wall) - elapsed;
            OverCredit(past, now) ==
            if past.clock.boot == now.clock.boot then (if -60.0 <= gain <= 60.0 then gain else 0.0)
            else if now.clock.wall - past.clock.wall > 60.0 then -elapsed
            else gain
  {
  }

  /** A clock that keeps true time hides no gain, whatever else happens, reboots included. */
  lemma SteadyHidesNothing(past: Sample, now: Sample)
    requires now.clock.wall - past.clock.wall <= now.time - past.time
    ensures !HiddenGain(past, now)
  {
  }

  /** What a reading over-credits, if anything. */
  function Gain(past: Sample, now: Sample): real {
    if OverCredit(past, now) > 0.0 then OverCredit(past, now) else 0.0
  }

  /** A ledger write, and what its reading over-credited. */
  datatype Gained = Gained(time: real, seconds: real)

  function GainSince(log: seq<Gained>, from: real): real {
    if log == [] then 0.0
    else
      var g := log[|log| - 1];
      GainSince(log[..|log| - 1], from) + if g.time >= from then g.seconds else 0.0
  }

  /** How the credit of a charge is bounded: by the skew per write, or by what the writes since the charge
      have really over-credited. */
  datatype Slack = PerWrite | Logged(log: seq<Gained>)

  function Tolerance(slack: Slack, born: real, writes: int): real {
    match slack
    case PerWrite => CLOCK_SKEW_S * writes as real
    case Logged(log) => GainSince(log, born)
  }

  /** The bound after one more write. */
  function Noted(slack: Slack, past: Sample, now: Sample): Slack {
    match slack
    case PerWrite => PerWrite
    case Logged(log) => Logged(log + [Gained(now.time, Gain(past, now))])
  }

  lemma GainNoted(log: seq<Gained>, g: Gained, from: real)
    ensures GainSince(log + [g], from) == GainSince(log, from) + if g.time >= from then g.seconds else 0.0
  {
    assert (log + [g])[..|log|] == log;
  }

  /** At the last write (`at`), a charge in the ledger was credited with at most its true age plus the
      tolerance of the writes after its own; a charge no longer in it had been credited a full window. */
  ghost predicate SoundRecord(r: Record, at: Sample, window: real, slack: Slack) {
    && r.airtime > 0.0 && r.born <= at.time && r.writes >= 1
    && (r.live ==> at.clock.wall - r.stamp <= at.time - r.born + Tolerance(slack, r.born, r.writes - 1))
    && (!r.live ==> window <= at.time - r.born + Tolerance(slack, r.born, r.writes))
  }

  ghost predicate Sound(h: seq<Record>, at: Sample, window: real, slack: Slack) {
    forall r <- h :: SoundRecord(r, at, window, slack)
  }

  /** One more write tolerates what its reading over-credits. */
  lemma NotedTolerance(origin: nat -> real, slack: Slack, at: Sample, now: Sample, born: real, writes: nat)
    requires Physical(origin, at) && Physical(origin, now) && born <= at.time <= now.time && writes >= 1
    ensures Tolerance(Noted(slack, at, now), born, writes)
         >= Tolerance(slack, born, writes - 1) + Gain(at, now)
    ensures Tolerance(Noted(slack, at, now), born, writes) >= Tolerance(slack, born, writes)
  {
    OverCreditBound(origin, at, now);
    if slack.Logged? {
      GainNoted(slack.log, Gained(now.time, Gain(at, now)), born);
    }
  }

  lemma AgedCredit(origin: nat -> real, r: Record, at: Sample, now: Sample, window: real, slack: Slack)
    requires SoundRecord(r, at, window, slack)
    requires Physical(origin, at) && Physical(origin, now) && at.time <= now.time
    ensures var v := Aged(r, at.clock, now.clock, window);
            var tolerance := Tolerance(Noted(slack, at, now), r.born, r.writes);
            && (v.live ==> now.clock.wall - v.stamp <= now.time - r.born + tolerance)
            && (!v.live ==> window <= now.time - r.born + tolerance)
  {
    NotedTolerance(origin, slack, at, now, r.born, r.writes);
  }

  lemma AgedIsSound(origin: nat -> real, r: Record, at: Sample, now: Sample, window: real, slack: Slack)
    requires SoundRecord(r, at, window, slack)
    requires Physical(origin, at) && Physical(origin, now) && at.time <= now.time
    ensures var v := Aged(r, at.clock, now.clock, window);
            SoundRecord(v.(writes := r.writes + 1), now, window, Noted(slack, at, now)) && v.writes == r.writes
  {
    AgedCredit(origin, r, at, now, window, slack);
  }

  /** No charge that is still inside the window in true time (less the tolerance) is missing from what
      an operation sees. */
  lemma NothingUnexpiredMissing(origin: nat -> real, h: seq<Record>, at: Sample, now: Sample, window: real,
                                slack: Slack)
    requires Sound(h, at, window, slack)
    requires Physical(origin, at) && Physical(origin, now) && at.time <= now.time
    ensures var v, noted := View(h, at.clock, now.clock, window), Noted(slack, at, now);
            && |v| == |h|
            && forall i :: 0 <= i < |h| ==>
                 now.time - h[i].born + Tolerance(noted, h[i].born, h[i].writes) < window ==> v[i].live
  {
    var v, noted := View(h, at.clock, now.clock, window), Noted(slack, at, now);
    ViewAt(h, at.clock, now.clock, window);
    forall i | 0 <= i < |h|
      ensures now.time - h[i].born + Tolerance(noted, h[i].born, h[i].writes) < window ==> v[i].live
    {
      AgedCredit(origin, h[i], at, now, window, slack);
    }
  }

  lemma PersistKeepsSound(origin: nat -> real, h: seq<Record>, at: Sample, now: Sample, window: real, slack: Slack)
    requires Sound(h, at, window, slack)
    requires Physical(origin, at) && Physical(origin, now) && at.time <= now.time
    ensures Sound(Persisted(h, at.clock, now.clock, window), now, window, Noted(slack, at, now))
  {
    var v := View(h, at.clock, now.clock, window);
    ViewAt(h, at.clock, now.clock, window);
    CountedAt(v);
    var p := Persisted(h, at.clock, now.clock, window);
    forall i | 0 <= i < |p|
      ensures SoundRecord(p[i], now, window, Noted(slack, at, now))
    {
      AgedIsSound(origin, h[i], at, now, window, slack);
    }
  }

  // ---------------------------------------------------------------------------
  // What the writes of a window of true time have over-credited

  function GainIn(log: seq<Gained>, end: real, window: real): real {
    if log == [] then 0.0
    else
      var g := log[|log| - 1];
      GainIn(log[..|log| - 1], end, window) + if end - window < g.time <= end then g.seconds else 0.0
  }

  /** No window of this length holds more than `slack` seconds of over-credit. */
  ghost predicate Budget(log: seq<Gained>, window: real, slack: real) {
    forall end: real :: GainIn(log, end, window) <= slack
  }

  /** Gains are not negative, and none is later than `time`. */
  ghost predicate Orderly(log: seq<Gained>, time: real) {
    forall g <- log :: g.seconds >= 0.0 && g.time <= time
  }

  lemma {:induction false} SinceIsWithin(log: seq<Gained>, from: real, end: real, window: real)
    requires Orderly(log, end) && end - window < from
    ensures 0.0 <= GainSince(log, from) <= GainIn(log, end, window)
  {
    if log != [] {
      assert log[|log| - 1] in log;
      SinceIsWithin(log[..|log| - 1], from, end, window);
    }
  }

  lemma {:induction false} EarlierGains(log: seq<Gained>, more: seq<Gained>, end: real, window: real)
    requires forall g <- more :: g.seconds >= 0.0
    ensures GainIn(log, end, window) <= GainIn(log + more, end, window)
  {
    if more == [] {
      assert log + more == log;
    } else {
      var n := |more| - 1;
      assert more[n] in more && log + more == (log + more[..n]) + [more[n]];
      EarlierGains(log, more[..n], end, window);
    }
  }

  /** A budget kept to the end was kept all along. */
  lemma EarlierBudget(log: seq<Gained>, more: seq<Gained>, window: real, slack: real)
    requires (forall g <- more :: g.seconds >= 0.0) && Budget(log + more, window, slack)
    ensures Budget(log, window, slack)
  {
    forall end: real
      ensures GainIn(log, end, window) <= slack
    {
      EarlierGains(log, more, end, window);
    }
  }

  /** Writes that over-credited nothing at all. */
  ghost predicate NoGains(log: seq<Gained>) {
    forall g <- log :: g.seconds == 0.0
  }

  lemma {:induction false} NothingGained(log: seq<Gained>, from: real, end: real, window: real)
    requires NoGains(log)
    ensures GainSince(log, from) == 0.0 && GainIn(log, end, window) == 0.0
  {
    if log != [] {
      assert log[|log| - 1] in log;
      NothingGained(log[..|log| - 1], from, end, window);
    }
  }

  /** Then no charge is credited with more than its true age. */
  lemma SoundWithoutGains(h: seq<Record>, at: Sample, window: real, log: seq<Gained>)
    requires NoGains(log) && Sound(h, at, window, Logged(log))
    ensures Sound(h, at, window, Logged([]))
  {
    forall r | r in h
      ensures SoundRecord(r, at, window, Logged([]))
    {
      assert SoundRecord(r, at, window, Logged(log));
      NothingGained(log, r.born, 0.0, 0.0);
    }
  }

  // ---------------------------------------------------------------------------
  // Airtime charged in a window of true time

  predicate Within(r: Record, end: real, window: real) {
    end - window < r.born <= end
  }

  function Charged(h: seq<Record>, end: real, window: real): real {
    if h == [] then 0.0
    else Charged(h[..|h| - 1], end, window) + if Within(h[|h| - 1], end, window) then h[|h| - 1].airtime else 0.0
  }

  function Charges(h: seq<Record>, end: real, window: real): nat {
    if h == [] then 0
    else Charges(h[..|h| - 1], end, window) + if Within(h[|h| - 1], end, window) then 1 else 0
  }

  /** Seconds times 100 never above the cap, in every window of this length ending at any instant. */
  ghost predicate Capped(h: seq<Record>, window: real, cap: real) {
    forall end: real :: Charged(h, end, window) * 100.0 <= cap
  }

  /** The same, except that a window may hold one single charge of any length. */
  ghost predicate CappedOrLone(h: seq<Record>, window: real, cap: real) {
    forall end: real :: Charged(h, end, window) * 100.0 <= cap || Charges(h, end, window) == 1
  }

  /** In every window shorter than the long one by the slack, ending at any instant, at most the airtime
      of the long limit was charged. With no slack this is the limit itself. */
  ghost predicate LongKept(h: seq<Record>, limits: Limits, slack: real) {
    Capped(h, limits.longWindow - slack, limits.longLimit * limits.longWindow)
  }

  /** The same for the short window, except that it may hold a single packet of any length. */
  ghost predicate ShortKept(h: seq<Record>, limits: Limits, slack: real) {
    CappedOrLone(h, limits.shortWindow - slack, limits.shortLimit * limits.shortWindow)
  }

  /** Two histories of the same charges, whatever their stamps. */
  ghost predicate SameCharges(h: seq<Record>, k: seq<Record>) {
    |h| == |k| && forall i :: 0 <= i < |h| ==> h[i].born == k[i].born && h[i].airtime == k[i].airtime
  }

  lemma {:induction false} SameChargesSum(h: seq<Record>, k: seq<Record>, end: real, window: real)
    requires SameCharges(h, k)
    ensures Charged(h, end, window) == Charged(k, end, window)
    ensures Charges(h, end, window) == Charges(k, end, window)
  {
    if h != [] {
      SameChargesSum(h[..|h| - 1], k[..|k| - 1], end, window);
    }
  }

  lemma PersistedSame(h: seq<Record>, past: Clock, now: Clock, window: real)
    ensures SameCharges(h, Persisted(h, past, now, window))
  {
    ViewAt(h, past, now, window);
    CountedAt(View(h, past, now, window));
  }

  lemma SameChargesKept(h: seq<Record>, k: seq<Record>, window: real, cap: real)
    requires SameCharges(h, k)
    ensures Capped(h, window, cap) ==> Capped(k, window, cap)
    ensures CappedOrLone(h, window, cap) ==> CappedOrLone(k, window, cap)
  {
    forall end: real
      ensures Charged(h, end, window) == Charged(k, end, window)
      ensures Charges(h, end, window) == Charges(k, end, window)
    {
      SameChargesSum(h, k, end, window);
    }
  }

  lemma SameLimitsKept(h: seq<Record>, k: seq<Record>, limits: Limits, slack: real)
    requires SameCharges(h, k) && LongKept(h, limits, slack) && ShortKept(h, limits, slack)
    ensures LongKept(k, limits, slack) && ShortKept(k, limits, slack)
  {
    SameChargesKept(h, k, limits.longWindow - slack, limits.longLimit * limits.longWindow);
    SameChargesKept(h, k, limits.shortWindow - slack, limits.shortLimit * limits.shortWindow);
  }

  /** If the records of a true window all still count in the window the operation looks at, then what it
      counts as used covers what was really charged. */
  lemma {:induction false} UsedCovers(v: seq<Record>, now: Sample, window: real, within: real)
    requires Counts(v, now, window, within)
    ensures Charged(v, now.time, within) <= Used(Live(v), window, now.clock.wall)
    ensures 0.0 <= Used(Live(v), window, now.clock.wall)
    ensures Charges(v, now.time, within) > 0 ==> Used(Live(v), window, now.clock.wall) > 0.0
    ensures Charges(v, now.time, within) == 0 ==> Charged(v, now.time, within) == 0.0
  {
    if v != [] {
      var n := |v| - 1;
      assert v[n] in v;
      UsedCovers(v[..n], now, window, within);
      if v[n].live {
        var rest, e := Live(v[..n]), Entry(v[n].stamp, v[n].airtime);
        assert (rest + [e])[..|rest|] == rest;
      } else {
        assert Live(v[..n]) + [] == Live(v[..n]);
      }
    }
  }

  /** A window that ends after the last charge holds no more than the one that ends at it. */
  lemma {:induction false} LaterWindow(h: seq<Record>, last: real, end: real, window: real)
    requires last <= end && forall r <- h :: r.airtime > 0.0 && r.born <= last
    ensures 0.0 <= Charged(h, end, window) <= Charged(h, last, window)
    ensures Charges(h, end, window) <= Charges(h, last, window)
    ensures Charges(h, end, window) == 0 ==> Charged(h, end, window) == 0.0
  {
    if h != [] {
      assert h[|h| - 1] in h;
      LaterWindow(h[..|h| - 1], last, end, window);
    }
  }

  /** The charge of a granted operation, added to what it saw. */
  function Extended(h: seq<Record>, at: Sample, now: Sample, window: real, airtime: real): seq<Record> {
    Persisted(h, at.clock, now.clock, window) + [NewCharge(now, airtime)]
  }

  lemma ExtendedSums(h: seq<Record>, at: Sample, now: Sample, long: real, airtime: real, end: real, window: real)
    ensures var k := Extended(h, at, now, long, airtime);
            var inside := Within(NewCharge(now, airtime), end, window);
            && Charged(k, end, window) == Charged(h, end, window) + (if inside then airtime else 0.0)
            && Charges(k, end, window) == Charges(h, end, window) + (if inside then 1 else 0)
  {
    var p := Persisted(h, at.clock, now.clock, long);
    var k := Extended(h, at, now, long, airtime);
    assert k[..|k| - 1] == p;
    PersistedSame(h, at.clock, now.clock, long);
    SameChargesSum(h, p, end, window);
  }

  /** A charge of a true window, short by the slack, is seen and counted in the window. */
  lemma SeenRecord(origin: nat -> real, r: Record, at: Sample, now: Sample, long: real, window: real,
                   log: seq<Gained>, slack: real)
    requires SoundRecord(r, at, long, Logged(log)) && window <= long && 0.0 <= slack
    requires Physical(origin, at) && Physical(origin, now) && at.time <= now.time && Orderly(log, at.time)
    requires GainIn(log + [Gained(now.time, Gain(at, now))], now.time, long) <= slack
    requires Within(r, now.time, window - slack)
    ensures var v := Aged(r, at.clock, now.clock, long); v.live && v.stamp > now.clock.wall - window
  {
    AgedCredit(origin, r, at, now, long, Logged(log));
    SinceIsWithin(log + [Gained(now.time, Gain(at, now))], r.born, now.time, long);
  }

  /** Every charge of the shorter true window counts in the window the operation looks at. */
  ghost predicate Counts(v: seq<Record>, now: Sample, window: real, within: real) {
    && (forall r <- v :: r.airtime > 0.0)
    && (forall r <- v :: Within(r, now.time, within) ==> r.live && r.stamp > now.clock.wall - window)
  }

  lemma ViewCounts(origin: nat -> real, h: seq<Record>, at: Sample, now: Sample, long: real, window: real,
                   log: seq<Gained>, slack: real)
    requires Sound(h, at, long, Logged(log)) && window <= long && 0.0 <= slack && Orderly(log, at.time)
    requires Physical(origin, at) && Physical(origin, now) && at.time <= now.time
    requires GainIn(log + [Gained(now.time, Gain(at, now))], now.time, long) <= slack
    ensures Counts(View(h, at.clock, now.clock, long), now, window, window - slack)
  {
    var v := View(h, at.clock, now.clock, long);
    ViewAt(h, at.clock, now.clock, long);
    forall i | 0 <= i < |v|
      ensures v[i].airtime > 0.0
      ensures Within(v[i], now.time, window - slack) ==> v[i].live && v[i].stamp > now.clock.wall - window
    {
      assert SoundRecord(h[i], at, long, Logged(log));
      if Within(v[i], now.time, window - slack) {
        SeenRecord(origin, h[i], at, now, long, window, log, slack);
      }
    }
  }

  /** What is used, as counted, covers the charges of the shorter true window. */
  ghost predicate Covers(h: seq<Record>, used: real, end: real, within: real) {
    && 0.0 <= Charged(h, end, within) <= used
    && (Charges(h, end, within) > 0 ==> used > 0.0)
    && (Charges(h, end, within) == 0 ==> Charged(h, end, within) == 0.0)
  }

  lemma CountedCovers(h: seq<Record>, v: seq<Record>, now: Sample, window: real, within: real)
    requires SameCharges(h, v) && Counts(v, now, window, within)
    requires forall r <- h :: r.airtime > 0.0 && r.born <= now.time
    ensures Covers(h, Used(Live(v), window, now.clock.wall), now.time, within)
  {
    UsedCovers(v, now, window, within);
    SameChargesSum(h, v, now.time, within);
    LaterWindow(h, now.time, now.time, within);
  }

  lemma SoundIsBorn(h: seq<Record>, at: Sample, window: real, slack: Slack)
    requires Sound(h, at, window, slack)
    ensures forall r <- h :: r.airtime > 0.0 && r.born <= at.time
  {
    forall r | r in h
      ensures r.airtime > 0.0 && r.born <= at.time
    {
      assert SoundRecord(r, at, window, slack);
    }
  }

  /** So for what the operation sees. */
  lemma SeenInWindow(h: seq<Record>, at: Sample, now: Sample, long: real, window: real, within: real)
    requires Counts(View(h, at.clock, now.clock, long), now, window, within)
    requires forall r <- h :: r.airtime > 0.0 && r.born <= now.time
    ensures Covers(h, Used(Live(View(h, at.clock, now.clock, long)), window, now.clock.wall), now.time, within)
  {
    ViewAt(h, at.clock, now.clock, long);
    CountedCovers(h, View(h, at.clock, now.clock, long), now, window, within);
  }

  /** A grant as the short window sees it, in multiplied-out form. */
  lemma ShortMeans(limits: Limits, entries: seq<Entry>, airtime: real, now: real)
    requires limits.Valid() && Decide(limits, entries, airtime, now) == None
    ensures var short := Used(entries, limits.shortWindow, now);
            short <= 0.0 || (short + airtime) * 100.0 <= limits.shortLimit * limits.shortWindow
  {
    PercentAtMost(Used(entries, limits.shortWindow, now) + airtime, limits.shortWindow, limits.shortLimit);
  }

  lemma LongMeans(limits: Limits, entries: seq<Entry>, airtime: real, now: real)
    requires limits.Valid() && Decide(limits, entries, airtime, now) == None
    ensures (Used(entries, limits.longWindow, now) + airtime) * 100.0 <= limits.longLimit * limits.longWindow
  {
    PercentAtMost(Used(entries, limits.longWindow, now) + airtime, limits.longWindow, limits.longLimit);
  }

  /** A new charge that is alone in the window ending at it, or fits it, keeps every window. */
  lemma LoneOrFits(h: seq<Record>, at: Sample, now: Sample, long: real, airtime: real, window: real, cap: real)
    requires airtime > 0.0 && forall r <- h :: r.airtime > 0.0 && r.born <= now.time
    requires CappedOrLone(h, window, cap)
    requires (Charged(h, now.time, window) + airtime) * 100.0 <= cap || Charges(h, now.time, window) == 0
    ensures CappedOrLone(Extended(h, at, now, long, airtime), window, cap)
  {
    forall end: real
      ensures var k := Extended(h, at, now, long, airtime);
              Charged(k, end, window) * 100.0 <= cap || Charges(k, end, window) == 1
    {
      ExtendedSums(h, at, now, long, airtime, end, window);
      if now.time <= end {
        LaterWindow(h, now.time, end, window);
      }
    }
  }

  lemma Fits(h: seq<Record>, at: Sample, now: Sample, long: real, airtime: real, window: real, cap: real)
    requires airtime > 0.0 && forall r <- h :: r.airtime > 0.0 && r.born <= now.time
    requires Capped(h, window, cap)
    requires (Charged(h, now.time, window) + airtime) * 100.0 <= cap
    ensures Capped(Extended(h, at, now, long, airtime), window, cap)
  {
    forall end: real
      ensures Charged(Extended(h, at, now, long, airtime), end, window) * 100.0 <= cap
    {
      ExtendedSums(h, at, now, long, airtime, end, window);
      if now.time <= end {
        LaterWindow(h, now.time, end, window);
      }
    }
  }

  /** What an operation at `now` sees: every charge of a window that is short by the slack counts. */
  ghost predicate Sees(h: seq<Record>, at: Sample, now: Sample, long: real, window: real, slack: real) {
    && (forall r <- h :: r.airtime > 0.0 && r.born <= now.time)
    && Counts(View(h, at.clock, now.clock, long), now, window, window - slack)
  }

  lemma SeesWindow(origin: nat -> real, h: seq<Record>, at: Sample, now: Sample, long: real, window: real,
                   log: seq<Gained>, slack: real)
    requires Sound(h, at, long, Logged(log)) && window <= long && 0.0 <= slack && Orderly(log, at.time)
    requires Physical(origin, at) && Physical(origin, now) && at.time <= now.time
    requires GainIn(log + [Gained(now.time, Gain(at, now))], now.time, long) <= slack
    ensures Sees(h, at, now, long, window, slack)
  {
    ViewCounts(origin, h, at, now, long, window, log, slack);
    SoundIsBorn(h, at, long, Logged(log));
  }

  lemma ChargeKeepsLong(h: seq<Record>, at: Sample, now: Sample, long: real, airtime: real, cap: real, slack: real)
    requires airtime > 0.0 && Sees(h, at, now, long, long, slack) && Capped(h, long - slack, cap)
    requires var used := Used(Live(View(h, at.clock, now.clock, long)), long, now.clock.wall);
             (used + airtime) * 100.0 <= cap
    ensures Capped(Extended(h, at, now, long, airtime), long - slack, cap)
  {
    SeenInWindow(h, at, now, long, long, long - slack);
    Fits(h, at, now, long, airtime, long - slack, cap);
  }

  lemma ChargeKeepsShort(h: seq<Record>, at: Sample, now: Sample, long: real, short: real, airtime: real, cap: real,
                         slack: real)
    requires airtime > 0.0 && Sees(h, at, now, long, short, slack) && CappedOrLone(h, short - slack, cap)
    requires var used := Used(Live(View(h, at.clock, now.clock, long)), short, now.clock.wall);
             used <= 0.0 || (used + airtime) * 100.0 <= cap
    ensures CappedOrLone(Extended(h, at, now, long, airtime), short - slack, cap)
  {
    SeenInWindow(h, at, now, long, short, short - slack);
    LoneOrFits(h, at, now, long, airtime, short - slack, cap);
  }

  lemma ChargeKeepsCaps(h: seq<Record>, at: Sample, now: Sample, long: real, short: real, airtime: real,
                        longCap: real, shortCap: real, slack: real)
    requires airtime > 0.0 && Sees(h, at, now, long, long, slack) && Sees(h, at, now, long, short, slack)
    requires Capped(h, long - slack, longCap) && CappedOrLone(h, short - slack, shortCap)
    requires var entries := Live(View(h, at.clock, now.clock, long));
             var used := Used(entries, short, now.clock.wall);
             && (used <= 0.0 || (used + airtime) * 100.0 <= shortCap)
             && (Used(entries, long, now.clock.wall) + airtime) * 100.0 <= longCap
    ensures Capped(Extended(h, at, now, long, airtime), long - slack, longCap)
    ensures CappedOrLone(Extended(h, at, now, long, airtime), short - slack, shortCap)
  {
    ChargeKeepsLong(h, at, now, long, airtime, longCap, slack);
    ChargeKeepsShort(h, at, now, long, short, airtime, shortCap, slack);
  }

  /** A granted charge keeps both windows, at every instant, although pruned entries are gone for good;
      short by what the writes of the last long window have over-credited. */
  lemma ChargeKeepsWindows(origin: nat -> real, h: seq<Record>, at: Sample, now: Sample, limits: Limits, airtime: real,
                           log: seq<Gained>, slack: real)
    requires limits.Valid() && airtime > 0.0 && 0.0 <= slack
    requires Sound(h, at, limits.longWindow, Logged(log)) && Orderly(log, at.time)
    requires Physical(origin, at) && Physical(origin, now) && at.time <= now.time
    requires GainIn(log + [Gained(now.time, Gain(at, now))], now.time, limits.longWindow) <= slack
    requires LongKept(h, limits, slack) && ShortKept(h, limits, slack)
    requires Decide(limits, Live(View(h, at.clock, now.clock, limits.longWindow)), airtime, now.clock.wall) == None
    ensures LongKept(Extended(h, at, now, limits.longWindow, airtime), limits, slack)
    ensures ShortKept(Extended(h, at, now, limits.longWindow, airtime), limits, slack)
  {
    var long, short := limits.longWindow, limits.shortWindow;
    SeesWindow(origin, h, at, now, long, long, log, slack);
    SeesWindow(origin, h, at, now, long, short, log, slack);
    GrantKeepsWindows(h, at, now, limits, airtime, slack);
  }

  lemma GrantKeepsWindows(h: seq<Record>, at: Sample, now: Sample, limits: Limits, airtime: real, slack: real)
    requires limits.Valid() && airtime > 0.0
    requires Sees(h, at, now, limits.longWindow, limits.longWindow, slack)
    requires Sees(h, at, now, limits.longWindow, limits.shortWindow, slack)
    requires LongKept(h, limits, slack) && ShortKept(h, limits, slack)
    requires Decide(limits, Live(View(h, at.clock, now.clock, limits.longWindow)), airtime, now.clock.wall) == None
    ensures LongKept(Extended(h, at, now, limits.longWindow, airtime), limits, slack)
    ensures ShortKept(Extended(h, at, now, limits.longWindow, airtime), limits, slack)
  {
    var entries := Live(View(h, at.clock, now.clock, limits.longWindow));
    LongMeans(limits, entries, airtime, now.clock.wall);
    ShortMeans(limits, entries, airtime, now.clock.wall);
    ChargeKeepsCaps(h, at, now, limits.longWindow, limits.shortWindow, airtime,
                    limits.longLimit * limits.longWindow, limits.shortLimit * limits.shortWindow, slack);
  }

  lemma ChargeKeepsSound(origin: nat -> real, h: seq<Record>, at: Sample, now: Sample, window: real, airtime: real,
                         slack: Slack)
    requires airtime > 0.0 && Sound(h, at, window, slack) && (slack.Logged? ==> Orderly(slack.log, at.time))
    requires Physical(origin, at) && Physical(origin, now) && at.time <= now.time
    ensures Sound(Extended(h, at, now, window, airtime), now, window, Noted(slack, at, now))
  {
    PersistKeepsSound(origin, h, at, now, window, slack);
    if slack.Logged? {
      SinceIsWithin(Noted(slack, at, now).log, now.time, now.time, 1.0);
    }
  }

  // ---------------------------------------------------------------------------
  // With a clock that keeps true time within one boot, nothing is approximate

  /** The clock reads true time plus a fixed offset. */
  ghost predicate OnTime(now: Sample, offset: real) {
    now.clock.wall == now.time + offset
  }

  ghost predicate ExactRecord(r: Record, at: Sample, window: real, offset: real) {
    && r.airtime > 0.0 && r.born <= at.time
    && (r.live ==> r.stamp == r.born + offset)
    && (!r.live ==> r.born <= at.time - window)
  }

  ghost predicate Exact(h: seq<Record>, at: Sample, window: real, offset: real) {
    forall r <- h :: ExactRecord(r, at, window, offset)
  }

  lemma AgedExact(origin: nat -> real, r: Record, at: Sample, now: Sample, window: real, offset: real)
    requires ExactRecord(r, at, window, offset) && at.time <= now.time && at.clock.boot == now.clock.boot
    requires Physical(origin, at) && Physical(origin, now) && OnTime(at, offset) && OnTime(now, offset)
    ensures var v := Aged(r, at.clock, now.clock, window);
            && ExactRecord(v, now, window, offset) && v.born == r.born && v.airtime == r.airtime
            && (v.live <==> r.born > now.time - window)
  {
    assert Shift(at.clock, now.clock) == 0.0;
  }

  lemma ViewExact(origin: nat -> real, h: seq<Record>, at: Sample, now: Sample, window: real, offset: real)
    requires Exact(h, at, window, offset) && at.time <= now.time && at.clock.boot == now.clock.boot
    requires Physical(origin, at) && Physical(origin, now) && OnTime(at, offset) && OnTime(now, offset)
    ensures var v := View(h, at.clock, now.clock, window);
            && Exact(v, now, window, offset) && SameCharges(h, v)
            && Exact(Persisted(h, at.clock, now.clock, window), now, window, offset)
            && forall r <- v :: r.live <==> r.born > now.time - window
  {
    var v := View(h, at.clock, now.clock, window);
    ViewAt(h, at.clock, now.clock, window);
    CountedAt(v);
    forall i | 0 <= i < |v|
      ensures ExactRecord(v[i], now, window, offset) && (v[i].live <==> v[i].born > now.time - window)
    {
      AgedExact(origin, h[i], at, now, window, offset);
    }
  }

  lemma {:induction false} UsedIsCharged(v: seq<Record>, now: Sample, window: real, offset: real)
    requires OnTime(now, offset)
    requires forall r <- v :: r.born <= now.time
    requires forall r <- v :: r.live ==> r.stamp == r.born + offset
    requires forall r <- v :: !r.live ==> r.born <= now.time - window
    ensures Used(Live(v), window, now.clock.wall) == Charged(v, now.time, window)
  {
    if v != [] {
      var n := |v| - 1;
      assert v[n] in v;
      UsedIsCharged(v[..n], now, window, offset);
      var rest := Live(v[..n]);
      if v[n].live {
        assert (rest + [Entry(v[n].stamp, v[n].airtime)])[..|rest|] == rest;
      } else {
        assert rest + [] == rest;
      }
    }
  }

  /** Both windows, as the operation counts them, are exactly what was charged in true time. */
  lemma CountsTheTrueWindow(origin: nat -> real, h: seq<Record>, at: Sample, now: Sample, long: real, window: real,
                            offset: real)
    requires Exact(h, at, long, offset) && at.time <= now.time && at.clock.boot == now.clock.boot && window <= long
    requires Physical(origin, at) && Physical(origin, now) && OnTime(at, offset) && OnTime(now, offset)
    ensures Used(Live(View(h, at.clock, now.clock, long)), window, now.clock.wall) == Charged(h, now.time, window)
  {
    var v := View(h, at.clock, now.clock, long);
    ViewExact(origin, h, at, now, long, offset);
    assert forall r <- v :: ExactRecord(r, now, long, offset);
    UsedIsCharged(v, now, window, offset);
    SameChargesSum(h, v, now.time, window);
  }

  lemma EmptyKept(limits: Limits)
    requires limits.Valid()
    ensures forall slack: real :: LongKept([], limits, slack) && ShortKept([], limits, slack)
  {
    assert 0.0 <= limits.longLimit * limits.longWindow && 0.0 <= limits.shortLimit * limits.shortWindow;
  }
}
