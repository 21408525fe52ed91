/** The condition on the wall clock under which the limits hold is needed: every gain it rules out can
    break them. */
module HiddenGains {
  import opened Common
  import opened Ledger
  import opened History
  import opened Claims
  import opened DutyProtocol
  import opened DutyCalls
  import opened DutyGuarantees

  /** A sample of boot 0 at this instant, the wall clock reading `wall`. */
  function SampleAt(env: Env, time: real, wall: real): Sample {
    Sample(time, Clock(0, time - env.origin(0), wall))
  }

  /** The longest packet that the long limit admits. */
  function LongestPacket(limits: Limits): real {
    limits.longLimit * limits.longWindow / 100.0
  }

  lemma LongestFits(limits: Limits)
    requires limits.Valid() && limits.longLimit > 0.0
    ensures LongestPacket(limits) > 0.0
    ensures Percent(LongestPacket(limits), limits.longWindow) <= limits.longLimit
  {
    assert limits.longLimit * limits.longWindow > 0.0;
    PercentAtMost(LongestPacket(limits), limits.longWindow, limits.longLimit);
  }

  /** A first call on an empty directory. */
  lemma FirstGrant(limits: Limits, airtime: real, now: Clock)
    requires limits.Valid() && Percent(airtime, limits.longWindow) <= limits.longLimit
    ensures Reserve(limits, Absent, true, airtime, now, RELIABLE)
         == (None, Stored(true, Some(now), [Entry(now.wall, airtime)]))
  {
    assert Decide(limits, [], airtime, now.wall) == None;
    assert [] + [Entry(now.wall, airtime)] == [Entry(now.wall, airtime)];
  }

  /** A ledger whose one entry reads a whole window old is read as it is, and nothing of it is kept. */
  lemma ReadsExpired(limits: Limits, airtime: real, past: Clock, now: Clock)
    requires limits.Valid() && airtime > 0.0
    requires Shift(past, now) == 0.0 && past.wall == now.wall - limits.longWindow
    ensures var entries := [Entry(past.wall, airtime)];
            && Read(Stored(true, Some(past), entries), false, now) == Success(Reading(entries, false))
            && Kept(limits, Reading(entries, false), now) == []
  {
    var entries := [Entry(past.wall, airtime)];
    RebaseByZero(entries);
    assert Plausible(entries[0], now);
    assert Prune(entries, now.wall - limits.longWindow) == [] by {
      assert entries[..0] == [];
    }
  }

  /** So a second call is granted. */
  lemma SecondGrant(limits: Limits, airtime: real, past: Clock, now: Clock)
    requires limits.Valid() && airtime > 0.0 && Percent(airtime, limits.longWindow) <= limits.longLimit
    requires Shift(past, now) == 0.0 && past.wall == now.wall - limits.longWindow
    ensures var disk := Stored(true, Some(past), [Entry(past.wall, airtime)]);
            Reserve(limits, disk, false, airtime, now, RELIABLE).0 == None
  {
    ReadsExpired(limits, airtime, past, now);
    assert Decide(limits, [], airtime, now.wall) == None;
  }

  /** Two undisturbed calls on an empty directory, both of which the account grants. */
  lemma TwoGrants(env: Env, p: nat, airtime: real, now0: Sample, now1: Sample) returns (run: seq<Label>, e: State)
    requires env.limits.Valid() && airtime > 0.0 && 0.0 == now0.time <= now1.time
    requires Physical(env.origin, now0) && Physical(env.origin, now1)
    requires Reserve(env.limits, Absent, true, airtime, now0.clock, RELIABLE).0 == None
    requires var disk := Reserve(env.limits, Absent, true, airtime, now0.clock, RELIABLE).1;
             Reserve(env.limits, disk, false, airtime, now1.clock, RELIABLE).0 == None
    ensures Leads(env, Start({p}), run, e)
    ensures |e.history| == 2 && e.history[0].born == now0.time && e.history[1].born == now1.time
    ensures e.history[0].airtime == e.history[1].airtime == airtime
    ensures e.granted == [Claim(0, airtime), Claim(1, airtime)]
  {
    var s0 := Start({p});
    var run1, s1 := SoloCallIsReserve(env, s0, p, airtime, now0, RELIABLE);
    assert GrantedOne(s0, s1, now0, airtime) && s1.granted == [Claim(0, airtime)];
    var run2, s2 := Then(env, s0, run1, s1, Tick(now1.time));
    var run3, s3 := SoloCallIsReserve(env, s2, p, airtime, now1, RELIABLE);
    assert GrantedOne(s2, s3, now1, airtime);
    run := Joined(env, s0, run2, s2, run3, s3);
    e := s3;
  }

  /** Two calls for the longest packet, the wall clock gaining `gain` between them: both are granted. */
  lemma TwoCalls(env: Env, p: nat, gain: real) returns (run: seq<Label>, e: State)
    requires env.limits.Valid() && env.limits.longLimit > 0.0
    requires 0.0 < gain <= CLOCK_SKEW_S && gain <= env.limits.longWindow
    ensures Leads(env, Start({p}), run, e)
    ensures var long, airtime := env.limits.longWindow, LongestPacket(env.limits);
            && |e.history| == 2 && e.history[0].born == 0.0 && e.history[1].born == long - gain
            && e.history[0].airtime == e.history[1].airtime == airtime
            && e.granted == [Claim(0, airtime), Claim(1, airtime)]
  {
    var long, airtime := env.limits.longWindow, LongestPacket(env.limits);
    LongestFits(env.limits);
    var now0, now1 := SampleAt(env, 0.0, 0.0), SampleAt(env, long - gain, long);
    FirstGrant(env.limits, airtime, now0.clock);
    SecondGrant(env.limits, airtime, now0.clock, now1.clock);
    run, e := TwoGrants(env, p, airtime, now0, now1);
  }

  /** For every account with a positive long limit and every gain of at most the skew: a run of two calls,
      the wall clock gaining just that much between them, grants twice the long limit inside one window
      of true time. Windows that are short by less than the gain are broken too: the slack the limits are
      proved with cannot be smaller than what the clock gains. */
  lemma HiddenGainBreaksTheLimit(env: Env, p: nat, gain: real) returns (run: seq<Label>)
    requires env.limits.Valid() && env.limits.longLimit > 0.0
    requires 0.0 < gain <= CLOCK_SKEW_S && gain <= env.limits.longWindow
    ensures Legal(env, Start({p}), run) && !QuietRun(env, Start({p}), run)
    ensures var s := Exec(env, Start({p}), run);
            && InRange(s.history, s.granted)
            && forall slack: real :: 0.0 <= slack < gain ==>
                 && !LongKept(s.history, env.limits, slack) && !LongGranted(s.history, s.granted, env.limits, slack)
                 && !Budget(GainLog(env, Start({p}), run), env.limits.longWindow, slack)
  {
    var e;
    run, e := TwoCalls(env, p, gain);
    forall slack: real | 0.0 <= slack < gain
      ensures InRange(e.history, e.granted)
      ensures !LongKept(e.history, env.limits, slack) && !LongGranted(e.history, e.granted, env.limits, slack)
      ensures !Budget(GainLog(env, Start({p}), run), env.limits.longWindow, slack)
    {
      TwiceTheLimit(env.limits, e.history, e.granted, gain, slack);
      OverBudget(env, p, run, slack);
    }
    NotQuiet(env, p, run);
  }

  lemma OverBudget(env: Env, p: nat, run: seq<Label>, slack: real)
    requires env.limits.Valid() && Legal(env, Start({p}), run) && 0.0 <= slack
    requires !LongKept(Exec(env, Start({p}), run).history, env.limits, slack)
    ensures !Budget(GainLog(env, Start({p}), run), env.limits.longWindow, slack)
  {
    if Budget(GainLog(env, Start({p}), run), env.limits.longWindow, slack) {
      AirtimeWithinBudget(env, {p}, run, slack);
      assert false;
    }
  }

  lemma NotQuiet(env: Env, p: nat, run: seq<Label>)
    requires env.limits.Valid() && Legal(env, Start({p}), run)
    requires !LongKept(Exec(env, Start({p}), run).history, env.limits, 0.0)
    ensures !QuietRun(env, Start({p}), run)
  {
    if QuietRun(env, Start({p}), run) {
      AirtimeWithinLimits(env, {p}, run);
      assert false;
    }
  }

  lemma {:induction false} Joined(env: Env, s: State, a: seq<Label>, m: State, b: seq<Label>, e: State)
      returns (run: seq<Label>)
    requires Leads(env, s, a, m) && Leads(env, m, b, e)
    ensures Leads(env, s, run, e)
    decreases |b|
  {
    run := a;
    if b != [] {
      var a', m' := Then(env, s, a, m, b[0]);
      run := Joined(env, s, a', m', b[1..], e);
    }
  }

  lemma TwoInOneWindow(h: seq<Record>, gs: seq<Claim>, airtime: real, end: real, window: real)
    requires |h| == 2 && Within(h[0], end, window) && Within(h[1], end, window)
    requires h[0].airtime == h[1].airtime == airtime && gs == [Claim(0, airtime), Claim(1, airtime)]
    ensures InRange(h, gs)
    ensures Charged(h, end, window) == Claimed(h, gs, end, window) == 2.0 * airtime
  {
    assert h[..1] == [h[0]] && h[..1][..0] == [] && gs[..1] == [gs[0]] && gs[..1][..0] == [];
    assert Charged(h[..1], end, window) == airtime;
    assert Claimed(h, gs[..1], end, window) == airtime;
  }

  lemma TwiceTheLimit(limits: Limits, h: seq<Record>, gs: seq<Claim>, gain: real, slack: real)
    requires limits.Valid() && limits.longLimit > 0.0 && 0.0 <= slack < gain <= limits.longWindow
    requires |h| == 2 && h[0].born == 0.0 && h[1].born == limits.longWindow - gain
    requires h[0].airtime == h[1].airtime == LongestPacket(limits)
    requires gs == [Claim(0, LongestPacket(limits)), Claim(1, LongestPacket(limits))]
    ensures InRange(h, gs) && !LongKept(h, limits, slack) && !LongGranted(h, gs, limits, slack)
  {
    LongestFits(limits);
    TwoInOneWindow(h, gs, LongestPacket(limits), limits.longWindow - gain, limits.longWindow - slack);
  }
}
