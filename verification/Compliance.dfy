/** The parts together: an accepted configuration keeps every true hour under the legal ceiling. */
module Compliance {
  import opened Ledger
  import opened History
  import opened Claims
  import opened DutyProtocol
  import opened DutyGuarantees
  import opened Policy
  import Prepayment

  /** A configuration and the segment it is meant for. */
  datatype Setup = Setup(
    band: Band, frequency: real, bandwidth: real, shortLimit: real, longLimit: real, segment: Segment)
  {
    /** The constructor accepts it, and the segment is the one around its channel. */
    predicate Permitted() {
      && bandwidth > 0.0 && Accepts(band, frequency, bandwidth, shortLimit, longLimit)
      && segment in Segments(band) && Holds(segment, frequency, bandwidth)
    }

    /** An hour's share of the segment, in seconds. */
    function Share(): real {
      segment.pct / 100.0 * 3600.0
    }
  }

  /** The account as the constructor sets it up. */
  ghost predicate Runs(env: Env, setup: Setup) {
    env.limits == AccountLimits(setup.shortLimit, setup.longLimit)
  }

  /** An hour's airtime by this account's limit is at most `bound` seconds. */
  ghost predicate Bounded(env: Env, bound: real) {
    env.limits.Valid() && env.limits.longWindow == 3600.0 && env.limits.longLimit * 3600.0 <= bound * 100.0
  }

  /** The account of a permitted configuration is bounded by the share of the one segment around it. */
  lemma PermittedIsBounded(env: Env, setup: Setup)
    requires setup.Permitted() && Runs(env, setup)
    ensures Bounded(env, setup.Share())
    ensures forall g <- Segments(setup.band) :: Holds(g, setup.frequency, setup.bandwidth) ==> g == setup.segment
  {
    CeilingIsTheSegments(setup.band, setup.frequency, setup.bandwidth);
  }

  /** A run in which no hour of true time lets through more than the slack of hidden gain. */
  ghost predicate Budgeted(env: Env, procs: set<nat>, run: seq<Label>, slack: real) {
    && env.limits.Valid() && 0.0 <= slack && Legal(env, Start(procs), run)
    && Budget(GainLog(env, Start(procs), run), env.limits.longWindow, slack)
  }

  lemma ChargedAtMost(env: Env, procs: set<nat>, run: seq<Label>, slack: real, end: real)
    requires Budgeted(env, procs, run, slack)
    ensures Charged(Exec(env, Start(procs), run).history, end, env.limits.longWindow - slack) * 100.0
         <= env.limits.longLimit * env.limits.longWindow
  {
    AirtimeWithinBudget(env, procs, run, slack);
  }

  lemma ChargedUnderBound(env: Env, procs: set<nat>, run: seq<Label>, slack: real, end: real, bound: real)
    requires Bounded(env, bound) && Budgeted(env, procs, run, slack)
    ensures Charged(Exec(env, Start(procs), run).history, end, 3600.0 - slack) <= bound
  {
    ChargedAtMost(env, procs, run, slack, end);
  }

  /** In the window that ends at `end`, charged and granted airtime are within the bound. */
  ghost predicate UnderBound(s: State, end: real, window: real, bound: real) {
    && Charged(s.history, end, window) <= bound
    && InRange(s.history, s.granted) && Claimed(s.history, s.granted, end, window) <= bound
  }

  /** Whatever the processes sharing the ledger do, crash, or lose: with a configuration the constructor
      accepts, in every stretch of true time that is an hour less the slack, ending at any instant, the
      airtime charged and the airtime granted are at most an hour's share of the one permitted segment
      around the channel. The slack is what the ledger's writes let the wall clock gain unnoticed within
      an hour. */
  lemma EveryStretchIsUnderTheCeiling(setup: Setup, env: Env, procs: set<nat>, run: seq<Label>, slack: real, end: real)
    requires setup.Permitted() && Runs(env, setup) && Budgeted(env, procs, run, slack)
    ensures UnderBound(Exec(env, Start(procs), run), end, 3600.0 - slack, setup.Share())
  {
    PermittedIsBounded(env, setup);
    ChargedUnderBound(env, procs, run, slack, end, setup.Share());
    GrantsArePrepaid(env, procs, run, end, 3600.0 - slack);
  }

  /** The burst guard of the same account: in every stretch of 15 seconds less the slack the airtime charged
      is within the short limit, or it is that of one packet. */
  lemma BurstsAreLimited(setup: Setup, env: Env, procs: set<nat>, run: seq<Label>, slack: real, end: real)
    requires setup.Permitted() && Runs(env, setup) && Budgeted(env, procs, run, slack)
    ensures var h := Exec(env, Start(procs), run).history;
            || Charged(h, end, 15.0 - slack) * 100.0 <= setup.shortLimit * 15.0
            || Charges(h, end, 15.0 - slack) == 1
  {
    AirtimeWithinBudget(env, procs, run, slack);
  }

  /** Without hidden gains, and so with any steady clock, this is every hour of true time. */
  lemma EveryHourIsUnderTheCeiling(setup: Setup, env: Env, procs: set<nat>, run: seq<Label>, end: real)
    requires setup.Permitted() && Runs(env, setup) && env.limits.Valid()
    requires Legal(env, Start(procs), run) && QuietRun(env, Start(procs), run)
    ensures UnderBound(Exec(env, Start(procs), run), end, 3600.0, setup.Share())
  {
    QuietMeansNoGains(env, Start(procs), run);
    NoGainsBudget(GainLog(env, Start(procs), run), env.limits.longWindow);
    EveryStretchIsUnderTheCeiling(setup, env, procs, run, 0.0, end);
  }

  /** With any number of interfaces reserving through the account. */
  lemma OnAirUnderBound(env: Prepayment.Env, procs: set<nat>, nodes: set<nat>, run: seq<Prepayment.Label>,
                        slack: real, delay: real, end: real, bound: real)
    requires env.Valid() && nodes <= procs && Prepayment.Legal(env, Prepayment.Start(procs, nodes), run)
    requires Bounded(env.duty, bound) && Budgeted(env.duty, procs, Prepayment.DutyRun(run), slack)
    ensures var s := Prepayment.Exec(env, Prepayment.Start(procs, nodes), run);
            Prepayment.OnAirWithin(s, end, 3600.0 - slack, delay, bound)
  {
    Prepayment.AccountRuns(env, Prepayment.Start(procs, nodes), run);
    ChargedUnderBound(env.duty, procs, Prepayment.DutyRun(run), slack, end, bound);
    Prepayment.OnAirAtMost(env, procs, nodes, run, end, 3600.0 - slack, delay, bound);
  }

  /** The same for what goes on the air, when it does: any number of interfaces reserving through the
      ledger, with any modem settings. If no frame is keyed later than `delay` after its charge, then in
      every stretch of true time that is an hour less the slack and the delay, the frames keyed take at
      most the segment's share of an hour. */
  lemma OnAirIsUnderTheCeiling(setup: Setup, env: Prepayment.Env, procs: set<nat>, nodes: set<nat>,
                               run: seq<Prepayment.Label>, slack: real, delay: real, end: real)
    requires setup.Permitted() && Runs(env.duty, setup)
    requires env.Valid() && nodes <= procs && Prepayment.Legal(env, Prepayment.Start(procs, nodes), run)
    requires Budgeted(env.duty, procs, Prepayment.DutyRun(run), slack)
    ensures var s := Prepayment.Exec(env, Prepayment.Start(procs, nodes), run);
            Prepayment.OnAirWithin(s, end, 3600.0 - slack, delay, setup.Share())
  {
    PermittedIsBounded(env.duty, setup);
    OnAirUnderBound(env, procs, nodes, run, slack, delay, end, setup.Share());
  }
}
