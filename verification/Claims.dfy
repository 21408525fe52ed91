/** Airtime held against charges: what callers were granted, and what was radiated on it, can be no more
    in any window of true time than what was charged there. */
module Claims {
  import opened History
  import opened Ledger

  /** Seconds on air that lean on one charge of the records. */
  datatype Claim = Claim(charge: nat, airtime: real)

  /** The claims on charges of the window that ends at `end`. */
  function Claimed(h: seq<Record>, cs: seq<Claim>, end: real, window: real): real
    requires InRange(h, cs)
  {
    if cs == [] then 0.0
    else
      var c := cs[|cs| - 1];
      Claimed(h, cs[..|cs| - 1], end, window) + if Within(h[c.charge], end, window) then c.airtime else 0.0
  }

  predicate InRange(h: seq<Record>, cs: seq<Claim>) {
    forall c <- cs :: c.charge < |h|
  }

  /** All the claims on one charge. */
  function ClaimedOn(cs: seq<Claim>, charge: nat): real {
    if cs == [] then 0.0
    else
      var c := cs[|cs| - 1];
      ClaimedOn(cs[..|cs| - 1], charge) + if c.charge == charge then c.airtime else 0.0
  }

  /** No charge is claimed beyond its airtime. */
  ghost predicate Covered(h: seq<Record>, cs: seq<Claim>) {
    InRange(h, cs) && forall i :: 0 <= i < |h| ==> ClaimedOn(cs, i) <= h[i].airtime
  }

  /** The claims on the first n charges that lie in the window, charge by charge. */
  function ByCharge(h: seq<Record>, cs: seq<Claim>, n: nat, end: real, window: real): real
    requires n <= |h|
  {
    if n == 0 then 0.0
    else
      ByCharge(h, cs, n - 1, end, window) + if Within(h[n - 1], end, window) then ClaimedOn(cs, n - 1) else 0.0
  }

  lemma {:induction false} NothingByCharge(h: seq<Record>, n: nat, end: real, window: real)
    requires n <= |h|
    ensures ByCharge(h, [], n, end, window) == 0.0
  {
    if n > 0 {
      NothingByCharge(h, n - 1, end, window);
    }
  }

  /** One more claim moves exactly one term of the sum. */
  lemma {:induction false} OneMoreClaim(h: seq<Record>, cs: seq<Claim>, c: Claim, n: nat, end: real, window: real)
    requires n <= |h| && c.charge < |h|
    ensures ByCharge(h, cs + [c], n, end, window) == ByCharge(h, cs, n, end, window)
            + if c.charge < n && Within(h[c.charge], end, window) then c.airtime else 0.0
  {
    if n > 0 {
      OneMoreClaim(h, cs, c, n - 1, end, window);
      assert (cs + [c])[..|cs|] == cs;
    }
  }

  /** Summing claim by claim is summing charge by charge. */
  lemma {:induction false} ClaimedByCharge(h: seq<Record>, cs: seq<Claim>, end: real, window: real)
    requires InRange(h, cs)
    ensures Claimed(h, cs, end, window) == ByCharge(h, cs, |h|, end, window)
  {
    if cs == [] {
      NothingByCharge(h, |h|, end, window);
    } else {
      var n := |cs| - 1;
      assert cs == cs[..n] + [cs[n]];
      ClaimedByCharge(h, cs[..n], end, window);
      OneMoreClaim(h, cs[..n], cs[n], |h|, end, window);
    }
  }

  lemma {:induction false} CoveredUpTo(h: seq<Record>, cs: seq<Claim>, n: nat, end: real, window: real)
    requires n <= |h| && Covered(h, cs)
    ensures ByCharge(h, cs, n, end, window) <= Charged(h[..n], end, window)
  {
    if n > 0 {
      CoveredUpTo(h, cs, n - 1, end, window);
      assert h[..n][..n - 1] == h[..n - 1];
    }
  }

  /** Covered claims on the charges of any window are at most what was charged in it. */
  lemma ClaimedAtMostCharged(h: seq<Record>, cs: seq<Claim>, end: real, window: real)
    requires Covered(h, cs)
    ensures Claimed(h, cs, end, window) <= Charged(h, end, window)
  {
    ClaimedByCharge(h, cs, end, window);
    CoveredUpTo(h, cs, |h|, end, window);
    assert h[..|h|] == h;
  }

  lemma {:induction false} UnclaimedIsZero(cs: seq<Claim>, charge: nat)
    requires forall c <- cs :: c.charge != charge
    ensures ClaimedOn(cs, charge) == 0.0
  {
    if cs != [] {
      assert cs[|cs| - 1] in cs;
      UnclaimedIsZero(cs[..|cs| - 1], charge);
    }
  }

  // ---------------------------------------------------------------------------
  // Grants: each one claims the whole of a charge of its own

  ghost predicate Distinct(gs: seq<Claim>) {
    forall i, j :: 0 <= i < j < |gs| ==> gs[i].charge != gs[j].charge
  }

  predicate Pays(h: seq<Record>, g: Claim) {
    g.charge < |h| && h[g.charge].airtime == g.airtime
  }

  ghost predicate PaidInFull(h: seq<Record>, gs: seq<Claim>) {
    forall g <- gs :: Pays(h, g)
  }

  lemma {:induction false} GrantsClaimOnce(h: seq<Record>, gs: seq<Claim>, i: nat)
    requires i < |h| && h[i].airtime > 0.0 && PaidInFull(h, gs) && Distinct(gs)
    ensures ClaimedOn(gs, i) <= h[i].airtime
  {
    if gs != [] {
      var n := |gs| - 1;
      var g := gs[n];
      assert g in gs;
      if g.charge == i {
        UnclaimedIsZero(gs[..n], i);
      } else {
        GrantsClaimOnce(h, gs[..n], i);
      }
    }
  }

  lemma GrantsAreCovered(h: seq<Record>, gs: seq<Claim>)
    requires (forall r <- h :: r.airtime > 0.0) && PaidInFull(h, gs) && Distinct(gs)
    ensures Covered(h, gs)
  {
    forall i | 0 <= i < |h|
      ensures ClaimedOn(gs, i) <= h[i].airtime
    {
      assert h[i] in h;
      GrantsClaimOnce(h, gs, i);
    }
  }

  /** Exactly one of the grants is for a charge of the window. */
  ghost predicate Lone(h: seq<Record>, gs: seq<Claim>, end: real, window: real)
    requires InRange(h, gs)
  {
    exists i :: 0 <= i < |gs| && Within(h[gs[i].charge], end, window)
                && forall j :: 0 <= j < |gs| && j != i ==> !Within(h[gs[j].charge], end, window)
  }

  lemma {:induction false} TwoCharges(h: seq<Record>, i: nat, j: nat, end: real, window: real)
    requires i < j < |h| && Within(h[i], end, window) && Within(h[j], end, window)
    ensures Charges(h, end, window) >= 2
  {
    var n := |h| - 1;
    if j < n {
      TwoCharges(h[..n], i, j, end, window);
    } else {
      OneCharge(h[..n], i, end, window);
    }
  }

  lemma {:induction false} OneCharge(h: seq<Record>, i: nat, end: real, window: real)
    requires i < |h| && Within(h[i], end, window)
    ensures Charges(h, end, window) >= 1
  {
    if i < |h| - 1 {
      OneCharge(h[..|h| - 1], i, end, window);
    }
  }

  lemma {:induction false} NoneInside(h: seq<Record>, gs: seq<Claim>, end: real, window: real)
    requires InRange(h, gs) && forall g <- gs :: !Within(h[g.charge], end, window)
    ensures Claimed(h, gs, end, window) == 0.0
  {
    if gs != [] {
      assert gs[|gs| - 1] in gs;
      NoneInside(h, gs[..|gs| - 1], end, window);
    }
  }

  /** A window with a single charge holds one grant, or none. */
  lemma OneChargeOneGrant(h: seq<Record>, gs: seq<Claim>, end: real, window: real)
    requires InRange(h, gs) && Distinct(gs) && Charges(h, end, window) == 1
    ensures Lone(h, gs, end, window) || Claimed(h, gs, end, window) == 0.0
  {
    if i :| 0 <= i < |gs| && Within(h[gs[i].charge], end, window) {
      forall j | 0 <= j < |gs| && j != i
        ensures !Within(h[gs[j].charge], end, window)
      {
        var a, b := gs[i].charge, gs[j].charge;
        if Within(h[b], end, window) {
          TwoCharges(h, if a < b then a else b, if a < b then b else a, end, window);
        }
      }
    } else {
      NoneInside(h, gs, end, window);
    }
  }

  // ---------------------------------------------------------------------------
  // The limits, for the airtime granted

  /** Seconds granted, times 100, never above the cap, in every window of this length. */
  ghost predicate GrantsCapped(h: seq<Record>, gs: seq<Claim>, window: real, cap: real)
    requires InRange(h, gs)
  {
    forall end: real :: Claimed(h, gs, end, window) * 100.0 <= cap
  }

  /** The same, except that a window may hold one single grant of any length. */
  ghost predicate GrantsCappedOrLone(h: seq<Record>, gs: seq<Claim>, window: real, cap: real)
    requires InRange(h, gs)
  {
    forall end: real :: Claimed(h, gs, end, window) * 100.0 <= cap || Lone(h, gs, end, window)
  }

  lemma CappedCharges(h: seq<Record>, gs: seq<Claim>, window: real, cap: real)
    requires Covered(h, gs) && Capped(h, window, cap)
    ensures GrantsCapped(h, gs, window, cap)
  {
    forall end: real
      ensures Claimed(h, gs, end, window) * 100.0 <= cap
    {
      ClaimedAtMostCharged(h, gs, end, window);
    }
  }

  lemma CappedOrLoneCharges(h: seq<Record>, gs: seq<Claim>, window: real, cap: real)
    requires Covered(h, gs) && Distinct(gs) && CappedOrLone(h, window, cap) && cap >= 0.0
    ensures GrantsCappedOrLone(h, gs, window, cap)
  {
    forall end: real
      ensures Claimed(h, gs, end, window) * 100.0 <= cap || Lone(h, gs, end, window)
    {
      ClaimedAtMostCharged(h, gs, end, window);
      if Charges(h, end, window) == 1 {
        OneChargeOneGrant(h, gs, end, window);
      }
    }
  }

  /** In every window shorter than the long one by the slack, ending at any instant, at most the airtime
      of the long limit was granted. */
  ghost predicate LongGranted(h: seq<Record>, gs: seq<Claim>, limits: Limits, slack: real)
    requires InRange(h, gs)
  {
    GrantsCapped(h, gs, limits.longWindow - slack, limits.longLimit * limits.longWindow)
  }

  /** The same for the short window, or it holds just one grant. */
  ghost predicate ShortGranted(h: seq<Record>, gs: seq<Claim>, limits: Limits, slack: real)
    requires InRange(h, gs)
  {
    GrantsCappedOrLone(h, gs, limits.shortWindow - slack, limits.shortLimit * limits.shortWindow)
  }

  /** Limits kept by the charges are kept by the grants. */
  lemma GrantsWithinLimits(h: seq<Record>, gs: seq<Claim>, limits: Limits, slack: real)
    requires limits.Valid() && (forall r <- h :: r.airtime > 0.0) && PaidInFull(h, gs) && Distinct(gs)
    requires LongKept(h, limits, slack) && ShortKept(h, limits, slack)
    ensures LongGranted(h, gs, limits, slack) && ShortGranted(h, gs, limits, slack)
  {
    GrantsAreCovered(h, gs);
    CappedCharges(h, gs, limits.longWindow - slack, limits.longLimit * limits.longWindow);
    CappedOrLoneCharges(h, gs, limits.shortWindow - slack, limits.shortLimit * limits.shortWindow);
  }

  /** Records may be corrected, pruned or extended under their claims: every charge stays what it was. */
  ghost predicate Extends(h: seq<Record>, k: seq<Record>) {
    |h| <= |k| && forall i :: 0 <= i < |h| ==> k[i].born == h[i].born && k[i].airtime == h[i].airtime
  }

  // ---------------------------------------------------------------------------
  // Claims that are used some time after their charge

  /** The claims used at the instants of the window that ends at `end`. */
  function UsedDuring(cs: seq<Claim>, times: seq<real>, end: real, window: real): real
    requires |cs| == |times|
  {
    if cs == [] then 0.0
    else
      var n := |cs| - 1;
      UsedDuring(cs[..n], times[..n], end, window) + if end - window < times[n] <= end then cs[n].airtime else 0.0
  }

  /** Every claim is used after its charge, and no later than `delay` after it. */
  ghost predicate UsedWithin(h: seq<Record>, cs: seq<Claim>, times: seq<real>, delay: real)
    requires InRange(h, cs) && |cs| == |times|
  {
    forall i :: 0 <= i < |cs| ==> h[cs[i].charge].born <= times[i] <= h[cs[i].charge].born + delay
  }

  /** What is used in a window was charged in the window that is longer by the delay. */
  lemma {:induction false} UsedAtMostClaimed(h: seq<Record>, cs: seq<Claim>, times: seq<real>, end: real, window: real,
                                             delay: real)
    requires InRange(h, cs) && |cs| == |times| && UsedWithin(h, cs, times, delay) && forall c <- cs :: c.airtime >= 0.0
    ensures UsedDuring(cs, times, end, window - delay) <= Claimed(h, cs, end, window)
  {
    if cs != [] {
      var n := |cs| - 1;
      assert cs[n] in cs;
      UsedAtMostClaimed(h, cs[..n], times[..n], end, window, delay);
    }
  }
}
