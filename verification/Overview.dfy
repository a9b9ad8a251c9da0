/** The performance overview: a daily trend and its totals. */
module Overview {
  import opened Metrics
  import opened Rounding

  datatype Day = Day(date: string, clicks: real, impressions: real, ctr: real, position: real)

  function Clicks(days: seq<Day>): real {
    if days == [] then 0.0 else Clicks(days[..|days| - 1]) + days[|days| - 1].clicks
  }

  function Impressions(days: seq<Day>): real {
    if days == [] then 0.0 else Impressions(days[..|days| - 1]) + days[|days| - 1].impressions
  }

  function Weighted(days: seq<Day>): real {
    if days == [] then 0.0
    else Weighted(days[..|days| - 1]) + days[|days| - 1].position * days[|days| - 1].impressions
  }

  function Shown(d: Day): Day {
    d.(ctr := Round2(d.ctr * 100.0), position := Round2(d.position))
  }

  method PerformanceOverview(days: seq<Day>) returns (totals: Totals, trend: seq<Day>)
    ensures |trend| == |days| && forall i :: 0 <= i < |days| ==>
              trend[i] == Day(days[i].date, days[i].clicks, days[i].impressions, Round2(days[i].ctr * 100.0), Round2(days[i].position))
    ensures totals == Totals(Clicks(days), Impressions(days),
                             Round2(Pct(Clicks(days), Impressions(days))), Round2(SafeDiv(Weighted(days), Impressions(days))))
  {
    trend := [];
    var clicks, impressions, weighted := 0.0, 0.0, 0.0;
    for i := 0 to |days|
      invariant |trend| == i && forall k :: 0 <= k < i ==> trend[k] == Shown(days[k])
      invariant clicks == Clicks(days[..i]) && impressions == Impressions(days[..i]) && weighted == Weighted(days[..i])
    {
      assert days[..i + 1][..i] == days[..i];
      var d := days[i];
      trend := trend + [d.(ctr := Round2(d.ctr * 100.0), position := Round2(d.position))];
      clicks := clicks + d.clicks;
      impressions := impressions + d.impressions;
      weighted := weighted + d.position * d.impressions;
    }
    assert days[..|days|] == days;
    totals := Totals(clicks, impressions, Round2(Pct(clicks, impressions)), Round2(SafeDiv(weighted, impressions)));
  }

  /** The three sums add up, a day at a time. */
  lemma SumsAdd(days: seq<Day>, d: Day)
    ensures Clicks([]) == 0.0 && Clicks(days + [d]) == Clicks(days) + d.clicks
    ensures Impressions([]) == 0.0 && Impressions(days + [d]) == Impressions(days) + d.impressions
    ensures Weighted([]) == 0.0 && Weighted(days + [d]) == Weighted(days) + d.position * d.impressions
  {
    assert (days + [d])[..|days|] == days;
  }

  predicate Counts(days: seq<Day>) {
    forall d :: d in days ==> d.impressions >= 0.0
  }

  lemma ScaleBounds(lo: real, hi: real, total: real, sum: real, p: real, w: real)
    requires lo * total <= sum <= hi * total && lo <= p <= hi && w >= 0.0
    ensures lo * (total + w) <= sum + p * w <= hi * (total + w)
  {
    assert lo * w <= p * w <= hi * w;
    assert lo * (total + w) == lo * total + lo * w;
    assert hi * (total + w) == hi * total + hi * w;
  }

  lemma {:induction false} WeightedBounds(days: seq<Day>, lo: real, hi: real)
    requires Counts(days) && forall d :: d in days ==> lo <= d.position <= hi
    ensures lo * Impressions(days) <= Weighted(days) <= hi * Impressions(days)
    ensures Impressions(days) >= 0.0
  {
    if days != [] {
      var rest, d := days[..|days| - 1], days[|days| - 1];
      assert d in days;
      WeightedBounds(rest, lo, hi);
      ScaleBounds(lo, hi, Impressions(rest), Weighted(rest), d.position, d.impressions);
    }
  }

  lemma {:induction false} Extremes(days: seq<Day>) returns (lo: nat, hi: nat)
    requires days != []
    ensures lo < |days| && hi < |days|
    ensures forall d :: d in days ==> days[lo].position <= d.position <= days[hi].position
  {
    lo, hi := 0, 0;
    if |days| > 1 {
      var n := |days| - 1;
      lo, hi := Extremes(days[..n]);
      assert forall d :: d in days ==> d in days[..n] || d == days[n];
      if days[n].position < days[lo].position {
        lo := n;
      }
      if days[n].position > days[hi].position {
        hi := n;
      }
    }
  }

  lemma DivideBounds(a: real, b: real, lo: real, hi: real)
    requires b > 0.0 && lo * b <= a <= hi * b
    ensures lo <= a / b <= hi
  {
    var q := a / b;
    assert q * b == a;
    assert q < lo ==> q * b < lo * b;
    assert q > hi ==> q * b > hi * b;
  }

  /** The reported overall position lies between two reported daily positions. */
  ghost predicate MeanWithin(days: seq<Day>) {
    exists i, j :: 0 <= i < |days| && 0 <= j < |days| && Between(days[i], days[j], SafeDiv(Weighted(days), Impressions(days)))
  }

  predicate Between(low: Day, high: Day, mean: real) {
    Shown(low).position <= Round2(mean) <= Shown(high).position
  }

  lemma RoundBetween(low: Day, high: Day, mean: real)
    requires low.position <= mean <= high.position
    ensures Between(low, high, mean)
  {
    Round2Monotone(low.position, mean);
    Round2Monotone(mean, high.position);
  }

  lemma MeanBounds(days: seq<Day>, lo: real, hi: real)
    requires Counts(days) && Impressions(days) > 0.0
    requires forall d :: d in days ==> lo <= d.position <= hi
    ensures lo <= SafeDiv(Weighted(days), Impressions(days)) <= hi
  {
    WeightedBounds(days, lo, hi);
    DivideBounds(Weighted(days), Impressions(days), lo, hi);
  }

  lemma MeanSurvivesRounding(days: seq<Day>)
    requires Counts(days) && Impressions(days) > 0.0
    ensures MeanWithin(days)
  {
    if days != [] {
      var i, j := Extremes(days);
      var low, high := days[i], days[j];
      MeanBounds(days, low.position, high.position);
      RoundBetween(low, high, SafeDiv(Weighted(days), Impressions(days)));
    }
  }

  /** Positions start at 1, and then the mean is sound exactly when something was shown at all: with no impression the code reports 0. */
  lemma MeanWithinExactly(days: seq<Day>)
    requires Counts(days) && forall d :: d in days ==> d.position >= 1.0
    ensures MeanWithin(days) <==> Impressions(days) > 0.0
  {
    ImpressionsCount(days);
    if Impressions(days) > 0.0 {
      MeanSurvivesRounding(days);
    } else {
      Round2Whole(0);
      Round2Whole(100);
      forall d | d in days
        ensures Shown(d).position >= 1.0
      {
        Round2Monotone(1.0, d.position);
      }
      assert forall i :: 0 <= i < |days| ==> days[i] in days;
    }
  }

  lemma {:induction false} ImpressionsCount(days: seq<Day>)
    requires Counts(days)
    ensures Impressions(days) >= 0.0
  {
    if days != [] {
      ImpressionsCount(days[..|days| - 1]);
      assert days[|days| - 1] in days;
    }
  }

  // ---------- the overall click-through rate ----------

  /** Each day's rate is its clicks over its impressions. */
  predicate Rates(days: seq<Day>) {
    forall d :: d in days ==> IsRate(d)
  }

  predicate IsRate(d: Day) {
    d.clicks == d.ctr * d.impressions
  }

  lemma ClickStep(lo: real, hi: real, total: real, sum: real, d: Day)
    requires lo * total <= sum <= hi * total && lo <= d.ctr <= hi && d.impressions >= 0.0 && d.clicks == d.ctr * d.impressions
    ensures lo * (total + d.impressions) <= sum + d.clicks <= hi * (total + d.impressions)
  {
    ScaleBounds(lo, hi, total, sum, d.ctr, d.impressions);
  }

  lemma {:induction false} ClickBounds(days: seq<Day>, lo: real, hi: real)
    requires Counts(days) && Rates(days) && forall d :: d in days ==> lo <= d.ctr <= hi
    ensures lo * Impressions(days) <= Clicks(days) <= hi * Impressions(days)
  {
    if days != [] {
      var rest, d := days[..|days| - 1], days[|days| - 1];
      assert d in days;
      ClickBounds(rest, lo, hi);
      ClickStep(lo, hi, Impressions(rest), Clicks(rest), d);
    }
  }

  lemma {:induction false} ExtremeRates(days: seq<Day>) returns (lo: nat, hi: nat)
    requires days != []
    ensures lo < |days| && hi < |days|
    ensures forall d :: d in days ==> days[lo].ctr <= d.ctr <= days[hi].ctr
  {
    lo, hi := 0, 0;
    if |days| > 1 {
      var n := |days| - 1;
      lo, hi := ExtremeRates(days[..n]);
      assert forall d :: d in days ==> d in days[..n] || d == days[n];
      if days[n].ctr < days[lo].ctr {
        lo := n;
      }
      if days[n].ctr > days[hi].ctr {
        hi := n;
      }
    }
  }

  lemma RateBetween(clicks: real, impressions: real, lo: real, hi: real)
    requires impressions > 0.0 && lo * impressions <= clicks <= hi * impressions
    ensures Round2(lo * 100.0) <= Round2(Pct(clicks, impressions)) <= Round2(hi * 100.0)
  {
    DivideBounds(clicks, impressions, lo, hi);
    var rate := clicks / impressions;
    Round2Monotone(lo * 100.0, rate * 100.0);
    Round2Monotone(rate * 100.0, hi * 100.0);
  }

  predicate RateWithin(low: Day, high: Day, overall: real) {
    Round2(low.ctr * 100.0) <= overall <= Round2(high.ctr * 100.0)
  }

  lemma RatesBound(days: seq<Day>, low: Day, high: Day)
    requires Counts(days) && Rates(days) && Impressions(days) > 0.0
    requires forall d :: d in days ==> low.ctr <= d.ctr <= high.ctr
    ensures RateWithin(low, high, Round2(Pct(Clicks(days), Impressions(days))))
  {
    var clicks, impressions := Clicks(days), Impressions(days);
    ClickBounds(days, low.ctr, high.ctr);
    RateBetween(clicks, impressions, low.ctr, high.ctr);
  }

  /** The reported overall rate, in percent, lies between two reported daily rates when anything was shown, */
  lemma RateSurvivesRounding(days: seq<Day>)
    requires Counts(days) && Rates(days) && Impressions(days) > 0.0
    ensures exists low, high :: low in days && high in days && RateWithin(low, high, Round2(Pct(Clicks(days), Impressions(days))))
  {
    if days != [] {
      var i, j := ExtremeRates(days);
      var low, high := days[i], days[j];
      assert low in days && high in days;
      RatesBound(days, low, high);
    }
  }

  /** and is 0 when nothing was. */
  lemma RateOfNothing(days: seq<Day>)
    requires Impressions(days) == 0.0
    ensures Round2(Pct(Clicks(days), Impressions(days))) == 0.0
  {
    Round2Whole(0);
  }
}
