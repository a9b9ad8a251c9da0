/** The figures the analytics tools report, and the guarded divisions behind them. */
module Metrics {

  datatype Totals = Totals(clicks: real, impressions: real, ctr: real, position: real)

  function SafeDiv(a: real, b: real): real {
    if b == 0.0 then 0.0 else a / b
  }

  function Pct(part: real, whole: real): real {
    if whole == 0.0 then 0.0 else part / whole * 100.0
  }

  function PctChange(old': real, new': real): real {
    if old' == 0.0 then (if new' == 0.0 then 0.0 else 100.0) else (new' - old') / old' * 100.0
  }

  /** A quotient times its divisor is the dividend, and nothing by nothing is nothing. */
  lemma QuotientsExactly(a: real, b: real)
    ensures b != 0.0 ==> SafeDiv(a, b) * b == a && Pct(a, b) * b == 100.0 * a
    ensures b == 0.0 ==> SafeDiv(a, b) == 0.0 && Pct(a, b) == 0.0
  {
    if b != 0.0 {
      var q := a / b;
      assert q * b == a;
      assert (q * 100.0) * b == 100.0 * (q * b);
    }
  }
}
