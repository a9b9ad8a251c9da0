/** Two-decimal rounding, over the reals. */
module Rounding {

  function Sign(f: real): real {
    if f < 0.0 then -1.0 else 1.0
  }

  /** Conversion to an integer drops the fraction, towards zero. */
  function Truncate(f: real): int {
    if f < 0.0 then -((-f).Floor) else f.Floor
  }

  function Round2(f: real): real {
    Truncate(f * 100.0 + 0.5 * Sign(f)) as real / 100.0
  }

  lemma Round2Near(f: real)
    ensures f - 1.0 / 200.0 <= Round2(f) <= f + 1.0 / 200.0
  {
    var scaled := f * 100.0 + 0.5 * Sign(f);
    assert Round2(f) * 100.0 == Truncate(scaled) as real;
  }

  lemma Round2Monotone(f: real, g: real)
    requires f <= g
    ensures Round2(f) <= Round2(g)
  {
    var a, b := f * 100.0 + 0.5 * Sign(f), g * 100.0 + 0.5 * Sign(g);
    assert a <= b;
    assert Truncate(a) <= Truncate(b);
  }

  lemma TruncateHalf(n: int)
    ensures Truncate(n as real + 0.5 * Sign(n as real)) == n
  {
    if n < 0 {
      var up := -(n as real - 0.5);
      assert (-n) as real <= up < (-n + 1) as real;
      assert up.Floor == -n;
    } else {
      assert (n as real + 0.5).Floor == n;
    }
  }

  /** Whole hundredths are left alone. */
  lemma Round2Whole(n: int)
    ensures Round2(n as real / 100.0) == n as real / 100.0
  {
    TruncateHalf(n);
    var f := n as real / 100.0;
    assert f * 100.0 == n as real && Sign(f) == Sign(n as real);
  }

  /** A half of a hundredth goes away from zero. */
  lemma Round2Half(n: nat)
    ensures Round2((n as real + 0.5) / 100.0) == (n + 1) as real / 100.0
  {
    assert (n as real + 0.5) / 100.0 * 100.0 + 0.5 == (n + 1) as real;
  }

  lemma Round2Idempotent(f: real)
    ensures Round2(Round2(f)) == Round2(f)
  {
    Round2Whole(Truncate(f * 100.0 + 0.5 * Sign(f)));
  }

  lemma Round2Odd(f: real)
    ensures Round2(-f) == -Round2(f)
  {
    if f != 0.0 {
      assert -f * 100.0 + 0.5 * Sign(-f) == -(f * 100.0 + 0.5 * Sign(f));
    }
  }
}
