/** Scalar arithmetic of the moment estimates, over the reals. */
module Moments {

  function Pow(b: real, n: nat): real {
    if n == 0 then 1.0 else b * Pow(b, n - 1)
  }

  lemma {:induction false} PowUnit(b: real, n: nat)
    requires 0.0 < b < 1.0
    ensures 0.0 < Pow(b, n) <= 1.0 && (n > 0 ==> Pow(b, n) < 1.0)
  {
    if n > 0 {
      PowUnit(b, n - 1);
      MulLess(b, 1.0, Pow(b, n - 1));
      MulPositive(b, Pow(b, n - 1));
    }
  }

  lemma MulPositive(x: real, y: real)
    requires x > 0.0 && y > 0.0
    ensures x * y > 0.0
  {
  }

  lemma MulLess(x: real, y: real, k: real)
    requires x < y && k > 0.0
    ensures x * k < y * k
  {
    MulPositive(y - x, k);
  }

  lemma MulLeq(k: real, x: real, y: real)
    requires x <= y && k >= 0.0
    ensures k * x <= k * y
  {
  }

  function Square(x: real): real {
    x * x
  }

  lemma SquareMonotone(a: real, b: real)
    requires 0.0 <= a <= b
    ensures Square(a) <= Square(b)
  {
    MulLeq(a, a, b);
    MulLeq(b, a, b);
  }

  lemma SquareStrict(a: real, b: real)
    requires 0.0 <= a < b
    ensures Square(a) < Square(b)
  {
    MulPositive(b - a, a + b);
    assert (b - a) * (a + b) == b * b - a * a;
  }

  lemma SquareEven(x: real)
    ensures Square(-x) == Square(x) && Square(x) >= 0.0
  {
    assert (-x) * (-x) == x * x;
    if x > 0.0 { MulPositive(x, x); } else if x < 0.0 { MulPositive(-x, -x); }
  }

  lemma SquareBound(x: real, g: real)
    requires -g <= x <= g
    ensures 0.0 <= Square(x) <= Square(g)
  {
    SquareEven(x);
    SquareMonotone(if x < 0.0 then -x else x, g);
  }

  lemma RootBound(x: real, r: real)
    requires r >= 0.0 && Square(x) <= Square(r)
    ensures -r <= x <= r
  {
    SquareEven(x);
    if x > r { SquareStrict(r, x); }
    if -x > r { SquareStrict(r, -x); }
  }

  /** The exponential average, a value and its bias-correction denominator. */
  function Ema(beta: real, m: real, x: real): real {
    Mix(beta, 1.0 - beta, m, x)
  }

  function Mix(a: real, b: real, x: real, y: real): real {
    a * x + b * y
  }

  function Correction(beta: real, t: nat): real {
    1.0 - Pow(beta, t)
  }

  lemma CorrectionPositive(beta: real, t: nat)
    requires 0.0 < beta < 1.0
    ensures 0.0 <= Correction(beta, t) < 1.0
    ensures t > 0 ==> Correction(beta, t) > 0.0
    ensures Correction(beta, t + 1) == beta * Correction(beta, t) + (1.0 - beta)
  {
    PowUnit(beta, t);
  }

  lemma MixMonotone(a: real, b: real, x: real, y: real, x': real, y': real)
    requires a >= 0.0 && b >= 0.0 && x <= x' && y <= y'
    ensures Mix(a, b, x, y) <= Mix(a, b, x', y')
  {
    MulLeq(a, x, x');
    MulLeq(b, y, y');
  }

  lemma Distribute(beta: real, c: real, k: real)
    ensures k * (beta * c + (1.0 - beta)) == Mix(beta, 1.0 - beta, k * c, k)
  {
  }

  lemma EmaUpper(beta: real, c: real, m: real, x: real, hi: real)
    requires 0.0 < beta < 1.0 && x <= hi && m <= hi * c
    ensures Ema(beta, m, x) <= hi * (beta * c + (1.0 - beta))
  {
    MixMonotone(beta, 1.0 - beta, m, x, hi * c, hi);
    Distribute(beta, c, hi);
  }

  lemma EmaNegated(beta: real, m: real, x: real)
    ensures Ema(beta, -m, -x) == -Ema(beta, m, x)
  {
  }

  lemma Negated(k: real, c: real)
    ensures (-k) * c == -(k * c)
  {
  }

  lemma EmaLower(beta: real, c: real, m: real, x: real, lo: real)
    requires 0.0 < beta < 1.0 && lo <= x && lo * c <= m
    ensures lo * (beta * c + (1.0 - beta)) <= Ema(beta, m, x)
  {
    Negated(lo, c);
    EmaUpper(beta, c, -m, -x, -lo);
    EmaNegated(beta, m, x);
    Negated(lo, beta * c + (1.0 - beta));
  }

  /** m lies in [lo, hi], scaled by the bias correction after t values. */
  predicate Between(beta: real, t: nat, m: real, lo: real, hi: real) {
    lo * Correction(beta, t) <= m <= hi * Correction(beta, t)
  }

  /** An average of values in [lo, hi] stays in the same interval, scaled by its
      bias correction. */
  lemma EmaBound(beta: real, t: nat, m: real, x: real, lo: real, hi: real)
    requires 0.0 < beta < 1.0 && lo <= x <= hi && Between(beta, t, m, lo, hi)
    ensures Between(beta, t + 1, Ema(beta, m, x), lo, hi)
  {
    CorrectionPositive(beta, t);
    EmaUpper(beta, Correction(beta, t), m, x, hi);
    EmaLower(beta, Correction(beta, t), m, x, lo);
  }

  /** What the corrected average of values in [lo, hi] can be. */
  lemma CorrectedBound(beta: real, t: nat, m: real, lo: real, hi: real)
    requires 0.0 < beta < 1.0 && t > 0 && Between(beta, t, m, lo, hi)
    ensures Correction(beta, t) > 0.0 && lo <= m / Correction(beta, t) <= hi
  {
    CorrectionPositive(beta, t);
    DivBetween(m, Correction(beta, t), lo, hi);
  }

  lemma DivBetween(m: real, c: real, lo: real, hi: real)
    requires c > 0.0 && lo * c <= m <= hi * c
    ensures lo <= m / c <= hi
  {
    var q := m / c;
    assert q * c == m;
    if q < lo { MulLess(q, lo, c); }
    if q > hi { MulLess(hi, q, c); }
  }

  lemma Shrunk(g: real, c: real, m: real)
    requires 0.0 <= c <= 1.0 && g >= 0.0 && -g * c <= m <= g * c
    ensures -g <= m <= g
  {
    MulLeq(g, c, 1.0);
    assert -g * c == -(g * c);
  }

  lemma ResidualSquare(beta: real, d: real, g: real)
    requires 0.0 < beta && -2.0 * g <= d <= 2.0 * g
    ensures 0.0 <= Square(beta * d) <= 4.0 * Square(beta * g)
  {
    MulLeq(beta, d, 2.0 * g);
    MulLeq(beta, -2.0 * g, d);
    var b := beta * g;
    assert beta * (2.0 * g) == 2.0 * b && beta * (-2.0 * g) == -(2.0 * b);
    SquareBound(beta * d, 2.0 * b);
    SquareDouble(b);
  }

  lemma SquareDouble(b: real)
    ensures Square(2.0 * b) == 4.0 * Square(b)
  {
  }

  lemma ResidualShrinks(beta: real, m: real, x: real)
    ensures x - Ema(beta, m, x) == beta * (x - m)
  {
  }

  lemma BetweenShrinks(beta: real, n: nat, m: real, g: real)
    requires 0.0 < beta < 1.0 && g >= 0.0 && Between(beta, n, m, -g, g)
    ensures -g <= m <= g
  {
    CorrectionPositive(beta, n);
    Shrunk(g, Correction(beta, n), m);
  }

  /** The belief residual is the old residual shrunk by beta, which bounds the
      second moment it feeds. */
  lemma BeliefResidual(beta: real, n: nat, m: real, x: real, g: real)
    requires 0.0 < beta < 1.0 && -g <= x <= g && Between(beta, n, m, -g, g)
    ensures x - Ema(beta, m, x) == beta * (x - m)
    ensures 0.0 <= Square(x - Ema(beta, m, x)) <= 4.0 * Square(beta * g)
  {
    BetweenShrinks(beta, n, m, g);
    ResidualShrinks(beta, m, x);
    ResidualSquare(beta, x - m, g);
  }

  // ----- averages of a whole sequence of gradients -----

  /** The first moment after a sequence of gradients. */
  function FirstFold(beta: real, gs: seq<real>): real {
    if gs == [] then 0.0 else Ema(beta, FirstFold(beta, gs[..|gs| - 1]), gs[|gs| - 1])
  }

  /** The second moment: of the gradients, or of their belief residuals. */
  function SecondFold(belief: bool, beta1: real, beta2: real, gs: seq<real>): real {
    if gs == [] then 0.0
    else
      var g := gs[|gs| - 1];
      var d := if belief then g - FirstFold(beta1, gs) else g;
      Ema(beta2, SecondFold(belief, beta1, beta2, gs[..|gs| - 1]), Square(d))
  }

  ghost predicate Within(gs: seq<real>, lo: real, hi: real) {
    forall n :: 0 <= n < |gs| ==> lo <= gs[n] <= hi
  }

  lemma {:induction false} FirstFoldBound(beta: real, gs: seq<real>, lo: real, hi: real)
    requires 0.0 < beta < 1.0 && Within(gs, lo, hi)
    ensures Between(beta, |gs|, FirstFold(beta, gs), lo, hi)
  {
    if gs != [] {
      var n := |gs| - 1;
      FirstFoldBound(beta, gs[..n], lo, hi);
      EmaBound(beta, n, FirstFold(beta, gs[..n]), gs[n], lo, hi);
    }
  }

  /** The largest square that can enter the second moment. */
  function Ceiling(belief: bool, beta1: real, g: real): real {
    if belief then 4.0 * Square(beta1 * g) else Square(g)
  }

  /** What enters the second moment with the last gradient. */
  function Entry(belief: bool, beta1: real, gs: seq<real>): real
    requires gs != []
  {
    if belief then gs[|gs| - 1] - FirstFold(beta1, gs) else gs[|gs| - 1]
  }

  lemma EntryBound(belief: bool, beta1: real, gs: seq<real>, g: real)
    requires 0.0 < beta1 < 1.0 && gs != [] && Within(gs, -g, g)
    ensures 0.0 <= Square(Entry(belief, beta1, gs)) <= Ceiling(belief, beta1, g)
  {
    var n := |gs| - 1;
    if belief {
      FirstFoldBound(beta1, gs[..n], -g, g);
      BeliefResidual(beta1, n, FirstFold(beta1, gs[..n]), gs[n], g);
    } else {
      SquareBound(gs[n], g);
    }
  }

  lemma {:induction false} SecondFoldBound(belief: bool, beta1: real, beta2: real, gs: seq<real>, g: real)
    requires 0.0 < beta1 < 1.0 && 0.0 < beta2 < 1.0 && Within(gs, -g, g)
    ensures Between(beta2, |gs|, SecondFold(belief, beta1, beta2, gs), 0.0, Ceiling(belief, beta1, g))
  {
    if gs == [] {
      assert Correction(beta2, 0) == 0.0;
    } else {
      var n := |gs| - 1;
      var before := SecondFold(belief, beta1, beta2, gs[..n]);
      SecondFoldBound(belief, beta1, beta2, gs[..n], g);
      EntryBound(belief, beta1, gs, g);
      EmaBound(beta2, n, before, Square(Entry(belief, beta1, gs)), 0.0, Ceiling(belief, beta1, g));
    }
  }
}
