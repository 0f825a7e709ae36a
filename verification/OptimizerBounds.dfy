/** Bounds on the moment estimates over every committed history, and the
    agreement of Muon's auxiliary optimizer with AdamW. */
module OptimizerBounds {
  import opened Wrappers
  import opened Moments
  import opened OptimizerModel
  import opened OptimizerHistory

  // ----- clipping -----

  lemma {:induction false} SumSquaresAt(d: seq<real>, j: nat)
    requires j < |d|
    ensures Square(d[j]) <= SumSquares(d)
  {
    SquareEven(d[0]);
    if j > 0 {
      SumSquaresAt(d[1..], j - 1);
      assert d[1..][j - 1] == d[j];
    }
  }

  lemma {:induction false} TotalSquaresAt(gs: seq<Tensor>, i: nat, j: nat)
    requires i < |gs| && j < |gs[i].data|
    ensures Square(gs[i].data[j]) <= TotalSquares(gs)
  {
    if i == 0 { SumSquaresAt(gs[0].data, j); } else { TotalSquaresAt(gs[1..], i - 1, j); }
  }

  /** min(1, cap / (norm + tiny)) scales a value of at most the norm to at most the cap. */
  lemma ClipScales(x: real, norm: real, cap: real, factor: real)
    requires cap > 0.0 && norm >= 0.0 && -norm <= x <= norm
    requires 0.0 <= factor && factor * (norm + Tiny) <= cap
    ensures -cap <= x * factor <= cap
  {
    MulLeq(factor, x, norm);
    MulLeq(factor, -norm, x);
    MulLeq(factor, norm, norm + Tiny);
    assert factor * (-norm) == -(factor * norm);
  }

  lemma FactorBound(cap: real, d: real, factor: real)
    requires cap > 0.0 && d > 0.0 && factor == (if cap / d < 1.0 then cap / d else 1.0)
    ensures 0.0 <= factor && factor * d <= cap
  {
    var q := cap / d;
    assert q * d == cap;
    if q < 0.0 { MulLess(q, 0.0, d); }
    if q >= 1.0 { MulLeq(d, 1.0, q); }
  }

  /** Clipping bounds every coordinate of every gradient by the clip value. */
  lemma ClippedBound(c: Config, f: Foreign, gs: seq<Tensor>, i: nat, j: nat)
    requires Genuine(f) && ValidConfig(c) && c.gradClip.Some? && i < |gs| && j < |gs[i].data|
    ensures -c.gradClip.value <= At(Clipped(c, f, gs)[i], j) <= c.gradClip.value
  {
    var cap, norm := c.gradClip.value, f.sqrt(TotalSquares(gs));
    assert Square(norm) == TotalSquares(gs);
    TotalSquaresAt(gs, i, j);
    RootBound(gs[i].data[j], norm);
    FactorBound(cap, norm + Tiny, ClipFactor(c, f, gs));
    ClipScales(gs[i].data[j], norm, cap, ClipFactor(c, f, gs));
  }

  lemma {:induction false} SumSquaresScaled(d: seq<real>, s: seq<real>, k: real)
    requires |s| == |d| && forall j :: 0 <= j < |d| ==> s[j] == d[j] * k
    ensures SumSquares(s) == Square(k) * SumSquares(d)
  {
    if d == [] {
      MulZero(Square(k));
    } else {
      SumSquaresScaled(d[1..], s[1..], k);
      SquareTimes(d[0], k, SumSquares(d[1..]));
    }
  }

  lemma MulZero(k: real)
    ensures k * 0.0 == 0.0
  {
  }

  lemma SquareTimes(x: real, k: real, rest: real)
    ensures Square(x * k) + Square(k) * rest == Square(k) * (Square(x) + rest)
  {
    assert (x * k) * (x * k) == (k * k) * (x * x);
  }

  function Sum(xs: seq<real>): real {
    if xs == [] then 0.0 else xs[0] + Sum(xs[1..])
  }

  ghost predicate Additive(h: real -> real) {
    h(0.0) == 0.0 && forall a, b, c :: c == a + b ==> h(c) == h(a) + h(b)
  }

  ghost predicate Maps(h: real -> real, xs: seq<real>, ys: seq<real>) {
    |ys| == |xs| && forall i :: 0 <= i < |xs| ==> ys[i] == h(xs[i])
  }

  lemma {:induction false} SumAdditive(h: real -> real, xs: seq<real>, ys: seq<real>)
    requires Additive(h) && Maps(h, xs, ys)
    ensures Sum(ys) == h(Sum(xs))
  {
    if xs != [] { SumAdditive(h, xs[1..], ys[1..]); }
  }

  /** The squared norms of the gradients, one by one. */
  function Norms(gs: seq<Tensor>): (xs: seq<real>)
    ensures |xs| == |gs| && forall i :: 0 <= i < |gs| ==> xs[i] == SumSquares(gs[i].data)
  {
    seq(|gs|, i requires 0 <= i < |gs| => SumSquares(gs[i].data))
  }

  lemma {:induction false} TotalIsSum(gs: seq<Tensor>)
    ensures TotalSquares(gs) == Sum(Norms(gs))
  {
    if gs != [] {
      TotalIsSum(gs[1..]);
      assert Norms(gs)[1..] == Norms(gs[1..]);
    }
  }

  lemma NormsScaled(gs: seq<Tensor>, scaled: seq<Tensor>, k: real)
    requires |scaled| == |gs| && forall i :: 0 <= i < |gs| ==> scaled[i] == Times(gs[i], k)
    ensures Maps(Scaling(Square(k)), Norms(gs), Norms(scaled))
  {
    forall i | 0 <= i < |gs| ensures Norms(scaled)[i] == Square(k) * Norms(gs)[i] {
      SumSquaresScaled(gs[i].data, scaled[i].data, k);
    }
  }

  lemma TotalAdditive(h: real -> real, gs: seq<Tensor>, scaled: seq<Tensor>)
    requires Additive(h) && Maps(h, Norms(gs), Norms(scaled))
    ensures TotalSquares(scaled) == h(TotalSquares(gs))
  {
    TotalIsSum(gs);
    TotalIsSum(scaled);
    SumAdditive(h, Norms(gs), Norms(scaled));
  }

  function Scaling(q: real): real -> real {
    x => q * x
  }

  lemma ScaledSum(q: real, a: real, b: real)
    ensures q * (a + b) == q * a + q * b
  {
  }

  lemma ScalingAt(q: real, a: real, b: real)
    ensures Scaling(q)(a + b) == Scaling(q)(a) + Scaling(q)(b)
  {
    ScaledSum(q, a, b);
  }

  lemma ScalingAdditive(q: real)
    ensures Additive(Scaling(q))
  {
    MulZero(q);
    forall a, b, c | c == a + b ensures Scaling(q)(c) == Scaling(q)(a) + Scaling(q)(b) { ScalingAt(q, a, b); }
  }

  lemma SquareProduct(k: real, n: real)
    ensures Square(k) * Square(n) == Square(k * n)
  {
    assert (k * n) * (k * n) == (k * k) * (n * n);
  }

  lemma ScaledNorm(gs: seq<Tensor>, scaled: seq<Tensor>, k: real)
    requires |scaled| == |gs| && forall i :: 0 <= i < |gs| ==> scaled[i] == Times(gs[i], k)
    ensures TotalSquares(scaled) == Scaling(Square(k))(TotalSquares(gs))
  {
    NormsScaled(gs, scaled, k);
    ScalingAdditive(Square(k));
    TotalAdditive(Scaling(Square(k)), gs, scaled);
  }

  lemma ScalingSquare(k: real, n: real)
    ensures Scaling(Square(k))(Square(n)) == Square(n * k)
  {
    SquareProduct(k, n);
    assert n * k == k * n;
  }

  /** Clipping bounds the norm over all gradients together by the clip value. */
  lemma ClippedNorm(c: Config, f: Foreign, gs: seq<Tensor>)
    requires Genuine(f) && ValidConfig(c) && c.gradClip.Some?
    ensures TotalSquares(Clipped(c, f, gs)) <= Square(c.gradClip.value)
  {
    var cap, norm, k := c.gradClip.value, f.sqrt(TotalSquares(gs)), ClipFactor(c, f, gs);
    assert Square(norm) == TotalSquares(gs);
    ScaledNorm(gs, Clipped(c, f, gs), k);
    ScalingSquare(k, norm);
    FactorBound(cap, norm + Tiny, k);
    ClipScales(norm, norm, cap, k);
    SquareBound(norm * k, cap);
  }

  // ----- one coordinate along a history -----

  function CoordinateAt(s: State, i: nat, j: nat): Coordinate
    requires i < |s.master| == |s.first| == |s.second|
  {
    CoordinateOf(Slot(s.master[i], s.first[i], s.second[i]), j)
  }

  /** The slot is updated by bias-corrected moments: it keeps second moments. */
  ghost predicate Adaptive(e: Setting, s: State, i: nat, j: nat) {
    && i < |s.master| && j < |s.master[i].data|
    && UsesSecond(e.c.name, s.master[i].shape)
  }

  lemma NextCoordinate(e: Setting, s: State, x: Input, i: nat, j: nat)
    requires Applicable(e, s, x) && LaidOut(e.c, s) && Adaptive(e, s, i, j)
    ensures var scale := Scale(e.f, e.c.schedule, s.step + 1).value;
      var r := RatesAt(e.c, e.f, scale, s.step + 1, AgeOf(e.c, x), e.c.name == Muon);
      CoordinateAt(Next(e.c, e.f, s, x), i, j)
        == Scalar(e.c, e.f, r, CoordinateAt(s, i, j), At(Clipped(e.c, e.f, x.gradients)[i], j))
    ensures Adaptive(e, Next(e.c, e.f, s, x), i, j)
  {
  }

  /** The gradient coordinates a history applies, after clipping. */
  ghost function GradientsAt(e: Setting, xs: seq<Input>, i: nat, j: nat): (gs: seq<real>)
    requires Genuine(e.f)
    ensures |gs| == |xs|
  {
    seq(|xs|, n requires 0 <= n < |xs| =>
      if i < |xs[n].gradients| then At(Clipped(e.c, e.f, xs[n].gradients)[i], j) else 0.0)
  }

  /** Every input of the history was applied. */
  ghost predicate Applied(e: Setting, xs: seq<Input>) {
    && ValidSetting(e)
    && (xs == [] || (Applied(e, xs[..|xs| - 1]) && Applicable(e, Replay(e, xs[..|xs| - 1]), xs[|xs| - 1])))
  }

  lemma {:induction false} AppliedState(e: Setting, xs: seq<Input>)
    requires Applied(e, xs)
    ensures Replay(e, xs).step == |xs| && LaidOut(e.c, Replay(e, xs))
  {
    if xs != [] {
      AppliedState(e, xs[..|xs| - 1]);
      NextLaidOut(e, Replay(e, xs[..|xs| - 1]), xs[|xs| - 1]);
    }
  }

  lemma {:induction false} AppliedPrefix(e: Setting, xs: seq<Input>, n: nat)
    requires Applied(e, xs) && n <= |xs|
    ensures Applied(e, xs[..n]) && (n < |xs| ==> Applicable(e, Replay(e, xs[..n]), xs[n]))
  {
    if n == |xs| {
      assert xs[..n] == xs;
    } else if n < |xs| - 1 {
      AppliedPrefix(e, xs[..|xs| - 1], n);
      assert xs[..|xs| - 1][..n] == xs[..n];
    }
  }

  lemma {:induction false} ReplayAdaptive(e: Setting, xs: seq<Input>, i: nat, j: nat)
    requires Applied(e, xs) && Adaptive(e, e.start, i, j)
    ensures Adaptive(e, Replay(e, xs), i, j)
  {
    if xs != [] {
      var t := xs[..|xs| - 1];
      ReplayAdaptive(e, t, i, j);
      AppliedState(e, t);
      NextCoordinate(e, Replay(e, t), xs[|xs| - 1], i, j);
    }
  }

  ghost predicate ZeroMoments(s: State, i: nat, j: nat) {
    i < |s.master| == |s.first| == |s.second| && At(s.first[i], j) == 0.0 && At(s.second[i], j) == 0.0
  }

  lemma ScalarMoments(c: Config, f: Foreign, r: Rates, at: Coordinate, g: real)
    requires Genuine(f) && Sound(c, r) && c.name in {Adam, AdamW, ChronoBelief, Muon}
    ensures Scalar(c, f, r, at, g).m == Ema(c.beta1, at.m, g)
    ensures Scalar(c, f, r, at, g).v
         == Ema(c.beta2, at.v, Square(if c.name == ChronoBelief then g - Scalar(c, f, r, at, g).m else g))
  {
  }

  lemma NextMoments(e: Setting, s: State, x: Input, i: nat, j: nat)
    requires Applicable(e, s, x) && LaidOut(e.c, s) && Adaptive(e, s, i, j)
    ensures var at, to, g := CoordinateAt(s, i, j), CoordinateAt(Next(e.c, e.f, s, x), i, j),
                             At(Clipped(e.c, e.f, x.gradients)[i], j);
      && to.m == Ema(e.c.beta1, at.m, g)
      && to.v == Ema(e.c.beta2, at.v, Square(if e.c.name == ChronoBelief then g - to.m else g))
  {
    NextCoordinate(e, s, x, i, j);
    var r := RatesAt(e.c, e.f, Scale(e.f, e.c.schedule, s.step + 1).value, s.step + 1, AgeOf(e.c, x), e.c.name == Muon);
    ScalarMoments(e.c, e.f, r, CoordinateAt(s, i, j), At(Clipped(e.c, e.f, x.gradients)[i], j));
  }

  /** The moments at a coordinate are the averages of a sequence of gradients. */
  ghost predicate Folded(e: Setting, s: State, i: nat, j: nat, gs: seq<real>) {
    && LaidOut(e.c, s) && Adaptive(e, s, i, j)
    && CoordinateAt(s, i, j).m == FirstFold(e.c.beta1, gs)
    && CoordinateAt(s, i, j).v == SecondFold(e.c.name == ChronoBelief, e.c.beta1, e.c.beta2, gs)
  }

  lemma FoldedNext(e: Setting, s: State, x: Input, i: nat, j: nat, gs: seq<real>)
    requires Applicable(e, s, x) && gs != [] && Folded(e, s, i, j, gs[..|gs| - 1])
    requires gs[|gs| - 1] == At(Clipped(e.c, e.f, x.gradients)[i], j)
    ensures Folded(e, Next(e.c, e.f, s, x), i, j, gs)
  {
    NextLaidOut(e, s, x);
    NextCoordinate(e, s, x, i, j);
    NextMoments(e, s, x, i, j);
    FoldsExtend(e.c.name == ChronoBelief, e.c.beta1, e.c.beta2, gs);
  }

  /** After any history, the moments at a coordinate are the averages of the
      gradients committed there, and of nothing else. */
  lemma {:induction false} MomentsAreFolds(e: Setting, xs: seq<Input>, i: nat, j: nat)
    requires Applied(e, xs) && Adaptive(e, e.start, i, j) && ZeroMoments(e.start, i, j)
    ensures Folded(e, Replay(e, xs), i, j, GradientsAt(e, xs, i, j))
  {
    if xs != [] {
      var t := xs[..|xs| - 1];
      MomentsAreFolds(e, t, i, j);
      GradientsAtLast(e, xs, i, j);
      FoldedNext(e, Replay(e, t), xs[|xs| - 1], i, j, GradientsAt(e, xs, i, j));
    }
  }

  lemma GradientsAtLast(e: Setting, xs: seq<Input>, i: nat, j: nat)
    requires Genuine(e.f) && xs != [] && i < |xs[|xs| - 1].gradients|
    ensures var n, gs := |xs| - 1, GradientsAt(e, xs, i, j);
      gs[..n] == GradientsAt(e, xs[..n], i, j) && gs[n] == At(Clipped(e.c, e.f, xs[n].gradients)[i], j)
  {
  }

  lemma FoldsExtend(belief: bool, beta1: real, beta2: real, gs: seq<real>)
    requires gs != []
    ensures var n := |gs| - 1;
      && FirstFold(beta1, gs) == Ema(beta1, FirstFold(beta1, gs[..n]), gs[n])
      && SecondFold(belief, beta1, beta2, gs)
         == Ema(beta2, SecondFold(belief, beta1, beta2, gs[..n]),
                Square(if belief then gs[n] - FirstFold(beta1, gs) else gs[n]))
  {
  }

  // ----- over every run -----

  lemma {:induction false} RunApplied(e: Setting, evs: seq<Event>, n: nat)
    requires ValidSetting(e) && PossibleRun(e, evs) && n <= |Run(e, evs).history|
    ensures Applied(e, Run(e, evs).history[..n])
  {
    if n > 0 {
      RunApplied(e, evs, n - 1);
      var w := Run(e, evs);
      OneCommitPerBase(e, evs);
      assert FromItsBase(e, w, n - 1);
      assert w.history[..n][..n - 1] == w.history[..n - 1];
    }
  }

  lemma HistoryClipped(e: Setting, xs: seq<Input>, i: nat, j: nat)
    requires Applied(e, xs) && e.c.gradClip.Some? && Adaptive(e, e.start, i, j)
    ensures Within(GradientsAt(e, xs, i, j), -e.c.gradClip.value, e.c.gradClip.value)
  {
    forall n | 0 <= n < |xs|
      ensures -e.c.gradClip.value <= GradientsAt(e, xs, i, j)[n] <= e.c.gradClip.value
    {
      AppliedPrefix(e, xs, n);
      ReplayAdaptive(e, xs[..n], i, j);
      InputClipped(e, Replay(e, xs[..n]), xs[n], i, j);
    }
  }

  lemma InputClipped(e: Setting, s: State, x: Input, i: nat, j: nat)
    requires Applicable(e, s, x) && e.c.gradClip.Some? && Adaptive(e, s, i, j)
    ensures i < |x.gradients|
    ensures -e.c.gradClip.value <= At(Clipped(e.c, e.f, x.gradients)[i], j) <= e.c.gradClip.value
  {
    ClippedBound(e.c, e.f, x.gradients, i, j);
  }

  /** A coordinate of a state after n commits: the corrected first moment lies in
      [lo, hi] and the corrected second moment in [0, top]. */
  ghost predicate CorrectedWithin(e: Setting, s: State, i: nat, j: nat, lo: real, hi: real, top: real) {
    && LaidOut(e.c, s) && i < |s.master|
    && Correction(e.c.beta1, s.step) > 0.0 && Correction(e.c.beta2, s.step) > 0.0
    && lo <= CoordinateAt(s, i, j).m / Correction(e.c.beta1, s.step) <= hi
    && 0.0 <= CoordinateAt(s, i, j).v / Correction(e.c.beta2, s.step) <= top
  }

  lemma FoldsCorrected(e: Setting, xs: seq<Input>, i: nat, j: nat, lo: real, hi: real, g: real)
    requires Applied(e, xs) && Adaptive(e, e.start, i, j) && ZeroMoments(e.start, i, j) && xs != []
    requires Within(GradientsAt(e, xs, i, j), lo, hi) && -g <= lo && hi <= g
    ensures CorrectedWithin(e, Replay(e, xs), i, j, lo, hi, Ceiling(e.c.name == ChronoBelief, e.c.beta1, g))
  {
    var gs, belief := GradientsAt(e, xs, i, j), e.c.name == ChronoBelief;
    MomentsAreFolds(e, xs, i, j);
    AppliedState(e, xs);
    FirstFoldBound(e.c.beta1, gs, lo, hi);
    SecondFoldBound(belief, e.c.beta1, e.c.beta2, gs, g);
    CorrectedBound(e.c.beta1, |xs|, FirstFold(e.c.beta1, gs), lo, hi);
    CorrectedBound(e.c.beta2, |xs|, SecondFold(belief, e.c.beta1, e.c.beta2, gs), 0.0, Ceiling(belief, e.c.beta1, g));
  }

  /** Moments start at zero in every optimizer as it is built. */
  lemma InitialZeroMoments(c: Config, parameters: seq<Tensor>, boundary: nat, i: nat, j: nat)
    requires i < |parameters|
    ensures ZeroMoments(Initial(c, parameters, boundary), i, j)
  {
  }

  /** After any run with at least one commit, at every coordinate that keeps
      second moments and whose applied gradients were at most G in magnitude: the
      bias-corrected first moment is at most G in magnitude, and the bias-corrected
      second moment lies between zero and G squared (four times beta1 squared G
      squared for ChronoBelief). */
  lemma MomentBounds(e: Setting, evs: seq<Event>, i: nat, j: nat, g: real)
    requires ValidSetting(e) && PossibleRun(e, evs)
    requires Adaptive(e, e.start, i, j) && ZeroMoments(e.start, i, j)
    requires |Run(e, evs).history| > 0 && Within(GradientsAt(e, Run(e, evs).history, i, j), -g, g)
    ensures CorrectedWithin(e, Run(e, evs).state, i, j, -g, g, Ceiling(e.c.name == ChronoBelief, e.c.beta1, g))
  {
    var xs := Run(e, evs).history;
    LinearHistory(e, evs);
    HistoryApplied(e, evs);
    FoldsCorrected(e, xs, i, j, -g, g, g);
  }

  lemma HistoryApplied(e: Setting, evs: seq<Event>)
    requires ValidSetting(e) && PossibleRun(e, evs)
    ensures Applied(e, Run(e, evs).history)
  {
    var xs := Run(e, evs).history;
    RunApplied(e, evs, |xs|);
    assert xs[..|xs|] == xs;
  }

  /** Gradient clipping at G makes G such a bound, whatever gradients are passed. */
  lemma ClippedMomentBounds(e: Setting, evs: seq<Event>, i: nat, j: nat)
    requires ValidSetting(e) && PossibleRun(e, evs) && e.c.gradClip.Some?
    requires Adaptive(e, e.start, i, j) && ZeroMoments(e.start, i, j)
    requires |Run(e, evs).history| > 0
    ensures var g := e.c.gradClip.value;
      CorrectedWithin(e, Run(e, evs).state, i, j, -g, g, Ceiling(e.c.name == ChronoBelief, e.c.beta1, g))
  {
    HistoryApplied(e, evs);
    HistoryClipped(e, Run(e, evs).history, i, j);
    MomentBounds(e, evs, i, j, e.c.gradClip.value);
  }

  /** Under a constant applied gradient the corrected first moment is that gradient. */
  lemma ConstantGradient(e: Setting, xs: seq<Input>, i: nat, j: nat, g: real)
    requires Applied(e, xs) && xs != [] && Adaptive(e, e.start, i, j) && ZeroMoments(e.start, i, j)
    requires forall n :: 0 <= n < |xs| ==> GradientsAt(e, xs, i, j)[n] == g
    ensures var s := Replay(e, xs);
      && LaidOut(e.c, s) && i < |s.master| && Correction(e.c.beta1, |xs|) > 0.0
      && CoordinateAt(s, i, j).m / Correction(e.c.beta1, |xs|) == g
  {
    AppliedState(e, xs);
    FoldsCorrected(e, xs, i, j, g, g, if g < 0.0 then -g else g);
  }

  // ----- Muon's auxiliary optimizer is AdamW -----

  /** The AdamW configuration with Muon's auxiliary rate and decay. */
  function AsAdamW(c: Config): Config {
    c.(name := AdamW, learningRate := c.auxiliaryRate, weightDecay := c.auxiliaryDecay)
  }

  lemma DecoupledIsCoupled(c: Config, f: Foreign, r: Rates, at: Coordinate, g: real)
    requires Genuine(f) && Sound(c, r) && c.name == Muon
    ensures Scalar(c, f, r, at, g) == Scalar(AsAdamW(c), f, r, at, g)
  {
    var m, v := Ema(c.beta1, at.m, g), Ema(c.beta2, at.v, Square(g));
    Recouple(at.p, r.rate, r.decay, Direction(c, f, r, m, v));
  }

  lemma Recouple(p: real, rate: real, decay: real, d: real)
    ensures p * (1.0 - rate * decay) - rate * d == p - rate * (d + decay * p)
  {
  }

  lemma UpdateAgrees(c: Config, f: Foreign, scale: real, step: nat, s: Slot, g: Tensor)
    requires Genuine(f) && ValidConfig(c) && step >= 1 && c.name == Muon && |s.p.shape| != 2
    ensures Update(c, f, scale, step, 0, s, g) == Update(AsAdamW(c), f, scale, step, 0, s, g)
  {
    var r := RatesAt(c, f, scale, step, 0, true);
    assert r == RatesAt(AsAdamW(c), f, scale, step, 0, false);
    forall j: nat
      ensures Scalar(c, f, r, CoordinateOf(s, j), At(g, j)) == Scalar(AsAdamW(c), f, r, CoordinateOf(s, j), At(g, j))
    {
      DecoupledIsCoupled(c, f, r, CoordinateOf(s, j), At(g, j));
    }
  }

  ghost predicate NoMatrices(s: State) {
    forall i :: 0 <= i < |s.master| ==> |s.master[i].shape| != 2
  }

  lemma ClippedAgrees(c: Config, f: Foreign, gs: seq<Tensor>)
    requires Genuine(f)
    ensures Clipped(AsAdamW(c), f, gs) == Clipped(c, f, gs)
  {
  }

  lemma SlotAgrees(e: Setting, s: State, x: Input, i: nat)
    requires Applicable(e, s, x) && e.c.name == Muon && i < |s.master| && |s.master[i].shape| != 2
    requires ValidConfig(AsAdamW(e.c))
    ensures NextSlot(AsAdamW(e.c), e.f, s, x, i) == NextSlot(e.c, e.f, s, x, i)
  {
    ClippedAgrees(e.c, e.f, x.gradients);
    UpdateAgrees(e.c, e.f, Scale(e.f, e.c.schedule, s.step + 1).value, s.step + 1,
                 Slot(s.master[i], s.first[i], s.second[i]), Clipped(e.c, e.f, x.gradients)[i]);
  }

  lemma NextAgrees(e: Setting, s: State, x: Input)
    requires Applicable(e, s, x) && e.c.name == Muon && NoMatrices(s) && ValidSetting(e.(c := AsAdamW(e.c)))
    ensures Applicable(e.(c := AsAdamW(e.c)), s, x)
    ensures Next(AsAdamW(e.c), e.f, s, x) == Next(e.c, e.f, s, x) && NoMatrices(Next(e.c, e.f, s, x))
  {
    forall i | 0 <= i < |s.master|
      ensures NextSlot(AsAdamW(e.c), e.f, s, x, i) == NextSlot(e.c, e.f, s, x, i)
    {
      SlotAgrees(e, s, x, i);
    }
  }

  /** On parameters none of which is a matrix, Muon is AdamW with the auxiliary
      rate and decay: every history leads to the same state. */
  lemma {:induction false} MuonWithoutMatrices(e: Setting, xs: seq<Input>)
    requires ValidSetting(e) && e.c.name == Muon && NoMatrices(e.start)
    ensures Replay(e.(c := AsAdamW(e.c)), xs) == Replay(e, xs) && NoMatrices(Replay(e, xs))
  {
    var a := e.(c := AsAdamW(e.c));
    assert ValidSetting(a);
    if xs != [] {
      var t, x := xs[..|xs| - 1], xs[|xs| - 1];
      MuonWithoutMatrices(e, t);
      var s := Replay(e, t);
      assert Applicable(a, s, x) <==> Applicable(e, s, x);
      if Applicable(e, s, x) { NextAgrees(e, s, x); }
    }
  }
}
