/** Muon's matrices: every committed history leads them along the
    orthogonalized look-ahead of the gradients committed until then. */
module OptimizerMatrices {
  import opened Moments
  import opened OptimizerModel
  import opened OptimizerHistory
  import opened OptimizerBounds
  import opened OptimizerTrajectory

  /** The root of how much taller than wide a matrix is, at least one. */
  function Tall(f: Foreign, shape: seq<nat>): real
    requires |shape| == 2
  {
    f.sqrt(if shape[0] <= shape[1] || shape[1] == 0 then 1.0 else shape[0] as real / shape[1] as real)
  }

  lemma DivideTimes(a: real, b: real)
    requires b > 0.0
    ensures a / b * b == a
  {
  }

  /** Its square times the width is the greater of height and width. */
  lemma TallExactly(f: Foreign, shape: seq<nat>)
    requires Genuine(f) && |shape| == 2 && shape[1] > 0
    ensures Tall(f, shape) >= 0.0
    ensures Square(Tall(f, shape)) * shape[1] as real == (if shape[0] <= shape[1] then shape[1] else shape[0]) as real
  {
    var ratio := if shape[0] <= shape[1] then 1.0 else shape[0] as real / shape[1] as real;
    DivideTimes(shape[0] as real, shape[1] as real);
    if shape[0] > shape[1] { DivideSide(shape[0] as real, shape[1] as real, 1.0); }
    assert Square(f.sqrt(ratio)) == ratio;
  }

  /** Momentum and look-ahead of a matrix, as tensors. */
  function Momentum(c: Config, m: Tensor, g: Tensor): Tensor {
    m.(data := seq(|m.data|, j requires 0 <= j => Ema(c.momentum, At(m, j), At(g, j))))
  }

  function Ahead(c: Config, m: Tensor, g: Tensor): Tensor {
    g.(data := seq(|g.data|, j requires 0 <= j => Ema(c.momentum, At(m, j), At(g, j))))
  }

  lemma MixCommutes(mu: real, m: real, g: real)
    ensures mu * m + (1.0 - mu) * g == Ema(mu, m, g) && (1.0 - mu) * g + mu * m == Ema(mu, m, g)
  {
  }

  lemma MatrixTensors(c: Config, f: Foreign, r: Rates, s: Slot, g: Tensor)
    requires |s.p.shape| == 2
    ensures var to, m := MuonMatrix(c, f, r, s, g), Momentum(c, s.m, g);
      var d := f.orthogonalize(Ahead(c, m, g));
      && to.m == m && to.v == s.v && to.p.shape == s.p.shape && |to.p.data| == |s.p.data|
      && forall j :: 0 <= j < |s.p.data| ==>
           At(to.p, j) == At(s.p, j) * (1.0 - r.rate * r.decay) - r.rate * Tall(f, s.p.shape) * At(d, j)
  {
    var mu := c.momentum;
    var m := s.m.(data := seq(|s.m.data|, j requires 0 <= j => mu * At(s.m, j) + (1.0 - mu) * At(g, j)));
    assert m == Momentum(c, s.m, g) by {
      forall j | 0 <= j < |s.m.data| ensures m.data[j] == Momentum(c, s.m, g).data[j] {
        MixCommutes(mu, At(s.m, j), At(g, j));
      }
    }
    var nesterov := g.(data := seq(|g.data|, j requires 0 <= j => (1.0 - mu) * At(g, j) + mu * At(m, j)));
    assert nesterov == Ahead(c, m, g) by {
      forall j | 0 <= j < |g.data| ensures nesterov.data[j] == Ahead(c, m, g).data[j] {
        MixCommutes(mu, At(m, j), At(g, j));
      }
    }
  }

  lemma MatrixPoint(p: real, rate: real, decay: real, tall: real, d: real)
    ensures p * (1.0 - rate * decay) - rate * tall * d == Stepped(p, rate, Dragged(decay, p, Scaled(tall, d)))
  {
    Recouple(p, rate, decay, tall * d);
    assert rate * tall * d == rate * (tall * d);
  }

  /** What an update makes of a matrix. */
  lemma MatrixSteps(c: Config, f: Foreign, r: Rates, s: Slot, g: Tensor)
    requires |s.p.shape| == 2
    ensures var to, m := MuonMatrix(c, f, r, s, g), Momentum(c, s.m, g);
      var d := f.orthogonalize(Ahead(c, m, g));
      && to.m == m && to.v == s.v && to.p.shape == s.p.shape && |to.p.data| == |s.p.data|
      && forall j :: 0 <= j < |s.p.data| ==>
           At(to.p, j)
             == Stepped(At(s.p, j), r.rate, Dragged(r.decay, At(s.p, j), Scaled(Tall(f, s.p.shape), At(d, j))))
  {
    MatrixTensors(c, f, r, s, g);
    var to, d := MuonMatrix(c, f, r, s, g), f.orthogonalize(Ahead(c, Momentum(c, s.m, g), g));
    forall j | 0 <= j < |s.p.data|
      ensures At(to.p, j)
           == Stepped(At(s.p, j), r.rate, Dragged(r.decay, At(s.p, j), Scaled(Tall(f, s.p.shape), At(d, j))))
    {
      MatrixPoint(At(s.p, j), r.rate, r.decay, Tall(f, s.p.shape), At(d, j));
    }
  }

  // ----- along a history -----

  ghost function Rate(e: Setting, n: nat): real
    requires Genuine(e.f) && n >= 1
  {
    e.c.learningRate * ScaleAt(e, n)
  }

  ghost function MatrixRates(e: Setting, s: State, x: Input): Rates
    requires Applicable(e, s, x)
  {
    RatesAt(e.c, e.f, ScaleAt(e, s.step + 1), s.step + 1, AgeOf(e.c, x), false)
  }

  lemma MatrixRatesFields(e: Setting, s: State, x: Input)
    requires Applicable(e, s, x)
    ensures MatrixRates(e, s, x).rate == Rate(e, s.step + 1) && MatrixRates(e, s, x).decay == e.c.weightDecay
  {
  }

  lemma NextIsMatrix(e: Setting, s: State, x: Input, i: nat)
    requires Applicable(e, s, x) && Indexed(s, i, 0) && e.c.name == Muon && |s.master[i].shape| == 2
    ensures var to := MuonMatrix(e.c, e.f, MatrixRates(e, s, x), Slot(s.master[i], s.first[i], s.second[i]),
                                 Clipped(e.c, e.f, x.gradients)[i]);
      Next(e.c, e.f, s, x).master[i] == to.p && Next(e.c, e.f, s, x).first[i] == to.m
  {
  }

  /** What the transition makes of a matrix. */
  lemma NextMatrix(e: Setting, s: State, x: Input, i: nat)
    requires Applicable(e, s, x) && LaidOut(e.c, s) && Indexed(s, i, 0) && e.c.name == Muon && |s.master[i].shape| == 2
    ensures var to, g := Next(e.c, e.f, s, x), Clipped(e.c, e.f, x.gradients)[i];
      var d := e.f.orthogonalize(Ahead(e.c, to.first[i], g));
      && to.first[i] == Momentum(e.c, s.first[i], g)
      && to.master[i].shape == s.master[i].shape && |to.master[i].data| == |s.master[i].data|
      && forall j :: 0 <= j < |s.master[i].data| ==>
           At(to.master[i], j)
             == Stepped(At(s.master[i], j), Rate(e, s.step + 1),
                        Dragged(e.c.weightDecay, At(s.master[i], j), Scaled(Tall(e.f, s.master[i].shape), At(d, j))))
  {
    NextIsMatrix(e, s, x, i);
    MatrixRatesFields(e, s, x);
    MatrixSteps(e.c, e.f, MatrixRates(e, s, x), Slot(s.master[i], s.first[i], s.second[i]),
                Clipped(e.c, e.f, x.gradients)[i]);
  }

  /** The matrix at i is one of Muon's, starts without momentum, and is not empty. */
  ghost predicate FreshMatrix(e: Setting, i: nat) {
    && e.c.name == Muon && Indexed(e.start, i, 0) && |e.start.master[i].shape| == 2
    && forall j: nat :: ZeroMoments(e.start, i, j)
  }

  ghost predicate StaysMatrix(e: Setting, s: State, i: nat) {
    && e.c.name == Muon && Indexed(s, i, 0) && Indexed(e.start, i, 0)
    && s.master[i].shape == e.start.master[i].shape && |s.master[i].shape| == 2
    && |s.master[i].data| == |e.start.master[i].data|
  }

  lemma {:induction false} ReplayMatrix(e: Setting, xs: seq<Input>, i: nat)
    requires Applied(e, xs) && FreshMatrix(e, i)
    ensures StaysMatrix(e, Replay(e, xs), i) && LaidOut(e.c, Replay(e, xs))
  {
    if xs != [] {
      var t := xs[..|xs| - 1];
      ReplayMatrix(e, t, i);
      AppliedState(e, xs);
      NextMatrix(e, Replay(e, t), xs[|xs| - 1], i);
    }
  }

  lemma MatrixStep(e: Setting, xs: seq<Input>, i: nat)
    requires Applied(e, xs) && xs != [] && FreshMatrix(e, i)
    ensures var n := |xs| - 1;
      var s, to, g := Replay(e, xs[..n]), Replay(e, xs), Clipped(e.c, e.f, xs[n].gradients);
      && i < |g| && StaysMatrix(e, s, i) && StaysMatrix(e, to, i)
      && |g[i].data| == |s.first[i].data| == |s.master[i].data|
      && to.first[i] == Momentum(e.c, s.first[i], g[i])
      && var d := e.f.orthogonalize(Ahead(e.c, to.first[i], g[i]));
      forall j :: 0 <= j < |s.master[i].data| ==>
        At(to.master[i], j)
          == Stepped(At(s.master[i], j), Rate(e, |xs|),
                     Dragged(e.c.weightDecay, At(s.master[i], j), Scaled(Tall(e.f, e.start.master[i].shape), At(d, j))))
  {
    var n := |xs| - 1;
    ReplayMatrix(e, xs[..n], i);
    ReplayMatrix(e, xs, i);
    AppliedState(e, xs[..n]);
    NextMatrix(e, Replay(e, xs[..n]), xs[n], i);
  }

  /** The momentum of a matrix is, coordinate by coordinate, the average of the
      gradients committed there. */
  lemma {:induction false} MatrixMoment(e: Setting, xs: seq<Input>, i: nat, j: nat)
    requires Applied(e, xs) && FreshMatrix(e, i) && j < |e.start.master[i].data|
    ensures Point(e, xs, i, j).m == FirstFold(e.c.momentum, GradientsAt(e, xs, i, j))
  {
    ReplayMatrix(e, xs, i);
    if xs == [] {
      assert ZeroMoments(e.start, i, j);
    } else {
      MatrixMoment(e, xs[..|xs| - 1], i, j);
      MatrixStep(e, xs, i);
      GradientsSplit(e, xs, i, j);
      FirstFoldSplit(e.c.momentum, GradientsAt(e, xs, i, j));
    }
  }

  /** The look-ahead of a history: at every coordinate the average of the committed
      gradients, averaged once more with the last of them. */
  ghost function Lookahead(e: Setting, xs: seq<Input>, i: nat): Tensor
    requires Genuine(e.f) && xs != [] && i < |xs[|xs| - 1].gradients|
  {
    var g := Clipped(e.c, e.f, xs[|xs| - 1].gradients)[i];
    g.(data := seq(|g.data|, j requires 0 <= j =>
      Ema(e.c.momentum, FirstFold(e.c.momentum, GradientsAt(e, xs, i, j)), LastGradient(e, xs, i, j))))
  }

  lemma LookaheadIs(e: Setting, xs: seq<Input>, i: nat)
    requires Applied(e, xs) && xs != [] && FreshMatrix(e, i)
    ensures i < |xs[|xs| - 1].gradients| && i < |Replay(e, xs).first|
    ensures Lookahead(e, xs, i)
         == Ahead(e.c, Replay(e, xs).first[i], Clipped(e.c, e.f, xs[|xs| - 1].gradients)[i])
  {
    MatrixStep(e, xs, i);
    var g, m := Clipped(e.c, e.f, xs[|xs| - 1].gradients)[i], Replay(e, xs).first[i];
    forall j | 0 <= j < |g.data| ensures Lookahead(e, xs, i).data[j] == Ahead(e.c, m, g).data[j] {
      MatrixMoment(e, xs, i, j);
    }
  }

  /** The direction of a matrix at a coordinate: its orthogonalized look-ahead,
      stretched by how tall it is, with the decay. */
  ghost function MatrixCourse(e: Setting, xs: seq<Input>, i: nat, j: nat): real
    requires Genuine(e.f) && xs != [] && i < |xs[|xs| - 1].gradients|
    requires i < |e.start.master| && |e.start.master[i].shape| == 2
  {
    Dragged(e.c.weightDecay, Point(e, xs[..|xs| - 1], i, j).p,
            Scaled(Tall(e.f, e.start.master[i].shape), At(e.f.orthogonalize(Lookahead(e, xs, i)), j)))
  }

  /** Every commit moves a matrix of Muon by the scheduled rate along that course. */
  lemma MatrixFollows(e: Setting, xs: seq<Input>, i: nat, j: nat)
    requires Applied(e, xs) && xs != [] && FreshMatrix(e, i) && j < |e.start.master[i].data|
    ensures i < |xs[|xs| - 1].gradients|
    ensures Point(e, xs, i, j).p
         == Stepped(Point(e, xs[..|xs| - 1], i, j).p, Rate(e, |xs|), MatrixCourse(e, xs, i, j))
  {
    MatrixStep(e, xs, i);
    LookaheadIs(e, xs, i);
  }

  ghost function MatrixTravelled(e: Setting, xs: seq<Input>, i: nat, j: nat): real
    requires ValidSetting(e) && i < |e.start.master| && |e.start.master[i].shape| == 2
  {
    if xs == [] || i >= |xs[|xs| - 1].gradients| then 0.0
    else MatrixTravelled(e, xs[..|xs| - 1], i, j) + Scaled(Rate(e, |xs|), MatrixCourse(e, xs, i, j))
  }

  lemma MatrixTravelledSplit(e: Setting, xs: seq<Input>, i: nat, j: nat)
    requires ValidSetting(e) && i < |e.start.master| && |e.start.master[i].shape| == 2
    requires xs != [] && i < |xs[|xs| - 1].gradients|
    ensures MatrixTravelled(e, xs, i, j)
         == MatrixTravelled(e, xs[..|xs| - 1], i, j) + Scaled(Rate(e, |xs|), MatrixCourse(e, xs, i, j))
  {
  }

  /** After any history, a coordinate of a matrix of Muon is its start value minus
      the sum of those steps. */
  lemma {:induction false} MatrixDescent(e: Setting, xs: seq<Input>, i: nat, j: nat)
    requires Applied(e, xs) && FreshMatrix(e, i) && j < |e.start.master[i].data|
    ensures Point(e, xs, i, j).p == At(e.start.master[i], j) - MatrixTravelled(e, xs, i, j)
  {
    if xs != [] {
      var t := xs[..|xs| - 1];
      MatrixDescent(e, t, i, j);
      MatrixFollows(e, xs, i, j);
      MatrixTravelledSplit(e, xs, i, j);
      SteppedOn(At(e.start.master[i], j), MatrixTravelled(e, t, i, j), Point(e, t, i, j).p, Rate(e, |xs|),
                MatrixCourse(e, xs, i, j));
    }
  }
}
