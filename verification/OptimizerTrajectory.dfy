/** Where every committed history leads the parameters: start value minus the sum
    of the steps, each a function of the gradients committed until then. */
module OptimizerTrajectory {
  import opened Wrappers
  import opened Moments
  import opened OptimizerModel
  import opened OptimizerHistory
  import opened OptimizerBounds

  // ----- one coordinate of a tensor that is updated pointwise -----

  ghost predicate Indexed(s: State, i: nat, j: nat) {
    i < |s.master| == |s.first| == |s.second| && j < |s.master[i].data|
  }

  /** Every tensor but Muon's matrices is updated coordinate by coordinate. */
  ghost predicate Pointwise(e: Setting, s: State, i: nat, j: nat) {
    Indexed(s, i, j) && !(e.c.name == Muon && |s.master[i].shape| == 2)
  }

  /** The parameter and its moments at a coordinate, after a history. */
  ghost function Point(e: Setting, xs: seq<Input>, i: nat, j: nat): Coordinate {
    var s := Replay(e, xs);
    if i < |s.master| == |s.first| == |s.second| then CoordinateAt(s, i, j) else Coordinate(0.0, 0.0, 0.0)
  }

  lemma NextPointwise(e: Setting, s: State, x: Input, i: nat, j: nat)
    requires Applicable(e, s, x) && LaidOut(e.c, s) && Pointwise(e, s, i, j)
    ensures var scale := Scale(e.f, e.c.schedule, s.step + 1).value;
      var r := RatesAt(e.c, e.f, scale, s.step + 1, AgeOf(e.c, x), e.c.name == Muon);
      CoordinateAt(Next(e.c, e.f, s, x), i, j)
        == Scalar(e.c, e.f, r, CoordinateAt(s, i, j), At(Clipped(e.c, e.f, x.gradients)[i], j))
    ensures Pointwise(e, Next(e.c, e.f, s, x), i, j)
  {
  }

  lemma {:induction false} ReplayPointwise(e: Setting, xs: seq<Input>, i: nat, j: nat)
    requires Applied(e, xs) && Pointwise(e, e.start, i, j)
    ensures Pointwise(e, Replay(e, xs), i, j)
  {
    if xs != [] {
      var t := xs[..|xs| - 1];
      ReplayPointwise(e, t, i, j);
      AppliedState(e, t);
      NextPointwise(e, Replay(e, t), xs[|xs| - 1], i, j);
    }
  }

  // ----- what a step is made of -----

  /** The scheduled learning rate of the n-th update; Muon's pointwise tensors use
      its auxiliary rate. */
  function StepRate(e: Setting, n: nat): real
    requires Genuine(e.f) && n >= 1
  {
    (if e.c.name == Muon then e.c.auxiliaryRate else e.c.learningRate) * ScaleAt(e, n)
  }

  function ScaleAt(e: Setting, n: nat): real
    requires Genuine(e.f) && n >= 1
  {
    var scale := Scale(e.f, e.c.schedule, n);
    if scale.Some? then scale.value else 0.0
  }

  function Decay(e: Setting): real {
    if e.c.name == Muon then e.c.auxiliaryDecay else e.c.weightDecay
  }

  /** The bias-corrected first moment over the root of the second, of a sequence of
      gradients. */
  function Adapted(c: Config, f: Foreign, belief: bool, gs: seq<real>): real
    requires Genuine(f) && ValidConfig(c) && gs != []
  {
    CorrectionPositive(c.beta1, |gs|);
    CorrectionPositive(c.beta2, |gs|);
    (FirstFold(c.beta1, gs) / Correction(c.beta1, |gs|))
      / (f.sqrt(SecondFold(belief, c.beta1, c.beta2, gs) / Correction(c.beta2, |gs|)) + c.epsilon)
  }

  /** The heavy-ball sum of a sequence: each entry lives on, shrunk by mu a step. */
  function Heavy(mu: real, es: seq<real>): real {
    if es == [] then 0.0 else Rolled(mu, Heavy(mu, es[..|es| - 1]), es[|es| - 1])
  }

  /** The gradients with the decay of the parameter added to each. */
  ghost function Effective(e: Setting, xs: seq<Input>, i: nat, j: nat): (es: seq<real>)
    requires Genuine(e.f)
    ensures |es| == |xs|
  {
    if xs == [] then []
    else
      var t := xs[..|xs| - 1];
      Effective(e, t, i, j) + [Dragged(e.c.weightDecay, Point(e, t, i, j).p, LastGradient(e, xs, i, j))]
  }

  function Dragged(decay: real, p: real, g: real): real {
    g + decay * p
  }

  /** The gradient that the last input of a history applies at a coordinate. */
  ghost function LastGradient(e: Setting, xs: seq<Input>, i: nat, j: nat): real
    requires Genuine(e.f) && xs != []
  {
    GradientsAt(e, xs, i, j)[|xs| - 1]
  }

  /** How far the last input of a history lies behind its safe boundary, which is
      the first boundary and one more for each commit before it. */
  ghost function AgeAt(e: Setting, xs: seq<Input>): nat
    requires xs != []
  {
    var source := xs[|xs| - 1].source;
    var boundary := e.start.boundary + |xs| - 1;
    if source.Some? && source.value <= boundary then boundary - source.value else 0
  }

  /** The direction of the last update of a history, decay included. */
  ghost function Course(e: Setting, xs: seq<Input>, i: nat, j: nat): real
    requires ValidSetting(e) && xs != []
  {
    var gs, p := GradientsAt(e, xs, i, j), Point(e, xs[..|xs| - 1], i, j).p;
    match e.c.name
    case Sgd => LastGradient(e, xs, i, j)
    case Sgdm => Heavy(e.c.momentum, Effective(e, xs, i, j))
    case Nag => Rolled(e.c.momentum, Heavy(e.c.momentum, Effective(e, xs, i, j)), Effective(e, xs, i, j)[|xs| - 1])
    case Lion => Dragged(Decay(e), p, LionSign(e.c, gs))
    case Adam => Adapted(e.c, e.f, false, gs)
    case AdamW => Dragged(Decay(e), p, Adapted(e.c, e.f, false, gs))
    case Muon => Dragged(Decay(e), p, Adapted(e.c, e.f, false, gs))
    case ChronoBelief => Dragged(Decay(e), p, Scaled(Kappa(e.c, e.f, AgeAt(e, xs)), Adapted(e.c, e.f, true, gs)))
  }

  /** The sign of Lion's look at the last gradient from its average of the others. */
  function LionSign(c: Config, gs: seq<real>): real
    requires gs != []
  {
    Sign(Ema(c.beta1, FirstFold(c.beta2, gs[..|gs| - 1]), gs[|gs| - 1]))
  }

  // ----- every step follows its course -----

  lemma {:induction false} AppliedBoundary(e: Setting, xs: seq<Input>)
    requires Applied(e, xs)
    ensures Replay(e, xs).boundary == e.start.boundary + if e.c.name == ChronoBelief then |xs| else 0
  {
    if xs != [] { AppliedBoundary(e, xs[..|xs| - 1]); }
  }

  lemma AgeIsAge(e: Setting, xs: seq<Input>)
    requires Applied(e, xs) && xs != [] && e.c.name == ChronoBelief
    ensures AgeAt(e, xs) == AgeOf(e.c, xs[|xs| - 1])
  {
    AppliedBoundary(e, xs[..|xs| - 1]);
  }

  /** The rates at which the last input of a history is applied. */
  ghost function RatesOf(e: Setting, xs: seq<Input>): Rates
    requires ValidSetting(e) && xs != []
  {
    RatesAt(e.c, e.f, ScaleAt(e, |xs|), |xs|, if e.c.name == ChronoBelief then AgeAt(e, xs) else 0, e.c.name == Muon)
  }

  lemma RatesAgree(e: Setting, xs: seq<Input>)
    requires Applied(e, xs) && xs != []
    ensures var n := |xs| - 1;
      && Replay(e, xs[..n]).step == n && Scale(e.f, e.c.schedule, n + 1) == Some(ScaleAt(e, n + 1))
      && AgeOf(e.c, xs[n]) == if e.c.name == ChronoBelief then AgeAt(e, xs) else 0
  {
    AppliedState(e, xs[..|xs| - 1]);
    if e.c.name == ChronoBelief { AgeIsAge(e, xs); }
  }

  lemma RatesFields(e: Setting, xs: seq<Input>)
    requires ValidSetting(e) && xs != []
    ensures var r := RatesOf(e, xs);
      && Sound(e.c, r) && r.rate == StepRate(e, |xs|) && r.decay == Decay(e)
      && r.correction1 == Correction(e.c.beta1, |xs|) && r.correction2 == Correction(e.c.beta2, |xs|)
      && (e.c.name == ChronoBelief ==> r.kappa == Kappa(e.c, e.f, AgeAt(e, xs)))
  {
  }

  lemma ReplayLast(e: Setting, xs: seq<Input>)
    requires Applied(e, xs) && xs != []
    ensures var s, x := Replay(e, xs[..|xs| - 1]), xs[|xs| - 1];
      && Applicable(e, s, x) && LaidOut(e.c, s) && s.step == |xs| - 1
      && Replay(e, xs) == Next(e.c, e.f, s, x)
  {
    AppliedState(e, xs[..|xs| - 1]);
  }

  lemma NextPoint(e: Setting, s: State, x: Input, r: Rates, i: nat, j: nat)
    requires Applicable(e, s, x) && LaidOut(e.c, s) && Pointwise(e, s, i, j) && Sound(e.c, r)
    requires r == RatesAt(e.c, e.f, Scale(e.f, e.c.schedule, s.step + 1).value, s.step + 1, AgeOf(e.c, x),
                          e.c.name == Muon)
    ensures Pointwise(e, Next(e.c, e.f, s, x), i, j) && i < |x.gradients|
    ensures CoordinateAt(Next(e.c, e.f, s, x), i, j)
         == Scalar(e.c, e.f, r, CoordinateAt(s, i, j), At(Clipped(e.c, e.f, x.gradients)[i], j))
  {
    NextPointwise(e, s, x, i, j);
  }

  lemma StepPoint(e: Setting, xs: seq<Input>, i: nat, j: nat)
    requires Applied(e, xs) && xs != [] && Pointwise(e, e.start, i, j)
    ensures Point(e, xs, i, j)
         == Scalar(e.c, e.f, RatesOf(e, xs), Point(e, xs[..|xs| - 1], i, j), LastGradient(e, xs, i, j))
  {
    var n := |xs| - 1;
    ReplayLast(e, xs);
    ReplayPointwise(e, xs[..n], i, j);
    RatesAgree(e, xs);
    NextPoint(e, Replay(e, xs[..n]), xs[n], RatesOf(e, xs), i, j);
  }

  // ----- the coordinate arithmetic, optimizer by optimizer -----

  /** A parameter after a step along a direction. */
  function Stepped(p: real, rate: real, direction: real): real {
    p - rate * direction
  }

  /** A momentum that keeps a share of itself and takes in a direction. */
  function Rolled(mu: real, m: real, d: real): real {
    mu * m + d
  }

  function Scaled(k: real, d: real): real {
    k * d
  }

  lemma SgdScalar(c: Config, f: Foreign, r: Rates, at: Coordinate, g: real)
    requires Genuine(f) && Sound(c, r) && c.name == Sgd
    ensures Scalar(c, f, r, at, g).p == Stepped(at.p, r.rate, g)
  {
  }

  lemma SgdmScalar(c: Config, f: Foreign, r: Rates, at: Coordinate, g: real)
    requires Genuine(f) && Sound(c, r) && c.name == Sgdm
    ensures var to := Scalar(c, f, r, at, g);
      to.m == Rolled(c.momentum, at.m, Dragged(r.decay, at.p, g)) && to.p == Stepped(at.p, r.rate, to.m)
  {
  }

  lemma RolledBack(mu: real, m: real, d: real)
    ensures d + mu * m == Rolled(mu, m, d)
  {
  }

  lemma NagScalar(c: Config, f: Foreign, r: Rates, at: Coordinate, g: real)
    requires Genuine(f) && Sound(c, r) && c.name == Nag
    ensures var to, d := Scalar(c, f, r, at, g), Dragged(r.decay, at.p, g);
      to.m == Rolled(c.momentum, at.m, d) && to.p == Stepped(at.p, r.rate, Rolled(c.momentum, to.m, d))
  {
    var d := Dragged(r.decay, at.p, g);
    RolledBack(c.momentum, Rolled(c.momentum, at.m, d), d);
  }

  lemma LionScalar(c: Config, f: Foreign, r: Rates, at: Coordinate, g: real)
    requires Genuine(f) && Sound(c, r) && c.name == Lion
    ensures var to := Scalar(c, f, r, at, g);
      && to.m == Ema(c.beta2, at.m, g)
      && to.p == Stepped(at.p, r.rate, Dragged(r.decay, at.p, Sign(Ema(c.beta1, at.m, g))))
  {
    Recouple(at.p, r.rate, r.decay, Sign(Ema(c.beta1, at.m, g)));
  }

  lemma AdamScalar(c: Config, f: Foreign, r: Rates, at: Coordinate, g: real)
    requires Genuine(f) && Sound(c, r) && c.name in {Adam, AdamW, Muon}
    ensures var to := Scalar(c, f, r, at, g);
      var d := Direction(c, f, r, to.m, to.v);
      to.p == Stepped(at.p, r.rate, if c.name == Adam then d else Dragged(r.decay, at.p, d))
  {
    if c.name == Muon {
      var to := Scalar(c, f, r, at, g);
      Recouple(at.p, r.rate, r.decay, Direction(c, f, r, to.m, to.v));
    }
  }

  lemma BeliefScalar(c: Config, f: Foreign, r: Rates, at: Coordinate, g: real)
    requires Genuine(f) && Sound(c, r) && c.name == ChronoBelief
    ensures var to := Scalar(c, f, r, at, g);
      to.p == Stepped(at.p, r.rate, Dragged(r.decay, at.p, Scaled(r.kappa, Direction(c, f, r, to.m, to.v))))
  {
    var to := Scalar(c, f, r, at, g);
    var m, d := to.m / r.correction1, f.sqrt(to.v / r.correction2) + c.epsilon;
    Reassociate(r.rate, r.kappa, m, d);
    Recouple(at.p, r.rate, r.decay, r.kappa * (m / d));
  }

  lemma Reassociate(a: real, b: real, m: real, d: real)
    requires d > 0.0
    ensures a * b * m / d == a * (b * (m / d))
  {
    var q := m / d;
    assert q * d == m;
    assert a * b * m == (a * (b * q)) * d;
  }

  // ----- one step of a history -----

  ghost predicate Fresh(e: Setting, i: nat, j: nat) {
    Pointwise(e, e.start, i, j) && ZeroMoments(e.start, i, j)
  }

  lemma HeavyStep(e: Setting, xs: seq<Input>, i: nat, j: nat)
    requires Applied(e, xs) && xs != [] && Pointwise(e, e.start, i, j) && (e.c.name == Sgdm || e.c.name == Nag)
    ensures var at, to := Point(e, xs[..|xs| - 1], i, j), Point(e, xs, i, j);
      var d := Dragged(e.c.weightDecay, at.p, LastGradient(e, xs, i, j));
      && to.m == Rolled(e.c.momentum, at.m, d)
      && to.p == Stepped(at.p, StepRate(e, |xs|), if e.c.name == Sgdm then to.m else Rolled(e.c.momentum, to.m, d))
  {
    StepPoint(e, xs, i, j);
    RatesFields(e, xs);
    var at, g := Point(e, xs[..|xs| - 1], i, j), LastGradient(e, xs, i, j);
    if e.c.name == Sgdm {
      SgdmScalar(e.c, e.f, RatesOf(e, xs), at, g);
    } else {
      NagScalar(e.c, e.f, RatesOf(e, xs), at, g);
    }
  }

  lemma LionStep(e: Setting, xs: seq<Input>, i: nat, j: nat)
    requires Applied(e, xs) && xs != [] && Pointwise(e, e.start, i, j) && e.c.name == Lion
    ensures var at, to, g := Point(e, xs[..|xs| - 1], i, j), Point(e, xs, i, j), LastGradient(e, xs, i, j);
      && to.m == Ema(e.c.beta2, at.m, g)
      && to.p == Stepped(at.p, StepRate(e, |xs|), Dragged(e.c.weightDecay, at.p, Sign(Ema(e.c.beta1, at.m, g))))
  {
    StepPoint(e, xs, i, j);
    RatesFields(e, xs);
    LionScalar(e.c, e.f, RatesOf(e, xs), Point(e, xs[..|xs| - 1], i, j), LastGradient(e, xs, i, j));
  }

  lemma SgdStep(e: Setting, xs: seq<Input>, i: nat, j: nat)
    requires Applied(e, xs) && xs != [] && Pointwise(e, e.start, i, j) && e.c.name == Sgd
    ensures Point(e, xs, i, j).p
         == Stepped(Point(e, xs[..|xs| - 1], i, j).p, StepRate(e, |xs|), LastGradient(e, xs, i, j))
  {
    StepPoint(e, xs, i, j);
    RatesFields(e, xs);
    SgdScalar(e.c, e.f, RatesOf(e, xs), Point(e, xs[..|xs| - 1], i, j), LastGradient(e, xs, i, j));
  }

  /** The direction of the bias-corrected moments that a history leaves. */
  ghost function MomentDirection(e: Setting, xs: seq<Input>, i: nat, j: nat): real
    requires ValidSetting(e) && xs != []
  {
    Direction(e.c, e.f, RatesOf(e, xs), Point(e, xs, i, j).m, Point(e, xs, i, j).v)
  }

  lemma AdamStep(e: Setting, xs: seq<Input>, i: nat, j: nat)
    requires Applied(e, xs) && xs != [] && Pointwise(e, e.start, i, j) && e.c.name in {Adam, AdamW, Muon}
    ensures var at, to, d := Point(e, xs[..|xs| - 1], i, j), Point(e, xs, i, j), MomentDirection(e, xs, i, j);
      to.p == Stepped(at.p, StepRate(e, |xs|), if e.c.name == Adam then d else Dragged(Decay(e), at.p, d))
  {
    StepPoint(e, xs, i, j);
    RatesFields(e, xs);
    AdamScalar(e.c, e.f, RatesOf(e, xs), Point(e, xs[..|xs| - 1], i, j), LastGradient(e, xs, i, j));
  }

  lemma BeliefStep(e: Setting, xs: seq<Input>, i: nat, j: nat)
    requires Applied(e, xs) && xs != [] && Pointwise(e, e.start, i, j) && e.c.name == ChronoBelief
    ensures var at, to, d := Point(e, xs[..|xs| - 1], i, j), Point(e, xs, i, j), MomentDirection(e, xs, i, j);
      to.p == Stepped(at.p, StepRate(e, |xs|), Dragged(Decay(e), at.p, Scaled(Kappa(e.c, e.f, AgeAt(e, xs)), d)))
  {
    StepPoint(e, xs, i, j);
    RatesFields(e, xs);
    BeliefScalar(e.c, e.f, RatesOf(e, xs), Point(e, xs[..|xs| - 1], i, j), LastGradient(e, xs, i, j));
  }

  // ----- the moments of a history -----

  lemma GradientsSplit(e: Setting, xs: seq<Input>, i: nat, j: nat)
    requires Genuine(e.f) && xs != []
    ensures var gs := GradientsAt(e, xs, i, j);
      gs[..|gs| - 1] == GradientsAt(e, xs[..|xs| - 1], i, j) && gs[|gs| - 1] == LastGradient(e, xs, i, j)
  {
  }

  lemma EffectiveSplit(e: Setting, xs: seq<Input>, i: nat, j: nat)
    requires Genuine(e.f) && xs != []
    ensures var es, t := Effective(e, xs, i, j), xs[..|xs| - 1];
      && es[..|es| - 1] == Effective(e, t, i, j)
      && es[|es| - 1] == Dragged(e.c.weightDecay, Point(e, t, i, j).p, LastGradient(e, xs, i, j))
  {
  }

  lemma FirstFoldSplit(beta: real, gs: seq<real>)
    requires gs != []
    ensures FirstFold(beta, gs) == Ema(beta, FirstFold(beta, gs[..|gs| - 1]), gs[|gs| - 1])
  {
  }

  lemma HeavySplit(mu: real, es: seq<real>)
    requires es != []
    ensures Heavy(mu, es) == Rolled(mu, Heavy(mu, es[..|es| - 1]), es[|es| - 1])
  {
  }

  lemma StartPoint(e: Setting, i: nat, j: nat)
    requires Fresh(e, i, j)
    ensures Point(e, [], i, j) == Coordinate(At(e.start.master[i], j), 0.0, 0.0)
  {
  }

  lemma {:induction false} LionMoment(e: Setting, xs: seq<Input>, i: nat, j: nat)
    requires Applied(e, xs) && Fresh(e, i, j) && e.c.name == Lion
    ensures Point(e, xs, i, j).m == FirstFold(e.c.beta2, GradientsAt(e, xs, i, j))
  {
    if xs == [] {
      StartPoint(e, i, j);
    } else {
      LionMoment(e, xs[..|xs| - 1], i, j);
      LionStep(e, xs, i, j);
      GradientsSplit(e, xs, i, j);
      FirstFoldSplit(e.c.beta2, GradientsAt(e, xs, i, j));
    }
  }

  lemma {:induction false} HeavyMoment(e: Setting, xs: seq<Input>, i: nat, j: nat)
    requires Applied(e, xs) && Fresh(e, i, j) && (e.c.name == Sgdm || e.c.name == Nag)
    ensures Point(e, xs, i, j).m == Heavy(e.c.momentum, Effective(e, xs, i, j))
  {
    if xs == [] {
      StartPoint(e, i, j);
    } else {
      HeavyMoment(e, xs[..|xs| - 1], i, j);
      HeavyStep(e, xs, i, j);
      EffectiveSplit(e, xs, i, j);
      HeavySplit(e.c.momentum, Effective(e, xs, i, j));
    }
  }

  lemma AdaptivePoint(e: Setting, xs: seq<Input>, i: nat, j: nat)
    requires Applied(e, xs) && Fresh(e, i, j) && e.c.name in {Adam, AdamW, Muon, ChronoBelief}
    ensures Point(e, xs, i, j).m == FirstFold(e.c.beta1, GradientsAt(e, xs, i, j))
    ensures Point(e, xs, i, j).v
         == SecondFold(e.c.name == ChronoBelief, e.c.beta1, e.c.beta2, GradientsAt(e, xs, i, j))
  {
    MomentsAreFolds(e, xs, i, j);
  }

  lemma DirectionAdapted(c: Config, f: Foreign, r: Rates, belief: bool, gs: seq<real>)
    requires Genuine(f) && ValidConfig(c) && Sound(c, r) && gs != []
    requires r.correction1 == Correction(c.beta1, |gs|) && r.correction2 == Correction(c.beta2, |gs|)
    ensures Direction(c, f, r, FirstFold(c.beta1, gs), SecondFold(belief, c.beta1, c.beta2, gs))
         == Adapted(c, f, belief, gs)
  {
  }

  lemma AdaptiveMoments(e: Setting, xs: seq<Input>, i: nat, j: nat)
    requires Applied(e, xs) && xs != [] && Fresh(e, i, j) && e.c.name in {Adam, AdamW, Muon, ChronoBelief}
    ensures MomentDirection(e, xs, i, j) == Adapted(e.c, e.f, e.c.name == ChronoBelief, GradientsAt(e, xs, i, j))
  {
    AdaptivePoint(e, xs, i, j);
    RatesFields(e, xs);
    DirectionAdapted(e.c, e.f, RatesOf(e, xs), e.c.name == ChronoBelief, GradientsAt(e, xs, i, j));
  }

  // ----- every step follows its course -----

  lemma HeavyFollows(e: Setting, xs: seq<Input>, i: nat, j: nat)
    requires Applied(e, xs) && xs != [] && Fresh(e, i, j) && (e.c.name == Sgdm || e.c.name == Nag)
    ensures Point(e, xs, i, j).p == Stepped(Point(e, xs[..|xs| - 1], i, j).p, StepRate(e, |xs|), Course(e, xs, i, j))
  {
    HeavyStep(e, xs, i, j);
    HeavyMoment(e, xs, i, j);
    EffectiveSplit(e, xs, i, j);
  }

  lemma LionFollows(e: Setting, xs: seq<Input>, i: nat, j: nat)
    requires Applied(e, xs) && xs != [] && Fresh(e, i, j) && e.c.name == Lion
    ensures Point(e, xs, i, j).p == Stepped(Point(e, xs[..|xs| - 1], i, j).p, StepRate(e, |xs|), Course(e, xs, i, j))
  {
    LionStep(e, xs, i, j);
    LionMoment(e, xs[..|xs| - 1], i, j);
    GradientsSplit(e, xs, i, j);
  }

  lemma AdaptiveFollows(e: Setting, xs: seq<Input>, i: nat, j: nat)
    requires Applied(e, xs) && xs != [] && Fresh(e, i, j) && e.c.name in {Adam, AdamW, Muon, ChronoBelief}
    ensures Point(e, xs, i, j).p == Stepped(Point(e, xs[..|xs| - 1], i, j).p, StepRate(e, |xs|), Course(e, xs, i, j))
  {
    AdaptiveMoments(e, xs, i, j);
    if e.c.name == ChronoBelief {
      BeliefStep(e, xs, i, j);
    } else {
      AdamStep(e, xs, i, j);
    }
  }

  /** Every commit of every optimizer moves a parameter by the scheduled rate along
      the course that the committed gradients set. */
  lemma StepFollows(e: Setting, xs: seq<Input>, i: nat, j: nat)
    requires Applied(e, xs) && xs != [] && Fresh(e, i, j)
    ensures Point(e, xs, i, j).p == Stepped(Point(e, xs[..|xs| - 1], i, j).p, StepRate(e, |xs|), Course(e, xs, i, j))
  {
    match e.c.name
    case Sgd => SgdStep(e, xs, i, j);
    case Sgdm => HeavyFollows(e, xs, i, j);
    case Nag => HeavyFollows(e, xs, i, j);
    case Lion => LionFollows(e, xs, i, j);
    case Adam => AdaptiveFollows(e, xs, i, j);
    case AdamW => AdaptiveFollows(e, xs, i, j);
    case Muon => AdaptiveFollows(e, xs, i, j);
    case ChronoBelief => AdaptiveFollows(e, xs, i, j);
  }

  /** The sum of the steps of a history. */
  ghost function Travelled(e: Setting, xs: seq<Input>, i: nat, j: nat): real
    requires ValidSetting(e)
  {
    if xs == [] then 0.0
    else Travelled(e, xs[..|xs| - 1], i, j) + Scaled(StepRate(e, |xs|), Course(e, xs, i, j))
  }

  lemma SteppedOn(start: real, way: real, p: real, rate: real, d: real)
    requires p == start - way
    ensures Stepped(p, rate, d) == start - (way + Scaled(rate, d))
  {
  }

  lemma TravelledSplit(e: Setting, xs: seq<Input>, i: nat, j: nat)
    requires ValidSetting(e) && xs != []
    ensures Travelled(e, xs, i, j)
         == Travelled(e, xs[..|xs| - 1], i, j) + Scaled(StepRate(e, |xs|), Course(e, xs, i, j))
  {
  }

  /** After any history of any optimizer, a parameter is its start value minus the
      sum of the scheduled rates times the directions of the committed gradients. */
  lemma {:induction false} Descent(e: Setting, xs: seq<Input>, i: nat, j: nat)
    requires Applied(e, xs) && Fresh(e, i, j)
    ensures Point(e, xs, i, j).p == At(e.start.master[i], j) - Travelled(e, xs, i, j)
  {
    if xs == [] {
      StartPoint(e, i, j);
    } else {
      var t := xs[..|xs| - 1];
      Descent(e, t, i, j);
      StepFollows(e, xs, i, j);
      TravelledSplit(e, xs, i, j);
      SteppedOn(At(e.start.master[i], j), Travelled(e, t, i, j), Point(e, t, i, j).p, StepRate(e, |xs|),
                Course(e, xs, i, j));
    }
  }

  /** So in every run: the state lies where the committed gradients lead. */
  lemma RunDescent(e: Setting, evs: seq<Event>, i: nat, j: nat)
    requires ValidSetting(e) && PossibleRun(e, evs) && Fresh(e, i, j)
    ensures var w := Run(e, evs);
      && i < |w.state.master|
      && At(w.state.master[i], j) == At(e.start.master[i], j) - Travelled(e, w.history, i, j)
  {
    LinearHistory(e, evs);
    HistoryApplied(e, evs);
    ReplayPointwise(e, Run(e, evs).history, i, j);
    Descent(e, Run(e, evs).history, i, j);
  }

  // ----- against the gradient -----

  /** x and y lie on the same side of zero, and neither is zero. */
  predicate SameSide(x: real, y: real) {
    (x > 0.0 && y > 0.0) || (x < 0.0 && y < 0.0)
  }

  ghost predicate AllEqual(gs: seq<real>, g: real) {
    forall n :: 0 <= n < |gs| ==> gs[n] == g
  }

  lemma ScaledSide(k: real, g: real, d: real)
    requires k > 0.0 && SameSide(g, d)
    ensures SameSide(g, Scaled(k, d))
  {
    if d > 0.0 { MulPositive(k, d); } else { MulPositive(k, -d); }
  }

  lemma RolledSide(mu: real, g: real, m: real)
    requires mu >= 0.0 && (m == 0.0 || SameSide(g, m)) && g != 0.0
    ensures SameSide(g, Rolled(mu, m, g))
  {
    if mu > 0.0 && m > 0.0 { MulPositive(mu, m); }
    if mu > 0.0 && m < 0.0 { MulPositive(mu, -m); }
  }

  lemma {:induction false} HeavySide(mu: real, es: seq<real>, g: real)
    requires mu >= 0.0 && AllEqual(es, g) && g != 0.0
    ensures if es == [] then Heavy(mu, es) == 0.0 else SameSide(g, Heavy(mu, es))
  {
    if es != [] {
      HeavySide(mu, es[..|es| - 1], g);
      RolledSide(mu, g, Heavy(mu, es[..|es| - 1]));
    }
  }

  lemma Undragged(decay: real, p: real, g: real)
    requires decay == 0.0
    ensures Dragged(decay, p, g) == g
  {
  }

  lemma {:induction false} EffectiveEqual(e: Setting, xs: seq<Input>, i: nat, j: nat, g: real)
    requires Genuine(e.f) && e.c.weightDecay == 0.0 && AllEqual(GradientsAt(e, xs, i, j), g)
    ensures AllEqual(Effective(e, xs, i, j), g)
  {
    if xs != [] {
      var t := xs[..|xs| - 1];
      GradientsSplit(e, xs, i, j);
      assert AllEqual(GradientsAt(e, t, i, j), g) by {
        forall n | 0 <= n < |t| ensures GradientsAt(e, t, i, j)[n] == g {
          assert GradientsAt(e, xs, i, j)[n] == g;
        }
      }
      EffectiveEqual(e, t, i, j, g);
      Undragged(e.c.weightDecay, Point(e, t, i, j).p, LastGradient(e, xs, i, j));
    }
  }

  lemma MixSide(a: real, b: real, x: real, g: real)
    requires a > 0.0 && b > 0.0 && (x == 0.0 || SameSide(g, x)) && g != 0.0
    ensures SameSide(g, Mix(a, b, x, g))
  {
    if g > 0.0 {
      MulPositive(b, g);
      if x > 0.0 { MulPositive(a, x); }
    } else {
      MulPositive(b, -g);
      if x < 0.0 { MulPositive(a, -x); }
    }
  }

  lemma {:induction false} FirstFoldSide(beta: real, gs: seq<real>, g: real)
    requires 0.0 < beta < 1.0 && AllEqual(gs, g) && g != 0.0
    ensures if gs == [] then FirstFold(beta, gs) == 0.0 else SameSide(g, FirstFold(beta, gs))
  {
    if gs != [] {
      FirstFoldSide(beta, gs[..|gs| - 1], g);
      MixSide(beta, 1.0 - beta, FirstFold(beta, gs[..|gs| - 1]), g);
    }
  }

  lemma DivideSide(x: real, d: real, g: real)
    requires d > 0.0 && SameSide(g, x)
    ensures SameSide(g, x / d)
  {
    var q := x / d;
    assert q * d == x;
    if q == 0.0 || (q < 0.0) != (x < 0.0) {
      if q > 0.0 { MulPositive(q, d); }
      if q < 0.0 { MulPositive(-q, d); }
    }
  }

  lemma AdaptedSide(c: Config, f: Foreign, belief: bool, gs: seq<real>, g: real)
    requires Genuine(f) && ValidConfig(c) && gs != [] && AllEqual(gs, g) && g != 0.0
    ensures SameSide(g, Adapted(c, f, belief, gs))
  {
    CorrectionPositive(c.beta1, |gs|);
    CorrectionPositive(c.beta2, |gs|);
    var m, v := FirstFold(c.beta1, gs), SecondFold(belief, c.beta1, c.beta2, gs) / Correction(c.beta2, |gs|);
    FirstFoldSide(c.beta1, gs, g);
    DivideSide(m, Correction(c.beta1, |gs|), g);
    DivideSide(m / Correction(c.beta1, |gs|), f.sqrt(v) + c.epsilon, g);
  }

  lemma LionSide(c: Config, gs: seq<real>, g: real)
    requires ValidConfig(c) && gs != [] && AllEqual(gs, g) && g != 0.0
    ensures SameSide(g, LionSign(c, gs)) && LionSign(c, gs) in {1.0, -1.0}
  {
    var t := gs[..|gs| - 1];
    FirstFoldSide(c.beta2, t, g);
    MixSide(c.beta1, 1.0 - c.beta1, FirstFold(c.beta2, t), g);
  }

  lemma {:induction false} PowPositive(b: real, n: nat)
    requires b > 0.0
    ensures Pow(b, n) > 0.0
  {
    if n > 0 {
      PowPositive(b, n - 1);
      MulPositive(b, Pow(b, n - 1));
    }
  }

  lemma KappaPositive(c: Config, f: Foreign, age: nat)
    requires Genuine(f) && ValidConfig(c)
    ensures Kappa(c, f, age) > 0.0
  {
    SqrtPositive(f, c.beta2);
    DivideSide(c.beta1, f.sqrt(c.beta2), 1.0);
    PowPositive(c.beta1 / f.sqrt(c.beta2), age);
  }

  lemma CourseSide(e: Setting, xs: seq<Input>, i: nat, j: nat, g: real)
    requires ValidSetting(e) && xs != [] && g != 0.0 && AllEqual(GradientsAt(e, xs, i, j), g)
    requires Decay(e) == 0.0 && e.c.momentum >= 0.0
    ensures SameSide(g, Course(e, xs, i, j))
  {
    var gs, p := GradientsAt(e, xs, i, j), Point(e, xs[..|xs| - 1], i, j).p;
    match e.c.name
    case Sgd =>
    case Sgdm =>
      EffectiveEqual(e, xs, i, j, g);
      HeavySide(e.c.momentum, Effective(e, xs, i, j), g);
    case Nag =>
      EffectiveEqual(e, xs, i, j, g);
      HeavySide(e.c.momentum, Effective(e, xs, i, j), g);
      RolledSide(e.c.momentum, g, Heavy(e.c.momentum, Effective(e, xs, i, j)));
    case Lion =>
      LionSide(e.c, gs, g);
      Undragged(Decay(e), p, LionSign(e.c, gs));
    case Adam => AdaptedSide(e.c, e.f, false, gs, g);
    case AdamW =>
      AdaptedSide(e.c, e.f, false, gs, g);
      Undragged(Decay(e), p, Adapted(e.c, e.f, false, gs));
    case Muon =>
      AdaptedSide(e.c, e.f, false, gs, g);
      Undragged(Decay(e), p, Adapted(e.c, e.f, false, gs));
    case ChronoBelief =>
      var kappa := Kappa(e.c, e.f, AgeAt(e, xs));
      AdaptedSide(e.c, e.f, true, gs, g);
      KappaPositive(e.c, e.f, AgeAt(e, xs));
      ScaledSide(kappa, g, Adapted(e.c, e.f, true, gs));
      Undragged(Decay(e), p, Scaled(kappa, Adapted(e.c, e.f, true, gs)));
  }

  lemma SteppedSide(p: real, rate: real, g: real, d: real)
    requires rate > 0.0 && SameSide(g, d)
    ensures SameSide(g, p - Stepped(p, rate, d))
  {
    ScaledSide(rate, g, d);
  }

  /** Without decay and at a positive rate, a constant gradient other than zero
      moves the parameter strictly against its sign, at every commit and under
      every optimizer. */
  lemma AgainstTheGradient(e: Setting, xs: seq<Input>, i: nat, j: nat, g: real)
    requires Applied(e, xs) && xs != [] && Fresh(e, i, j) && g != 0.0 && AllEqual(GradientsAt(e, xs, i, j), g)
    requires Decay(e) == 0.0 && e.c.momentum >= 0.0 && StepRate(e, |xs|) > 0.0
    ensures var before, after := Point(e, xs[..|xs| - 1], i, j).p, Point(e, xs, i, j).p;
      if g > 0.0 then after < before else before < after
  {
    StepFollows(e, xs, i, j);
    CourseSide(e, xs, i, j, g);
    SteppedSide(Point(e, xs[..|xs| - 1], i, j).p, StepRate(e, |xs|), g, Course(e, xs, i, j));
  }
}
