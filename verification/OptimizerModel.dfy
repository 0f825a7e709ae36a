/** The optimizer's proposals and commits as functions of its state.  Tensors
    hold reals; square root, cosine schedule and Newton-Schulz orthogonalization
    are parameters. */
module OptimizerModel {
  import opened Wrappers
  import opened Moments
  import opened Shapes

  datatype Tensor = Tensor(shape: seq<nat>, data: seq<real>)

  predicate Formed(t: Tensor) {
    |t.data| == Numel(t.shape)
  }

  function At(t: Tensor, j: nat): real {
    if j < |t.data| then t.data[j] else 0.0
  }

  datatype Name = Adam | AdamW | ChronoBelief | Lion | Muon | Nag | Sgd | Sgdm
  datatype Schedule = Constant | InverseSqrt | Cosine(horizon: nat)

  datatype Config = Config(
    name: Name, learningRate: real, weightDecay: real, beta1: real, beta2: real, epsilon: real,
    gradClip: Option<real>, momentum: real, auxiliaryRate: real, auxiliaryDecay: real, schedule: Schedule)

  /** What the configuration schema guarantees. */
  predicate ValidConfig(c: Config) {
    && 0.0 < c.beta1 < 1.0 && 0.0 < c.beta2 < 1.0 && c.epsilon > 0.0
    && (c.gradClip.Some? ==> c.gradClip.value > 0.0)
  }

  datatype Foreign = Foreign(sqrt: real -> real, cosine: (nat, nat) -> real, orthogonalize: Tensor -> Tensor)

  /** The square root is one. */
  ghost predicate Genuine(f: Foreign) {
    forall x: real :: f.sqrt(x) >= 0.0 && (x >= 0.0 ==> Square(f.sqrt(x)) == x)
  }

  lemma SqrtPositive(f: Foreign, x: real)
    requires Genuine(f) && x > 0.0
    ensures f.sqrt(x) > 0.0
  {
    assert Square(f.sqrt(x)) == x;
  }

  datatype State = State(master: seq<Tensor>, first: seq<Tensor>, second: seq<Tensor>, step: nat, boundary: nat)

  // ----- allocation -----

  predicate UsesFirst(n: Name) {
    n != Sgd
  }

  predicate UsesSecond(n: Name, shape: seq<nat>) {
    n in {Adam, AdamW, ChronoBelief} || (n == Muon && |shape| != 2)
  }

  function ZerosLike(t: Tensor): (z: Tensor)
    ensures |z.data| == |t.data| && forall j :: 0 <= j < |z.data| ==> z.data[j] == 0.0
  {
    Tensor(t.shape, seq(|t.data|, _ => 0.0))
  }

  const Empty := Tensor([0], [])

  function Initial(c: Config, parameters: seq<Tensor>, boundary: nat): State {
    State(
      parameters,
      seq(|parameters|, i requires 0 <= i < |parameters| =>
        if UsesFirst(c.name) then ZerosLike(parameters[i]) else Empty),
      seq(|parameters|, i requires 0 <= i < |parameters| =>
        if UsesSecond(c.name, parameters[i].shape) then ZerosLike(parameters[i]) else Empty),
      0, boundary)
  }

  /** Moments are allocated like their parameter, or empty. */
  ghost predicate LaidOut(c: Config, s: State) {
    && |s.first| == |s.master| && |s.second| == |s.master|
    && (forall i :: 0 <= i < |s.master| ==>
          Formed(s.master[i])
          && |s.first[i].data| == (if UsesFirst(c.name) then |s.master[i].data| else 0)
          && |s.second[i].data| == (if UsesSecond(c.name, s.master[i].shape) then |s.master[i].data| else 0))
  }

  // ----- one update -----

  /** The scheduled scale of an update, when the schedule still has one. */
  function Scale(f: Foreign, s: Schedule, step: nat): Option<real>
    requires Genuine(f) && step >= 1
  {
    match s
    case Constant => Some(1.0)
    case InverseSqrt => SqrtPositive(f, step as real); Some(1.0 / f.sqrt(step as real))
    case Cosine(horizon) => if step > horizon then None else Some(f.cosine(step, horizon))
  }

  datatype Rates = Rates(rate: real, decay: real, correction1: real, correction2: real, kappa: real)

  predicate Sound(c: Config, r: Rates) {
    r.correction1 > 0.0 && r.correction2 > 0.0 && c.epsilon > 0.0
  }

  function Sign(x: real): real {
    if x > 0.0 then 1.0 else if x < 0.0 then -1.0 else 0.0
  }

  /** The bias-corrected direction of Adam and its kin. */
  function Direction(c: Config, f: Foreign, r: Rates, m: real, v: real): real
    requires Genuine(f) && Sound(c, r)
  {
    (m / r.correction1) / (f.sqrt(v / r.correction2) + c.epsilon)
  }

  /** A parameter with its two moments, at one coordinate. */
  datatype Coordinate = Coordinate(p: real, m: real, v: real)

  function Decoupled(c: Config, f: Foreign, r: Rates, p: real, m: real, v: real): real
    requires Genuine(f) && Sound(c, r)
  {
    p * (1.0 - r.rate * r.decay) - r.rate * Direction(c, f, r, m, v)
  }

  /** One coordinate of every optimizer that works coordinate by coordinate; for
      Muon, of its auxiliary AdamW. */
  function Scalar(c: Config, f: Foreign, r: Rates, at: Coordinate, g: real): Coordinate
    requires Genuine(f) && Sound(c, r)
  {
    var Coordinate(p, m, v) := at;
    match c.name
    case Sgd => Coordinate(p - r.rate * g, m, v)
    case Sgdm =>
      var m' := c.momentum * m + (g + r.decay * p);
      Coordinate(p - r.rate * m', m', v)
    case Nag =>
      var effective := g + r.decay * p;
      var m' := c.momentum * m + effective;
      Coordinate(p - r.rate * (effective + c.momentum * m'), m', v)
    case Lion =>
      Coordinate(p * (1.0 - r.rate * r.decay) - r.rate * Sign(Ema(c.beta1, m, g)), Ema(c.beta2, m, g), v)
    case ChronoBelief =>
      var m' := Ema(c.beta1, m, g);
      var v' := Ema(c.beta2, v, Square(g - m'));
      Coordinate(
        p * (1.0 - r.rate * r.decay)
          - r.rate * r.kappa * (m' / r.correction1) / (f.sqrt(v' / r.correction2) + c.epsilon),
        m', v')
    case Muon =>
      var m', v' := Ema(c.beta1, m, g), Ema(c.beta2, v, Square(g));
      Coordinate(Decoupled(c, f, r, p, m', v'), m', v')
    case Adam =>
      var m', v' := Ema(c.beta1, m, g), Ema(c.beta2, v, Square(g));
      Coordinate(p - r.rate * Direction(c, f, r, m', v'), m', v')
    case AdamW =>
      var m', v' := Ema(c.beta1, m, g), Ema(c.beta2, v, Square(g));
      Coordinate(p - r.rate * (Direction(c, f, r, m', v') + r.decay * p), m', v')
  }

  /** A parameter tensor with its moments. */
  datatype Slot = Slot(p: Tensor, m: Tensor, v: Tensor)

  function CoordinateOf(s: Slot, j: nat): Coordinate {
    Coordinate(At(s.p, j), At(s.m, j), At(s.v, j))
  }

  function Elementwise(c: Config, f: Foreign, r: Rates, s: Slot, g: Tensor): Slot
    requires Genuine(f) && Sound(c, r)
  {
    Slot(s.p.(data := seq(|s.p.data|, j requires 0 <= j => Scalar(c, f, r, CoordinateOf(s, j), At(g, j)).p)),
         s.m.(data := seq(|s.m.data|, j requires 0 <= j => Scalar(c, f, r, CoordinateOf(s, j), At(g, j)).m)),
         s.v.(data := seq(|s.v.data|, j requires 0 <= j => Scalar(c, f, r, CoordinateOf(s, j), At(g, j)).v)))
  }

  /** Muon on a matrix: momentum, Nesterov look-ahead, orthogonalization. */
  function MuonMatrix(c: Config, f: Foreign, r: Rates, s: Slot, g: Tensor): Slot
    requires |s.p.shape| == 2
  {
    var mu := c.momentum;
    var m := s.m.(data := seq(|s.m.data|, j requires 0 <= j => mu * At(s.m, j) + (1.0 - mu) * At(g, j)));
    var nesterov := g.(data := seq(|g.data|, j requires 0 <= j => (1.0 - mu) * At(g, j) + mu * At(m, j)));
    var direction := f.orthogonalize(nesterov);
    var tall := if s.p.shape[0] <= s.p.shape[1] || s.p.shape[1] == 0 then 1.0
                else s.p.shape[0] as real / s.p.shape[1] as real;
    var rate := r.rate * f.sqrt(tall);
    Slot(s.p.(data := seq(|s.p.data|, j requires 0 <= j =>
           At(s.p, j) * (1.0 - r.rate * r.decay) - rate * At(direction, j))),
         m, s.v)
  }

  function Kappa(c: Config, f: Foreign, age: nat): real
    requires Genuine(f) && ValidConfig(c)
  {
    SqrtPositive(f, c.beta2);
    var ratio := c.beta1 / f.sqrt(c.beta2);
    if ratio >= 1.0 then 1.0 else Pow(ratio, age)
  }

  function RatesAt(c: Config, f: Foreign, scale: real, step: nat, age: nat, auxiliary: bool): (r: Rates)
    requires Genuine(f) && ValidConfig(c) && step >= 1
    ensures Sound(c, r)
  {
    CorrectionPositive(c.beta1, step);
    CorrectionPositive(c.beta2, step);
    Rates((if auxiliary then c.auxiliaryRate else c.learningRate) * scale,
          if auxiliary then c.auxiliaryDecay else c.weightDecay,
          Correction(c.beta1, step), Correction(c.beta2, step),
          if c.name == ChronoBelief then Kappa(c, f, age) else 1.0)
  }

  function Update(c: Config, f: Foreign, scale: real, step: nat, age: nat, s: Slot, g: Tensor): Slot
    requires Genuine(f) && ValidConfig(c) && step >= 1
  {
    if c.name == Muon && |s.p.shape| == 2 then MuonMatrix(c, f, RatesAt(c, f, scale, step, age, false), s, g)
    else Elementwise(c, f, RatesAt(c, f, scale, step, age, c.name == Muon), s, g)
  }

  // ----- gradient clipping -----

  function SumSquares(d: seq<real>): (r: real)
    ensures r >= 0.0
  {
    if d == [] then 0.0 else Square(d[0]) + SumSquares(d[1..])
  }

  function TotalSquares(gs: seq<Tensor>): (r: real)
    ensures r >= 0.0
  {
    if gs == [] then 0.0 else SumSquares(gs[0].data) + TotalSquares(gs[1..])
  }

  const Tiny := 0.000000000001

  function ClipFactor(c: Config, f: Foreign, gs: seq<Tensor>): real
    requires Genuine(f)
  {
    if c.gradClip.None? then 1.0
    else
      var factor := c.gradClip.value / (f.sqrt(TotalSquares(gs)) + Tiny);
      if factor < 1.0 then factor else 1.0
  }

  function Times(t: Tensor, k: real): Tensor {
    t.(data := seq(|t.data|, j requires 0 <= j < |t.data| => t.data[j] * k))
  }

  function Clipped(c: Config, f: Foreign, gs: seq<Tensor>): (r: seq<Tensor>)
    requires Genuine(f)
    ensures |r| == |gs|
  {
    seq(|gs|, i requires 0 <= i < |gs| => Times(gs[i], ClipFactor(c, f, gs)))
  }

  // ----- proposals -----

  datatype Error =
    | BadBoundary | StaleBoundary | UnexpectedBoundary | BadLayout | ScheduleExhausted | NonFinite
    | ForeignOwner | StepConflict | MissingReceipt

  /** What a caller passes to propose, with the device's numerical predicates of
      the gradients and of everything proposed. */
  datatype Input = Input(
    gradients: seq<Tensor>, age: Option<int>, source: Option<int>, boundary: Option<int>,
    gradientsFinite: bool, finite: bool)

  predicate SameLayout(gs: seq<Tensor>, ps: seq<Tensor>) {
    |gs| == |ps| && forall i :: 0 <= i < |gs| ==> gs[i].shape == ps[i].shape && |gs[i].data| == |ps[i].data|
  }

  function ProposeCheck(c: Config, f: Foreign, cpu: bool, s: State, x: Input): Option<Error>
    requires Genuine(f)
  {
    if c.name == ChronoBelief && (x.age.Some? || x.source.None? || x.source.value < 0 || x.boundary.None?
                                  || x.boundary.value < x.source.value) then Some(BadBoundary)
    else if c.name == ChronoBelief && x.boundary.value != s.boundary then Some(StaleBoundary)
    else if c.name != ChronoBelief && (x.age.Some? || x.source.Some? || x.boundary.Some?) then Some(UnexpectedBoundary)
    else if !SameLayout(x.gradients, s.master) then Some(BadLayout)
    else if cpu && !x.gradientsFinite then Some(NonFinite)
    else if Scale(f, c.schedule, s.step + 1).None? then Some(ScheduleExhausted)
    else if cpu && !x.finite then Some(NonFinite)
    else None
  }

  function AgeOf(c: Config, x: Input): nat {
    if c.name == ChronoBelief && x.source.Some? && x.boundary.Some? && x.boundary.value >= x.source.value
    then x.boundary.value - x.source.value else 0
  }

  /** The slots an input leads to. */
  function NextSlot(c: Config, f: Foreign, s: State, x: Input, i: nat): Slot
    requires Genuine(f) && ValidConfig(c) && Scale(f, c.schedule, s.step + 1).Some?
    requires i < |s.master| == |s.first| == |s.second| == |x.gradients|
  {
    Update(c, f, Scale(f, c.schedule, s.step + 1).value, s.step + 1, AgeOf(c, x),
           Slot(s.master[i], s.first[i], s.second[i]), Clipped(c, f, x.gradients)[i])
  }

  /** The transition: the state that results when this input's proposal commits. */
  function Next(c: Config, f: Foreign, s: State, x: Input): State
    requires Genuine(f) && ValidConfig(c) && Scale(f, c.schedule, s.step + 1).Some?
    requires |s.master| == |s.first| == |s.second| == |x.gradients|
  {
    var n := |s.master|;
    State(
      seq(n, i requires 0 <= i < n => NextSlot(c, f, s, x, i).p),
      seq(n, i requires 0 <= i < n => NextSlot(c, f, s, x, i).m),
      seq(n, i requires 0 <= i < n => NextSlot(c, f, s, x, i).v),
      s.step + 1, s.boundary + if c.name == ChronoBelief then 1 else 0)
  }

  /** The token by which an optimizer knows its own proposals. */
  class Token {
    constructor () { }
  }

  datatype Proposal = Proposal(
    master: seq<Tensor>, first: seq<Tensor>, second: seq<Tensor>, step: int, finite: bool,
    age: Option<int>, source: Option<int>, boundary: Option<int>, owner: Token?)

  function Propose(c: Config, f: Foreign, cpu: bool, s: State, x: Input, owner: Token): Result<Proposal, Error>
    requires Genuine(f) && ValidConfig(c) && |s.master| == |s.first| == |s.second|
  {
    var check := ProposeCheck(c, f, cpu, s, x);
    if check.Some? then Err(check.value)
    else
      var next := Next(c, f, s, x);
      Ok(Proposal(next.master, next.first, next.second, next.step, x.finite,
                  if c.name == ChronoBelief then Some(AgeOf(c, x)) else None, x.source, x.boundary, owner))
  }

  function CommitCheck(c: Config, cpu: bool, s: State, p: Proposal, owner: Token, receipt: Option<bool>)
    : Option<Error>
  {
    if p.owner != owner then Some(ForeignOwner)
    else if p.step != s.step + 1 then Some(StepConflict)
    else if c.name == ChronoBelief && (p.age.None? || p.source.None? || p.boundary.None?
                                       || p.boundary.value != s.boundary
                                       || p.source.value + p.age.value != p.boundary.value) then Some(StaleBoundary)
    else if c.name != ChronoBelief && (p.age.Some? || p.source.Some? || p.boundary.Some?) then Some(UnexpectedBoundary)
    else if !cpu && receipt.None? then Some(MissingReceipt)
    else if !(if cpu then p.finite else receipt.value) then Some(NonFinite)
    else None
  }

  /** The state a commit copies a proposal into. */
  function Adopted(c: Config, s: State, p: Proposal): State
    requires p.step >= 0
  {
    State(p.master, p.first, p.second, p.step, s.boundary + if c.name == ChronoBelief then 1 else 0)
  }
}
