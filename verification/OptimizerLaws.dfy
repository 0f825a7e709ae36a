/** What the schedule, the age factor and the clipping compute, and exactly when a
    proposal is made and a commit accepted. */
module OptimizerLaws {
  import opened Wrappers
  import opened Moments
  import opened OptimizerModel
  import opened OptimizerHistory
  import opened OptimizerBounds
  import opened OptimizerTrajectory

  // ----- the schedule -----

  lemma InverseRoot(root: real, n: real)
    requires root > 0.0 && Square(root) == n
    ensures 1.0 / root > 0.0 && Square(1.0 / root) * n == 1.0
  {
    var q := 1.0 / root;
    assert q * root == 1.0;
    DivideSide(1.0, root, 1.0);
    SquareProduct(q, root);
  }

  /** A constant schedule scales by one, the inverse root by the positive number
      whose square times the step is one, the cosine within its horizon alone. */
  lemma ScaleExactly(f: Foreign, s: Schedule, step: nat)
    requires Genuine(f) && step >= 1
    ensures var scale := Scale(f, s, step);
      match s
      case Constant => scale == Some(1.0)
      case InverseSqrt => scale.Some? && scale.value > 0.0 && Square(scale.value) * step as real == 1.0
      case Cosine(horizon) => scale == if step <= horizon then Some(f.cosine(step, horizon)) else None
  {
    if s.InverseSqrt? {
      SqrtPositive(f, step as real);
      InverseRoot(f.sqrt(step as real), step as real);
    }
  }

  // ----- the age factor -----

  lemma {:induction false} PowProduct(a: real, b: real, n: nat)
    ensures Pow(a, n) * Pow(b, n) == Pow(a * b, n)
  {
    if n > 0 {
      PowProduct(a, b, n - 1);
      Regroup(a, b, Pow(a, n - 1), Pow(b, n - 1));
    }
  }

  lemma Regroup(a: real, b: real, x: real, y: real)
    ensures (a * x) * (b * y) == (a * b) * (x * y)
  {
  }

  lemma SquaredPow(b: real, n: nat)
    ensures Square(Pow(b, n)) == Pow(Square(b), n)
  {
    PowProduct(b, b, n);
  }

  lemma RatioBelowOne(beta1: real, root: real)
    requires 0.0 < beta1 && root > 0.0
    ensures beta1 / root >= 1.0 <==> Square(beta1) >= Square(root)
  {
    RatioSide(beta1, root);
    if beta1 >= root { SquareMonotone(root, beta1); } else { SquareStrict(beta1, root); }
  }

  lemma RatioSide(x: real, d: real)
    requires d > 0.0
    ensures x / d >= 1.0 <==> x >= d
  {
    var q := x / d;
    assert q * d == x;
    if q >= 1.0 { MulLeq(d, 1.0, q); } else { MulLess(q, 1.0, d); }
  }

  /** The age factor is one when beta1 squared is at least beta2; otherwise its
      square times beta2 to the age is beta1 to the age, squared. */
  lemma KappaExactly(c: Config, f: Foreign, age: nat)
    requires Genuine(f) && ValidConfig(c)
    ensures Kappa(c, f, age) > 0.0
    ensures Square(c.beta1) >= c.beta2 ==> Kappa(c, f, age) == 1.0
    ensures Square(c.beta1) < c.beta2 ==>
      Square(Kappa(c, f, age)) * Pow(c.beta2, age) == Square(Pow(c.beta1, age))
  {
    KappaPositive(c, f, age);
    SqrtPositive(f, c.beta2);
    var root := f.sqrt(c.beta2);
    assert Square(root) == c.beta2;
    RatioBelowOne(c.beta1, root);
    if Square(c.beta1) < c.beta2 { RatioPow(c.beta1, root, age); }
  }

  lemma RatioPow(beta1: real, root: real, age: nat)
    requires root > 0.0
    ensures Square(Pow(beta1 / root, age)) * Pow(Square(root), age) == Square(Pow(beta1, age))
  {
    var ratio := beta1 / root;
    assert ratio * root == beta1;
    SquaredPow(root, age);
    PowProduct(ratio, root, age);
    SquareProduct(Pow(ratio, age), Pow(root, age));
  }

  // ----- clipping -----

  lemma TimesOne(t: Tensor)
    ensures Times(t, 1.0) == t
  {
    assert forall j :: 0 <= j < |t.data| ==> t.data[j] * 1.0 == t.data[j];
  }

  /** Gradients pass unchanged without a clip value, and whenever their joint norm
      is below it. */
  lemma ClipSpares(c: Config, f: Foreign, gs: seq<Tensor>)
    requires Genuine(f) && ValidConfig(c)
    requires c.gradClip.None? || f.sqrt(TotalSquares(gs)) + Tiny <= c.gradClip.value
    ensures Clipped(c, f, gs) == gs
  {
    if c.gradClip.Some? { RatioSide(c.gradClip.value, f.sqrt(TotalSquares(gs)) + Tiny); }
    assert ClipFactor(c, f, gs) == 1.0;
    forall i | 0 <= i < |gs| ensures Clipped(c, f, gs)[i] == gs[i] { TimesOne(gs[i]); }
  }

  lemma ScaledBack(x: real, cap: real, d: real)
    requires d > 0.0
    ensures x * (cap / d) * d == x * cap
  {
    var q := cap / d;
    assert q * d == cap;
    assert x * q * d == x * (q * d);
  }

  /** Otherwise each is shrunk by the same factor, the clip value over the norm. */
  lemma ClipShrinks(c: Config, f: Foreign, gs: seq<Tensor>, i: nat, j: nat)
    requires Genuine(f) && ValidConfig(c) && c.gradClip.Some?
    requires f.sqrt(TotalSquares(gs)) + Tiny > c.gradClip.value && i < |gs| && j < |gs[i].data|
    ensures Clipped(c, f, gs)[i].shape == gs[i].shape && |Clipped(c, f, gs)[i].data| == |gs[i].data|
    ensures Clipped(c, f, gs)[i].data[j] * (f.sqrt(TotalSquares(gs)) + Tiny) == gs[i].data[j] * c.gradClip.value
  {
    var d := f.sqrt(TotalSquares(gs)) + Tiny;
    RatioSide(c.gradClip.value, d);
    ScaledBack(gs[i].data[j], c.gradClip.value, d);
  }

  // ----- proposals and commits -----

  /** A proposal is made exactly for gradients laid out like the parameters, within
      the schedule, finite where the host can tell, and with the versions that
      ChronoBelief alone takes: a source no later than the live boundary. */
  lemma ProposeExactly(c: Config, f: Foreign, cpu: bool, s: State, x: Input, owner: Token)
    requires Genuine(f) && ValidConfig(c) && |s.master| == |s.first| == |s.second|
    ensures Propose(c, f, cpu, s, x, owner).Ok? <==>
      && |x.gradients| == |s.master|
      && (forall i :: 0 <= i < |s.master| ==>
            x.gradients[i].shape == s.master[i].shape && |x.gradients[i].data| == |s.master[i].data|)
      && (c.schedule.Cosine? ==> s.step < c.schedule.horizon)
      && (cpu ==> x.gradientsFinite && x.finite)
      && x.age.None?
      && (if c.name == ChronoBelief
          then x.source.Some? && 0 <= x.source.value <= s.boundary && x.boundary == Some(s.boundary)
          else x.source.None? && x.boundary.None?)
    ensures Propose(c, f, cpu, s, x, owner).Ok? ==>
      var p := Propose(c, f, cpu, s, x, owner).value;
      && p.step == s.step + 1 && p.finite == x.finite && p.owner == owner
      && p.source == x.source && p.boundary == x.boundary
      && (if c.name == ChronoBelief then p.age == Some(s.boundary - x.source.value) else p.age.None?)
  {
  }

  /** A commit is accepted exactly with this owner's token, the next step, the live
      boundary for ChronoBelief alone, and a finite result: by the proposal's own
      predicate on the host, by a receipt elsewhere. */
  lemma CommitExactly(c: Config, cpu: bool, s: State, p: Proposal, owner: Token, receipt: Option<bool>)
    ensures CommitCheck(c, cpu, s, p, owner, receipt).None? <==>
      && p.owner == owner && p.step == s.step + 1
      && (if c.name == ChronoBelief
          then p.age.Some? && p.source.Some? && p.boundary == Some(s.boundary)
               && p.source.value + p.age.value == s.boundary
          else p.age.None? && p.source.None? && p.boundary.None?)
      && (if cpu then p.finite else receipt == Some(true))
    ensures CommitCheck(c, cpu, s, p, owner, receipt) == Some(ForeignOwner) <==> p.owner != owner
    ensures CommitCheck(c, cpu, s, p, owner, receipt) == Some(StepConflict) <==>
      p.owner == owner && p.step != s.step + 1
    ensures CommitCheck(c, cpu, s, p, owner, receipt) == Some(MissingReceipt) ==> !cpu && receipt.None?
    ensures CommitCheck(c, cpu, s, p, owner, receipt) == Some(NonFinite) ==>
      if cpu then !p.finite else receipt == Some(false)
  {
  }
}
