/** Byte predictions of a plan, against what the optimizer allocates for it and
    along nested plans. */
module MemoryPrediction {
  import opened Wrappers
  import opened Shapes
  import opened ParameterPlans
  import opened PlanTheorems
  import O = OptimizerModel

  /** LoRA entries are ranked matrices. */
  ghost predicate Ranked(plan: Plan) {
    forall i :: 0 <= i < |plan.entries| && plan.entries[i].mode == Lora ==>
      plan.rank.Some? && |plan.entries[i].shape| == 2
  }

  /** The optimizer tensors one entry stands for. */
  function StateShapes(e: Entry, rank: nat): seq<seq<nat>> {
    if e.mode == Lora && |e.shape| == 2 then [[rank, e.shape[1]], [e.shape[0], rank]] else [e.shape]
  }

  function Rank(plan: Plan): nat {
    if plan.rank.Some? then plan.rank.value else 0
  }

  function LayoutOf(es: seq<Entry>, rank: nat): seq<seq<nat>> {
    if es == [] then [] else LayoutOf(es[..|es| - 1], rank) + StateShapes(es[|es| - 1], rank)
  }

  function Trainable(e: Entry, rank: nat): nat {
    if e.mode == Lora && |e.shape| == 2 then rank * (e.shape[0] + e.shape[1]) else Numel(e.shape)
  }

  /** Sums of a per-entry quantity. */
  function Sum(es: seq<Entry>, q: Entry -> nat): nat {
    if es == [] then 0 else Sum(es[..|es| - 1], q) + q(es[|es| - 1])
  }

  function SumShapes(shapes: seq<seq<nat>>): nat {
    if shapes == [] then 0 else SumShapes(shapes[..|shapes| - 1]) + Numel(shapes[|shapes| - 1])
  }

  lemma {:induction false} SumShapesConcat(a: seq<seq<nat>>, b: seq<seq<nat>>)
    ensures SumShapes(a + b) == SumShapes(a) + SumShapes(b)
  {
    if b == [] {
      assert a + b == a;
    } else {
      var n := |b| - 1;
      SumShapesConcat(a, b[..n]);
      assert (a + b)[..|a| + n] == a + b[..n];
    }
  }

  lemma SumShapesTwo(a: seq<nat>, b: seq<nat>)
    ensures SumShapes([a]) == Numel(a)
    ensures SumShapes([a, b]) == Numel(a) + Numel(b)
  {
    assert [a][..0] == [];
    assert [a, b][..1] == [a];
  }

  lemma EntryShapes(e: Entry, rank: nat)
    ensures SumShapes(StateShapes(e, rank)) == Trainable(e, rank)
  {
    if e.mode == Lora && |e.shape| == 2 {
      NumelMatrix([rank, e.shape[1]]);
      NumelMatrix([e.shape[0], rank]);
      SumShapesTwo([rank, e.shape[1]], [e.shape[0], rank]);
      Factor(rank, e.shape[0], e.shape[1]);
    } else {
      SumShapesTwo(e.shape, []);
    }
  }

  lemma NumelMatrix(s: seq<nat>)
    requires |s| == 2
    ensures Numel(s) == s[0] * s[1]
  {
    assert s[1..] == [s[1]] && [s[1]][1..] == [];
    assert Numel(s[1..]) == s[1] * 1;
  }

  lemma Factor(rank: nat, rows: nat, cols: nat)
    ensures rank * cols + rows * rank == rank * (rows + cols)
  {
  }

  /** The trainable count is the number of elements of the state layout. */
  lemma {:induction false} CountIsLayout(es: seq<Entry>, rank: nat)
    ensures Sum(es, e => Trainable(e, rank)) == SumShapes(LayoutOf(es, rank))
  {
    if es != [] {
      var n := |es| - 1;
      CountIsLayout(es[..n], rank);
      SumShapesConcat(LayoutOf(es[..n], rank), StateShapes(es[n], rank));
      EntryShapes(es[n], rank);
    }
  }

  // ----- prediction -----

  datatype Error = UnknownOptimizer | UnsupportedDtype

  datatype Prediction = Prediction(
    activeMerged: nat, masters: nat, gradients: nat, first: nat, second: nat, candidate: nat, staging: nat,
    mergeScratch: nat)
  {
    function Resident(): nat {
      activeMerged + masters + first + second + staging
    }

    function Peak(): nat {
      Resident() + gradients + candidate + mergeScratch
    }
  }

  function DtypeBytes(d: Dtype): Option<nat> {
    match d
    case Float16 => Some(2)
    case BFloat16 => Some(2)
    case Float32 => Some(4)
    case Float64 => Some(8)
    case OtherFloat => None
    case Integral => None
  }

  function ActiveBytes(e: Entry): nat {
    var b := DtypeBytes(e.dtype);
    Numel(e.shape) * if b.Some? then b.value else 0
  }

  function MuonSecond(e: Entry): nat {
    if e.mode == Full && |e.shape| != 2 then 8 * Numel(e.shape) else 0
  }

  function Scratch(e: Entry): nat {
    if e.mode == Lora then 12 * Numel(e.shape) else 0
  }

  function Predicted(es: seq<Entry>, rank: nat, optimizer: O.Name): Prediction {
    var count := Sum(es, e => Trainable(e, rank));
    var second := if optimizer in {O.Adam, O.AdamW, O.ChronoBelief} then 4 * count
                  else if optimizer == O.Muon then Sum(es, MuonSecond) else 0;
    var active := Sum(es, ActiveBytes);
    var candidate := 4 * count + 4 * count + second;
    Prediction(active, 4 * count, 4 * count, 4 * count, second, candidate, active, Sum(es, Scratch))
  }

  function Predict(plan: Plan, optimizer: O.Name): Result<Prediction, Error> {
    if optimizer == O.Sgd then Err(UnknownOptimizer)
    else if exists e :: e in plan.entries && DtypeBytes(e.dtype).None? then Err(UnsupportedDtype)
    else Ok(Predicted(plan.entries, Rank(plan), optimizer))
  }

  // ----- what each part of a prediction is -----

  /** The elements of the entries of the given types. */
  function Elements(es: seq<Entry>, types: set<Dtype>): nat {
    if es == [] then 0
    else Elements(es[..|es| - 1], types) + if es[|es| - 1].dtype in types then Numel(es[|es| - 1].shape) else 0
  }

  /** The elements of the entries trained through factors. */
  function Factored(es: seq<Entry>): nat {
    if es == [] then 0
    else Factored(es[..|es| - 1]) + if es[|es| - 1].mode == Lora then Numel(es[|es| - 1].shape) else 0
  }

  lemma {:induction false} ActiveByType(es: seq<Entry>)
    ensures Sum(es, ActiveBytes)
         == 2 * Elements(es, {Float16, BFloat16}) + 4 * Elements(es, {Float32}) + 8 * Elements(es, {Float64})
  {
    if es != [] {
      ActiveByType(es[..|es| - 1]);
      SumLast(es, ActiveBytes);
      ActiveOf(es[|es| - 1]);
    }
  }

  lemma ActiveOf(e: Entry)
    ensures ActiveBytes(e)
         == 2 * (if e.dtype in {Float16, BFloat16} then Numel(e.shape) else 0)
            + 4 * (if e.dtype in {Float32} then Numel(e.shape) else 0)
            + 8 * (if e.dtype in {Float64} then Numel(e.shape) else 0)
  {
  }

  lemma {:induction false} ScratchFactored(es: seq<Entry>)
    ensures Sum(es, Scratch) == 3 * (4 * Factored(es))
  {
    if es != [] {
      ScratchFactored(es[..|es| - 1]);
      SumLast(es, Scratch);
    }
  }

  /** A plan is predicted for every optimizer but plain descent, when all its types
      have a size.  Merged and staged weights take two, four or eight bytes an
      element by type; a gradient is held for every master; a candidate holds
      masters and moments once more; merging factors takes three copies of each
      matrix in 32-bit floats.  What is resident and what peaks are their sums. */
  lemma PredictionExactly(plan: Plan, optimizer: O.Name)
    ensures Predict(plan, optimizer).Ok? <==>
      optimizer != O.Sgd && forall e :: e in plan.entries ==> e.dtype in {Float16, BFloat16, Float32, Float64}
    ensures Predict(plan, optimizer).Ok? ==>
      var p, es := Predict(plan, optimizer).value, plan.entries;
      && p.activeMerged
         == 2 * Elements(es, {Float16, BFloat16}) + 4 * Elements(es, {Float32}) + 8 * Elements(es, {Float64})
      && p.staging == p.activeMerged
      && p.gradients == p.masters == p.first == 4 * SumShapes(LayoutOf(es, Rank(plan)))
      && p.candidate == p.masters + p.first + p.second
      && p.mergeScratch == 3 * (4 * Factored(es))
      && p.Resident() + p.gradients + p.candidate + p.mergeScratch == p.Peak()
      && p.Peak() == p.activeMerged + p.masters + p.gradients + p.first + p.second + p.candidate + p.staging
                     + p.mergeScratch
  {
    ActiveByType(plan.entries);
    ScratchFactored(plan.entries);
    CountIsLayout(plan.entries, Rank(plan));
    TypesSized(plan.entries);
  }

  lemma TypesSized(es: seq<Entry>)
    ensures (exists e :: e in es && DtypeBytes(e.dtype).None?) <==>
      !(forall e :: e in es ==> e.dtype in {Float16, BFloat16, Float32, Float64})
  {
    forall e | e in es ensures DtypeBytes(e.dtype).Some? <==> e.dtype in {Float16, BFloat16, Float32, Float64} { }
  }

  /** The two factors of a LoRA matrix: the second times the first has its shape,
      through the rank; any other entry is held as it is. */
  lemma FactorsMultiply(e: Entry, rank: nat)
    ensures var shapes := StateShapes(e, rank);
      if e.mode == Lora && |e.shape| == 2 then
        && |shapes| == 2 && |shapes[0]| == 2 && |shapes[1]| == 2
        && shapes[1][1] == rank == shapes[0][0]
        && [shapes[1][0], shapes[0][1]] == e.shape
      else shapes == [e.shape]
  {
  }

  // ----- prediction against allocation -----

  /** Bytes of 32-bit floats in a list of tensors. */
  function Bytes(ts: seq<O.Tensor>): nat {
    if ts == [] then 0 else Bytes(ts[..|ts| - 1]) + 4 * |ts[|ts| - 1].data|
  }

  ghost predicate Realizes(ts: seq<O.Tensor>, shapes: seq<seq<nat>>) {
    |ts| == |shapes| && forall i :: 0 <= i < |ts| ==> ts[i].shape == shapes[i] && O.Formed(ts[i])
  }

  lemma {:induction false} BytesOfShapes(ts: seq<O.Tensor>, shapes: seq<seq<nat>>)
    requires |ts| == |shapes| && forall i :: 0 <= i < |ts| ==> |ts[i].data| == Numel(shapes[i])
    ensures Bytes(ts) == 4 * SumShapes(shapes)
  {
    if ts != [] { BytesOfShapes(ts[..|ts| - 1], shapes[..|ts| - 1]); }
  }

  lemma {:induction false} BytesOfNothing(ts: seq<O.Tensor>)
    requires forall i :: 0 <= i < |ts| ==> |ts[i].data| == 0
    ensures Bytes(ts) == 0
  {
    if ts != [] { BytesOfNothing(ts[..|ts| - 1]); }
  }

  /** The elements of the layout that are not matrices. */
  function NonMatrix(shapes: seq<seq<nat>>): nat {
    if shapes == [] then 0
    else NonMatrix(shapes[..|shapes| - 1]) + if |shapes[|shapes| - 1]| != 2 then Numel(shapes[|shapes| - 1]) else 0
  }

  lemma {:induction false} MuonBytes(ts: seq<O.Tensor>, shapes: seq<seq<nat>>)
    requires |ts| == |shapes|
    requires forall i :: 0 <= i < |ts| ==> |ts[i].data| == (if |shapes[i]| != 2 then Numel(shapes[i]) else 0)
    ensures Bytes(ts) == 4 * NonMatrix(shapes)
  {
    if ts != [] { MuonBytes(ts[..|ts| - 1], shapes[..|ts| - 1]); }
  }

  lemma {:induction false} NonMatrixConcat(a: seq<seq<nat>>, b: seq<seq<nat>>)
    ensures NonMatrix(a + b) == NonMatrix(a) + NonMatrix(b)
  {
    if b == [] {
      assert a + b == a;
    } else {
      var n := |b| - 1;
      NonMatrixConcat(a, b[..n]);
      assert (a + b)[..|a| + n] == a + b[..n];
    }
  }

  lemma {:induction false} MuonCharge(es: seq<Entry>, rank: nat)
    requires forall i :: 0 <= i < |es| && es[i].mode == Lora ==> |es[i].shape| == 2
    ensures Sum(es, MuonSecond) == 8 * NonMatrix(LayoutOf(es, rank))
  {
    if es != [] {
      var n := |es| - 1;
      var a, b := LayoutOf(es[..n], rank), StateShapes(es[n], rank);
      MuonCharge(es[..n], rank);
      SumLast(es, MuonSecond);
      NonMatrixConcat(a, b);
      MuonEntry(es[n], rank);
      assert LayoutOf(es, rank) == a + b;
    }
  }

  lemma SumLast(es: seq<Entry>, q: Entry -> nat)
    requires es != []
    ensures Sum(es, q) == Sum(es[..|es| - 1], q) + q(es[|es| - 1])
  {
  }

  lemma NonMatrixTwo(a: seq<nat>, b: seq<nat>)
    ensures NonMatrix([a]) == (if |a| != 2 then Numel(a) else 0)
    ensures |a| == 2 && |b| == 2 ==> NonMatrix([a, b]) == 0
  {
    assert [a][..0] == [];
    assert [a, b][..1] == [a];
  }

  lemma MuonEntry(e: Entry, rank: nat)
    requires e.mode == Lora ==> |e.shape| == 2
    ensures MuonSecond(e) == 8 * NonMatrix(StateShapes(e, rank))
  {
    if e.mode == Lora {
      NonMatrixTwo([rank, e.shape[1]], [e.shape[0], rank]);
    } else {
      NonMatrixTwo(e.shape, []);
    }
  }

  lemma SecondAllocation(c: O.Config, ts: seq<O.Tensor>, shapes: seq<seq<nat>>, boundary: nat)
    requires Realizes(ts, shapes)
    ensures Bytes(O.Initial(c, ts, boundary).second)
         == (if c.name in {O.Adam, O.AdamW, O.ChronoBelief} then 4 * SumShapes(shapes)
             else if c.name == O.Muon then 4 * NonMatrix(shapes) else 0)
  {
    var s := O.Initial(c, ts, boundary);
    if c.name in {O.Adam, O.AdamW, O.ChronoBelief} {
      BytesOfShapes(s.second, shapes);
    } else if c.name == O.Muon {
      MuonBytes(s.second, shapes);
    } else {
      BytesOfNothing(s.second);
    }
  }

  lemma FirstAllocation(c: O.Config, ts: seq<O.Tensor>, shapes: seq<seq<nat>>, boundary: nat)
    requires Realizes(ts, shapes)
    ensures Bytes(O.Initial(c, ts, boundary).master) == 4 * SumShapes(shapes)
    ensures c.name != O.Sgd ==> Bytes(O.Initial(c, ts, boundary).first) == 4 * SumShapes(shapes)
  {
    var s := O.Initial(c, ts, boundary);
    BytesOfShapes(s.master, shapes);
    if c.name != O.Sgd { BytesOfShapes(s.first, shapes); }
  }

  /** For every plan and registered optimizer: what is predicted for masters and
      first moments is what the optimizer allocates for the plan's layout, and so
      for second moments, except that Muon's charge is exactly twice its allocation. */
  lemma PredictionCoversAllocation(plan: Plan, c: O.Config, ts: seq<O.Tensor>, boundary: nat)
    requires Ranked(plan) && Predict(plan, c.name).Ok?
    requires Realizes(ts, LayoutOf(plan.entries, Rank(plan)))
    ensures var p, s := Predict(plan, c.name).value, O.Initial(c, ts, boundary);
      && p.masters == Bytes(s.master)
      && p.first == Bytes(s.first)
      && p.second == (if c.name == O.Muon then 2 * Bytes(s.second) else Bytes(s.second))
      && p.candidate >= Bytes(s.master) + Bytes(s.first) + Bytes(s.second)
  {
    var shapes := LayoutOf(plan.entries, Rank(plan));
    CountIsLayout(plan.entries, Rank(plan));
    FirstAllocation(c, ts, shapes, boundary);
    SecondAllocation(c, ts, shapes, boundary);
    if c.name == O.Muon { MuonCharge(plan.entries, Rank(plan)); }
  }

  // ----- when Muon's charge is right -----

  ghost predicate FullsAreMatrices(es: seq<Entry>) {
    forall i :: 0 <= i < |es| && es[i].mode == Full ==> |es[i].shape| == 2
  }

  lemma {:induction false} NumelPositive(shape: seq<nat>)
    requires forall d :: d in shape ==> d >= 1
    ensures Numel(shape) >= 1
  {
    if shape != [] {
      assert shape[0] in shape && forall d :: d in shape[1..] ==> d in shape;
      NumelPositive(shape[1..]);
      MulPositive(shape[0], Numel(shape[1..]));
    }
  }

  lemma MulPositive(a: nat, b: nat)
    requires a >= 1 && b >= 1
    ensures a * b >= 1
  {
  }

  lemma {:induction false} MuonChargeZero(es: seq<Entry>)
    requires forall i :: 0 <= i < |es| ==> GoodEntry(es[i])
    ensures Sum(es, MuonSecond) == 0 <==> FullsAreMatrices(es)
  {
    if es != [] {
      var n := |es| - 1;
      MuonChargeZero(es[..n]);
      SumLast(es, MuonSecond);
      NumelPositive(es[n].shape);
      assert FullsAreMatrices(es) <==> FullsAreMatrices(es[..n]) && (es[n].mode == Full ==> |es[n].shape| == 2);
    }
  }

  /** Muon's second moments are charged what they take exactly when every entry
      trained whole is a matrix; then both are nothing. */
  lemma MuonChargeExact(plan: Plan, c: O.Config, ts: seq<O.Tensor>, boundary: nat)
    requires c.name == O.Muon && Ranked(plan) && Predict(plan, c.name).Ok?
    requires forall i :: 0 <= i < |plan.entries| ==> GoodEntry(plan.entries[i])
    requires Realizes(ts, LayoutOf(plan.entries, Rank(plan)))
    ensures Predict(plan, c.name).value.second == Bytes(O.Initial(c, ts, boundary).second)
       <==> FullsAreMatrices(plan.entries)
  {
    PredictionCoversAllocation(plan, c, ts, boundary);
    MuonChargeZero(plan.entries);
  }

  const OneScalar := Plan(DFlash, Full, Last(1), false, None, [Entry("w", [1], Float32, Full, false)], [])

  /** A vector of one element: eight bytes are charged, four allocated. */
  lemma MuonOvercharge(c: O.Config, x: real, boundary: nat)
    requires c.name == O.Muon
    ensures Predict(OneScalar, O.Muon).Ok? && Predict(OneScalar, O.Muon).value.second == 8
    ensures Bytes(O.Initial(c, [O.Tensor([1], [x])], boundary).second) == 4
  {
    var es, ts := OneScalar.entries, [O.Tensor([1], [x])];
    assert Numel([1]) == 1;
    SumLast(es, MuonSecond);
    assert es[..0] == [];
    var second := O.Initial(c, ts, boundary).second;
    assert second[..0] == [];
  }

  // ----- prediction along nested plans -----

  function Append(es: seq<Entry>, o: Option<Entry>): seq<Entry> {
    if o.Some? then es + [o.value] else es
  }

  function Value(o: Option<Entry>, q: Entry -> nat): nat {
    if o.Some? then q(o.value) else 0
  }

  lemma SumAppend(es: seq<Entry>, o: Option<Entry>, q: Entry -> nat)
    ensures Sum(Append(es, o), q) == Sum(es, q) + Value(o, q)
  {
    if o.Some? {
      assert (es + [o.value])[..|es|] == es;
    }
  }

  lemma PicksLast(s: Selector, t: Selector, items: seq<Param>)
    requires items != []
    ensures var n := |items| - 1;
      && Picks(s, items) == Append(Picks(s, items[..n]), Pick(s, items[n]))
      && Extra(s, t, items)
         == Append(Extra(s, t, items[..n]), if Pick(s, items[n]).None? then Pick(t, items[n]) else None)
  {
  }

  lemma {:induction false} SumWithin(s: Selector, t: Selector, items: seq<Param>, q: Entry -> nat)
    requires Within(s, t, items)
    ensures Sum(Picks(t, items), q) == Sum(Picks(s, items), q) + Sum(Extra(s, t, items), q)
  {
    if items != [] {
      var n := |items| - 1;
      var p, u := items[..n], items[n];
      WithinPrefix(s, t, items);
      SumWithin(s, t, p, q);
      PicksLast(s, t, items);
      PicksLast(t, s, items);
      SumAppend(Picks(s, p), Pick(s, u), q);
      SumAppend(Picks(t, p), Pick(t, u), q);
      SumAppend(Extra(s, t, p), if Pick(s, u).None? then Pick(t, u) else None, q);
    }
  }

  lemma WithinPrefix(s: Selector, t: Selector, items: seq<Param>)
    requires Within(s, t, items) && items != []
    ensures Within(s, t, items[..|items| - 1])
    ensures Pick(s, items[|items| - 1]).Some? ==> Pick(t, items[|items| - 1]) == Pick(s, items[|items| - 1])
  {
  }

  lemma PickedWithin(s: Selector, t: Selector, items: seq<Param>, e: Entry)
    requires Within(s, t, items) && e in Picks(s, items)
    ensures e in Picks(t, items)
  {
    PicksWithin(s, t, items);
    assert e in multiset(Picks(s, items));
    assert e in multiset(Picks(t, items));
  }

  /** Prediction p asks for no more than q. */
  predicate NoMore(p: Prediction, q: Prediction) {
    p.Resident() <= q.Resident() && p.Peak() <= q.Peak()
  }

  lemma TotalsMonotone(s: Selector, t: Selector, items: seq<Param>, rank: nat)
    requires Within(s, t, items)
    ensures Sum(Picks(s, items), e => Trainable(e, rank)) <= Sum(Picks(t, items), e => Trainable(e, rank))
    ensures Sum(Picks(s, items), MuonSecond) <= Sum(Picks(t, items), MuonSecond)
    ensures Sum(Picks(s, items), ActiveBytes) <= Sum(Picks(t, items), ActiveBytes)
    ensures Sum(Picks(s, items), Scratch) <= Sum(Picks(t, items), Scratch)
  {
    SumWithin(s, t, items, e => Trainable(e, rank));
    SumWithin(s, t, items, MuonSecond);
    SumWithin(s, t, items, ActiveBytes);
    SumWithin(s, t, items, Scratch);
  }

  lemma PredictedMonotone(s: Selector, t: Selector, items: seq<Param>, rank: nat, optimizer: O.Name)
    requires Within(s, t, items)
    ensures NoMore(Predicted(Picks(s, items), rank, optimizer), Predicted(Picks(t, items), rank, optimizer))
  {
    TotalsMonotone(s, t, items, rank);
  }

  /** A plan whose selection lies within another's is predicted no more resident
      and no more peak bytes, for every optimizer. */
  lemma PredictionMonotone(b: Backend, narrow: LayerScope, wide: LayerScope, rank: Option<nat>,
                           s: Selector, t: Selector, items: seq<Param>, optimizer: O.Name)
    requires Within(s, t, items)
    requires Planned(b, narrow, rank, s, items).Ok? && Planned(b, wide, rank, t, items).Ok?
    requires Predict(Planned(b, wide, rank, t, items).value, optimizer).Ok?
    ensures Predict(Planned(b, narrow, rank, s, items).value, optimizer).Ok?
    ensures NoMore(Predict(Planned(b, narrow, rank, s, items).value, optimizer).value,
                   Predict(Planned(b, wide, rank, t, items).value, optimizer).value)
  {
    PredictedMonotone(s, t, items, if rank.Some? then rank.value else 0, optimizer);
    forall e | e in Picks(s, items) ensures DtypeBytes(e.dtype).Some? {
      PickedWithin(s, t, items, e);
    }
  }

  /** Along last1, last3, last5, all the predicted resident and peak bytes grow. */
  lemma NestedScopesMonotone(b: Backend, items: seq<Param>, mode: Mode, narrow: LayerScope, wide: LayerScope,
                             rank: Option<nat>, replicated: set<string>, optimizer: O.Name)
    requires LayerPlan(b, items, mode, narrow, rank, replicated).Ok?
    requires LayerPlan(b, items, mode, wide, rank, replicated).Ok?
    requires Width(narrow, |Layers(items)|) <= Width(wide, |Layers(items)|)
    requires Predict(LayerPlan(b, items, mode, wide, rank, replicated).value, optimizer).Ok?
    ensures Predict(LayerPlan(b, items, mode, narrow, rank, replicated).value, optimizer).Ok?
    ensures NoMore(Predict(LayerPlan(b, items, mode, narrow, rank, replicated).value, optimizer).value,
                   Predict(LayerPlan(b, items, mode, wide, rank, replicated).value, optimizer).value)
  {
    ScopesNested(items, narrow, wide, mode, {}, false, replicated);
    PredictionMonotone(b, narrow, wide, rank,
                       ScopeSelector(items, narrow, mode, {}, false, replicated),
                       ScopeSelector(items, wide, mode, {}, false, replicated), items, optimizer);
  }

  /** And so along the scopes of a DSpark build, with the native heads or without. */
  lemma DSparkScopesMonotone(items: seq<Param>, mode: Mode, narrow: LayerScope, wide: LayerScope, hybrid: bool,
                             rank: Option<nat>, h: Heads, replicated: set<string>, optimizer: O.Name)
    requires DSparkPlan(items, mode, narrow, hybrid, rank, h, replicated).Ok?
    requires DSparkPlan(items, mode, wide, hybrid, rank, h, replicated).Ok?
    requires Width(narrow, |Layers(items)|) <= Width(wide, |Layers(items)|)
    requires Predict(DSparkPlan(items, mode, wide, hybrid, rank, h, replicated).value, optimizer).Ok?
    ensures Predict(DSparkPlan(items, mode, narrow, hybrid, rank, h, replicated).value, optimizer).Ok?
    ensures NoMore(Predict(DSparkPlan(items, mode, narrow, hybrid, rank, h, replicated).value, optimizer).value,
                   Predict(DSparkPlan(items, mode, wide, hybrid, rank, h, replicated).value, optimizer).value)
  {
    var heads := HeadNames(h);
    DSparkFromSelector(items, mode, narrow, hybrid, rank, h, replicated);
    DSparkFromSelector(items, mode, wide, hybrid, rank, h, replicated);
    ScopesNested(items, narrow, wide, mode, heads, hybrid, replicated + heads);
    PredictionMonotone(DSpark, narrow, wide, rank,
                       ScopeSelector(items, narrow, mode, heads, hybrid, replicated + heads),
                       ScopeSelector(items, wide, mode, heads, hybrid, replicated + heads), items, optimizer);
  }

  /** Every plan of a selector is ranked. */
  lemma {:induction false} PicksRanked(s: Selector, items: seq<Param>, i: nat)
    requires i < |Picks(s, items)| && Picks(s, items)[i].mode == Lora
    ensures s.mode == Lora && |Picks(s, items)[i].shape| == 2
  {
    var n := |items| - 1;
    if i < |Picks(s, items[..n])| { PicksRanked(s, items[..n], i); }
  }

  lemma PlansAreRanked(b: Backend, scope: LayerScope, rank: Option<nat>, s: Selector, items: seq<Param>)
    requires Planned(b, scope, rank, s, items).Ok?
    ensures Ranked(Planned(b, scope, rank, s, items).value)
    ensures forall e :: e in Planned(b, scope, rank, s, items).value.entries ==> GoodEntry(e)
  {
    var plan := Planned(b, scope, rank, s, items).value;
    forall i | 0 <= i < |plan.entries| && plan.entries[i].mode == Lora
      ensures plan.rank.Some? && |plan.entries[i].shape| == 2
    {
      PicksRanked(s, items, i);
    }
  }

  /** The counting loop of a plan: it counts the elements of the state layout. */
  method CountParameters(plan: Plan) returns (count: nat)
    requires Ranked(plan)
    ensures count == SumShapes(LayoutOf(plan.entries, Rank(plan)))
  {
    count := 0;
    var i := 0;
    while i < |plan.entries|
      invariant 0 <= i <= |plan.entries|
      invariant count == Sum(plan.entries[..i], e => Trainable(e, Rank(plan)))
    {
      var e := plan.entries[i];
      assert plan.entries[..i + 1][..i] == plan.entries[..i];
      if e.mode == Lora {
        count := count + plan.rank.value * (e.shape[0] + e.shape[1]);
      } else {
        count := count + Numel(e.shape);
      }
      i := i + 1;
    }
    assert plan.entries[..i] == plan.entries;
    CountIsLayout(plan.entries, Rank(plan));
  }
}
