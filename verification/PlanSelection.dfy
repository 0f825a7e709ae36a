/** Which tensors a plan trains, on the names, types and shapes of the list alone. */
module PlanSelection {
  import opened Wrappers
  import opened Orders
  import opened Decimals
  import opened ParameterPlans
  import opened ParameterNames
  import opened PlanTheorems

  ghost predicate HasLayer(items: seq<Param>, l: nat) {
    exists i :: 0 <= i < |items| && InLayer(items[i].name, l)
  }

  /** The layers of the list are numbered 0..n-1. */
  ghost predicate Layered(items: seq<Param>, n: nat) {
    n >= 1 && forall l: nat :: HasLayer(items, l) <==> l < n
  }

  lemma LayersNumbered(items: seq<Param>, l: nat)
    ensures l in Layers(items) <==> HasLayer(items, l)
  {
    if l in Layers(items) {
      var i :| 0 <= i < |items| && LayerIndex(items[i].name) == Some(l);
      LayerExactly(items[i].name, l);
    }
    if HasLayer(items, l) {
      var i :| 0 <= i < |items| && InLayer(items[i].name, l);
      LayerExactly(items[i].name, l);
    }
  }

  lemma LayeredCount(items: seq<Param>, n: nat)
    ensures Layered(items, n) <==> n >= 1 && Layers(items) == Below(n)
  {
    forall l: nat ensures l in Layers(items) <==> HasLayer(items, l) { LayersNumbered(items, l); }
    if Layered(items, n) {
      assert forall l: nat :: l in Layers(items) <==> l in Below(n);
    }
  }

  /** Layers are selected exactly when those of the list are numbered without a
      gap from zero and are as many as the scope asks for; it selects the last. */
  lemma LayersAccepted(items: seq<Param>, scope: LayerScope)
    ensures SelectedLayers(items, scope).Ok? <==> exists n: nat :: Layered(items, n) && Width(scope, n) <= n
    ensures SelectedLayers(items, scope).Ok? ==>
      var n := |Layers(items)|;
      && Layered(items, n) && Width(scope, n) <= n
      && forall l: nat :: l in SelectedLayers(items, scope).value <==> n - Width(scope, n) <= l < n
  {
    LayeredCount(items, |Layers(items)|);
    if n: nat :| Layered(items, n) && Width(scope, n) <= n {
      LayeredCount(items, n);
    }
    if SelectedLayers(items, scope).Ok? {
      LayersExact(items, scope);
    }
  }

  /** What is trained with layers first..n-1: a floating tensor whose name lies in
      one of them and mentions nothing borrowed, under LoRA a registered matrix. */
  ghost predicate Trains(mode: Mode, first: int, n: int, p: Param) {
    && p.dtype != Integral
    && !Mentions(p.name, {"embed_tokens", "lm_head", "target_model", "target_embedding"})
    && (exists l: nat :: InLayer(p.name, l) && first <= l < n)
    && (mode == Lora ==> |p.shape| == 2 && Mentions(p.name, {
          "fc", "q_proj", "k_proj", "v_proj", "qkv_proj", "o_proj", "gate_proj", "gate_up_proj", "up_proj",
          "down_proj"}))
  }

  lemma EligibleExactly(s: Selector, p: Param, first: int, n: int)
    requires forall l: nat :: l in s.layers <==> first <= l < n
    ensures Eligible(s, p) <==> Trains(s.mode, first, n, p)
  {
    NamesExactly(p.name);
    var index := LayerIndex(p.name);
    if index.Some? { LayerExactly(p.name, index.value); }
    if l: nat :| InLayer(p.name, l) && first <= l < n { LayerExactly(p.name, l); }
  }

  /** The entry made of a parameter that is trained in a layer. */
  ghost predicate LayerEntry(p: Param, mode: Mode, first: int, n: int, replicated: set<string>, e: Entry) {
    && Trains(mode, first, n, p)
    && e.name == p.name && e.shape == p.shape && e.dtype == p.dtype
    && e.mode == mode && (e.replicated <==> p.name in replicated)
  }

  /** The entry made of a native head. */
  predicate HeadEntry(p: Param, e: Entry) {
    e.name == p.name && e.shape == p.shape && e.dtype == p.dtype && e.mode == Full && e.replicated
  }

  /** The entries are exactly those of the given heads, made whole, and of the
      other parameters that are trained in the layers first..n-1. */
  ghost predicate Selects(entries: seq<Entry>, items: seq<Param>, heads: set<string>, mode: Mode, first: int, n: int,
                          replicated: set<string>)
  {
    forall e :: e in entries <==>
      exists i :: 0 <= i < |items| &&
        if items[i].name in heads then HeadEntry(items[i], e)
        else LayerEntry(items[i], mode, first, n, replicated, e)
  }

  lemma PickExactly(s: Selector, p: Param, first: int, n: int, e: Entry)
    requires forall l: nat :: l in s.layers <==> first <= l < n
    requires s.heads <= s.replicated
    ensures Pick(s, p) == Some(e) <==>
      if s.hybrid && p.name in s.heads then HeadEntry(p, e) else LayerEntry(p, s.mode, first, n, s.replicated, e)
  {
    EligibleExactly(s, p, first, n);
  }

  lemma PicksSelect(s: Selector, items: seq<Param>, first: int, n: int)
    requires forall l: nat :: l in s.layers <==> first <= l < n
    requires s.heads <= s.replicated
    ensures Selects(Picks(s, items), items, if s.hybrid then s.heads else {}, s.mode, first, n, s.replicated)
  {
    forall e
      ensures e in Picks(s, items) <==>
        exists i :: 0 <= i < |items| &&
          if items[i].name in (if s.hybrid then s.heads else {}) then HeadEntry(items[i], e)
          else LayerEntry(items[i], s.mode, first, n, s.replicated, e)
    {
      PicksExact(s, items, e);
      forall i | 0 <= i < |items|
        ensures Pick(s, items[i]) == Some(e) <==>
          if items[i].name in (if s.hybrid then s.heads else {}) then HeadEntry(items[i], e)
          else LayerEntry(items[i], s.mode, first, n, s.replicated, e)
      {
        PickExactly(s, items[i], first, n, e);
      }
    }
  }

  /** A DFlash or native plan trains exactly the tensors of its last layers that
      are its own, each as one entry. */
  lemma LayerPlanTrains(b: Backend, items: seq<Param>, mode: Mode, scope: LayerScope, rank: Option<nat>,
                        replicated: set<string>)
    requires LayerPlan(b, items, mode, scope, rank, replicated).Ok?
    ensures var plan, n := LayerPlan(b, items, mode, scope, rank, replicated).value, |Layers(items)|;
      && Layered(items, n)
      && (plan.backend, plan.mode, plan.scope, plan.hybrid, plan.rank) == (b, mode, scope, false, rank)
      && Selects(plan.entries, items, {}, mode, n - Width(scope, n), n, replicated)
  {
    LayersAccepted(items, scope);
    LayerFromSelector(b, items, mode, scope, rank, replicated);
    var n := |Layers(items)|;
    PicksSelect(ScopeSelector(items, scope, mode, {}, false, replicated), items, n - Width(scope, n), n);
  }

  /** A DSpark plan trains those and, when hybrid, its three heads whole; when it
      is not, no head. */
  lemma DSparkPlanTrains(items: seq<Param>, mode: Mode, scope: LayerScope, hybrid: bool, rank: Option<nat>, h: Heads,
                         replicated: set<string>)
    requires DSparkPlan(items, mode, scope, hybrid, rank, h, replicated).Ok?
    ensures var plan, n := DSparkPlan(items, mode, scope, hybrid, rank, h, replicated).value, |Layers(items)|;
      var heads := {h.w1, h.w2, h.acceptance};
      && Layered(items, n)
      && (plan.backend, plan.mode, plan.scope, plan.hybrid, plan.rank) == (DSpark, mode, scope, hybrid, rank)
      && Selects(plan.entries, items, if hybrid then heads else {}, mode, n - Width(scope, n), n, replicated + heads)
      && (!hybrid ==> forall e :: e in plan.entries ==> e.name !in heads)
  {
    LayersAccepted(items, scope);
    DSparkFromSelector(items, mode, scope, hybrid, rank, h, replicated);
    var n, heads := |Layers(items)|, HeadNames(h);
    PicksSelect(ScopeSelector(items, scope, mode, heads, hybrid, replicated + heads), items, n - Width(scope, n), n);
  }

  /** Entries stand in the order of the list. */
  lemma {:induction false} PicksInOrder(s: Selector, items: seq<Param>) returns (at: seq<nat>)
    ensures |at| == |Picks(s, items)|
    ensures forall k :: 0 <= k < |at| ==> at[k] < |items| && Pick(s, items[at[k]]) == Some(Picks(s, items)[k])
    ensures forall j, k :: 0 <= j < k < |at| ==> at[j] < at[k]
  {
    at := [];
    if items != [] {
      var n := |items| - 1;
      at := PicksInOrder(s, items[..n]);
      if Pick(s, items[n]).Some? { at := at + [n]; }
    }
  }

  // ----- an inventory that holds a tensor of the target model -----

  /** Two parameters of layer zero, one outside it, and one that is borrowed. */
  ghost predicate TwoOwned(items: seq<Param>) {
    && |items| == 4 && DistinctNames(items)
    && (forall i :: 0 <= i < 2 ==>
          && IsOwned(items[i].name) && LayerIndex(items[i].name) == Some(0) && items[i].dtype != Integral
          && GoodEntry(Entry(items[i].name, items[i].shape, items[i].dtype, Full, false)))
    && LayerIndex(items[2].name).None?
    && LayerIndex(items[3].name) == Some(0) && !IsOwned(items[3].name)
  }

  lemma PicksOwned(s: Selector, items: seq<Param>)
    requires TwoOwned(items) && s == Selector({0}, Full, {}, false, {})
    ensures Picks(s, items) == [Pick(s, items[0]).value, Pick(s, items[1]).value]
  {
    assert Pick(s, items[0]).Some? && Pick(s, items[1]).Some? && Pick(s, items[2]).None? && Pick(s, items[3]).None?;
    assert items[..3][..2] == items[..2] && items[..2][..1] == items[..1] && items[..1][..0] == [];
    assert Picks(s, items[..1]) == [Pick(s, items[0]).value];
    assert Picks(s, items[..2]) == [Pick(s, items[0]).value] + [Pick(s, items[1]).value];
    assert Picks(s, items[..3]) == Picks(s, items[..2]);
    assert Picks(s, items) == Picks(s, items[..3]);
  }

  lemma OneLayerOnly(items: seq<Param>)
    requires TwoOwned(items)
    ensures SelectedLayers(items, Last(1)) == Ok({0})
  {
    assert 0 in Layers(items) && Layers(items) == {0};
    assert Below(1) == {0};
    assert (set l | l in Layers(items) && l >= 0) == {0};
  }

  lemma OwnedTrained(items: seq<Param>)
    requires TwoOwned(items)
    ensures var r := LayerPlan(DFlash, items, Full, Last(1), None, {});
      && r.Ok? && |r.value.entries| == 2
      && r.value.entries[0].name == items[0].name && r.value.entries[1].name == items[1].name
      && items[3].name in r.value.frozen
  {
    OneLayerOnly(items);
    var s := Selector({0}, Full, {}, false, {});
    PicksOwned(s, items);
    assert items[3].name in Unpicked(s, items);
  }

  /** A layer norm, a projection, a head and a matrix under four names. */
  function Inventory(a: seq<string>, b: seq<string>, c: seq<string>, d: seq<string>): seq<Param>
    requires a != [] && b != [] && c != [] && d != []
  {
    [Param(Join(a), [4], Float32), Param(Join(b), [8, 4], BFloat16),
     Param(Join(c), [32, 4], BFloat16), Param(Join(d), [4, 4], BFloat16)]
  }

  function TargetInventory(): seq<Param> {
    Inventory(["layers", "0", "input_layernorm", "weight"], ["layers", "0", "self_attn", "q_proj", "weight"],
              ["lm_head", "weight"], ["target_model", "layers", "0", "weight"])
  }

  lemma InventoryComponents(a: seq<string>, b: seq<string>, c: seq<string>, d: seq<string>)
    requires a != [] && b != [] && c != [] && d != [] && DotFree(a) && DotFree(b) && DotFree(c) && DotFree(d)
    ensures var items := Inventory(a, b, c, d);
      && Components(items[0].name) == a && Components(items[1].name) == b
      && Components(items[2].name) == c && Components(items[3].name) == d
  {
    JoinComponents(a);
    JoinComponents(b);
    JoinComponents(c);
    JoinComponents(d);
  }

  lemma TargetComponents()
    ensures var items := TargetInventory();
      && Components(items[0].name) == ["layers", "0", "input_layernorm", "weight"]
      && Components(items[1].name) == ["layers", "0", "self_attn", "q_proj", "weight"]
      && Components(items[2].name) == ["lm_head", "weight"]
      && Components(items[3].name) == ["target_model", "layers", "0", "weight"]
  {
    InventoryComponents(["layers", "0", "input_layernorm", "weight"], ["layers", "0", "self_attn", "q_proj", "weight"],
                        ["lm_head", "weight"], ["target_model", "layers", "0", "weight"]);
  }

  lemma NumeralZero()
    ensures IsNumeral("0") && NumeralValue("0") == 0 && !IsNumeral("layers")
  {
    assert Decimal(0) == "0" && "layers"[0] == 'l';
    DecimalRead(0);
  }

  lemma LayerZeroName(name: string)
    requires |Components(name)| >= 2 && Components(name)[0] == "layers" && Components(name)[1] == "0"
    requires forall w :: w in Components(name) ==> w !in Borrowed
    ensures LayerIndex(name) == Some(0) && IsOwned(name) && name != ""
  {
    NumeralZero();
    assert Components("") == [""];
  }

  lemma BorrowedLayer(name: string, w: string)
    requires Components(name) == ["target_model", "layers", "0", w]
    ensures LayerIndex(name) == Some(0) && !IsOwned(name)
  {
    NumeralZero();
    var cs := Components(name);
    assert |cs[0]| == 12 && cs[1..] == ["layers", "0", w];
    assert LayerIn(cs) == LayerIn(cs[1..]) == Some(0);
    assert cs[0] in cs && cs[0] in Borrowed;
  }

  lemma NoLayerName(name: string)
    requires Components(name) == ["lm_head", "weight"]
    ensures LayerIndex(name).None?
  {
    var cs := Components(name);
    assert |cs[0]| == 7 && cs[1..] == ["weight"];
    assert LayerIn(cs) == LayerIn(cs[1..]);
  }

  lemma DistinctComponents(items: seq<Param>)
    requires forall i, j :: 0 <= i < j < |items| ==> Components(items[i].name) != Components(items[j].name)
    ensures DistinctNames(items)
  {
  }

  lemma TargetDistinct()
    ensures DistinctNames(TargetInventory())
  {
    TargetComponents();
    var items := TargetInventory();
    assert |Components(items[0].name)| == 4 && |Components(items[1].name)| == 5 && |Components(items[2].name)| == 2;
    assert Components(items[0].name)[0] != Components(items[3].name)[0];
    DistinctComponents(items);
  }

  lemma TargetLayers()
    ensures var items := TargetInventory();
      forall i :: 0 <= i < 2 ==> LayerIndex(items[i].name) == Some(0) && IsOwned(items[i].name) && items[i].name != ""
  {
    TargetComponents();
    LayerZeroName(TargetInventory()[0].name);
    LayerZeroName(TargetInventory()[1].name);
  }

  lemma TargetOthers()
    ensures var items := TargetInventory();
      LayerIndex(items[2].name).None? && LayerIndex(items[3].name) == Some(0) && !IsOwned(items[3].name)
  {
    TargetComponents();
    NoLayerName(TargetInventory()[2].name);
    BorrowedLayer(TargetInventory()[3].name, "weight");
  }

  lemma TargetNamed()
    ensures TwoOwned(TargetInventory())
  {
    TargetDistinct();
    TargetLayers();
    TargetOthers();
  }

  /** An inventory with a layer of the target model: the drafter's two tensors of
      layer zero are trained, the target's is frozen. */
  lemma TargetFrozen()
    ensures var items := TargetInventory();
      var r := LayerPlan(DFlash, items, Full, Last(1), None, {});
      && r.Ok? && |r.value.entries| == 2
      && r.value.entries[0].name == items[0].name && r.value.entries[1].name == items[1].name
      && items[3].name in r.value.frozen
  {
    TargetNamed();
    OwnedTrained(TargetInventory());
  }
}
