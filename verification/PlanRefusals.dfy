/** Exactly when a DSpark build succeeds past its guards, and lists at which its
    guards promise more than it does. */
module PlanRefusals {
  import opened Wrappers
  import opened Decimals
  import opened Shapes
  import opened ParameterPlans
  import opened ParameterNames
  import opened PlanTheorems

  lemma {:induction false} HeadsFrozenExactly(s: Selector, items: seq<Param>)
    requires !s.hybrid
    ensures HeadsFrozen(s, Picks(s, items)) <==>
      forall i :: 0 <= i < |items| && items[i].name in s.heads ==> !Eligible(s, items[i])
  {
    if items != [] {
      var n := |items| - 1;
      var t, p := items[..n], items[n];
      HeadsFrozenExactly(s, t);
      assert forall i :: 0 <= i < n ==> t[i] == items[i];
      var before, now := Picks(s, t), Picks(s, items);
      if Pick(s, p).Some? {
        assert now == before + [Pick(s, p).value];
        assert forall e :: e in now <==> e in before || e == Pick(s, p).value;
      } else {
        assert now == before;
      }
    }
  }

  /** What an entry demands of a parameter: a name and positive dimensions. */
  predicate Shapely(p: Param) {
    p.name != "" && p.shape != [] && forall d :: d in p.shape ==> d >= 1
  }

  /** The parameters a build makes entries of. */
  predicate Chosen(s: Selector, p: Param) {
    (s.hybrid && p.name in s.heads) || Eligible(s, p)
  }

  predicate AllShapely(s: Selector, items: seq<Param>) {
    forall i :: 0 <= i < |items| && Chosen(s, items[i]) ==> Shapely(items[i])
  }

  predicate HeadEligible(s: Selector, items: seq<Param>) {
    exists i :: 0 <= i < |items| && items[i].name in s.heads && Eligible(s, items[i])
  }

  lemma GoodPicks(s: Selector, items: seq<Param>)
    ensures (exists e :: e in Picks(s, items) && !GoodEntry(e)) <==> !AllShapely(s, items)
  {
    if e :| e in Picks(s, items) && !GoodEntry(e) {
      PicksExact(s, items, e);
      var i :| 0 <= i < |items| && Pick(s, items[i]) == Some(e);
      assert !Shapely(items[i]);
    }
    if !AllShapely(s, items) {
      var i :| 0 <= i < |items| && Chosen(s, items[i]) && !Shapely(items[i]);
      var e := Pick(s, items[i]).value;
      PicksExact(s, items, e);
      assert !GoodEntry(e);
    }
  }

  lemma SomePick(s: Selector, items: seq<Param>)
    ensures Picks(s, items) != [] <==> exists i :: 0 <= i < |items| && Chosen(s, items[i])
  {
    if Picks(s, items) != [] {
      var e := Picks(s, items)[0];
      PicksExact(s, items, e);
      var i :| 0 <= i < |items| && Pick(s, items[i]) == Some(e);
      assert Chosen(s, items[i]);
    }
    if i :| 0 <= i < |items| && Chosen(s, items[i]) {
      PicksExact(s, items, Pick(s, items[i]).value);
    }
  }

  /** The guards of a DSpark build before the one on the acceptance projection,
      and the layers after it. */
  predicate DSparkGuards(items: seq<Param>, scope: LayerScope, hybrid: bool, h: Heads) {
    && scope in (if hybrid then HybridScopes else LayerScopes)
    && DistinctNames(items)
    && |HeadNames(h)| == 3 && HeadNames(h) <= Names(items)
    && SelectedLayers(items, scope).Ok?
  }

  /** A DSpark build is past its guards exactly when its scope is registered with or
      without heads, names are distinct, the three heads are different names of the
      list, the acceptance projection has one element and at most one dimension, and
      its layers can be selected. */
  lemma DSparkGuarded(items: seq<Param>, mode: Mode, scope: LayerScope, hybrid: bool, h: Heads, replicated: set<string>)
    ensures DSparkSelection(items, mode, scope, hybrid, h, replicated).Ok? <==>
      && (if hybrid then scope in {Last(1), Last(3), Last(5)} else scope in {Last(1), Last(3), Last(5), All})
      && DistinctNames(items)
      && |{h.w1, h.w2, h.acceptance}| == 3 && {h.w1, h.w2, h.acceptance} <= Names(items)
      && (forall i :: 0 <= i < |items| && items[i].name == h.acceptance ==>
            |items[i].shape| <= 1 && Numel(items[i].shape) == 1)
      && SelectedLayers(items, scope).Ok?
  {
    SelectionGuarded(items, mode, scope, hybrid, h, replicated);
    ScopesRegistered(scope, hybrid);
  }

  lemma SelectionGuarded(items: seq<Param>, mode: Mode, scope: LayerScope, hybrid: bool, h: Heads,
                         replicated: set<string>)
    ensures DSparkSelection(items, mode, scope, hybrid, h, replicated).Ok? <==>
      DSparkGuards(items, scope, hybrid, h) && ScalarAcceptance(items, h)
  {
  }

  lemma ScopesRegistered(scope: LayerScope, hybrid: bool)
    ensures scope in (if hybrid then HybridScopes else LayerScopes) <==>
      if hybrid then scope in {Last(1), Last(3), Last(5)} else scope in {Last(1), Last(3), Last(5), All}
  {
  }

  /** What a DSpark build selects by, once its guards are met. */
  function DSparkSelector(items: seq<Param>, mode: Mode, scope: LayerScope, hybrid: bool, h: Heads,
                          replicated: set<string>): Selector
    requires SelectedLayers(items, scope).Ok?
  {
    ScopeSelector(items, scope, mode, HeadNames(h), hybrid, replicated + HeadNames(h))
  }

  lemma DSparkIsPlanned(items: seq<Param>, mode: Mode, scope: LayerScope, hybrid: bool, rank: Option<nat>, h: Heads,
                        replicated: set<string>)
    requires DSparkGuards(items, scope, hybrid, h) && ScalarAcceptance(items, h)
    ensures DSparkPlan(items, mode, scope, hybrid, rank, h, replicated)
         == Planned(DSpark, scope, rank, DSparkSelector(items, mode, scope, hybrid, h, replicated), items)
  {
  }

  /** Past its guards a hybrid build succeeds exactly when every head and every
      eligible parameter has a name and positive dimensions. */
  lemma HybridBuildable(items: seq<Param>, mode: Mode, scope: LayerScope, rank: Option<nat>, h: Heads,
                        replicated: set<string>)
    requires DSparkGuards(items, scope, true, h) && ScalarAcceptance(items, h) && GoodRank(mode, rank)
    ensures DSparkPlan(items, mode, scope, true, rank, h, replicated).Ok? <==>
      AllShapely(DSparkSelector(items, mode, scope, true, h, replicated), items)
  {
    var s := DSparkSelector(items, mode, scope, true, h, replicated);
    DSparkIsPlanned(items, mode, scope, true, rank, h, replicated);
    GoodPicks(s, items);
    HybridHasHeads(s, items);
    assert h.w1 in EntryNames(Picks(s, items));
  }

  /** Past its guards a layer-only build is refused for a head exactly when every
      eligible parameter is well shaped and some head is eligible. */
  lemma HeadSelectedExactly(items: seq<Param>, mode: Mode, scope: LayerScope, rank: Option<nat>, h: Heads,
                            replicated: set<string>)
    requires DSparkGuards(items, scope, false, h) && ScalarAcceptance(items, h)
    ensures var s := DSparkSelector(items, mode, scope, false, h, replicated);
      DSparkPlan(items, mode, scope, false, rank, h, replicated) == Err(HeadSelected) <==>
        AllShapely(s, items) && HeadEligible(s, items)
  {
    var s := DSparkSelector(items, mode, scope, false, h, replicated);
    DSparkIsPlanned(items, mode, scope, false, rank, h, replicated);
    GoodPicks(s, items);
    HeadsFrozenExactly(s, items);
  }

  /** And it succeeds exactly when, besides, no head is eligible, the rank fits
      the mode and something is eligible. */
  lemma LayerOnlyBuildable(items: seq<Param>, mode: Mode, scope: LayerScope, rank: Option<nat>, h: Heads,
                           replicated: set<string>)
    requires DSparkGuards(items, scope, false, h) && ScalarAcceptance(items, h)
    ensures var s := DSparkSelector(items, mode, scope, false, h, replicated);
      DSparkPlan(items, mode, scope, false, rank, h, replicated).Ok? <==>
        && AllShapely(s, items) && !HeadEligible(s, items) && GoodRank(mode, rank)
        && exists i :: 0 <= i < |items| && Chosen(s, items[i])
  {
    var s := DSparkSelector(items, mode, scope, false, h, replicated);
    DSparkIsPlanned(items, mode, scope, false, rank, h, replicated);
    GoodPicks(s, items);
    HeadsFrozenExactly(s, items);
    SomePick(s, items);
  }

  lemma SomeEligible(s: Selector, items: seq<Param>)
    requires !s.hybrid
    ensures Picks(s, items) != [] <==> exists i :: 0 <= i < |items| && Eligible(s, items[i])
  {
    SomePick(s, items);
    if i :| 0 <= i < |items| && Chosen(s, items[i]) { assert Eligible(s, items[i]); }
    if i :| 0 <= i < |items| && Eligible(s, items[i]) { assert Chosen(s, items[i]); }
  }

  lemma RankExactly(mode: Mode, rank: Option<nat>)
    ensures GoodRank(mode, rank) <==>
      if mode == Full then rank.None? else rank.Some? && rank.value in {1, 2, 4, 8, 16, 32, 64}
  {
  }

  lemma PlannedExactly(b: Backend, scope: LayerScope, rank: Option<nat>, s: Selector, items: seq<Param>)
    requires !s.hybrid && s.heads == {}
    ensures Planned(b, scope, rank, s, items).Ok? <==>
      && AllShapely(s, items) && (exists i :: 0 <= i < |items| && Eligible(s, items[i]))
      && (if s.mode == Full then rank.None? else rank.Some? && rank.value in {1, 2, 4, 8, 16, 32, 64})
  {
    GoodPicks(s, items);
    SomeEligible(s, items);
    RankExactly(s.mode, rank);
  }

  lemma LayerRefusals(b: Backend, items: seq<Param>, mode: Mode, scope: LayerScope, rank: Option<nat>,
                      replicated: set<string>)
    requires scope !in LayerScopes || !DistinctNames(items) || SelectedLayers(items, scope).Err?
    ensures LayerPlan(b, items, mode, scope, rank, replicated).Err?
  {
  }

  lemma LayerPlanned(b: Backend, items: seq<Param>, mode: Mode, scope: LayerScope, rank: Option<nat>,
                     replicated: set<string>)
    requires scope in LayerScopes && DistinctNames(items) && SelectedLayers(items, scope).Ok?
    ensures LayerPlan(b, items, mode, scope, rank, replicated)
         == Planned(b, scope, rank, ScopeSelector(items, scope, mode, {}, false, replicated), items)
  {
  }

  /** A DFlash or native build is past its guards exactly when its scope is
      registered, names are distinct and its layers can be selected; ... */
  lemma LayerGuards(b: Backend, items: seq<Param>, mode: Mode, scope: LayerScope, rank: Option<nat>,
                    replicated: set<string>)
    ensures var past :=
        scope in {Last(1), Last(3), Last(5), All} && DistinctNames(items) && SelectedLayers(items, scope).Ok?;
      && (!past ==> LayerPlan(b, items, mode, scope, rank, replicated).Err?)
      && (past ==> LayerPlan(b, items, mode, scope, rank, replicated)
                   == Planned(b, scope, rank, ScopeSelector(items, scope, mode, {}, false, replicated), items))
  {
    assert LayerScopes == {Last(1), Last(3), Last(5), All};
    if scope in LayerScopes && DistinctNames(items) && SelectedLayers(items, scope).Ok? {
      LayerPlanned(b, items, mode, scope, rank, replicated);
    } else {
      LayerRefusals(b, items, mode, scope, rank, replicated);
    }
  }

  /** ... it then succeeds exactly when every eligible parameter is well shaped and
      there is one, and the rank is registered for LoRA and absent otherwise. */
  lemma LayerBuildable(b: Backend, items: seq<Param>, mode: Mode, scope: LayerScope, rank: Option<nat>,
                       replicated: set<string>)
    requires scope in {Last(1), Last(3), Last(5), All} && DistinctNames(items) && SelectedLayers(items, scope).Ok?
    ensures var s := ScopeSelector(items, scope, mode, {}, false, replicated);
      LayerPlan(b, items, mode, scope, rank, replicated).Ok? <==>
        && AllShapely(s, items) && (exists i :: 0 <= i < |items| && Eligible(s, items[i]))
        && (if mode == Full then rank.None? else rank.Some? && rank.value in {1, 2, 4, 8, 16, 32, 64})
  {
    LayerGuards(b, items, mode, scope, rank, replicated);
    PlannedExactly(b, scope, rank, ScopeSelector(items, scope, mode, {}, false, replicated), items);
  }

  /** A zero-dimensional acceptance tensor passes the guard on it, but its entry
      does not: with the other guards met, the hybrid build fails on that entry. */
  lemma ZeroDimensionalAcceptance(items: seq<Param>, mode: Mode, scope: LayerScope, rank: Option<nat>, h: Heads,
                                  replicated: set<string>, i: nat)
    requires DSparkGuards(items, scope, true, h)
    requires i < |items| && items[i].name == h.acceptance && items[i].shape == []
    ensures ScalarAcceptance(items, h)
    ensures DSparkPlan(items, mode, scope, true, rank, h, replicated) == Err(BadEntry)
  {
    assert ScalarAcceptance(items, h) by {
      forall j | 0 <= j < |items| && items[j].name == h.acceptance
        ensures |items[j].shape| <= 1 && Numel(items[j].shape) == 1
      {
        assert j == i;
      }
    }
    var s := DSparkSelector(items, mode, scope, true, h, replicated);
    DSparkIsPlanned(items, mode, scope, true, rank, h, replicated);
    GoodPicks(s, items);
    assert Chosen(s, items[i]) && !Shapely(items[i]);
  }

  // ----- lists at which the two builds fail -----

  lemma ThreeComponents(a: string, b: string, c: string)
    requires '.' !in a && '.' !in b && '.' !in c
    ensures Components(a + "." + (b + "." + c)) == [a, b, c]
  {
    FirstComponent(a, b + "." + c, "");
    FirstComponent(b, c, "");
    OneComponent(c, "");
    assert "" + a == a && "" + b == b && "" + c == c;
  }

  lemma LayerZero(name: string, full: string)
    requires '.' !in name && name !in Borrowed && full == "layers" + "." + ("0" + "." + name)
    ensures LayerIndex(full) == Some(0) && IsOwned(full)
  {
    ThreeComponents("layers", "0", name);
    NumeralZero();
  }

  lemma NumeralZero()
    ensures IsNumeral("0") && NumeralValue("0") == 0
  {
    assert "0"[..0] == "";
  }

  lemma NoLayer(name: string)
    requires '.' !in name
    ensures LayerIndex(name).None?
  {
    OneComponent(name, "");
  }

  /** The names of a list whose first parameter alone lies in a layer. */
  lemma OneLayer(items: seq<Param>)
    requires items != [] && LayerIndex(items[0].name) == Some(0)
    requires forall i :: 1 <= i < |items| ==> LayerIndex(items[i].name).None?
    ensures SelectedLayers(items, Last(1)) == Ok({0})
  {
    assert 0 in Layers(items) && Layers(items) == {0};
    assert Below(1) == {0};
    assert (set l | l in Layers(items) && l >= 0) == {0};
  }

  function Scalars(names: seq<string>): (items: seq<Param>)
    ensures |items| == |names|
    ensures forall i :: 0 <= i < |names| ==> items[i] == Param(names[i], [1], Float32)
  {
    seq(|names|, i requires 0 <= i < |names| => Param(names[i], [1], Float32))
  }

  lemma HeadsGuarded(items: seq<Param>, h: Heads, hybrid: bool, i: nat, j: nat, k: nat)
    requires DistinctNames(items) && SelectedLayers(items, Last(1)).Ok? && i < |items| && j < |items| && k < |items|
    requires items[i].name == h.w1 && items[j].name == h.w2 && items[k].name == h.acceptance
    requires i != j && j != k && i != k
    ensures DSparkGuards(items, Last(1), hybrid, h)
  {
    NameOf(items, i);
    NameOf(items, j);
    NameOf(items, k);
    Differ(items, i, j);
    Differ(items, j, k);
    Differ(items, i, k);
    ThreeNames(h.w1, h.w2, h.acceptance);
  }

  lemma Differ(items: seq<Param>, i: nat, j: nat)
    requires DistinctNames(items) && i < |items| && j < |items| && i != j
    ensures items[i].name != items[j].name
  {
    assert i < j || j < i;
  }

  lemma ThreeNames(a: string, b: string, c: string)
    requires a != b && b != c && a != c
    ensures |{a, b, c}| == 3
  {
  }

  lemma ScalarsAccepted(items: seq<Param>, h: Heads)
    requires forall i :: 0 <= i < |items| ==> items[i].shape == [1]
    ensures ScalarAcceptance(items, h)
  {
    assert Numel([1]) == 1;
  }

  lemma HeadRefusal(items: seq<Param>, h: Heads)
    requires items == Scalars([h.w1, h.w2, h.acceptance]) && DistinctNames(items)
    requires LayerIndex(h.w1) == Some(0) && IsOwned(h.w1) && h.w1 != ""
    requires LayerIndex(h.w2).None? && LayerIndex(h.acceptance).None?
    ensures DSparkPlan(items, Full, Last(1), false, None, h, {}) == Err(HeadSelected)
  {
    OneLayer(items);
    HeadsGuarded(items, h, false, 0, 1, 2);
    ScalarsAccepted(items, h);
    HeadChosen(items, DSparkSelector(items, Full, Last(1), false, h, {}));
    HeadSelectedExactly(items, Full, Last(1), None, h, {});
  }

  lemma HeadChosen(items: seq<Param>, s: Selector)
    requires items != [] && s.mode == Full && !s.hybrid && s.layers == {0} && items[0].name in s.heads
    requires forall i :: 0 <= i < |items| ==> items[i].shape == [1] && items[i].dtype == Float32
    requires LayerIndex(items[0].name) == Some(0) && IsOwned(items[0].name) && items[0].name != ""
    requires forall i :: 1 <= i < |items| ==> LayerIndex(items[i].name).None?
    ensures AllShapely(s, items) && HeadEligible(s, items)
  {
    assert Eligible(s, items[0]);
  }

  /** A head inside the selected layer: the layer-only build hits its assertion. */
  lemma HeadInLayer()
    ensures var h := Heads("layers.0.w1", "b", "c");
      DSparkPlan(Scalars([h.w1, h.w2, h.acceptance]), Full, Last(1), false, None, h, {}) == Err(HeadSelected)
  {
    var name := "layers.0.w1";
    LayerZero("w1", name);
    NoLayer("b");
    NoLayer("c");
    HeadRefusal(Scalars([name, "b", "c"]), Heads(name, "b", "c"));
  }

  lemma FlatRefusal(items: seq<Param>, layer: string, h: Heads)
    requires items == Scalars([layer, h.w1, h.w2]) + [Param(h.acceptance, [], Float32)] && DistinctNames(items)
    requires LayerIndex(layer) == Some(0)
    requires LayerIndex(h.w1).None? && LayerIndex(h.w2).None? && LayerIndex(h.acceptance).None?
    ensures ScalarAcceptance(items, h)
    ensures DSparkPlan(items, Full, Last(1), true, None, h, {}) == Err(BadEntry)
  {
    OneLayer(items);
    HeadsGuarded(items, h, true, 1, 2, 3);
    ZeroDimensionalAcceptance(items, Full, Last(1), None, h, {}, 3);
  }

  /** A scalar acceptance of zero dimensions passes its guard and fails the build. */
  lemma FlatAcceptance()
    ensures var items, h := Scalars(["layers.0.q", "a", "b"]) + [Param("c", [], Float32)], Heads("a", "b", "c");
      && ScalarAcceptance(items, h)
      && DSparkPlan(items, Full, Last(1), true, None, h, {}) == Err(BadEntry)
  {
    var name := "layers.0.q";
    LayerZero("q", name);
    NoLayer("a");
    NoLayer("b");
    NoLayer("c");
    FlatRefusal(Scalars([name, "a", "b"]) + [Param("c", [], Float32)], name, Heads("a", "b", "c"));
  }
}
