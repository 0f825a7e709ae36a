/** The selectors' build loops. */
module PlanBuilder {
  import opened Wrappers
  import opened Orders
  import opened ParameterPlans
  import opened PlanTheorems

  ghost predicate AllGood(es: seq<Entry>) {
    forall e :: e in es ==> GoodEntry(e)
  }

  /** One pass over the parameters: selected entries in order, frozen names. */
  method Select(s: Selector, items: seq<Param>) returns (good: bool, selected: seq<Entry>, frozen: set<string>)
    ensures good <==> AllGood(Picks(s, items))
    ensures good ==> selected == Picks(s, items) && frozen == Unpicked(s, items)
  {
    selected, frozen := [], {};
    var i := 0;
    while i < |items|
      invariant 0 <= i <= |items|
      invariant selected == Picks(s, items[..i]) && frozen == Unpicked(s, items[..i]) && AllGood(selected)
    {
      assert items[..i + 1][..i] == items[..i];
      var pick := Pick(s, items[i]);
      if pick.Some? {
        if !GoodEntry(pick.value) {
          PicksContain(s, items, i);
          return false, selected, frozen;
        }
        selected := selected + [pick.value];
      } else {
        frozen := frozen + {items[i].name};
      }
      i := i + 1;
    }
    assert items[..i] == items;
    good := true;
  }

  lemma {:induction false} PicksContain(s: Selector, items: seq<Param>, i: nat)
    requires i < |items| && Pick(s, items[i]).Some?
    ensures Pick(s, items[i]).value in Picks(s, items)
  {
    var n := |items| - 1;
    if i < n { PicksContain(s, items[..n], i); }
  }

  method Assemble(b: Backend, scope: LayerScope, rank: Option<nat>, s: Selector, items: seq<Param>)
    returns (r: Result<Plan, Error>)
    ensures r == Planned(b, scope, rank, s, items)
  {
    var good, selected, frozen := Select(s, items);
    if !good {
      return Err(BadEntry);
    }
    if !s.hybrid && exists e :: e in selected && e.name in s.heads {
      return Err(HeadSelected);
    }
    if !GoodRank(s.mode, rank) {
      return Err(BadRank);
    }
    if selected == [] {
      return Err(EmptyPlan);
    }
    var names := SortStrings(frozen);
    r := Ok(Plan(b, s.mode, scope, s.hybrid, rank, selected, names));
  }

  /** The DFlash and the native layer build. */
  method BuildLayerPlan(b: Backend, items: seq<Param>, mode: Mode, scope: LayerScope, rank: Option<nat>,
                        replicated: set<string>)
    returns (r: Result<Plan, Error>)
    ensures r == LayerPlan(b, items, mode, scope, rank, replicated)
  {
    if scope !in LayerScopes {
      return Err(BadScope);
    }
    if !DistinctNames(items) {
      return Err(DuplicateNames);
    }
    var layers := SelectedLayers(items, scope);
    if layers.Err? {
      return Err(layers.error);
    }
    r := Assemble(b, scope, rank, Selector(layers.value, mode, {}, false, replicated), items);
  }

  /** The DSpark build. */
  method BuildDSparkPlan(items: seq<Param>, mode: Mode, scope: LayerScope, hybrid: bool, rank: Option<nat>, h: Heads,
                         replicated: set<string>)
    returns (r: Result<Plan, Error>)
    ensures r == DSparkPlan(items, mode, scope, hybrid, rank, h, replicated)
  {
    if scope !in (if hybrid then HybridScopes else LayerScopes) {
      return Err(BadScope);
    }
    if !DistinctNames(items) {
      return Err(DuplicateNames);
    }
    var heads := HeadNames(h);
    if |heads| != 3 || !(heads <= Names(items)) {
      return Err(BadHeads);
    }
    if !ScalarAcceptance(items, h) {
      return Err(BadAcceptance);
    }
    var layers := SelectedLayers(items, scope);
    if layers.Err? {
      return Err(layers.error);
    }
    r := Assemble(DSpark, scope, rank, Selector(layers.value, mode, heads, hybrid, replicated + heads), items);
  }
}
