/** What the selectors guarantee for every named-parameter list. */
module PlanTheorems {
  import opened Wrappers
  import opened Orders
  import opened ParameterPlans

  // ----- partition -----

  function EntryNames(es: seq<Entry>): set<string> {
    if es == [] then {} else EntryNames(es[..|es| - 1]) + {es[|es| - 1].name}
  }

  lemma {:induction false} NameAt(items: seq<Param>, name: string) returns (i: nat)
    requires name in Names(items)
    ensures i < |items| && items[i].name == name
  {
    i := |items| - 1;
    if items[i].name != name { i := NameAt(items[..i], name); }
  }

  lemma {:induction false} NameOf(items: seq<Param>, i: nat)
    requires i < |items|
    ensures items[i].name in Names(items)
  {
    if i < |items| - 1 { NameOf(items[..|items| - 1], i); }
  }

  lemma EntryNamesAdd(es: seq<Entry>, e: Entry)
    ensures EntryNames(es + [e]) == EntryNames(es) + {e.name}
  {
    assert (es + [e])[..|es|] == es;
  }

  lemma {:induction false} EntryNameOf(es: seq<Entry>, e: Entry)
    requires e in es
    ensures e.name in EntryNames(es)
  {
    if e != es[|es| - 1] { EntryNameOf(es[..|es| - 1], e); }
  }

  lemma FreshLast(items: seq<Param>)
    requires DistinctNames(items) && items != []
    ensures items[|items| - 1].name !in Names(items[..|items| - 1])
  {
    var n := |items| - 1;
    if items[n].name in Names(items[..n]) {
      var i := NameAt(items[..n], items[n].name);
    }
  }

  ghost predicate Parts(a: set<string>, b: set<string>, all: set<string>) {
    a + b == all && a !! b
  }

  lemma PartsGrow(a: set<string>, b: set<string>, all: set<string>, x: string)
    requires Parts(a, b, all) && x !in all
    ensures Parts(a + {x}, b, all + {x}) && Parts(a, b + {x}, all + {x}) && |b + {x}| == |b| + 1
  {
  }

  /** Every parameter is trained or frozen, never both, and counted once. */
  lemma {:induction false} PicksPartition(s: Selector, items: seq<Param>)
    requires DistinctNames(items)
    ensures Parts(EntryNames(Picks(s, items)), Unpicked(s, items), Names(items))
    ensures |Picks(s, items)| + |Unpicked(s, items)| == |items|
  {
    if items != [] {
      var n := |items| - 1;
      var es, frozen, x := Picks(s, items[..n]), Unpicked(s, items[..n]), items[n].name;
      PicksPartition(s, items[..n]);
      FreshLast(items);
      PartsGrow(EntryNames(es), frozen, Names(items[..n]), x);
      var pick := Pick(s, items[n]);
      if pick.Some? {
        PickKeepsName(s, items[n]);
        EntryNamesAdd(es, pick.value);
        assert Picks(s, items) == es + [pick.value] && Unpicked(s, items) == frozen;
      } else {
        assert Picks(s, items) == es && Unpicked(s, items) == frozen + {x};
      }
    }
  }

  lemma PickKeepsName(s: Selector, p: Param)
    requires Pick(s, p).Some?
    ensures Pick(s, p).value.name == p.name
  {
  }

  /** Trainable and frozen names of a plan partition the input. */
  lemma PlanPartition(b: Backend, scope: LayerScope, rank: Option<nat>, s: Selector, items: seq<Param>)
    requires DistinctNames(items) && Planned(b, scope, rank, s, items).Ok?
    ensures var plan := Planned(b, scope, rank, s, items).value;
      && EntryNames(plan.entries) + (set n | n in plan.frozen) == Names(items)
      && EntryNames(plan.entries) !! (set n | n in plan.frozen)
      && |plan.entries| + |plan.frozen| == |items|
      && Ascends(StringLeq, plan.frozen)
  {
    PicksPartition(s, items);
    var plan := Planned(b, scope, rank, s, items).value;
    assert (set n | n in plan.frozen) == Unpicked(s, items);
  }

  // ----- one selector within another -----

  /** Whatever s picks, t picks as the same entry. */
  ghost predicate Within(s: Selector, t: Selector, items: seq<Param>) {
    forall i :: 0 <= i < |items| && Pick(s, items[i]).Some? ==> Pick(t, items[i]) == Pick(s, items[i])
  }

  /** The picks of a wider selector, without those of the narrower one. */
  function Extra(s: Selector, t: Selector, items: seq<Param>): seq<Entry> {
    if items == [] then []
    else
      var n := |items| - 1;
      var pick := Pick(t, items[n]);
      if Pick(s, items[n]).None? && pick.Some? then Extra(s, t, items[..n]) + [pick.value] else Extra(s, t, items[..n])
  }

  lemma PickedBag(s: Selector, items: seq<Param>)
    requires items != []
    ensures var n := |items| - 1;
      multiset(Picks(s, items)) == multiset(Picks(s, items[..n])) + OneBag(Pick(s, items[n]))
  {
    var n := |items| - 1;
    if Pick(s, items[n]).Some? { BagAdd(Picks(s, items[..n]), Pick(s, items[n]).value); }
  }

  function OneBag(o: Option<Entry>): multiset<Entry> {
    if o.Some? then multiset{o.value} else multiset{}
  }

  lemma ExtraBag(s: Selector, t: Selector, items: seq<Param>)
    requires items != []
    ensures var n := |items| - 1;
      multiset(Extra(s, t, items))
        == multiset(Extra(s, t, items[..n])) + OneBag(if Pick(s, items[n]).None? then Pick(t, items[n]) else None)
  {
    var n := |items| - 1;
    if Pick(t, items[n]).Some? { BagAdd(Extra(s, t, items[..n]), Pick(t, items[n]).value); }
  }

  /** The wider selector's entries are the narrower one's with extra ones. */
  lemma {:induction false} PicksWithin(s: Selector, t: Selector, items: seq<Param>)
    requires Within(s, t, items)
    ensures multiset(Picks(t, items)) == multiset(Picks(s, items)) + multiset(Extra(s, t, items))
  {
    if items != [] {
      var n := |items| - 1;
      assert forall i :: 0 <= i < n ==> items[..n][i] == items[i];
      PicksWithin(s, t, items[..n]);
      PickedBag(s, items);
      PickedBag(t, items);
      ExtraBag(s, t, items);
    }
  }

  lemma BagAdd(es: seq<Entry>, e: Entry)
    ensures multiset(es + [e]) == multiset(es) + multiset{e}
  {
  }

  // ----- nested layer scopes -----

  function Width(scope: LayerScope, total: nat): nat {
    match scope
    case All => total
    case Last(k) => k
  }

  lemma LayersNested(items: seq<Param>, narrow: LayerScope, wide: LayerScope)
    requires SelectedLayers(items, narrow).Ok? && SelectedLayers(items, wide).Ok?
    requires Width(narrow, |Layers(items)|) <= Width(wide, |Layers(items)|)
    ensures SelectedLayers(items, narrow).value <= SelectedLayers(items, wide).value
  {
  }

  /** The selected layers are as many as the scope says, and the last ones. */
  lemma LayersExact(items: seq<Param>, scope: LayerScope)
    requires SelectedLayers(items, scope).Ok?
    ensures var n := |Layers(items)|;
      && Width(scope, n) <= n
      && (forall l: nat :: l in SelectedLayers(items, scope).value <==> n - Width(scope, n) <= l < n)
  {
  }

  /** The layer selector of a scope. */
  function ScopeSelector(items: seq<Param>, scope: LayerScope, mode: Mode, heads: set<string>, hybrid: bool,
                         replicated: set<string>): Selector
    requires SelectedLayers(items, scope).Ok?
  {
    Selector(SelectedLayers(items, scope).value, mode, heads, hybrid, replicated)
  }

  /** Plans of nested scopes are nested: last1 within last3 within last5 within all. */
  lemma ScopesNested(items: seq<Param>, narrow: LayerScope, wide: LayerScope, mode: Mode,
                     heads: set<string>, hybrid: bool, replicated: set<string>)
    requires SelectedLayers(items, narrow).Ok? && SelectedLayers(items, wide).Ok?
    requires Width(narrow, |Layers(items)|) <= Width(wide, |Layers(items)|)
    ensures Within(ScopeSelector(items, narrow, mode, heads, hybrid, replicated),
                   ScopeSelector(items, wide, mode, heads, hybrid, replicated), items)
  {
    LayersNested(items, narrow, wide);
  }

  lemma LayerFromSelector(b: Backend, items: seq<Param>, mode: Mode, scope: LayerScope, rank: Option<nat>,
                          replicated: set<string>)
    requires LayerPlan(b, items, mode, scope, rank, replicated).Ok?
    ensures SelectedLayers(items, scope).Ok?
    ensures var s := ScopeSelector(items, scope, mode, {}, false, replicated);
      LayerPlan(b, items, mode, scope, rank, replicated) == Planned(b, scope, rank, s, items)
  {
  }

  lemma DSparkLayers(items: seq<Param>, mode: Mode, scope: LayerScope, hybrid: bool, h: Heads, replicated: set<string>)
    requires DSparkSelection(items, mode, scope, hybrid, h, replicated).Ok?
    ensures SelectedLayers(items, scope).Ok?
    ensures DSparkSelection(items, mode, scope, hybrid, h, replicated).value
         == ScopeSelector(items, scope, mode, HeadNames(h), hybrid, replicated + HeadNames(h))
  {
  }

  lemma DSparkFromSelector(items: seq<Param>, mode: Mode, scope: LayerScope, hybrid: bool, rank: Option<nat>, h: Heads,
                           replicated: set<string>)
    requires DSparkPlan(items, mode, scope, hybrid, rank, h, replicated).Ok?
    ensures SelectedLayers(items, scope).Ok?
    ensures var s := ScopeSelector(items, scope, mode, HeadNames(h), hybrid, replicated + HeadNames(h));
      DSparkPlan(items, mode, scope, hybrid, rank, h, replicated) == Planned(DSpark, scope, rank, s, items)
  {
    DSparkLayers(items, mode, scope, hybrid, h, replicated);
  }

  // ----- LoRA within Full -----

  /** Whatever LoRA trains, the Full selection of the same scope trains whole:
      the same tensor in the same placement. */
  lemma {:induction false} LoraWithinFull(s: Selector, items: seq<Param>)
    requires s.mode == Lora
    ensures forall e :: e in Picks(s, items) ==> e.(mode := Full) in Picks(s.(mode := Full), items)
  {
    if items != [] {
      var n := |items| - 1;
      var full := s.(mode := Full);
      LoraWithinFull(s, items[..n]);
      forall e | e in Picks(s, items) ensures e.(mode := Full) in Picks(full, items) {
        if e in Picks(s, items[..n]) {
          assert e.(mode := Full) in Picks(full, items[..n]);
        }
      }
    }
  }

  // ----- native heads -----

  function NonHeads(es: seq<Entry>, heads: set<string>): seq<Entry> {
    if es == [] then []
    else
      var n := |es| - 1;
      if es[n].name in heads then NonHeads(es[..n], heads) else NonHeads(es[..n], heads) + [es[n]]
  }

  lemma NonHeadsAdd(es: seq<Entry>, e: Entry, heads: set<string>)
    ensures NonHeads(es + [e], heads) == if e.name in heads then NonHeads(es, heads) else NonHeads(es, heads) + [e]
  {
    assert (es + [e])[..|es|] == es;
  }

  /** Away from the heads, a hybrid selector picks what the layer selector picks. */
  lemma {:induction false} HybridAwayFromHeads(s: Selector, items: seq<Param>)
    requires !s.hybrid
    ensures NonHeads(Picks(s.(hybrid := true), items), s.heads) == NonHeads(Picks(s, items), s.heads)
  {
    if items != [] {
      var n := |items| - 1;
      HybridAwayFromHeads(s, items[..n]);
      var a, b := Pick(s, items[n]), Pick(s.(hybrid := true), items[n]);
      if a.Some? { NonHeadsAdd(Picks(s, items[..n]), a.value, s.heads); }
      if b.Some? { NonHeadsAdd(Picks(s.(hybrid := true), items[..n]), b.value, s.heads); }
    }
  }

  lemma {:induction false} NoHeadsAtAll(es: seq<Entry>, heads: set<string>)
    requires forall e :: e in es ==> e.name !in heads
    ensures NonHeads(es, heads) == es
  {
    if es != [] {
      NoHeadsAtAll(es[..|es| - 1], heads);
      assert es == es[..|es| - 1] + [es[|es| - 1]];
    }
  }

  lemma {:induction false} HeadsPicked(s: Selector, items: seq<Param>, i: nat)
    requires s.hybrid && i < |items| && items[i].name in s.heads
    ensures Entry(items[i].name, items[i].shape, items[i].dtype, Full, items[i].name in s.replicated) in Picks(s, items)
  {
    var n := |items| - 1;
    if i < n {
      HeadsPicked(s, items[..n], i);
    }
  }

  lemma {:induction false} HeadEntries(s: Selector, items: seq<Param>, e: Entry)
    requires s.hybrid && e in Picks(s, items) && e.name in s.heads
    ensures e.mode == Full && e.replicated == (e.name in s.replicated)
  {
    var n := |items| - 1;
    if e in Picks(s, items[..n]) { HeadEntries(s, items[..n], e); }
  }

  /** A DSpark hybrid plan is the layer-only plan of its scope plus exactly the
      three heads, each as a full replicated entry. */
  lemma HybridIsLayersPlusHeads(items: seq<Param>, mode: Mode, scope: LayerScope, rank: Option<nat>, h: Heads,
                                replicated: set<string>)
    requires DSparkPlan(items, mode, scope, true, rank, h, replicated).Ok?
    requires DSparkPlan(items, mode, scope, false, rank, h, replicated).Ok?
    ensures var hybrid, layers := DSparkPlan(items, mode, scope, true, rank, h, replicated).value,
                                  DSparkPlan(items, mode, scope, false, rank, h, replicated).value;
      && NonHeads(hybrid.entries, HeadNames(h)) == layers.entries
      && HeadNames(h) <= EntryNames(hybrid.entries)
      && (forall e :: e in hybrid.entries && e.name in HeadNames(h) ==> e.mode == Full && e.replicated)
      && (forall e :: e in layers.entries ==> e.name !in HeadNames(h))
  {
    HybridSelector(ScopeSelector(items, scope, mode, HeadNames(h), false, replicated + HeadNames(h)), items);
  }

  lemma HybridSelector(s: Selector, items: seq<Param>)
    requires !s.hybrid && s.heads <= Names(items) && s.heads <= s.replicated && HeadsFrozen(s, Picks(s, items))
    ensures var hybrid, layers := Picks(s.(hybrid := true), items), Picks(s, items);
      && NonHeads(hybrid, s.heads) == layers
      && s.heads <= EntryNames(hybrid)
      && (forall e :: e in hybrid && e.name in s.heads ==> e.mode == Full && e.replicated)
  {
    var t := s.(hybrid := true);
    HybridAwayFromHeads(s, items);
    NoHeadsAtAll(Picks(s, items), s.heads);
    HybridHasHeads(t, items);
    forall e | e in Picks(t, items) && e.name in s.heads ensures e.mode == Full && e.replicated {
      HeadEntries(t, items, e);
    }
  }

  /** So the selector's own assertion that no head was lost can never fail. */
  lemma HybridHasHeads(s: Selector, items: seq<Param>)
    requires s.hybrid && s.heads <= Names(items)
    ensures s.heads <= EntryNames(Picks(s, items))
  {
    forall n | n in s.heads ensures n in EntryNames(Picks(s, items)) {
      var i := NameAt(items, n);
      HeadsPicked(s, items, i);
      EntryNameOf(Picks(s, items),
                  Entry(items[i].name, items[i].shape, items[i].dtype, Full, items[i].name in s.replicated));
    }
  }

  lemma {:induction false} PicksExact(s: Selector, items: seq<Param>, e: Entry)
    ensures e in Picks(s, items) <==> exists i :: 0 <= i < |items| && Pick(s, items[i]) == Some(e)
  {
    if items != [] {
      var n := |items| - 1;
      var t, pick := items[..n], Pick(s, items[n]);
      PicksExact(s, t, e);
      if i :| 0 <= i < |items| && Pick(s, items[i]) == Some(e) {
        if i < n { assert Pick(s, t[i]) == Some(e); }
      }
      if e in Picks(s, t) {
        var i :| 0 <= i < n && Pick(s, t[i]) == Some(e);
        assert Pick(s, items[i]) == Some(e);
      }
    }
  }
}
