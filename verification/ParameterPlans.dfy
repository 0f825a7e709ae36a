/** Which named tensors a backend trains: names, layer scopes and the selectors. */
module ParameterPlans {
  import opened Wrappers
  import opened Orders
  import opened Decimals
  import opened Shapes

  // ----- names -----

  /** The dot-separated components of a name. */
  function Components(name: string): seq<string> {
    ComponentsFrom(name, "")
  }

  function ComponentsFrom(name: string, part: string): seq<string> {
    if name == "" then [part]
    else if name[0] == '.' then [part] + ComponentsFrom(name[1..], "")
    else ComponentsFrom(name[1..], part + [name[0]])
  }

  const Borrowed := {"embed_tokens", "lm_head", "target_model", "target_embedding"}

  const LoraLinear := {
    "fc", "q_proj", "k_proj", "v_proj", "qkv_proj", "o_proj", "gate_proj", "gate_up_proj", "up_proj", "down_proj"}

  predicate IsOwned(name: string) {
    forall c :: c in Components(name) ==> c !in Borrowed
  }

  predicate IsLoraLinear(name: string) {
    exists c :: c in Components(name) && c in LoraLinear
  }

  /** The index after the first "layers" component that a numeral follows. */
  function LayerIn(cs: seq<string>): Option<nat> {
    if |cs| < 2 then None
    else if cs[0] == "layers" && IsNumeral(cs[1]) then Some(NumeralValue(cs[1]))
    else LayerIn(cs[1..])
  }

  function LayerIndex(name: string): Option<nat> {
    LayerIn(Components(name))
  }

  // ----- parameters and plans -----

  datatype Dtype = Float16 | BFloat16 | Float32 | Float64 | OtherFloat | Integral

  datatype Param = Param(name: string, shape: seq<nat>, dtype: Dtype)

  datatype Mode = Lora | Full
  datatype LayerScope = All | Last(count: nat)
  datatype Backend = DFlash | DSpark | Eagle | Eagle3 | NextN

  const LayerScopes := {Last(1), Last(3), Last(5), All}
  const HybridScopes := {Last(1), Last(3), Last(5)}
  const LoraRanks := {1, 2, 4, 8, 16, 32, 64}

  datatype Entry = Entry(name: string, shape: seq<nat>, dtype: Dtype, mode: Mode, replicated: bool)

  datatype Plan = Plan(
    backend: Backend, mode: Mode, scope: LayerScope, hybrid: bool, rank: Option<nat>,
    entries: seq<Entry>, frozen: seq<string>)

  datatype Error =
    | BadScope | DuplicateNames | NoLayers | LayerGap | ScopeTooLarge | BadEntry | BadRank | EmptyPlan
    | BadHeads | BadAcceptance | HeadSelected

  function Names(items: seq<Param>): set<string> {
    if items == [] then {} else Names(items[..|items| - 1]) + {items[|items| - 1].name}
  }

  predicate DistinctNames(items: seq<Param>) {
    forall i, j :: 0 <= i < j < |items| ==> items[i].name != items[j].name
  }

  function Layers(items: seq<Param>): set<nat> {
    set i | 0 <= i < |items| && LayerIndex(items[i].name).Some? :: LayerIndex(items[i].name).value
  }

  function Below(n: nat): (s: set<nat>)
    ensures forall k: nat :: k in s <==> k < n
    ensures |s| == n
  {
    if n == 0 then {} else Below(n - 1) + {n - 1}
  }

  /** The layers of a scope: all of them, or the last few of a contiguous run. */
  function SelectedLayers(items: seq<Param>, scope: LayerScope): Result<set<nat>, Error> {
    var all := Layers(items);
    if all == {} then Err(NoLayers)
    else if all != Below(|all|) then Err(LayerGap)
    else match scope
      case All => Ok(all)
      case Last(k) => if k > |all| then Err(ScopeTooLarge) else Ok(set l | l in all && l >= |all| - k)
  }

  /** What a build selects by: layers, parameterization, the native heads and
      whether they are trained, and the names held replicated. */
  datatype Selector = Selector(layers: set<nat>, mode: Mode, heads: set<string>, hybrid: bool, replicated: set<string>)

  predicate Eligible(s: Selector, p: Param) {
    && IsOwned(p.name)
    && p.dtype != Integral
    && LayerIndex(p.name).Some? && LayerIndex(p.name).value in s.layers
    && (s.mode == Lora ==> |p.shape| == 2 && IsLoraLinear(p.name))
  }

  function Pick(s: Selector, p: Param): Option<Entry> {
    if s.hybrid && p.name in s.heads then Some(Entry(p.name, p.shape, p.dtype, Full, p.name in s.replicated))
    else if Eligible(s, p) then Some(Entry(p.name, p.shape, p.dtype, s.mode, p.name in s.replicated))
    else None
  }

  function Picks(s: Selector, items: seq<Param>): seq<Entry> {
    if items == [] then []
    else
      var n := |items| - 1;
      var pick := Pick(s, items[n]);
      if pick.Some? then Picks(s, items[..n]) + [pick.value] else Picks(s, items[..n])
  }

  function Unpicked(s: Selector, items: seq<Param>): set<string> {
    if items == [] then {}
    else
      var n := |items| - 1;
      if Pick(s, items[n]).Some? then Unpicked(s, items[..n]) else Unpicked(s, items[..n]) + {items[n].name}
  }

  /** An entry needs a name and positive dimensions. */
  predicate GoodEntry(e: Entry) {
    e.name != "" && e.shape != [] && forall d :: d in e.shape ==> d >= 1
  }

  predicate GoodRank(mode: Mode, rank: Option<nat>) {
    if mode == Full then rank.None? else rank.Some? && rank.value in LoraRanks
  }

  predicate HeadsFrozen(s: Selector, entries: seq<Entry>) {
    s.hybrid || forall e :: e in entries ==> e.name !in s.heads
  }

  /** The plan a selector makes of a parameter list. */
  ghost function Planned(b: Backend, scope: LayerScope, rank: Option<nat>, s: Selector, items: seq<Param>)
    : Result<Plan, Error>
  {
    var entries := Picks(s, items);
    if exists e :: e in entries && !GoodEntry(e) then Err(BadEntry)
    else if !HeadsFrozen(s, entries) then Err(HeadSelected)
    else if !GoodRank(s.mode, rank) then Err(BadRank)
    else if entries == [] then Err(EmptyPlan)
    else Ok(Plan(b, s.mode, scope, s.hybrid, rank, entries, SortedStrings(Unpicked(s, items))))
  }

  /** DFlash, EAGLE and NEXTN plans: the layers of a registered scope. */
  ghost function LayerPlan(b: Backend, items: seq<Param>, mode: Mode, scope: LayerScope, rank: Option<nat>,
                           replicated: set<string>): Result<Plan, Error>
  {
    if scope !in LayerScopes then Err(BadScope)
    else if !DistinctNames(items) then Err(DuplicateNames)
    else
      var layers := SelectedLayers(items, scope);
      if layers.Err? then Err(layers.error)
      else Planned(b, scope, rank, Selector(layers.value, mode, {}, false, replicated), items)
  }

  datatype Heads = Heads(w1: string, w2: string, acceptance: string)

  function HeadNames(h: Heads): set<string> {
    {h.w1, h.w2, h.acceptance}
  }

  /** The acceptance projection is a scalar: at most one dimension, one element. */
  predicate ScalarAcceptance(items: seq<Param>, h: Heads) {
    forall i :: 0 <= i < |items| && items[i].name == h.acceptance ==>
      |items[i].shape| <= 1 && Numel(items[i].shape) == 1
  }

  /** What a DSpark build selects by, or the guard that refuses it. */
  function DSparkSelection(items: seq<Param>, mode: Mode, scope: LayerScope, hybrid: bool, h: Heads,
                           replicated: set<string>): Result<Selector, Error>
  {
    if scope !in (if hybrid then HybridScopes else LayerScopes) then Err(BadScope)
    else if !DistinctNames(items) then Err(DuplicateNames)
    else if |HeadNames(h)| != 3 || !(HeadNames(h) <= Names(items)) then Err(BadHeads)
    else if !ScalarAcceptance(items, h) then Err(BadAcceptance)
    else
      var layers := SelectedLayers(items, scope);
      if layers.Err? then Err(layers.error)
      else Ok(Selector(layers.value, mode, HeadNames(h), hybrid, replicated + HeadNames(h)))
  }

  /** DSpark plans: layers alone, or layers with the three native heads. */
  ghost function DSparkPlan(items: seq<Param>, mode: Mode, scope: LayerScope, hybrid: bool, rank: Option<nat>,
                            h: Heads, replicated: set<string>): Result<Plan, Error>
  {
    var s := DSparkSelection(items, mode, scope, hybrid, h, replicated);
    if s.Err? then Err(s.error) else Planned(DSpark, scope, rank, s.value, items)
  }
}
