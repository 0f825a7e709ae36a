/** Optimistic proposals against a linear history: whatever is proposed and
    committed in whatever order, the state is the fold of the transition over the
    inputs of the committed proposals. */
module OptimizerHistory {
  import opened Wrappers
  import opened OptimizerModel

  /** One optimizer: its configuration, its numerics, its device, its token, and
      the state it was built with. */
  datatype Setting = Setting(c: Config, f: Foreign, cpu: bool, owner: Token, start: State)

  ghost predicate ValidSetting(e: Setting) {
    ValidConfig(e.c) && Genuine(e.f) && LaidOut(e.c, e.start) && e.start.step == 0
  }

  lemma InitialLaidOut(c: Config, parameters: seq<Tensor>, boundary: nat)
    requires forall i :: 0 <= i < |parameters| ==> Formed(parameters[i])
    ensures LaidOut(c, Initial(c, parameters, boundary)) && Initial(c, parameters, boundary).step == 0
  {
  }

  ghost predicate Applicable(e: Setting, s: State, x: Input) {
    && ValidSetting(e)
    && |s.master| == |s.first| == |s.second|
    && ProposeCheck(e.c, e.f, e.cpu, s, x).None?
  }

  /** The states after the first inputs of a history. */
  ghost function Replay(e: Setting, xs: seq<Input>): State {
    if xs == [] then e.start
    else
      var s, x := Replay(e, xs[..|xs| - 1]), xs[|xs| - 1];
      if Applicable(e, s, x) then Next(e.c, e.f, s, x) else s
  }

  lemma ReplayExtend(e: Setting, xs: seq<Input>, x: Input)
    requires Applicable(e, Replay(e, xs), x)
    ensures Replay(e, xs + [x]) == Next(e.c, e.f, Replay(e, xs), x)
  {
    assert (xs + [x])[..|xs|] == xs;
  }

  // ----- the layout never changes -----

  lemma UpdateLayout(c: Config, f: Foreign, scale: real, step: nat, age: nat, s: Slot, g: Tensor)
    requires Genuine(f) && ValidConfig(c) && step >= 1
    ensures var u := Update(c, f, scale, step, age, s, g);
      u.p.shape == s.p.shape && |u.p.data| == |s.p.data| && |u.m.data| == |s.m.data| && |u.v.data| == |s.v.data|
  {
  }

  lemma NextLaidOut(e: Setting, s: State, x: Input)
    requires Applicable(e, s, x) && LaidOut(e.c, s)
    ensures LaidOut(e.c, Next(e.c, e.f, s, x))
  {
    var n := Next(e.c, e.f, s, x);
    forall i | 0 <= i < |s.master|
      ensures Formed(n.master[i])
        && |n.first[i].data| == (if UsesFirst(e.c.name) then |n.master[i].data| else 0)
        && |n.second[i].data| == (if UsesSecond(e.c.name, n.master[i].shape) then |n.master[i].data| else 0)
    {
      assert Formed(s.master[i]);
      UpdateLayout(e.c, e.f, Scale(e.f, e.c.schedule, s.step + 1).value, s.step + 1, AgeOf(e.c, x),
                   Slot(s.master[i], s.first[i], s.second[i]), Clipped(e.c, e.f, x.gradients)[i]);
    }
  }

  // ----- runs -----

  /** A proposal, what it was asked for, and how many commits preceded it. */
  datatype Issue = Issue(proposal: Proposal, input: Input, base: nat)

  datatype World = World(state: State, issued: seq<Issue>, history: seq<Input>, committed: seq<nat>)

  datatype Event =
    | EvPropose(input: Input)
    | EvCommit(index: nat, receipt: Option<bool>)
    | EvRefused(proposal: Proposal, receipt: Option<bool>)

  ghost function Begin(e: Setting): World {
    World(e.start, [], [], [])
  }

  /** A commit presents a proposal of this optimizer, by its index among the
      issued ones, or any other one that is refused: one with another token is. */
  ghost predicate Possible(e: Setting, w: World, ev: Event) {
    match ev
    case EvPropose(_) => true
    case EvCommit(k, _) => k < |w.issued|
    case EvRefused(p, receipt) => CommitCheck(e.c, e.cpu, w.state, p, e.owner, receipt).Some?
  }

  ghost function Accept(e: Setting, w: World, k: nat): World
    requires k < |w.issued| && w.issued[k].proposal.step >= 0
  {
    World(Adopted(e.c, w.state, w.issued[k].proposal), w.issued, w.history + [w.issued[k].input], w.committed + [k])
  }

  ghost function Step(e: Setting, w: World, ev: Event): World
    requires ValidSetting(e)
  {
    match ev
    case EvPropose(x) =>
      if !(|w.state.master| == |w.state.first| == |w.state.second|) then w
      else
        var r := Propose(e.c, e.f, e.cpu, w.state, x, e.owner);
        if r.Err? then w else w.(issued := w.issued + [Issue(r.value, x, |w.history|)])
    case EvCommit(k, receipt) =>
      if k >= |w.issued| || CommitCheck(e.c, e.cpu, w.state, w.issued[k].proposal, e.owner, receipt).Some? then w
      else Accept(e, w, k)
    case EvRefused(p, receipt) =>
      if CommitCheck(e.c, e.cpu, w.state, p, e.owner, receipt).Some? then w else w.(state := Adopted(e.c, w.state, p))
  }

  ghost function Run(e: Setting, evs: seq<Event>): World
    requires ValidSetting(e)
  {
    if evs == [] then Begin(e) else Step(e, Run(e, evs[..|evs| - 1]), evs[|evs| - 1])
  }

  ghost predicate PossibleRun(e: Setting, evs: seq<Event>)
    requires ValidSetting(e)
  {
    evs == [] || (PossibleRun(e, evs[..|evs| - 1]) && Possible(e, Run(e, evs[..|evs| - 1]), evs[|evs| - 1]))
  }

  // ----- the invariant -----

  ghost predicate Linear(e: Setting, xs: seq<Input>) {
    forall n :: 0 <= n <= |xs| ==> Replay(e, xs[..n]).step == n && LaidOut(e.c, Replay(e, xs[..n]))
  }

  /** The issue was computed from the state after exactly its base of commits. */
  ghost predicate Faithful(e: Setting, xs: seq<Input>, u: Issue) {
    && u.base <= |xs|
    && Applicable(e, Replay(e, xs[..u.base]), u.input)
    && Propose(e.c, e.f, e.cpu, Replay(e, xs[..u.base]), u.input, e.owner) == Ok(u.proposal)
  }

  /** The n-th commit took a proposal computed from the state after n commits. */
  ghost predicate Witnessed(w: World) {
    && |w.committed| == |w.history|
    && forall n :: 0 <= n < |w.committed| ==>
         && w.committed[n] < |w.issued|
         && w.issued[w.committed[n]].base == n && w.issued[w.committed[n]].input == w.history[n]
  }

  ghost predicate Inv(e: Setting, w: World) {
    && ValidSetting(e)
    && w.state == Replay(e, w.history)
    && w.state.boundary == e.start.boundary + (if e.c.name == ChronoBelief then |w.history| else 0)
    && Linear(e, w.history)
    && (forall k :: 0 <= k < |w.issued| ==> Faithful(e, w.history, w.issued[k]))
    && Witnessed(w)
  }

  lemma Current(e: Setting, w: World)
    requires Inv(e, w)
    ensures w.state.step == |w.history| && LaidOut(e.c, w.state)
  {
    assert w.history[..|w.history|] == w.history;
  }

  lemma FaithfulExtends(e: Setting, xs: seq<Input>, x: Input, u: Issue)
    requires Faithful(e, xs, u)
    ensures Faithful(e, xs + [x], u)
  {
    assert (xs + [x])[..u.base] == xs[..u.base];
  }

  lemma LinearExtends(e: Setting, xs: seq<Input>, x: Input)
    requires Linear(e, xs) && Applicable(e, Replay(e, xs), x)
    ensures Linear(e, xs + [x])
  {
    assert xs[..|xs|] == xs;
    var ys := xs + [x];
    forall n | 0 <= n <= |ys| ensures Replay(e, ys[..n]).step == n && LaidOut(e.c, Replay(e, ys[..n])) {
      if n <= |xs| {
        assert ys[..n] == xs[..n];
      } else {
        assert ys[..n] == ys;
        ReplayExtend(e, xs, x);
        NextLaidOut(e, Replay(e, xs), x);
      }
    }
  }

  /** A proposal of this optimizer whose step is current was computed from
      exactly the state it would replace; committing it is the transition. */
  lemma CommitIsNext(e: Setting, w: World, k: nat, receipt: Option<bool>)
    requires Inv(e, w) && LaidOut(e.c, w.state) && k < |w.issued|
    requires CommitCheck(e.c, e.cpu, w.state, w.issued[k].proposal, e.owner, receipt).None?
    ensures var u := w.issued[k];
      && u.base == |w.history|
      && Applicable(e, w.state, u.input)
      && Propose(e.c, e.f, e.cpu, w.state, u.input, e.owner) == Ok(u.proposal)
      && Adopted(e.c, w.state, u.proposal) == Next(e.c, e.f, w.state, u.input)
  {
    Current(e, w);
    var u := w.issued[k];
    assert Faithful(e, w.history, u);
    assert Replay(e, w.history[..u.base]).step == u.base;
    assert u.base == |w.history| && w.history[..u.base] == w.history;
  }

  lemma AcceptKeeps(e: Setting, w: World, k: nat, receipt: Option<bool>)
    requires Inv(e, w) && LaidOut(e.c, w.state) && k < |w.issued|
    requires CommitCheck(e.c, e.cpu, w.state, w.issued[k].proposal, e.owner, receipt).None?
    ensures Inv(e, Accept(e, w, k))
  {
    CommitIsNext(e, w, k, receipt);
    var x, v := w.issued[k].input, Accept(e, w, k);
    ReplayExtend(e, w.history, x);
    LinearExtends(e, w.history, x);
    IssuesExtend(e, w.history, x, w.issued);
    WitnessExtends(w, v, k);
  }

  lemma IssuesExtend(e: Setting, xs: seq<Input>, x: Input, issued: seq<Issue>)
    requires forall i :: 0 <= i < |issued| ==> Faithful(e, xs, issued[i])
    ensures forall i :: 0 <= i < |issued| ==> Faithful(e, xs + [x], issued[i])
  {
    forall i | 0 <= i < |issued| ensures Faithful(e, xs + [x], issued[i]) {
      FaithfulExtends(e, xs, x, issued[i]);
    }
  }

  lemma WitnessExtends(w: World, v: World, k: nat)
    requires Witnessed(w) && k < |w.issued| && w.issued[k].base == |w.history|
    requires v.issued == w.issued && v.history == w.history + [w.issued[k].input] && v.committed == w.committed + [k]
    ensures Witnessed(v)
  {
  }

  lemma ProposeKeeps(e: Setting, w: World, x: Input)
    requires Inv(e, w) && LaidOut(e.c, w.state)
    ensures Inv(e, Step(e, w, EvPropose(x)))
  {
    assert w.history[..|w.history|] == w.history;
    var v := Step(e, w, EvPropose(x));
    if v != w {
      var u := v.issued[|w.issued|];
      assert Faithful(e, v.history, u);
      forall k | 0 <= k < |v.issued| ensures Faithful(e, v.history, v.issued[k]) {
        if k < |w.issued| { assert v.issued[k] == w.issued[k]; }
      }
    }
  }

  lemma CommitKeeps(e: Setting, w: World, k: nat, receipt: Option<bool>)
    requires Inv(e, w) && LaidOut(e.c, w.state) && k < |w.issued|
    ensures Inv(e, Step(e, w, EvCommit(k, receipt)))
  {
    CommitAccepts(e, w, k, receipt);
    if CommitCheck(e.c, e.cpu, w.state, w.issued[k].proposal, e.owner, receipt).None? {
      AcceptKeeps(e, w, k, receipt);
      SameWorld(e, Accept(e, w, k), Step(e, w, EvCommit(k, receipt)));
    }
  }

  lemma CommitAccepts(e: Setting, w: World, k: nat, receipt: Option<bool>)
    requires ValidSetting(e) && k < |w.issued|
    ensures var v := Step(e, w, EvCommit(k, receipt));
      if CommitCheck(e.c, e.cpu, w.state, w.issued[k].proposal, e.owner, receipt).Some? then v == w
      else w.issued[k].proposal.step >= 0 && v == Accept(e, w, k)
  {
  }

  lemma SameWorld(e: Setting, w: World, v: World)
    requires Inv(e, w) && v == w
    ensures Inv(e, v)
  {
  }

  lemma StepKeeps(e: Setting, w: World, ev: Event)
    requires Inv(e, w) && Possible(e, w, ev)
    ensures Inv(e, Step(e, w, ev))
  {
    Current(e, w);
    match ev
    case EvPropose(x) => ProposeKeeps(e, w, x);
    case EvCommit(k, receipt) => CommitKeeps(e, w, k, receipt);
    case EvRefused(_, _) =>
  }

  /** What committing an issued proposal makes of a sound world. */
  lemma CommitStep(e: Setting, w: World, k: nat, receipt: Option<bool>)
    requires Inv(e, w) && k < |w.issued|
    ensures var p, x, v := w.issued[k].proposal, w.issued[k].input, Step(e, w, EvCommit(k, receipt));
      if CommitCheck(e.c, e.cpu, w.state, p, e.owner, receipt).Some? then v == w
      else p.step >= 0 && v == World(Adopted(e.c, w.state, p), w.issued, w.history + [x], w.committed + [k])
           && Applicable(e, w.state, x) && Adopted(e.c, w.state, p) == Next(e.c, e.f, w.state, x)
  {
    Current(e, w);
    if CommitCheck(e.c, e.cpu, w.state, w.issued[k].proposal, e.owner, receipt).None? {
      CommitIsNext(e, w, k, receipt);
    }
  }

  lemma {:induction false} RunInv(e: Setting, evs: seq<Event>)
    requires ValidSetting(e) && PossibleRun(e, evs)
    ensures Inv(e, Run(e, evs)) && LaidOut(e.c, Run(e, evs).state)
  {
    if evs != [] {
      RunInv(e, evs[..|evs| - 1]);
      StepKeeps(e, Run(e, evs[..|evs| - 1]), evs[|evs| - 1]);
    }
    Current(e, Run(e, evs));
  }

  /** After any interleaving of proposals and commits, the state is the fold of
      the transition over the committed inputs alone; the step number is their
      number, and ChronoBelief's boundary has advanced by it. */
  lemma LinearHistory(e: Setting, evs: seq<Event>)
    requires ValidSetting(e) && PossibleRun(e, evs)
    ensures var w := Run(e, evs);
      && w.state == Replay(e, w.history)
      && w.state.step == |w.history|
      && w.state.boundary == e.start.boundary + if e.c.name == ChronoBelief then |w.history| else 0
  {
    RunInv(e, evs);
    Current(e, Run(e, evs));
  }

  /** The n-th commit took a proposal computed from exactly the state it
      replaced. */
  ghost predicate FromItsBase(e: Setting, w: World, n: nat)
    requires ValidSetting(e) && n < |w.history|
  {
    var base := Replay(e, w.history[..n]);
    && n < |w.committed| && w.committed[n] < |w.issued|
    && LaidOut(e.c, base)
    && Propose(e.c, e.f, e.cpu, base, w.history[n], e.owner) == Ok(w.issued[w.committed[n]].proposal)
  }

  /** Every committed proposal was computed from exactly the state it replaced,
      and no two commits ever came from the same base state. */
  lemma OneCommitPerBase(e: Setting, evs: seq<Event>)
    requires ValidSetting(e) && PossibleRun(e, evs)
    ensures var w := Run(e, evs);
      && |w.committed| == |w.history|
      && (forall n :: 0 <= n < |w.history| ==> FromItsBase(e, w, n) && w.issued[w.committed[n]].base == n)
  {
    RunInv(e, evs);
    var w := Run(e, evs);
    forall n | 0 <= n < |w.history| ensures FromItsBase(e, w, n) {
      assert Faithful(e, w.history, w.issued[w.committed[n]]);
    }
  }

  lemma StepGrows(e: Setting, w: World, ev: Event)
    requires ValidSetting(e)
    ensures w.issued <= Step(e, w, ev).issued && w.history <= Step(e, w, ev).history
  {
  }

  /** What was issued and committed stays so along every continuation. */
  lemma {:induction false} RunGrows(e: Setting, evs: seq<Event>, more: seq<Event>)
    requires ValidSetting(e)
    ensures Run(e, evs).issued <= Run(e, evs + more).issued && Run(e, evs).history <= Run(e, evs + more).history
    decreases |more|
  {
    if more == [] {
      assert evs + more == evs;
    } else {
      var n := |more| - 1;
      RunGrows(e, evs, more[..n]);
      assert (evs + more)[..|evs| + n] == evs + more[..n];
      StepGrows(e, Run(e, evs + more[..n]), more[n]);
    }
  }

  lemma Superseded(e: Setting, w: World, k: nat, receipt: Option<bool>)
    requires Inv(e, w) && k < |w.issued| && w.issued[k].base < |w.history|
    ensures CommitCheck(e.c, e.cpu, w.state, w.issued[k].proposal, e.owner, receipt) == Some(StepConflict)
  {
    Current(e, w);
    assert Faithful(e, w.history, w.issued[k]);
    assert Replay(e, w.history[..w.issued[k].base]).step == w.issued[k].base;
  }

  /** Of two proposals issued from the same state, once one commits the other is
      refused for ever: whatever is proposed and committed after, it conflicts. */
  lemma LoserRefused(e: Setting, evs: seq<Event>, more: seq<Event>, k: nat, receipt: Option<bool>)
    requires ValidSetting(e) && PossibleRun(e, evs + more)
    requires k < |Run(e, evs).issued| && Run(e, evs).issued[k].base < |Run(e, evs).history|
    ensures var w := Run(e, evs + more);
      && k < |w.issued| && w.issued[k] == Run(e, evs).issued[k]
      && CommitCheck(e.c, e.cpu, w.state, w.issued[k].proposal, e.owner, receipt) == Some(StepConflict)
      && Step(e, w, EvCommit(k, receipt)) == w
  {
    RunGrows(e, evs, more);
    RunInv(e, evs + more);
    Superseded(e, Run(e, evs + more), k, receipt);
  }
}
