/** GPUOptimizer: functional proposals, and active state that changes on commit. */
module GPUOptimizer {
  import opened Wrappers
  import opened M = OptimizerModel
  import opened OptimizerHistory

  datatype Refusal = BadVersion | NoParameters | NonFiniteParameters

  class GPUOptimizer {
    const config: Config
    const numerics: Foreign
    const cpu: bool
    const owner: Token
    ghost const start: State

    var master: seq<Tensor>
    var first: seq<Tensor>
    var second: seq<Tensor>
    var step: nat
    var boundary: nat

    ghost var issued: seq<Issue>
    ghost var history: seq<Input>
    ghost var committed: seq<nat>
    ghost var trace: seq<Event>

    function Active(): State
      reads this
    {
      State(master, first, second, step, boundary)
    }

    ghost function Self(): Setting {
      Setting(config, numerics, cpu, owner, start)
    }

    ghost function History(): World
      reads this
    {
      World(Active(), issued, history, committed)
    }

    /** The optimizer is where the proposals and commits so far lead. */
    ghost predicate Valid()
      reads this
    {
      ValidSetting(Self()) && PossibleRun(Self(), trace) && History() == Run(Self(), trace)
    }

    constructor (config: Config, numerics: Foreign, cpu: bool, parameters: seq<Tensor>, boundary: nat)
      requires ValidConfig(config) && Genuine(numerics)
      requires forall i :: 0 <= i < |parameters| ==> Formed(parameters[i])
      ensures Valid() && this.config == config && this.cpu == cpu && trace == []
      ensures Active() == Initial(config, parameters, boundary) == start
    {
      InitialLaidOut(config, parameters, boundary);
      var initial := Initial(config, parameters, boundary);
      this.config, this.numerics, this.cpu := config, numerics, cpu;
      owner := new Token();
      start := initial;
      master, first, second := initial.master, initial.first, initial.second;
      step, this.boundary := 0, boundary;
      issued, history, committed, trace := [], [], [], [];
    }

    /** The constructor's refusals. */
    static function Check(config: Config, parameters: seq<Tensor>, finite: bool, boundary: int): Option<Refusal> {
      if boundary < 0 || (config.name != ChronoBelief && boundary != 0) then Some(BadVersion)
      else if parameters == [] then Some(NoParameters)
      else if !finite then Some(NonFiniteParameters)
      else None
    }

    /** So every optimizer is sound, whatever was called on it. */
    lemma AlwaysSound()
      requires Valid()
      ensures Inv(Self(), History()) && LaidOut(config, Active())
      ensures Active() == Replay(Self(), history) && step == |history|
    {
      RunInv(Self(), trace);
      LinearHistory(Self(), trace);
    }

    ghost method Record(ev: Event)
      requires ValidSetting(Self()) && PossibleRun(Self(), trace)
      requires Possible(Self(), Run(Self(), trace), ev)
      requires History() == Step(Self(), Run(Self(), trace), ev)
      modifies this`trace
      ensures Valid() && trace == old(trace) + [ev]
    {
      assert (trace + [ev])[..|trace|] == trace;
      trace := trace + [ev];
    }

    lemma AlwaysLaidOut()
      requires Valid()
      ensures |master| == |first| == |second|
    {
      AlwaysSound();
    }

    /** What is proposed is where the history with this input would lead. */
    lemma ProposesReplay(x: Input)
      requires Valid()
      ensures |master| == |first| == |second|
      ensures var r, next := M.Propose(config, numerics, cpu, Active(), x, owner), Replay(Self(), history + [x]);
        r.Ok? ==> r.value.master == next.master && r.value.first == next.first && r.value.second == next.second
    {
      AlwaysSound();
      if ProposeCheck(config, numerics, cpu, Active(), x).None? { ReplayExtend(Self(), history, x); }
    }

    lemma CommitFacts(k: nat, receipt: Option<bool>)
      requires Valid() && k < |issued|
      ensures var p, x, v := issued[k].proposal, issued[k].input, Step(Self(), History(), EvCommit(k, receipt));
        if CommitCheck(config, cpu, Active(), p, owner, receipt).Some? then v == History()
        else p.step >= 0 && v == World(Adopted(config, Active(), p), issued, history + [x], committed + [k])
             && Applicable(Self(), Active(), x) && Adopted(config, Active(), p) == Next(config, numerics, Active(), x)
    {
      AlwaysSound();
      CommitStep(Self(), History(), k, receipt);
    }

    /** A proposal leaves the active state as it is. */
    method Propose(x: Input) returns (r: Result<Proposal, M.Error>)
      requires Valid()
      modifies this`issued, this`trace
      ensures Valid() && trace == old(trace) + [EvPropose(x)]
      ensures |master| == |first| == |second|
      ensures r == M.Propose(config, numerics, cpu, Active(), x, owner)
      ensures issued == if r.Ok? then old(issued) + [Issue(r.value, x, |history|)] else old(issued)
      ensures r.Ok? ==>
        var next := Replay(Self(), history + [x]);
        r.value.master == next.master && r.value.first == next.first && r.value.second == next.second
    {
      AlwaysLaidOut();
      ProposesReplay(x);
      r := Compute(config, numerics, cpu, Active(), x, owner);
      if r.Ok? {
        issued := issued + [Issue(r.value, x, |history|)];
      }
      Record(EvPropose(x));
    }

    /** Copies a proposal into the active state. */
    method Adopt(p: Proposal, ghost k: nat)
      requires k < |issued| && p.step >= 0
      modifies this`master, this`first, this`second, this`step, this`boundary, this`history, this`committed
      ensures History()
           == World(Adopted(config, old(Active()), p), issued, old(history) + [issued[k].input], old(committed) + [k])
    {
      master, first, second := p.master, p.first, p.second;
      step := p.step;
      if config.name == ChronoBelief {
        boundary := boundary + 1;
      }
      history := history + [issued[k].input];
      committed := committed + [k];
    }

    /** A commit of any proposal; one that is accepted is among those issued here. */
    method Commit(p: Proposal, receipt: Option<bool>) returns (r: Result<(), M.Error>)
      requires Valid()
      requires CommitCheck(config, cpu, Active(), p, owner, receipt).None? ==>
        exists k :: 0 <= k < |issued| && issued[k].proposal == p
      modifies this
      ensures Valid() && issued == old(issued)
      ensures r.Ok? <==> CommitCheck(config, cpu, old(Active()), p, owner, receipt).None?
      ensures r.Err? ==> Some(r.error) == CommitCheck(config, cpu, old(Active()), p, owner, receipt)
      ensures r.Err? ==> Active() == old(Active()) && history == old(history)
      ensures r.Ok? ==> master == p.master && first == p.first && second == p.second && step == p.step
      ensures r.Ok? ==> |history| == |old(history)| + 1 && history[..|old(history)|] == old(history)
      ensures r.Ok? ==> Applicable(Self(), old(Active()), history[|history| - 1])
      ensures r.Ok? ==> Active() == Next(config, numerics, old(Active()), history[|history| - 1])
    {
      var check := CommitCheck(config, cpu, Active(), p, owner, receipt);
      if check.Some? {
        Record(EvRefused(p, receipt));
        return Err(check.value);
      }
      ghost var k :| 0 <= k < |issued| && issued[k].proposal == p;
      CommitFacts(k, receipt);
      Adopt(p, k);
      Record(EvCommit(k, receipt));
      r := Ok(());
    }
  }

  /** The computation of a proposal, branch by branch and slot by slot. */
  method Compute(c: Config, f: Foreign, cpu: bool, s: State, x: Input, owner: Token)
    returns (r: Result<Proposal, M.Error>)
    requires Genuine(f) && ValidConfig(c) && |s.master| == |s.first| == |s.second|
    ensures r == M.Propose(c, f, cpu, s, x, owner)
  {
    var check := ProposeCheck(c, f, cpu, s, x);
    if check.Some? {
      return Err(check.value);
    }
    var ps, ms, vs := Slots(c, f, s, x);
    r := Ok(Proposal(ps, ms, vs, s.step + 1, x.finite, if c.name == ChronoBelief then Some(AgeOf(c, x)) else None,
                     x.source, x.boundary, owner));
  }

  lemma SlotsAreNext(c: Config, f: Foreign, s: State, x: Input, ps: seq<Tensor>, ms: seq<Tensor>, vs: seq<Tensor>)
    requires Genuine(f) && ValidConfig(c) && Scale(f, c.schedule, s.step + 1).Some?
    requires |s.master| == |s.first| == |s.second| == |x.gradients| == |ps| == |ms| == |vs|
    requires forall i :: 0 <= i < |ps| ==> Slot(ps[i], ms[i], vs[i]) == NextSlot(c, f, s, x, i)
    ensures var next := Next(c, f, s, x); ps == next.master && ms == next.first && vs == next.second
  {
    var next := Next(c, f, s, x);
    forall i | 0 <= i < |ps| ensures ps[i] == next.master[i] && ms[i] == next.first[i] && vs[i] == next.second[i] {
      assert Slot(ps[i], ms[i], vs[i]) == NextSlot(c, f, s, x, i);
    }
  }

  /** The loops over the parameters: each slot is updated on its own. */
  method Slots(c: Config, f: Foreign, s: State, x: Input) returns (ps: seq<Tensor>, ms: seq<Tensor>, vs: seq<Tensor>)
    requires Genuine(f) && ValidConfig(c) && Scale(f, c.schedule, s.step + 1).Some?
    requires |s.master| == |s.first| == |s.second| == |x.gradients|
    ensures var next := Next(c, f, s, x); ps == next.master && ms == next.first && vs == next.second
  {
    var grads := Clipped(c, f, x.gradients);
    var scale, age := Scale(f, c.schedule, s.step + 1).value, AgeOf(c, x);
    ps, ms, vs := [], [], [];
    var i := 0;
    while i < |s.master|
      invariant 0 <= i <= |s.master| && |ps| == |ms| == |vs| == i
      invariant forall k :: 0 <= k < i ==> Slot(ps[k], ms[k], vs[k]) == NextSlot(c, f, s, x, k)
    {
      var slot := Update(c, f, scale, s.step + 1, age, Slot(s.master[i], s.first[i], s.second[i]), grads[i]);
      assert slot == NextSlot(c, f, s, x, i);
      ps, ms, vs := ps + [slot.p], ms + [slot.m], vs + [slot.v];
      i := i + 1;
    }
    SlotsAreNext(c, f, s, x, ps, ms, vs);
  }

  /** Construction; finite is the numerical predicate of the parameters. */
  method Create(config: Config, numerics: Foreign, cpu: bool, parameters: seq<Tensor>, finite: bool, boundary: int)
    returns (refusal: Option<Refusal>, optimizer: GPUOptimizer?)
    requires ValidConfig(config) && Genuine(numerics)
    requires forall i :: 0 <= i < |parameters| ==> Formed(parameters[i])
    ensures refusal.Some? <==>
      boundary < 0 || (config.name != ChronoBelief && boundary != 0) || parameters == [] || !finite
    ensures refusal == GPUOptimizer.Check(config, parameters, finite, boundary)
    ensures refusal.None? ==> optimizer != null && fresh(optimizer) && optimizer.Valid() && optimizer.trace == []
    ensures refusal.None? ==> optimizer.Active() == Initial(config, parameters, boundary)
  {
    refusal, optimizer := GPUOptimizer.Check(config, parameters, finite, boundary), null;
    if refusal.None? {
      optimizer := new GPUOptimizer(config, numerics, cpu, parameters, boundary);
    }
  }
}
