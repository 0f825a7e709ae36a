/** Every event keeps the invariant, hence every run; and what follows from it. */
module CohortSafety {
  import opened Wrappers
  import opened Publication
  import opened CohortProtocol
  import SignalBatch

  lemma PublicationsStep(ended: seq<Termination>, t: Termination, e: nat)
    ensures Publications(ended + [t], e)
         == Publications(ended, e) + (if t.outcome == Published && t.candidate.epoch == e then [t] else [])
  {
    assert (ended + [t])[..|ended|] == ended;
  }

  lemma DiscardChained(w: World, t: Termination)
    requires Chained(w) && t.outcome == Discarded
    ensures forall e: nat :: Publications(w.ended + [t], e) == Publications(w.ended, e)
  {
    forall e: nat { PublicationsStep(w.ended, t, e); }
  }

  lemma DiscardKeeps(w: World, reason: string)
    requires Inv(w)
    ensures Inv(DiscardInFlight(w, reason)) && DiscardInFlight(w, reason).p.inFlight.None?
  {
    if w.p.inFlight.Some? {
      var t := Termination(w.p.inFlight.value, Discarded, reason, None);
      DiscardChained(w, t);
      EndMatched(w, t);
    }
  }

  lemma EndMatched(w: World, t: Termination)
    requires Live(w) && Matched(w) && w.p.inFlight == Some(t.candidate)
    ensures Matched(End(w, t))
  {
  }

  lemma CommitKeeps(w: World, c: CandidateUpdate)
    requires Inv(w) && w.p.inFlight == Some(c)
    ensures Inv(Committed(w, c))
  {
    var v := Committed(w, c);
    var t := v.ended[|v.ended| - 1];
    assert v.ended == w.ended + [t];
    EndMatched(w, t);
    forall e: nat
      ensures GapFree(Publications(v.ended, e))
      ensures e > w.p.epoch ==> Publications(v.ended, e) == []
      ensures e == w.p.epoch ==> |Publications(v.ended, e)| == v.p.version
    {
      PublicationsStep(w.ended, t, e);
      assert GapFree(Publications(w.ended, e));
    }
  }

  lemma BeginKeeps(w: World, c: CandidateUpdate)
    requires Inv(w) && Possible(w, EvBegin(c)) && w.p.disabled.None? && w.p.inFlight.None?
    ensures Inv(Step(w, EvBegin(c)))
  {
  }

  lemma ResetKeeps(w: World)
    requires Inv(w)
    ensures Inv(ResetWorld(w))
  {
    DiscardKeeps(w, "cohort_reset");
  }

  lemma CancelKeeps(w: World, request: string)
    requires Inv(w)
    ensures Inv(Cancelled(w, request))
  {
    var u := w.(p := w.p.(signals := w.p.signals - {request}));
    assert Inv(u);
    DiscardKeeps(u, "request_cancelled");
  }

  lemma BufferKeeps(w: World, s: Signal)
    requires Inv(w)
    ensures Inv(Step(w, EvOffer(s))) && Inv(Step(w, EvDrain))
  {
  }

  lemma DisableKeeps(w: World, reason: string)
    requires Inv(w)
    ensures Inv(Step(w, EvDisable(reason)))
  {
    DiscardKeeps(w, reason);
  }

  lemma StepKeeps(w: World, e: Event)
    requires Inv(w) && Possible(w, e)
    ensures Inv(Step(w, e))
  {
    match e
    case EvOffer(s) => BufferKeeps(w, s);
    case EvDrain => BufferKeeps(w, SignalBatch.Signal("", "", 0, 0, 0, [], 0));
    case EvBegin(c) => if w.p.disabled.None? && w.p.inFlight.None? { BeginKeeps(w, c); }
    case EvCommit(c, policy, round, stride, delay) =>
      if CanPublish(w.p, c, policy, round, stride, delay) == Ok(Ready) { CommitKeeps(w, c); }
    case EvDiscard(c, reason) =>
      if TerminateCheck(w.p, c, reason).None? { DiscardKeeps(w, reason); }
    case EvCancel(r) => CancelKeeps(w, r);
    case EvReset => ResetKeeps(w);
    case EvDisable(reason) => DisableKeeps(w, reason);
  }

  lemma {:induction false} RunKeeps(w: World, es: seq<Event>)
    requires Inv(w) && PossibleRun(w, es)
    ensures Inv(Run(w, es))
  {
    if es != [] {
      RunKeeps(w, es[..|es| - 1]);
      StepKeeps(Run(w, es[..|es| - 1]), es[|es| - 1]);
    }
  }

  lemma StartInv(identity: string)
    ensures Inv(Start(identity))
  {
  }

  // ----- conservation -----

  function Count(ended: seq<Termination>, o: Outcome): nat {
    if ended == [] then 0
    else Count(ended[..|ended| - 1], o) + if ended[|ended| - 1].outcome == o then 1 else 0
  }

  lemma {:induction false} CountAll(ended: seq<Termination>)
    ensures Count(ended, Published) + Count(ended, Discarded) == |ended|
  {
    if ended != [] { CountAll(ended[..|ended| - 1]); }
  }

  /** Over any run: begun = published + discarded + in flight, and no candidate
      is terminated twice. */
  lemma CandidateConservation(identity: string, es: seq<Event>)
    requires PossibleRun(Start(identity), es)
    ensures var w := Run(Start(identity), es);
      && |w.begun| == Count(w.ended, Published) + Count(w.ended, Discarded) + (if w.p.inFlight.Some? then 1 else 0)
      && (forall i, j :: 0 <= i < j < |w.ended| ==> w.ended[i].candidate != w.ended[j].candidate)
      && (forall i :: 0 <= i < |w.ended| ==>
            w.ended[i].candidate in w.begun && w.p.inFlight != Some(w.ended[i].candidate))
  {
    StartInv(identity);
    RunKeeps(Start(identity), es);
    var w := Run(Start(identity), es);
    CountAll(w.ended);
    forall i | 0 <= i < |w.ended| ensures w.p.inFlight != Some(w.ended[i].candidate) {
      assert w.begun[i] == w.ended[i].candidate;
    }
  }

  /** Over any run and for every epoch, its publications form a gap-free chain:
      the k-th takes version k-1 to version k; the current epoch's has the
      length of the live version. */
  lemma PublicationChain(identity: string, es: seq<Event>, e: nat)
    requires PossibleRun(Start(identity), es)
    ensures var w := Run(Start(identity), es);
      && GapFree(Publications(w.ended, e))
      && (e == w.p.epoch ==> |Publications(w.ended, e)| == w.p.version)
  {
    StartInv(identity);
    RunKeeps(Start(identity), es);
  }

  // ----- publication authority -----

  /** What a policy waits for once a candidate is ready, by rounds alone. */
  ghost predicate Due(c: CandidateUpdate, policy: Policy, round: int, stride: int, delay: int) {
    && round >= c.readyRound + delay
    && (policy == FixedBarrier ==> PastBarrier(c.sourceRound, stride, round))
  }

  /** For the candidate in flight none of the stale verdicts, nor the numerical
      one, can be given.  It is published exactly when the policy is not static,
      the delay since readiness is over and, for the fixed barrier, a multiple of
      the stride after its source round has passed. */
  lemma PublishExactly(w: World, c: CandidateUpdate, policy: Policy, round: int, stride: int, delay: int)
    requires Inv(w)
    ensures var v := CanPublish(w.p, c, policy, round, stride, delay);
      && (stride >= 1 && delay >= 0 ==> v.Ok?)
      && (v.Ok? ==> v.value !in {StaleEpoch, StaleSlot, VersionConflict, StaleBuffer, StaleOptimizer, Nonfinite})
      && (v == Ok(Ready) <==>
            && stride >= 1 && delay >= 0 && w.p.inFlight == Some(c) && policy != Static
            && Due(c, policy, round, stride, delay))
  {
    if stride >= 1 && delay >= 0 { PublicationExactly(policy, c.sourceRound, c.readyRound, stride, delay, round); }
  }

  /** And with legal arguments each other verdict says what is still missing. */
  lemma WaitingExactly(w: World, c: CandidateUpdate, policy: Policy, round: int, stride: int, delay: int)
    requires Inv(w) && stride >= 1 && delay >= 0
    ensures var v, live := CanPublish(w.p, c, policy, round, stride, delay), w.p.inFlight == Some(c);
      && (v == Ok(NotActiveCandidate) <==> !live)
      && (v == Ok(NotReady) <==> live && round < c.readyRound)
      && (v == Ok(StaticDisabled) <==> live && round >= c.readyRound && policy == Static)
      && (v == Ok(WaitingDelay) <==> live && c.readyRound <= round < c.readyRound + delay && policy != Static)
      && (v == Ok(WaitingBoundary) <==>
            && live && policy == FixedBarrier && round >= c.readyRound + delay
            && !PastBarrier(c.sourceRound, stride, round))
  {
    PublicationExactly(policy, c.sourceRound, c.readyRound, stride, delay, round);
    PublicationOrder(c.sourceRound, c.readyRound, stride, delay);
  }

  /** Illegal arguments: a stride below one always, a negative delay only where a
      boundary would have to be computed. */
  lemma IllegalExactly(w: World, c: CandidateUpdate, policy: Policy, round: int, stride: int, delay: int)
    requires Inv(w)
    ensures var v := CanPublish(w.p, c, policy, round, stride, delay);
      && (v == Err(BadStride) <==> stride < 1)
      && (v == Err(BadDelay) <==>
            stride >= 1 && delay < 0 && w.p.inFlight == Some(c) && policy != Static && round >= c.readyRound)
  {
  }

  /** A candidate in flight that may be published stays publishable at every
      later round, and under the earlier of the two policies. */
  lemma ReadinessMonotone(w: World, c: CandidateUpdate, policy: Policy, round: int, later: int, stride: int, delay: int)
    requires Inv(w) && round <= later
    requires CanPublish(w.p, c, policy, round, stride, delay) == Ok(Ready)
    ensures CanPublish(w.p, c, policy, later, stride, delay) == Ok(Ready)
    ensures CanPublish(w.p, c, FirstReady, round, stride, delay) == Ok(Ready)
  {
    PublicationOrder(c.sourceRound, c.readyRound, stride, delay);
  }

  /** When a commit is authorized, terminating the candidate cannot fail, so no
      counter has moved in vain. */
  lemma CommitCannotFailLate(w: World, c: CandidateUpdate, policy: Policy, round: int, stride: int, delay: int)
    requires Inv(w) && CanPublish(w.p, c, policy, round, stride, delay) == Ok(Ready)
    ensures TerminateCheck(w.p.(version := w.p.version + 1, optimizer := w.p.optimizer + 1), c, "committed").None?
  {
    LastNotInFlight(w);
  }

  lemma LastNotInFlight(w: World)
    requires Live(w) && Matched(w) && w.p.inFlight.Some?
    ensures w.p.last.Some? ==> w.p.last.value.candidate != w.p.inFlight.value
  {
    if w.ended != [] {
      assert w.begun[|w.ended| - 1] != w.begun[|w.begun| - 1];
    }
  }

  // ----- signals -----

  /** A signal is taken exactly when the cohort is enabled, its pair is the live
      one, it is of this cohort, and it is newer than what its request has there;
      it then stands for its request and nothing else changes. */
  lemma OfferExactly(p: Protocol, s: Signal)
    ensures var (q, r) := Offer(p, s);
      && (r == Ok(true) <==>
            && p.disabled.None? && s.sourceVersion == p.version && s.slot == p.slot && s.cohort == p.identity
            && (s.request in p.signals ==> p.signals[s.request].sequence < s.sequence))
      && (r.Err? <==>
            p.disabled.None? && s.sourceVersion == p.version && s.slot == p.slot && s.cohort != p.identity)
      && (r == Ok(true) ==>
            && s.request in q.signals && q.signals[s.request] == s
            && (forall o :: o != s.request ==> (o in q.signals <==> o in p.signals))
            && (forall o :: o != s.request && o in p.signals ==> q.signals[o] == p.signals[o])
            && q == p.(signals := q.signals))
      && (r != Ok(true) ==> q == p)
  {
  }

  // ----- no ABA -----

  /** The order of (slot generation, version) pairs. */
  predicate Before(slot: nat, version: nat, p: Protocol) {
    slot < p.slot || (slot == p.slot && version < p.version)
  }

  /** The pair never goes back; a commit, a cancellation and a reset advance it. */
  lemma PairAdvances(w: World, e: Event)
    ensures var p, q := w.p, Step(w, e).p;
      && (Before(p.slot, p.version, q) || (p.slot == q.slot && p.version == q.version))
      && (e.EvCancel? || e.EvReset? ==> Before(p.slot, p.version, q))
      && (e.EvCommit? && Step(w, e) != w ==> Before(p.slot, p.version, q))
  {
  }

  lemma {:induction false} PairNeverReturns(w: World, es: seq<Event>, slot: nat, version: nat)
    requires Before(slot, version, w.p)
    ensures Before(slot, version, Run(w, es).p)
  {
    if es != [] {
      PairNeverReturns(w, es[..|es| - 1], slot, version);
      PairAdvances(Run(w, es[..|es| - 1]), es[|es| - 1]);
    }
  }

  /** A signal tagged with a superseded pair is refused for ever, although a
      reset returns the version to zero. */
  lemma StaleSignalRefused(w: World, es: seq<Event>, s: Signal)
    requires Before(s.slot, s.sourceVersion, w.p)
    ensures Offer(Run(w, es).p, s) == (Run(w, es).p, Ok(false))
  {
    PairNeverReturns(w, es, s.slot, s.sourceVersion);
  }

  /** Once committed, cancelled or reset over, the live pair of that moment is
      superseded: what was tagged with it is refused ever after. */
  lemma NoReuse(w: World, e: Event, es: seq<Event>, s: Signal)
    requires e.EvCancel? || e.EvReset? || (e.EvCommit? && Step(w, e) != w)
    requires s.slot == w.p.slot && s.sourceVersion == w.p.version
    ensures !Offer(Run(Step(w, e), es).p, s).1.Err? && Offer(Run(Step(w, e), es).p, s).1 == Ok(false)
  {
    PairAdvances(w, e);
    StaleSignalRefused(Step(w, e), es, s);
  }
}
