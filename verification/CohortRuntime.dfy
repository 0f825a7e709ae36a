/** CohortRuntime: the protocol held in fields that its methods update. */
module CohortRuntime {
  import opened Wrappers
  import opened Publication
  import opened CohortProtocol
  import opened CohortSafety
  import opened SignalBatch

  /** The last termination once whatever was in flight has been discarded. */
  function Dropped(inFlight: Option<CandidateUpdate>, last: Option<Termination>, reason: string): Option<Termination> {
    if inFlight.None? then last else Some(Termination(inFlight.value, Discarded, reason, None))
  }

  class CohortRuntime {
    const identity: string
    var epoch: nat
    var version: nat
    var slot: nat
    var buffer: nat
    var optimizer: nat
    var signals: LatestSignalBatch
    var inFlight: Option<CandidateUpdate>
    var disabled: Option<string>
    var last: Option<Termination>

    ghost var begun: seq<CandidateUpdate>
    ghost var ended: seq<Termination>
    ghost var epochSlot: nat
    ghost var trace: seq<Event>

    function State(): Protocol
      reads this, signals
    {
      Protocol(identity, epoch, version, slot, buffer, optimizer, signals.signals, inFlight, disabled, last)
    }

    ghost function History(): World
      reads this, signals
    {
      World(State(), begun, ended, epochSlot)
    }

    /** The runtime is where the events so far lead from a fresh cohort. */
    ghost predicate Valid()
      reads this, signals
    {
      && signals.Valid() && signals.cohort == identity
      && PossibleRun(Start(identity), trace)
      && History() == Run(Start(identity), trace)
    }

    constructor (identity: string)
      ensures Valid() && fresh(signals) && this.identity == identity && trace == []
      ensures epoch == version == slot == buffer == optimizer == 0 && signals.signals == map[]
      ensures inFlight.None? && disabled.None? && last.None?
    {
      this.identity := identity;
      epoch, version, slot, buffer, optimizer := 0, 0, 0, 0, 0;
      signals := new LatestSignalBatch(identity);
      inFlight, disabled, last := None, None, None;
      begun, ended, epochSlot, trace := [], [], 0, [];
    }

    /** So every runtime is sound, whatever was called on it. */
    lemma AlwaysSound()
      requires Valid()
      ensures Inv(History())
    {
      StartInv(identity);
      RunKeeps(Start(identity), trace);
    }

    /** The candidate in flight is never the one terminated last. */
    ghost predicate Droppable()
      reads this
    {
      inFlight.Some? && last.Some? ==> last.value.candidate != inFlight.value
    }

    lemma AlwaysDroppable()
      requires Valid()
      ensures Droppable()
    {
      AlwaysSound();
      if inFlight.Some? { LastNotInFlight(History()); }
    }

    lemma AlwaysDue(c: CandidateUpdate, policy: Policy, round: int, stride: int, delay: int)
      requires Valid()
      ensures CanPublish(State(), c, policy, round, stride, delay) == Ok(Ready) <==>
        && stride >= 1 && delay >= 0 && inFlight == Some(c) && policy != Static
        && Due(c, policy, round, stride, delay)
    {
      AlwaysSound();
      PublishExactly(History(), c, policy, round, stride, delay);
    }

    ghost method Record(e: Event)
      requires signals.Valid() && signals.cohort == identity && PossibleRun(Start(identity), trace)
      requires Possible(Run(Start(identity), trace), e) && History() == Step(Run(Start(identity), trace), e)
      modifies this`trace
      ensures Valid() && trace == old(trace) + [e]
    {
      assert (trace + [e])[..|trace|] == trace;
      trace := trace + [e];
    }

    method OfferSignal(s: Signal) returns (r: Result<bool, CohortProtocol.Error>)
      requires Valid()
      modifies this, signals
      ensures Valid() && signals == old(signals) && trace == old(trace) + [EvOffer(s)]
      ensures (State(), r) == Offer(old(State()), s)
      ensures r == Ok(true) <==>
        && old(disabled).None? && s.sourceVersion == version && s.slot == slot && s.cohort == identity
        && (s.request in old(signals.signals) ==> old(signals.signals)[s.request].sequence < s.sequence)
      ensures signals.signals == if r == Ok(true) then old(signals.signals)[s.request := s] else old(signals.signals)
    {
      if disabled.Some? || s.sourceVersion != version || s.slot != slot {
        r := Ok(false);
      } else {
        var accepted := signals.Offer(s);
        r := if accepted.Ok? then Ok(accepted.value) else Err(CohortProtocol.CrossCohort);
      }
      Record(EvOffer(s));
    }

    method BeginCandidate(payload: seq<nat>, sourceRound: int, readyRound: int)
      returns (r: Result<CandidateUpdate, CohortProtocol.Error>)
      requires Valid()
      modifies this
      ensures Valid() && signals == old(signals)
      ensures r.Ok? <==>
        old(disabled).None? && old(inFlight).None? && payload != [] && 0 <= sourceRound <= readyRound
      ensures r.Ok? ==> fresh(r.value) && inFlight == Some(r.value) && trace == old(trace) + [EvBegin(r.value)]
      ensures r.Ok? ==>
        && r.value.payload == payload && r.value.sourceRound == sourceRound && r.value.readyRound == readyRound
        && r.value.epoch == epoch && r.value.sourceVersion == version && r.value.slot == slot
        && r.value.buffer == buffer && r.value.optimizer == optimizer
        && State() == old(State()).(inFlight := inFlight)
      ensures r.Err? ==> State() == old(State()) && trace == old(trace)
      ensures r.Err? ==>
        r.error == if old(disabled).Some? then Disabled else if old(inFlight).Some? then InFlight else BadCandidate
    {
      if disabled.Some? {
        return Err(Disabled);
      }
      if inFlight.Some? {
        return Err(InFlight);
      }
      if !Constructible(payload, sourceRound, readyRound) {
        return Err(BadCandidate);
      }
      var candidate := new CandidateUpdate(payload, sourceRound, version, epoch, slot, readyRound, buffer, optimizer);
      inFlight := Some(candidate);
      begun := begun + [candidate];
      Record(EvBegin(candidate));
      r := Ok(candidate);
    }

    method Commit(c: CandidateUpdate, policy: Policy, round: int, stride: int, delay: int)
      returns (r: Result<nat, CohortProtocol.Error>)
      requires Valid()
      modifies this
      ensures Valid() && signals == old(signals) && trace == old(trace) + [EvCommit(c, policy, round, stride, delay)]
      ensures r.Ok? <==>
        && stride >= 1 && delay >= 0 && old(inFlight) == Some(c) && policy != Static
        && Due(c, policy, round, stride, delay)
      ensures r.Ok? <==> CanPublish(old(State()), c, policy, round, stride, delay) == Ok(Ready)
      ensures r.Ok? ==> r.value == version == old(version) + 1 && optimizer == old(optimizer) + 1 && inFlight.None?
      ensures epoch == old(epoch) && slot == old(slot) && buffer == old(buffer) && disabled == old(disabled)
      ensures r.Ok? ==> last == Some(Termination(c, Published, "committed", Some(version)))
      ensures r.Err? ==> State() == old(State())
      ensures r.Err? ==> var v := CanPublish(old(State()), c, policy, round, stride, delay);
        r.error == if v.Err? then v.error else NotAuthorized(v.value)
    {
      AlwaysDroppable();
      AlwaysDue(c, policy, round, stride, delay);
      var verdict := CanPublish(State(), c, policy, round, stride, delay);
      if verdict.Err? {
        r := Err(verdict.error);
      } else if verdict.value != Ready {
        r := Err(NotAuthorized(verdict.value));
      } else {
        Publish(c);
        r := Ok(version);
      }
      Record(EvCommit(c, policy, round, stride, delay));
    }

    /** The counters move first, then the candidate is terminated: that cannot fail. */
    method Publish(c: CandidateUpdate)
      requires inFlight == Some(c) && Droppable()
      modifies this`version, this`optimizer, this`inFlight, this`last, this`ended
      ensures History() == Committed(old(History()), c)
    {
      version := version + 1;
      optimizer := optimizer + 1;
      var t := Terminate(c, Published, "committed", Some(version));
      assert t.Ok?;
    }

    method Terminate(c: CandidateUpdate, outcome: Outcome, reason: string, published: Option<nat>)
      returns (r: Result<Termination, CohortProtocol.Error>)
      modifies this`inFlight, this`last, this`ended
      ensures var check := old(TerminateCheck(State(), c, reason));
        if check.Some? then r == Err(check.value) && unchanged(this)
        else r == Ok(Termination(c, outcome, reason, published))
             && inFlight == None && last == Some(r.value) && ended == old(ended) + [r.value]
    {
      if last.Some? && last.value.candidate == c {
        return Err(AlreadyTerminated);
      }
      if inFlight != Some(c) {
        return Err(NotActive);
      }
      if reason == "" {
        return Err(BadReason);
      }
      var termination := Termination(c, outcome, reason, published);
      inFlight := None;
      last := Some(termination);
      ended := ended + [termination];
      r := Ok(termination);
    }

    method Discard(c: CandidateUpdate, reason: string) returns (r: Result<Termination, CohortProtocol.Error>)
      requires Valid()
      modifies this
      ensures Valid() && signals == old(signals) && trace == old(trace) + [EvDiscard(c, reason)]
      ensures r.Ok? <==> old(inFlight) == Some(c) && reason != ""
      ensures r.Ok? ==> r.value == Termination(c, Discarded, reason, None) && inFlight.None? && last == Some(r.value)
      ensures r.Err? ==> State() == old(State()) && Some(r.error) == TerminateCheck(old(State()), c, reason)
    {
      AlwaysDroppable();
      r := Terminate(c, Discarded, reason, None);
      Record(EvDiscard(c, reason));
    }

    /** Discards whatever is in flight; the termination cannot be refused. */
    method DropInFlight(reason: string)
      requires reason != "" && Droppable()
      modifies this`inFlight, this`last, this`ended
      ensures History() == DiscardInFlight(old(History()), reason)
    {
      if inFlight.Some? {
        var t := Terminate(inFlight.value, Discarded, reason, None);
      }
    }

    method CancelRequest(request: string)
      requires Valid()
      modifies this, signals
      ensures Valid() && signals == old(signals) && trace == old(trace) + [EvCancel(request)]
      ensures inFlight.None? && slot == old(slot) + 1 && buffer == old(buffer) + 1 && version == old(version)
      ensures signals.signals == old(signals.signals) - {request}
      ensures epoch == old(epoch) && optimizer == old(optimizer) && disabled == old(disabled)
      ensures last == Dropped(old(inFlight), old(last), "request_cancelled")
    {
      AlwaysDroppable();
      signals.DiscardRequest(request);
      DropInFlight("request_cancelled");
      slot := slot + 1;
      buffer := buffer + 1;
      Record(EvCancel(request));
    }

    method Reset()
      requires Valid()
      modifies this
      ensures Valid() && fresh(signals) && trace == old(trace) + [EvReset]
      ensures inFlight.None? && disabled.None? && epoch == old(epoch) + 1 && version == 0 && slot == old(slot) + 1
      ensures buffer == old(buffer) + 1 && optimizer == 0 && signals.signals == map[]
      ensures last == Dropped(old(inFlight), old(last), "cohort_reset")
    {
      AlwaysDroppable();
      DropInFlight("cohort_reset");
      Restart();
      Record(EvReset);
    }

    method Restart()
      modifies this`epoch, this`version, this`slot, this`buffer, this`optimizer
      modifies this`signals, this`disabled, this`epochSlot
      ensures fresh(signals) && signals.Valid() && signals.cohort == identity && signals.signals == map[]
      ensures epoch == old(epoch) + 1 && version == 0 && slot == old(slot) + 1 && buffer == old(buffer) + 1
      ensures optimizer == 0 && disabled == None && epochSlot == slot
    {
      var batch := new LatestSignalBatch(identity);
      epoch, version, slot, buffer, optimizer := epoch + 1, 0, slot + 1, buffer + 1, 0;
      signals, disabled, epochSlot := batch, None, slot;
    }

    method Disable(reason: string) returns (r: Result<(), CohortProtocol.Error>)
      requires Valid()
      modifies this
      ensures Valid() && signals == old(signals) && trace == old(trace) + [EvDisable(reason)]
      ensures r.Ok? <==> reason != ""
      ensures r.Ok? ==> inFlight.None? && disabled == Some(reason)
      ensures r.Ok? ==> last == Dropped(old(inFlight), old(last), reason)
      ensures epoch == old(epoch) && version == old(version) && slot == old(slot)
      ensures buffer == old(buffer) && optimizer == old(optimizer)
      ensures r.Err? ==> r.error == BadReason && State() == old(State())
    {
      AlwaysDroppable();
      if reason == "" {
        r := Err(BadReason);
      } else {
        DropInFlight(reason);
        disabled := Some(reason);
        r := Ok(());
      }
      Record(EvDisable(reason));
    }

    /** The consumer's drain of the runtime's batch. */
    method DrainSignals() returns (ordered: seq<Signal>, weight: real)
      requires Valid()
      modifies this, signals
      ensures Valid() && signals == old(signals) && trace == old(trace) + [EvDrain]
      ensures ordered == Drained(old(signals.signals)) && weight == Weight(|ordered|) && signals.signals == map[]
    {
      ordered, weight := signals.Drain();
      Record(EvDrain);
    }
  }
}
