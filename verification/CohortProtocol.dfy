/** The publication protocol of one cohort: a state machine with at most one
    candidate in flight, together with the history of its candidates. */
module CohortProtocol {
  import opened Wrappers
  import opened Publication
  import SignalBatch

  type Signal = SignalBatch.Signal

  datatype Protocol = Protocol(
    identity: string, epoch: nat, version: nat, slot: nat, buffer: nat, optimizer: nat,
    signals: map<string, Signal>, inFlight: Option<CandidateUpdate>, disabled: Option<string>,
    last: Option<Termination>)

  /** The protocol with everything it has begun and ended, and the slot
      generation at which the current epoch started. */
  datatype World = World(p: Protocol, begun: seq<CandidateUpdate>, ended: seq<Termination>, epochSlot: nat)

  datatype Error =
    | BadStride | BadDelay | BadReason | BadCandidate | Disabled | InFlight | CrossCohort
    | NotAuthorized(verdict: Verdict) | AlreadyTerminated | NotActive

  datatype Verdict =
    | Ready | NotActiveCandidate | StaleEpoch | StaleSlot | VersionConflict | StaleBuffer | StaleOptimizer
    | Nonfinite | NotReady | StaticDisabled | WaitingDelay | WaitingBoundary

  function Start(identity: string): World {
    World(Protocol(identity, 0, 0, 0, 0, 0, map[], None, None, None), [], [], 0)
  }

  // ----- the operations -----

  function Offer(p: Protocol, s: Signal): (Protocol, Result<bool, Error>) {
    if p.disabled.Some? || s.sourceVersion != p.version || s.slot != p.slot then (p, Ok(false))
    else if s.cohort != p.identity then (p, Err(CrossCohort))
    else (p.(signals := SignalBatch.Offered(p.signals, s)), Ok(SignalBatch.Accepts(p.signals, s)))
  }

  function CanPublish(p: Protocol, c: CandidateUpdate, policy: Policy, round: int, stride: int, delay: int)
    : Result<Verdict, Error>
  {
    if stride < 1 then Err(BadStride)
    else if p.inFlight != Some(c) then Ok(NotActiveCandidate)
    else if c.epoch != p.epoch then Ok(StaleEpoch)
    else if c.slot != p.slot then Ok(StaleSlot)
    else if c.sourceVersion != p.version then Ok(VersionConflict)
    else if c.buffer != p.buffer then Ok(StaleBuffer)
    else if c.optimizer != p.optimizer then Ok(StaleOptimizer)
    else if !c.numericallyValid then Ok(Nonfinite)
    else if round < c.readyRound then Ok(NotReady)
    else if policy == Static then Ok(StaticDisabled)
    else if delay < 0 then Err(BadDelay)
    else
      var boundary := PublicationRound(policy, c.sourceRound, c.readyRound, stride, delay);
      if boundary.None? then Ok(StaticDisabled)
      else if round < boundary.value then
        Ok(if round < c.readyRound + delay then WaitingDelay else WaitingBoundary)
      else Ok(Ready)
  }

  /** A termination of the candidate in flight enters the history. */
  function End(w: World, t: Termination): World {
    w.(p := w.p.(inFlight := None, last := Some(t)), ended := w.ended + [t])
  }

  function DiscardInFlight(w: World, reason: string): World {
    if w.p.inFlight.None? then w else End(w, Termination(w.p.inFlight.value, Discarded, reason, None))
  }

  /** Refusal by the termination step: already terminated, not in flight, or
      without a reason. */
  function TerminateCheck(p: Protocol, c: CandidateUpdate, reason: string): Option<Error> {
    if p.last.Some? && p.last.value.candidate == c then Some(AlreadyTerminated)
    else if p.inFlight != Some(c) then Some(NotActive)
    else if reason == "" then Some(BadReason)
    else None
  }

  datatype Event =
    | EvOffer(signal: Signal)
    | EvDrain
    | EvBegin(candidate: CandidateUpdate)
    | EvCommit(candidate: CandidateUpdate, policy: Policy, round: int, stride: int, delay: int)
    | EvDiscard(candidate: CandidateUpdate, reason: string)
    | EvCancel(request: string)
    | EvReset
    | EvDisable(reason: string)

  function Committed(w: World, c: CandidateUpdate): World {
    var p := w.p.(version := w.p.version + 1, optimizer := w.p.optimizer + 1);
    End(w.(p := p), Termination(c, Published, "committed", Some(p.version)))
  }

  function Cancelled(w: World, request: string): World {
    var v := DiscardInFlight(w.(p := w.p.(signals := w.p.signals - {request})), "request_cancelled");
    v.(p := v.p.(slot := v.p.slot + 1, buffer := v.p.buffer + 1))
  }

  /** A new epoch: a fresh batch, version zero, the next slot. */
  function Restarted(w: World): World {
    World(w.p.(epoch := w.p.epoch + 1, version := 0, slot := w.p.slot + 1, buffer := w.p.buffer + 1, optimizer := 0,
               signals := map[], disabled := None),
          w.begun, w.ended, w.p.slot + 1)
  }

  function ResetWorld(w: World): World {
    Restarted(DiscardInFlight(w, "cohort_reset"))
  }

  /** The world after an event; a refused event leaves it as it was. */
  function Step(w: World, e: Event): World {
    match e
    case EvOffer(s) => w.(p := Offer(w.p, s).0)
    case EvDrain => w.(p := w.p.(signals := map[]))
    case EvBegin(c) =>
      if w.p.disabled.Some? || w.p.inFlight.Some? then w
      else w.(p := w.p.(inFlight := Some(c)), begun := w.begun + [c])
    case EvCommit(c, policy, round, stride, delay) =>
      if CanPublish(w.p, c, policy, round, stride, delay) == Ok(Ready) then Committed(w, c) else w
    case EvDiscard(c, reason) =>
      if TerminateCheck(w.p, c, reason).Some? then w else End(w, Termination(c, Discarded, reason, None))
    case EvCancel(r) => Cancelled(w, r)
    case EvReset => ResetWorld(w)
    case EvDisable(reason) =>
      if reason == "" then w
      else var v := DiscardInFlight(w, reason); v.(p := v.p.(disabled := Some(reason)))
  }

  /** A begun candidate is a new object that carries the live counters. */
  predicate Possible(w: World, e: Event) {
    e.EvBegin? ==>
      var c, p := e.candidate, w.p;
      && c !in w.begun
      && c.numericallyValid && c.readyRound >= c.sourceRound >= 0
      && c.epoch == p.epoch && c.slot == p.slot && c.sourceVersion == p.version
      && c.buffer == p.buffer && c.optimizer == p.optimizer
  }

  function Run(w: World, es: seq<Event>): World {
    if es == [] then w else Step(Run(w, es[..|es| - 1]), es[|es| - 1])
  }

  predicate PossibleRun(w: World, es: seq<Event>) {
    es == [] || (PossibleRun(w, es[..|es| - 1]) && Possible(Run(w, es[..|es| - 1]), es[|es| - 1]))
  }

  // ----- the invariant -----

  /** The candidate in flight carries the live counters, is the one begun last,
      and has not been terminated. */
  ghost predicate Live(w: World) {
    w.p.inFlight.Some? ==>
      var c, p := w.p.inFlight.value, w.p;
      && c.epoch == p.epoch && c.slot == p.slot && c.sourceVersion == p.version
      && c.buffer == p.buffer && c.optimizer == p.optimizer
      && c.numericallyValid && p.disabled.None?
      && w.begun != [] && w.begun[|w.begun| - 1] == c
  }

  ghost predicate Counters(w: World) {
    && w.p.version == w.p.optimizer
    && w.p.slot == w.p.buffer >= w.p.epoch
    && w.epochSlot <= w.p.slot
  }

  /** Candidates end in the order in which they began, each once. */
  ghost predicate Matched(w: World) {
    && |w.begun| == |w.ended| + (if w.p.inFlight.Some? then 1 else 0)
    && (forall i :: 0 <= i < |w.ended| ==> w.ended[i].candidate == w.begun[i])
    && (forall i, j :: 0 <= i < j < |w.begun| ==> w.begun[i] != w.begun[j])
    && w.p.last == (if w.ended == [] then None else Some(w.ended[|w.ended| - 1]))
  }

  /** The publications of one epoch, in order. */
  function Publications(ended: seq<Termination>, epoch: nat): seq<Termination> {
    if ended == [] then []
    else
      var t, rest := ended[|ended| - 1], Publications(ended[..|ended| - 1], epoch);
      if t.outcome == Published && t.candidate.epoch == epoch then rest + [t] else rest
  }

  /** The k-th publication of a chain publishes version k+1 from version k. */
  ghost predicate GapFree(chain: seq<Termination>) {
    forall k :: 0 <= k < |chain| ==> chain[k].candidate.sourceVersion == k && chain[k].version == Some(k + 1)
  }

  ghost predicate Chained(w: World) {
    && (forall e: nat :: GapFree(Publications(w.ended, e)))
    && |Publications(w.ended, w.p.epoch)| == w.p.version
    && (forall e: nat :: e > w.p.epoch ==> Publications(w.ended, e) == [])
  }

  /** Buffered signals were accepted in this epoch: never newer than the live
      version and slot, never from a slot before the epoch. */
  ghost predicate Buffered(w: World) {
    forall r :: r in w.p.signals ==>
      var s := w.p.signals[r];
      s.request == r && s.cohort == w.p.identity && s.sourceVersion <= w.p.version && w.epochSlot <= s.slot <= w.p.slot
  }

  ghost predicate Inv(w: World) {
    Live(w) && Counters(w) && Matched(w) && Chained(w) && Buffered(w)
  }
}
