/** Candidates, terminations and the boundary arithmetic of publication. */
module Publication {
  import opened Wrappers

  datatype Policy = Static | FixedBarrier | FirstReady

  /** A source-bound candidate.  Candidates are compared by reference, never by
      their fields. */
  class CandidateUpdate {
    const payload: seq<nat>
    const sourceRound: int
    const sourceVersion: nat
    const epoch: nat
    const slot: nat
    const readyRound: int
    const buffer: nat
    const optimizer: nat
    const numericallyValid: bool

    constructor (payload: seq<nat>, sourceRound: int, sourceVersion: nat, epoch: nat, slot: nat,
                 readyRound: int, buffer: nat, optimizer: nat)
      requires Constructible(payload, sourceRound, readyRound)
      ensures this.payload == payload && this.sourceRound == sourceRound && this.readyRound == readyRound
      ensures this.sourceVersion == sourceVersion && this.epoch == epoch && this.slot == slot
      ensures this.buffer == buffer && this.optimizer == optimizer && this.numericallyValid
    {
      this.payload, this.sourceRound, this.readyRound := payload, sourceRound, readyRound;
      this.sourceVersion, this.epoch, this.slot := sourceVersion, epoch, slot;
      this.buffer, this.optimizer, this.numericallyValid := buffer, optimizer, true;
    }
  }

  /** The candidate constructor accepts a payload and its rounds. */
  predicate Constructible(payload: seq<nat>, sourceRound: int, readyRound: int) {
    payload != [] && 0 <= sourceRound <= readyRound
  }

  datatype Outcome = Published | Discarded
  datatype Termination = Termination(candidate: CandidateUpdate, outcome: Outcome, reason: string, version: Option<nat>)

  function NextBoundary(sourceRound: int, stride: int): int
    requires stride >= 1
  {
    (sourceRound / stride + 1) * stride
  }

  /** The round at which a candidate may be published; a static policy has none. */
  function PublicationRound(policy: Policy, sourceRound: int, readyRound: int, stride: int, delay: int): Option<int>
    requires stride >= 1 && delay >= 0
  {
    match policy
    case Static => None
    case FirstReady => Some(readyRound + delay)
    case FixedBarrier =>
      var boundary := NextBoundary(sourceRound, stride);
      Some(if readyRound + delay < boundary then boundary else readyRound + delay)
  }

  /** The fixed barrier is the least multiple of the stride after the source round. */
  lemma NextBoundaryLeast(sourceRound: int, stride: int)
    requires stride >= 1
    ensures NextBoundary(sourceRound, stride) > sourceRound
    ensures NextBoundary(sourceRound, stride) % stride == 0
    ensures forall k: int :: k * stride > sourceRound ==> k * stride >= NextBoundary(sourceRound, stride)
  {
    var q := sourceRound / stride;
    assert (q + 1) * stride == q * stride + stride;
    MultipleMod(q + 1, stride);
    forall k: int | k * stride > sourceRound ensures k * stride >= (q + 1) * stride {
      if k <= q {
        MulMonotone(k, q, stride);
      } else {
        MulMonotone(q + 1, k, stride);
      }
    }
  }

  lemma MulMonotone(a: int, b: int, n: int)
    requires a <= b && n >= 1
    ensures a * n <= b * n
  {
    assert (b - a) * n >= 0;
  }

  lemma MultipleMod(k: int, n: int)
    requires n >= 1
    ensures (k * n) % n == 0
  {
    var q, r := (k * n) / n, (k * n) % n;
    assert k * n == q * n + r;
    assert (k - q) * n == r;
    if k - q >= 1 {
      MulMonotone(1, k - q, n);
    } else if k - q <= -1 {
      MulMonotone(k - q, -1, n);
    }
  }

  /** A round is past some multiple of the stride that lies after the source. */
  ghost predicate PastBarrier(sourceRound: int, stride: int, round: int) {
    exists k: int :: sourceRound < k * stride <= round
  }

  lemma PastBarrierExactly(sourceRound: int, stride: int, round: int)
    requires stride >= 1
    ensures PastBarrier(sourceRound, stride, round) <==> round >= NextBoundary(sourceRound, stride)
  {
    NextBoundaryLeast(sourceRound, stride);
    if round >= NextBoundary(sourceRound, stride) {
      var k := sourceRound / stride + 1;
      assert sourceRound < k * stride <= round;
    }
  }

  /** When each policy lets a candidate through: never, from readiness plus delay
      on, or from there on once a barrier after the source has passed. */
  lemma PublicationExactly(policy: Policy, sourceRound: int, readyRound: int, stride: int, delay: int, round: int)
    requires stride >= 1 && delay >= 0
    ensures var due := PublicationRound(policy, sourceRound, readyRound, stride, delay);
      due.Some? && round >= due.value <==>
        && policy != Static && round >= readyRound + delay
        && (policy == FixedBarrier ==> PastBarrier(sourceRound, stride, round))
  {
    PastBarrierExactly(sourceRound, stride, round);
  }

  /** Delay and barrier only postpone: never before readiness plus the delay, and
      the barrier policy never before the first-ready one. */
  lemma PublicationOrder(sourceRound: int, readyRound: int, stride: int, delay: int)
    requires stride >= 1 && delay >= 0
    ensures var first, fixed := PublicationRound(FirstReady, sourceRound, readyRound, stride, delay),
                                PublicationRound(FixedBarrier, sourceRound, readyRound, stride, delay);
      && readyRound + delay == first.value <= fixed.value
      && fixed.value > sourceRound
      && (fixed.value == first.value || (fixed.value % stride == 0 && fixed.value <= sourceRound + stride))
  {
    NextBoundaryLeast(sourceRound, stride);
    assert (sourceRound / stride + 1) * stride == sourceRound / stride * stride + stride;
  }
}
