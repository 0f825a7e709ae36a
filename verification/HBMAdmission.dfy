/** All-rank HBM admission, governed by the tightest rank. */
module HBMAdmission {
  import opened Wrappers

  /** Predicted charges, in groups, and observed peaks. */
  datatype Ledger = Ledger(
    resident: seq<nat>, transient: seq<nat>, allocatedPeak: nat, reservedPeak: nat, processPeak: nat, globalPeak: nat)

  datatype RankState = RankState(rank: nat, capacity: nat, ledger: Ledger)

  datatype Request = Request(reserve: nat, targetKV: nat, drafterKV: nat, margin: nat)

  datatype Reason = Admitted | ReserveExceeds | KVExceeds

  datatype Row = Row(rank: nat, charged: nat, afterAdaptation: nat, projected: nat, usable: int, headroom: int)

  datatype Admission = Admission(admitted: bool, reason: Reason, limiting: nat, rows: seq<Row>)

  datatype Error = NoRanks | DuplicateRank | MissingRank

  function Total(bytes: seq<nat>): nat {
    if bytes == [] then 0 else Total(bytes[..|bytes| - 1]) + bytes[|bytes| - 1]
  }

  function Max(a: nat, b: nat): nat {
    if a < b then b else a
  }

  /** The largest of the predicted, the process and the global peak. */
  function Charge(s: RankState): nat {
    var l := s.ledger;
    var predicted := Total(l.resident) + Total(l.transient);
    var process := Max(l.allocatedPeak, Max(l.reservedPeak, l.processPeak));
    Max(predicted, Max(process, l.globalPeak))
  }

  /** The five peaks a rank is charged by: the sum of all predicted groups, and
      what the allocator, the process and the device were observed to hold. */
  function Peaks(s: RankState): seq<nat> {
    var l := s.ledger;
    [Total(l.resident + l.transient), l.allocatedPeak, l.reservedPeak, l.processPeak, l.globalPeak]
  }

  lemma {:induction false} TotalConcat(a: seq<nat>, b: seq<nat>)
    ensures Total(a + b) == Total(a) + Total(b)
    ensures forall x: nat :: Total([x]) == x
  {
    if b == [] {
      assert a + b == a;
    } else {
      var n := |b| - 1;
      TotalConcat(a, b[..n]);
      assert (a + b)[..|a| + n] == a + b[..n];
    }
  }

  /** A total covers each of its parts, and is zero without any. */
  lemma {:induction false} TotalCovers(bytes: seq<nat>, i: nat)
    requires i < |bytes|
    ensures bytes[i] <= Total(bytes) && Total([]) == 0
  {
    if i < |bytes| - 1 { TotalCovers(bytes[..|bytes| - 1], i); }
  }

  /** The charge is the greatest of the five peaks. */
  lemma ChargeIsGreatest(s: RankState)
    ensures Charge(s) in Peaks(s) && forall i :: 0 <= i < 5 ==> Peaks(s)[i] <= Charge(s)
  {
    TotalConcat(s.ledger.resident, s.ledger.transient);
    var ps := Peaks(s);
    assert Charge(s) == ps[0] || Charge(s) == ps[1] || Charge(s) == ps[2] || Charge(s) == ps[3] || Charge(s) == ps[4];
  }

  /** Every one of a rank's peaks leaves room for so many bytes more. */
  predicate HasRoom(s: RankState, bytes: nat) {
    forall i :: 0 <= i < 5 ==> Peaks(s)[i] + bytes <= s.capacity
  }

  lemma RoomIsCharge(s: RankState, bytes: nat)
    ensures HasRoom(s, bytes) <==> Charge(s) + bytes <= s.capacity
  {
    ChargeIsGreatest(s);
    var i :| 0 <= i < 5 && Peaks(s)[i] == Charge(s);
    assert HasRoom(s, bytes) ==> Peaks(s)[i] + bytes <= s.capacity;
  }

  function Slack(s: RankState): int {
    s.capacity - Charge(s)
  }

  function KV(q: Request): nat {
    q.targetKV + q.drafterKV
  }

  // ----- the governor's ranks -----

  ghost predicate Covers(states: seq<RankState>, expected: int) {
    && expected >= 1
    && (forall i, j :: 0 <= i < j < |states| ==> states[i].rank != states[j].rank)
    && (forall i :: 0 <= i < |states| ==> states[i].rank < expected)
    && (forall r: nat :: r < expected ==> HasRank(states, r))
  }

  predicate HasRank(states: seq<RankState>, r: nat) {
    exists i :: 0 <= i < |states| && states[i].rank == r
  }

  /** One state per rank, in rank order. */
  ghost predicate InRankOrder(states: seq<RankState>) {
    states != [] && forall i :: 0 <= i < |states| ==> states[i].rank == i
  }

  ghost predicate Arranges(states: seq<RankState>, expected: nat, arranged: seq<RankState>) {
    && |arranged| == expected
    && (forall i :: 0 <= i < expected ==> arranged[i] in states && arranged[i].rank == i)
  }

  /** The states a governor keeps do not depend on the order they came in. */
  lemma ArrangementUnique(a: seq<RankState>, b: seq<RankState>, expected: nat, x: seq<RankState>, y: seq<RankState>)
    requires Covers(a, expected) && multiset(a) == multiset(b)
    requires Arranges(a, expected, x) && Arranges(b, expected, y)
    ensures x == y
  {
    forall i | 0 <= i < expected ensures x[i] == y[i] {
      assert y[i] in multiset(b) && y[i] in multiset(a);
      var j :| 0 <= j < |a| && a[j] == x[i];
      var k :| 0 <= k < |a| && a[k] == y[i];
      assert !(j < k) && !(k < j);
    }
  }

  /** Construction: exact all-rank coverage, then rank order. */
  method Govern(states: seq<RankState>, expected: int) returns (r: Result<seq<RankState>, Error>)
    ensures r.Ok? <==> Covers(states, expected)
    ensures r.Ok? ==> Arranges(states, expected, r.value) && InRankOrder(r.value)
  {
    if expected < 1 {
      return Err(NoRanks);
    }
    if exists i, j :: 0 <= i < j < |states| && states[i].rank == states[j].rank {
      return Err(DuplicateRank);
    }
    if exists i :: 0 <= i < |states| && states[i].rank >= expected {
      return Err(MissingRank);
    }
    var arranged: seq<RankState> := [];
    while |arranged| < expected
      invariant |arranged| <= expected
      invariant forall i :: 0 <= i < |arranged| ==> arranged[i] in states && arranged[i].rank == i && HasRank(states, i)
    {
      var r := |arranged|;
      if !HasRank(states, r) {
        return Err(MissingRank);
      }
      var i :| 0 <= i < |states| && states[i].rank == r;
      arranged := arranged + [states[i]];
    }
    r := Ok(arranged);
  }

  // ----- assessment -----

  /** A rank fits the whole request. */
  predicate Fits(s: RankState, q: Request) {
    Charge(s) + q.reserve + KV(q) + q.margin <= s.capacity
  }

  /** A rank fits the adaptation reserve alone. */
  predicate FitsReserve(s: RankState, q: Request) {
    Charge(s) + q.reserve + q.margin <= s.capacity
  }

  /** The rank with the least slack, the first one among equals. */
  ghost predicate Tightest(states: seq<RankState>, r: nat) {
    && r < |states|
    && (forall i :: 0 <= i < |states| ==> Slack(states[r]) <= Slack(states[i]))
    && (forall i :: 0 <= i < r ==> Slack(states[r]) < Slack(states[i]))
  }

  /** Which rank limits does not depend on the request. */
  lemma TightestUnique(states: seq<RankState>, r: nat, t: nat)
    requires Tightest(states, r) && Tightest(states, t)
    ensures r == t
  {
    assert Slack(states[r]) == Slack(states[t]);
  }

  /** What a row reports of its rank: a charge that is the greatest of its peaks,
      and what the request leaves of the capacity. */
  ghost predicate RowStates(row: Row, s: RankState, q: Request) {
    && row.rank == s.rank
    && row.charged in Peaks(s) && (forall i :: 0 <= i < 5 ==> Peaks(s)[i] <= row.charged)
    && row.afterAdaptation - row.charged == q.reserve
    && row.projected - row.afterAdaptation == q.targetKV + q.drafterKV
    && row.usable + q.margin == s.capacity
    && row.headroom + row.projected == row.usable
  }

  function RowOf(s: RankState, q: Request): Row {
    var after := Charge(s) + q.reserve;
    Row(s.rank, Charge(s), after, after + KV(q), s.capacity - q.margin, s.capacity - q.margin - (after + KV(q)))
  }

  /** Admitted iff every rank fits; the limiting rank is the tightest one, the
      same for all requests; and the reason is decided there alone. */
  method Assess(states: seq<RankState>, q: Request) returns (a: Admission)
    requires InRankOrder(states)
    ensures a.admitted <==> forall i :: 0 <= i < |states| ==> Fits(states[i], q)
    ensures Tightest(states, a.limiting)
    ensures a.reason == if Fits(states[a.limiting], q) then Admitted
                        else if !FitsReserve(states[a.limiting], q) then ReserveExceeds else KVExceeds
    ensures |a.rows| == |states| && forall i :: 0 <= i < |states| ==> a.rows[i] == RowOf(states[i], q)
    ensures a.admitted <==>
      forall i :: 0 <= i < |states| ==> HasRoom(states[i], q.reserve + q.targetKV + q.drafterKV + q.margin)
    ensures a.reason == Admitted <==> a.admitted
    ensures a.reason == ReserveExceeds <==>
      exists i :: 0 <= i < |states| && !HasRoom(states[i], q.reserve + q.margin)
    ensures forall i :: 0 <= i < |states| ==> RowStates(a.rows[i], states[i], q)
  {
    var rows: seq<Row> := [];
    var reserveFits := true;
    var i := 0;
    while i < |states|
      invariant 0 <= i <= |states| && |rows| == i
      invariant forall k :: 0 <= k < i ==> rows[k] == RowOf(states[k], q)
      invariant reserveFits <==> forall k :: 0 <= k < i ==> FitsReserve(states[k], q)
    {
      var usable := states[i].capacity - q.margin;
      var after := Charge(states[i]) + q.reserve;
      var projected := after + KV(q);
      reserveFits := reserveFits && after <= usable;
      rows := rows + [Row(states[i].rank, Charge(states[i]), after, projected, usable, usable - projected)];
      i := i + 1;
    }
    var limiting := LeastHeadroom(rows);
    LeastIsTightest(states, q, rows, limiting);
    ReserveAtTightest(states, q, limiting);
    var admitted := rows[limiting].headroom >= 0;
    var reason := if admitted then Admitted else if !reserveFits then ReserveExceeds else KVExceeds;
    a := Admission(admitted, reason, limiting, rows);
    AssessedRoom(states, q);
  }

  lemma AssessedRoom(states: seq<RankState>, q: Request)
    ensures forall i :: 0 <= i < |states| ==>
      && (Fits(states[i], q) <==> HasRoom(states[i], q.reserve + q.targetKV + q.drafterKV + q.margin))
      && (FitsReserve(states[i], q) <==> HasRoom(states[i], q.reserve + q.margin))
      && RowStates(RowOf(states[i], q), states[i], q)
  {
    forall i | 0 <= i < |states|
      ensures Fits(states[i], q) <==> HasRoom(states[i], q.reserve + q.targetKV + q.drafterKV + q.margin)
      ensures FitsReserve(states[i], q) <==> HasRoom(states[i], q.reserve + q.margin)
      ensures RowStates(RowOf(states[i], q), states[i], q)
    {
      RoomIsCharge(states[i], q.reserve + q.targetKV + q.drafterKV + q.margin);
      RoomIsCharge(states[i], q.reserve + q.margin);
      ChargeIsGreatest(states[i]);
    }
  }

  ghost predicate FirstLeast(rows: seq<Row>, r: nat) {
    && r < |rows|
    && (forall i :: 0 <= i < |rows| ==> rows[r].headroom <= rows[i].headroom)
    && (forall i :: 0 <= i < r ==> rows[r].headroom < rows[i].headroom)
  }

  /** The first row with the least headroom. */
  method LeastHeadroom(rows: seq<Row>) returns (r: nat)
    requires rows != []
    ensures FirstLeast(rows, r)
  {
    r := 0;
    var i := 1;
    while i < |rows|
      invariant 1 <= i <= |rows| && r < i
      invariant forall k :: 0 <= k < i ==> rows[r].headroom <= rows[k].headroom
      invariant forall k :: 0 <= k < r ==> rows[r].headroom < rows[k].headroom
    {
      if rows[i].headroom < rows[r].headroom {
        r := i;
      }
      i := i + 1;
    }
  }

  lemma LeastIsTightest(states: seq<RankState>, q: Request, rows: seq<Row>, r: nat)
    requires |rows| == |states| && forall i :: 0 <= i < |states| ==> rows[i] == RowOf(states[i], q)
    requires FirstLeast(rows, r)
    ensures Tightest(states, r)
  {
    assert forall i :: 0 <= i < |states| ==> rows[i].headroom == Slack(states[i]) - (q.reserve + KV(q) + q.margin);
  }

  /** What holds at the tightest rank holds at all of them. */
  lemma ReserveAtTightest(states: seq<RankState>, q: Request, r: nat)
    requires Tightest(states, r)
    ensures FitsReserve(states[r], q) <==> forall i :: 0 <= i < |states| ==> FitsReserve(states[i], q)
    ensures Fits(states[r], q) <==> forall i :: 0 <= i < |states| ==> Fits(states[i], q)
  {
    forall i | 0 <= i < |states|
      ensures FitsReserve(states[r], q) ==> FitsReserve(states[i], q)
      ensures Fits(states[r], q) ==> Fits(states[i], q)
    {
      assert Slack(states[r]) <= Slack(states[i]);
    }
  }

  predicate Smaller(p: Request, q: Request) {
    p.reserve <= q.reserve && KV(p) <= KV(q) && p.margin <= q.margin
  }

  /** Admission is downward closed: a request below an admitted one is admitted,
      and a refusal for the reserve persists for every larger reserve. */
  lemma DownwardClosed(states: seq<RankState>, p: Request, q: Request)
    requires Smaller(p, q)
    ensures (forall i :: 0 <= i < |states| ==> Fits(states[i], q)) ==>
      forall i :: 0 <= i < |states| ==> Fits(states[i], p)
    ensures (exists i :: 0 <= i < |states| && !FitsReserve(states[i], p)) ==>
      exists i :: 0 <= i < |states| && !FitsReserve(states[i], q)
  {
    if i :| 0 <= i < |states| && !FitsReserve(states[i], p) {
      assert !FitsReserve(states[i], q);
    }
    if forall i :: 0 <= i < |states| ==> Fits(states[i], q) {
      forall i | 0 <= i < |states| ensures Fits(states[i], p) { assert Fits(states[i], q); }
    }
  }
}
