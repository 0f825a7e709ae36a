/** What a run does to one state: pins, versions, times; and the inputs at which
    the strict promises fail. */
module SlabRuns {
  import opened Wrappers
  import opened Orders
  import opened SlabModel
  import opened SlabInvariants
  import opened SlabReclamation

  // ----- one state along a run -----

  ghost predicate Acquired(c: Config, p: Pool, op: Op, k: Key) {
    op.OpAcquire? && op.key == k && Acquire(c, p, k, op.now).result.Ok?
  }

  ghost predicate Released(c: Config, p: Pool, op: Op, k: Key) {
    op.OpRelease? && op.key == k && Release(c, p, k, op.now).result.Ok?
  }

  ghost predicate Published(c: Config, p: Pool, op: Op, k: Key) {
    op.OpPublish? && op.key == k && Publish(c, p, k, op.source, op.next, op.now).result.Ok?
  }

  function One(b: bool): nat {
    if b then 1 else 0
  }

  /** One operation on a state it does not remove: the pin count and the version
      move only by the successful calls that name them, times never go back, and
      a pinned state keeps its slab. */
  lemma StepOnState(c: Config, p: Pool, op: Op, k: Key)
    requires Placed(c, p) && k in p.states && k in Step(c, p, op).states
    ensures var s, s' := p.states[k], Step(c, p, op).states[k];
      && s'.active == s.active + One(Acquired(c, p, op, k)) - One(Released(c, p, op, k))
      && s'.version == s.version + One(Published(c, p, op, k))
      && s'.lastUsedAt >= s.lastUsedAt
      && s'.createdAt == s.createdAt
      && s'.slabBytes == s.slabBytes
      && (s.active > 0 ==> s'.slab == s.slab)
  {
  }

  /** No operation removes a pinned state. */
  lemma PinnedStays(c: Config, p: Pool, op: Op, k: Key)
    requires k in p.states && p.states[k].active > 0
    ensures k in Step(c, p, op).states
  {
    if op.OpReclaimLru? && op.count >= 1 && op.now >= 0.0 { LruVictimsListed(p, op.count); }
  }

  ghost function Acquisitions(c: Config, p: Pool, ops: seq<Op>, k: Key): nat {
    if ops == [] then 0 else
      var t := ops[..|ops| - 1];
      Acquisitions(c, p, t, k) + One(Acquired(c, Run(c, p, t), ops[|ops| - 1], k))
  }

  ghost function Releases(c: Config, p: Pool, ops: seq<Op>, k: Key): nat {
    if ops == [] then 0 else
      var t := ops[..|ops| - 1];
      Releases(c, p, t, k) + One(Released(c, Run(c, p, t), ops[|ops| - 1], k))
  }

  ghost function Publications(c: Config, p: Pool, ops: seq<Op>, k: Key): nat {
    if ops == [] then 0 else
      var t := ops[..|ops| - 1];
      Publications(c, p, t, k) + One(Published(c, Run(c, p, t), ops[|ops| - 1], k))
  }

  ghost predicate LivesThrough(c: Config, p: Pool, ops: seq<Op>, k: Key) {
    forall m :: 0 <= m <= |ops| ==> k in Run(c, p, ops[..m]).states
  }

  ghost predicate PinnedThrough(c: Config, p: Pool, ops: seq<Op>, k: Key) {
    forall m :: 0 <= m < |ops| ==> k in Run(c, p, ops[..m]).states && Run(c, p, ops[..m]).states[k].active > 0
  }

  /** Over any run through which a state survives, including offloads and
      restores: its pins are acquires minus releases, its version has moved by the
      publications, its times have not gone back. */
  lemma {:induction false} StateLedger(c: Config, p: Pool, ops: seq<Op>, k: Key)
    requires Inv(c, p) && LivesThrough(c, p, ops, k)
    ensures k in p.states && k in Run(c, p, ops).states
    ensures var s, s' := p.states[k], Run(c, p, ops).states[k];
      && s'.active == s.active + Acquisitions(c, p, ops, k) - Releases(c, p, ops, k)
      && s'.version == s.version + Publications(c, p, ops, k)
      && s'.lastUsedAt >= s.lastUsedAt
      && s'.createdAt == s.createdAt
  {
    assert ops[..0] == [] && ops[..|ops|] == ops;
    if ops != [] {
      var t := ops[..|ops| - 1];
      forall m | 0 <= m <= |t| ensures k in Run(c, p, t[..m]).states { assert t[..m] == ops[..m]; }
      StateLedger(c, p, t, k);
      RunKeeps(c, p, t);
      StepOnState(c, Run(c, p, t), ops[|ops| - 1], k);
    }
  }

  /** Since its admission: a state that was just admitted has no pins, so its
      pin count is exactly the acquires minus the releases after that admission. */
  lemma PinsSinceAdmission(c: Config, p: Pool, k: Key, now: real, version: int, ops: seq<Op>)
    requires Inv(c, p) && k !in p.states
    requires var p1 := Admit(c, p, k, now, version).pool; k in p1.states && LivesThrough(c, p1, ops, k)
    ensures var p1 := Admit(c, p, k, now, version).pool;
      && k in Run(c, p1, ops).states
      && Run(c, p1, ops).states[k].active == Acquisitions(c, p1, ops, k) - Releases(c, p1, ops, k)
      && Run(c, p1, ops).states[k].version == version + Publications(c, p1, ops, k)
      && Run(c, p1, ops).states[k].createdAt == now
  {
    AdmitKeeps(c, p, k, now, version);
    StateLedger(c, Admit(c, p, k, now, version).pool, ops, k);
  }

  lemma {:induction false} RunConcat(c: Config, p: Pool, a: seq<Op>, b: seq<Op>)
    ensures Run(c, p, a + b) == Run(c, Run(c, p, a), b)
    decreases |b|
  {
    if b == [] {
      assert a + b == a;
    } else {
      var n := |b| - 1;
      var q := Run(c, p, a);
      RunConcat(c, p, a, b[..n]);
      assert a + b == (a + b[..n]) + [b[n]] && b == b[..n] + [b[n]];
      RunExtend(c, p, a + b[..n], b[n]);
      RunExtend(c, q, b[..n], b[n]);
    }
  }

  lemma OnlyAdmissionAdds(c: Config, p: Pool, op: Op, k: Key)
    requires k !in p.states && k in Step(c, p, op).states
    ensures op.OpAdmit? && op.key == k
  {
  }

  lemma LivesExtend(c: Config, p: Pool, ops: seq<Op>, op: Op, k: Key)
    requires LivesThrough(c, p, ops, k) && k in Run(c, p, ops + [op]).states
    ensures LivesThrough(c, p, ops + [op], k)
  {
    var all := ops + [op];
    forall m | 0 <= m <= |all| ensures k in Run(c, p, all[..m]).states {
      if m <= |ops| { assert all[..m] == ops[..m]; } else { assert all[..m] == all; }
    }
  }

  /** The n-th operation of a run admits k anew, and k survives the rest. */
  ghost predicate AdmittedAt(c: Config, ops: seq<Op>, n: nat, k: Key) {
    && n < |ops| && ops[n].OpAdmit? && ops[n].key == k
    && k !in Run(c, Initial(c), ops[..n]).states
    && k in Run(c, Initial(c), ops[..n + 1]).states
    && LivesThrough(c, Run(c, Initial(c), ops[..n + 1]), ops[n + 1..], k)
  }

  lemma AdmissionPersists(c: Config, t: seq<Op>, op: Op, n: nat, k: Key)
    requires AdmittedAt(c, t, n, k) && k in Run(c, Initial(c), t + [op]).states
    ensures AdmittedAt(c, t + [op], n, k)
  {
    var ops := t + [op];
    assert t[..n] == ops[..n] && t[..n + 1] == ops[..n + 1];
    assert ops[n + 1..] == t[n + 1..] + [op] && ops == ops[..n + 1] + ops[n + 1..];
    RunConcat(c, Initial(c), ops[..n + 1], ops[n + 1..]);
    LivesExtend(c, Run(c, Initial(c), ops[..n + 1]), t[n + 1..], op, k);
  }

  lemma AdmittedLast(c: Config, t: seq<Op>, op: Op, k: Key)
    requires k !in Run(c, Initial(c), t).states && k in Run(c, Initial(c), t + [op]).states
    ensures AdmittedAt(c, t + [op], |t|, k)
  {
    var ops := t + [op];
    assert ops[..|t|] == t && ops[..|t| + 1] == ops && ops[|t| + 1..] == [];
    RunExtend(c, Initial(c), t, op);
    OnlyAdmissionAdds(c, Run(c, Initial(c), t), op, k);
    assert Run(c, Run(c, Initial(c), ops), []) == Run(c, Initial(c), ops);
  }

  lemma {:induction false} LastAdmission(c: Config, ops: seq<Op>, k: Key) returns (n: nat)
    requires k in Run(c, Initial(c), ops).states
    ensures AdmittedAt(c, ops, n, k)
  {
    n := |ops| - 1;
    var t, op := ops[..n], ops[n];
    assert ops == t + [op];
    if k in Run(c, Initial(c), t).states {
      n := LastAdmission(c, t, k);
      AdmissionPersists(c, t, op, n, k);
    } else {
      AdmittedLast(c, t, op, k);
    }
  }

  /** Every state of every reachable pool has a last admission, and since then
      its pins are acquires minus releases and its version has moved by the
      publications. */
  lemma PinsOfEveryState(c: Config, ops: seq<Op>, k: Key) returns (n: nat)
    requires ValidConfig(c) && k in Run(c, Initial(c), ops).states
    ensures AdmittedAt(c, ops, n, k)
    ensures var s, p1, rest := Run(c, Initial(c), ops).states[k], Run(c, Initial(c), ops[..n + 1]), ops[n + 1..];
      && s.active == Acquisitions(c, p1, rest, k) - Releases(c, p1, rest, k)
      && s.version == ops[n].version + Publications(c, p1, rest, k)
      && s.createdAt == ops[n].now
  {
    n := LastAdmission(c, ops, k);
    AdmissionSplits(c, ops, n, k);
    InitialInv(c);
    RunKeeps(c, Initial(c), ops[..n]);
    PinsSinceAdmission(c, Run(c, Initial(c), ops[..n]), k, ops[n].now, ops[n].version, ops[n + 1..]);
  }

  lemma AdmissionSplits(c: Config, ops: seq<Op>, n: nat, k: Key)
    requires n < |ops| && ops[n].OpAdmit? && ops[n].key == k
    ensures var p1 := Run(c, Initial(c), ops[..n + 1]);
      && p1 == Admit(c, Run(c, Initial(c), ops[..n]), k, ops[n].now, ops[n].version).pool
      && Run(c, Initial(c), ops) == Run(c, p1, ops[n + 1..])
  {
    assert ops[..n + 1] == ops[..n] + [ops[n]] && ops == ops[..n + 1] + ops[n + 1..];
    RunExtend(c, Initial(c), ops[..n], ops[n]);
    RunConcat(c, Initial(c), ops[..n + 1], ops[n + 1..]);
  }

  /** While a state's pin count stays positive it stays resident on one slab. */
  lemma {:induction false} PinStability(c: Config, p: Pool, ops: seq<Op>, k: Key)
    requires Inv(c, p) && k in p.states && p.states[k].slab.Some? && PinnedThrough(c, p, ops, k)
    ensures k in Run(c, p, ops).states
    ensures Run(c, p, ops).states[k].slab == p.states[k].slab && !Run(c, p, ops).states[k].offloaded
  {
    if ops != [] {
      var t := ops[..|ops| - 1];
      forall m | 0 <= m < |t| ensures k in Run(c, p, t[..m]).states && Run(c, p, t[..m]).states[k].active > 0 {
        assert t[..m] == ops[..m];
      }
      PinStability(c, p, t, k);
      RunKeeps(c, p, ops);
      RunKeeps(c, p, t);
      PinnedStays(c, Run(c, p, t), ops[|ops| - 1], k);
      StepOnState(c, Run(c, p, t), ops[|ops| - 1], k);
    }
  }

  // ----- inputs at which the strict promises fail -----

  const Crowded := Config(2, 1, map["a" := 1], 1.0, ColdInactiveTimed, 1)
  const Left := Key("a", "x", 0)
  const Right := Key("a", "y", 0)
  const OverQuotaRun := [
    OpAdmit(Left, 0.0, 0), OpOffload(Left, 0.0, 0.0), OpAdmit(Right, 0.0, 0), OpRestore(Left, 0.0, 0.0)]

  /** Admit, offload, admit, restore: a tenant of quota one ends with two
      residents, as many as its quota plus the host tier. */
  lemma StrictQuotaFails()
    ensures ValidConfig(Crowded)
    ensures var p := Run(Crowded, Initial(Crowded), OverQuotaRun);
      |TenantResidents(p, "a")| == 2 == Crowded.quotas["a"] + Crowded.offloadedCapacity
  {
    CrowdedValid();
    CrowdedRun();
    RestoreLeft();
  }

  lemma CrowdedRun()
    ensures Run(Crowded, Initial(Crowded), OverQuotaRun)
         == Step(Crowded, Pool({1}, map[Left := Cold, Right := Warm]), OpRestore(Left, 0.0, 0.0))
  {
    assert OverQuotaRun == OffloadRun + [OverQuotaRun[2], OverQuotaRun[3]];
    RunConcat(Crowded, Initial(Crowded), OffloadRun, [OverQuotaRun[2], OverQuotaRun[3]]);
    RunTwo(Crowded, Run(Crowded, Initial(Crowded), OffloadRun), OverQuotaRun[2], OverQuotaRun[3]);
    ColdLeft();
    AdmitBesideCold();
  }

  const OffloadRun := [OpAdmit(Left, 0.0, 0), OpOffload(Left, 0.0, 0.0)]

  /** Reclaiming the only state of a pool, an offloaded one, frees no slab. */
  lemma LruFreesNothing()
    ensures ValidConfig(Crowded)
    ensures var p := Run(Crowded, Initial(Crowded), OffloadRun);
      var p' := ReclaimLru(p, 1, 0.0).pool;
      p.states.Keys == {Left} && p'.states == map[] && p'.free == p.free
  {
    CrowdedValid();
    ColdLeft();
    ReclaimLeft();
  }

  lemma CrowdedValid()
    ensures ValidConfig(Crowded)
  {
    assert Canonical("a");
    assert Crowded.quotas.Keys == {"a"} && Crowded.quotas["a"] == 1;
  }

  lemma ColdLeft()
    ensures Run(Crowded, Initial(Crowded), OffloadRun) == Pool({0, 1}, map[Left := Cold])
  {
    RunTwo(Crowded, Initial(Crowded), OffloadRun[0], OffloadRun[1]);
    AdmitToEmpty();
    OffloadLeft();
  }

  lemma ReclaimLeft()
    ensures ReclaimLru(Pool({0, 1}, map[Left := Cold]), 1, 0.0).pool == Pool({0, 1}, map[])
  {
    var p := Pool({0, 1}, map[Left := Cold]);
    assert Inactive(p) == {Left};
    LruVictimsListed(p, 1);
    assert SetOf(LruVictims(p, 1)) == {Left};
    assert SlabsOf(p, {Left}) == {};
    assert p.states - {Left} == map[];
  }

  lemma RunTwo(c: Config, p: Pool, a: Op, b: Op)
    ensures Run(c, p, [a, b]) == Step(c, Step(c, p, a), b)
  {
    assert [a, b] == [] + [a] + [b];
    RunExtend(c, p, [], a);
    RunExtend(c, p, [] + [a], b);
  }

  const Warm := Cohort(Some(0), 1, 0, 0.0, 0.0, 0, false)
  const Cold := Cohort(None, 1, 0, 0.0, 0.0, 0, true)

  lemma AdmitToEmpty()
    ensures Step(Crowded, Initial(Crowded), OpAdmit(Left, 0.0, 0)) == Pool({1}, map[Left := Warm])
  {
    var p := Initial(Crowded);
    assert TenantResidents(p, "a") == {} && Residents(p) == {};
    assert 0 in p.free && p.free - {0} == {1};
  }

  lemma OffloadLeft()
    ensures Step(Crowded, Pool({1}, map[Left := Warm]), OpOffload(Left, 0.0, 0.0)) == Pool({0, 1}, map[Left := Cold])
  {
    var p := Pool({1}, map[Left := Warm]);
    assert Offloaded(p) == {};
    assert p.free + {0} == {0, 1};
    assert p.states[Left := Cold] == map[Left := Cold];
  }

  lemma AdmitBesideCold()
    ensures Step(Crowded, Pool({0, 1}, map[Left := Cold]), OpAdmit(Right, 0.0, 0))
         == Pool({1}, map[Left := Cold, Right := Warm])
  {
    var p := Pool({0, 1}, map[Left := Cold]);
    assert TenantResidents(p, "a") == {} && Residents(p) == {};
    assert p.states.Keys == {Left};
    assert 0 in p.free && p.free - {0} == {1};
  }

  lemma RestoreLeft()
    ensures var p := Pool({1}, map[Left := Cold, Right := Warm]);
      |TenantResidents(Step(Crowded, p, OpRestore(Left, 0.0, 0.0)), "a")| == 2
  {
    var p := Step(Crowded, Pool({1}, map[Left := Cold, Right := Warm]), OpRestore(Left, 0.0, 0.0));
    assert TenantResidents(p, "a") == {Left, Right};
  }
}
