/** The fixed-slab cohort pool: its data, and what each operation makes of a
    pool.  A failing operation returns an error and the pool it was given. */
module SlabModel {
  import opened Wrappers
  import opened Orders

  datatype Key = Key(tenant: string, cohort: string, replica: nat)

  datatype Cohort = Cohort(
    slab: Option<nat>, slabBytes: int, version: int, createdAt: real, lastUsedAt: real,
    active: nat, offloaded: bool)

  datatype OffloadMode = Disabled | ColdInactiveTimed

  datatype Config = Config(
    capacity: int, slabBytes: int, quotas: map<string, int>, ttl: real,
    mode: OffloadMode, offloadedCapacity: int)

  /** The constructor's checks. */
  predicate ValidConfig(c: Config) {
    && c.capacity >= 1
    && c.slabBytes >= 1
    && c.ttl > 0.0
    && c.quotas != map[]
    && c.offloadedCapacity >= 0
    && (c.mode == Disabled <==> c.offloadedCapacity == 0)
    && forall t | t in c.quotas :: Canonical(t) && 1 <= c.quotas[t] <= c.capacity
  }

  datatype Pool = Pool(free: set<nat>, states: map<Key, Cohort>)

  datatype Snapshot = Snapshot(
    key: Key, slab: Option<nat>, slabBytes: int, version: int, createdAt: real, lastUsedAt: real,
    expiresAt: real, active: nat, offloaded: bool)

  datatype Reason = Admitted | AlreadyResident | UnknownTenant | TenantQuota | Capacity | RestoreRequired

  datatype Admission = Admission(admitted: bool, reason: Reason, state: Option<Snapshot>)
  datatype Receipt = Receipt(key: Key, slab: Option<nat>, reason: string, at: real)
  datatype Transfer = Transfer(
    key: Key, operation: string, slab: nat, bytes: int, started: real, completed: real, mode: OffloadMode)

  datatype Error =
    | BadConfig | BadTime | BadVersion | BadCount | BadReason | MissingState | ColdState | NothingToRelease
    | NotResident | VersionConflict | ActiveState | OffloadDisabled | ReversedTimes | AlreadyOffloaded
    | TierFull | StillResident | NoFreeSlab

  datatype Outcome<+T> = Outcome(pool: Pool, result: Result<T, Error>)

  // ----- views -----

  function Range(n: int): (r: set<nat>)
    ensures forall i: nat :: i in r <==> i < n
    ensures n >= 0 ==> |r| == n
  {
    if n <= 0 then {} else Range(n - 1) + {n - 1}
  }

  function Max(a: real, b: real): real {
    if a < b then b else a
  }

  function Residents(p: Pool): set<Key> {
    set k | k in p.states && p.states[k].slab.Some?
  }

  function Offloaded(p: Pool): set<Key> {
    set k | k in p.states && p.states[k].offloaded
  }

  function Inactive(p: Pool): set<Key> {
    set k | k in p.states && p.states[k].active == 0
  }

  function TenantKeys(p: Pool, t: string): set<Key> {
    set k | k in p.states && k.tenant == t
  }

  function TenantResidents(p: Pool, t: string): set<Key> {
    set k | k in p.states && k.tenant == t && !p.states[k].offloaded
  }

  /** The slab ids held by the given keys. */
  function SlabsOf(p: Pool, ks: set<Key>): set<nat> {
    set k | k in ks && k in p.states && p.states[k].slab.Some? :: p.states[k].slab.value
  }

  ghost function Least(s: set<nat>): (m: nat)
    requires s != {}
    ensures m in s && forall x :: x in s ==> m <= x
  {
    var y :| y in s;
    LeastExists(s, y);
    var m :| m in s && forall x :: x in s ==> m <= x;
    m
  }

  lemma {:induction false} LeastExists(s: set<nat>, y: nat)
    requires y in s
    ensures exists m :: m in s && forall x :: x in s ==> m <= x
    decreases y
  {
    if z :| z in s && z < y { LeastExists(s, z); }
  }

  function SnapshotOf(c: Config, k: Key, s: Cohort): Snapshot {
    Snapshot(k, s.slab, s.slabBytes, s.version, s.createdAt, s.lastUsedAt, s.lastUsedAt + c.ttl, s.active, s.offloaded)
  }

  // ----- the order of reclamation -----

  datatype Rank = Rank(lastUsedAt: real, createdAt: real, key: Key)

  predicate KeyLeq(a: Key, b: Key) {
    if a.tenant != b.tenant then StringLeq(a.tenant, b.tenant)
    else if a.cohort != b.cohort then StringLeq(a.cohort, b.cohort)
    else a.replica <= b.replica
  }

  predicate RankLeq(a: Rank, b: Rank) {
    if a.lastUsedAt != b.lastUsedAt then a.lastUsedAt < b.lastUsedAt
    else if a.createdAt != b.createdAt then a.createdAt < b.createdAt
    else KeyLeq(a.key, b.key)
  }

  lemma RankOrder()
    ensures Total(RankLeq)
  {
    StringOrder();
    forall a, b, c | RankLeq(a, b) && RankLeq(b, c) ensures RankLeq(a, c) {
      KeyLeqTransitive(a.key, b.key, c.key);
    }
  }

  lemma KeyLeqTransitive(a: Key, b: Key, c: Key)
    ensures KeyLeq(a, b) && KeyLeq(b, c) ==> KeyLeq(a, c)
  {
    StringOrder();
  }

  function LruRank(p: Pool, k: Key): Rank
    requires k in p.states
  {
    Rank(p.states[k].lastUsedAt, p.states[k].createdAt, k)
  }

  function ExpiryRank(p: Pool, k: Key): Rank
    requires k in p.states
  {
    Rank(p.states[k].lastUsedAt, 0.0, k)
  }

  function LruRanks(p: Pool): set<Rank> {
    set k | k in Inactive(p) :: LruRank(p, k)
  }

  function Expired(c: Config, p: Pool, now: real): set<Key> {
    set k | k in Inactive(p) && now >= p.states[k].lastUsedAt + c.ttl
  }

  function ExpiryRanks(c: Config, p: Pool, now: real): set<Rank> {
    set k | k in Expired(c, p, now) :: ExpiryRank(p, k)
  }

  function KeysOf(q: seq<Rank>): (ks: seq<Key>)
    ensures |ks| == |q| && forall i :: 0 <= i < |q| ==> ks[i] == q[i].key
  {
    seq(|q|, i requires 0 <= i < |q| => q[i].key)
  }

  ghost function LruVictims(p: Pool, count: nat): seq<Key> {
    RankOrder();
    var q := Ascending(RankLeq, LruRanks(p));
    KeysOf(if count <= |q| then q[..count] else q)
  }

  ghost function ExpiryVictims(c: Config, p: Pool, now: real): seq<Key> {
    RankOrder();
    KeysOf(Ascending(RankLeq, ExpiryRanks(c, p, now)))
  }

  function SetOf(ks: seq<Key>): set<Key> {
    set k | k in ks
  }

  function Evict(p: Pool, ks: set<Key>): Pool {
    Pool(p.free + SlabsOf(p, ks), p.states - ks)
  }

  function Receipts(p: Pool, ks: seq<Key>, reason: string, now: real): (rs: seq<Receipt>)
    ensures |rs| == |ks|
  {
    seq(|ks|, i requires 0 <= i < |ks| =>
      Receipt(ks[i], if ks[i] in p.states then p.states[ks[i]].slab else None, reason, now))
  }

  // ----- the operations -----

  ghost function Admit(c: Config, p: Pool, key: Key, now: real, version: int): (o: Outcome<Admission>)
    ensures o.result.Err? ==> o.pool == p
    ensures o.result.Ok? && !o.result.value.admitted ==> o.pool == p
  {
    if now < 0.0 then Outcome(p, Err(BadTime))
    else if version < 0 then Outcome(p, Err(BadVersion))
    else if key in p.states then
      var s := p.states[key];
      if s.offloaded then
        Outcome(p, Ok(Admission(false, RestoreRequired, Some(SnapshotOf(c, key, s)))))
      else
        var s' := s.(lastUsedAt := Max(s.lastUsedAt, now));
        Outcome(p.(states := p.states[key := s']), Ok(Admission(true, AlreadyResident, Some(SnapshotOf(c, key, s')))))
    else if key.tenant !in c.quotas then Outcome(p, Ok(Admission(false, UnknownTenant, None)))
    else if |TenantResidents(p, key.tenant)| >= c.quotas[key.tenant] then
      Outcome(p, Ok(Admission(false, TenantQuota, None)))
    else if |p.states| >= c.capacity + c.offloadedCapacity || |Residents(p)| >= c.capacity || p.free == {} then
      Outcome(p, Ok(Admission(false, Capacity, None)))
    else
      var s := Cohort(Some(Least(p.free)), c.slabBytes, version, now, now, 0, false);
      Outcome(Pool(p.free - {Least(p.free)}, p.states[key := s]),
              Ok(Admission(true, Admitted, Some(SnapshotOf(c, key, s)))))
  }

  function Acquire(c: Config, p: Pool, key: Key, now: real): (o: Outcome<Snapshot>)
    ensures o.result.Err? ==> o.pool == p
  {
    if now < 0.0 then Outcome(p, Err(BadTime))
    else if key !in p.states then Outcome(p, Err(MissingState))
    else
      var s := p.states[key];
      if s.offloaded || s.slab.None? then Outcome(p, Err(ColdState))
      else
        var s' := s.(active := s.active + 1, lastUsedAt := Max(s.lastUsedAt, now));
        Outcome(p.(states := p.states[key := s']), Ok(SnapshotOf(c, key, s')))
  }

  function Release(c: Config, p: Pool, key: Key, now: real): (o: Outcome<Snapshot>)
    ensures o.result.Err? ==> o.pool == p
  {
    if now < 0.0 then Outcome(p, Err(BadTime))
    else if key !in p.states then Outcome(p, Err(MissingState))
    else
      var s := p.states[key];
      if s.active == 0 then Outcome(p, Err(NothingToRelease))
      else
        var s' := s.(active := s.active - 1, lastUsedAt := Max(s.lastUsedAt, now));
        Outcome(p.(states := p.states[key := s']), Ok(SnapshotOf(c, key, s')))
  }

  function Publish(c: Config, p: Pool, key: Key, source: int, next: int, now: real): (o: Outcome<Snapshot>)
    ensures o.result.Err? ==> o.pool == p
  {
    if now < 0.0 then Outcome(p, Err(BadTime))
    else if key !in p.states || p.states[key].offloaded then Outcome(p, Err(NotResident))
    else
      var s := p.states[key];
      if s.version != source || next != source + 1 then Outcome(p, Err(VersionConflict))
      else
        var s' := s.(version := next, lastUsedAt := Max(s.lastUsedAt, now));
        Outcome(p.(states := p.states[key := s']), Ok(SnapshotOf(c, key, s')))
  }

  function Reclaim(p: Pool, key: Key, now: real, reason: string): (o: Outcome<Receipt>)
    ensures o.result.Err? ==> o.pool == p
  {
    if now < 0.0 then Outcome(p, Err(BadTime))
    else if !Canonical(reason) then Outcome(p, Err(BadReason))
    else if key !in p.states then Outcome(p, Err(MissingState))
    else if p.states[key].active > 0 then Outcome(p, Err(ActiveState))
    else Outcome(Evict(p, {key}), Ok(Receipt(key, p.states[key].slab, reason, now)))
  }

  ghost function ReclaimExpired(c: Config, p: Pool, now: real): (o: Outcome<seq<Receipt>>)
    ensures o.result.Err? ==> o.pool == p
  {
    if now < 0.0 then Outcome(p, Err(BadTime))
    else Outcome(Evict(p, Expired(c, p, now)), Ok(Receipts(p, ExpiryVictims(c, p, now), "ttl_expired", now)))
  }

  ghost function ReclaimLru(p: Pool, count: int, now: real): (o: Outcome<seq<Receipt>>)
    ensures o.result.Err? ==> o.pool == p
  {
    if count < 1 then Outcome(p, Err(BadCount))
    else if now < 0.0 then Outcome(p, Err(BadTime))
    else
      var ks := LruVictims(p, count);
      Outcome(Evict(p, SetOf(ks)), Ok(Receipts(p, ks, "lru_reclaimed", now)))
  }

  function TransferCheck(c: Config, started: real, completed: real): Option<Error> {
    if c.mode != ColdInactiveTimed then Some(OffloadDisabled)
    else if started < 0.0 || completed < 0.0 then Some(BadTime)
    else if completed < started then Some(ReversedTimes)
    else None
  }

  function Offload(c: Config, p: Pool, key: Key, started: real, completed: real): (o: Outcome<Transfer>)
    ensures o.result.Err? ==> o.pool == p
  {
    var check := TransferCheck(c, started, completed);
    if check.Some? then Outcome(p, Err(check.value))
    else if key !in p.states then Outcome(p, Err(MissingState))
    else
      var s := p.states[key];
      if s.active > 0 then Outcome(p, Err(ActiveState))
      else if s.slab.None? || s.offloaded then Outcome(p, Err(AlreadyOffloaded))
      else if |Offloaded(p)| >= c.offloadedCapacity then Outcome(p, Err(TierFull))
      else
        var s' := s.(slab := None, offloaded := true, lastUsedAt := Max(s.lastUsedAt, completed));
        Outcome(Pool(p.free + {s.slab.value}, p.states[key := s']),
                Ok(Transfer(key, "cold_offload", s.slab.value, s.slabBytes, started, completed, c.mode)))
  }

  ghost function Restore(c: Config, p: Pool, key: Key, started: real, completed: real): (o: Outcome<Transfer>)
    ensures o.result.Err? ==> o.pool == p
  {
    var check := TransferCheck(c, started, completed);
    if check.Some? then Outcome(p, Err(check.value))
    else if key !in p.states then Outcome(p, Err(MissingState))
    else
      var s := p.states[key];
      if !s.offloaded || s.slab.Some? then Outcome(p, Err(StillResident))
      else if p.free == {} then Outcome(p, Err(NoFreeSlab))
      else
        var slab := Least(p.free);
        var s' := s.(slab := Some(slab), offloaded := false, lastUsedAt := Max(s.lastUsedAt, completed));
        Outcome(Pool(p.free - {slab}, p.states[key := s']),
                Ok(Transfer(key, "cold_restore", slab, s.slabBytes, started, completed, c.mode)))
  }

  // ----- runs -----

  datatype Op =
    | OpAdmit(key: Key, now: real, version: int)
    | OpAcquire(key: Key, now: real)
    | OpRelease(key: Key, now: real)
    | OpPublish(key: Key, source: int, next: int, now: real)
    | OpReclaim(key: Key, now: real, reason: string)
    | OpReclaimExpired(now: real)
    | OpReclaimLru(count: int, now: real)
    | OpOffload(key: Key, started: real, completed: real)
    | OpRestore(key: Key, started: real, completed: real)

  ghost function Step(c: Config, p: Pool, op: Op): Pool {
    match op
    case OpAdmit(k, now, v) => Admit(c, p, k, now, v).pool
    case OpAcquire(k, now) => Acquire(c, p, k, now).pool
    case OpRelease(k, now) => Release(c, p, k, now).pool
    case OpPublish(k, s, n, now) => Publish(c, p, k, s, n, now).pool
    case OpReclaim(k, now, reason) => Reclaim(p, k, now, reason).pool
    case OpReclaimExpired(now) => ReclaimExpired(c, p, now).pool
    case OpReclaimLru(count, now) => ReclaimLru(p, count, now).pool
    case OpOffload(k, s, t) => Offload(c, p, k, s, t).pool
    case OpRestore(k, s, t) => Restore(c, p, k, s, t).pool
  }

  ghost function Run(c: Config, p: Pool, ops: seq<Op>): Pool {
    if ops == [] then p
    else Step(c, Run(c, p, ops[..|ops| - 1]), ops[|ops| - 1])
  }

  function Initial(c: Config): Pool {
    Pool(Range(c.capacity), map[])
  }
}
