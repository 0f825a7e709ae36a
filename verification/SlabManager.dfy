/** BoundedCohortStateManager: the pool held in fields that its methods update. */
module SlabManager {
  import opened Wrappers
  import opened Orders
  import opened M = SlabModel
  import opened SlabInvariants
  import opened SlabReclamation

  lemma EvictOneMore(p: Pool, ks: set<Key>, k: Key)
    requires k in p.states && k !in ks
    ensures Evict(Evict(p, ks), {k}) == Evict(p, ks + {k})
  {
    var mid := Evict(p, ks);
    assert mid.states[k] == p.states[k];
    assert SlabsOf(p, ks + {k}) == SlabsOf(p, ks) + SlabsOf(mid, {k});
    assert mid.states - {k} == p.states - (ks + {k});
  }

  /** Reclaiming the next listed state succeeds and continues the eviction. */
  lemma ReclaimNext(p: Pool, keys: seq<Key>, i: nat, now: real, reason: string)
    requires now >= 0.0 && Canonical(reason) && i < |keys|
    requires AllInactive(p, keys)
    ensures M.Reclaim(Evict(p, SetOf(keys[..i])), keys[i], now, reason)
         == Outcome(Evict(p, SetOf(keys[..i + 1])), Ok(Receipts(p, keys, reason, now)[i]))
  {
    var done := SetOf(keys[..i]);
    assert keys[i] in Inactive(p);
    assert keys[i] !in done;
    EvictOneMore(p, done, keys[i]);
    assert SetOf(keys[..i + 1]) == done + {keys[i]};
  }

  ghost predicate Chain(pools: seq<Pool>, keys: seq<Key>, receipts: seq<Receipt>, now: real, reason: string) {
    && |pools| == |keys| + 1
    && |receipts| == |keys|
    && forall i :: 0 <= i < |keys| ==>
         M.Reclaim(pools[i], keys[i], now, reason) == Outcome(pools[i + 1], Ok(receipts[i]))
  }

  ghost predicate AllInactive(p: Pool, keys: seq<Key>) {
    && (forall j :: 0 <= j < |keys| ==> keys[j] in Inactive(p))
    && (forall j, k :: 0 <= j < k < |keys| ==> keys[j] != keys[k])
  }

  /** The pools between the reclamations of a list: none of them can fail. */
  lemma ReclaimChain(p: Pool, keys: seq<Key>, now: real, reason: string) returns (pools: seq<Pool>)
    requires now >= 0.0 && Canonical(reason) && AllInactive(p, keys)
    ensures Chain(pools, keys, Receipts(p, keys, reason, now), now, reason)
    ensures pools[0] == p && pools[|keys|] == Evict(p, SetOf(keys))
  {
    pools := seq(|keys| + 1, i requires 0 <= i <= |keys| => Evict(p, SetOf(keys[..i])));
    forall i | 0 <= i < |keys|
      ensures M.Reclaim(pools[i], keys[i], now, reason) == Outcome(pools[i + 1], Ok(Receipts(p, keys, reason, now)[i]))
    {
      ReclaimNext(p, keys, i, now, reason);
    }
    assert keys[..|keys|] == keys;
    assert Evict(p, {}) == p;
  }

  lemma ExpiryInactive(c: Config, p: Pool, now: real)
    requires now >= 0.0
    ensures AllInactive(p, ExpiryVictims(c, p, now)) && SetOf(ExpiryVictims(c, p, now)) == Expired(c, p, now)
  {
    ExpiryVictimsListed(c, p, now);
    var ks := ExpiryVictims(c, p, now);
    forall j | 0 <= j < |ks| ensures ks[j] in Inactive(p) { assert ks[j] in SetOf(ks); }
  }

  lemma LruInactive(p: Pool, count: nat)
    ensures AllInactive(p, LruVictims(p, count))
  {
    LruVictimsListed(p, count);
  }

  class BoundedCohortStateManager {
    const config: Config
    var free: set<nat>
    var states: map<Key, Cohort>
    ghost var trace: seq<Op>

    ghost function Contents(): Pool
      reads this
    {
      Pool(free, states)
    }

    /** The manager is where the operations called so far lead. */
    ghost predicate Valid()
      reads this
    {
      ValidConfig(config) && Contents() == Run(config, Initial(config), trace)
    }

    constructor (config: Config)
      requires ValidConfig(config)
      ensures Valid() && this.config == config && trace == [] && Contents() == Initial(config)
    {
      this.config := config;
      free := Range(config.capacity);
      states := map[];
      trace := [];
    }

    static method Create(config: Config) returns (r: Result<BoundedCohortStateManager, Error>)
      ensures r.Ok? <==>
        && config.capacity >= 1 && config.slabBytes >= 1 && config.ttl > 0.0
        && config.offloadedCapacity >= 0 && (config.mode == Disabled <==> config.offloadedCapacity == 0)
        && config.quotas != map[]
        && forall t :: t in config.quotas ==> Canonical(t) && 1 <= config.quotas[t] <= config.capacity
      ensures r.Err? ==> r.error == BadConfig
      ensures r.Ok? ==> fresh(r.value) && r.value.Valid() && r.value.config == config && r.value.trace == []
    {
      if ValidConfig(config) {
        var m := new BoundedCohortStateManager(config);
        r := Ok(m);
      } else {
        r := Err(BadConfig);
      }
    }

    /** So every manager is sound, whatever was called on it. */
    lemma AlwaysSound()
      requires Valid()
      ensures Inv(config, Contents())
    {
      ReachableSafety(config, trace);
    }

    ghost method Record(op: Op)
      requires ValidConfig(config) && Contents() == Step(config, Run(config, Initial(config), trace), op)
      modifies this`trace
      ensures Valid() && trace == old(trace) + [op]
    {
      RunExtend(config, Initial(config), trace, op);
      trace := trace + [op];
    }

    method TakeLeast() returns (slab: nat)
      requires free != {}
      modifies this`free
      ensures slab == Least(old(free)) && free == old(free) - {slab}
    {
      ghost var least := Least(free);
      slab :| slab in free && forall x :: x in free ==> slab <= x;
      free := free - {slab};
    }

    method Admit(key: Key, now: real, version: int) returns (r: Result<Admission, Error>)
      requires Valid()
      modifies this
      ensures Valid() && trace == old(trace) + [OpAdmit(key, now, version)]
      ensures Outcome(Contents(), r) == M.Admit(config, old(Contents()), key, now, version)
      ensures r.Ok? <==> now >= 0.0 && version >= 0
      ensures r.Err? || !r.value.admitted ==> Contents() == old(Contents())
      ensures r.Ok? && r.value.admitted ==> key in states && !states[key].offloaded
    {
      if now < 0.0 {
        r := Err(BadTime);
      } else if version < 0 {
        r := Err(BadVersion);
      } else if key in states {
        if states[key].offloaded {
          r := Ok(Admission(false, RestoreRequired, Some(SnapshotOf(config, key, states[key]))));
        } else {
          states := states[key := states[key].(lastUsedAt := Max(states[key].lastUsedAt, now))];
          r := Ok(Admission(true, AlreadyResident, Some(SnapshotOf(config, key, states[key]))));
        }
      } else if key.tenant !in config.quotas {
        r := Ok(Admission(false, UnknownTenant, None));
      } else if |set k | k in states && k.tenant == key.tenant && !states[k].offloaded| >= config.quotas[key.tenant] {
        r := Ok(Admission(false, TenantQuota, None));
      } else if || |states| >= config.capacity + config.offloadedCapacity
                || |set k | k in states && states[k].slab.Some?| >= config.capacity
                || free == {} {
        r := Ok(Admission(false, Capacity, None));
      } else {
        var slab := TakeLeast();
        var state := Cohort(Some(slab), config.slabBytes, version, now, now, 0, false);
        states := states[key := state];
        r := Ok(Admission(true, Admitted, Some(SnapshotOf(config, key, state))));
      }
      Record(OpAdmit(key, now, version));
    }

    method Acquire(key: Key, now: real) returns (r: Result<Snapshot, Error>)
      requires Valid()
      modifies this
      ensures Valid() && trace == old(trace) + [OpAcquire(key, now)]
      ensures Outcome(Contents(), r) == M.Acquire(config, old(Contents()), key, now)
      ensures r.Ok? <==>
        now >= 0.0 && key in old(states) && !old(states)[key].offloaded && old(states)[key].slab.Some?
      ensures r.Ok? ==> key in states && states[key].active == old(states)[key].active + 1 && free == old(free)
      ensures r.Err? ==> Contents() == old(Contents())
    {
      if now < 0.0 {
        r := Err(BadTime);
      } else if key !in states {
        r := Err(MissingState);
      } else if states[key].offloaded || states[key].slab.None? {
        r := Err(ColdState);
      } else {
        var s := states[key];
        states := states[key := s.(active := s.active + 1, lastUsedAt := Max(s.lastUsedAt, now))];
        r := Ok(SnapshotOf(config, key, states[key]));
      }
      Record(OpAcquire(key, now));
    }

    method Release(key: Key, now: real) returns (r: Result<Snapshot, Error>)
      requires Valid()
      modifies this
      ensures Valid() && trace == old(trace) + [OpRelease(key, now)]
      ensures Outcome(Contents(), r) == M.Release(config, old(Contents()), key, now)
      ensures r.Ok? <==> now >= 0.0 && key in old(states) && old(states)[key].active > 0
      ensures r.Ok? ==> key in states && states[key].active == old(states)[key].active - 1 && free == old(free)
      ensures r.Err? ==> Contents() == old(Contents())
    {
      if now < 0.0 {
        r := Err(BadTime);
      } else if key !in states {
        r := Err(MissingState);
      } else if states[key].active == 0 {
        r := Err(NothingToRelease);
      } else {
        var s := states[key];
        states := states[key := s.(active := s.active - 1, lastUsedAt := Max(s.lastUsedAt, now))];
        r := Ok(SnapshotOf(config, key, states[key]));
      }
      Record(OpRelease(key, now));
    }

    method PublishVersion(key: Key, source: int, next: int, now: real) returns (r: Result<Snapshot, Error>)
      requires Valid()
      modifies this
      ensures Valid() && trace == old(trace) + [OpPublish(key, source, next, now)]
      ensures Outcome(Contents(), r) == M.Publish(config, old(Contents()), key, source, next, now)
      ensures r.Ok? <==>
        && now >= 0.0 && key in old(states) && !old(states)[key].offloaded
        && old(states)[key].version == source && next == source + 1
      ensures r.Ok? ==> key in states && states[key].version == next && free == old(free)
      ensures r.Err? ==> Contents() == old(Contents())
    {
      if now < 0.0 {
        r := Err(BadTime);
      } else if key !in states || states[key].offloaded {
        r := Err(NotResident);
      } else if states[key].version != source || next != source + 1 {
        r := Err(VersionConflict);
      } else {
        var s := states[key];
        states := states[key := s.(version := next, lastUsedAt := Max(s.lastUsedAt, now))];
        r := Ok(SnapshotOf(config, key, states[key]));
      }
      Record(OpPublish(key, source, next, now));
    }

    method Reclaim(key: Key, now: real, reason: string) returns (r: Result<Receipt, Error>)
      requires Valid()
      modifies this
      ensures Valid() && trace == old(trace) + [OpReclaim(key, now, reason)]
      ensures Outcome(Contents(), r) == M.Reclaim(old(Contents()), key, now, reason)
      ensures r.Ok? <==> now >= 0.0 && Canonical(reason) && key in old(states) && old(states)[key].active == 0
      ensures r.Ok? ==> states == old(states) - {key}
      ensures r.Err? ==> Contents() == old(Contents())
    {
      if now < 0.0 {
        r := Err(BadTime);
      } else if !Canonical(reason) {
        r := Err(BadReason);
      } else if key !in states {
        r := Err(MissingState);
      } else if states[key].active > 0 {
        r := Err(ActiveState);
      } else {
        var s := states[key];
        if s.slab.Some? {
          free := free + {s.slab.value};
        }
        states := states - {key};
        r := Ok(Receipt(key, s.slab, reason, now));
      }
      Record(OpReclaim(key, now, reason));
    }

    /** Reclaims the listed states one by one. */
    method ReclaimEach(keys: seq<Key>, now: real, reason: string, ghost pools: seq<Pool>, ghost all: seq<Receipt>)
      returns (receipts: seq<Receipt>)
      requires Valid() && Chain(pools, keys, all, now, reason) && Contents() == pools[0]
      modifies this
      ensures Valid() && Contents() == pools[|keys|] && receipts == all
    {
      receipts := [];
      var i := 0;
      while i < |keys|
        invariant 0 <= i <= |keys| && Valid()
        invariant Contents() == pools[i]
        invariant receipts == all[..i]
      {
        assert M.Reclaim(pools[i], keys[i], now, reason) == Outcome(pools[i + 1], Ok(all[i]));
        var r := Reclaim(keys[i], now, reason);
        receipts := receipts + [r.value];
        i := i + 1;
      }
    }

    method ReclaimExpired(now: real) returns (r: Result<seq<Receipt>, Error>)
      requires Valid()
      modifies this
      ensures Valid() && trace == old(trace) + [OpReclaimExpired(now)]
      ensures Outcome(Contents(), r) == M.ReclaimExpired(config, old(Contents()), now)
      ensures r.Ok? <==> now >= 0.0
      ensures r.Err? ==> Contents() == old(Contents())
    {
      if now < 0.0 {
        r := Err(BadTime);
      } else {
        RankOrder();
        ghost var before := Contents();
        var expired := SortedListing(RankLeq, ExpiryRanks(config, Pool(free, states), now));
        var keys := KeysOf(expired);
        ExpiryInactive(config, before, now);
        ghost var pools := ReclaimChain(before, keys, now, "ttl_expired");
        var receipts := ReclaimEach(keys, now, "ttl_expired", pools, Receipts(before, keys, "ttl_expired", now));
        r := Ok(receipts);
        trace := old(trace);
      }
      Record(OpReclaimExpired(now));
    }

    method ReclaimLru(count: int, now: real) returns (r: Result<seq<Receipt>, Error>)
      requires Valid()
      modifies this
      ensures Valid() && trace == old(trace) + [OpReclaimLru(count, now)]
      ensures Outcome(Contents(), r) == M.ReclaimLru(old(Contents()), count, now)
      ensures r.Ok? <==> count >= 1 && now >= 0.0
      ensures r.Err? ==> Contents() == old(Contents())
    {
      if count < 1 {
        r := Err(BadCount);
      } else if now < 0.0 {
        r := Err(BadTime);
      } else {
        RankOrder();
        ghost var before := Contents();
        var candidates := SortedListing(RankLeq, LruRanks(Pool(free, states)));
        var keys := KeysOf(if count <= |candidates| then candidates[..count] else candidates);
        LruInactive(before, count);
        ghost var pools := ReclaimChain(before, keys, now, "lru_reclaimed");
        var receipts := ReclaimEach(keys, now, "lru_reclaimed", pools, Receipts(before, keys, "lru_reclaimed", now));
        r := Ok(receipts);
        trace := old(trace);
      }
      Record(OpReclaimLru(count, now));
    }

    method OffloadCold(key: Key, started: real, completed: real) returns (r: Result<Transfer, Error>)
      requires Valid()
      modifies this
      ensures Valid() && trace == old(trace) + [OpOffload(key, started, completed)]
      ensures Outcome(Contents(), r) == M.Offload(config, old(Contents()), key, started, completed)
      ensures r.Ok? <==>
        && config.mode == ColdInactiveTimed && 0.0 <= started <= completed
        && key in old(states) && old(states)[key].active == 0
        && old(states)[key].slab.Some? && !old(states)[key].offloaded
        && |Offloaded(old(Contents()))| < config.offloadedCapacity
      ensures r.Ok? ==> key in states && states[key].offloaded && free == old(free) + {r.value.slab}
      ensures r.Err? ==> Contents() == old(Contents())
    {
      var check := TransferCheck(config, started, completed);
      if check.Some? {
        r := Err(check.value);
      } else if key !in states {
        r := Err(MissingState);
      } else if states[key].active > 0 {
        r := Err(ActiveState);
      } else if states[key].slab.None? || states[key].offloaded {
        r := Err(AlreadyOffloaded);
      } else if |set k | k in states && states[k].offloaded| >= config.offloadedCapacity {
        r := Err(TierFull);
      } else {
        var s := states[key];
        free := free + {s.slab.value};
        states := states[key := s.(slab := None, offloaded := true, lastUsedAt := Max(s.lastUsedAt, completed))];
        r := Ok(Transfer(key, "cold_offload", s.slab.value, s.slabBytes, started, completed, config.mode));
      }
      Record(OpOffload(key, started, completed));
    }

    method RestoreCold(key: Key, started: real, completed: real) returns (r: Result<Transfer, Error>)
      requires Valid()
      modifies this
      ensures Valid() && trace == old(trace) + [OpRestore(key, started, completed)]
      ensures Outcome(Contents(), r) == M.Restore(config, old(Contents()), key, started, completed)
      ensures r.Ok? <==>
        && config.mode == ColdInactiveTimed && 0.0 <= started <= completed
        && key in old(states) && old(states)[key].offloaded && old(states)[key].slab.None? && old(free) != {}
      ensures r.Ok? ==> key in states && states[key].slab == Some(r.value.slab) && free == old(free) - {r.value.slab}
      ensures r.Err? ==> Contents() == old(Contents())
    {
      var check := TransferCheck(config, started, completed);
      if check.Some? {
        r := Err(check.value);
      } else if key !in states {
        r := Err(MissingState);
      } else if !states[key].offloaded || states[key].slab.Some? {
        r := Err(StillResident);
      } else if free == {} {
        r := Err(NoFreeSlab);
      } else {
        var s := states[key];
        var slab := TakeLeast();
        states := states[key := s.(slab := Some(slab), offloaded := false, lastUsedAt := Max(s.lastUsedAt, completed))];
        r := Ok(Transfer(key, "cold_restore", slab, s.slabBytes, started, completed, config.mode));
      }
      Record(OpRestore(key, started, completed));
    }
  }
}
