/** What every operation of the cohort pool keeps: slab conservation and the
    tenant bound, hence both over every run. */
module SlabInvariants {
  import opened Wrappers
  import opened SlabModel

  ghost predicate Shaped(s: Cohort) {
    && (s.offloaded <==> s.slab.None?)
    && (s.active > 0 ==> s.slab.Some?)
  }

  /** Every held slab id is below the capacity and not free. */
  ghost predicate Placed(c: Config, p: Pool) {
    && (forall k :: k in p.states ==> Shaped(p.states[k]))
    && (forall k :: k in p.states && p.states[k].slab.Some? ==>
          p.states[k].slab.value < c.capacity && p.states[k].slab.value !in p.free)
  }

  ghost predicate Distinct(p: Pool) {
    forall k1, k2 :: k1 in p.states && k2 in p.states && k1 != k2 && p.states[k1].slab.Some? ==>
      p.states[k1].slab != p.states[k2].slab
  }

  ghost predicate Counted(c: Config, p: Pool) {
    && p.free <= Range(c.capacity)
    && |p.free| + |Residents(p)| == c.capacity
    && |Offloaded(p)| <= c.offloadedCapacity
  }

  ghost predicate QuotaBounded(c: Config, p: Pool) {
    forall k :: k in p.states ==>
      k.tenant in c.quotas && |TenantKeys(p, k.tenant)| <= c.quotas[k.tenant] + c.offloadedCapacity
  }

  ghost predicate Conserved(c: Config, p: Pool) {
    Placed(c, p) && Distinct(p) && Counted(c, p)
  }

  ghost predicate Inv(c: Config, p: Pool) {
    Conserved(c, p) && QuotaBounded(c, p)
  }

  // ----- counting -----

  lemma {:induction false} SubsetSize<T>(a: set<T>, b: set<T>)
    requires a <= b
    ensures |a| <= |b|
  {
    assert b == a + (b - a);
  }

  lemma {:induction false} SlabsOfSize(p: Pool, ks: set<Key>)
    requires ks <= Residents(p) && Distinct(p)
    ensures |SlabsOf(p, ks)| == |ks|
    decreases |ks|
  {
    if ks != {} {
      var k :| k in ks;
      SlabsOfSize(p, ks - {k});
      var slab := p.states[k].slab.value;
      assert slab !in SlabsOf(p, ks - {k});
      assert SlabsOf(p, ks) == SlabsOf(p, ks - {k}) + {slab};
    }
  }

  lemma StateCount(c: Config, p: Pool)
    requires Placed(c, p)
    ensures |p.states| == |Residents(p)| + |Offloaded(p)|
  {
    assert Residents(p) !! Offloaded(p) && Residents(p) + Offloaded(p) == p.states.Keys;
  }

  /** The three capacity guards of admission amount to "no slab is free". */
  lemma CapacityGuardsCollapse(c: Config, p: Pool)
    requires Inv(c, p)
    ensures (|p.states| >= c.capacity + c.offloadedCapacity || |Residents(p)| >= c.capacity || p.free == {})
        <==> p.free == {}
  {
    StateCount(c, p);
  }

  /** Slab conservation proper: the free and the held slabs partition 0..capacity-1. */
  lemma Partition(c: Config, p: Pool)
    requires Inv(c, p) && c.capacity >= 0
    ensures p.free !! SlabsOf(p, p.states.Keys)
    ensures p.free + SlabsOf(p, p.states.Keys) == Range(c.capacity)
  {
    SlabsOfSize(p, Residents(p));
    var held := SlabsOf(p, p.states.Keys);
    assert SlabsOf(p, Residents(p)) == held;
    FullSubset(p.free + held, Range(c.capacity));
  }

  lemma FullSubset<T>(a: set<T>, b: set<T>)
    requires a <= b && |a| == |b|
    ensures a == b
  {
    assert b == a + (b - a);
  }

  // ----- the four ways a pool changes -----

  lemma TouchPlaced(c: Config, p: Pool, k: Key, s: Cohort)
    requires Placed(c, p) && Distinct(p) && k in p.states && Shaped(s) && s.slab == p.states[k].slab
    ensures Placed(c, p.(states := p.states[k := s])) && Distinct(p.(states := p.states[k := s]))
  {
  }

  lemma TouchCounted(c: Config, p: Pool, k: Key, s: Cohort)
    requires Counted(c, p) && k in p.states && s.slab == p.states[k].slab && s.offloaded == p.states[k].offloaded
    ensures Counted(c, p.(states := p.states[k := s]))
  {
    var p' := p.(states := p.states[k := s]);
    assert Residents(p') == Residents(p);
    assert Offloaded(p') == Offloaded(p);
  }

  /** A state changes without moving. */
  lemma Touch(c: Config, p: Pool, k: Key, s: Cohort)
    requires Conserved(c, p) && k in p.states && Shaped(s) && s.slab == p.states[k].slab
    ensures Conserved(c, p.(states := p.states[k := s]))
  {
    TouchPlaced(c, p, k, s);
    assert Shaped(p.states[k]);
    TouchCounted(c, p, k, s);
  }

  lemma QuotaSameKeys(c: Config, p: Pool, p': Pool)
    requires QuotaBounded(c, p) && p'.states.Keys <= p.states.Keys
    ensures QuotaBounded(c, p')
  {
    forall k | k in p'.states
      ensures k.tenant in c.quotas && |TenantKeys(p', k.tenant)| <= c.quotas[k.tenant] + c.offloadedCapacity
    {
      SubsetSize(TenantKeys(p', k.tenant), TenantKeys(p, k.tenant));
    }
  }

  lemma TenantSplit(c: Config, p: Pool, t: string)
    requires Counted(c, p)
    ensures |TenantKeys(p, t)| <= |TenantResidents(p, t)| + c.offloadedCapacity
  {
    var cold := TenantKeys(p, t) * Offloaded(p);
    SubsetSize(cold, Offloaded(p));
    assert TenantKeys(p, t) == TenantResidents(p, t) + cold;
  }

  lemma TenantGrowth(c: Config, p: Pool, p': Pool, k: Key)
    requires Counted(c, p) && k !in p.states && k.tenant in c.quotas
    requires |TenantResidents(p, k.tenant)| < c.quotas[k.tenant]
    requires p'.states.Keys == p.states.Keys + {k}
    ensures |TenantKeys(p', k.tenant)| <= c.quotas[k.tenant] + c.offloadedCapacity
    ensures forall t :: t != k.tenant ==> TenantKeys(p', t) == TenantKeys(p, t)
  {
    TenantSplit(c, p, k.tenant);
    assert TenantKeys(p', k.tenant) == TenantKeys(p, k.tenant) + {k};
  }

  lemma QuotaGrowth(c: Config, p: Pool, p': Pool, k: Key)
    requires QuotaBounded(c, p) && Counted(c, p) && k !in p.states && k.tenant in c.quotas
    requires |TenantResidents(p, k.tenant)| < c.quotas[k.tenant]
    requires p'.states.Keys == p.states.Keys + {k}
    ensures QuotaBounded(c, p')
  {
    TenantGrowth(c, p, p', k);
    forall j | j in p'.states
      ensures j.tenant in c.quotas && |TenantKeys(p', j.tenant)| <= c.quotas[j.tenant] + c.offloadedCapacity
    {
      if j.tenant != k.tenant {
        assert j in p.states;
      }
    }
  }

  lemma TakePlaced(c: Config, p: Pool, k: Key, m: nat, s: Cohort)
    requires Placed(c, p) && Distinct(p) && m < c.capacity
    requires m in p.free && s.slab == Some(m) && !s.offloaded
    ensures Placed(c, Pool(p.free - {m}, p.states[k := s]))
    ensures Distinct(Pool(p.free - {m}, p.states[k := s]))
  {
  }

  lemma TakeViews(p: Pool, p': Pool, k: Key)
    requires k in p'.states && p'.states == p.states[k := p'.states[k]]
    requires p'.states[k].slab.Some? && !p'.states[k].offloaded
    ensures Residents(p') == Residents(p) + {k} && Offloaded(p') <= Offloaded(p)
  {
  }

  lemma TakeCounted(c: Config, p: Pool, k: Key, m: nat, s: Cohort)
    requires Counted(c, p) && m in p.free && s.slab == Some(m) && !s.offloaded && k !in Residents(p)
    ensures Counted(c, Pool(p.free - {m}, p.states[k := s]))
  {
    var p' := Pool(p.free - {m}, p.states[k := s]);
    TakeViews(p, p', k);
    SubsetSize(Offloaded(p'), Offloaded(p));
  }

  /** A slab leaves the free set for a state that held none. */
  lemma Take(c: Config, p: Pool, k: Key, m: nat, s: Cohort)
    requires Conserved(c, p)
    requires m in p.free && s.slab == Some(m) && !s.offloaded
    requires k in p.states ==> p.states[k].slab.None?
    ensures Conserved(c, Pool(p.free - {m}, p.states[k := s]))
  {
    assert m in Range(c.capacity);
    TakePlaced(c, p, k, m, s);
    TakeCounted(c, p, k, m, s);
  }

  lemma GiveCounted(c: Config, p: Pool, k: Key, m: nat, s: Cohort)
    requires Counted(c, p) && k in Residents(p) && m !in p.free && m < c.capacity
    requires s.slab.None? && s.offloaded && |Offloaded(p)| < c.offloadedCapacity
    ensures Counted(c, Pool(p.free + {m}, p.states[k := s]))
  {
    var p' := Pool(p.free + {m}, p.states[k := s]);
    assert Residents(p') == Residents(p) - {k};
    assert Offloaded(p') <= Offloaded(p) + {k};
    SubsetSize(Offloaded(p'), Offloaded(p) + {k});
  }

  lemma GivePlaced(c: Config, p: Pool, k: Key, m: nat, s: Cohort)
    requires Placed(c, p) && Distinct(p) && k in p.states && p.states[k].slab == Some(m)
    requires s.slab.None? && s.offloaded && s.active == 0
    ensures Placed(c, Pool(p.free + {m}, p.states[k := s])) && Distinct(Pool(p.free + {m}, p.states[k := s]))
  {
  }

  /** A slab goes back to the free set from a state that moves to the host tier. */
  lemma Give(c: Config, p: Pool, k: Key, s: Cohort)
    requires Conserved(c, p) && k in p.states && p.states[k].slab.Some?
    requires s.slab.None? && s.offloaded && s.active == 0
    requires |Offloaded(p)| < c.offloadedCapacity
    ensures Conserved(c, Pool(p.free + {p.states[k].slab.value}, p.states[k := s]))
  {
    GivePlaced(c, p, k, p.states[k].slab.value, s);
    GiveCounted(c, p, k, p.states[k].slab.value, s);
  }

  lemma EvictPlaced(c: Config, p: Pool, ks: set<Key>)
    requires Placed(c, p) && Distinct(p)
    ensures Placed(c, Evict(p, ks)) && Distinct(Evict(p, ks))
  {
    var p' := Evict(p, ks);
    forall k | k in p'.states && p'.states[k].slab.Some? ensures p'.states[k].slab.value !in SlabsOf(p, ks) {
      assert k in p.states && p.states[k] == p'.states[k];
    }
  }

  lemma EvictResidents(p: Pool, ks: set<Key>)
    ensures Residents(Evict(p, ks)) == Residents(p) - ks && Offloaded(Evict(p, ks)) <= Offloaded(p)
  {
  }

  lemma SlabsOfResidents(p: Pool, ks: set<Key>)
    ensures SlabsOf(p, ks) == SlabsOf(p, ks * Residents(p))
  {
  }

  lemma SlabsOfHeld(c: Config, p: Pool, ks: set<Key>)
    requires Placed(c, p) && c.capacity >= 0
    ensures SlabsOf(p, ks) <= Range(c.capacity) && SlabsOf(p, ks) !! p.free
  {
  }

  lemma Moved<A, B>(free: set<A>, slabs: set<A>, residents: set<B>, ks: set<B>)
    requires free !! slabs && |slabs| == |ks * residents|
    ensures |free + slabs| + |residents - ks| == |free| + |residents|
  {
    assert residents == (residents - ks) + (ks * residents);
    assert |residents| == |residents - ks| + |ks * residents|;
    assert |free + slabs| == |free| + |slabs|;
  }

  lemma EvictCounted(c: Config, p: Pool, ks: set<Key>)
    requires Conserved(c, p)
    ensures Counted(c, Evict(p, ks))
  {
    EvictResidents(p, ks);
    SubsetSize(Offloaded(Evict(p, ks)), Offloaded(p));
    SlabsOfHeld(c, p, ks);
    SlabsOfResidents(p, ks);
    SlabsOfSize(p, ks * Residents(p));
    Moved(p.free, SlabsOf(p, ks), Residents(p), ks);
  }

  lemma EvictKeeps(c: Config, p: Pool, ks: set<Key>)
    requires Inv(c, p)
    ensures Inv(c, Evict(p, ks))
  {
    EvictPlaced(c, p, ks);
    EvictCounted(c, p, ks);
    QuotaSameKeys(c, p, Evict(p, ks));
  }

  // ----- every step, every run -----

  lemma AdmitKeeps(c: Config, p: Pool, k: Key, now: real, version: int)
    requires Inv(c, p)
    ensures Inv(c, Admit(c, p, k, now, version).pool)
  {
    var o := Admit(c, p, k, now, version);
    if o.pool != p {
      if k in p.states {
        Touch(c, p, k, o.pool.states[k]);
        QuotaSameKeys(c, p, o.pool);
      } else {
        QuotaGrowth(c, p, o.pool, k);
        Take(c, p, k, Least(p.free), o.pool.states[k]);
      }
    }
  }

  lemma RestoreKeeps(c: Config, p: Pool, k: Key, started: real, completed: real)
    requires Inv(c, p)
    ensures Inv(c, Restore(c, p, k, started, completed).pool)
  {
    var o := Restore(c, p, k, started, completed);
    if o.result.Ok? {
      Take(c, p, k, Least(p.free), o.pool.states[k]);
      QuotaSameKeys(c, p, o.pool);
    }
  }

  lemma AcquireKeeps(c: Config, p: Pool, k: Key, now: real)
    requires Inv(c, p)
    ensures Inv(c, Acquire(c, p, k, now).pool)
  {
    var o := Acquire(c, p, k, now);
    if o.result.Ok? {
      Touch(c, p, k, o.pool.states[k]);
      QuotaSameKeys(c, p, o.pool);
    }
  }

  lemma ReleaseKeeps(c: Config, p: Pool, k: Key, now: real)
    requires Inv(c, p)
    ensures Inv(c, Release(c, p, k, now).pool)
  {
    var o := Release(c, p, k, now);
    if o.result.Ok? {
      Touch(c, p, k, o.pool.states[k]);
      QuotaSameKeys(c, p, o.pool);
    }
  }

  lemma PublishKeeps(c: Config, p: Pool, k: Key, source: int, next: int, now: real)
    requires Inv(c, p)
    ensures Inv(c, Publish(c, p, k, source, next, now).pool)
  {
    var o := Publish(c, p, k, source, next, now);
    if o.result.Ok? {
      Touch(c, p, k, o.pool.states[k]);
      QuotaSameKeys(c, p, o.pool);
    }
  }

  lemma EvictedKeeps(c: Config, p: Pool, p': Pool, ks: set<Key>)
    requires Inv(c, p) && (p' == p || p' == Evict(p, ks))
    ensures Inv(c, p')
  {
    EvictKeeps(c, p, ks);
  }

  lemma OffloadKeeps(c: Config, p: Pool, k: Key, started: real, completed: real)
    requires Inv(c, p)
    ensures Inv(c, Offload(c, p, k, started, completed).pool)
  {
    var o := Offload(c, p, k, started, completed);
    if o.result.Ok? {
      Give(c, p, k, o.pool.states[k]);
      QuotaSameKeys(c, p, o.pool);
    }
  }

  lemma SamePool(c: Config, p: Pool, p': Pool)
    requires Inv(c, p) && p' == p
    ensures Inv(c, p')
  {
  }

  lemma AdmitStep(c: Config, p: Pool, op: Op)
    requires Inv(c, p) && op.OpAdmit?
    ensures Inv(c, Step(c, p, op))
  {
    AdmitKeeps(c, p, op.key, op.now, op.version);
    SamePool(c, Admit(c, p, op.key, op.now, op.version).pool, Step(c, p, op));
  }

  lemma AcquireStep(c: Config, p: Pool, op: Op)
    requires Inv(c, p) && op.OpAcquire?
    ensures Inv(c, Step(c, p, op))
  {
    AcquireKeeps(c, p, op.key, op.now);
    SamePool(c, Acquire(c, p, op.key, op.now).pool, Step(c, p, op));
  }

  lemma ReleaseStep(c: Config, p: Pool, op: Op)
    requires Inv(c, p) && op.OpRelease?
    ensures Inv(c, Step(c, p, op))
  {
    ReleaseKeeps(c, p, op.key, op.now);
    SamePool(c, Release(c, p, op.key, op.now).pool, Step(c, p, op));
  }

  lemma PublishStep(c: Config, p: Pool, op: Op)
    requires Inv(c, p) && op.OpPublish?
    ensures Inv(c, Step(c, p, op))
  {
    PublishKeeps(c, p, op.key, op.source, op.next, op.now);
    SamePool(c, Publish(c, p, op.key, op.source, op.next, op.now).pool, Step(c, p, op));
  }

  /** A reclamation of any kind evicts some states, or does nothing. */
  lemma ReclaimEvicts(c: Config, p: Pool, op: Op) returns (ks: set<Key>)
    requires op.OpReclaim? || op.OpReclaimExpired? || op.OpReclaimLru?
    ensures Step(c, p, op) == p || Step(c, p, op) == Evict(p, ks)
  {
    ks :=
      if op.OpReclaim? then {op.key}
      else if op.OpReclaimExpired? then Expired(c, p, op.now)
      else if op.count >= 1 then SetOf(LruVictims(p, op.count)) else {};
  }

  lemma ReclaimStep(c: Config, p: Pool, op: Op)
    requires Inv(c, p) && (op.OpReclaim? || op.OpReclaimExpired? || op.OpReclaimLru?)
    ensures Inv(c, Step(c, p, op))
  {
    var ks := ReclaimEvicts(c, p, op);
    EvictedKeeps(c, p, Step(c, p, op), ks);
  }

  lemma OffloadStep(c: Config, p: Pool, op: Op)
    requires Inv(c, p) && op.OpOffload?
    ensures Inv(c, Step(c, p, op))
  {
    OffloadKeeps(c, p, op.key, op.started, op.completed);
    SamePool(c, Offload(c, p, op.key, op.started, op.completed).pool, Step(c, p, op));
  }

  lemma RestoreStepIs(c: Config, p: Pool, op: Op)
    requires op.OpRestore?
    ensures Step(c, p, op) == Restore(c, p, op.key, op.started, op.completed).pool
  {
  }

  lemma RestoreStep(c: Config, p: Pool, op: Op)
    requires Inv(c, p) && op.OpRestore?
    ensures Inv(c, Step(c, p, op))
  {
    RestoreStepIs(c, p, op);
    RestoreKeeps(c, p, op.key, op.started, op.completed);
    SamePool(c, Restore(c, p, op.key, op.started, op.completed).pool, Step(c, p, op));
  }

  lemma StepKeeps(c: Config, p: Pool, op: Op)
    requires Inv(c, p)
    ensures Inv(c, Step(c, p, op))
  {
    match op
    case OpAdmit(_, _, _) => AdmitStep(c, p, op);
    case OpAcquire(_, _) => AcquireStep(c, p, op);
    case OpRelease(_, _) => ReleaseStep(c, p, op);
    case OpPublish(_, _, _, _) => PublishStep(c, p, op);
    case OpReclaim(_, _, _) => ReclaimStep(c, p, op);
    case OpReclaimExpired(_) => ReclaimStep(c, p, op);
    case OpReclaimLru(_, _) => ReclaimStep(c, p, op);
    case OpOffload(_, _, _) => OffloadStep(c, p, op);
    case OpRestore(_, _, _) => RestoreStep(c, p, op);
  }

  lemma RunExtend(c: Config, p: Pool, ops: seq<Op>, op: Op)
    ensures Run(c, p, ops + [op]) == Step(c, Run(c, p, ops), op)
  {
    assert (ops + [op])[..|ops|] == ops;
  }

  lemma InitialInv(c: Config)
    requires ValidConfig(c)
    ensures Inv(c, Initial(c))
  {
    assert Residents(Initial(c)) == {} && Offloaded(Initial(c)) == {};
  }

  lemma {:induction false} RunKeeps(c: Config, p: Pool, ops: seq<Op>)
    requires Inv(c, p)
    ensures Inv(c, Run(c, p, ops))
  {
    if ops != [] {
      RunKeeps(c, p, ops[..|ops| - 1]);
      StepKeeps(c, Run(c, p, ops[..|ops| - 1]), ops[|ops| - 1]);
    }
  }

  /** In every reachable pool the free slabs and the held ones partition
      0..capacity-1, with one holder each; a state is offloaded exactly when it
      holds none; the host tier is within its bound; and each tenant's states
      are at most its quota plus the host tier. */
  lemma ReachableSafety(c: Config, ops: seq<Op>)
    requires ValidConfig(c)
    ensures var p := Run(c, Initial(c), ops);
      && Inv(c, p)
      && p.free !! SlabsOf(p, p.states.Keys)
      && p.free + SlabsOf(p, p.states.Keys) == Range(c.capacity)
  {
    InitialInv(c);
    RunKeeps(c, Initial(c), ops);
    Partition(c, Run(c, Initial(c), ops));
  }

  /** With offload disabled a tenant's residents never exceed its quota. */
  lemma StrictQuotaWithoutOffload(c: Config, ops: seq<Op>, t: string)
    requires ValidConfig(c) && c.mode == Disabled && t in c.quotas
    ensures |TenantResidents(Run(c, Initial(c), ops), t)| <= c.quotas[t]
  {
    ReachableSafety(c, ops);
    var p := Run(c, Initial(c), ops);
    SubsetSize(TenantResidents(p, t), TenantKeys(p, t));
    if k :| k in TenantKeys(p, t) {
      assert |TenantKeys(p, k.tenant)| <= c.quotas[k.tenant] + c.offloadedCapacity;
    } else {
      assert TenantKeys(p, t) == {};
    }
  }

  /** The guards of a restore, read before the call: transfers are enabled and
      the times in order, the state is offloaded and some slab is free; and its
      tenant is already at its quota. */
  predicate RestoresOverQuota(c: Config, p: Pool, op: Op, t: string)
    requires t in c.quotas
  {
    && op.OpRestore?
    && op.key.tenant == t
    && c.mode == ColdInactiveTimed
    && 0.0 <= op.started <= op.completed
    && op.key in p.states && p.states[op.key].offloaded
    && p.free != {}
    && |TenantResidents(p, t)| == c.quotas[t]
  }

  lemma ResidentsAfterRestore(c: Config, p: Pool, k: Key, started: real, completed: real, t: string)
    requires Restore(c, p, k, started, completed).result.Ok?
    ensures |TenantResidents(Restore(c, p, k, started, completed).pool, t)|
         == |TenantResidents(p, t)| + if k.tenant == t then 1 else 0
  {
    var p' := Restore(c, p, k, started, completed).pool;
    assert TenantResidents(p', t) == TenantResidents(p, t) + if k.tenant == t then {k} else {};
  }

  lemma ResidentsAfterAdmit(c: Config, p: Pool, k: Key, now: real, version: int, t: string)
    requires t in c.quotas && |TenantResidents(p, t)| <= c.quotas[t]
    ensures |TenantResidents(Admit(c, p, k, now, version).pool, t)| <= c.quotas[t]
  {
    var p' := Admit(c, p, k, now, version).pool;
    if k !in p.states && k in p'.states && k.tenant == t {
      assert TenantResidents(p', t) == TenantResidents(p, t) + {k};
    } else {
      assert TenantResidents(p', t) == TenantResidents(p, t);
    }
  }

  lemma ResidentsShrink(c: Config, p: Pool, op: Op, t: string)
    requires !op.OpAdmit? && !op.OpRestore?
    ensures TenantResidents(Step(c, p, op), t) <= TenantResidents(p, t)
  {
  }

  lemma RestoreSucceeds(c: Config, p: Pool, k: Key, started: real, completed: real)
    requires Placed(c, p)
    ensures Restore(c, p, k, started, completed).result.Ok? <==>
      && c.mode == ColdInactiveTimed && 0.0 <= started <= completed
      && k in p.states && p.states[k].offloaded && p.free != {}
  {
    assert k in p.states ==> Shaped(p.states[k]);
  }

  /** The strict quota survives a step unless that step restores a state of a
      tenant already at its quota; then it fails. */
  lemma StrictQuotaStep(c: Config, p: Pool, op: Op, t: string)
    requires Inv(c, p) && t in c.quotas && |TenantResidents(p, t)| <= c.quotas[t]
    ensures |TenantResidents(Step(c, p, op), t)| <= c.quotas[t] <==> !RestoresOverQuota(c, p, op, t)
  {
    if op.OpAdmit? {
      ResidentsAfterAdmit(c, p, op.key, op.now, op.version, t);
    } else if op.OpRestore? {
      RestoreSucceeds(c, p, op.key, op.started, op.completed);
      if Restore(c, p, op.key, op.started, op.completed).result.Ok? {
        ResidentsAfterRestore(c, p, op.key, op.started, op.completed, t);
      }
    } else {
      ResidentsShrink(c, p, op, t);
      SubsetSize(TenantResidents(Step(c, p, op), t), TenantResidents(p, t));
    }
  }
}
