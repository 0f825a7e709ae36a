/** What admission decides, and which operations undo one another. */
module SlabRoundTrips {
  import opened Wrappers
  import opened SlabModel
  import opened SlabInvariants

  /** A new state is admitted exactly when its tenant is known, that tenant is
      below its quota and some slab is free; it gets the lowest free slab. */
  lemma AdmissionExact(c: Config, p: Pool, k: Key, now: real, version: int)
    requires Inv(c, p) && now >= 0.0 && version >= 0 && k !in p.states
    ensures var o := Admit(c, p, k, now, version);
      && o.result.Ok?
      && (o.result.value.admitted <==>
            k.tenant in c.quotas && |TenantResidents(p, k.tenant)| < c.quotas[k.tenant] && p.free != {})
      && (o.result.value.admitted ==>
            && k in o.pool.states && o.pool.states[k].slab.Some?
            && var m := o.pool.states[k].slab.value;
               m in p.free && (forall x :: x in p.free ==> m <= x) && o.pool.free == p.free - {m})
  {
    CapacityGuardsCollapse(c, p);
  }

  /** Reclaiming what was just admitted restores the pool. */
  lemma AdmitThenReclaim(c: Config, p: Pool, k: Key, now: real, version: int, later: real, reason: string)
    requires k !in p.states
    requires var o := Admit(c, p, k, now, version); o.result.Ok? && o.result.value.admitted
    requires Reclaim(Admit(c, p, k, now, version).pool, k, later, reason).result.Ok?
    ensures Reclaim(Admit(c, p, k, now, version).pool, k, later, reason).pool == p
  {
    var mid := Admit(c, p, k, now, version).pool;
    assert SlabsOf(mid, {k}) == {Least(p.free)};
    assert mid.free + {Least(p.free)} == p.free;
    assert mid.states - {k} == p.states;
  }

  lemma OverwriteTwice(m: map<Key, Cohort>, k: Key, a: Cohort, b: Cohort)
    ensures m[k := a][k := b] == m[k := b]
  {
  }

  /** A release after an acquire leaves nothing but the time of last use. */
  lemma AcquireThenRelease(c: Config, p: Pool, k: Key, now: real, later: real)
    requires Acquire(c, p, k, now).result.Ok? && later >= 0.0
    ensures var o := Release(c, Acquire(c, p, k, now).pool, k, later);
      && o.result.Ok?
      && o.pool == p.(states := p.states[k := p.states[k].(lastUsedAt := Max(Max(p.states[k].lastUsedAt, now), later))])
  {
    var mid := Acquire(c, p, k, now).pool;
    OverwriteTwice(p.states, k, mid.states[k], Release(c, mid, k, later).pool.states[k]);
  }

  /** A restore after an offload cannot fail for want of a slab, keeps everything
      but the slab and the time of last use, and returns the very slab given up
      exactly when no lower one was free. */
  lemma OffloadThenRestore(c: Config, p: Pool, k: Key, t1: real, t2: real, t3: real, t4: real)
    requires Inv(c, p) && Offload(c, p, k, t1, t2).result.Ok? && TransferCheck(c, t3, t4).None?
    ensures var s, o := p.states[k], Restore(c, Offload(c, p, k, t1, t2).pool, k, t3, t4);
      && s.slab.Some? && o.result.Ok? && k in o.pool.states
      && o.pool.states == p.states[k := s.(slab := o.pool.states[k].slab, lastUsedAt := Max(Max(s.lastUsedAt, t2), t4))]
      && |o.pool.free| == |p.free|
      && (o.pool.states[k].slab == s.slab <==> forall x :: x in p.free ==> s.slab.value < x)
      && (o.pool.states[k].slab == s.slab ==> o.pool.free == p.free)
  {
    var s, mid := p.states[k], Offload(c, p, k, t1, t2).pool;
    assert s.slab.value in mid.free && s.slab.value !in p.free;
    var m := Least(mid.free);
    OverwriteTwice(p.states, k, mid.states[k], Restore(c, mid, k, t3, t4).pool.states[k]);
    assert |mid.free| == |p.free| + 1;
    assert m == s.slab.value ==> mid.free - {m} == p.free;
  }
}
