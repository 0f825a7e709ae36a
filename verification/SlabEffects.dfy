/** What each operation on one state does, field by field: to that state, to the
    free slabs, to everything else, and in what it reports. */
module SlabEffects {
  import opened Wrappers
  import opened SlabModel
  import opened SlabInvariants

  /** t is the later of the two times. */
  predicate Later(t: real, a: real, b: real) {
    a <= t && b <= t && (t == a || t == b)
  }

  /** Only the state of k differs between the two pools. */
  ghost predicate OnlyState(p: Pool, q: Pool, k: Key) {
    && k in q.states
    && (forall r :: r != k ==> (r in q.states <==> r in p.states))
    && (forall r :: r != k && r in p.states ==> q.states[r] == p.states[r])
  }

  /** A snapshot shows a state as it is, with the deadline one time to live after
      its last use. */
  predicate Shows(c: Config, n: Snapshot, k: Key, s: Cohort) {
    && n.key == k && n.slab == s.slab && n.slabBytes == s.slabBytes && n.version == s.version
    && n.createdAt == s.createdAt && n.lastUsedAt == s.lastUsedAt && n.expiresAt - n.lastUsedAt == c.ttl
    && n.active == s.active && n.offloaded == s.offloaded
  }

  /** The answer to an admission with legal arguments: why, and what it shows. */
  lemma AdmissionReasons(c: Config, p: Pool, k: Key, now: real, version: int)
    requires Inv(c, p) && now >= 0.0 && version >= 0
    ensures var o := Admit(c, p, k, now, version);
      && o.result.Ok?
      && var a := o.result.value;
      var known := k.tenant in c.quotas;
      && (a.reason == RestoreRequired <==> k in p.states && p.states[k].offloaded)
      && (a.reason == AlreadyResident <==> k in p.states && !p.states[k].offloaded)
      && (a.reason == UnknownTenant <==> k !in p.states && !known)
      && (a.reason == TenantQuota <==> k !in p.states && known && |TenantResidents(p, k.tenant)| >= c.quotas[k.tenant])
      && (a.reason == Capacity <==>
            k !in p.states && known && |TenantResidents(p, k.tenant)| < c.quotas[k.tenant] && p.free == {})
      && (a.admitted <==> a.reason == Admitted || a.reason == AlreadyResident)
      && (!a.admitted ==> o.pool == p)
      && (a.state.Some? <==> k in o.pool.states)
      && (a.state.Some? ==> Shows(c, a.state.value, k, o.pool.states[k]))
  {
    CapacityGuardsCollapse(c, p);
  }

  /** What an admission leaves: a resident state with a later use, or a new one,
      unpinned, on a slab taken from the free ones. */
  lemma AdmissionEffect(c: Config, p: Pool, k: Key, now: real, version: int)
    requires var r := Admit(c, p, k, now, version).result; r.Ok? && r.value.admitted
    ensures var q := Admit(c, p, k, now, version).pool;
      && OnlyState(p, q, k)
      && var s := q.states[k];
      if k in p.states then
        && q.free == p.free && Later(s.lastUsedAt, p.states[k].lastUsedAt, now)
        && s == p.states[k].(lastUsedAt := s.lastUsedAt)
      else
        && s.slab.Some? && s.slab.value in p.free && q.free == p.free - {s.slab.value}
        && s.slabBytes == c.slabBytes && s.version == version && s.active == 0 && !s.offloaded
        && s.createdAt == now && s.lastUsedAt == now
  {
  }

  lemma AcquireEffect(c: Config, p: Pool, k: Key, now: real)
    ensures var o := Acquire(c, p, k, now);
      && (o.result.Ok? <==> now >= 0.0 && k in p.states && !p.states[k].offloaded && p.states[k].slab.Some?)
      && (o.result.Ok? ==>
            && OnlyState(p, o.pool, k) && o.pool.free == p.free
            && var s, t := p.states[k], o.pool.states[k];
            && t == s.(active := s.active + 1, lastUsedAt := t.lastUsedAt) && Later(t.lastUsedAt, s.lastUsedAt, now)
            && Shows(c, o.result.value, k, t))
      && (o.result.Err? ==> o.pool == p)
  {
  }

  lemma ReleaseEffect(c: Config, p: Pool, k: Key, now: real)
    ensures var o := Release(c, p, k, now);
      && (o.result.Ok? <==> now >= 0.0 && k in p.states && p.states[k].active > 0)
      && (o.result.Ok? ==>
            && OnlyState(p, o.pool, k) && o.pool.free == p.free
            && var s, t := p.states[k], o.pool.states[k];
            && s.active == t.active + 1
            && t == s.(active := t.active, lastUsedAt := t.lastUsedAt) && Later(t.lastUsedAt, s.lastUsedAt, now)
            && Shows(c, o.result.value, k, t))
      && (o.result.Err? ==> o.pool == p)
  {
  }

  lemma PublishEffect(c: Config, p: Pool, k: Key, source: int, next: int, now: real)
    ensures var o := Publish(c, p, k, source, next, now);
      && (o.result.Ok? <==>
            && now >= 0.0 && k in p.states && !p.states[k].offloaded
            && p.states[k].version == source && next == source + 1)
      && (o.result.Ok? ==>
            && OnlyState(p, o.pool, k) && o.pool.free == p.free
            && var s, t := p.states[k], o.pool.states[k];
            && t == s.(version := s.version + 1, lastUsedAt := t.lastUsedAt) && Later(t.lastUsedAt, s.lastUsedAt, now)
            && Shows(c, o.result.value, k, t))
      && (o.result.Err? ==> o.pool == p)
  {
  }

  /** A reclamation removes the state, frees the slab it held and reports both. */
  lemma ReclaimEffect(p: Pool, k: Key, now: real, reason: string)
    requires Reclaim(p, k, now, reason).result.Ok?
    ensures var o := Reclaim(p, k, now, reason);
      && k in p.states && p.states[k].active == 0
      && o.pool.states == p.states - {k}
      && o.pool.free == (if p.states[k].slab.Some? then p.free + {p.states[k].slab.value} else p.free)
      && o.result.value == Receipt(k, p.states[k].slab, reason, now)
  {
    var slab := p.states[k].slab;
    assert SlabsOf(p, {k}) == if slab.Some? then {slab.value} else {};
  }

  /** What a transfer reports: the slab given up or taken, all its bytes, its times. */
  predicate Transfers(c: Config, t: Transfer, k: Key, slab: Option<nat>, bytes: int, started: real, completed: real) {
    && t.key == k && slab == Some(t.slab) && t.bytes == bytes
    && t.started == started && t.completed == completed && t.mode == c.mode
  }

  lemma OffloadEffect(c: Config, p: Pool, k: Key, started: real, completed: real)
    ensures var o := Offload(c, p, k, started, completed);
      && (o.result.Ok? <==>
            && c.mode == ColdInactiveTimed && 0.0 <= started <= completed && k in p.states
            && p.states[k].active == 0 && p.states[k].slab.Some? && !p.states[k].offloaded
            && |Offloaded(p)| < c.offloadedCapacity)
      && (o.result.Ok? ==>
            && OnlyState(p, o.pool, k)
            && var s, t, x := p.states[k], o.pool.states[k], o.result.value;
            && o.pool.free == p.free + {s.slab.value}
            && t == s.(slab := None, offloaded := true, lastUsedAt := t.lastUsedAt)
            && Later(t.lastUsedAt, s.lastUsedAt, completed)
            && Transfers(c, x, k, s.slab, s.slabBytes, started, completed) && x.operation == "cold_offload")
      && (o.result.Err? ==> o.pool == p)
  {
  }

  lemma RestoreEffect(c: Config, p: Pool, k: Key, started: real, completed: real)
    ensures var o := Restore(c, p, k, started, completed);
      && (o.result.Ok? <==>
            && c.mode == ColdInactiveTimed && 0.0 <= started <= completed && k in p.states
            && p.states[k].offloaded && p.states[k].slab.None? && p.free != {})
      && (o.result.Ok? ==>
            && OnlyState(p, o.pool, k)
            && var s, t, x := p.states[k], o.pool.states[k], o.result.value;
            && t.slab.Some? && t.slab.value in p.free && (forall m :: m in p.free ==> t.slab.value <= m)
            && o.pool.free == p.free - {t.slab.value}
            && t == s.(slab := t.slab, offloaded := false, lastUsedAt := t.lastUsedAt)
            && Later(t.lastUsedAt, s.lastUsedAt, completed)
            && Transfers(c, x, k, t.slab, s.slabBytes, started, completed) && x.operation == "cold_restore")
      && (o.result.Err? ==> o.pool == p)
  {
  }
}
