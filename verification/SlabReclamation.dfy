/** Exact reclamation: which states go, in which order, and what that frees. */
module SlabReclamation {
  import opened Wrappers
  import opened Orders
  import opened SlabModel
  import opened SlabInvariants

  lemma LruListing(p: Pool) returns (q: seq<Rank>)
    ensures Total(RankLeq) && q == Ascending(RankLeq, LruRanks(p)) && |q| == |Inactive(p)|
    ensures forall i :: 0 <= i < |q| ==> q[i].key in Inactive(p) && q[i] == LruRank(p, q[i].key)
    ensures forall k :: k in Inactive(p) ==> LruRank(p, k) in q
  {
    RankOrder();
    q := Ascending(RankLeq, LruRanks(p));
    ListingLength(RankLeq, LruRanks(p), q);
    ImageSize(p, Inactive(p));
    forall i | 0 <= i < |q| ensures q[i].key in Inactive(p) && q[i] == LruRank(p, q[i].key) {
      assert q[i] in LruRanks(p);
    }
    forall k | k in Inactive(p) ensures LruRank(p, k) in q { assert LruRank(p, k) in LruRanks(p); }
  }

  lemma {:induction false} ImageSize(p: Pool, ks: set<Key>)
    requires ks <= p.states.Keys
    ensures |set k | k in ks :: LruRank(p, k)| == |ks|
    decreases |ks|
  {
    if ks != {} {
      var k :| k in ks;
      ImageSize(p, ks - {k});
      assert (set j | j in ks :: LruRank(p, j)) == (set j | j in ks - {k} :: LruRank(p, j)) + {LruRank(p, k)};
    }
  }

  // ----- the order, field by field -----

  /** k is before r by tenant, then cohort, then replica. */
  ghost predicate KeyBefore(k: Key, r: Key) {
    if k.tenant != r.tenant then Alphabetical(k.tenant, r.tenant)
    else if k.cohort != r.cohort then Alphabetical(k.cohort, r.cohort)
    else k.replica < r.replica
  }

  /** k was used before r, or was created before it when used at the same time,
      or is before it by key when created at the same time too. */
  ghost predicate UsedBefore(p: Pool, k: Key, r: Key)
    requires k in p.states && r in p.states
  {
    var a, b := p.states[k], p.states[r];
    || a.lastUsedAt < b.lastUsedAt
    || (a.lastUsedAt == b.lastUsedAt && a.createdAt < b.createdAt)
    || (a.lastUsedAt == b.lastUsedAt && a.createdAt == b.createdAt && KeyBefore(k, r))
  }

  /** The order of expiry: by last use, then by key. */
  ghost predicate ExpiresBefore(p: Pool, k: Key, r: Key)
    requires k in p.states && r in p.states
  {
    var a, b := p.states[k], p.states[r];
    a.lastUsedAt < b.lastUsedAt || (a.lastUsedAt == b.lastUsedAt && KeyBefore(k, r))
  }

  lemma KeyLeqExactly(k: Key, r: Key)
    ensures k != r ==> (KeyLeq(k, r) <==> KeyBefore(k, r))
    ensures !KeyBefore(k, k)
  {
    StringLeqExactly(k.tenant, r.tenant);
    StringLeqExactly(k.cohort, r.cohort);
  }

  lemma OrderOnFields(p: Pool, k: Key, r: Key)
    requires k in p.states && r in p.states
    ensures UsedBefore(p, k, r) <==> k != r && RankLeq(LruRank(p, k), LruRank(p, r))
    ensures ExpiresBefore(p, k, r) <==> k != r && RankLeq(ExpiryRank(p, k), ExpiryRank(p, r))
  {
    KeyLeqExactly(k, r);
  }

  // ----- least recently used -----

  /** k comes before r in the order of least recent use. */
  ghost predicate Precedes(p: Pool, k: Key, r: Key) {
    k in p.states && r in p.states && RankLeq(LruRank(p, k), LruRank(p, r))
  }

  lemma LruVictimsListed(p: Pool, count: nat)
    ensures var ks := LruVictims(p, count);
      && |ks| == (if count <= |Inactive(p)| then count else |Inactive(p)|)
      && (forall i :: 0 <= i < |ks| ==> ks[i] in Inactive(p))
      && (forall i, j :: 0 <= i < j < |ks| ==> ks[i] != ks[j] && Precedes(p, ks[i], ks[j]))
  {
    var q := LruListing(p);
    var ks := LruVictims(p, count);
    forall i, j | 0 <= i < j < |ks| ensures ks[i] != ks[j] && Precedes(p, ks[i], ks[j]) {
      assert ks[i] == q[i].key && ks[j] == q[j].key;
      assert RankLeq(q[i], q[j]) && q[i] != q[j];
    }
  }

  lemma VictimsHeadListing(p: Pool, count: nat, q: seq<Rank>)
    requires Total(RankLeq) && q == Ascending(RankLeq, LruRanks(p))
    ensures |LruVictims(p, count)| <= |q|
    ensures forall i :: 0 <= i < |LruVictims(p, count)| ==> LruVictims(p, count)[i] == q[i].key
  {
  }

  lemma LruVictimsFirst(p: Pool, count: nat, k: Key, r: Key)
    requires k in LruVictims(p, count) && r in Inactive(p) && r !in LruVictims(p, count)
    ensures Precedes(p, k, r)
  {
    var q := LruListing(p);
    var ks := LruVictims(p, count);
    var i :| 0 <= i < |ks| && ks[i] == k;
    var j :| 0 <= j < |q| && q[j] == LruRank(p, r);
    VictimsHeadListing(p, count, q);
    assert i < j && RankLeq(q[i], q[j]);
  }

  ghost predicate Reported(rs: seq<Receipt>, k: Key) {
    exists i :: 0 <= i < |rs| && rs[i].key == k
  }

  /** The outcome removes exactly the states its receipts report, each once with
      its slab, the reason and the time; it frees exactly those slabs and leaves
      every other state as it was. */
  ghost predicate RemovesReported(p: Pool, o: Outcome<seq<Receipt>>, reason: string, now: real) {
    && o.result.Ok?
    && var rs := o.result.value;
    && (forall i :: 0 <= i < |rs| ==>
          rs[i].key in p.states && rs[i].slab == p.states[rs[i].key].slab && rs[i].reason == reason && rs[i].at == now)
    && (forall i, j :: 0 <= i < j < |rs| ==> rs[i].key != rs[j].key)
    && (forall k :: k in o.pool.states <==> k in p.states && !Reported(rs, k))
    && (forall k :: k in o.pool.states ==> o.pool.states[k] == p.states[k])
    && (forall x: nat :: x in o.pool.free <==> x in p.free || exists i :: 0 <= i < |rs| && rs[i].slab == Some(x))
  }

  lemma ReportedExactly(p: Pool, ks: seq<Key>, reason: string, now: real, k: Key)
    ensures Reported(Receipts(p, ks, reason, now), k) <==> k in ks
  {
    var rs := Receipts(p, ks, reason, now);
    if k in ks {
      var i :| 0 <= i < |ks| && ks[i] == k;
      assert rs[i].key == k;
    }
  }

  lemma FreedExactly(p: Pool, ks: seq<Key>, reason: string, now: real, x: nat)
    requires forall i :: 0 <= i < |ks| ==> ks[i] in p.states
    ensures var rs := Receipts(p, ks, reason, now);
      x in SlabsOf(p, SetOf(ks)) <==> exists i :: 0 <= i < |rs| && rs[i].slab == Some(x)
  {
    var rs := Receipts(p, ks, reason, now);
    if x in SlabsOf(p, SetOf(ks)) {
      var k :| k in SetOf(ks) && k in p.states && p.states[k].slab == Some(x);
      var i :| 0 <= i < |ks| && ks[i] == k;
      assert rs[i].slab == Some(x);
    }
    if i :| 0 <= i < |rs| && rs[i].slab == Some(x) {
      assert ks[i] in SetOf(ks);
    }
  }

  lemma EvictReports(p: Pool, ks: seq<Key>, reason: string, now: real)
    requires forall i :: 0 <= i < |ks| ==> ks[i] in p.states
    requires forall i, j :: 0 <= i < j < |ks| ==> ks[i] != ks[j]
    ensures RemovesReported(p, Outcome(Evict(p, SetOf(ks)), Ok(Receipts(p, ks, reason, now))), reason, now)
  {
    forall k ensures Reported(Receipts(p, ks, reason, now), k) <==> k in SetOf(ks) {
      ReportedExactly(p, ks, reason, now, k);
    }
    forall x: nat
      ensures x in SlabsOf(p, SetOf(ks)) <==>
        exists i :: 0 <= i < |ks| && Receipts(p, ks, reason, now)[i].slab == Some(x)
    {
      FreedExactly(p, ks, reason, now, x);
    }
  }

  /** LRU reclamation cannot fail part-way.  It reports, in the order of last use,
      creation and key, exactly min(count, inactive) inactive states, each before
      every inactive state it leaves, and removes just those. */
  lemma LruExact(p: Pool, count: nat, now: real)
    requires count >= 1 && now >= 0.0
    ensures RemovesReported(p, ReclaimLru(p, count, now), "lru_reclaimed", now)
    ensures var rs := ReclaimLru(p, count, now).result.value;
      && |rs| == (if count <= |Inactive(p)| then count else |Inactive(p)|)
      && (forall i :: 0 <= i < |rs| ==> p.states[rs[i].key].active == 0)
      && (forall i, j :: 0 <= i < j < |rs| ==> UsedBefore(p, rs[i].key, rs[j].key))
      && (forall i, r :: 0 <= i < |rs| && r in p.states && p.states[r].active == 0 && !Reported(rs, r) ==>
            UsedBefore(p, rs[i].key, r))
  {
    var ks := LruVictims(p, count);
    LruVictimsListed(p, count);
    EvictReports(p, ks, "lru_reclaimed", now);
    var rs := ReclaimLru(p, count, now).result.value;
    forall i, j | 0 <= i < j < |rs| ensures UsedBefore(p, rs[i].key, rs[j].key) {
      assert ks[i] != ks[j] && Precedes(p, ks[i], ks[j]);
      OrderOnFields(p, ks[i], ks[j]);
    }
    forall i, r | 0 <= i < |rs| && r in p.states && p.states[r].active == 0 && !Reported(rs, r)
      ensures UsedBefore(p, rs[i].key, r)
    {
      ReportedExactly(p, ks, "lru_reclaimed", now, r);
      assert ks[i] in ks;
      LruVictimsFirst(p, count, ks[i], r);
      OrderOnFields(p, ks[i], r);
    }
  }

  lemma {:induction false} DistinctSize(ks: seq<Key>)
    requires forall i, j :: 0 <= i < j < |ks| ==> ks[i] != ks[j]
    ensures |SetOf(ks)| == |ks|
  {
    if ks != [] {
      var t := ks[..|ks| - 1];
      DistinctSize(t);
      assert SetOf(ks) == SetOf(t) + {ks[|ks| - 1]};
    }
  }

  lemma EvictFrees(c: Config, p: Pool, ks: set<Key>)
    requires Inv(c, p)
    ensures |Evict(p, ks).free| == |p.free| + |ks * Residents(p)|
  {
    EvictKeeps(c, p, ks);
    assert Residents(Evict(p, ks)) == Residents(p) - ks * Residents(p);
  }

  /** The inactive states that LRU reclamation takes before k. */
  ghost function Ahead(p: Pool, k: Key): set<Key>
    requires k in p.states
  {
    set j | j in p.states && p.states[j].active == 0 && UsedBefore(p, j, k)
  }

  /** q lists the inactive states of p in the order of least recent use. */
  ghost predicate ListsInactive(p: Pool, q: seq<Rank>) {
    && Total(RankLeq) && Ascends(RankLeq, q)
    && (forall j :: 0 <= j < |q| ==> q[j].key in Inactive(p) && q[j] == LruRank(p, q[j].key))
    && (forall k :: k in Inactive(p) ==> LruRank(p, k) in q)
  }

  lemma PlaceOf(p: Pool, q: seq<Rank>, n: nat, i: nat)
    requires ListsInactive(p, q) && i < |q| && n <= |q|
    ensures q[i].key in KeysOf(q[..n]) <==> i < n
  {
    var ks := KeysOf(q[..n]);
    if q[i].key in ks {
      var m :| 0 <= m < |ks| && ks[m] == q[i].key;
      assert q[m] == q[i];
      AscendsExactly(RankLeq, q, i, m);
    }
    assert i < n ==> ks[i] == q[i].key;
  }

  lemma AheadAt(p: Pool, q: seq<Rank>, i: nat, k: Key)
    requires ListsInactive(p, q) && i < |q| && k in Inactive(p)
    ensures k in Ahead(p, q[i].key) <==> k in KeysOf(q[..i])
  {
    var j :| 0 <= j < |q| && q[j] == LruRank(p, k);
    PlaceOf(p, q, i, j);
    AscendsExactly(RankLeq, q, j, i);
    OrderOnFields(p, k, q[i].key);
  }

  lemma AheadListed(p: Pool, q: seq<Rank>, i: nat)
    requires ListsInactive(p, q) && i < |q|
    ensures Ahead(p, q[i].key) == SetOf(KeysOf(q[..i]))
  {
    forall k | k in Inactive(p) ensures k in Ahead(p, q[i].key) <==> k in KeysOf(q[..i]) { AheadAt(p, q, i, k); }
  }

  lemma KeysDistinct(p: Pool, q: seq<Rank>)
    requires Ascends(RankLeq, q) && forall j :: 0 <= j < |q| ==> q[j].key in p.states && q[j] == LruRank(p, q[j].key)
    ensures forall i, j :: 0 <= i < j < |q| ==> KeysOf(q)[i] != KeysOf(q)[j]
  {
  }

  lemma AheadSize(p: Pool, q: seq<Rank>, i: nat)
    requires ListsInactive(p, q) && i < |q|
    ensures |Ahead(p, q[i].key)| == i
  {
    AheadListed(p, q, i);
    KeysDistinct(p, q[..i]);
    DistinctSize(KeysOf(q[..i]));
  }

  /** An inactive state is a victim exactly when fewer than count are ahead of it. */
  lemma VictimExactly(p: Pool, count: nat, k: Key)
    requires k in Inactive(p)
    ensures k in LruVictims(p, count) <==> |Ahead(p, k)| < count
  {
    var q := LruListing(p);
    var i :| 0 <= i < |q| && q[i] == LruRank(p, k);
    AheadSize(p, q, i);
    PlaceOf(p, q, if count <= |q| then count else |q|, i);
    assert q[..|q|] == q;
  }

  /** LRU reclamation frees one slab per resident victim, so it frees as many
      slabs as it removes states exactly when every offloaded state has at least
      count inactive ones ahead of it. */
  lemma LruSlabsFreed(c: Config, p: Pool, count: nat, now: real)
    requires Inv(c, p) && count >= 1 && now >= 0.0
    ensures var gone, p' := SetOf(LruVictims(p, count)), ReclaimLru(p, count, now).pool;
      && |p'.free| - |p.free| == |gone * Residents(p)|
      && |p.states| - |p'.states| == |gone|
    ensures var p' := ReclaimLru(p, count, now).pool;
      |p'.free| - |p.free| == |p.states| - |p'.states| <==> forall k :: k in Offloaded(p) ==> |Ahead(p, k)| >= count
  {
    var gone := SetOf(LruVictims(p, count));
    LruVictimsListed(p, count);
    EvictFrees(c, p, gone);
    EvictRemoves(p, gone);
    ResidentVictims(c, p, gone);
    NoColdVictims(c, p, count);
  }

  lemma EvictRemoves(p: Pool, ks: set<Key>)
    requires ks <= p.states.Keys
    ensures |p.states| - |Evict(p, ks).states| == |ks|
  {
    assert Evict(p, ks).states.Keys == p.states.Keys - ks;
  }

  lemma NoColdVictims(c: Config, p: Pool, count: nat)
    requires Placed(c, p)
    ensures SetOf(LruVictims(p, count)) !! Offloaded(p) <==> forall k :: k in Offloaded(p) ==> |Ahead(p, k)| >= count
  {
    forall k | k in Offloaded(p) ensures k in LruVictims(p, count) <==> |Ahead(p, k)| < count {
      assert Shaped(p.states[k]);
      VictimExactly(p, count, k);
    }
  }

  lemma ResidentVictims(c: Config, p: Pool, ks: set<Key>)
    requires Placed(c, p) && ks <= p.states.Keys
    ensures |ks * Residents(p)| == |ks| <==> ks !! Offloaded(p)
  {
    var warm, cold := ks * Residents(p), ks * Offloaded(p);
    assert ks == warm + cold && warm !! cold;
    assert |ks| == |warm| + |cold|;
  }

  lemma ExpiryListing(c: Config, p: Pool, now: real) returns (q: seq<Rank>)
    ensures Total(RankLeq) && q == Ascending(RankLeq, ExpiryRanks(c, p, now))
    ensures forall i :: 0 <= i < |q| ==> q[i].key in Expired(c, p, now) && q[i] == ExpiryRank(p, q[i].key)
    ensures forall k :: k in Expired(c, p, now) ==> ExpiryRank(p, k) in q
  {
    RankOrder();
    q := Ascending(RankLeq, ExpiryRanks(c, p, now));
    forall i | 0 <= i < |q| ensures q[i].key in Expired(c, p, now) && q[i] == ExpiryRank(p, q[i].key) {
      assert q[i] in ExpiryRanks(c, p, now);
    }
    forall k | k in Expired(c, p, now) ensures ExpiryRank(p, k) in q {
      assert ExpiryRank(p, k) in ExpiryRanks(c, p, now);
    }
  }

  lemma ExpiryVictimsListed(c: Config, p: Pool, now: real)
    ensures var ks := ExpiryVictims(c, p, now);
      && SetOf(ks) == Expired(c, p, now)
      && (forall i, j :: 0 <= i < j < |ks| ==>
            ks[i] != ks[j] && ks[i] in p.states && ks[j] in p.states
            && RankLeq(ExpiryRank(p, ks[i]), ExpiryRank(p, ks[j])))
  {
    var q := ExpiryListing(c, p, now);
    var ks := ExpiryVictims(c, p, now);
    forall k | k in Expired(c, p, now) ensures k in ks {
      var i :| 0 <= i < |q| && q[i] == ExpiryRank(p, k);
      assert ks[i] == k;
    }
  }

  /** Expiry cannot fail part-way.  It removes exactly the inactive states past
      their deadline and reports each once, in the order of last use and key. */
  lemma ExpiryExact(c: Config, p: Pool, now: real)
    requires now >= 0.0
    ensures RemovesReported(p, ReclaimExpired(c, p, now), "ttl_expired", now)
    ensures var o := ReclaimExpired(c, p, now);
      var rs := o.result.value;
      && (forall k :: k in o.pool.states <==>
            k in p.states && !(p.states[k].active == 0 && now >= p.states[k].lastUsedAt + c.ttl))
      && (forall i, j :: 0 <= i < j < |rs| ==> ExpiresBefore(p, rs[i].key, rs[j].key))
  {
    var ks := ExpiryVictims(c, p, now);
    ExpiryVictimsListed(c, p, now);
    forall i | 0 <= i < |ks| ensures ks[i] in p.states { assert ks[i] in SetOf(ks); }
    EvictReports(p, ks, "ttl_expired", now);
    forall i, j | 0 <= i < j < |ks| ensures ExpiresBefore(p, ks[i], ks[j]) { OrderOnFields(p, ks[i], ks[j]); }
  }

  lemma ExpireTwiceStates(c: Config, p: Pool, t1: real, t2: real)
    requires t1 <= t2
    ensures var e1 := Expired(c, p, t1);
      var mid := Evict(p, e1);
      && e1 <= Expired(c, p, t2)
      && Expired(c, mid, t2) == Expired(c, p, t2) - e1
      && Evict(mid, Expired(c, mid, t2)) == Evict(p, Expired(c, p, t2))
  {
    var e1, e2 := Expired(c, p, t1), Expired(c, p, t2);
    var mid := Evict(p, e1);
    assert Expired(c, mid, t2) == e2 - e1;
    assert SlabsOf(p, e2) == SlabsOf(p, e1) + SlabsOf(mid, e2 - e1) by {
      forall x | x in SlabsOf(p, e2) ensures x in SlabsOf(p, e1) + SlabsOf(mid, e2 - e1) {
        var k :| k in e2 && p.states[k].slab == Some(x);
        if k !in e1 { assert k in mid.states && mid.states[k].slab == Some(x); }
      }
    }
    assert mid.states - (e2 - e1) == p.states - e2;
  }

  lemma KeysOfConcat(a: seq<Rank>, b: seq<Rank>)
    ensures KeysOf(a + b) == KeysOf(a) + KeysOf(b)
  {
  }

  lemma ExpireTwiceOrder(c: Config, p: Pool, t1: real, t2: real)
    requires t1 <= t2
    ensures ExpiryVictims(c, p, t1) + ExpiryVictims(c, Evict(p, Expired(c, p, t1)), t2) == ExpiryVictims(c, p, t2)
  {
    RankOrder();
    var a, b := ExpiryRanks(c, p, t1), ExpiryRanks(c, Evict(p, Expired(c, p, t1)), t2);
    ExpiryRanksSplit(c, p, t1, t2);
    ListingConcat(RankLeq, a, b);
    KeysOfConcat(Ascending(RankLeq, a), Ascending(RankLeq, b));
  }

  /** Expiring at t1 and then at a later t2 leaves the pool of expiring at t2
      alone, and reclaims the same states in the same order. */
  lemma ExpireTwice(c: Config, p: Pool, t1: real, t2: real)
    requires 0.0 <= t1 <= t2
    ensures var mid := ReclaimExpired(c, p, t1).pool;
      && ReclaimExpired(c, mid, t2).pool == ReclaimExpired(c, p, t2).pool
      && ExpiryVictims(c, p, t1) + ExpiryVictims(c, mid, t2) == ExpiryVictims(c, p, t2)
  {
    ExpireTwiceStates(c, p, t1, t2);
    ExpireTwiceOrder(c, p, t1, t2);
  }

  lemma ExpiryRanksSplit(c: Config, p: Pool, t1: real, t2: real)
    requires t1 <= t2
    ensures var a, b := ExpiryRanks(c, p, t1), ExpiryRanks(c, Evict(p, Expired(c, p, t1)), t2);
      && a + b == ExpiryRanks(c, p, t2)
      && forall x, y :: x in a && y in b ==> RankLeq(x, y) && x != y
  {
    ExpireTwiceStates(c, p, t1, t2);
    var mid := Evict(p, Expired(c, p, t1));
    var a, b := ExpiryRanks(c, p, t1), ExpiryRanks(c, mid, t2);
    forall k | k in mid.states ensures ExpiryRank(mid, k) == ExpiryRank(p, k) { }
    forall k | k in Expired(c, p, t2) ensures ExpiryRank(p, k) in a + b {
      if k !in Expired(c, p, t1) { assert ExpiryRank(mid, k) in b; }
    }
  }
}
