/** LatestSignalBatch: one latest signal per request, against the list of the
    offers it has received since it last let go of them. */
module SignalBatch {
  import opened Wrappers
  import opened Orders

  datatype Signal = Signal(
    cohort: string, request: string, sequence: nat, sourceVersion: nat, slot: nat,
    tensors: seq<nat>, validPositions: nat)

  datatype Error = CrossCohort

  predicate Accepts(m: map<string, Signal>, s: Signal) {
    s.request in m ==> s.sequence > m[s.request].sequence
  }

  function Offered(m: map<string, Signal>, s: Signal): map<string, Signal> {
    if Accepts(m, s) then m[s.request := s] else m
  }

  function Fold(offers: seq<Signal>): map<string, Signal> {
    if offers == [] then map[] else Offered(Fold(offers[..|offers| - 1]), offers[|offers| - 1])
  }

  /** s is the first of the offers for its request with the greatest sequence number. */
  ghost predicate FirstGreatest(offers: seq<Signal>, i: nat) {
    && i < |offers|
    && (forall j :: 0 <= j < |offers| && offers[j].request == offers[i].request ==>
          offers[j].sequence <= offers[i].sequence)
    && (forall j :: 0 <= j < i && offers[j].request == offers[i].request ==> offers[j].sequence < offers[i].sequence)
  }

  ghost predicate Offers(offers: seq<Signal>, r: string) {
    exists i :: 0 <= i < |offers| && offers[i].request == r
  }

  /** The batch holds an entry for exactly the requests offered, and the entry is
      the first offer with the greatest sequence number. */
  lemma {:induction false} FoldIsFirstGreatest(offers: seq<Signal>, r: string) returns (i: nat)
    ensures r in Fold(offers) <==> Offers(offers, r)
    ensures r in Fold(offers) ==> FirstGreatest(offers, i) && offers[i].request == r && Fold(offers)[r] == offers[i]
  {
    i := 0;
    if offers != [] {
      var n := |offers| - 1;
      var t, s := offers[..n], offers[n];
      i := FoldIsFirstGreatest(t, r);
      if Offers(t, r) {
        var k :| 0 <= k < |t| && t[k].request == r;
        assert offers[k].request == r;
      }
      if s.request == r {
        assert offers[n].request == r;
        if Accepts(Fold(t), s) {
          if r !in Fold(t) {
            assert forall j :: 0 <= j < n ==> t[j].request != r;
          }
          assert forall j :: 0 <= j < n ==> offers[j] == t[j];
          i := n;
        }
      } else if Offers(offers, r) {
        var k :| 0 <= k < |offers| && offers[k].request == r;
        assert t[k].request == r;
      }
    }
  }

  ghost predicate DistinctSequences(offers: seq<Signal>) {
    forall i, j :: 0 <= i < j < |offers| && offers[i].request == offers[j].request ==>
      offers[i].sequence != offers[j].sequence
  }

  lemma GreatestOf(offers: seq<Signal>, r: string)
    ensures r in Fold(offers) <==> exists s :: s in offers && s.request == r
    ensures r in Fold(offers) ==> Fold(offers)[r] in offers && Fold(offers)[r].request == r
    ensures r in Fold(offers) ==>
      forall s :: s in offers && s.request == r ==> s.sequence <= Fold(offers)[r].sequence
  {
    var i := FoldIsFirstGreatest(offers, r);
    if s :| s in offers && s.request == r {
      var k :| 0 <= k < |offers| && offers[k] == s;
    }
  }

  lemma SameGreatest(a: seq<Signal>, b: seq<Signal>, r: string)
    requires DistinctSequences(a) && forall s :: s in a <==> s in b
    ensures r in Fold(a) <==> r in Fold(b)
    ensures r in Fold(a) ==> Fold(a)[r] == Fold(b)[r]
  {
    GreatestOf(a, r);
    GreatestOf(b, r);
    if r in Fold(a) && r in Fold(b) {
      var x, y := Fold(a)[r], Fold(b)[r];
      var i :| 0 <= i < |a| && a[i] == x;
      var j :| 0 <= j < |a| && a[j] == y;
      assert x.sequence == y.sequence && x.request == y.request;
      assert !(i < j) && !(j < i);
    }
  }

  /** Offers with distinct sequence numbers per request may arrive in any order. */
  lemma OfferOrderIrrelevant(a: seq<Signal>, b: seq<Signal>)
    requires multiset(a) == multiset(b) && DistinctSequences(a)
    ensures Fold(a) == Fold(b)
  {
    assert forall s :: s in a <==> s in multiset(a);
    assert forall s :: s in b <==> s in multiset(b);
    forall r ensures (r in Fold(a) <==> r in Fold(b)) && (r in Fold(a) ==> Fold(a)[r] == Fold(b)[r]) {
      SameGreatest(a, b, r);
    }
  }

  /** The offers left when those of one request are forgotten. */
  function Without(offers: seq<Signal>, r: string): seq<Signal> {
    if offers == [] then []
    else
      var t, s := Without(offers[..|offers| - 1], r), offers[|offers| - 1];
      if s.request == r then t else t + [s]
  }

  lemma {:induction false} FoldWithout(offers: seq<Signal>, r: string)
    ensures Fold(Without(offers, r)) == Fold(offers) - {r}
  {
    if offers != [] {
      var n := |offers| - 1;
      FoldWithout(offers[..n], r);
      if offers[n].request != r {
        var w := Without(offers[..n], r);
        assert (w + [offers[n]])[..|w|] == w;
      }
    }
  }

  lemma {:induction false} FoldKeyed(offers: seq<Signal>)
    ensures forall r :: r in Fold(offers) ==> Fold(offers)[r].request == r
  {
    if offers != [] { FoldKeyed(offers[..|offers| - 1]); }
  }

  function Listed(m: map<string, Signal>, rs: seq<string>): seq<Signal>
    requires forall r :: r in rs ==> r in m
  {
    seq(|rs|, i requires 0 <= i < |rs| => m[rs[i]])
  }

  /** What a drain hands out: every entry once, in order of request. */
  ghost function Drained(m: map<string, Signal>): seq<Signal> {
    Listed(m, SortedStrings(m.Keys))
  }

  /** A drained batch has one signal per request, sorted by request. */
  lemma DrainedSorted(offers: seq<Signal>)
    ensures var m := Fold(offers);
      var q := Drained(m);
      && |q| == |m|
      && (forall i, j :: 0 <= i < j < |q| ==> q[i].request != q[j].request && StringLeq(q[i].request, q[j].request))
      && (forall r :: r in m ==> m[r] in q)
  {
    var m := Fold(offers);
    FoldKeyed(offers);
    var rs := SortedStrings(m.Keys);
    forall i, j | 0 <= i < j < |rs|
      ensures Drained(m)[i].request != Drained(m)[j].request && StringLeq(Drained(m)[i].request, Drained(m)[j].request)
    {
      assert rs[i] in m.Keys && rs[j] in m.Keys;
    }
    forall r | r in m ensures m[r] in Drained(m) {
      var i :| 0 <= i < |rs| && rs[i] == r;
      assert Drained(m)[i] == m[r];
    }
  }

  /** Two batches that received the same offers in different orders drain alike. */
  lemma DrainOrderIrrelevant(a: seq<Signal>, b: seq<Signal>)
    requires multiset(a) == multiset(b) && DistinctSequences(a)
    ensures Drained(Fold(a)) == Drained(Fold(b))
  {
    OfferOrderIrrelevant(a, b);
  }

  /** The weight of each of n signals: they add up to one. */
  function Weight(n: nat): (w: real)
    ensures n > 0 ==> n as real * w == 1.0
  {
    if n == 0 then 0.0 else 1.0 / n as real
  }

  class LatestSignalBatch {
    const cohort: string
    var signals: map<string, Signal>
    /** The offers made since the last drain, without those of discarded requests. */
    ghost var offers: seq<Signal>

    ghost predicate Valid()
      reads this
    {
      signals == Fold(offers) && forall s :: s in offers ==> s.cohort == cohort
    }

    constructor (cohort: string)
      ensures Valid() && this.cohort == cohort && offers == [] && signals == map[]
    {
      this.cohort := cohort;
      signals := map[];
      offers := [];
    }

    method Offer(s: Signal) returns (r: Result<bool, Error>)
      requires Valid()
      modifies this
      ensures Valid()
      ensures s.cohort != cohort ==> r == Err(CrossCohort) && offers == old(offers) && signals == old(signals)
      ensures s.cohort == cohort ==> r == Ok(Accepts(old(signals), s)) && offers == old(offers) + [s]
      ensures s.cohort == cohort ==> signals == Offered(old(signals), s)
    {
      if s.cohort != cohort {
        return Err(CrossCohort);
      }
      offers := offers + [s];
      assert offers[..|offers| - 1] == old(offers);
      if s.request in signals && s.sequence <= signals[s.request].sequence {
        return Ok(false);
      }
      signals := signals[s.request := s];
      r := Ok(true);
    }

    method Drain() returns (ordered: seq<Signal>, weight: real)
      requires Valid()
      modifies this
      ensures Valid() && offers == [] && signals == map[]
      ensures ordered == Drained(old(signals))
      ensures weight == Weight(|ordered|)
    {
      if signals == map[] {
        assert SortedStrings(signals.Keys) == [];
        offers := [];
        return [], 0.0;
      }
      var requests := SortStrings(signals.Keys);
      ordered := Listed(signals, requests);
      signals := map[];
      offers := [];
      weight := 1.0 / |ordered| as real;
    }

    method DiscardRequest(r: string)
      requires Valid()
      modifies this
      ensures Valid() && offers == Without(old(offers), r) && signals == old(signals) - {r}
    {
      FoldWithout(offers, r);
      WithoutSubset(offers, r);
      offers := Without(offers, r);
      signals := signals - {r};
    }
  }

  lemma {:induction false} WithoutSubset(offers: seq<Signal>, r: string)
    ensures forall s :: s in Without(offers, r) ==> s in offers
  {
    if offers != [] { WithoutSubset(offers[..|offers| - 1], r); }
  }
}
