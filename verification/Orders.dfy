/** Total orders, the ascending listing of a finite set, and the lexicographic
    order on strings.  Everything the system sorts is sorted by one of these. */
module Orders {

  ghost predicate Total<T(!new)>(leq: (T, T) -> bool) {
    && (forall x, y :: leq(x, y) || leq(y, x))
    && (forall x, y :: leq(x, y) && leq(y, x) ==> x == y)
    && (forall x, y, z :: leq(x, y) && leq(y, z) ==> leq(x, z))
  }

  ghost predicate Ascends<T>(leq: (T, T) -> bool, s: seq<T>) {
    forall i, j :: 0 <= i < j < |s| ==> leq(s[i], s[j]) && s[i] != s[j]
  }

  /** q lists exactly the members of s, in strictly ascending order. */
  ghost predicate Lists<T(!new)>(leq: (T, T) -> bool, s: set<T>, q: seq<T>) {
    Ascends(leq, q) && forall x :: x in q <==> x in s
  }

  /** Positions in an ascending sequence are ordered like its members. */
  lemma AscendsExactly<T(!new)>(leq: (T, T) -> bool, q: seq<T>, i: nat, j: nat)
    requires Total(leq) && Ascends(leq, q) && i < |q| && j < |q|
    ensures leq(q[i], q[j]) <==> i <= j
  {
  }

  function Insert<T(==)>(leq: (T, T) -> bool, x: T, s: seq<T>): (r: seq<T>)
  {
    if s == [] || leq(x, s[0]) then [x] + s else [s[0]] + Insert(leq, x, s[1..])
  }

  lemma {:induction false} InsertLists<T(!new)>(leq: (T, T) -> bool, x: T, s: set<T>, q: seq<T>)
    requires Total(leq) && x !in s && Lists(leq, s, q)
    ensures Lists(leq, s + {x}, Insert(leq, x, q))
    decreases |q|
  {
    if q == [] || leq(x, q[0]) {
      assert forall y :: y in [x] + q <==> y == x || y in q;
      forall i, j | 0 <= i < j < |q| + 1 ensures leq(([x] + q)[i], ([x] + q)[j]) && ([x] + q)[i] != ([x] + q)[j] {
        if i == 0 {
          assert ([x] + q)[j] == q[j - 1] && q[j - 1] in q;
          assert j - 1 == 0 || leq(q[0], q[j - 1]);
        }
      }
    } else {
      var h, t := q[0], q[1..];
      assert forall y :: y in q <==> y == h || y in t;
      assert h !in t;
      InsertLists(leq, x, s - {h}, t);
      var r := Insert(leq, x, t);
      assert forall y :: y in [h] + r <==> y == h || y in r;
      forall i, j | 0 <= i < j < |r| + 1 ensures leq(([h] + r)[i], ([h] + r)[j]) && ([h] + r)[i] != ([h] + r)[j] {
        if i == 0 {
          assert ([h] + r)[j] == r[j - 1] && r[j - 1] in r;
          assert leq(h, x) && h != x;
          if r[j - 1] != x {
            var k :| 0 <= k < |t| && t[k] == r[j - 1];
            assert q[k + 1] == t[k];
          }
        }
      }
    }
  }

  lemma {:induction false} ListingLength<T(!new)>(leq: (T, T) -> bool, s: set<T>, q: seq<T>)
    requires Lists(leq, s, q)
    ensures |q| == |s|
    decreases |q|
  {
    if q == [] {
      assert s == {};
    } else {
      assert q[0] in s;
      assert forall y :: y in q[1..] <==> y in s - {q[0]};
      ListingLength(leq, s - {q[0]}, q[1..]);
    }
  }

  /** Two ascending listings of the same set are the same sequence. */
  lemma {:induction false} ListingUnique<T(!new)>(leq: (T, T) -> bool, s: set<T>, a: seq<T>, b: seq<T>)
    requires Total(leq) && Lists(leq, s, a) && Lists(leq, s, b)
    ensures a == b
    decreases |a|
  {
    ListingLength(leq, s, a);
    ListingLength(leq, s, b);
    if a != [] {
      assert a[0] in s && a[0] in b;
      assert b[0] in s && b[0] in a;
      var i :| 0 <= i < |b| && b[i] == a[0];
      var j :| 0 <= j < |a| && a[j] == b[0];
      assert leq(b[0], a[0]) && leq(a[0], b[0]);
      assert forall y :: y in a[1..] <==> y in s - {a[0]};
      assert forall y :: y in b[1..] <==> y in s - {a[0]};
      ListingUnique(leq, s - {a[0]}, a[1..], b[1..]);
      assert a == [a[0]] + a[1..] && b == [b[0]] + b[1..];
    }
  }

  /** The ascending listing of a finite set. */
  ghost function Ascending<T(!new)>(leq: (T, T) -> bool, s: set<T>): (q: seq<T>)
    requires Total(leq)
    ensures Lists(leq, s, q)
  {
    if s == {} then []
    else
      var x :| x in s;
      InsertLists(leq, x, s - {x}, Ascending(leq, s - {x}));
      assert s - {x} + {x} == s;
      Insert(leq, x, Ascending(leq, s - {x}))
  }

  /** A listing of a set, and a listing of a set entirely above it, concatenate. */
  lemma ListingConcat<T(!new)>(leq: (T, T) -> bool, s: set<T>, t: set<T>)
    requires Total(leq)
    requires forall x, y :: x in s && y in t ==> leq(x, y) && x != y
    ensures Ascending(leq, s) + Ascending(leq, t) == Ascending(leq, s + t)
  {
    var a, b := Ascending(leq, s), Ascending(leq, t);
    assert forall x :: x in a + b <==> x in a || x in b;
    forall i, j | 0 <= i < j < |a + b| ensures leq((a + b)[i], (a + b)[j]) && (a + b)[i] != (a + b)[j] {
      if i < |a| <= j {
        assert a[i] in s && b[j - |a|] in t;
      }
    }
    ListingUnique(leq, s + t, a + b, Ascending(leq, s + t));
  }

  /** Sorting: the members may be visited in any order, the listing is the same. */
  method SortedListing<T(==, !new)>(leq: (T, T) -> bool, s: set<T>) returns (q: seq<T>)
    requires Total(leq)
    ensures q == Ascending(leq, s)
  {
    q := [];
    var todo := s;
    ghost var done := {};
    while todo != {}
      invariant done + todo == s && done !! todo && Lists(leq, done, q)
      decreases |todo|
    {
      var x :| x in todo;
      InsertLists(leq, x, done, q);
      q := Insert(leq, x, q);
      todo := todo - {x};
      done := done + {x};
    }
    ListingUnique(leq, s, q, Ascending(leq, s));
  }

  // ----- strings -----

  predicate StringLeq(a: string, b: string) {
    a == "" || (b != "" && (a[0] < b[0] || (a[0] == b[0] && StringLeq(a[1..], b[1..]))))
  }

  lemma {:induction false} StringLeqTotal(a: string, b: string)
    ensures StringLeq(a, b) || StringLeq(b, a)
  {
    if a != "" && b != "" { StringLeqTotal(a[1..], b[1..]); }
  }

  lemma {:induction false} StringLeqAntisymmetric(a: string, b: string)
    requires StringLeq(a, b) && StringLeq(b, a)
    ensures a == b
  {
    if a != "" && b != "" {
      StringLeqAntisymmetric(a[1..], b[1..]);
      assert a == [a[0]] + a[1..] && b == [b[0]] + b[1..];
    }
  }

  lemma {:induction false} StringLeqTransitive(a: string, b: string, c: string)
    requires StringLeq(a, b) && StringLeq(b, c)
    ensures StringLeq(a, c)
  {
    if a != "" && b != "" && c != "" && a[0] == b[0] && b[0] == c[0] {
      StringLeqTransitive(a[1..], b[1..], c[1..]);
    }
  }

  lemma StringOrder()
    ensures Total(StringLeq)
  {
    forall a, b ensures StringLeq(a, b) || StringLeq(b, a) { StringLeqTotal(a, b); }
    forall a, b | StringLeq(a, b) && StringLeq(b, a) ensures a == b { StringLeqAntisymmetric(a, b); }
    forall a, b, c | StringLeq(a, b) && StringLeq(b, c) ensures StringLeq(a, c) { StringLeqTransitive(a, b, c); }
  }

  /** a is a prefix of b, or has the smaller character where they first differ. */
  ghost predicate Alphabetical(a: string, b: string) {
    a <= b || exists i :: 0 <= i < |a| && i < |b| && a[..i] == b[..i] && a[i] < b[i]
  }

  lemma {:induction false} StringLeqSound(a: string, b: string)
    requires StringLeq(a, b)
    ensures Alphabetical(a, b)
  {
    if a != "" && a[0] == b[0] {
      var s, t := a[1..], b[1..];
      StringLeqSound(s, t);
      if s <= t {
        assert a == [a[0]] + s && b == [b[0]] + t;
      } else {
        var i :| 0 <= i < |s| && i < |t| && s[..i] == t[..i] && s[i] < t[i];
        assert a[..i + 1] == [a[0]] + s[..i] && b[..i + 1] == [b[0]] + t[..i];
        assert a[i + 1] < b[i + 1];
      }
    } else if a != "" {
      assert a[..0] == b[..0];
    }
  }

  lemma {:induction false} DifferenceIsLess(a: string, b: string, i: nat)
    requires i < |a| && i < |b| && a[..i] == b[..i] && a[i] < b[i]
    ensures StringLeq(a, b)
  {
    if i > 0 {
      var s, t := a[1..], b[1..];
      assert a[0] == a[..i][0] == b[..i][0] == b[0];
      assert s[..i - 1] == a[..i][1..] && t[..i - 1] == b[..i][1..];
      DifferenceIsLess(s, t, i - 1);
    }
  }

  lemma {:induction false} PrefixIsLess(a: string, b: string)
    requires a <= b
    ensures StringLeq(a, b)
  {
    if a != "" { PrefixIsLess(a[1..], b[1..]); }
  }

  lemma StringLeqExactly(a: string, b: string)
    ensures StringLeq(a, b) <==> Alphabetical(a, b)
  {
    if StringLeq(a, b) { StringLeqSound(a, b); }
    if a <= b {
      PrefixIsLess(a, b);
    } else if i :| 0 <= i < |a| && i < |b| && a[..i] == b[..i] && a[i] < b[i] {
      DifferenceIsLess(a, b, i);
    }
  }

  ghost function SortedStrings(s: set<string>): (q: seq<string>)
    ensures Lists(StringLeq, s, q) && |q| == |s|
  {
    StringOrder();
    ListingLength(StringLeq, s, Ascending(StringLeq, s));
    Ascending(StringLeq, s)
  }

  method SortStrings(s: set<string>) returns (q: seq<string>)
    ensures q == SortedStrings(s)
  {
    StringOrder();
    q := SortedListing(StringLeq, s);
  }

  // ----- canonical identifiers -----

  predicate IsSpace(c: char) {
    c == ' ' || c == '\t' || c == '\n' || c == '\r'
  }

  /** A non-empty identifier that stripping would not change. */
  predicate Canonical(s: string) {
    s != "" && !IsSpace(s[0]) && !IsSpace(s[|s| - 1])
  }

  /** A string without the white space at its start and at its end. */
  function Strip(s: string): string {
    if s != "" && IsSpace(s[0]) then Strip(s[1..])
    else if s != "" && IsSpace(s[|s| - 1]) then Strip(s[..|s| - 1])
    else s
  }

  lemma {:induction false} StripShortens(s: string)
    ensures |Strip(s)| <= |s|
  {
    if s != "" && IsSpace(s[0]) {
      StripShortens(s[1..]);
    } else if s != "" && IsSpace(s[|s| - 1]) {
      StripShortens(s[..|s| - 1]);
    }
  }

  /** An identifier is canonical exactly when it is not empty and stripping leaves
      it as it is. */
  lemma CanonicalExactly(s: string)
    ensures Canonical(s) <==> s != "" && Strip(s) == s
  {
    if s != "" && IsSpace(s[0]) {
      StripShortens(s[1..]);
    } else if s != "" && IsSpace(s[|s| - 1]) {
      StripShortens(s[..|s| - 1]);
    }
  }
}
