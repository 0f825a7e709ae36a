/** The run-length index of drafter-KV versions against the flat sequence of
    per-token versions that it stands for. */
module KVHistory {
  import opened Wrappers

  datatype Segment = Segment(start: int, end: int, version: int)

  datatype Error = BadCount | BadVersion | OutOfHistory | BadIndex

  function Repeat(version: int, n: nat): (r: seq<int>)
    ensures |r| == n && forall i :: 0 <= i < n ==> r[i] == version
  {
    seq(n, _ => version)
  }

  function Length(s: seq<Segment>): int {
    if s == [] then 0 else s[|s| - 1].end
  }

  /** g may follow the segments s: it is non-empty, starts where they end, and
      differs in version from the last of them. */
  predicate Follows(s: seq<Segment>, g: Segment) {
    && g.start == Length(s) && g.start < g.end && 0 <= g.version
    && (s != [] ==> s[|s| - 1].version != g.version)
  }

  ghost predicate WellFormed(s: seq<Segment>)
    ensures WellFormed(s) ==> Length(s) >= 0
  {
    s == [] || (WellFormed(s[..|s| - 1]) && Follows(s[..|s| - 1], s[|s| - 1]))
  }

  ghost function Flat(s: seq<Segment>): (f: seq<int>)
    requires WellFormed(s)
    ensures |f| == Length(s)
  {
    if s == [] then []
    else
      var n := |s| - 1;
      Flat(s[..n]) + Repeat(s[n].version, s[n].end - s[n].start)
  }

  lemma Longer(s: seq<Segment>, g: Segment)
    requires WellFormed(s) && Follows(s, g)
    ensures WellFormed(s + [g])
    ensures Flat(s + [g]) == Flat(s) + Repeat(g.version, g.end - g.start)
  {
    var t := s + [g];
    assert t[..|t| - 1] == s && t[|t| - 1] == g;
  }

  lemma {:induction false} FlatPrefix(s: seq<Segment>, n: nat)
    requires WellFormed(s) && n <= |s|
    ensures WellFormed(s[..n]) && Flat(s[..n]) <= Flat(s)
    decreases |s|
  {
    if n < |s| {
      var t := s[..|s| - 1];
      FlatPrefix(t, n);
      assert t[..n] == s[..n];
    } else {
      assert s[..n] == s;
    }
  }

  /** Every segment follows the ones before it, and every one of its tokens
      carries its version. */
  lemma SegmentFlat(s: seq<Segment>, n: nat)
    requires WellFormed(s) && n < |s|
    ensures WellFormed(s[..n]) && Follows(s[..n], s[n]) && s[n].end <= |Flat(s)|
    ensures Length(s[..n + 1]) == s[n].end
    ensures forall i :: s[n].start <= i < s[n].end ==> Flat(s)[i] == s[n].version
  {
    FlatPrefix(s, n + 1);
    var t := s[..n + 1];
    assert t[..n] == s[..n] && t[n] == s[n];
    var run := Repeat(s[n].version, s[n].end - s[n].start);
    assert Flat(t) == Flat(t[..n]) + run;
    forall i | s[n].start <= i < s[n].end ensures Flat(s)[i] == s[n].version {
      assert Flat(s)[i] == Flat(t)[i] == run[i - s[n].start];
    }
  }

  /** Where the last segment begins: from it on every version is its own, and
      just before it the version differs. */
  lemma LastRun(s: seq<Segment>)
    requires WellFormed(s) && s != []
    ensures var g, f, t := s[|s| - 1], Flat(s), s[..|s| - 1];
      && 0 <= g.start < g.end == |f|
      && (forall i :: g.start <= i < |f| ==> f[i] == g.version)
      && (g.start > 0 ==> f[g.start - 1] != g.version)
      && WellFormed(t) && Flat(t) == f[..g.start]
  {
    var n := |s| - 1;
    SegmentFlat(s, n);
    FlatPrefix(s, n);
    if n > 0 {
      SegmentFlat(s[..n], n - 1);
      assert Flat(s)[s[n].start - 1] == Flat(s[..n])[s[n].start - 1];
    }
  }

  lemma RunsAgree(f: seq<int>, a: nat, b: nat, v: int)
    requires a < |f| && b < |f|
    requires forall i :: a <= i < |f| ==> f[i] == v
    requires forall i :: b <= i < |f| ==> f[i] == v
    requires (a > 0 ==> f[a - 1] != v) && (b > 0 ==> f[b - 1] != v)
    ensures a == b
  {
  }

  lemma SameLast(a: seq<Segment>, b: seq<Segment>)
    requires WellFormed(a) && WellFormed(b) && Flat(a) == Flat(b) && a != [] && b != []
    ensures a[|a| - 1] == b[|b| - 1]
    ensures WellFormed(a[..|a| - 1]) && WellFormed(b[..|b| - 1]) && Flat(a[..|a| - 1]) == Flat(b[..|b| - 1])
  {
    LastRun(a);
    LastRun(b);
    var f, g, h := Flat(a), a[|a| - 1], b[|b| - 1];
    assert f[|f| - 1] == g.version == h.version;
    RunsAgree(f, g.start, h.start, g.version);
  }

  /** The form is canonical: one segment list per flat sequence. */
  lemma {:induction false} CanonicalForm(a: seq<Segment>, b: seq<Segment>)
    requires WellFormed(a) && WellFormed(b) && Flat(a) == Flat(b)
    ensures a == b
    decreases |a|
  {
    if a != [] && b != [] {
      SameLast(a, b);
      CanonicalForm(a[..|a| - 1], b[..|b| - 1]);
      assert a == a[..|a| - 1] + [a[|a| - 1]] && b == b[..|b| - 1] + [b[|b| - 1]];
    } else {
      if a != [] { LastRun(a); }
      if b != [] { LastRun(b); }
    }
  }

  // ----- the flat model -----

  datatype Op = Append(count: int, version: int) | Retract(length: int)

  function Step(f: seq<int>, op: Op): seq<int> {
    match op
    case Append(n, v) => if n < 1 || v < 0 then f else f + Repeat(v, n)
    case Retract(n) => if n < 0 || n > |f| then f else f[..n]
  }

  function Run(ops: seq<Op>): seq<int> {
    if ops == [] then [] else Step(Run(ops[..|ops| - 1]), ops[|ops| - 1])
  }

  /** Frozen history: a token's version never changes while it is not retracted,
      whatever is appended or retracted behind it. */
  lemma {:induction false} VersionsFrozen(ops: seq<Op>, more: seq<Op>, i: nat)
    requires i < |Run(ops)|
    requires forall j :: 0 <= j < |more| && more[j].Retract? ==> more[j].length > i || more[j].length < 0
    ensures i < |Run(ops + more)| && Run(ops + more)[i] == Run(ops)[i]
    decreases |more|
  {
    if more == [] {
      assert ops + more == ops;
    } else {
      var n := |more| - 1;
      VersionsFrozen(ops, more[..n], i);
      assert (ops + more)[..|ops| + n] == ops + more[..n];
    }
  }

  lemma RunExtend(ops: seq<Op>, op: Op)
    ensures Run(ops + [op]) == Step(Run(ops), op)
  {
    assert (ops + [op])[..|ops|] == ops;
  }

  // ----- the index after an append -----

  function Appended(s: seq<Segment>, count: int, version: int): seq<Segment> {
    var n := |s| - 1;
    if s != [] && s[n].version == version
    then s[..n] + [Segment(s[n].start, Length(s) + count, version)]
    else s + [Segment(Length(s), Length(s) + count, version)]
  }

  lemma RepeatAdd(version: int, m: nat, n: nat)
    ensures Repeat(version, m + n) == Repeat(version, m) + Repeat(version, n)
  {
  }

  /** Folded into the last segment or not, an append adds its tokens. */
  lemma AppendedFlat(s: seq<Segment>, count: int, version: int)
    requires WellFormed(s) && count >= 1 && version >= 0
    ensures WellFormed(Appended(s, count, version))
    ensures Flat(Appended(s, count, version)) == Flat(s) + Repeat(version, count)
  {
    var n := |s| - 1;
    if s != [] && s[n].version == version {
      var t, g := s[..n], Segment(s[n].start, Length(s) + count, version);
      Longer(t, g);
      RepeatAdd(version, s[n].end - s[n].start, count);
      assert Flat(s) == Flat(t) + Repeat(version, s[n].end - s[n].start);
      assert Flat(t) + (Repeat(version, s[n].end - s[n].start) + Repeat(version, count))
          == Flat(s) + Repeat(version, count);
    } else {
      Longer(s, Segment(Length(s), Length(s) + count, version));
    }
  }

  // ----- the index after a retraction -----

  /** After i segments the retraction loop holds the index of the first tokens,
      as far as the new length allows. */
  ghost predicate RetainedTo(s: seq<Segment>, i: nat, length: int, retained: seq<Segment>)
    requires WellFormed(s) && i <= |s|
  {
    && WellFormed(retained) && |retained| == i
    && Length(retained) == Least(Length(s[..i]), length)
    && Length(retained) <= |Flat(s)|
    && Flat(retained) == Flat(s)[..Length(retained)]
    && (i > 0 ==> retained[i - 1].version == s[i - 1].version)
  }

  lemma SliceGrows(f: seq<int>, a: nat, b: nat, v: int)
    requires a <= b <= |f| && forall i :: a <= i < b ==> f[i] == v
    ensures f[..b] == f[..a] + Repeat(v, b - a)
  {
  }

  lemma RetainNext(s: seq<Segment>, i: nat, length: int, retained: seq<Segment>)
    requires WellFormed(s) && i < |s| && s[i].start < length
    requires RetainedTo(s, i, length, retained)
    ensures RetainedTo(s, i + 1, length, retained + [Segment(s[i].start, Least(s[i].end, length), s[i].version)])
  {
    var g := Segment(s[i].start, Least(s[i].end, length), s[i].version);
    var t := s[..i];
    SegmentFlat(s, i);
    assert Follows(t, s[i]);
    assert i > 0 ==> t[i - 1] == s[i - 1];
    assert Follows(retained, g);
    Longer(retained, g);
    SliceGrows(Flat(s), g.start, g.end, g.version);
    assert Length(retained + [g]) == g.end;
  }

  lemma RetainedAll(s: seq<Segment>, i: nat, length: int, retained: seq<Segment>)
    requires WellFormed(s) && 0 <= length <= Length(s) && i <= |s|
    requires i < |s| ==> s[i].start >= length
    requires RetainedTo(s, i, length, retained)
    ensures Flat(retained) == Flat(s)[..length]
  {
    if i < |s| {
      SegmentFlat(s, i);
    } else {
      assert s[..i] == s;
    }
  }

  /** The retraction loop: the index of exactly the first tokens. */
  method Retained(s: seq<Segment>, length: int) returns (retained: seq<Segment>)
    requires WellFormed(s) && 0 <= length <= Length(s)
    ensures WellFormed(retained) && Flat(retained) == Flat(s)[..length]
  {
    retained := [];
    var i := 0;
    while i < |s| && s[i].start < length
      invariant 0 <= i <= |s|
      invariant RetainedTo(s, i, length, retained)
    {
      RetainNext(s, i, length, retained);
      retained := retained + [Segment(s[i].start, Least(s[i].end, length), s[i].version)];
      i := i + 1;
    }
    RetainedAll(s, i, length, retained);
  }

  function Least(a: int, b: int): int {
    if a < b then a else b
  }

  /** An append coalesces with the last segment when their versions agree. */
  method Extended(s: seq<Segment>, count: int, version: int) returns (longer: seq<Segment>, segment: Segment)
    ensures longer == Appended(s, count, version) && segment == longer[|longer| - 1]
  {
    var start := Length(s);
    segment := Segment(start, start + count, version);
    if s != [] && s[|s| - 1].version == version {
      var previous := s[|s| - 1];
      segment := Segment(previous.start, segment.end, version);
      longer := s[..|s| - 1] + [segment];
    } else {
      longer := s + [segment];
    }
  }

  class FrozenKVHistory {
    var segments: seq<Segment>
    ghost var trace: seq<Op>

    /** The index stands for the flat sequence of the calls made so far. */
    ghost predicate Valid()
      reads this
    {
      WellFormed(segments) && Flat(segments) == Run(trace)
    }

    constructor ()
      ensures Valid() && segments == [] && trace == []
    {
      segments := [];
      trace := [];
    }

    method Append(count: int, version: int) returns (r: Result<Segment, Error>)
      requires Valid()
      modifies this
      ensures Valid() && trace == old(trace) + [Op.Append(count, version)]
      ensures r.Ok? <==> count >= 1 && version >= 0
      ensures r.Err? ==> r.error == if count < 1 then BadCount else BadVersion
      ensures segments == if r.Ok? then Appended(old(segments), count, version) else old(segments)
      ensures r.Ok? ==> r.value == segments[|segments| - 1]
    {
      RunExtend(trace, Op.Append(count, version));
      trace := trace + [Op.Append(count, version)];
      if count < 1 {
        return Err(BadCount);
      }
      if version < 0 {
        return Err(BadVersion);
      }
      AppendedFlat(segments, count, version);
      var longer, segment := Extended(segments, count, version);
      segments := longer;
      r := Ok(segment);
    }

    method Retract(length: int) returns (r: Result<(), Error>)
      requires Valid()
      modifies this
      ensures Valid() && trace == old(trace) + [Op.Retract(length)]
      ensures r.Ok? <==> 0 <= length <= Length(old(segments))
      ensures r.Ok? ==> Flat(segments) == old(Flat(segments))[..length]
      ensures r.Err? ==> r.error == OutOfHistory && segments == old(segments)
    {
      RunExtend(trace, Op.Retract(length));
      trace := trace + [Op.Retract(length)];
      if length < 0 || length > Length(segments) {
        return Err(OutOfHistory);
      }
      var retained := Retained(segments, length);
      segments := retained;
      r := Ok(());
    }

    method VersionAt(index: int) returns (r: Result<int, Error>)
      requires Valid()
      ensures r.Ok? <==> 0 <= index < |Run(trace)|
      ensures r.Ok? ==> r.value == Run(trace)[index]
      ensures r.Err? ==> r.error == BadIndex
    {
      var i := 0;
      while i < |segments|
        invariant 0 <= i <= |segments|
        invariant index < 0 || Length(segments[..i]) <= index
      {
        SegmentFlat(segments, i);
        if segments[i].start <= index < segments[i].end {
          return Ok(segments[i].version);
        }
        i := i + 1;
      }
      assert segments[..i] == segments;
      r := Err(BadIndex);
    }
  }

  /** Appending and then retracting to the old length restores the exact segment
      list, also when the append was folded into the last segment. */
  method AppendThenRetract(h: FrozenKVHistory, count: int, version: int)
    requires h.Valid()
    modifies h
    ensures h.Valid() && h.segments == old(h.segments)
  {
    var n := Length(h.segments);
    assert n == |Flat(h.segments)|;
    ghost var t := h.trace;
    var a := h.Append(count, version);
    assert h.trace[..|t|] == t;
    ghost var u := h.trace;
    var b := h.Retract(n);
    assert h.trace[..|u|] == u;
    CanonicalForm(h.segments, old(h.segments));
  }
}
