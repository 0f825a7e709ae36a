/** The GPU topology matrix: parsing its token lines, and the check on it. */
module Topology {
  import opened Wrappers
  import opened Decimals

  type Line = seq<string>

  function GpuName(i: nat): string {
    "GPU" + Decimal(i)
  }

  /** A token "GPU" followed by digits. */
  predicate IsGpu(token: string) {
    "GPU" <= token && IsNumeral(token[3..])
  }

  function GpuNames(n: nat): (names: seq<string>)
    ensures |names| == n && forall i :: 0 <= i < n ==> names[i] == GpuName(i)
  {
    seq(n, i requires 0 <= i => GpuName(i))
  }

  function GpuTokens(line: Line): seq<string> {
    if line == [] then []
    else if IsGpu(line[0]) then [line[0]] + GpuTokens(line[1..]) else GpuTokens(line[1..])
  }

  /** The first line that starts with GPU0. */
  function Header(lines: seq<Line>): Option<Line> {
    if lines == [] then None
    else if lines[0] != [] && lines[0][0] == "GPU0" then Some(lines[0])
    else Header(lines[1..])
  }

  /** The lines that start with a GPU token, by that token; the last one wins. */
  function Rows(lines: seq<Line>): map<string, Line> {
    if lines == [] then map[]
    else
      var n := |lines| - 1;
      if lines[n] != [] && IsGpu(lines[n][0]) then Rows(lines[..n])[lines[n][0] := lines[n]] else Rows(lines[..n])
  }

  function FirstIndex(line: Line, token: string): (i: nat)
    requires token in line
    ensures i < |line| && line[i] == token
  {
    if line[0] == token then 0 else 1 + FirstIndex(line[1..], token)
  }

  datatype Pair = Pair(left: string, right: string, link: string, reciprocal: string)

  datatype Problem = MissingMatrix | InconsistentMatrix | TruncatedMatrix | InvalidDiagonal

  /** What parsing yields: the GPU rows and the links of every pair. */
  datatype Matrix = Matrix(gpus: nat, pairs: seq<Pair>)

  // ----- the strict upper triangle of a square grid -----

  /** The cells of a matrix, by row and column number. */
  type Grid = seq<seq<string>>

  predicate Square(g: Grid) {
    forall i :: 0 <= i < |g| ==> |g[i]| == |g|
  }

  function PairOf(g: Grid, i: nat, j: nat): Pair
    requires Square(g) && i < |g| && j < |g|
  {
    Pair(GpuName(i), GpuName(j), g[i][j], g[j][i])
  }

  /** The pairs of row i, up to column j. */
  ghost function RowPairs(g: Grid, i: nat, j: nat): (ps: seq<Pair>)
    requires Square(g) && i < j <= |g|
    ensures |ps| == j - i - 1 && forall k :: 0 <= k < |ps| ==> ps[k] == PairOf(g, i, i + 1 + k)
  {
    seq(j - i - 1, k requires 0 <= k < j - i - 1 => PairOf(g, i, i + 1 + k))
  }

  /** The strict upper triangle of the first k rows. */
  ghost function Triangle(g: Grid, k: nat): seq<Pair>
    requires Square(g) && k <= |g|
  {
    if k == 0 then [] else Triangle(g, k - 1) + RowPairs(g, k - 1, |g|)
  }

  /** The strict upper triangle has n(n-1)/2 entries. */
  lemma {:induction false} TriangleSize(g: Grid, k: nat)
    requires Square(g) && k <= |g|
    ensures 2 * |Triangle(g, k)| == k * (2 * |g| - k - 1)
  {
    if k > 0 {
      TriangleSize(g, k - 1);
      TriangleAlgebra(|g|, k);
    }
  }

  lemma TriangleAlgebra(n: int, k: int)
    ensures (k - 1) * (2 * n - (k - 1) - 1) + 2 * (n - k) == k * (2 * n - k - 1)
  {
  }

  /** The triangle holds every pair i < j, ... */
  lemma {:induction false} TriangleHas(g: Grid, k: nat, i: nat, j: nat)
    requires Square(g) && k <= |g| && i < k && i < j < |g|
    ensures PairOf(g, i, j) in Triangle(g, k)
  {
    if i < k - 1 {
      TriangleHas(g, k - 1, i, j);
    } else {
      assert RowPairs(g, i, |g|)[j - i - 1] == PairOf(g, i, j);
    }
  }

  lemma InRowPairs(g: Grid, i: nat, p: Pair) returns (j: nat)
    requires Square(g) && i < |g| && p in RowPairs(g, i, |g|)
    ensures i < j < |g| && p == PairOf(g, i, j)
  {
    var row := RowPairs(g, i, |g|);
    var m :| 0 <= m < |row| && row[m] == p;
    j := i + 1 + m;
  }

  /** ... and nothing else. */
  lemma {:induction false} TriangleOnly(g: Grid, k: nat, p: Pair) returns (i: nat, j: nat)
    requires Square(g) && k <= |g| && p in Triangle(g, k)
    ensures i < j < |g| && p == PairOf(g, i, j)
  {
    assert k > 0;
    i := k - 1;
    assert Triangle(g, k) == Triangle(g, i) + RowPairs(g, i, |g|);
    if p in Triangle(g, i) {
      i, j := TriangleOnly(g, i, p);
    } else {
      j := InRowPairs(g, i, p);
    }
  }

  // ----- reading the lines -----

  ghost predicate Starts(line: Line, token: string) {
    line != [] && line[0] == token
  }

  /** The header is the first line that starts with GPU0. */
  lemma {:induction false} HeaderExactly(lines: seq<Line>) returns (i: nat)
    ensures Header(lines).Some? ==>
      i < |lines| && Header(lines).value == lines[i] && Starts(lines[i], "GPU0")
      && forall j :: 0 <= j < i ==> !Starts(lines[j], "GPU0")
    ensures Header(lines).None? ==> forall j :: 0 <= j < |lines| ==> !Starts(lines[j], "GPU0")
  {
    i := 0;
    if lines != [] && !Starts(lines[0], "GPU0") {
      var k := HeaderExactly(lines[1..]);
      i := k + 1;
      forall j | 0 < j < |lines| && Starts(lines[j], "GPU0") ensures Starts(lines[1..][j - 1], "GPU0") { }
    }
  }

  /** A row is kept for exactly the GPU tokens that start a line; it is the last
      line that the token starts. */
  lemma {:induction false} RowsExactly(lines: seq<Line>, token: string) returns (i: nat)
    ensures token in Rows(lines) ==>
      IsGpu(token) && i < |lines| && Rows(lines)[token] == lines[i] && Starts(lines[i], token)
      && forall j :: i < j < |lines| ==> !Starts(lines[j], token)
    ensures token !in Rows(lines) && IsGpu(token) ==> forall j :: 0 <= j < |lines| ==> !Starts(lines[j], token)
  {
    i := 0;
    if lines != [] {
      var n := |lines| - 1;
      i := RowsExactly(lines[..n], token);
      if Starts(lines[n], token) { i := n; }
    }
  }

  /** The GPU tokens of a line are picked token by token. */
  lemma {:induction false} TokensConcat(a: Line, b: Line)
    ensures GpuTokens(a + b) == GpuTokens(a) + GpuTokens(b)
    ensures forall t :: GpuTokens([t]) == if IsGpu(t) then [t] else []
  {
    forall t ensures GpuTokens([t]) == if IsGpu(t) then [t] else [] { assert [t][1..] == []; }
    if a == [] {
      assert a + b == b;
    } else {
      TokensConcat(a[1..], b);
      assert (a + b)[1..] == a[1..] + b;
    }
  }

  /** A column is the first place of its token in the header. */
  lemma {:induction false} FirstIndexExactly(line: Line, token: string)
    requires token in line
    ensures forall j :: 0 <= j < FirstIndex(line, token) ==> line[j] != token
  {
    if line[0] != token {
      FirstIndexExactly(line[1..], token);
      forall j | 0 <= j < FirstIndex(line, token) ensures line[j] != token {
        if j > 0 { assert line[1..][j - 1] == line[j]; }
      }
    }
  }

  /** The name of a GPU is GPU and its number, written without leading zeros. */
  lemma GpuNameExactly(i: nat, token: string)
    ensures GpuName(i) == token <==>
      IsGpu(token) && NumeralValue(token[3..]) == i && (|token| > 4 ==> token[3] != '0')
  {
    DecimalRead(i);
    var name := GpuName(i);
    assert name[3..] == Decimal(i);
    assert Decimal(0) == "0";
    if IsGpu(token) && NumeralValue(token[3..]) == i && (|token| > 4 ==> token[3] != '0') {
      NumeralWritten(token[3..]);
      assert token == "GPU" + token[3..];
    }
  }

  // ----- parsing -----

  function NameSet(n: nat): set<string> {
    set g | g in GpuNames(n)
  }

  ghost predicate Named(header: Line, rows: map<string, Line>, n: nat) {
    forall i: nat :: i < n ==> GpuName(i) in header && GpuName(i) in rows
  }

  /** Every row reaches the last GPU column. */
  predicate LongEnough(header: Line, rows: map<string, Line>, n: nat)
    requires Named(header, rows, n)
  {
    forall i | 0 <= i < n :: forall j | 0 <= j < n :: FirstIndex(header, GpuName(j)) + 1 < |rows[GpuName(i)]|
  }

  /** The lines hold a matrix of n GPUs: a header that lists GPU0..GPU(n-1), and
      exactly their rows, each long enough. */
  ghost predicate Holds(lines: seq<Line>, n: nat) {
    && Header(lines).Some? && n >= 1
    && GpuTokens(Header(lines).value) == GpuNames(n)
    && Rows(lines).Keys == NameSet(n)
    && Named(Header(lines).value, Rows(lines), n)
    && LongEnough(Header(lines).value, Rows(lines), n)
  }

  function GridOf(header: Line, rows: map<string, Line>, n: nat): (g: Grid)
    requires Named(header, rows, n) && LongEnough(header, rows, n)
    ensures |g| == n && Square(g)
    ensures forall i, j :: 0 <= i < n && 0 <= j < n ==> g[i][j] == rows[GpuName(i)][FirstIndex(header, GpuName(j)) + 1]
  {
    seq(n, i requires 0 <= i < n =>
      seq(n, j requires 0 <= j < n => rows[GpuName(i)][FirstIndex(header, GpuName(j)) + 1]))
  }

  ghost function CellsOf(lines: seq<Line>, n: nat): (g: Grid)
    requires Holds(lines, n)
    ensures |g| == n && Square(g)
  {
    GridOf(Header(lines).value, Rows(lines), n)
  }

  /** Where a cell of the matrix stands in the lines: in the last line that its
      row's GPU starts, one place after its column's GPU in the first line that
      GPU0 starts. */
  lemma CellExactly(lines: seq<Line>, n: nat, i: nat, j: nat) returns (row: nat, header: nat, column: nat)
    requires Holds(lines, n) && i < n && j < n
    ensures row < |lines| && Starts(lines[row], GpuName(i))
    ensures forall k :: row < k < |lines| ==> !Starts(lines[k], GpuName(i))
    ensures header < |lines| && Starts(lines[header], "GPU0")
    ensures forall k :: 0 <= k < header ==> !Starts(lines[k], "GPU0")
    ensures column < |lines[header]| && lines[header][column] == GpuName(j)
    ensures forall k :: 0 <= k < column ==> lines[header][k] != GpuName(j)
    ensures column + 1 < |lines[row]| && CellsOf(lines, n)[i][j] == lines[row][column + 1]
  {
    row := RowsExactly(lines, GpuName(i));
    header := HeaderExactly(lines);
    column := FirstIndex(lines[header], GpuName(j));
    FirstIndexExactly(lines[header], GpuName(j));
  }

  ghost predicate DiagonalTo(g: Grid, n: nat)
    requires Square(g) && n <= |g|
  {
    forall i :: 0 <= i < n ==> g[i][i] == "X"
  }

  ghost predicate Diagonal(g: Grid)
    requires Square(g)
  {
    DiagonalTo(g, |g|)
  }

  ghost predicate WellFormed(lines: seq<Line>, n: nat) {
    Holds(lines, n) && Diagonal(CellsOf(lines, n))
  }

  lemma NamedFrom(header: Line, rows: map<string, Line>, n: nat)
    requires GpuTokens(header) == GpuNames(n) && rows.Keys == NameSet(n)
    ensures Named(header, rows, n)
  {
    TokensInHeader(header);
    forall i: nat | i < n ensures GpuName(i) in header && GpuName(i) in rows {
      assert GpuNames(n)[i] in GpuNames(n);
      assert GpuName(i) in NameSet(n);
    }
  }

  lemma HoldsOnce(lines: seq<Line>, n: nat, m: nat)
    requires Holds(lines, n) && Holds(lines, m)
    ensures n == m
  {
    assert |GpuNames(n)| == n && |GpuNames(m)| == m;
  }

  /** The shape of the matrix: its header, its rows, their lengths. */
  method Measure(lines: seq<Line>) returns (r: Result<nat, Problem>)
    ensures r.Ok? ==> Holds(lines, r.value)
    ensures r.Err? ==> forall n: nat :: !Holds(lines, n)
  {
    var found := Header(lines);
    if found.None? {
      return Err(MissingMatrix);
    }
    var header, rows := found.value, Rows(lines);
    var gpus := GpuTokens(header);
    var n := |gpus|;
    if gpus == [] || gpus != GpuNames(n) || rows.Keys != NameSet(n) {
      return Err(InconsistentMatrix);
    }
    NamedFrom(header, rows, n);
    if !LongEnough(header, rows, n) {
      return Err(TruncatedMatrix);
    }
    r := Ok(n);
  }

  /** The links of every pair, row by row; a diagonal other than X is refused. */
  method Collect(g: Grid) returns (r: Result<seq<Pair>, Problem>)
    requires Square(g)
    ensures r.Ok? <==> Diagonal(g)
    ensures r.Ok? ==> r.value == Triangle(g, |g|)
  {
    var pairs: seq<Pair> := [];
    var i := 0;
    while i < |g|
      invariant 0 <= i <= |g| && pairs == Triangle(g, i)
      invariant DiagonalTo(g, i)
    {
      if g[i][i] != "X" {
        return Err(InvalidDiagonal);
      }
      var row := CollectRow(g, i);
      pairs := pairs + row;
      i := i + 1;
    }
    r := Ok(pairs);
  }

  method CollectRow(g: Grid, i: nat) returns (row: seq<Pair>)
    requires Square(g) && i < |g|
    ensures row == RowPairs(g, i, |g|)
  {
    row := [];
    var j := i + 1;
    while j < |g|
      invariant i < j <= |g| && row == RowPairs(g, i, j)
    {
      row := row + [Pair(GpuName(i), GpuName(j), g[i][j], g[j][i])];
      j := j + 1;
    }
  }

  /** Parsing succeeds exactly on a well-formed matrix, and yields the whole
      strict upper triangle with both directed links. */
  method Parse(lines: seq<Line>) returns (r: Result<Matrix, Problem>)
    ensures r.Ok? ==> WellFormed(lines, r.value.gpus)
    ensures r.Ok? ==> r.value.pairs == Triangle(CellsOf(lines, r.value.gpus), r.value.gpus)
    ensures r.Err? ==> forall n: nat :: !WellFormed(lines, n)
  {
    var n := Measure(lines);
    if n.Err? {
      return Err(n.error);
    }
    var pairs := Collect(GridOf(Header(lines).value, Rows(lines), n.value));
    if pairs.Err? {
      forall m: nat | Holds(lines, m) ensures m == n.value { HoldsOnce(lines, n.value, m); }
      return Err(pairs.error);
    }
    r := Ok(Matrix(n.value, pairs.value));
  }

  lemma {:induction false} TokensInHeader(line: Line)
    ensures forall t :: t in GpuTokens(line) ==> t in line
  {
    if line != [] { TokensInHeader(line[1..]); }
  }

  // ----- the check -----

  /** The tool's output: absent, empty, or its non-blank lines. */
  datatype Raw = Absent | Blank | Lines(lines: seq<Line>)

  datatype Status = Pass | Fail | Unknown

  predicate PairsValid(pairs: seq<Pair>, count: nat, accepted: set<string>) {
    && |pairs| == count * (count - 1) / 2
    && forall p :: p in pairs ==> Accepts(p, accepted)
  }

  ghost predicate Agrees(g: Grid, i: nat, j: nat, accepted: set<string>)
    requires Square(g) && i < |g| && j < |g|
  {
    g[i][j] == g[j][i] && g[i][j] in accepted
  }

  /** Every off-diagonal link equals its reciprocal and is an accepted one. */
  ghost predicate Symmetric(g: Grid, accepted: set<string>)
    requires Square(g)
  {
    forall i: nat, j: nat :: i < |g| && j < |g| && i != j ==> Agrees(g, i, j, accepted)
  }

  predicate Accepts(p: Pair, accepted: set<string>) {
    p.link == p.reciprocal && p.link in accepted
  }

  lemma SymmetricAccepts(g: Grid, accepted: set<string>, p: Pair)
    requires Square(g) && Symmetric(g, accepted) && p in Triangle(g, |g|)
    ensures Accepts(p, accepted)
  {
    var i, j := TriangleOnly(g, |g|, p);
    assert Agrees(g, i, j, accepted);
  }

  lemma AcceptedSymmetric(g: Grid, accepted: set<string>, i: nat, j: nat)
    requires Square(g) && i < |g| && j < |g| && i != j
    requires forall p :: p in Triangle(g, |g|) ==> Accepts(p, accepted)
    ensures Agrees(g, i, j, accepted)
  {
    var a, b := if i < j then i else j, if i < j then j else i;
    TriangleHas(g, |g|, a, b);
    assert Accepts(PairOf(g, a, b), accepted);
  }

  lemma TriangleCount(g: Grid)
    requires Square(g)
    ensures |Triangle(g, |g|)| == |g| * (|g| - 1) / 2
  {
    TriangleSize(g, |g|);
  }

  ghost predicate AllAccepted(ps: seq<Pair>, accepted: set<string>) {
    forall p :: p in ps ==> Accepts(p, accepted)
  }

  lemma AcceptedIffSymmetric(g: Grid, accepted: set<string>)
    requires Square(g)
    ensures AllAccepted(Triangle(g, |g|), accepted) <==> Symmetric(g, accepted)
  {
    if Symmetric(g, accepted) {
      forall p | p in Triangle(g, |g|) ensures Accepts(p, accepted) { SymmetricAccepts(g, accepted, p); }
    }
    if AllAccepted(Triangle(g, |g|), accepted) {
      forall i: nat, j: nat | i < |g| && j < |g| && i != j ensures Agrees(g, i, j, accepted) {
        AcceptedSymmetric(g, accepted, i, j);
      }
    }
  }

  /** The check on the upper triangle decides the whole matrix off its diagonal. */
  lemma TriangleDecides(g: Grid, accepted: set<string>)
    requires Square(g)
    ensures PairsValid(Triangle(g, |g|), |g|, accepted) <==> Symmetric(g, accepted)
  {
    TriangleCount(g);
    AcceptedIffSymmetric(g, accepted);
  }

  /** The check passes exactly when the lines hold a well-formed matrix of the
      counted devices that is, off its diagonal, symmetric with accepted links.
      Empty output passes exactly when no device was counted. */
  method Check(raw: Raw, count: nat, accepted: set<string>) returns (status: Status)
    ensures status == Unknown <==> raw.Absent?
    ensures raw.Blank? ==> (status == Pass <==> count == 0)
    ensures raw.Lines? ==>
      (status == Pass <==> WellFormed(raw.lines, count) && Symmetric(CellsOf(raw.lines, count), accepted))
  {
    match raw
    case Absent => status := Unknown;
    case Blank => status := if count == 0 && PairsValid([], count, accepted) then Pass else Fail;
    case Lines(lines) =>
      var parsed := Parse(lines);
      if parsed.Err? {
        return Fail;
      }
      var n := parsed.value.gpus;
      forall m: nat | Holds(lines, m) ensures m == n { HoldsOnce(lines, n, m); }
      TriangleDecides(CellsOf(lines, n), accepted);
      status := if n == count && PairsValid(parsed.value.pairs, count, accepted) then Pass else Fail;
  }

  // ----- a matrix of two -----

  /** The output for two linked GPUs. */
  function TwoLines(link: string): seq<Line> {
    var a, b := GpuName(0), GpuName(1);
    [[a, b], [a, "X", link], [b, link, "X"]]
  }

  lemma TwoNames()
    ensures GpuName(0) == "GPU0" && GpuName(1) == "GPU1" && IsGpu("GPU0") && IsGpu("GPU1")
    ensures !IsGpu("X") && GpuNames(2) == ["GPU0", "GPU1"] && NameSet(2) == {"GPU0", "GPU1"}
  {
    GpuNameExactly(0, GpuName(0));
    GpuNameExactly(1, GpuName(1));
    assert |"X"| == 1;
  }

  lemma TwoRows(link: string)
    ensures var lines := TwoLines(link);
      && Header(lines) == Some(lines[0]) && GpuTokens(lines[0]) == GpuNames(2)
      && Rows(lines) == map["GPU0" := lines[1], "GPU1" := lines[2]]
  {
    TwoNames();
    var lines := TwoLines(link);
    assert lines[0][1..] == ["GPU1"] && ["GPU1"][1..] == [];
    assert GpuTokens(["GPU1"]) == ["GPU1"];
    assert GpuTokens(lines[0]) == ["GPU0"] + ["GPU1"];
    assert "GPU0" != "GPU1" by { assert "GPU0"[3] != "GPU1"[3]; }
    assert lines[..2][..1] == lines[..1] && lines[..1][..0] == [];
    assert Rows(lines[..1]) == map["GPU0" := lines[0]];
    assert Rows(lines[..2]) == map["GPU0" := lines[1]];
    assert Rows(lines) == Rows(lines[..2])["GPU1" := lines[2]];
  }

  lemma TwoColumns(link: string)
    ensures var header := TwoLines(link)[0];
      "GPU0" in header && "GPU1" in header && FirstIndex(header, "GPU0") == 0 && FirstIndex(header, "GPU1") == 1
  {
    TwoNames();
    var header := TwoLines(link)[0];
    assert header == ["GPU0", "GPU1"] && header[1..] == ["GPU1"];
    assert "GPU0" != "GPU1" by { assert "GPU0"[3] != "GPU1"[3]; }
  }

  lemma TwoHolds(link: string)
    ensures Holds(TwoLines(link), 2)
  {
    TwoNames();
    TwoRows(link);
    TwoColumns(link);
    var lines := TwoLines(link);
    NamedFrom(lines[0], Rows(lines), 2);
    assert LongEnough(lines[0], Rows(lines), 2);
  }

  lemma TwoCells(link: string)
    requires Holds(TwoLines(link), 2)
    ensures CellsOf(TwoLines(link), 2) == [["X", link], [link, "X"]]
  {
    TwoNames();
    TwoRows(link);
    TwoColumns(link);
    var g := CellsOf(TwoLines(link), 2);
    assert g[0] == ["X", link] && g[1] == [link, "X"];
  }

  lemma TwoSymmetric(g: Grid, link: string, accepted: set<string>)
    requires Square(g) && g == [["X", link], [link, "X"]]
    ensures Diagonal(g) && (Symmetric(g, accepted) <==> link in accepted)
  {
    assert g[0][0] == "X" && g[1][1] == "X" && g[0][1] == link && g[1][0] == link;
    assert Symmetric(g, accepted) ==> Agrees(g, 0, 1, accepted);
  }

  /** Two GPUs linked alike both ways: the check passes exactly when that link is
      accepted. */
  lemma TwoGpus(link: string, accepted: set<string>)
    ensures WellFormed(TwoLines(link), 2)
    ensures Symmetric(CellsOf(TwoLines(link), 2), accepted) <==> link in accepted
  {
    TwoHolds(link);
    TwoCells(link);
    TwoSymmetric(CellsOf(TwoLines(link), 2), link, accepted);
  }
}
