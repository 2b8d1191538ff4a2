/** The line diff an operator reads before approving a changed definition
    (internal/admin/review.go, LineDiff): a table of longest common
    subsequence lengths over suffixes, a greedy walk over it and two tails. */
module LineDiff {
  import opened GoText

  datatype Line = Line(depth: int, text: Bytes)
  datatype DiffKind = Context | Add | Del
  datatype DiffOp = DiffOp(op: DiffKind, line: Line)
  datatype DiffResult = Script(ops: seq<DiffOp>) | TooLarge

  const MAX_DIFF_CELLS := 4_000_000

  function Max(x: int, y: int): int { if x >= y then x else y }

  // ---- Reference: common subsequences -------------------------------------

  /** s can be read off a by skipping lines of a. */
  predicate Embeds(s: seq<Line>, a: seq<Line>)
    decreases |a|
  {
    s == [] || (a != [] && ((s[0] == a[0] && Embeds(s[1..], a[1..])) || Embeds(s, a[1..])))
  }

  ghost predicate Common(s: seq<Line>, a: seq<Line>, b: seq<Line>) { Embeds(s, a) && Embeds(s, b) }

  /** The length of a longest common subsequence, by exhaustive choice: equal
      heads may be taken or not. */
  function Lcs(a: seq<Line>, b: seq<Line>): nat
    decreases |a| + |b|
  {
    if a == [] || b == [] then 0
    else
      var skip := Max(Lcs(a[1..], b), Lcs(a, b[1..]));
      if a[0] == b[0] then Max(1 + Lcs(a[1..], b[1..]), skip) else skip
  }

  lemma {:induction false} EmbedsTail(s: seq<Line>, a: seq<Line>)
    requires s != [] && Embeds(s, a)
    ensures a != [] && Embeds(s[1..], a[1..])
    decreases |a|
  {
    if !(s[0] == a[0] && Embeds(s[1..], a[1..])) {
      EmbedsTail(s, a[1..]);
      if s[1..] != [] { EmbedsWeaken(s[1..], a[1..]); }
    }
  }

  /** What embeds in a tail embeds in the whole. */
  lemma EmbedsWeaken(s: seq<Line>, a: seq<Line>)
    requires a != [] && Embeds(s, a[1..])
    ensures Embeds(s, a)
  { }

  lemma {:induction false} LcsIsUpperBound(s: seq<Line>, a: seq<Line>, b: seq<Line>)
    requires Common(s, a, b)
    ensures |s| <= Lcs(a, b)
    decreases |a| + |b|
  {
    if s != [] {
      if Embeds(s, a[1..]) {
        LcsIsUpperBound(s, a[1..], b);
      } else if Embeds(s, b[1..]) {
        LcsIsUpperBound(s, a, b[1..]);
      } else {
        LcsIsUpperBound(s[1..], a[1..], b[1..]);
      }
    }
  }

  lemma {:induction false} LcsIsReached(a: seq<Line>, b: seq<Line>) returns (s: seq<Line>)
    ensures Common(s, a, b) && |s| == Lcs(a, b)
    decreases |a| + |b|
  {
    if a == [] || b == [] {
      s := [];
    } else if Lcs(a, b) == Lcs(a[1..], b) {
      s := LcsIsReached(a[1..], b);
      EmbedsWeaken(s, a);
    } else if Lcs(a, b) == Lcs(a, b[1..]) {
      s := LcsIsReached(a, b[1..]);
      EmbedsWeaken(s, b);
    } else {
      var t := LcsIsReached(a[1..], b[1..]);
      s := [a[0]] + t;
      assert s[1..] == t;
    }
  }

  /** Lcs(a, b) is the greatest length of a common subsequence. */
  lemma LcsIsLongest(a: seq<Line>, b: seq<Line>)
    ensures exists s :: Common(s, a, b) && |s| == Lcs(a, b)
    ensures forall s :: Common(s, a, b) ==> |s| <= Lcs(a, b)
  {
    var s := LcsIsReached(a, b);
    forall s | Common(s, a, b) ensures |s| <= Lcs(a, b) { LcsIsUpperBound(s, a, b); }
  }

  /** Taking equal heads loses nothing: the table's recurrence is exact. */
  lemma GreedyIsOptimal(a: seq<Line>, b: seq<Line>)
    requires a != [] && b != [] && a[0] == b[0]
    ensures Lcs(a, b) == 1 + Lcs(a[1..], b[1..])
  {
    var s := LcsIsReached(a, b);
    if s != [] {
      EmbedsTail(s, a);
      EmbedsTail(s, b);
      LcsIsUpperBound(s[1..], a[1..], b[1..]);
    }
  }

  // ---- Edit scripts --------------------------------------------------------

  /** The script with its additions dropped. */
  function Old(ops: seq<DiffOp>): seq<Line> {
    if ops == [] then []
    else (if ops[0].op == Add then [] else [ops[0].line]) + Old(ops[1..])
  }

  /** The script with its deletions dropped. */
  function New(ops: seq<DiffOp>): seq<Line> {
    if ops == [] then []
    else (if ops[0].op == Del then [] else [ops[0].line]) + New(ops[1..])
  }

  function Count(ops: seq<DiffOp>, k: DiffKind): nat {
    if ops == [] then 0 else (if ops[0].op == k then 1 else 0) + Count(ops[1..], k)
  }

  function Changes(ops: seq<DiffOp>): nat { Count(ops, Add) + Count(ops, Del) }

  predicate IsScript(ops: seq<DiffOp>, a: seq<Line>, b: seq<Line>) { Old(ops) == a && New(ops) == b }

  lemma {:induction false} ScriptSizes(ops: seq<DiffOp>)
    ensures |Old(ops)| == Count(ops, Context) + Count(ops, Del)
    ensures |New(ops)| == Count(ops, Context) + Count(ops, Add)
  {
    if ops != [] { ScriptSizes(ops[1..]); }
  }

  /** No script has more context than a longest common subsequence. */
  lemma {:induction false} ContextBound(ops: seq<DiffOp>)
    ensures Count(ops, Context) <= Lcs(Old(ops), New(ops))
  {
    if ops != [] {
      ContextBound(ops[1..]);
      var a, b := Old(ops), New(ops);
      match ops[0].op
      case Context =>
        assert a[1..] == Old(ops[1..]) && b[1..] == New(ops[1..]);
      case Add =>
        assert a == Old(ops[1..]) && b[1..] == New(ops[1..]);
        LcsGrows(a, b);
      case Del =>
        assert a[1..] == Old(ops[1..]) && b == New(ops[1..]);
        LcsGrows(a, b);
    }
  }

  lemma LcsGrows(a: seq<Line>, b: seq<Line>)
    ensures a != [] ==> Lcs(a[1..], b) <= Lcs(a, b)
    ensures b != [] ==> Lcs(a, b[1..]) <= Lcs(a, b)
  { }

  // ---- The walk ------------------------------------------------------------

  function Tail(lines: seq<Line>, k: DiffKind): seq<DiffOp> {
    seq(|lines|, i requires 0 <= i < |lines| => DiffOp(k, lines[i]))
  }

  /** The script LineDiff writes: equal heads are context, and where both a
      deletion and an addition are optimal the deletion comes first. */
  function Diff(a: seq<Line>, b: seq<Line>): seq<DiffOp>
    decreases |a| + |b|
  {
    if a == [] || b == [] then Tail(a, Del) + Tail(b, Add)
    else if a[0] == b[0] then [DiffOp(Context, a[0])] + Diff(a[1..], b[1..])
    else if Lcs(a[1..], b) >= Lcs(a, b[1..]) then [DiffOp(Del, a[0])] + Diff(a[1..], b)
    else [DiffOp(Add, b[0])] + Diff(a, b[1..])
  }

  lemma {:induction false} TailIsScript(lines: seq<Line>)
    ensures IsScript(Tail(lines, Del), lines, []) && Count(Tail(lines, Del), Context) == 0
    ensures IsScript(Tail(lines, Add), [], lines) && Count(Tail(lines, Add), Context) == 0
  {
    if lines != [] {
      TailIsScript(lines[1..]);
      assert Tail(lines, Del)[1..] == Tail(lines[1..], Del);
      assert Tail(lines, Add)[1..] == Tail(lines[1..], Add);
    }
  }

  /** The script is one from a to b, with exactly Lcs(a, b) context lines. */
  lemma {:induction false} DiffIsScript(a: seq<Line>, b: seq<Line>)
    ensures IsScript(Diff(a, b), a, b)
    ensures Count(Diff(a, b), Context) == Lcs(a, b)
    decreases |a| + |b|
  {
    var d := Diff(a, b);
    if a == [] || b == [] {
      TailIsScript(a);
      TailIsScript(b);
      assert d == if a == [] then Tail(b, Add) else Tail(a, Del);
    } else if a[0] == b[0] {
      DiffIsScript(a[1..], b[1..]);
      GreedyIsOptimal(a, b);
      assert d[1..] == Diff(a[1..], b[1..]);
    } else if Lcs(a[1..], b) >= Lcs(a, b[1..]) {
      DiffIsScript(a[1..], b);
      assert d[1..] == Diff(a[1..], b);
    } else {
      DiffIsScript(a, b[1..]);
      assert d[1..] == Diff(a, b[1..]);
    }
  }

  /** No edit script from a to b has fewer additions plus deletions. */
  lemma DiffIsMinimal(a: seq<Line>, b: seq<Line>, other: seq<DiffOp>)
    requires IsScript(other, a, b)
    ensures Changes(Diff(a, b)) <= Changes(other)
  {
    DiffIsScript(a, b);
    ScriptSizes(Diff(a, b));
    ScriptSizes(other);
    ContextBound(other);
  }

  /** A script with no change at all is shown exactly for equal inputs. */
  lemma {:induction false} AllContextIffEqual(a: seq<Line>, b: seq<Line>)
    ensures Changes(Diff(a, b)) == 0 <==> a == b
    decreases |a| + |b|
  {
    DiffIsScript(a, b);
    ScriptSizes(Diff(a, b));
    if a == b {
      if a != [] {
        AllContextIffEqual(a[1..], b[1..]);
        assert Diff(a, b)[1..] == Diff(a[1..], b[1..]);
      }
    } else if Changes(Diff(a, b)) == 0 {
      NoChangeSameSides(Diff(a, b));
    }
  }

  lemma {:induction false} NoChangeSameSides(ops: seq<DiffOp>)
    requires Changes(ops) == 0
    ensures Old(ops) == New(ops)
  {
    if ops != [] { NoChangeSameSides(ops[1..]); }
  }

  // ---- The program -----------------------------------------------------------

  /** The recurrence the table is filled by, on indices. */
  function Cell(a: seq<Line>, b: seq<Line>, i: nat, j: nat): nat
    requires i <= |a| && j <= |b|
    decreases |a| - i + |b| - j
  {
    if i == |a| || j == |b| then 0
    else if a[i] == b[j] then Cell(a, b, i + 1, j + 1) + 1
    else Max(Cell(a, b, i + 1, j), Cell(a, b, i, j + 1))
  }

  /** It computes the length of the longest common subsequence of the suffixes. */
  lemma {:induction false} CellIsLcs(a: seq<Line>, b: seq<Line>, i: nat, j: nat)
    requires i <= |a| && j <= |b|
    ensures Cell(a, b, i, j) == Lcs(a[i..], b[j..])
    decreases |a| - i + |b| - j
  {
    if i < |a| && j < |b| {
      assert a[i..][1..] == a[i + 1..] && b[j..][1..] == b[j + 1..];
      if a[i] == b[j] {
        CellIsLcs(a, b, i + 1, j + 1);
        GreedyIsOptimal(a[i..], b[j..]);
      } else {
        CellIsLcs(a, b, i + 1, j);
        CellIsLcs(a, b, i, j + 1);
      }
    }
  }

  /** The suffix table, filled from the end: every cell is the length of the
      longest common subsequence of the two suffixes. */
  method FillTable(a: seq<Line>, b: seq<Line>) returns (lcs: array2<int>)
    ensures fresh(lcs) && lcs.Length0 == |a| + 1 && lcs.Length1 == |b| + 1
    ensures forall i, j :: 0 <= i <= |a| && 0 <= j <= |b| ==> lcs[i, j] == Lcs(a[i..], b[j..])
  {
    lcs := FillCells(a, b);
    forall i, j | 0 <= i <= |a| && 0 <= j <= |b| ensures lcs[i, j] == Lcs(a[i..], b[j..]) {
      CellIsLcs(a, b, i, j);
    }
  }

  method FillCells(a: seq<Line>, b: seq<Line>) returns (lcs: array2<int>)
    ensures fresh(lcs) && lcs.Length0 == |a| + 1 && lcs.Length1 == |b| + 1
    ensures forall i, j :: 0 <= i <= |a| && 0 <= j <= |b| ==> lcs[i, j] == Cell(a, b, i, j)
  {
    lcs := Zeros(|a|, |b|);
    var i := |a|;
    while i > 0
      invariant 0 <= i <= |a|
      invariant forall p, q :: i <= p <= |a| && 0 <= q <= |b| ==> lcs[p, q] == Cell(a, b, p, q)
      invariant forall p :: 0 <= p < i ==> lcs[p, |b|] == 0
    {
      i := i - 1;
      FillRow(a, b, lcs, i);
    }
  }

  method Zeros(m: nat, n: nat) returns (t: array2<int>)
    ensures fresh(t) && t.Length0 == m + 1 && t.Length1 == n + 1
    ensures forall i :: 0 <= i <= m ==> t[i, n] == 0
    ensures forall j :: 0 <= j <= n ==> t[m, j] == 0
  {
    t := new int[m + 1, n + 1]((i, j) => 0);
  }

  /** One row, right to left, from the row below it. */
  method FillRow(a: seq<Line>, b: seq<Line>, lcs: array2<int>, i: nat)
    requires i < |a| && lcs.Length0 == |a| + 1 && lcs.Length1 == |b| + 1
    requires forall p, q :: i < p <= |a| && 0 <= q <= |b| ==> lcs[p, q] == Cell(a, b, p, q)
    requires lcs[i, |b|] == 0
    modifies lcs
    ensures forall q :: 0 <= q <= |b| ==> lcs[i, q] == Cell(a, b, i, q)
    ensures forall p, q :: 0 <= p <= |a| && 0 <= q <= |b| && p != i ==> lcs[p, q] == old(lcs[p, q])
  {
    var j := |b|;
    while j > 0
      invariant 0 <= j <= |b|
      invariant forall q :: j <= q <= |b| ==> lcs[i, q] == Cell(a, b, i, q)
      invariant forall p, q :: 0 <= p <= |a| && 0 <= q <= |b| && p != i ==> lcs[p, q] == old(lcs[p, q])
    {
      j := j - 1;
      if a[i] == b[j] {
        lcs[i, j] := lcs[i + 1, j + 1] + 1;
      } else {
        lcs[i, j] := Max(lcs[i + 1, j], lcs[i, j + 1]);
      }
    }
  }

  lemma Shift(out: seq<DiffOp>, d: DiffOp, rest: seq<DiffOp>)
    ensures out + ([d] + rest) == (out + [d]) + rest
  { }

  /** One step of the walk, on the suffixes the indices stand for. */
  lemma DiffStep(a: seq<Line>, b: seq<Line>, i: nat, j: nat)
    requires i < |a| && j < |b|
    ensures Diff(a[i..], b[j..]) ==
            if a[i] == b[j] then [DiffOp(Context, a[i])] + Diff(a[i + 1..], b[j + 1..])
            else if Lcs(a[i + 1..], b[j..]) >= Lcs(a[i..], b[j + 1..])
            then [DiffOp(Del, a[i])] + Diff(a[i + 1..], b[j..])
            else [DiffOp(Add, b[j])] + Diff(a[i..], b[j + 1..])
  {
    assert a[i..][1..] == a[i + 1..] && b[j..][1..] == b[j + 1..];
  }

  /** The walk, up to where one side is used up. */
  method Walk(a: seq<Line>, b: seq<Line>, lcs: array2<int>) returns (out: seq<DiffOp>, i: nat, j: nat)
    requires lcs.Length0 == |a| + 1 && lcs.Length1 == |b| + 1
    requires forall i, j :: 0 <= i <= |a| && 0 <= j <= |b| ==> lcs[i, j] == Lcs(a[i..], b[j..])
    ensures i <= |a| && j <= |b| && (i == |a| || j == |b|)
    ensures out + Diff(a[i..], b[j..]) == Diff(a, b)
  {
    ghost var goal := Diff(a, b);
    out, i, j := [], 0, 0;
    assert out + Diff(a[i..], b[j..]) == goal by { assert a[0..] == a && b[0..] == b; }
    while i < |a| && j < |b|
      invariant 0 <= i <= |a| && 0 <= j <= |b|
      invariant out + Diff(a[i..], b[j..]) == goal
      decreases |a| - i + |b| - j
    {
      DiffStep(a, b, i, j);
      if a[i] == b[j] {
        Shift(out, DiffOp(Context, a[i]), Diff(a[i + 1..], b[j + 1..]));
        out := out + [DiffOp(Context, a[i])];
        i, j := i + 1, j + 1;
      } else if lcs[i + 1, j] >= lcs[i, j + 1] {
        Shift(out, DiffOp(Del, a[i]), Diff(a[i + 1..], b[j..]));
        out := out + [DiffOp(Del, a[i])];
        i := i + 1;
      } else {
        Shift(out, DiffOp(Add, b[j]), Diff(a[i..], b[j + 1..]));
        out := out + [DiffOp(Add, b[j])];
        j := j + 1;
      }
    }
  }

  /** LineDiff itself. */
  method Compute(a: seq<Line>, b: seq<Line>) returns (r: DiffResult)
    ensures r.TooLarge? <==> |a| * |b| > MAX_DIFF_CELLS
    ensures r.Script? ==> r.ops == Diff(a, b)
  {
    if |a| * |b| > MAX_DIFF_CELLS { return TooLarge; }
    var lcs := FillTable(a, b);
    var out, i, j := Walk(a, b, lcs);
    ghost var before, additions := out, Tail(b[j..], Add);
    ghost var deletions := Tail(a[i..], Del);
    ghost var i0, j0 := i, j;
    while i < |a|
      invariant i0 <= i <= |a|
      invariant out == before + deletions[..i - i0]
    {
      out := out + [DiffOp(Del, a[i])];
      i := i + 1;
    }
    while j < |b|
      invariant j0 <= j <= |b|
      invariant out == before + deletions + additions[..j - j0]
    {
      out := out + [DiffOp(Add, b[j])];
      j := j + 1;
    }
    assert out == before + (deletions + additions);
    r := Script(out);
  }
}
