/** The part of a line diff the review page shows (internal/admin/review.go,
    DiffHunks): the changes, some unchanged lines around each, gaps where
    lines were left out, and no label left hanging at the end of a hunk. */
module DiffHunks {
  import opened GoText
  import opened Utf8
  import opened LineDiff
  import S = Segments

  datatype DiffLine = GapLine | OpLine(op: DiffKind, depth: int, segments: seq<S.Segment>)

  /** An entry names the line of the diff it shows, or is a gap. */
  datatype Entry = Gap | Kept(i: nat)

  // ---- Labels -----------------------------------------------------------------

  /** The last unit that is not white space is a colon. */
  predicate EndsWithColon(us: seq<Unit>) {
    us != [] && (var u := us[|us| - 1];
                 if u.Rune? && IsSpace(u.r) then EndsWithColon(us[..|us| - 1]) else u == Rune(COLON))
  }

  /** An unchanged label line, which heads what follows it. */
  predicate IsLabel(d: DiffOp) {
    d.op == Context && d.line.depth == 0 && EndsWithColon(Units(d.line.text))
  }

  // ---- What is shown ------------------------------------------------------------

  predicate IsChange(d: DiffOp) { d.op != Context }

  /** Line i is within w lines of a change. */
  ghost predicate Near(diff: seq<DiffOp>, w: int, i: int) {
    exists k :: 0 <= k < |diff| && IsChange(diff[k]) && k - w <= i <= k + w
  }

  /** Line i is on the page: near a change, and not a label whose next line
      was left out. */
  ghost predicate Shown(diff: seq<DiffOp>, w: int, i: int)
    requires 0 <= i < |diff|
  {
    Near(diff, w, i) && !(IsLabel(diff[i]) && (i + 1 == |diff| || !Near(diff, w, i + 1)))
  }

  /** A page of lines and gaps: it starts and ends with a line, neighbouring
      lines were neighbours in the diff, and one gap stands exactly where
      lines between two shown ones were left out. */
  predicate WellLaid(es: seq<Entry>) {
    if |es| == 0 then true
    else if es[0].Gap? then false
    else if |es| == 1 then true
    else if es[1].Kept? then es[0].i + 1 == es[1].i && WellLaid(es[1..])
    else |es| > 2 && es[2].Kept? && es[0].i + 1 < es[2].i && WellLaid(es[2..])
  }

  /** The lines of the diff a page shows, in its order. */
  function Lines(es: seq<Entry>): seq<nat> {
    if es == [] then [] else (if es[0].Gap? then [] else [es[0].i]) + Lines(es[1..])
  }

  /** The selected indices from i on, ascending. */
  function Indices(sel: seq<bool>, i: nat): seq<nat>
    requires i <= |sel|
    decreases |sel| - i
  {
    if i == |sel| then [] else (if sel[i] then [i] else []) + Indices(sel, i + 1)
  }

  // ---- The layout, as a function -----------------------------------------------

  /** The entries of the selected lines from i on. */
  function Lay(sel: seq<bool>, i: nat, gap: bool, started: bool): seq<Entry>
    requires i <= |sel|
    decreases |sel| - i
  {
    if i == |sel| then []
    else if !sel[i] then Lay(sel, i + 1, true, started)
    else (if gap && started then [Gap] else []) + [Kept(i)] + Lay(sel, i + 1, false, true)
  }

  ghost function NearSel(diff: seq<DiffOp>, w: int): (r: seq<bool>)
    ensures |r| == |diff|
  {
    seq(|diff|, i => Near(diff, w, i))
  }

  ghost function ShownSel(diff: seq<DiffOp>, w: int): (r: seq<bool>)
    ensures |r| == |diff|
  {
    seq(|diff|, i requires 0 <= i < |diff| => Shown(diff, w, i))
  }

  ghost function Layout(diff: seq<DiffOp>, w: int): seq<Entry> { Lay(ShownSel(diff, w), 0, false, false) }

  // ---- The layout is the right one ------------------------------------------------

  /** A page that continues one already begun. */
  predicate Continues(es: seq<Entry>, i: nat, adjacent: bool) {
    if es == [] then true
    else if adjacent then es[0] == Kept(i) && WellLaid(es)
    else |es| > 1 && es[0].Gap? && es[1].Kept? && es[1].i >= i && WellLaid(es[1..])
  }

  lemma {:induction false} LayContinues(sel: seq<bool>, i: nat, gap: bool)
    requires i <= |sel|
    ensures Continues(Lay(sel, i, gap, true), if gap || i == |sel| || sel[i] then i else i + 1,
                      !gap && i < |sel| && sel[i])
    decreases |sel| - i
  {
    if i < |sel| {
      if sel[i] {
        LayContinues(sel, i + 1, false);
        var rest := Lay(sel, i + 1, false, true);
        var page := [Kept(i)] + rest;
        assert page[1..] == rest;
        if rest != [] && rest[0].Gap? { assert page[2..] == rest[1..]; }
        assert WellLaid(page);
        if gap { assert Lay(sel, i, gap, true)[1..] == page; } else { assert Lay(sel, i, gap, true) == page; }
      } else {
        LayContinues(sel, i + 1, true);
      }
    }
  }

  lemma {:induction false} LayIsWellLaid(sel: seq<bool>, i: nat, gap: bool)
    requires i <= |sel|
    ensures WellLaid(Lay(sel, i, gap, false))
    decreases |sel| - i
  {
    if i < |sel| {
      if sel[i] {
        LayContinues(sel, i, false);
      } else {
        LayIsWellLaid(sel, i + 1, true);
      }
    }
  }

  lemma {:induction false} LayShows(sel: seq<bool>, i: nat, gap: bool, started: bool)
    requires i <= |sel|
    ensures Lines(Lay(sel, i, gap, started)) == Indices(sel, i)
    decreases |sel| - i
  {
    if i < |sel| {
      if sel[i] {
        LayShows(sel, i + 1, false, true);
        var page := [Kept(i)] + Lay(sel, i + 1, false, true);
        assert page[1..] == Lay(sel, i + 1, false, true);
        assert ([Gap] + page)[1..] == page;
      } else {
        LayShows(sel, i + 1, true, started);
      }
    }
  }

  /** Every diff and width: the page is well laid and shows exactly the lines
      it should, each once and in order. */
  lemma LayoutIsRight(diff: seq<DiffOp>, w: int)
    ensures WellLaid(Layout(diff, w))
    ensures Lines(Layout(diff, w)) == Indices(ShownSel(diff, w), 0)
  {
    LayIsWellLaid(ShownSel(diff, w), 0, false);
    LayShows(ShownSel(diff, w), 0, false, false);
  }

  lemma {:induction false} IndicesAre(sel: seq<bool>, i: nat)
    requires i <= |sel|
    ensures forall k <- Indices(sel, i) :: i <= k < |sel| && sel[k]
    ensures forall k :: i <= k < |sel| && sel[k] ==> k in Indices(sel, i)
    decreases |sel| - i
  {
    if i < |sel| {
      IndicesAre(sel, i + 1);
      Listed(i, Indices(sel, i + 1));
    }
  }

  lemma Listed(i: nat, rest: seq<nat>)
    ensures forall k :: k in [i] + rest <==> k == i || k in rest
  { }

  lemma {:induction false} IndicesAscend(sel: seq<bool>, i: nat)
    requires i <= |sel|
    ensures forall p, q :: 0 <= p < q < |Indices(sel, i)| ==> Indices(sel, i)[p] < Indices(sel, i)[q]
    decreases |sel| - i
  {
    if i < |sel| {
      IndicesAscend(sel, i + 1);
      IndicesAre(sel, i + 1);
      var rest := Indices(sel, i + 1);
      assert forall q :: 0 <= q < |rest| ==> rest[q] in rest;
    }
  }

  lemma {:induction false} NoneSelected(sel: seq<bool>, i: nat)
    requires i <= |sel| && forall k :: i <= k < |sel| ==> !sel[k]
    ensures Indices(sel, i) == []
    decreases |sel| - i
  {
    if i < |sel| { NoneSelected(sel, i + 1); }
  }

  /** Every addition and deletion is on the page when the width is not
      negative; nothing at all is when it is. Only lines near a change are. */
  lemma NoChangeIsDropped(diff: seq<DiffOp>, w: int, i: nat)
    requires i < |diff|
    ensures IsChange(diff[i]) ==> (i in Lines(Layout(diff, w)) <==> w >= 0)
    ensures i in Lines(Layout(diff, w)) ==> Near(diff, w, i)
    ensures w < 0 ==> Layout(diff, w) == []
  {
    var sel := ShownSel(diff, w);
    LayoutIsRight(diff, w);
    IndicesAre(sel, 0);
    if w < 0 {
      NoneSelected(sel, 0);
    } else if IsChange(diff[i]) {
      assert i - w <= i <= i + w;
      assert sel[i];
    }
  }

  // ---- Label trimming -----------------------------------------------------------

  predicate Droppable(es: seq<Entry>, p: nat, diff: seq<DiffOp>)
    requires p < |es|
  {
    (p == |es| - 1 || es[p + 1].Gap?) && es[p].Kept? && es[p].i < |diff| && IsLabel(diff[es[p].i])
  }

  /** The second pass over the entries: labels that end a hunk go. */
  function Trim(es: seq<Entry>, diff: seq<DiffOp>): seq<Entry> {
    if es == [] then [] else (if Droppable(es, 0, diff) then [] else [es[0]]) + Trim(es[1..], diff)
  }

  lemma NearIsBefore(diff: seq<DiffOp>, w: int, i: nat)
    requires i < |diff| && Near(diff, w, i) && !IsChange(diff[i]) && (i + 1 == |diff| || !Near(diff, w, i + 1))
    ensures i > 0 && Near(diff, w, i - 1)
  {
    var k :| 0 <= k < |diff| && IsChange(diff[k]) && k - w <= i <= k + w;
    assert k > i ==> k - w <= i + 1 <= k + w;
    assert k - w <= i - 1 <= k + w;
  }

  lemma GapFirst(sel: seq<bool>, i: nat)
    requires i <= |sel|
    ensures var es := Lay(sel, i, true, true); es == [] || es[0].Gap?
  {
    LayContinues(sel, i, true);
  }

  lemma TrimPage(lead: seq<Entry>, e: Entry, rest: seq<Entry>, diff: seq<DiffOp>)
    requires lead == [] || lead == [Gap]
    ensures Trim(lead + [e] + rest, diff) ==
            lead + (if Droppable([e] + rest, 0, diff) then [] else [e]) + Trim(rest, diff)
  {
    var page := [e] + rest;
    assert page[1..] == rest;
    if lead != [] { assert (lead + page)[1..] == page && lead + [e] + rest == lead + page; }
    else { assert lead + [e] + rest == page; }
  }

  /** What the trimming drops after a near line is laid is what is not shown. */
  lemma DropsTheHidden(diff: seq<DiffOp>, w: int, i: nat)
    requires i < |diff| && NearSel(diff, w)[i]
    ensures Droppable([Kept(i)] + Lay(NearSel(diff, w), i + 1, false, true), 0, diff) <==> !ShownSel(diff, w)[i]
  {
    var near := NearSel(diff, w);
    if i + 1 < |diff| {
      if near[i + 1] { LayContinues(near, i + 1, false); } else { GapFirst(near, i + 2); }
    }
  }

  /** Trimming the page of all near lines leaves the page of shown lines. */
  lemma {:induction false} TrimIsExact(diff: seq<DiffOp>, w: int, i: nat, gap: bool, started: bool)
    requires i <= |diff|
    requires i > 0 && Near(diff, w, i - 1) ==> !gap && started
    ensures Trim(Lay(NearSel(diff, w), i, gap, started), diff) == Lay(ShownSel(diff, w), i, gap, started)
    decreases |diff| - i
  {
    var near, shown := NearSel(diff, w), ShownSel(diff, w);
    if i < |diff| {
      if !near[i] {
        TrimIsExact(diff, w, i + 1, true, started);
      } else {
        var lead := if gap && started then [Gap] else [];
        var rest := Lay(near, i + 1, false, true);
        TrimPage(lead, Kept(i), rest, diff);
        DropsTheHidden(diff, w, i);
        if shown[i] {
          TrimIsExact(diff, w, i + 1, false, true);
        } else {
          NearIsBefore(diff, w, i);
          if i + 1 < |diff| { TrimIsExact(diff, w, i + 2, true, true); }
        }
      }
    }
  }

  /** The last pass: gaps at the end go. */
  function Strip(es: seq<Entry>): seq<Entry> {
    if es != [] && es[|es| - 1].Gap? then Strip(es[..|es| - 1]) else es
  }

  /** A well laid page has nothing to strip. */
  lemma {:induction false} WellLaidEnds(es: seq<Entry>)
    requires WellLaid(es)
    ensures es != [] ==> es[|es| - 1].Kept?
    ensures Strip(es) == es
  {
    if |es| > 1 {
      if es[1].Kept? { WellLaidEnds(es[1..]); } else { WellLaidEnds(es[2..]); }
    }
  }

  // ---- The program ----------------------------------------------------------------

  function RenderEntry(e: Entry, diff: seq<DiffOp>, hides: int -> bool): DiffLine {
    if e.Gap? || e.i >= |diff| then GapLine
    else OpLine(diff[e.i].op, diff[e.i].line.depth, S.SegmentsOf(diff[e.i].line.text, hides))
  }

  function Render(es: seq<Entry>, diff: seq<DiffOp>, hides: int -> bool): seq<DiffLine> {
    seq(|es|, p requires 0 <= p < |es| => RenderEntry(es[p], diff, hides))
  }

  /** The first pass: which lines are near a change. */
  method MarkNear(diff: seq<DiffOp>, ctx: int) returns (keep: seq<bool>)
    ensures keep == NearSel(diff, ctx)
  {
    var marks := new bool[|diff|](i => false);
    var i := 0;
    while i < |diff|
      invariant 0 <= i <= |diff|
      invariant forall j :: 0 <= j < |diff| ==>
                  (marks[j] <==> exists k :: 0 <= k < i && IsChange(diff[k]) && k - ctx <= j <= k + ctx)
    {
      if IsChange(diff[i]) {
        var j := Max(0, i - ctx);
        var hi := if |diff| - 1 <= i + ctx then |diff| - 1 else i + ctx;
        ghost var before := marks[..];
        while j <= hi
          invariant Max(0, i - ctx) <= j
          invariant forall m :: 0 <= m < |diff| ==>
                      marks[m] == (before[m] || (i - ctx <= m <= i + ctx && m < j))
        {
          marks[j] := true;
          j := j + 1;
        }
      }
      i := i + 1;
    }
    keep := marks[..];
  }

  /** The second pass: an entry per near line, and the gaps. */
  method Enter(keep: seq<bool>) returns (out: seq<Entry>)
    ensures out == Lay(keep, 0, false, false)
  {
    out := [];
    var gap, i := false, 0;
    while i < |keep|
      invariant 0 <= i <= |keep|
      invariant out + Lay(keep, i, gap, out != []) == Lay(keep, 0, false, false)
    {
      if !keep[i] {
        gap := true;
      } else {
        if gap && |out| > 0 { out := out + [Gap]; }
        gap := false;
        out := out + [Kept(i)];
      }
      i := i + 1;
    }
  }

  /** The third pass: labels that end a hunk go, then gaps at the end. */
  method TrimLabels(out: seq<Entry>, diff: seq<DiffOp>) returns (trimmed: seq<Entry>)
    ensures trimmed == Strip(Trim(out, diff))
  {
    trimmed := [];
    var i := 0;
    assert out[0..] == out;
    while i < |out|
      invariant 0 <= i <= |out|
      invariant trimmed + Trim(out[i..], diff) == Trim(out, diff)
    {
      TrimStep(out, i, diff, trimmed);
      if !Droppable(out, i, diff) { trimmed := trimmed + [out[i]]; }
      i := i + 1;
    }
    assert trimmed == Trim(out, diff);
    trimmed := StripGaps(trimmed);
  }

  lemma TrimStep(out: seq<Entry>, i: nat, diff: seq<DiffOp>, trimmed: seq<Entry>)
    requires i < |out|
    ensures trimmed + Trim(out[i..], diff) ==
            (if Droppable(out, i, diff) then trimmed else trimmed + [out[i]]) + Trim(out[i + 1..], diff)
  {
    var rest := out[i..];
    assert rest[1..] == out[i + 1..];
    assert Droppable(rest, 0, diff) == Droppable(out, i, diff);
    if Droppable(out, i, diff) {
      assert Trim(rest, diff) == [] + Trim(out[i + 1..], diff);
    } else {
      assert Trim(rest, diff) == [out[i]] + Trim(out[i + 1..], diff);
    }
  }

  method StripGaps(es: seq<Entry>) returns (out: seq<Entry>)
    ensures out == Strip(es)
  {
    out := es;
    while |out| > 0 && out[|out| - 1].Gap?
      invariant Strip(out) == Strip(es)
    {
      out := out[..|out| - 1];
    }
  }

  method RenderAll(es: seq<Entry>, diff: seq<DiffOp>, hides: int -> bool) returns (res: seq<DiffLine>)
    ensures res == Render(es, diff, hides)
  {
    res := [];
    var i := 0;
    while i < |es|
      invariant 0 <= i <= |es| == |Render(es, diff, hides)|
      invariant res == Render(es, diff, hides)[..i]
    {
      var line := GapLine;
      if es[i].Kept? && es[i].i < |diff| {
        var d := diff[es[i].i];
        var segs := S.SplitSegments(d.line.text, hides);
        line := OpLine(d.op, d.line.depth, segs);
      }
      assert line == RenderEntry(es[i], diff, hides);
      res := res + [line];
      i := i + 1;
    }
  }

  /** DiffHunks. */
  method Hunks(diff: seq<DiffOp>, ctx: int, hides: int -> bool) returns (res: seq<DiffLine>)
    ensures res == Render(Layout(diff, ctx), diff, hides)
  {
    var keep := MarkNear(diff, ctx);
    var out := Enter(keep);
    var trimmed := TrimLabels(out, diff);
    TrimIsExact(diff, ctx, 0, false, false);
    LayoutIsRight(diff, ctx);
    WellLaidEnds(Layout(diff, ctx));
    res := RenderAll(trimmed, diff, hides);
  }
}
