/** What the review of a changed definition shows: the definitions' lines, their
    diff and the page cut from it, together (internal/admin/review.go and
    internal/admin/tools.go). */
module ReviewPage {
  import opened GoText
  import opened LineDiff
  import D = Definition
  import H = DiffHunks

  lemma {:induction false} AChangeIsSomewhere(ops: seq<DiffOp>) returns (i: nat)
    requires Changes(ops) > 0
    ensures i < |ops| && H.IsChange(ops[i])
  {
    if H.IsChange(ops[0]) {
      i := 0;
    } else {
      i := AChangeIsSomewhere(ops[1..]);
      i := i + 1;
    }
  }

  lemma {:induction false} NoChangeAnywhere(ops: seq<DiffOp>)
    requires Changes(ops) == 0
    ensures forall i :: 0 <= i < |ops| ==> !H.IsChange(ops[i])
  {
    if ops != [] {
      NoChangeAnywhere(ops[1..]);
      assert forall i :: 0 < i < |ops| ==> ops[i] == ops[1..][i - 1];
    }
  }

  /** A page with nothing on it but gaps is empty. */
  lemma NoLinesNoPage(diff: seq<DiffOp>, ctx: int)
    requires H.Lines(H.Layout(diff, ctx)) == []
    ensures H.Layout(diff, ctx) == []
  {
    H.LayoutIsRight(diff, ctx);
  }

  /** For every width that is not negative, the page of two definitions is empty
      if and only if their names, descriptions and rendered schemas are equal:
      an operator is never shown nothing for a definition that changed. */
  lemma PageIsEmptyIffSame(v: D.View, w: D.View, ctx: int)
    requires ctx >= 0
    ensures H.Layout(Diff(D.Lines(v), D.Lines(w)), ctx) == [] <==> v == w
  {
    var diff := Diff(D.Lines(v), D.Lines(w));
    AllContextIffEqual(D.Lines(v), D.Lines(w));
    D.LinesReadBack(v);
    D.LinesReadBack(w);
    if v != w {
      var i := AChangeIsSomewhere(diff);
      H.NoChangeIsDropped(diff, ctx, i);
    } else {
      NoChangeAnywhere(diff);
      NothingNear(diff, ctx);
      NoLinesNoPage(diff, ctx);
    }
  }

  lemma NothingNear(diff: seq<DiffOp>, ctx: int)
    requires forall i :: 0 <= i < |diff| ==> !H.IsChange(diff[i])
    ensures H.Lines(H.Layout(diff, ctx)) == []
  {
    var lines := H.Lines(H.Layout(diff, ctx));
    H.LayoutIsRight(diff, ctx);
    H.NoneSelected(H.ShownSel(diff, ctx), 0);
  }
}
