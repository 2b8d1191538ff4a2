/** Review text split from its raw bytes (internal/admin/review.go, Segments
    and MultilineSegments). `hides` is visible.Hides, left uninterpreted. */
module Segments {
  import opened GoText
  import opened Utf8

  datatype Segment = Text(text: Bytes) | Hidden(codePoint: string) | InvalidByte(hex: string) | Newline

  // ---- %04X and %02X --------------------------------------------------------

  const DIGITS: string := "0123456789ABCDEF"

  function Hex(n: nat, width: nat): (s: string)
    ensures |s| >= width && |s| > 0
    decreases n + width
  {
    if n < 16 && width <= 1 then [DIGITS[n]]
    else Hex(n / 16, if width == 0 then 0 else width - 1) + [DIGITS[n % 16]]
  }

  function DigitValue(c: char): nat {
    if '0' <= c <= '9' then c as nat - '0' as nat
    else if 'A' <= c <= 'F' then c as nat - 'A' as nat + 10
    else 0
  }

  function ParseHex(s: string): nat {
    if s == "" then 0 else ParseHex(s[..|s| - 1]) * 16 + DigitValue(s[|s| - 1])
  }

  lemma DigitIsRead(d: nat)
    requires d < 16
    ensures DigitValue(DIGITS[d]) == d
  { }

  lemma ParseSnoc(high: string, d: nat)
    requires d < 16
    ensures ParseHex(high + [DIGITS[d]]) == ParseHex(high) * 16 + d
  {
    DigitIsRead(d);
    var s := high + [DIGITS[d]];
    assert s[..|s| - 1] == high;
  }

  lemma {:induction false} ParseHexOfHex(n: nat, width: nat)
    ensures ParseHex(Hex(n, width)) == n
    decreases n + width
  {
    if n < 16 && width <= 1 {
      ParseSnoc("", n);
      assert Hex(n, width) == "" + [DIGITS[n]];
    } else {
      var less := if width == 0 then 0 else width - 1;
      ParseHexOfHex(n / 16, less);
      ParseSnoc(Hex(n / 16, less), n % 16);
    }
  }

  function CodePoint(r: nat): string { "U+" + Hex(r, 4) }

  lemma CodePointParses(r: nat)
    ensures ParseHex(CodePoint(r)[2..]) == r
  {
    ParseHexOfHex(r, 4);
    assert CodePoint(r)[2..] == Hex(r, 4);
  }

  // ---- Reading segments back -----------------------------------------------

  /** The units a segment shows. */
  function Shown(g: Segment): seq<Unit> {
    match g
    case Text(t) => Units(t)
    case Hidden(cp) => [Rune(if |cp| < 2 then 0 else ParseHex(cp[2..]))]
    case InvalidByte(h) => if ParseHex(h) < 256 then [Bad(ParseHex(h))] else []
    case Newline => [Rune(NEWLINE)]
  }

  function ShownAll(segs: seq<Segment>): seq<Unit> {
    if segs == [] then [] else Shown(segs[0]) + ShownAll(segs[1..])
  }

  /** The bytes a segment stands for: text as it is, a code point encoded
      again, an invalid byte raw. */
  function Written(g: Segment): Bytes {
    match g
    case Text(t) => t
    case Hidden(cp) =>
      if |cp| >= 2 && Scalar(ParseHex(cp[2..])) then Encode(ParseHex(cp[2..])) else []
    case InvalidByte(h) => if ParseHex(h) < 256 then [ParseHex(h)] else []
    case Newline => [NEWLINE]
  }

  function Rebuild(segs: seq<Segment>): Bytes {
    if segs == [] then [] else Written(segs[0]) + Rebuild(segs[1..])
  }

  lemma Associate(a: Bytes, b: Bytes, c: Bytes)
    ensures (a + b) + c == a + (b + c)
  { }

  lemma ConsConcat(x: seq<Segment>, y: seq<Segment>)
    requires x != []
    ensures x + y == [x[0]] + (x[1..] + y) && x == [x[0]] + x[1..]
  { }

  lemma RebuildCons(g: Segment, rest: seq<Segment>)
    ensures Rebuild([g] + rest) == Written(g) + Rebuild(rest)
  {
    assert ([g] + rest)[1..] == rest;
  }

  lemma {:induction false} RebuildConcat(x: seq<Segment>, y: seq<Segment>)
    ensures Rebuild(x + y) == Rebuild(x) + Rebuild(y)
  {
    if x == [] {
      assert x + y == y;
    } else {
      RebuildConcat(x[1..], y);
      ConsConcat(x, y);
      RebuildCons(x[0], x[1..] + y);
      RebuildCons(x[0], x[1..]);
      Associate(Written(x[0]), Rebuild(x[1..]), Rebuild(y));
    }
  }

  // ---- What a proper segmentation is ------------------------------------------

  /** A unit shown as plain text. */
  predicate Plain(u: Unit, hides: int -> bool) { u.Rune? && !hides(u.r) }

  predicate AllPlain(us: seq<Unit>, hides: int -> bool) { forall u <- us :: Plain(u, hides) }

  predicate Proper(g: Segment, hides: int -> bool) {
    match g
    case Text(t) => t != [] && Valid(t) && AllPlain(Units(t), hides)
    case Hidden(cp) => |cp| >= 2 && cp == CodePoint(ParseHex(cp[2..])) && hides(ParseHex(cp[2..]))
    case InvalidByte(h) => ParseHex(h) < 256 && h == Hex(ParseHex(h), 2)
    case Newline => false
  }

  /** Every segment proper, and no text next to a text. */
  predicate Canonical(segs: seq<Segment>, hides: int -> bool) {
    && (forall g <- segs :: Proper(g, hides))
    && (forall k :: 0 <= k < |segs| - 1 ==> !(segs[k].Text? && segs[k + 1].Text?))
  }

  // ---- The specification of Segments -----------------------------------------

  function Flush(text: Bytes): seq<Segment> { if text == [] then [] else [Text(text)] }

  /** The segment of a unit that is not shown as text. */
  function Mark(u: Unit): Segment {
    match u
    case Bad(b) => InvalidByte(Hex(b, 2))
    case Rune(r) => Hidden(CodePoint(if r < 0 then 0 else r))
  }

  /** The segments of the units `us`, with `text` gathered before them and not
      flushed yet. */
  function Group(text: Bytes, us: seq<Unit>, hides: int -> bool): seq<Segment>
    decreases |us|
  {
    if us == [] then Flush(text)
    else if Plain(us[0], hides) then Group(text + Raw(us[0]), us[1..], hides)
    else Flush(text) + [Mark(us[0])] + Group([], us[1..], hides)
  }

  function SegmentsOf(s: Bytes, hides: int -> bool): seq<Segment> { Group([], Units(s), hides) }

  lemma MarkSays(u: Unit, hides: int -> bool)
    requires Sound([u])
    ensures Written(Mark(u)) == Raw(u) && Shown(Mark(u)) == [u]
    ensures !Plain(u, hides) ==> Proper(Mark(u), hides)
  {
    assert u in [u];
    match u
    case Bad(b) => ParseHexOfHex(b, 2);
    case Rune(r) => CodePointParses(r);
  }

  lemma AfterFlush(text: Bytes, g: Segment, rest: seq<Segment>)
    ensures Rebuild(Flush(text) + [g] + rest) == text + Written(g) + Rebuild(rest)
  {
    RebuildConcat(Flush(text) + [g], rest);
    RebuildConcat(Flush(text), [g]);
  }

  lemma {:induction false} GroupRebuilds(text: Bytes, us: seq<Unit>, hides: int -> bool)
    requires Sound(us)
    ensures Rebuild(Group(text, us, hides)) == text + Flat(us)
    decreases |us|
  {
    if us == [] {
      FlushRebuilds(text);
    } else {
      var u, rest := us[0], us[1..];
      Associate(text, Raw(u), Flat(rest));
      if Plain(u, hides) {
        GroupRebuilds(text + Raw(u), rest, hides);
      } else {
        GroupRebuilds([], rest, hides);
        MarkSays(u, hides);
        AfterFlush(text, Mark(u), Group([], rest, hides));
        assert [] + Flat(rest) == Flat(rest);
      }
    }
  }

  lemma FlushRebuilds(text: Bytes)
    ensures Rebuild(Flush(text)) == text && text == text + []
  {
    if text != [] { RebuildCons(Text(text), []); }
  }

  /** Writing the segments of s back gives s. */
  lemma SegmentsAreLossless(s: Bytes, hides: int -> bool)
    ensures Rebuild(SegmentsOf(s, hides)) == s
  {
    FlatUnits(s);
    GroupRebuilds([], Units(s), hides);
  }

  predicate PlainText(text: Bytes, hides: int -> bool) { Valid(text) && AllPlain(Units(text), hides) }

  lemma ExtendPlain(text: Bytes, r: int, hides: int -> bool)
    requires PlainText(text, hides) && Scalar(r) && !hides(r)
    ensures PlainText(text + Encode(r), hides)
    ensures Units(text + Encode(r)) == Units(text) + [Rune(r)]
  {
    OneRune(r);
    UnitsConcat(text, Encode(r));
  }

  lemma CanonicalStep(text: Bytes, g: Segment, rest: seq<Segment>, hides: int -> bool)
    requires PlainText(text, hides) && Proper(g, hides) && !g.Text? && Canonical(rest, hides)
    ensures Canonical(Flush(text) + [g] + rest, hides)
  {
    var all := Flush(text) + [g] + rest;
    forall x <- all ensures Proper(x, hides) { }
    forall k | 0 <= k < |all| - 1 ensures !(all[k].Text? && all[k + 1].Text?) {
      var n := |Flush(text)| + 1;
      if k >= n { assert all[k] == rest[k - n] && all[k + 1] == rest[k - n + 1]; }
    }
  }

  lemma {:induction false} GroupIsCanonical(text: Bytes, us: seq<Unit>, hides: int -> bool)
    requires Sound(us) && PlainText(text, hides)
    ensures Canonical(Group(text, us, hides), hides)
    decreases |us|
  {
    if us != [] {
      var u, rest := us[0], us[1..];
      if Plain(u, hides) {
        ExtendPlain(text, u.r, hides);
        GroupIsCanonical(text + Raw(u), rest, hides);
      } else {
        GroupIsCanonical([], rest, hides);
        MarkSays(u, hides);
        CanonicalStep(text, Mark(u), Group([], rest, hides), hides);
      }
    }
  }

  /** Text segments are maximal, non-empty and free of hidden code points and
      invalid bytes; everything else is one of those, by its own name. */
  lemma SegmentsAreCanonical(s: Bytes, hides: int -> bool)
    ensures Canonical(SegmentsOf(s, hides), hides)
  {
    FlatUnits(s);
    GroupIsCanonical([], Units(s), hides);
  }

  // ---- Only one canonical segmentation shows what the bytes hold --------------

  lemma ThreeUnits(a: seq<Unit>, b: seq<Unit>, c: seq<Unit>)
    ensures (a + b) + c == a + (b + c)
  { }

  lemma ShownCons(g: Segment, rest: seq<Segment>)
    ensures ShownAll([g] + rest) == Shown(g) + ShownAll(rest)
  {
    assert ([g] + rest)[1..] == rest;
  }

  lemma {:induction false} ShownConcat(x: seq<Segment>, y: seq<Segment>)
    ensures ShownAll(x + y) == ShownAll(x) + ShownAll(y)
  {
    if x == [] {
      assert x + y == y;
    } else {
      ShownConcat(x[1..], y);
      ConsConcat(x, y);
      ShownCons(x[0], x[1..] + y);
      ShownCons(x[0], x[1..]);
      ThreeUnits(Shown(x[0]), ShownAll(x[1..]), ShownAll(y));
    }
  }

  lemma {:induction false} GroupShows(text: Bytes, us: seq<Unit>, hides: int -> bool)
    requires Sound(us) && PlainText(text, hides)
    ensures ShownAll(Group(text, us, hides)) == Units(text) + us
    decreases |us|
  {
    if us == [] {
      FlushShows(text);
    } else {
      var u, rest := us[0], us[1..];
      InOrder(Units(text), us);
      if Plain(u, hides) {
        ExtendPlain(text, u.r, hides);
        GroupShows(text + Raw(u), rest, hides);
      } else {
        GroupShows([], rest, hides);
        MarkSays(u, hides);
        ShownAfterFlush(text, Mark(u), Group([], rest, hides));
        assert [] + rest == rest;
      }
    }
  }

  lemma InOrder(before: seq<Unit>, us: seq<Unit>)
    requires us != []
    ensures before + [us[0]] + us[1..] == before + us
  { }

  lemma FlushShows(text: Bytes)
    ensures ShownAll(Flush(text)) == Units(text) && Units(text) == Units(text) + []
  {
    if text != [] { ShownOne(Text(text)); }
  }

  lemma ShownAfterFlush(text: Bytes, g: Segment, rest: seq<Segment>)
    ensures ShownAll(Flush(text) + [g] + rest) == Units(text) + Shown(g) + ShownAll(rest)
  {
    ShownConcat(Flush(text) + [g], rest);
    ShownConcat(Flush(text), [g]);
    ShownOne(g);
    FlushShows(text);
  }

  lemma ShownOne(g: Segment)
    ensures ShownAll([g]) == Shown(g)
  {
    assert [g][1..] == [];
  }

  /** The segments of s show exactly the code points and invalid bytes of s,
      in order: no segment reads differently alone than inside s. */
  lemma SegmentsShowUnits(s: Bytes, hides: int -> bool)
    ensures ShownAll(SegmentsOf(s, hides)) == Units(s)
  {
    FlatUnits(s);
    GroupShows([], Units(s), hides);
  }

  /** A text segment ends where the plain units end. */
  lemma TextEnds(t: Bytes, rest: seq<Segment>, hides: int -> bool)
    requires Canonical([Text(t)] + rest, hides)
    ensures ShownAll([Text(t)] + rest) == Units(t) + ShownAll(rest)
    ensures AllPlain(Units(t), hides)
    ensures rest != [] ==> ShownAll(rest) != [] && !Plain(ShownAll(rest)[0], hides)
    ensures Units(t) != []
  {
    var all := [Text(t)] + rest;
    assert all[0] in all && all[1..] == rest;
    if rest != [] {
      assert all[1] == rest[0] && rest[0] in all && !(all[0].Text? && all[1].Text?);
    }
  }

  lemma CanonicalTail(segs: seq<Segment>, hides: int -> bool)
    requires segs != [] && Canonical(segs, hides)
    ensures Canonical(segs[1..], hides) && Proper(segs[0], hides)
  { }

  lemma SameBoundary(p: seq<Unit>, x: seq<Unit>, q: seq<Unit>, y: seq<Unit>, hides: int -> bool)
    requires p + x == q + y && AllPlain(p, hides) && AllPlain(q, hides)
    requires x == [] || !Plain(x[0], hides)
    requires y == [] || !Plain(y[0], hides)
    ensures p == q && x == y
  {
    var all := p + x;
    assert forall k :: 0 <= k < |p| ==> all[k] == p[k] && p[k] in p;
    assert forall k :: 0 <= k < |q| ==> all[k] == (q + y)[k] == q[k] && q[k] in q;
    assert |p| < |all| ==> !Plain(all[|p|], hides);
    assert |q| < |all| ==> all[|q|] == (q + y)[|q|] && !Plain(all[|q|], hides);
    assert |p| == |q|;
    assert all[..|p|] == p && (q + y)[..|p|] == q && all[|p|..] == x && (q + y)[|p|..] == y;
  }

  lemma {:induction false} CanonicalIsUnique(x: seq<Segment>, y: seq<Segment>, hides: int -> bool)
    requires Canonical(x, hides) && Canonical(y, hides) && ShownAll(x) == ShownAll(y)
    ensures x == y
    decreases |x|
  {
    NothingShown(x, hides);
    NothingShown(y, hides);
    if x != [] && y != [] {
      CanonicalTail(x, hides);
      CanonicalTail(y, hides);
      SameHeads(x, y, hides);
      CanonicalIsUnique(x[1..], y[1..], hides);
      assert x == [x[0]] + x[1..] && y == [y[0]] + y[1..];
    }
  }

  lemma SameHeads(x: seq<Segment>, y: seq<Segment>, hides: int -> bool)
    requires x != [] && y != [] && Canonical(x, hides) && Canonical(y, hides) && ShownAll(x) == ShownAll(y)
    ensures x[0] == y[0] && ShownAll(x[1..]) == ShownAll(y[1..])
  {
    CanonicalTail(x, hides);
    CanonicalTail(y, hides);
    FirstShown(x, hides);
    FirstShown(y, hides);
    if x[0].Text? {
      assert x == [Text(x[0].text)] + x[1..] && y == [Text(y[0].text)] + y[1..];
      SameTexts(x[0].text, x[1..], y[0].text, y[1..], hides);
    } else {
      assert ShownAll(x)[1..] == ShownAll(y)[1..];
    }
  }

  lemma SameTexts(s: Bytes, x: seq<Segment>, t: Bytes, y: seq<Segment>, hides: int -> bool)
    requires Canonical([Text(s)] + x, hides) && Canonical([Text(t)] + y, hides)
             && ShownAll([Text(s)] + x) == ShownAll([Text(t)] + y)
    ensures s == t && ShownAll(x) == ShownAll(y)
  {
    TextEnds(s, x, hides);
    TextEnds(t, y, hides);
    ShownCons(Text(s), x);
    ShownCons(Text(t), y);
    SameBoundary(Units(s), ShownAll(x), Units(t), ShownAll(y), hides);
    FlatUnits(s);
    FlatUnits(t);
  }

  lemma NothingShown(x: seq<Segment>, hides: int -> bool)
    requires Canonical(x, hides)
    ensures x == [] <==> ShownAll(x) == []
  {
    if x != [] { FirstShown(x, hides); }
  }

  /** What the first unit says about the first segment. */
  lemma FirstShown(x: seq<Segment>, hides: int -> bool)
    requires x != [] && Canonical(x, hides)
    ensures ShownAll(x) != []
    ensures x[0].Text? <==> Plain(ShownAll(x)[0], hides)
    ensures !x[0].Text? ==> ShownAll(x) == [ShownAll(x)[0]] + ShownAll(x[1..])
    ensures x[0].InvalidByte? ==> ShownAll(x)[0].Bad? && x[0] == InvalidByte(Hex(ShownAll(x)[0].b, 2))
    ensures x[0].Hidden? ==> ShownAll(x)[0].Rune? && ShownAll(x)[0].r >= 0
                             && x[0] == Hidden(CodePoint(ShownAll(x)[0].r))
  {
    assert Proper(x[0], hides) by { assert x[0] in x; }
  }

  /** SegmentsOf is the only canonical segmentation that shows s. */
  lemma SegmentsAreTheOnlyOnes(s: Bytes, segs: seq<Segment>, hides: int -> bool)
    requires Canonical(segs, hides) && ShownAll(segs) == Units(s)
    ensures segs == SegmentsOf(s, hides)
  {
    SegmentsAreCanonical(s, hides);
    SegmentsShowUnits(s, hides);
    CanonicalIsUnique(segs, SegmentsOf(s, hides), hides);
  }

  // ---- Several lines -----------------------------------------------------------

  /** strings.TrimSuffix(line, "\r"). */
  function TrimReturn(line: Bytes): Bytes {
    if line != [] && line[|line| - 1] == RETURN then line[..|line| - 1] else line
  }

  /** Every line but the last without its carriage return. */
  function Trimmed(lines: seq<Bytes>): (r: seq<Bytes>)
    requires |lines| > 0
    ensures |r| == |lines|
  {
    if |lines| == 1 then lines else [TrimReturn(lines[0])] + Trimmed(lines[1..])
  }

  /** Segments of each line, newlines between them. */
  function LinesOf(lines: seq<Bytes>, hides: int -> bool): seq<Segment>
    requires |lines| > 0
  {
    SegmentsOf(lines[0], hides) + (if |lines| == 1 then [] else [Newline] + LinesOf(lines[1..], hides))
  }

  function MultilineOf(s: Bytes, hides: int -> bool): seq<Segment> {
    LinesOf(Trimmed(Split(s, NEWLINE)), hides)
  }

  /** s with every CR LF replaced by LF; a lone CR stays. */
  function CrLfToLf(s: Bytes): Bytes {
    if |s| >= 2 && s[0] == RETURN && s[1] == NEWLINE then [NEWLINE] + CrLfToLf(s[2..])
    else if s == [] then [] else [s[0]] + CrLfToLf(s[1..])
  }

  lemma {:induction false} RebuildLines(lines: seq<Bytes>, hides: int -> bool)
    requires |lines| > 0
    ensures Rebuild(LinesOf(lines, hides)) == Join(lines, NEWLINE)
  {
    SegmentsAreLossless(lines[0], hides);
    if |lines| > 1 {
      RebuildLines(lines[1..], hides);
      RebuildConcat([Newline], LinesOf(lines[1..], hides));
      RebuildConcat(SegmentsOf(lines[0], hides), [Newline] + LinesOf(lines[1..], hides));
    } else {
      assert LinesOf(lines, hides) == SegmentsOf(lines[0], hides);
    }
  }

  lemma {:induction false} TrimmedJoin(s: Bytes)
    ensures Join(Trimmed(Split(s, NEWLINE)), NEWLINE) == CrLfToLf(s)
  {
    if s != [] {
      var rest := Split(s[1..], NEWLINE);
      var parts := Split(s, NEWLINE);
      TrimmedJoin(s[1..]);
      if s[0] == NEWLINE {
        assert parts[1..] == rest;
      } else {
        assert parts[1..] == rest[1..];
        if |rest| > 1 {
          JoinTrimmed(rest);
          JoinTrimmed(parts);
          FirstLine(s[1..]);
          TrimFirst(s, rest[0], [NEWLINE] + Join(Trimmed(rest[1..]), NEWLINE));
        }
      }
    }
  }

  lemma JoinTrimmed(lines: seq<Bytes>)
    requires |lines| > 1
    ensures Join(Trimmed(lines), NEWLINE) == TrimReturn(lines[0]) + ([NEWLINE] + Join(Trimmed(lines[1..]), NEWLINE))
  {
    assert Trimmed(lines)[1..] == Trimmed(lines[1..]);
  }

  lemma TrimGrows(c: Byte, line: Bytes)
    ensures line != [] ==> TrimReturn([c] + line) == [c] + TrimReturn(line)
  { }

  lemma CrLfHead(s: Bytes)
    requires s != [] && s[0] != NEWLINE
    ensures |s| >= 2 && s[1] == NEWLINE ==> CrLfToLf(s) == TrimReturn([s[0]]) + CrLfToLf(s[1..])
    ensures |s| < 2 || s[1] != NEWLINE ==> CrLfToLf(s) == [s[0]] + CrLfToLf(s[1..])
  {
    if |s| >= 2 && s[1] == NEWLINE { assert s[1..][1..] == s[2..]; }
  }

  lemma FirstLine(s: Bytes)
    requires |Split(s, NEWLINE)| > 1
    ensures s != [] && (Split(s, NEWLINE)[0] == [] <==> s[0] == NEWLINE)
  { }

  /** The first line of several: its CR goes exactly when the LF follows it. */
  lemma TrimFirst(s: Bytes, line: Bytes, after: Bytes)
    requires |s| >= 2 && s[0] != NEWLINE && (line == [] <==> s[1] == NEWLINE)
    requires TrimReturn(line) + after == CrLfToLf(s[1..])
    ensures TrimReturn([s[0]] + line) + after == CrLfToLf(s)
  {
    CrLfHead(s);
    if line == [] {
      assert [s[0]] + line == [s[0]] && TrimReturn(line) == [] && [] + after == after;
    } else {
      TrimGrows(s[0], line);
      Associate([s[0]], TrimReturn(line), after);
    }
  }


  /** Writing the multi-line segments of s back gives s with every CR LF
      turned into LF, and nothing else changed. */
  lemma MultilineIsNormalised(s: Bytes, hides: int -> bool)
    ensures Rebuild(MultilineOf(s, hides)) == CrLfToLf(s)
  {
    RebuildLines(Trimmed(Split(s, NEWLINE)), hides);
    TrimmedJoin(s);
  }

  // ---- How many hidden units a reader is told of ------------------------------

  function HiddenIn(us: seq<Unit>, hides: int -> bool): nat {
    if us == [] then 0 else (if us[0].Bad? || hides(us[0].r) then 1 else 0) + HiddenIn(us[1..], hides)
  }

  /** visible.Hidden: the hidden code points and invalid bytes of s. */
  function HiddenCount(s: Bytes, hides: int -> bool): nat { HiddenIn(Units(s), hides) }

  /** The same over several lines, as DefinitionLines adds them up. */
  function HiddenAll(texts: seq<Bytes>, hides: int -> bool): nat {
    if texts == [] then 0 else HiddenAll(texts[..|texts| - 1], hides) + HiddenCount(texts[|texts| - 1], hides)
  }

  /** The segments that point at something hidden or invalid. */
  function Marks(segs: seq<Segment>): nat {
    if segs == [] then 0
    else (if segs[0].Hidden? || segs[0].InvalidByte? then 1 else 0) + Marks(segs[1..])
  }

  lemma {:induction false} MarksConcat(x: seq<Segment>, y: seq<Segment>)
    ensures Marks(x + y) == Marks(x) + Marks(y)
  {
    if x == [] {
      assert x + y == y;
    } else {
      MarksConcat(x[1..], y);
      assert (x + y)[1..] == x[1..] + y;
    }
  }

  lemma {:induction false} GroupMarks(text: Bytes, us: seq<Unit>, hides: int -> bool)
    ensures Marks(Group(text, us, hides)) == HiddenIn(us, hides)
    decreases |us|
  {
    if us != [] {
      if Plain(us[0], hides) {
        GroupMarks(text + Raw(us[0]), us[1..], hides);
      } else {
        GroupMarks([], us[1..], hides);
        MarksConcat(Flush(text) + [Mark(us[0])], Group([], us[1..], hides));
        MarksConcat(Flush(text), [Mark(us[0])]);
      }
    }
  }

  lemma {:induction false} HiddenConcat(us: seq<Unit>, vs: seq<Unit>, hides: int -> bool)
    ensures HiddenIn(us + vs, hides) == HiddenIn(us, hides) + HiddenIn(vs, hides)
  {
    if us == [] {
      assert us + vs == vs;
    } else {
      HiddenConcat(us[1..], vs, hides);
      assert (us + vs)[1..] == us[1..] + vs;
    }
  }

  lemma SizeBeforeReturn(s: Bytes)
    requires s != []
    ensures Size(s + [RETURN]) == Size(s)
    ensures Size(s) > 0 ==> Decode(s + [RETURN]) == Decode(s)
  { }

  /** An ASCII byte at the end is read on its own, even after a cut-off
      encoding. */
  lemma {:induction false} UnitsBeforeReturn(s: Bytes)
    ensures Units(s + [RETURN]) == Units(s) + [Rune(RETURN)]
    decreases |s|
  {
    var whole := s + [RETURN];
    if s == [] {
      assert whole == [RETURN] && whole[1..] == [];
    } else {
      SizeBeforeReturn(s);
      UnitsBeforeReturn(s[Step(s)..]);
      assert whole[Step(s)..] == s[Step(s)..] + [RETURN];
    }
  }

  /** The lines that end in CR LF. */
  function CrLfs(lines: seq<Bytes>): nat
    requires |lines| > 0
  {
    if |lines| == 1 then 0
    else (if TrimReturn(lines[0]) == lines[0] then 0 else 1) + CrLfs(lines[1..])
  }

  lemma TrimmedHidden(line: Bytes, hides: int -> bool)
    ensures HiddenCount(line, hides) ==
            HiddenCount(TrimReturn(line), hides)
            + (if TrimReturn(line) != line && hides(RETURN) then 1 else 0)
  {
    var short := TrimReturn(line);
    if short != line {
      assert line == short + [RETURN];
      UnitsBeforeReturn(short);
      HiddenConcat(Units(short), [Rune(RETURN)], hides);
    }
  }

  lemma {:induction false} HiddenAllHead(texts: seq<Bytes>, hides: int -> bool)
    requires texts != []
    ensures HiddenAll(texts, hides) == HiddenCount(texts[0], hides) + HiddenAll(texts[1..], hides)
  {
    var n := |texts| - 1;
    if n > 0 {
      HiddenAllHead(texts[..n], hides);
      assert texts[..n][1..] == texts[1..][..n - 1];
    } else {
      assert texts[..0] == [];
    }
  }

  lemma {:induction false} LineMarks(lines: seq<Bytes>, hides: int -> bool)
    requires |lines| > 0
    ensures HiddenAll(lines, hides) ==
            Marks(LinesOf(Trimmed(lines), hides)) + (if hides(RETURN) then CrLfs(lines) else 0)
  {
    HiddenAllHead(lines, hides);
    if |lines| == 1 {
      GroupMarks([], Units(lines[0]), hides);
      assert LinesOf(lines, hides) == SegmentsOf(lines[0], hides);
    } else {
      var short := TrimReturn(lines[0]);
      TrimmedHidden(lines[0], hides);
      GroupMarks([], Units(short), hides);
      LineMarks(lines[1..], hides);
      var rest := LinesOf(Trimmed(lines[1..]), hides);
      assert Trimmed(lines)[1..] == Trimmed(lines[1..]);
      MarksConcat([Newline], rest);
      MarksConcat(SegmentsOf(short, hides), [Newline] + rest);
    }
  }

  /** For one line, the count told is the number of marks shown. For a text of
      several lines the count is larger by one for every CR LF, when a
      carriage return hides: the description field takes CR LF as a line break,
      the count does not. */
  lemma CountedAgainstShown(s: Bytes, hides: int -> bool)
    ensures HiddenCount(s, hides) == Marks(SegmentsOf(s, hides))
    ensures HiddenAll(Split(s, NEWLINE), hides) ==
            Marks(MultilineOf(s, hides)) + (if hides(RETURN) then CrLfs(Split(s, NEWLINE)) else 0)
  {
    GroupMarks([], Units(s), hides);
    LineMarks(Split(s, NEWLINE), hides);
  }

  /** So a bare CR LF is counted once and not marked at all. */
  lemma ABreakIsCountedNotShown(hides: int -> bool)
    requires hides(RETURN)
    ensures var s := [RETURN, NEWLINE];
            HiddenAll(Split(s, NEWLINE), hides) == 1 && Marks(MultilineOf(s, hides)) == 0
  {
    var s := [RETURN, NEWLINE];
    var last := [NEWLINE];
    assert s[1..] == last && last[1..] == [];
    assert Split(last[1..], NEWLINE) == [[]];
    assert Split(last, NEWLINE) == [[]] + [[]];
    var rest := Split(s[1..], NEWLINE);
    assert s[0] == RETURN != NEWLINE && rest[0] == [] && rest[1..] == [[]];
    assert Split(s, NEWLINE) == [[s[0]] + rest[0]] + rest[1..];
    assert [s[0]] + rest[0] == [RETURN];
    var lines := Split(s, NEWLINE);
    assert TrimReturn(lines[0]) == [] && lines[1..] == [[]] && CrLfs([[]]) == 0;
    assert CrLfs(lines) == 1;
    assert Trimmed(lines) == [[], []];
    assert SegmentsOf([], hides) == [] && LinesOf([[]], hides) == [];
    assert Trimmed(lines)[1..] == [[]];
    assert LinesOf(Trimmed(lines), hides) == [Newline];
    CountedAgainstShown(s, hides);
  }

  // ---- The programs ------------------------------------------------------------

  /** What one turn of the loop does to the segments still to come. */
  lemma Turn(text: Bytes, s: Bytes, hides: int -> bool)
    requires s != []
    ensures Size(s) == 0 ==>
              Group(text, Units(s), hides) == Flush(text) + [InvalidByte(Hex(s[0], 2))]
              + Group([], Units(s[1..]), hides)
    ensures Size(s) > 0 ==> Scalar(Decode(s))
    ensures Size(s) > 0 && hides(Decode(s)) ==>
              Group(text, Units(s), hides) == Flush(text) + [Hidden(CodePoint(Decode(s)))]
              + Group([], Units(s[Size(s)..]), hides)
    ensures Size(s) > 0 && !hides(Decode(s)) ==>
              Group(text, Units(s), hides) == Group(text + s[..Size(s)], Units(s[Size(s)..]), hides)
  {
    HeadUnit(s);
    var us := Units(s);
    assert us[1..] == Units(s[Step(s)..]);
  }

  /** flush() and one more segment. */
  method FlushThen(out: seq<Segment>, text: Bytes, g: Segment) returns (r: seq<Segment>)
    ensures r == out + Flush(text) + [g]
    ensures forall rest :: r + rest == out + (Flush(text) + [g] + rest)
  {
    r := out;
    if text != [] { r := r + [Text(text)]; }
    r := r + [g];
  }

  /** One turn of the loop of Segments: one unit read at the head of s. */
  method ReadOne(before: seq<Segment>, gathered: Bytes, s: Bytes, hides: int -> bool)
    returns (out: seq<Segment>, text: Bytes, size: nat)
    requires s != []
    ensures 0 < size <= |s|
    ensures out + Pending(text, s[size..], hides) == before + Pending(gathered, s, hides)
  {
    Turn(gathered, s, hides);
    out, text, size := before, gathered, Step(s);
    if Size(s) == 0 {
      out := FlushThen(out, text, InvalidByte(Hex(s[0], 2)));
      text := [];
    } else if hides(Decode(s)) {
      out := FlushThen(out, text, Hidden(CodePoint(Decode(s))));
      text := [];
    } else {
      text := text + s[..size];
    }
  }

  /** What is left to write, with `text` gathered and s still to be read. */
  ghost function Pending(text: Bytes, s: Bytes, hides: int -> bool): (r: seq<Segment>)
    ensures s == [] ==> r == Flush(text)
    ensures text == [] ==> r == SegmentsOf(s, hides)
  {
    Group(text, Units(s), hides)
  }

  /** Segments. */
  method SplitSegments(s: Bytes, hides: int -> bool) returns (out: seq<Segment>)
    ensures out == SegmentsOf(s, hides)
  {
    out := [];
    var text: Bytes := [];
    var i := 0;
    ghost var goal := SegmentsOf(s, hides);
    assert s[0..] == s;
    while i < |s|
      invariant 0 <= i <= |s|
      invariant out + Pending(text, s[i..], hides) == goal
    {
      var here := s[i..];
      var size;
      out, text, size := ReadOne(out, text, here, hides);
      assert here[size..] == s[i + size..];
      i := i + size;
    }
    assert s[i..] == [];
    if text != [] { out := out + [Text(text)]; }
  }

  /** The segments of the lines still to come, newline first when a line was
      written before. */
  function Remaining(lines: seq<Bytes>, started: bool, hides: int -> bool): seq<Segment> {
    if lines == [] then [] else Break(started) + LinesOf(Trimmed(lines), hides)
  }

  function Break(started: bool): seq<Segment> { if started then [Newline] else [] }

  lemma NextLine(lines: seq<Bytes>, started: bool, hides: int -> bool)
    requires lines != []
    ensures Remaining(lines, started, hides) ==
            Break(started) + SegmentsOf(if |lines| > 1 then TrimReturn(lines[0]) else lines[0], hides)
            + Remaining(lines[1..], true, hides)
  {
    var ts := Trimmed(lines);
    var rest := if |lines| == 1 then [] else [Newline] + LinesOf(ts[1..], hides);
    assert |lines| > 1 ==> ts[1..] == Trimmed(lines[1..]);
    assert rest == Remaining(lines[1..], true, hides);
    BreakLineRest(Break(started), SegmentsOf(ts[0], hides), rest);
  }

  lemma BreakLineRest(a: seq<Segment>, b: seq<Segment>, c: seq<Segment>)
    ensures (a + b) + c == a + (b + c)
  { }

  lemma OneMoreLine(out: seq<Segment>, lines: seq<Bytes>, i: nat, hides: int -> bool)
    requires i < |lines|
    ensures var line := if i < |lines| - 1 then TrimReturn(lines[i]) else lines[i];
            out + Remaining(lines[i..], i > 0, hides) ==
            (if i > 0 then out + [Newline] else out) + SegmentsOf(line, hides) + Remaining(lines[i + 1..], true, hides)
  {
    var here, line := lines[i..], if i < |lines| - 1 then TrimReturn(lines[i]) else lines[i];
    NextLine(here, i > 0, hides);
    assert here[1..] == lines[i + 1..] && here[0] == lines[i];
    BreakLineRest(out, Break(i > 0) + SegmentsOf(line, hides), Remaining(lines[i + 1..], true, hides));
    BreakLineRest(out, Break(i > 0), SegmentsOf(line, hides));
    assert out + Break(i > 0) == if i > 0 then out + [Newline] else out;
  }

  /** One line, after a break if it is not the first, its CR dropped if an LF
      follows it. */
  method AddLine(out: seq<Segment>, lines: seq<Bytes>, i: nat, hides: int -> bool) returns (more: seq<Segment>)
    requires i < |lines|
    ensures more + Remaining(lines[i + 1..], true, hides) == out + Remaining(lines[i..], i > 0, hides)
  {
    var line := lines[i];
    if i < |lines| - 1 { line := TrimReturn(line); }
    var segs := SplitSegments(line, hides);
    OneMoreLine(out, lines, i, hides);
    more := out;
    if i > 0 { more := more + [Newline]; }
    more := more + segs;
  }

  /** MultilineSegments. */
  method SplitMultiline(s: Bytes, hides: int -> bool) returns (out: seq<Segment>)
    ensures out == MultilineOf(s, hides)
  {
    var lines := Split(s, NEWLINE);
    out := [];
    var i := 0;
    assert lines[0..] == lines;
    while i < |lines|
      invariant 0 <= i <= |lines|
      invariant out + Remaining(lines[i..], i > 0, hides) == MultilineOf(s, hides)
    {
      out := AddLine(out, lines, i, hides);
      i := i + 1;
    }
  }
}
