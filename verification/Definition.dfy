/** A tool definition as the lines the review page and the diff work on
    (internal/admin/review.go, DefinitionLines). `indent` is json.Indent, left
    uninterpreted: None is "not JSON". `inJson` counts hidden code points in a
    JSON document's strings, and `hides` is visible.Hides. */
module Definition {
  import opened GoText
  import opened Utf8
  import opened LineDiff
  import opened Segments

  datatype ToolIdentity = ToolIdentity(name: Bytes, description: Bytes, input: Bytes, output: Bytes)

  const NAME: Bytes := Ascii("name: ")
  const DESCRIPTION: Bytes := Ascii("description:")
  const INPUT: Bytes := Ascii("input schema:")
  const OUTPUT: Bytes := Ascii("output schema:")
  const NONE: Bytes := Ascii(" (none)")

  // ---- What the lines are ------------------------------------------------------

  /** What a reader is shown of a schema: nothing, or its text. */
  function Rendered(raw: Bytes, indent: Bytes -> Option<Bytes>): Option<Bytes> {
    if raw == [] then None
    else match indent(raw) { case Some(pretty) => Some(pretty) case None => Some(raw) }
  }

  function At(depth: int, texts: seq<Bytes>): seq<Line> {
    seq(|texts|, k requires 0 <= k < |texts| => Line(depth, texts[k]))
  }

  function Schema(heading: Bytes, shown: Option<Bytes>): seq<Line> {
    match shown
    case None => [Line(0, heading + NONE)]
    case Some(text) => [Line(0, heading)] + At(1, Split(text, NEWLINE))
  }

  /** What an approval is about, as far as the lines go. */
  datatype View = View(name: Bytes, description: Bytes, input: Option<Bytes>, output: Option<Bytes>)

  function ViewOf(t: ToolIdentity, indent: Bytes -> Option<Bytes>): View {
    View(t.name, t.description, Rendered(t.input, indent), Rendered(t.output, indent))
  }

  function Schemas(v: View): seq<Line> { Schema(INPUT, v.input) + Schema(OUTPUT, v.output) }

  function Lines(v: View): seq<Line> {
    [Line(0, NAME + v.name), Line(0, DESCRIPTION)] + (At(1, Split(v.description, NEWLINE)) + Schemas(v))
  }

  // ---- Reading the lines back ---------------------------------------------------

  /** The texts of the content lines at the head of ls. */
  function Content(ls: seq<Line>): (texts: seq<Bytes>)
    ensures |texts| <= |ls|
  {
    if ls == [] || ls[0].depth == 0 then [] else [ls[0].text] + Content(ls[1..])
  }

  function TextOf(ls: seq<Line>): Bytes {
    if Content(ls) == [] then [] else Join(Content(ls), NEWLINE)
  }

  function ReadSchema(heading: Bytes, ls: seq<Line>): Option<Bytes> {
    if ls != [] && ls[0].text == heading then Some(TextOf(ls[1..])) else None
  }

  function After(ls: seq<Line>): seq<Line> { ls[|Content(ls)|..] }

  function Read(ls: seq<Line>): Option<View> {
    if |ls| < 2 || |ls[0].text| < |NAME| then None
    else
      var input := After(ls[2..]);
      if input == [] then None
      else
        var output := After(input[1..]);
        Some(View(ls[0].text[|NAME|..], TextOf(ls[2..]), ReadSchema(INPUT, input), ReadSchema(OUTPUT, output)))
  }

  lemma {:induction false} ContentOf(texts: seq<Bytes>, rest: seq<Line>)
    requires rest == [] || rest[0].depth == 0
    ensures Content(At(1, texts) + rest) == texts
    ensures After(At(1, texts) + rest) == rest
  {
    var ls := At(1, texts) + rest;
    if texts == [] {
      assert ls == rest;
    } else {
      ContentOf(texts[1..], rest);
      assert ls[1..] == At(1, texts[1..]) + rest;
    }
  }

  lemma TextReads(text: Bytes, rest: seq<Line>)
    requires rest == [] || rest[0].depth == 0
    ensures TextOf(At(1, Split(text, NEWLINE)) + rest) == text
    ensures After(At(1, Split(text, NEWLINE)) + rest) == rest
  {
    ContentOf(Split(text, NEWLINE), rest);
    JoinSplit(text, NEWLINE);
  }

  lemma SchemaReads(heading: Bytes, shown: Option<Bytes>, rest: seq<Line>)
    requires rest == [] || rest[0].depth == 0
    ensures var ls := Schema(heading, shown) + rest;
            ls != [] && ls[0].depth == 0 && ReadSchema(heading, ls) == shown && After(ls[1..]) == rest
  {
    match shown
    case None => NoSchemaReads(heading, rest);
    case Some(text) =>
      var ls := Schema(heading, shown) + rest;
      assert ls[1..] == At(1, Split(text, NEWLINE)) + rest;
      TextReads(text, rest);
  }

  lemma NoSchemaReads(heading: Bytes, rest: seq<Line>)
    requires rest == [] || rest[0].depth == 0
    ensures var ls := Schema(heading, None) + rest;
            ls != [] && ls[0].depth == 0 && ReadSchema(heading, ls) == None && After(ls[1..]) == rest
  {
    var ls := Schema(heading, None) + rest;
    assert ls[1..] == rest && rest == At(1, []) + rest;
    ContentOf([], rest);
    assert |heading + NONE| != |heading|;
  }

  lemma SchemasRead(v: View)
    ensures var ls := Schemas(v);
            ls != [] && ls[0].depth == 0 && ReadSchema(INPUT, ls) == v.input
            && ReadSchema(OUTPUT, After(ls[1..])) == v.output
  {
    var output := Schema(OUTPUT, v.output);
    SchemaReads(OUTPUT, v.output, []);
    assert output + [] == output;
    SchemaReads(INPUT, v.input, output);
  }

  lemma ReadParts(name: Bytes, body: seq<Line>, input: seq<Line>, v: View)
    requires input != [] && After(body) == input && TextOf(body) == v.description && v.name == name
    requires ReadSchema(INPUT, input) == v.input && ReadSchema(OUTPUT, After(input[1..])) == v.output
    ensures Read([Line(0, NAME + name), Line(0, DESCRIPTION)] + body) == Some(v)
  {
    var ls := [Line(0, NAME + name), Line(0, DESCRIPTION)] + body;
    assert ls[2..] == body && ls[0].text[|NAME|..] == name;
  }

  /** The lines of a definition read back as its name, description and
      rendered schemas: no content line passes for a label. */
  lemma LinesReadBack(v: View)
    ensures Read(Lines(v)) == Some(v)
  {
    SchemasRead(v);
    TextReads(v.description, Schemas(v));
    ReadParts(v.name, At(1, Split(v.description, NEWLINE)) + Schemas(v), Schemas(v), v);
  }

  /** A line of content is one line: no content holds a line break. */
  lemma ContentHoldsNoBreak(v: View)
    ensures forall l <- Lines(v) :: l.depth == 1 ==> NEWLINE !in l.text
  {
    SplitHasNoSep(v.description, NEWLINE);
    AtHolds(Split(v.description, NEWLINE));
    SchemaHolds(INPUT, v.input);
    SchemaHolds(OUTPUT, v.output);
  }

  lemma AtHolds(texts: seq<Bytes>)
    requires forall t <- texts :: NEWLINE !in t
    ensures forall l <- At(1, texts) :: NEWLINE !in l.text
  {
    forall l <- At(1, texts) ensures NEWLINE !in l.text {
      var k :| 0 <= k < |texts| && At(1, texts)[k] == l;
      assert texts[k] in texts;
    }
  }

  lemma SchemaHolds(heading: Bytes, shown: Option<Bytes>)
    ensures forall l <- Schema(heading, shown) :: l.depth == 1 ==> NEWLINE !in l.text
  {
    if shown.Some? {
      SplitHasNoSep(shown.value, NEWLINE);
      AtHolds(Split(shown.value, NEWLINE));
    }
  }

  /** The diff of two definitions is all context exactly when their names,
      descriptions and rendered schemas are equal. */
  lemma DiffIsEmptyIffSame(t: ToolIdentity, u: ToolIdentity, indent: Bytes -> Option<Bytes>)
    ensures Changes(Diff(Lines(ViewOf(t, indent)), Lines(ViewOf(u, indent)))) == 0
            <==> ViewOf(t, indent) == ViewOf(u, indent)
  {
    var v, w := ViewOf(t, indent), ViewOf(u, indent);
    AllContextIffEqual(Lines(v), Lines(w));
    LinesReadBack(v);
    LinesReadBack(w);
  }

  // ---- The program ---------------------------------------------------------------

  function HiddenInSchema(raw: Bytes, indent: Bytes -> Option<Bytes>, inJson: Bytes -> nat, hides: int -> bool): nat {
    if raw == [] then 0
    else if indent(raw).Some? then inJson(raw) else HiddenAll(Split(raw, NEWLINE), hides)
  }

  method AppendContent(before: seq<Line>, text: Bytes, hides: int -> bool) returns (lines: seq<Line>, hidden: nat)
    ensures lines == before + At(1, Split(text, NEWLINE))
    ensures hidden == HiddenAll(Split(text, NEWLINE), hides)
  {
    lines, hidden := before, 0;
    var parts := Split(text, NEWLINE);
    var i := 0;
    while i < |parts|
      invariant 0 <= i <= |parts|
      invariant lines == before + At(1, parts[..i])
      invariant hidden == HiddenAll(parts[..i], hides)
    {
      assert parts[..i + 1][..i] == parts[..i];
      hidden := hidden + HiddenCount(parts[i], hides);
      lines := lines + [Line(1, parts[i])];
      i := i + 1;
    }
    assert parts[..i] == parts;
  }

  method AppendSchema(before: seq<Line>, heading: Bytes, raw: Bytes,
                      indent: Bytes -> Option<Bytes>, inJson: Bytes -> nat, hides: int -> bool)
    returns (lines: seq<Line>, hidden: nat)
    ensures lines == before + Schema(heading, Rendered(raw, indent))
    ensures hidden == HiddenInSchema(raw, indent, inJson, hides)
  {
    if |raw| == 0 {
      return before + [Line(0, heading + NONE)], 0;
    }
    var pretty := indent(raw);
    var content := if pretty.None? then raw else pretty.value;
    HeadThenContent(before, Line(0, heading), At(1, Split(content, NEWLINE)));
    lines, hidden := AppendContent(before + [Line(0, heading)], content, hides);
    if pretty.Some? { hidden := inJson(raw); }
  }

  lemma HeadThenContent(before: seq<Line>, head: Line, content: seq<Line>)
    ensures before + [head] + content == before + ([head] + content)
  { }

  lemma Reassociate(a: seq<Line>, b: seq<Line>, c: seq<Line>, d: seq<Line>)
    ensures a + b + c + d == a + (b + (c + d))
  { }

  /** DefinitionLines. */
  method DefinitionLines(t: ToolIdentity, indent: Bytes -> Option<Bytes>, inJson: Bytes -> nat, hides: int -> bool)
    returns (lines: seq<Line>, hidden: nat)
    ensures lines == Lines(ViewOf(t, indent))
    ensures hidden == HiddenCount(t.name, hides) + HiddenAll(Split(t.description, NEWLINE), hides)
                      + HiddenInSchema(t.input, indent, inJson, hides)
                      + HiddenInSchema(t.output, indent, inJson, hides)
  {
    Reassociate([Line(0, NAME + t.name), Line(0, DESCRIPTION)], At(1, Split(t.description, NEWLINE)),
                Schema(INPUT, Rendered(t.input, indent)), Schema(OUTPUT, Rendered(t.output, indent)));
    lines := [Line(0, NAME + t.name), Line(0, DESCRIPTION)];
    var inName, inDescription, inInput, inOutput := HiddenCount(t.name, hides), 0, 0, 0;
    lines, inDescription := AppendContent(lines, t.description, hides);
    lines, inInput := AppendSchema(lines, INPUT, t.input, indent, inJson, hides);
    lines, inOutput := AppendSchema(lines, OUTPUT, t.output, indent, inJson, hides);
    hidden := inName + inDescription + inInput + inOutput;
  }
}
