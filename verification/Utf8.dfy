/** UTF-8 as RFC 3629 defines it: section 3 (encoding) and section 4 (which
    byte sequences are encodings), and a decoder that reads one code point or
    reports one byte as invalid, as Go's utf8.DecodeRuneInString does. */
module Utf8 {
  import opened GoText

  predicate Scalar(r: int) { 0 <= r < 0xD800 || 0xE000 <= r < 0x11_0000 }

  predicate Cont(b: Byte) { 0x80 <= b < 0xC0 }

  /** RFC 3629 section 3. */
  function Encode(r: int): (e: Bytes)
    requires Scalar(r)
    ensures 1 <= |e| <= 4
  {
    if r < 0x80 then [r]
    else if r < 0x800 then [0xC0 + r / 64, 0x80 + r % 64]
    else if r < 0x1_0000 then [0xE0 + r / 4096, 0x80 + r / 64 % 64, 0x80 + r % 64]
    else [0xF0 + r / 262144, 0x80 + r / 4096 % 64, 0x80 + r / 64 % 64, 0x80 + r % 64]
  }

  /** A byte's payload under its marker bits. */
  function Bits(b: Byte, mark: int): int { b as int - mark }

  /** How many bytes the encoding at the head of s takes, by the syntax of
      RFC 3629 section 4; 0 when no encoding starts there. */
  function Size(s: Bytes): (n: nat)
    ensures n <= |s| && n <= 4
  {
    if s == [] then 0
    else if s[0] < 0x80 then 1
    else if 0xC2 <= s[0] < 0xE0 then
      if |s| >= 2 && Cont(s[1]) then 2 else 0
    else if 0xE0 <= s[0] < 0xF0 then
      if |s| >= 3 && Cont(s[1]) && Cont(s[2])
         && (s[0] == 0xE0 ==> 0xA0 <= s[1]) && (s[0] == 0xED ==> s[1] < 0xA0) then 3 else 0
    else if 0xF0 <= s[0] < 0xF5 then
      if |s| >= 4 && Cont(s[1]) && Cont(s[2]) && Cont(s[3])
         && (s[0] == 0xF0 ==> 0x90 <= s[1]) && (s[0] == 0xF4 ==> s[1] < 0x90) then 4 else 0
    else 0
  }

  /** The code point of the encoding at the head of s. */
  function Decode(s: Bytes): (r: int)
    requires Size(s) > 0
  {
    match Size(s)
    case 1 => s[0]
    case 2 => Bits(s[0], 0xC0) * 64 + Bits(s[1], 0x80)
    case 3 => Bits(s[0], 0xE0) * 4096 + Bits(s[1], 0x80) * 64 + Bits(s[2], 0x80)
    case _ => Bits(s[0], 0xF0) * 262144 + Bits(s[1], 0x80) * 4096 + Bits(s[2], 0x80) * 64 + Bits(s[3], 0x80)
  }

  // ---- Six bits at a time -----------------------------------------------------

  lemma SixBits(q: int, d: int)
    requires q >= 0 && 0 <= d < 64
    ensures (q * 64 + d) / 64 == q && (q * 64 + d) % 64 == d
  { }

  lemma Sixes(r: int)
    requires r >= 0
    ensures r == r / 64 * 64 + r % 64 && r / 4096 == r / 64 / 64 && r / 262144 == r / 64 / 64 / 64
  { }

  /** The bytes of an encoding, by its head and the payloads that follow. */
  lemma TwoBytes(a: int, b: int)
    requires 0 <= a && 0 <= b < 64
    ensures var r := a * 64 + b; r / 64 == a && r % 64 == b
  {
    SixBits(a, b);
  }

  lemma ThreeBytes(a: int, b: int, c: int)
    requires 0 <= a && 0 <= b < 64 && 0 <= c < 64
    ensures var r := a * 4096 + b * 64 + c; r / 4096 == a && r / 64 % 64 == b && r % 64 == c
  {
    var r := (a * 64 + b) * 64 + c;
    SixBits(a, b);
    SixBits(a * 64 + b, c);
    Sixes(r);
    assert r == a * 4096 + b * 64 + c;
  }

  lemma FourBytes(a: int, b: int, c: int, d: int)
    requires 0 <= a && 0 <= b < 64 && 0 <= c < 64 && 0 <= d < 64
    ensures var r := a * 262144 + b * 4096 + c * 64 + d;
            r / 262144 == a && r / 4096 % 64 == b && r / 64 % 64 == c && r % 64 == d
  {
    var q := (a * 64 + b) * 64 + c;
    var r := q * 64 + d;
    SixBits(a, b);
    SixBits(a * 64 + b, c);
    SixBits(q, d);
    Sixes(r);
    assert r == a * 262144 + b * 4096 + c * 64 + d;
  }

  // ---- Round trips --------------------------------------------------------------

  lemma ReadsTwo(s: Bytes)
    requires Size(s) == 2
    ensures 0x80 <= Decode(s) < 0x800 && Encode(Decode(s)) == s[..2]
  {
    TwoBytes(Bits(s[0], 0xC0), Bits(s[1], 0x80));
  }

  lemma ReadsThree(s: Bytes)
    requires Size(s) == 3
    ensures 0x800 <= Decode(s) < 0x1_0000 && Scalar(Decode(s)) && Encode(Decode(s)) == s[..3]
  {
    ThreeBytes(Bits(s[0], 0xE0), Bits(s[1], 0x80), Bits(s[2], 0x80));
  }

  lemma ReadsFour(s: Bytes)
    requires Size(s) == 4
    ensures 0x1_0000 <= Decode(s) < 0x11_0000 && Encode(Decode(s)) == s[..4]
  {
    FourBytes(Bits(s[0], 0xF0), Bits(s[1], 0x80), Bits(s[2], 0x80), Bits(s[3], 0x80));
  }

  /** Decoding then encoding gives back the bytes that were read. */
  lemma EncodeDecode(s: Bytes)
    requires Size(s) > 0
    ensures Scalar(Decode(s)) && Encode(Decode(s)) == s[..Size(s)]
  {
    match Size(s)
    case 1 =>
    case 2 => ReadsTwo(s);
    case 3 => ReadsThree(s);
    case _ => ReadsFour(s);
  }

  lemma WritesTwo(r: int, s: Bytes)
    requires 0x80 <= r < 0x800 && Encode(r) <= s
    ensures Size(s) == 2 && Decode(s) == r
  {
    var e := Encode(r);
    assert s[0] == e[0] && s[1] == e[1];
    Sixes(r);
  }

  lemma WritesThree(r: int, s: Bytes)
    requires 0x800 <= r < 0x1_0000 && Scalar(r) && Encode(r) <= s
    ensures Size(s) == 3 && Decode(s) == r
  {
    var e := Encode(r);
    assert s[0] == e[0] && s[1] == e[1] && s[2] == e[2];
    Sixes(r);
    Sixes(r / 64);
  }

  lemma WritesFour(r: int, s: Bytes)
    requires 0x1_0000 <= r < 0x11_0000 && Encode(r) <= s
    ensures Size(s) == 4 && Decode(s) == r
  {
    var e := Encode(r);
    assert s[0] == e[0] && s[1] == e[1] && s[2] == e[2] && s[3] == e[3];
    Sixes(r);
    Sixes(r / 64);
    Sixes(r / 4096);
  }

  /** Encoding then decoding gives back the code point, whatever follows. */
  lemma DecodeEncode(r: int, rest: Bytes)
    requires Scalar(r)
    ensures Size(Encode(r) + rest) == |Encode(r)| && Decode(Encode(r) + rest) == r
  {
    var s := Encode(r) + rest;
    assert Encode(r) <= s;
    if r < 0x80 {
      assert s[0] == r;
    } else if r < 0x800 {
      WritesTwo(r, s);
    } else if r < 0x1_0000 {
      WritesThree(r, s);
    } else {
      WritesFour(r, s);
    }
  }

  /** A byte string starts with the encoding of a code point exactly when the
      decoder reads one there, and it reads that one. */
  lemma DecoderIsExact(s: Bytes, r: int)
    requires Scalar(r)
    ensures Encode(r) <= s <==> Size(s) == |Encode(r)| && Decode(s) == r
  {
    if Encode(r) <= s {
      DecodeEncode(r, s[|Encode(r)|..]);
      assert s == Encode(r) + s[|Encode(r)|..];
    }
    if Size(s) == |Encode(r)| && Decode(s) == r { EncodeDecode(s); }
  }

  // ---- A byte string as code points and invalid bytes ----------------------

  datatype Unit = Rune(r: int) | Bad(b: Byte)

  /** The bytes the decoder consumes at the head of s: an encoding, or one
      invalid byte. */
  function Step(s: Bytes): (n: nat)
    requires s != []
    ensures 1 <= n <= |s|
  {
    if Size(s) == 0 then 1 else Size(s)
  }

  function Units(s: Bytes): seq<Unit> {
    if s == [] then []
    else [if Size(s) == 0 then Bad(s[0]) else Rune(Decode(s))] + Units(s[Step(s)..])
  }

  /** No invalid byte in it. */
  predicate Valid(s: Bytes)
    decreases |s|
  {
    s == [] || (Size(s) > 0 && Valid(s[Size(s)..]))
  }

  lemma Prefixed(s: Bytes, rest: Bytes)
    requires Size(s) > 0
    ensures Size(s + rest) == Size(s) && Decode(s + rest) == Decode(s)
    ensures (s + rest)[Size(s)..] == s[Size(s)..] + rest
  { }

  /** What follows a valid byte string is read as it would be alone. */
  lemma {:induction false} UnitsConcat(s: Bytes, rest: Bytes)
    requires Valid(s)
    ensures Units(s + rest) == Units(s) + Units(rest)
    ensures Valid(s + rest) == Valid(rest)
    decreases |s|
  {
    if s == [] {
      assert s + rest == rest;
    } else {
      Prefixed(s, rest);
      UnitsConcat(s[Size(s)..], rest);
      FirstOf(s);
      FirstOf(s + rest);
      ThreeParts([Rune(Decode(s))], Units(s[Size(s)..]), Units(rest));
    }
  }

  lemma FirstOf(s: Bytes)
    requires Size(s) > 0
    ensures Units(s) == [Rune(Decode(s))] + Units(s[Size(s)..])
    ensures Valid(s) == Valid(s[Size(s)..])
  { }

  lemma ThreeParts(a: seq<Unit>, b: seq<Unit>, c: seq<Unit>)
    ensures (a + b) + c == a + (b + c)
  { }

  predicate Sound(us: seq<Unit>) { forall u <- us :: u.Rune? ==> Scalar(u.r) }

  /** The bytes a unit stands for. */
  function Raw(u: Unit): Bytes {
    match u
    case Bad(b) => [b]
    case Rune(r) => if Scalar(r) then Encode(r) else []
  }

  function Flat(us: seq<Unit>): Bytes {
    if us == [] then [] else Raw(us[0]) + Flat(us[1..])
  }

  lemma HeadUnit(s: Bytes)
    requires s != []
    ensures Units(s) == [Units(s)[0]] + Units(s[Step(s)..])
    ensures Raw(Units(s)[0]) == s[..Step(s)]
    ensures Units(s)[0].Rune? ==> Scalar(Units(s)[0].r)
  {
    if Size(s) > 0 { EncodeDecode(s); }
  }

  /** Units loses nothing: every byte string is the bytes of its units, each
      a code point RFC 3629 can encode or one invalid byte. */
  lemma {:induction false} FlatUnits(s: Bytes)
    ensures Flat(Units(s)) == s
    ensures Sound(Units(s))
    decreases |s|
  {
    if s != [] {
      HeadUnit(s);
      FlatUnits(s[Step(s)..]);
      var u, rest := Units(s)[0], Units(s[Step(s)..]);
      assert ([u] + rest)[1..] == rest;
      assert s == s[..Step(s)] + s[Step(s)..];
    }
  }

  lemma OneRune(r: int)
    requires Scalar(r)
    ensures Valid(Encode(r)) && Units(Encode(r)) == [Rune(r)]
  {
    DecodeEncode(r, []);
    var e := Encode(r);
    assert e + [] == e && e[|e|..] == [];
  }
}
