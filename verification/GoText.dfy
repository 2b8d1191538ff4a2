/** Go strings as byte sequences, and the few library functions on them that
    the definition view and the diff rely on. */
module GoText {

  type Byte = b: int | 0 <= b < 256
  type Bytes = seq<Byte>

  datatype Option<+T> = None | Some(value: T)

  const NEWLINE: Byte := 0x0A
  const RETURN: Byte := 0x0D
  const COLON: Byte := 0x3A

  /** unicode.IsSpace. */
  predicate IsSpace(r: int) {
    r == 0x20 || 0x09 <= r <= 0x0D || r == 0x85 || r == 0xA0 || r == 0x1680 || 0x2000 <= r <= 0x200A
    || r == 0x2028 || r == 0x2029 || r == 0x202F || r == 0x205F || r == 0x3000
  }

  /** The bytes of a string literal of the source, all of which are ASCII. */
  function Ascii(s: string): (r: Bytes)
    requires forall k :: 0 <= k < |s| ==> s[k] < 128 as char
    ensures |r| == |s|
    ensures forall k :: 0 <= k < |s| ==> r[k] == s[k] as int
  {
    seq(|s|, k requires 0 <= k < |s| => s[k] as int as Byte)
  }

  /** strings.Split(s, sep) for a one-byte separator: never empty. */
  function Split(s: Bytes, sep: Byte): (parts: seq<Bytes>)
    ensures |parts| > 0
  {
    if s == [] then [[]]
    else
      var rest := Split(s[1..], sep);
      if s[0] == sep then [[]] + rest else [[s[0]] + rest[0]] + rest[1..]
  }

  /** strings.Join(parts, sep), the inverse Split is measured against. */
  function Join(parts: seq<Bytes>, sep: Byte): Bytes
    requires |parts| > 0
  {
    if |parts| == 1 then parts[0] else parts[0] + [sep] + Join(parts[1..], sep)
  }

  lemma {:induction false} JoinSplit(s: Bytes, sep: Byte)
    ensures Join(Split(s, sep), sep) == s
  {
    if s != [] {
      JoinSplit(s[1..], sep);
      var rest := Split(s[1..], sep);
      if s[0] == sep {
        assert ([[]] + rest)[1..] == rest;
      } else {
        var parts := [[s[0]] + rest[0]] + rest[1..];
        assert parts[1..] == rest[1..];
        if |rest| > 1 {
          assert Join(parts, sep) == [s[0]] + (rest[0] + [sep] + Join(rest[1..], sep));
        }
      }
    }
  }

  /** No part of a split holds the separator. */
  lemma {:induction false} SplitHasNoSep(s: Bytes, sep: Byte)
    ensures forall p <- Split(s, sep) :: sep !in p
  {
    if s != [] {
      SplitHasNoSep(s[1..], sep);
      var rest := Split(s[1..], sep);
      assert rest[0] in rest;
      forall p <- rest[1..] ensures p in rest { }
    }
  }
}
