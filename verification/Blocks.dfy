/** A block on a subject, and the checks it is held to before it is stored
    (internal/access/block.go). */
module Blocks {
  import opened GoText
  import A = Access

  /** Nanoseconds since Go's zero time. */
  type Time = int

  const ZERO_TIME: Time := 0
  const MAX_BLOCK_TEXT := 256

  datatype Block = Block(subject: string, reason: string, author: string, at: Time, until: Option<Time>) {
    /** Enforced at t: it has no end, or its end is still after t. */
    predicate ActiveAt(t: Time) { until.None? || t < until.value }

    /** The part of ValidateBlock that depends on time. */
    predicate EndsAfterItBegins() { until.Some? ==> at < until.value }
  }

  /** unicode.IsControl. */
  predicate IsControl(c: char) { c as int < 0x20 || 0x7F <= c as int < 0xA0 }

  /** Unicode category Cf. */
  predicate IsFormat(c: char) {
    var r := c as int;
    || r == 0xAD || 0x600 <= r <= 0x605 || r == 0x61C || r == 0x6DD || r == 0x70F || 0x890 <= r <= 0x891 || r == 0x8E2
    || r == 0x180E || 0x200B <= r <= 0x200F || 0x202A <= r <= 0x202E || 0x2060 <= r <= 0x2064 || 0x2066 <= r <= 0x206F
    || r == 0xFEFF || 0xFFF9 <= r <= 0xFFFB || r == 0x110BD || r == 0x110CD || 0x13430 <= r <= 0x1343F
    || 0x1BCA0 <= r <= 0x1BCA3 || 0x1D173 <= r <= 0x1D17A || r == 0xE0001 || 0xE0020 <= r <= 0xE007F
  }

  function Width(c: char): nat {
    if c as int < 0x80 then 1 else if c as int < 0x800 then 2 else if c as int < 0x10000 then 3 else 4
  }

  /** len(s): the bytes of s in UTF-8. */
  function Length(s: string): nat { if s == "" then 0 else Width(s[0]) + Length(s[1..]) }

  predicate ValidSubject(s: string) {
    A.Plain(s) && Length(s) <= MAX_BLOCK_TEXT && forall c <- s :: !IsControl(c) && !IsFormat(c)
  }

  predicate ValidReason(s: string) { Length(s) <= MAX_BLOCK_TEXT && forall c <- s :: !IsControl(c) }

  predicate ValidBlock(b: Block) {
    ValidSubject(b.subject) && ValidReason(b.reason) && A.TrimSpace(b.author) != "" && b.at != ZERO_TIME
    && b.EndsAfterItBegins()
  }

  datatype SubjectError = Empty | OuterSpace | TooLong | HasControl | HasFormat
  datatype BlockError =
    | BadSubject(why: SubjectError) | ReasonTooLong | ReasonHasControl | NoAuthor | NoTime | EndNotAfterStart

  /** ValidateSubject: the first thing wrong with a subject, if anything is. */
  method ValidateSubject(s: string) returns (err: Option<SubjectError>)
    ensures err.None? <==> ValidSubject(s)
    ensures err == Some(HasFormat) ==> A.Plain(s) && forall c <- s :: !IsControl(c)
  {
    if s == "" { return Some(Empty); }
    if A.TrimSpace(s) != s { return Some(OuterSpace); }
    if Length(s) > MAX_BLOCK_TEXT { return Some(TooLong); }
    if exists c <- s :: IsControl(c) { return Some(HasControl); }
    if exists c <- s :: IsFormat(c) { return Some(HasFormat); }
    err := None;
  }

  /** ValidateBlock: every error, not the first alone. */
  method ValidateBlock(b: Block) returns (errs: seq<BlockError>)
    ensures errs == [] <==> ValidBlock(b)
  {
    errs := [];
    var subject := ValidateSubject(b.subject);
    if subject.Some? { errs := errs + [BadSubject(subject.value)]; }
    if Length(b.reason) > MAX_BLOCK_TEXT { errs := errs + [ReasonTooLong]; }
    if exists c <- b.reason :: IsControl(c) { errs := errs + [ReasonHasControl]; }
    if A.TrimSpace(b.author) == "" { errs := errs + [NoAuthor]; }
    if b.at == ZERO_TIME { errs := errs + [NoTime]; }
    if b.until.Some? && !(b.at < b.until.value) { errs := errs + [EndNotAfterStart]; }
  }
}
