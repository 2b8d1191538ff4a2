/** Block, Unblock and the gateway's expiry round as they change the store and
    the trail, one call at a time (internal/admin/access.go,
    cmd/mcp-gateway/serve_blocks.go). KillSwitch is what any interleaving of
    them keeps. */
module BlockActions {
  import opened GoText
  import opened Blocks
  import opened Service
  import A = Access

  datatype Request = Request(subject: string, until: Option<Time>, reason: string)

  function BlockNote(a: Actor, reason: string): string {
    Tag(a) + (if A.TrimSpace(reason) == "" then "" else " " + A.TrimSpace(reason))
  }

  /** What validateBlock accepts, the end of the block aside. */
  predicate Acceptable(a: Actor, req: Request) {
    && Attributable(a) && ValidSubject(req.subject)
    && ValidReason(BlockNote(a, req.reason)) && A.TrimSpace(a.name) != ""
  }

  predicate EndsAfter(req: Request, t: Time) { req.until.Some? ==> req.until.value > t }

  method ValidateRequest(s: Service, a: Actor, req: Request) returns (note: string, err: Option<Code>)
    requires s.Valid()
    modifies s`clock, s`step
    ensures s.Valid() && s.clock >= old(s.clock) && s.step >= old(s.step)
    ensures err.None? ==> Acceptable(a, req) && note == BlockNote(a, req.reason)
                          && EndsAfter(req, old(s.clock))
    ensures Acceptable(a, req) && EndsAfter(req, s.clock) ==> err.None?
  {
    note := BlockNote(a, req.reason);
    if !Attributable(a) { return note, Some(PeerUnattributable); }
    var subject := ValidateSubject(req.subject);
    if subject.Some? { return note, Some(InvalidArgument); }
    var at := s.Now();
    var errs := ValidateBlock(Block(req.subject, note, a.name, at, None));
    if errs != [] { return note, Some(InvalidArgument); }
    if req.until.Some? {
      var now := s.Now();
      if !(req.until.value > now) { return note, Some(InvalidArgument); }
    }
    err := None;
  }

  // ---- Block --------------------------------------------------------------------

  /** The block a placement replaces, as far as the store can say. */
  function Displaced(replacer: bool, blocks: map<string, Block>, subject: string): Option<Block> {
    if replacer && subject in blocks then Some(blocks[subject]) else None
  }

  function BlockRow(a: Actor, b: Block, replaced: Option<Block>): Row {
    OperatorRow(a, AccessBlock, OfBlock(b.subject, b.until, b.reason, replaced), b.at)
  }

  /** Placing: an error or an enforced block changes nothing at all; otherwise
      exactly this block is placed, over none or an ended one, and the row that
      names what it replaced is on the trail exactly when the answer says so. */
  predicate PlaceOutcome(a: Actor, req: Request, note: string, replacer: bool,
                         blocks0: map<string, Block>, blocks1: map<string, Block>, trail0: seq<Row>, trail1: seq<Row>,
                         t0: Time, t1: Time, res: ActionResult, err: Option<Code>) {
    if err.Some? || !res.changed then
      && blocks1 == blocks0 && trail1 == trail0 && !res.changed && !res.recorded && res.warnings == []
      && (err.None? ==> req.subject in blocks0 && blocks0[req.subject].ActiveAt(t0))
    else
      && req.subject in blocks1
      && var b := blocks1[req.subject];
      && b == Block(req.subject, note, a.name, b.at, req.until) && t0 <= b.at <= t1 && ValidBlock(b)
      && blocks1 == blocks0[req.subject := b]
      && (req.subject in blocks0 ==> !blocks0[req.subject].ActiveAt(t1))
      && trail1 == trail0 + Listed(BlockRow(a, b, Displaced(replacer, blocks0, req.subject)), res.recorded)
      && res.audit == (if res.recorded then Some(BlockRow(a, b, Displaced(replacer, blocks0, req.subject))) else None)
      && res.warnings == (if res.recorded then [] else [AuditWriteFailed])
  }

  /** BlockReplacing on the store: ValidateBlock, then place unless the subject
      is blocked now. */
  method Place(s: Service, b: Block) returns (placed: bool, replaced: Option<Block>, err: Option<Code>)
    requires s.Valid()
    modifies s`clock, s`step, s`blocks
    ensures s.Valid() && s.clock >= old(s.clock) && s.step >= old(s.step)
    ensures err.Some? || !placed ==> s.blocks == old(s.blocks)
    ensures err.None? && !placed ==> b.subject in old(s.blocks) && old(s.blocks)[b.subject].ActiveAt(s.clock)
    ensures err.None? && placed ==>
              && ValidBlock(b) && s.blocks == old(s.blocks)[b.subject := b]
              && (b.subject in old(s.blocks) ==> !old(s.blocks)[b.subject].ActiveAt(s.clock))
              && replaced == Displaced(s.replacer, old(s.blocks), b.subject)
    ensures old(s.Healthy()) && ValidBlock(b) ==> err.None?
  {
    placed, replaced := false, None;
    var errs := ValidateBlock(b);
    if errs != [] { return false, None, Some(Internal); }
    var f := s.Retry();
    if !f.Fine? { return false, None, Some(StoreErr(f)); }
    var now := s.Now();
    if b.subject in s.blocks && s.blocks[b.subject].ActiveAt(now) { return false, None, None; }
    replaced := Displaced(s.replacer, s.blocks, b.subject);
    s.blocks := s.blocks[b.subject := b];
    placed, err := true, None;
  }

  /** placeBlock: place, then record. */
  method PlaceBlock(s: Service, a: Actor, req: Request, note: string) returns (res: ActionResult, err: Option<Code>)
    requires s.Valid()
    modifies s`clock, s`step, s`blocks, s`trail
    ensures s.Valid() && s.clock >= old(s.clock) && s.step > old(s.step)
    ensures PlaceOutcome(a, req, note, s.replacer, old(s.blocks), s.blocks, old(s.trail), s.trail, old(s.clock),
                         s.clock, res, err)
    ensures old(s.Healthy()) && err.None? && res.changed ==> res.recorded
    ensures old(s.Healthy()) && Acceptable(a, req) && note == BlockNote(a, req.reason) && EndsAfter(req, s.clock) ==>
              err.None?
  {
    res := NEW_RESULT;
    var now := s.Now();
    var b := Block(req.subject, note, a.name, now, req.until);
    var placed, replaced;
    placed, replaced, err := Place(s, b);
    if err.Some? || !placed { return; }
    res := s.Record(res.(changed := true), BlockRow(a, b, replaced));
  }

  method BlockSubject(s: Service, a: Actor, req: Request) returns (res: ActionResult, err: Option<Code>)
    requires s.Valid()
    modifies s`clock, s`step, s`blocks, s`trail
    ensures s.Valid() && s.clock >= old(s.clock)
    ensures PlaceOutcome(a, req, BlockNote(a, req.reason), s.replacer, old(s.blocks), s.blocks, old(s.trail), s.trail,
                         old(s.clock), s.clock, res, err)
            || (err.Some? && res == NEW_RESULT && s.blocks == old(s.blocks) && s.trail == old(s.trail))
    ensures err.None? ==> Acceptable(a, req)
    ensures old(s.Healthy()) && Acceptable(a, req) && EndsAfter(req, s.clock) ==>
              err.None? && (res.changed ==> res.recorded)
  {
    res := NEW_RESULT;
    var note;
    note, err := ValidateRequest(s, a, req);
    if err.Some? { return; }
    var f := s.Port();
    if f != Fine { return NEW_RESULT, Some(ConfigUnavailable); }
    label Checked:
    res, err := PlaceBlock(s, a, req, note);
  }

  // ---- Unblock --------------------------------------------------------------------

  /** Lifting: whatever fails, the block stays; what is lifted has its row; an
      error after the row leaves a row and the block; a subject not blocked gets
      no row. */
  predicate UnblockOutcome(a: Actor, req: Request, blocks0: map<string, Block>, blocks1: map<string, Block>,
                           trail0: seq<Row>, trail1: seq<Row>, res: ActionResult, err: Option<Code>) {
    && (res.changed <==> req.subject in blocks0 && req.subject !in blocks1)
    && blocks1 == (if res.changed then blocks0 - {req.subject} else blocks0)
    && (res.changed ==> err.None? && res.recorded && res.audit.Some? && trail1 == trail0 + [res.audit.value])
    && (!res.changed && trail1 != trail0 ==> err == Some(Internal) && |trail1| == |trail0| + 1)
    && trail0 <= trail1 && (trail1 != trail0 ==> req.subject in blocks0)
    && (forall k :: |trail0| <= k < |trail1| ==>
          trail1[k].identity == Identity(a) && trail1[k].tool == AccessUnblock
          && trail1[k].reason == OfUnblock(req.subject, BlockNote(a, req.reason)))
    && (err.None? && !res.changed ==> req.subject !in blocks0 && !res.recorded)
  }

  /** Record first, lift second. */
  method RecordAndLift(s: Service, a: Actor, req: Request, note: string)
    returns (res: ActionResult, err: Option<Code>)
    requires s.Valid() && req.subject in s.blocks && note == BlockNote(a, req.reason)
    modifies s`clock, s`step, s`blocks, s`trail
    ensures s.Valid() && s.clock >= old(s.clock)
    ensures UnblockOutcome(a, req, old(s.blocks), s.blocks, old(s.trail), s.trail, res, err)
    ensures old(s.Healthy()) ==> err.None? && res.changed
  {
    var now := s.Now();
    var row := OperatorRow(a, AccessUnblock, OfUnblock(req.subject, note), now);
    var recorded := s.Retry();
    if !recorded.Fine? { return NEW_RESULT, Some(StoreErr(recorded)); }
    s.trail := s.trail + [row];
    var lifted := s.Retry();
    if !lifted.Fine? { return NEW_RESULT, Some(Internal); }
    s.blocks := s.blocks - {req.subject};
    res, err := ActionResult(true, true, Some(row), []), None;
  }

  /** Unblock: nothing is done for a subject that is not blocked. */
  method UnblockSubject(s: Service, a: Actor, req: Request) returns (res: ActionResult, err: Option<Code>)
    requires s.Valid()
    modifies s`clock, s`step, s`blocks, s`trail
    ensures s.Valid() && s.clock >= old(s.clock)
    ensures UnblockOutcome(a, req, old(s.blocks), s.blocks, old(s.trail), s.trail, res, err)
    ensures old(s.Healthy()) && Acceptable(a, req) && EndsAfter(req, s.clock) ==>
              err.None? && (res.changed <==> req.subject in old(s.blocks))
  {
    res := NEW_RESULT;
    var note;
    note, err := ValidateRequest(s, a, req);
    if err.Some? { return; }
    var config := s.Port();
    if config != Fine { return NEW_RESULT, Some(ConfigUnavailable); }
    var read := s.Port();
    if read != Fine { return NEW_RESULT, Some(StoreErr(read)); }
    if req.subject !in s.blocks { return; }
    res, err := RecordAndLift(s, a, req, note);
  }

  // ---- The expiry round ---------------------------------------------------------------

  function ExpiryRow(b: Block, at: Time): Row { Row("(gateway)", AccessBlockExpired, at, OfExpiry(b)) }

  /** Expired: the stored blocks that have ended by now. */
  function EndedSubjects(blocks: map<string, Block>, now: Time): set<string> {
    set x | x in blocks && !blocks[x].ActiveAt(now)
  }

  /** What a round may have done with the blocks dealt with so far. */
  ghost predicate RoundKeeps(blocks0: map<string, Block>, blocks: map<string, Block>, trail0: seq<Row>, trail: seq<Row>,
                             now: Time) {
    && (forall x <- blocks :: x in blocks0 && blocks[x] == blocks0[x])
    && trail0 <= trail
    && (forall x <- blocks0 :: x !in blocks ==>
          !blocks0[x].ActiveAt(now) && exists k :: |trail0| <= k < |trail| && trail[k].reason == OfExpiry(blocks0[x]))
  }

  /** Expiring: the block goes with its row on the trail, or stays. */
  predicate ExpireOutcome(b: Block, blocks0: map<string, Block>, blocks1: map<string, Block>,
                          trail0: seq<Row>, trail1: seq<Row>, removed: bool) {
    && blocks1 == (if removed then blocks0 - {b.subject} else blocks0)
    && (removed ==> trail1 != trail0)
    && (trail1 == trail0
        || (|trail1| == |trail0| + 1 && trail0 <= trail1 && trail1[|trail0|].reason == OfExpiry(b)))
  }

  /** One expired block: its row, and only then the compare-and-remove. */
  method ExpireOne(s: Service, b: Block) returns (removed: bool)
    requires s.Valid() && b.subject in s.blocks && s.blocks[b.subject] == b && !b.ActiveAt(s.clock)
    modifies s`clock, s`step, s`blocks, s`trail
    ensures s.Valid() && s.clock >= old(s.clock) && s.step > old(s.step)
    ensures ExpireOutcome(b, old(s.blocks), s.blocks, old(s.trail), s.trail, removed)
    ensures old(s.Healthy()) ==> removed
  {
    var now := s.Now();
    var recorded := s.Append(ExpiryRow(b, now));
    if !recorded { return false; }
    var f := s.Port();
    var at := s.Now();
    var found := f == Fine && b.subject in s.blocks && s.blocks[b.subject].until == b.until;
    removed := found && b.until.Some? && b.until.value <= at;
    if removed { s.blocks := s.blocks - {b.subject}; }
  }

  lemma RoundStep(blocks0: map<string, Block>, blocks: map<string, Block>, next: map<string, Block>,
                  trail0: seq<Row>, trail: seq<Row>, after: seq<Row>, now: Time, later: Time, b: Block)
    requires RoundKeeps(blocks0, blocks, trail0, trail, now) && now <= later
    requires b.subject in blocks && blocks[b.subject] == b && !b.ActiveAt(now)
    requires next == blocks || (next == blocks - {b.subject} && after != trail)
    requires after == trail || (|after| == |trail| + 1 && trail <= after && after[|trail|].reason == OfExpiry(b))
    ensures RoundKeeps(blocks0, next, trail0, after, later)
  {
    forall x <- blocks0 | x !in next
      ensures !blocks0[x].ActiveAt(later) && exists k :: |trail0| <= k < |after|
                                                         && after[k].reason == OfExpiry(blocks0[x])
    {
      if x == b.subject && x in blocks {
        assert after[|trail|].reason == OfExpiry(blocks0[x]);
      } else {
        var k :| |trail0| <= k < |trail| && trail[k].reason == OfExpiry(blocks0[x]);
        assert after[k].reason == OfExpiry(blocks0[x]);
      }
    }
  }

  /** The blocks still to deal with are ended ones, keyed by their subject. */
  ghost predicate Ended(todo: set<string>, blocks: map<string, Block>, now: Time) {
    forall x <- todo :: x in blocks && blocks[x].subject == x && !blocks[x].ActiveAt(now)
  }

  ghost predicate OthersHold(todo: set<string>, blocks: map<string, Block>, now: Time) {
    forall x <- blocks :: blocks[x].ActiveAt(now) || x in todo
  }

  method ExpireTurn(s: Service, x: string, ghost todo: set<string>, ghost now: Time,
                    ghost blocks0: map<string, Block>, ghost trail0: seq<Row>) returns (gone: bool)
    requires s.Valid() && s.clock >= now && Ended(todo, s.blocks, now) && x in todo
    requires RoundKeeps(blocks0, s.blocks, trail0, s.trail, s.clock)
    modifies s`clock, s`step, s`blocks, s`trail
    ensures s.Valid() && s.clock >= old(s.clock) && s.step > old(s.step)
    ensures Ended(todo - {x}, s.blocks, now)
    ensures RoundKeeps(blocks0, s.blocks, trail0, s.trail, s.clock)
    ensures |s.blocks| + (if gone then 1 else 0) == |old(s.blocks)|
    ensures old(s.Healthy()) && OthersHold(todo, old(s.blocks), now) ==> OthersHold(todo - {x}, s.blocks, now)
  {
    var b := s.blocks[x];
    ghost var at := s.clock;
    gone := ExpireOne(s, b);
    RoundStep(blocks0, old(s.blocks), s.blocks, trail0, old(s.trail), s.trail, at, s.clock, b);
    Shrinks(old(s.blocks), x);
  }

  lemma Shrinks(blocks: map<string, Block>, x: string)
    requires x in blocks
    ensures |blocks - {x}| + 1 == |blocks|
  {
    assert blocks == (blocks - {x})[x := blocks[x]];
  }

  method ExpireEach(s: Service, ended: set<string>, now: Time) returns (removed: nat)
    requires s.Valid() && s.clock >= now && Ended(ended, s.blocks, now)
    modifies s`clock, s`step, s`blocks, s`trail
    ensures s.Valid() && s.clock >= old(s.clock)
    ensures RoundKeeps(old(s.blocks), s.blocks, old(s.trail), s.trail, s.clock)
    ensures |s.blocks| + removed == |old(s.blocks)|
    ensures old(s.Healthy()) && OthersHold(ended, old(s.blocks), now) ==> OthersHold({}, s.blocks, now)
  {
    removed := 0;
    var todo := ended;
    while todo != {}
      invariant s.Valid() && s.clock >= old(s.clock) && s.step >= old(s.step) && Ended(todo, s.blocks, now)
      invariant RoundKeeps(old(s.blocks), s.blocks, old(s.trail), s.trail, s.clock)
      invariant |s.blocks| + removed == |old(s.blocks)|
      invariant old(s.Healthy()) && OthersHold(ended, old(s.blocks), now) ==> OthersHold(todo, s.blocks, now)
      decreases todo
    {
      var x :| x in todo;
      var gone := ExpireTurn(s, x, todo, now, old(s.blocks), old(s.trail));
      if gone { removed := removed + 1; }
      todo := todo - {x};
    }
  }

  /** expireBlocks: a block leaves only after it ended and only with a row of
      its own; whatever fails, an enforced block stays; when nothing fails, no
      block that had ended when the round began is left. */
  method ExpireBlocks(s: Service) returns (removed: nat)
    requires s.Valid() && forall x <- s.blocks :: s.blocks[x].subject == x
    modifies s`clock, s`step, s`blocks, s`trail
    ensures s.Valid() && s.clock >= old(s.clock)
    ensures RoundKeeps(old(s.blocks), s.blocks, old(s.trail), s.trail, s.clock)
    ensures |s.blocks| + removed == |old(s.blocks)|
    ensures old(s.Healthy()) ==> forall x <- s.blocks :: s.blocks[x].ActiveAt(old(s.clock))
  {
    removed := 0;
    var read := s.Port();
    if read != Fine { return; }
    var now := s.Now();
    removed := ExpireEach(s, EndedSubjects(s.blocks, now), now);
    assert old(s.Healthy()) ==> OthersHold({}, s.blocks, now);
  }
}
