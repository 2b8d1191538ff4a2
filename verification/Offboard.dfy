/** Offboard: block the subject, disable the account, say so -- three changes and
    three rows, any of which may fail (internal/admin/offboard.go). */
module Offboard {
  import opened GoText
  import opened Blocks
  import opened Service
  import opened BlockActions
  import opened Accounts

  datatype Request = Request(subject: string, reason: string)

  /** blocked and disabled: how the person stands; did*: what this call did. */
  datatype Result = Result(changed: bool, recorded: bool, audit: Option<Row>, rows: seq<Row>, warnings: seq<Warning>,
                           blocked: bool, disabled: bool, didBlock: bool, didDisable: bool)

  const NO_RESULT := Result(false, false, None, [], [], false, false, false, false)

  /** Which of the rows the call meant to write were written, and when. */
  datatype Writes = Writes(block: bool, disable: bool, disableAt: Time, summary: bool, summaryAt: Time)

  const NO_WRITES := Writes(false, false, ZERO_TIME, false, ZERO_TIME)

  function BlockRequest(username: string, req: Request): BlockActions.Request {
    BlockActions.Request(req.subject, None, "offboard of account \"" + username + "\""
                         + (if req.reason == "" then "" else "; " + req.reason))
  }

  function DisableRow(a: Actor, username: string, at: Time): Row {
    OperatorRow(a, AccountDisable, OfAccount(username, None, "offboard " + Tag(a)), at)
  }

  function SummaryRow(a: Actor, username: string, req: Request, didBlock: bool, didDisable: bool, at: Time): Row {
    OperatorRow(a, AccountOffboard, OfOffboard(username, req.subject, didBlock, didDisable, Tag(a), req.reason), at)
  }

  /** The rows a call that did these things wrote, in order. */
  function RowsOf(a: Actor, username: string, req: Request, block: Option<Row>, r: Result, w: Writes): seq<Row> {
    (if r.didBlock && block.Some? then Listed(block.value, w.block) else [])
    + (if r.didDisable then Listed(DisableRow(a, username, w.disableAt), w.disable) else [])
    + Listed(SummaryRow(a, username, req, r.didBlock, r.didDisable, w.summaryAt), w.summary)
  }

  function Meant(r: Result): nat {
    (if r.didBlock then 1 else 0) + (if r.didDisable then 1 else 0) + 1
  }

  predicate AllWritten(r: Result, w: Writes) { (r.didBlock ==> w.block) && (r.didDisable ==> w.disable) && w.summary }

  /** Counting the rows listed in an answer tells whether any was lost. */
  lemma CompleteIffAllRows(a: Actor, username: string, req: Request, block: Option<Row>, r: Result, w: Writes)
    requires r.didBlock ==> block.Some?
    ensures |RowsOf(a, username, req, block, r, w)| <= Meant(r)
    ensures |RowsOf(a, username, req, block, r, w)| == Meant(r) <==> AllWritten(r, w)
  { }

  /** The block on the subject, in the row of the block just placed. */
  function PlacedRow(a: Actor, s0: map<string, Block>, s1: map<string, Block>, replacer: bool,
                     subject: string): Option<Row> {
    if subject in s1 then Some(BlockRow(a, s1[subject], Displaced(replacer, s0, subject))) else None
  }

  /** add: fold one part's answer in. */
  function Fold(r: Result, part: ActionResult, wroteRow: bool): Result {
    var s := r.(warnings := r.warnings + part.warnings);
    if wroteRow && part.recorded && part.audit.Some?
    then s.(rows := r.rows + [part.audit.value], audit := part.audit)
    else s
  }

  function LastRow(rows: seq<Row>): Option<Row> { if rows == [] then None else Some(rows[|rows| - 1]) }

  /** Blocking is an operator's or root's action, and the block must be one the
      blocklist takes. */
  predicate MayBlock(a: Actor, username: string, req: Request) {
    req.subject != "" ==> (a.root || a.operator) && Acceptable(a, BlockRequest(username, req))
  }

  /** What may be refused before anything is done. */
  method Check(s: Service, mapped: set<string>, a: Actor, username: string, req: Request)
    returns (note: string, cur: Option<Account>, err: Option<Code>)
    requires s.Valid()
    modifies s`clock, s`step
    ensures s.Valid() && s.clock >= old(s.clock) && s.step >= old(s.step) && (cur.Some? <==> err.None?)
    ensures err.None? ==> Attributable(a) && username in s.accounts && cur.value == s.accounts[username]
                          && Reaches(a, mapped, cur.value)
                          && MayBlock(a, username, req)
                          && (req.subject != "" ==> note == BlockNote(a, BlockRequest(username, req).reason))
    ensures old(CanEdit(s, a, mapped, username)) && MayBlock(a, username, req) ==> err.None?
  {
    note, cur := "", None;
    if !Attributable(a) { return "", None, Some(PeerUnattributable); }
    if req.subject != "" {
      if !a.root && !a.operator { return "", None, Some(ForbiddenPeer); }
      note, err := ValidateRequest(s, a, BlockRequest(username, req));
      if err.Some? { return; }
    }
    cur, err := Begin(s, a, mapped, username);
  }

  /** How the blocklist stands after the first half. */
  predicate BlockedSo(subject: string, blocks0: map<string, Block>, blocks1: map<string, Block>, t0: Time, t1: Time,
                      didBlock: bool) {
    if didBlock then
      && subject in blocks1 && blocks1[subject].until.None? && blocks1 == blocks0[subject := blocks1[subject]]
      && (subject in blocks0 ==> !blocks0[subject].ActiveAt(t1))
    else
      blocks1 == blocks0 && (subject != "" ==> subject in blocks0 && blocks0[subject].ActiveAt(t0))
  }

  predicate BlockDone(a: Actor, req: Request, replacer: bool, blocks0: map<string, Block>, blocks1: map<string, Block>,
                      trail0: seq<Row>, trail1: seq<Row>, t0: Time, t1: Time, r: Result, wrote: bool) {
    && BlockedSo(req.subject, blocks0, blocks1, t0, t1, r.didBlock)
    && r.rows == (if r.didBlock then Listed(PlacedRow(a, blocks0, blocks1, replacer, req.subject).value, wrote) else [])
    && trail1 == trail0 + r.rows && r.audit == LastRow(r.rows) && (!r.didBlock ==> wrote)
    && r.changed == r.didBlock && r.blocked == (req.subject != "") && !r.didDisable && !r.disabled && !r.recorded
  }

  /** The first half. */
  method BlockPart(s: Service, a: Actor, username: string, req: Request, note: string)
    returns (r: Result, err: Option<Code>, wrote: bool)
    requires s.Valid()
    requires req.subject != "" ==> note == BlockNote(a, BlockRequest(username, req).reason)
    modifies s`clock, s`step, s`blocks, s`trail
    ensures s.Valid() && s.clock >= old(s.clock) && s.step >= old(s.step)
    ensures err.Some? ==> s.blocks == old(s.blocks) && s.trail == old(s.trail)
    ensures err.None? ==> BlockDone(a, req, s.replacer, old(s.blocks), s.blocks, old(s.trail), s.trail, old(s.clock),
                                    s.clock, r, wrote)
    ensures old(s.Healthy()) && MayBlock(a, username, req) ==> err.None? && wrote
  {
    r, err, wrote := NO_RESULT, None, true;
    if req.subject == "" { return; }
    var part;
    part, err := PlaceBlock(s, a, BlockRequest(username, req), note);
    if err.Some? { return; }
    r := Fold(r, part, part.changed).(blocked := true, changed := part.changed, didBlock := part.changed);
    wrote := part.changed ==> part.recorded;
  }

  predicate DisableDone(a: Actor, username: string, before: Result, accounts0: Directory, accounts1: Directory,
                        trail0: seq<Row>, trail1: seq<Row>, r: Result, wrote: bool, at: Time) {
    var rows := if r.didDisable then Listed(DisableRow(a, username, at), wrote) else [];
    && username in accounts0
    && accounts1 == (if r.didDisable then WithDisabled(accounts0, username, true) else accounts0)
    && (r.didDisable ==> !accounts0[username].disabled) && (!r.didDisable ==> wrote)
    && r == before.(didDisable := r.didDisable, disabled := accounts1[username].disabled,
                    changed := before.changed || r.didDisable,
                    rows := before.rows + rows, audit := LastRow(r.rows), warnings := r.warnings)
    && trail1 == trail0 + rows
    && (!r.disabled ==> before.changed && OffboardIncomplete in r.warnings)
  }

  /** The second half. An error only if the first half changed nothing. */
  method DisablePart(s: Service, a: Actor, username: string, cur: Account, before: Result)
    returns (r: Result, err: Option<Code>, wrote: bool, ghost at: Time)
    requires s.Valid() && username in s.accounts && cur == s.accounts[username]
    requires !before.disabled && !before.didDisable && before.audit == LastRow(before.rows)
    modifies s`clock, s`step, s`accounts, s`trail
    ensures s.Valid() && s.clock >= old(s.clock) && s.step >= old(s.step)
    ensures err.Some? ==> !before.changed && s.accounts == old(s.accounts) && s.trail == old(s.trail)
    ensures err.None? ==> DisableDone(a, username, before, old(s.accounts), s.accounts, old(s.trail), s.trail, r, wrote,
                                      at)
    ensures old(s.Healthy()) ==> err.None? && r.disabled && wrote
  {
    r, err, wrote, at := before, None, true, ZERO_TIME;
    if cur.disabled {
      r := r.(disabled := true);
      return;
    }
    var failed := Accounts.Store(s, username, cur.(disabled := true));
    if failed.Some? {
      if !before.changed { err := Some(Internal); return; }
      r := r.(warnings := r.warnings + [OffboardIncomplete]);
      return;
    }
    r, wrote, at := Disabled(s, a, username, before);
  }

  /** The row and the answer of an account just disabled. */
  method Disabled(s: Service, a: Actor, username: string, before: Result)
    returns (r: Result, wrote: bool, ghost at: Time)
    requires s.Valid() && before.audit == LastRow(before.rows)
    modifies s`clock, s`step, s`trail
    ensures s.Valid() && s.clock >= old(s.clock) && s.step >= old(s.step)
    ensures var rows := Listed(DisableRow(a, username, at), wrote);
            && s.trail == old(s.trail) + rows
            && r == before.(didDisable := true, disabled := true, changed := true, rows := before.rows + rows,
                            audit := LastRow(r.rows), warnings := r.warnings)
    ensures old(s.Healthy()) ==> wrote
  {
    var now := s.Now();
    at := now;
    var row := DisableRow(a, username, now);
    var part := s.Record(ActionResult(false, false, None, [IdpReload]), row);
    wrote := part.recorded;
    FoldSays(before, part, row);
    r := Fold(before, part, true).(disabled := true, didDisable := true, changed := true);
  }

  /** What a call leaves, given what it found. */
  predicate Outcome(a: Actor, username: string, req: Request, replacer: bool,
                    blocks0: map<string, Block>, blocks1: map<string, Block>,
                    accounts0: Directory, accounts1: Directory,
                    trail0: seq<Row>, trail1: seq<Row>, t0: Time, t1: Time, r: Result, w: Writes) {
    && username in accounts0
    && accounts1 == (if r.didDisable then WithDisabled(accounts0, username, true) else accounts0)
    && (r.didDisable ==> !accounts0[username].disabled)
    && BlockedSo(req.subject, blocks0, blocks1, t0, t1, r.didBlock)
    && r.changed == (r.didBlock || r.didDisable)
    && trail1 == trail0 + r.rows && r.audit == LastRow(r.rows)
    && (if r.changed then
          && r.rows == RowsOf(a, username, req, PlacedRow(a, blocks0, blocks1, replacer, req.subject), r, w)
          && r.recorded == AllWritten(r, w)
        else
          r.rows == [] && !r.recorded && accounts0[username].disabled)
    && r.disabled == accounts1[username].disabled && r.blocked == (req.subject != "")
    && (!r.disabled ==> r.didBlock && OffboardIncomplete in r.warnings)
  }

  predicate Concluded(a: Actor, username: string, req: Request, before: Result, r: Result, wrote: bool,
                      trail0: seq<Row>, trail1: seq<Row>, summary: bool, at: Time) {
    var rows := Listed(SummaryRow(a, username, req, before.didBlock, before.didDisable, at), summary);
    && trail1 == trail0 + rows
    && r == before.(recorded := wrote && summary, warnings := r.warnings, rows := before.rows + rows,
                    audit := LastRow(r.rows))
    && (forall x <- before.warnings :: x in r.warnings)
  }

  /** A part that meant to write this row, folded in. */
  lemma FoldSays(before: Result, part: ActionResult, row: Row)
    requires before.audit == LastRow(before.rows) && part.audit == (if part.recorded then Some(row) else None)
    ensures var rows := before.rows + Listed(row, part.recorded);
            Fold(before, part, true) ==
            before.(rows := rows, audit := LastRow(rows), warnings := before.warnings + part.warnings)
  {
    assert !part.recorded ==> before.rows + [] == before.rows;
  }

  lemma Concludes(a: Actor, username: string, req: Request, before: Result, part: ActionResult, wrote: bool,
                  trail: seq<Row>, at: Time)
    requires before.audit == LastRow(before.rows)
    requires var row := SummaryRow(a, username, req, before.didBlock, before.didDisable, at);
             part.audit == (if part.recorded then Some(row) else None)
    ensures var row := SummaryRow(a, username, req, before.didBlock, before.didDisable, at);
            Concluded(a, username, req, before, Fold(before, part, true).(recorded := wrote && part.recorded), wrote,
                      trail, trail + Listed(row, part.recorded), part.recorded, at)
  {
    FoldSays(before, part, SummaryRow(a, username, req, before.didBlock, before.didDisable, at));
  }

  /** The summary row, and the answer to the whole call. */
  method Conclude(s: Service, a: Actor, username: string, req: Request, before: Result, wrote: bool)
    returns (r: Result, ghost summary: bool, ghost at: Time)
    requires s.Valid() && before.audit == LastRow(before.rows)
    modifies s`clock, s`step, s`trail
    ensures s.Valid() && s.clock >= old(s.clock)
    ensures Concluded(a, username, req, before, r, wrote, old(s.trail), s.trail, summary, at)
    ensures old(s.Healthy()) ==> summary
  {
    var now := s.Now();
    at := now;
    var row := SummaryRow(a, username, req, before.didBlock, before.didDisable, now);
    var part := s.Record(NEW_RESULT, row);
    summary := part.recorded;
    r := Fold(before, part, true).(recorded := wrote && part.recorded);
    Concludes(a, username, req, before, part, wrote, old(s.trail), now);
  }

  /** A call that changed nothing is done after its halves. */
  lemma NothingChanged(a: Actor, username: string, req: Request, replacer: bool,
                       blocks0: map<string, Block>, blocks1: map<string, Block>,
                       accounts0: Directory, accounts1: Directory,
                       trail0: seq<Row>, trail1: seq<Row>, trail2: seq<Row>, t: Time, t0: Time, t1: Time, t2: Time,
                       b: Result, wroteBlock: bool, r: Result, wroteDisable: bool, at: Time)
    requires BlockDone(a, req, replacer, blocks0, blocks1, trail0, trail1, t0, t1, b, wroteBlock)
    requires DisableDone(a, username, b, accounts0, accounts1, trail1, trail2, r, wroteDisable, at)
    requires !r.changed && t <= t0 && t1 <= t2
    ensures Outcome(a, username, req, replacer, blocks0, blocks1, accounts0, accounts1, trail0, trail2, t, t2, r,
                    NO_WRITES)
  { }

  lemma AllTogether(a: Actor, username: string, req: Request, replacer: bool,
                    blocks0: map<string, Block>, blocks1: map<string, Block>,
                    accounts0: Directory, accounts1: Directory,
                    trail0: seq<Row>, trail1: seq<Row>, trail2: seq<Row>, trail3: seq<Row>,
                    t: Time, t0: Time, t1: Time, t2: Time,
                    b: Result, d: Result, r: Result, w: Writes)
    requires BlockDone(a, req, replacer, blocks0, blocks1, trail0, trail1, t0, t1, b, w.block)
    requires DisableDone(a, username, b, accounts0, accounts1, trail1, trail2, d, w.disable, w.disableAt)
    requires d.changed
    requires Concluded(a, username, req, d, r, w.block && w.disable, trail2, trail3, w.summary, w.summaryAt)
    requires t <= t0 && t1 <= t2
    ensures Outcome(a, username, req, replacer, blocks0, blocks1, accounts0, accounts1, trail0, trail3, t, t2, r, w)
  {
    var disabling := if d.didDisable then Listed(DisableRow(a, username, w.disableAt), w.disable) else [];
    var summing := Listed(SummaryRow(a, username, req, d.didBlock, d.didDisable, w.summaryAt), w.summary);
    assert r.rows == b.rows + disabling + summing && trail3 == trail0 + b.rows + disabling + summing;
    InOrder(trail0, b.rows, disabling, summing);
    StillSo(req.subject, blocks0, blocks1, t, t0, t1, t2, r.didBlock);
  }

  lemma StillSo(subject: string, blocks0: map<string, Block>, blocks1: map<string, Block>,
                t: Time, t0: Time, t1: Time, t2: Time, didBlock: bool)
    requires BlockedSo(subject, blocks0, blocks1, t0, t1, didBlock) && t <= t0 && t1 <= t2
    ensures BlockedSo(subject, blocks0, blocks1, t, t2, didBlock)
  { }

  lemma InOrder(trail: seq<Row>, x: seq<Row>, y: seq<Row>, z: seq<Row>)
    ensures ((trail + x) + y) + z == trail + ((x + y) + z)
  { }

  /** Both halves and the summary, once nothing is left to refuse. */
  method Carry(s: Service, a: Actor, username: string, req: Request, note: string, cur: Account, ghost t: Time)
    returns (r: Result, err: Option<Code>, ghost w: Writes)
    requires s.Valid() && username in s.accounts && cur == s.accounts[username] && t <= s.clock
    requires req.subject != "" ==> note == BlockNote(a, BlockRequest(username, req).reason)
    modifies s`clock, s`step, s`blocks, s`accounts, s`trail
    ensures s.Valid()
    ensures err.Some? ==> s.blocks == old(s.blocks) && s.accounts == old(s.accounts) && s.trail == old(s.trail)
    ensures err.None? ==> Outcome(a, username, req, s.replacer, old(s.blocks), s.blocks, old(s.accounts), s.accounts,
                                  old(s.trail), s.trail, t, s.clock, r, w)
    ensures old(s.Healthy()) && MayBlock(a, username, req) ==> err.None? && r.disabled && (r.changed ==> r.recorded)
  {
    r, w := NO_RESULT, NO_WRITES;
    var d, wroteBlock, wroteDisable;
    ghost var b, disableAt, trail1, t1 := NO_RESULT, ZERO_TIME, [], ZERO_TIME;
    ghost var t0 := s.clock;
    d, err, wroteBlock, wroteDisable, b, disableAt, trail1, t1 := Halves(s, a, username, req, note, cur);
    if err.Some? { return; }
    if !d.changed {
      NothingChanged(a, username, req, s.replacer, old(s.blocks), s.blocks, old(s.accounts), s.accounts,
                     old(s.trail), trail1, s.trail, t, t0, t1, s.clock, b, wroteBlock, d, wroteDisable, disableAt);
      return d, None, NO_WRITES;
    }
    r, w := Answer(s, a, username, req, d, wroteBlock, wroteDisable, disableAt, b, old(s.blocks), old(s.accounts),
                   old(s.trail), trail1, t, t0, t1);
  }

  /** The end of a call that changed something, given how things stood before
      its halves and between them. */
  method Answer(s: Service, a: Actor, username: string, req: Request, d: Result, wroteBlock: bool, wroteDisable: bool,
                ghost disableAt: Time, ghost b: Result, ghost blocks0: map<string, Block>, ghost accounts0: Directory,
                ghost trail0: seq<Row>, ghost trail1: seq<Row>, ghost t: Time, ghost t0: Time, ghost t1: Time)
    returns (r: Result, ghost w: Writes)
    requires s.Valid() && d.changed && t <= t0 && t1 <= s.clock
    requires BlockDone(a, req, s.replacer, blocks0, s.blocks, trail0, trail1, t0, t1, b, wroteBlock)
    requires DisableDone(a, username, b, accounts0, s.accounts, trail1, s.trail, d, wroteDisable, disableAt)
    modifies s`clock, s`step, s`trail
    ensures s.Valid()
    ensures Outcome(a, username, req, s.replacer, blocks0, s.blocks, accounts0, s.accounts, trail0, s.trail, t,
                    s.clock, r, w)
    ensures old(s.Healthy()) && wroteBlock && wroteDisable ==> r.disabled == d.disabled && r.recorded
  {
    ghost var summary, summaryAt;
    ghost var trail2 := s.trail;
    r, summary, summaryAt := Conclude(s, a, username, req, d, wroteBlock && wroteDisable);
    w := Writes(wroteBlock, wroteDisable, disableAt, summary, summaryAt);
    AllTogether(a, username, req, s.replacer, blocks0, s.blocks, accounts0, s.accounts, trail0, trail1, trail2,
                s.trail, t, t0, t1, s.clock, b, d, r, w);
  }

  /** b, trail1 and t1 are how things stood between the two. */
  method Halves(s: Service, a: Actor, username: string, req: Request, note: string, cur: Account)
    returns (d: Result, err: Option<Code>, wroteBlock: bool, wroteDisable: bool,
             ghost b: Result, ghost disableAt: Time, ghost trail1: seq<Row>, ghost t1: Time)
    requires s.Valid() && username in s.accounts && cur == s.accounts[username]
    requires req.subject != "" ==> note == BlockNote(a, BlockRequest(username, req).reason)
    modifies s`clock, s`step, s`blocks, s`accounts, s`trail
    ensures s.Valid() && s.clock >= t1 && s.step >= old(s.step)
    ensures err.Some? ==> s.blocks == old(s.blocks) && s.accounts == old(s.accounts) && s.trail == old(s.trail)
    ensures err.None? ==>
              && BlockDone(a, req, s.replacer, old(s.blocks), s.blocks, old(s.trail), trail1, old(s.clock), t1, b,
                           wroteBlock)
              && DisableDone(a, username, b, old(s.accounts), s.accounts, trail1, s.trail, d, wroteDisable, disableAt)
    ensures old(s.Healthy()) && MayBlock(a, username, req) ==> err.None? && d.disabled && wroteBlock && wroteDisable
  {
    var before;
    d, wroteDisable, disableAt := NO_RESULT, true, ZERO_TIME;
    before, err, wroteBlock := BlockPart(s, a, username, req, note);
    b, trail1, t1 := before, s.trail, s.clock;
    if err.Some? { return; }
    d, err, wroteDisable, disableAt := DisablePart(s, a, username, cur, before);
  }

  lemma DisablingIsPermitted(a: Actor, mapped: set<string>, d: Directory, u: string)
    requires u in d && Reaches(a, mapped, d[u])
    ensures Permitted(a, mapped, d, WithDisabled(d, u, true))
  { }

  /** The whole call. An error means neither the blocklist, nor the users file,
      nor the trail changed. A change is answered recorded exactly when every
      row the call meant to write is on the trail; the answer lists the rows
      that are. */
  method Offboard(s: Service, mapped: set<string>, a: Actor, username: string, req: Request)
    returns (r: Result, err: Option<Code>, ghost w: Writes)
    requires s.Valid()
    modifies s`clock, s`step, s`blocks, s`accounts, s`trail
    ensures s.Valid() && Permitted(a, mapped, old(s.accounts), s.accounts)
    ensures err.Some? ==> s.blocks == old(s.blocks) && s.accounts == old(s.accounts) && s.trail == old(s.trail)
    ensures err.None? ==> MayBlock(a, username, req)
                          && Outcome(a, username, req, s.replacer, old(s.blocks), s.blocks, old(s.accounts), s.accounts,
                                     old(s.trail), s.trail, old(s.clock), s.clock, r, w)
    ensures old(CanEdit(s, a, mapped, username)) && MayBlock(a, username, req) ==>
              err.None? && r.disabled && (r.changed ==> r.recorded)
  {
    r, w := NO_RESULT, NO_WRITES;
    NothingIsPermitted(a, mapped, s.accounts);
    var note, cur;
    note, cur, err := Check(s, mapped, a, username, req);
    if err.Some? { return; }
    DisablingIsPermitted(a, mapped, s.accounts, username);
    r, err, w := Carry(s, a, username, req, note, cur.value, old(s.clock));
  }

  /** Counting rows is enough: a change is answered recorded exactly when the
      trail grew by every row the call meant to write. */
  lemma RecordedIffNoRowIsLost(a: Actor, username: string, req: Request, replacer: bool,
                               blocks0: map<string, Block>, blocks1: map<string, Block>,
                               accounts0: Directory, accounts1: Directory,
                               trail0: seq<Row>, trail1: seq<Row>, t0: Time, t1: Time, r: Result, w: Writes)
    requires Outcome(a, username, req, replacer, blocks0, blocks1, accounts0, accounts1, trail0, trail1, t0, t1, r, w)
    ensures r.changed <==> blocks1 != blocks0 || accounts1 != accounts0
    ensures r.changed ==> (r.recorded <==> |trail1| == |trail0| + Meant(r)) && |trail1| <= |trail0| + Meant(r)
    ensures !r.changed ==> trail1 == trail0 && !r.recorded
  {
    if r.changed { CompleteIffAllRows(a, username, req, PlacedRow(a, blocks0, blocks1, replacer, req.subject), r, w); }
    if r.didDisable { assert accounts1[username].disabled; }
  }
}
