/** Approving one backend's review set in one act: all of it or none, one row a
    tool and one for the act (internal/admin/review_set.go; the pure part of
    internal/quarantine/quarantine.go it relies on). */
module ReviewSet {
  import opened GoText
  import opened Blocks
  import opened Service
  import A = Access
  import C = Coverage

  datatype Status = Pending | Approved | Changed

  datatype Tool = Tool(name: string, status: Status, approved: string, observed: string, sensitive: bool,
                       cleared: string) {
    predicate ApprovedAsAdvertised() { status == Approved && approved != "" && observed == approved }

    predicate Usable() { ApprovedAsAdvertised() && (sensitive ==> cleared != "" && cleared == approved) }

    predicate NeedsReview() { status != Approved }

    /** Approved at what it advertises; a clearance does not outlive the
        baseline it was given for. */
    function AsApproved(): Tool {
      this.(status := Approved, approved := observed, cleared := if observed == approved then cleared else "")
    }
  }

  datatype Approval = Approval(before: Tool, after: Tool)

  /** The entries that wait for review, in name order, as the store lists them. */
  function Waiting(tools: seq<Tool>): seq<Tool> {
    if tools == [] then [] else (if tools[0].NeedsReview() then [tools[0]] else []) + Waiting(tools[1..])
  }

  /** What a manifest is the hash of. */
  datatype Entry = Entry(name: string, status: Status, observed: string, approved: string)

  function EntriesOf(set_: seq<Tool>): seq<Entry> {
    seq(|set_|, k requires 0 <= k < |set_| => Entry(set_[k].name, set_[k].status, set_[k].observed, set_[k].approved))
  }

  function ApprovalsOf(set_: seq<Tool>): seq<Approval> {
    seq(|set_|, k requires 0 <= k < |set_| => Approval(set_[k], set_[k].AsApproved()))
  }

  /** Every entry that waited is approved as advertised; the rest are as they were. */
  function ApproveAll(tools: seq<Tool>): seq<Tool> {
    seq(|tools|, k requires 0 <= k < |tools| => if tools[k].NeedsReview() then tools[k].AsApproved() else tools[k])
  }

  lemma {:induction false} WaitingAreThoseThatNeedReview(tools: seq<Tool>)
    ensures forall t :: t in Waiting(tools) <==> t in tools && t.NeedsReview()
  {
    if tools != [] {
      WaitingAreThoseThatNeedReview(tools[1..]);
      assert tools == [tools[0]] + tools[1..];
    }
  }

  /** The act's approvals are of exactly the entries that need review, each as
      approved at what it advertises; no other entry is touched. */
  lemma ApprovalsAreExact(tools: seq<Tool>)
    ensures forall ap: Approval :: ap in ApprovalsOf(Waiting(tools)) <==>
              ap.before in tools && ap.before.NeedsReview() && ap.after == ap.before.AsApproved()
    ensures forall k :: 0 <= k < |tools| && !tools[k].NeedsReview() ==> ApproveAll(tools)[k] == tools[k]
  {
    WaitingAreThoseThatNeedReview(tools);
    var set_ := Waiting(tools);
    forall ap: Approval | ap.before in set_ && ap.after == ap.before.AsApproved() ensures ap in ApprovalsOf(set_) {
      var k :| 0 <= k < |set_| && set_[k] == ap.before;
      assert ApprovalsOf(set_)[k] == ap;
    }
  }

  /** After the act nothing waits, so the same manifest cannot be spent twice. */
  lemma {:induction false} NothingWaitsAfter(tools: seq<Tool>)
    ensures Waiting(ApproveAll(tools)) == []
  {
    if tools != [] {
      NothingWaitsAfter(tools[1..]);
      assert ApproveAll(tools)[1..] == ApproveAll(tools[1..]);
    }
  }

  /** Approving a set never serves a sensitive tool that was not cleared at
      these very bytes: what is usable after is safe, or was approved and
      cleared at the fingerprint it has. */
  lemma ApprovingNeverClears(t: Tool)
    ensures t.AsApproved().Usable() <==>
              t.observed != "" && (t.sensitive ==> t.cleared == t.observed == t.approved)
  { }

  // ---- The store -------------------------------------------------------------------

  /** One backend's entries. Between two steps of a call other processes may
      replace them: moves says when, and with what. */
  class Quarantine {
    const moves: nat -> Option<seq<Tool>>
    var turn: nat
    var tools: seq<Tool>

    constructor (moves: nat -> Option<seq<Tool>>, tools: seq<Tool>)
      ensures this.moves == moves && this.tools == tools
    {
      this.moves, this.turn, this.tools := moves, 0, tools;
    }

    /** What the backend's entries are at step k, if they were ts before it. */
    function Moved(k: nat, ts: seq<Tool>): seq<Tool> { if moves(k).Some? then moves(k).value else ts }

    method Observe()
      modifies this
      ensures turn == old(turn) + 1 && tools == Moved(old(turn), old(tools))
    {
      if moves(turn).Some? { tools := moves(turn).value; }
      turn := turn + 1;
    }

    /** ApproveReviewSet: one transaction, on the set as it is by then. */
    method ApproveReviewSet(manifest: string, hash: seq<Entry> -> string) returns (approvals: Option<seq<Approval>>)
      modifies this
      ensures var at := Moved(old(turn), old(tools));
              && (approvals.Some? <==> Waiting(at) != [] && hash(EntriesOf(Waiting(at))) == manifest)
              && (approvals.Some? ==> approvals.value == ApprovalsOf(Waiting(at)))
              && tools == if approvals.Some? then ApproveAll(at) else at
    {
      Observe();
      var set_ := Waiting(tools);
      if set_ == [] || hash(EntriesOf(set_)) != manifest { return None; }
      tools := ApproveAll(tools);
      approvals := Some(ApprovalsOf(set_));
    }
  }

  // ---- The rows ----------------------------------------------------------------------

  function ApprovalRow(a: Actor, ap: Approval, manifest: string, at: Time): Row {
    OperatorRow(a, ToolApprove, OfApproval(ap.after.name, ap.after.approved,
                                           if ap.before.approved != ap.after.approved then ap.before.approved else "",
                                           ap.after.sensitive, manifest, Tag(a)), at)
  }

  /** How many were changed, not new. */
  function Rewritten(aps: seq<Approval>): (n: nat)
    ensures n <= |aps|
  {
    if aps == [] then 0 else (if aps[0].before.status == Changed then 1 else 0) + Rewritten(aps[1..])
  }

  /** The rows of the approvals whose writing succeeded. */
  function RowsWritten(a: Actor, aps: seq<Approval>, manifest: string, at: Time, wrote: seq<bool>): seq<Row>
    requires |wrote| == |aps|
  {
    if aps == [] then []
    else RowsWritten(a, aps[..|aps| - 1], manifest, at, wrote[..|aps| - 1])
         + Listed(ApprovalRow(a, aps[|aps| - 1], manifest, at), wrote[|aps| - 1])
  }

  predicate AllWrote(wrote: seq<bool>) { forall k :: 0 <= k < |wrote| ==> wrote[k] }

  lemma {:induction false} NoRowLostIffAllWrote(a: Actor, aps: seq<Approval>, manifest: string, at: Time,
                                                wrote: seq<bool>)
    requires |wrote| == |aps|
    ensures |RowsWritten(a, aps, manifest, at, wrote)| <= |aps|
    ensures |RowsWritten(a, aps, manifest, at, wrote)| == |aps| <==> AllWrote(wrote)
  {
    if aps != [] { NoRowLostIffAllWrote(a, aps[..|aps| - 1], manifest, at, wrote[..|aps| - 1]); }
  }

  method WriteRow(s: Service, a: Actor, aps: seq<Approval>, i: nat, manifest: string, at: Time,
                  rows: seq<Row>, ghost before: seq<Row>, ghost wrote: seq<bool>) returns (more: seq<Row>, ok: bool)
    requires i < |aps| && |wrote| == i && s.trail == before + rows
    requires rows == RowsWritten(a, aps[..i], manifest, at, wrote)
    modifies s`step, s`trail
    ensures s.step >= old(s.step) && s.trail == before + more
    ensures more == RowsWritten(a, aps[..i + 1], manifest, at, wrote + [ok])
    ensures |more| == |rows| + (if ok then 1 else 0)
    ensures old(s.Healthy()) ==> ok
  {
    var row := ApprovalRow(a, aps[i], manifest, at);
    OneMoreRow(a, aps, i, manifest, at, wrote, true);
    OneMoreRow(a, aps, i, manifest, at, wrote, false);
    ok := s.Append(row);
    more := rows + Listed(row, ok);
    assert before + rows + Listed(row, ok) == before + more;
  }

  /** One row a tool; what is not written is counted as lost. */
  method WriteRows(s: Service, a: Actor, aps: seq<Approval>, manifest: string, at: Time)
    returns (rows: seq<Row>, lost: nat, ghost wrote: seq<bool>)
    modifies s`step, s`trail
    ensures |wrote| == |aps| && rows == RowsWritten(a, aps, manifest, at, wrote) && |rows| + lost == |aps|
    ensures s.trail == old(s.trail) + rows && s.step >= old(s.step)
    ensures old(s.Healthy()) ==> lost == 0
  {
    rows, lost, wrote := [], 0, [];
    var i := 0;
    while i < |aps|
      invariant 0 <= i <= |aps| && |wrote| == i && s.step >= old(s.step)
      invariant rows == RowsWritten(a, aps[..i], manifest, at, wrote) && |rows| + lost == i
      invariant s.trail == old(s.trail) + rows
      invariant old(s.Healthy()) ==> lost == 0
    {
      var ok;
      rows, ok := WriteRow(s, a, aps, i, manifest, at, rows, old(s.trail), wrote);
      if !ok { lost := lost + 1; }
      wrote := wrote + [ok];
      i := i + 1;
    }
    assert aps[..i] == aps;
  }

  lemma OneMoreRow(a: Actor, aps: seq<Approval>, i: nat, manifest: string, at: Time, wrote: seq<bool>, ok: bool)
    requires i < |aps| && |wrote| == i
    ensures RowsWritten(a, aps[..i + 1], manifest, at, wrote + [ok]) ==
            RowsWritten(a, aps[..i], manifest, at, wrote) + Listed(ApprovalRow(a, aps[i], manifest, at), ok)
  {
    assert aps[..i + 1][..i] == aps[..i] && (wrote + [ok])[..i] == wrote;
  }

  // ---- What the approvals reach ---------------------------------------------------------

  datatype ApprovedTool = ApprovedTool(name: string, wasChanged: bool, baseline: string,
                                       callableBy: seq<C.RoleCoverage>)

  /** Approved, and neither served nor merely held for its clearance. */
  predicate Unusable(ap: Approval) { !ap.after.Usable() && !ap.after.sensitive }

  predicate ItemSays(item: ApprovedTool, roles: seq<A.Role>, server: string, ap: Approval) {
    && item.name == ap.after.name && item.wasChanged == (ap.before.status == Changed)
    && item.baseline == (if item.wasChanged then ap.before.approved else "")
    && C.Covered(item.callableBy, C.Reaching(roles, ap.after.sensitive, A.Namespaced(server, ap.after.name)),
                 A.Namespaced(server, ap.after.name))
    && (ap.after.sensitive ==> forall c <- item.callableBy :: !c.how.ByWildcard?)
  }

  predicate ItemsSay(items: seq<ApprovedTool>, roles: seq<A.Role>, server: string, aps: seq<Approval>) {
    |items| == |aps| && forall k :: 0 <= k < |aps| ==> ItemSays(items[k], roles, server, aps[k])
  }

  predicate NoneUnusable(aps: seq<Approval>) { forall ap <- aps :: !Unusable(ap) }

  /** One item a tool, in order, unless one came out unusable. */
  method Describe(roles: seq<A.Role>, server: string, aps: seq<Approval>) returns (items: seq<ApprovedTool>, ok: bool)
    ensures ok <==> NoneUnusable(aps)
    ensures ok ==> ItemsSay(items, roles, server, aps)
  {
    items := [];
    var i := 0;
    while i < |aps|
      invariant 0 <= i <= |aps| == |items| + (|aps| - i)
      invariant forall k :: 0 <= k < i ==> !Unusable(aps[k]) && ItemSays(items[k], roles, server, aps[k])
    {
      if Unusable(aps[i]) { return items, false; }
      var reach := C.ReachableBy(roles, server, aps[i].after.name, aps[i].after.sensitive);
      var changed := aps[i].before.status == Changed;
      var baseline := if changed then aps[i].before.approved else "";
      items := items + [ApprovedTool(aps[i].after.name, changed, baseline, reach)];
      i := i + 1;
    }
    ok := true;
  }

  predicate Wild(item: ApprovedTool) { exists c <- item.callableBy :: c.how.ByWildcard? }

  /** The warnings of an approved set. */
  predicate WarningsSay(ws: seq<Warning>, aps: seq<Approval>, items: seq<ApprovedTool>)
    requires |aps| == |items|
  {
    && (NoRoleGrants in ws <==> exists k :: 0 <= k < |items| && items[k].callableBy == [])
    && (SensitiveUncleared in ws <==> exists k :: 0 <= k < |aps| && !aps[k].after.Usable())
    && ((exists w <- ws :: w.WildcardGrant?) <==> exists k :: 0 <= k < |items| && Wild(items[k]))
  }

  method FirstWildcard(items: seq<ApprovedTool>) returns (role: Option<string>)
    ensures role.Some? <==> exists k :: 0 <= k < |items| && Wild(items[k])
  {
    var i := 0;
    while i < |items|
      invariant 0 <= i <= |items|
      invariant forall k :: 0 <= k < i ==> !Wild(items[k])
    {
      var j := 0;
      var cs := items[i].callableBy;
      while j < |cs|
        invariant 0 <= j <= |cs|
        invariant forall k :: 0 <= k < j ==> !cs[k].how.ByWildcard?
      {
        if cs[j].how.ByWildcard? {
          assert cs[j] in cs && Wild(items[i]);
          return Some(cs[j].role);
        }
        j := j + 1;
      }
      i := i + 1;
    }
    role := None;
  }

  method Warn(aps: seq<Approval>, items: seq<ApprovedTool>) returns (ws: seq<Warning>)
    requires |aps| == |items|
    ensures WarningsSay(ws, aps, items) && AuditWriteFailed !in ws
  {
    var wildcard := FirstWildcard(items);
    var none := if exists k :: 0 <= k < |items| && items[k].callableBy == [] then [NoRoleGrants] else [];
    var wild := if wildcard.Some? then [WildcardGrant(wildcard.value)] else [];
    var held := if exists k :: 0 <= k < |aps| && !aps[k].after.Usable() then [SensitiveUncleared] else [];
    ws := none + wild + held;
    if wildcard.Some? { assert ws[|none|] == WildcardGrant(wildcard.value); }
  }

  // ---- The act ---------------------------------------------------------------------------

  datatype Result = Result(base: ActionResult, approved: seq<ApprovedTool>, rows: seq<Row>)

  const NO_RESULT := Result(NEW_RESULT, [], [])

  function SummaryRow(a: Actor, server: string, aps: seq<Approval>, manifest: string, at: Time): Row {
    OperatorRow(a, ToolApproveSet, OfSet(manifest, server, |aps|, |aps| - Rewritten(aps), Rewritten(aps), Tag(a)), at)
  }

  /** Nothing happened but what other processes did. */
  predicate Untouched(res: Result, trail0: seq<Row>, trail1: seq<Row>) {
    res == NO_RESULT && trail1 == trail0
  }

  /** The answer to an approved set: every row written is listed, and the act
      is recorded exactly when all of them and the summary are on the trail. */
  predicate Reported(a: Actor, roles: seq<A.Role>, server: string, manifest: string, aps: seq<Approval>, at: Time,
                     wrote: seq<bool>, summary: bool, trail0: seq<Row>, trail1: seq<Row>, res: Result) {
    && |wrote| == |aps| && ItemsSay(res.approved, roles, server, aps)
    && res.rows == RowsWritten(a, aps, manifest, at, wrote)
    && trail1 == trail0 + res.rows + Listed(SummaryRow(a, server, aps, manifest, at), summary)
    && res.base.changed && res.base.recorded == (AllWrote(wrote) && summary)
    && res.base.audit == (if summary then Some(SummaryRow(a, server, aps, manifest, at)) else None)
    && (AuditWriteFailed in res.base.warnings <==> !res.base.recorded)
    && WarningsSay(res.base.warnings, aps, res.approved)
  }

  /** recorded, from what an answer lists: n rows and a summary. */
  lemma RecordedIffNoRowIsLost(a: Actor, roles: seq<A.Role>, server: string, manifest: string, aps: seq<Approval>,
                               at: Time,
                               wrote: seq<bool>, summary: bool, trail0: seq<Row>, trail1: seq<Row>, res: Result)
    requires Reported(a, roles, server, manifest, aps, at, wrote, summary, trail0, trail1, res)
    ensures |trail1| <= |trail0| + |aps| + 1
    ensures res.base.recorded <==> |trail1| == |trail0| + |aps| + 1
    ensures res.base.recorded <==> |res.rows| == |aps| && res.base.audit.Some?
  {
    NoRowLostIffAllWrote(a, aps, manifest, at, wrote);
  }

  lemma WarnMore(ws: seq<Warning>, aps: seq<Approval>, items: seq<ApprovedTool>)
    requires |aps| == |items| && WarningsSay(ws, aps, items)
    ensures WarningsSay(ws + [AuditWriteFailed], aps, items) && AuditWriteFailed in ws + [AuditWriteFailed]
  {
    var more := ws + [AuditWriteFailed];
    forall w ensures w in more <==> w in ws || w == AuditWriteFailed { }
    assert (exists w <- more :: w.WildcardGrant?) <==> (exists w <- ws :: w.WildcardGrant?);
  }

  method Report(s: Service, a: Actor, roles: seq<A.Role>, server: string, manifest: string, aps: seq<Approval>)
    returns (res: Result, ok: bool, ghost at: Time, ghost wrote: seq<bool>, ghost summary: bool)
    requires s.Valid()
    modifies s`clock, s`step, s`trail
    ensures s.Valid() && (ok <==> NoneUnusable(aps))
    ensures ok ==> Reported(a, roles, server, manifest, aps, at, wrote, summary, old(s.trail), s.trail, res)
    ensures !ok ==> s.trail == old(s.trail) && res.base.changed && !res.base.recorded && res.rows == []
    ensures old(s.Healthy()) && ok ==> res.base.recorded
  {
    var base := ActionResult(true, false, None, []);
    res, at, wrote, summary := Result(base, [], []), ZERO_TIME, [], false;
    var items;
    items, ok := Describe(roles, server, aps);
    if !ok { return; }
    var warnings := Warn(aps, items);
    res, at, wrote, summary := WriteAll(s, a, roles, server, manifest, aps, items, warnings);
  }

  method WriteAll(s: Service, a: Actor, ghost roles: seq<A.Role>, server: string, manifest: string, aps: seq<Approval>,
                  items: seq<ApprovedTool>, warnings: seq<Warning>)
    returns (res: Result, ghost at: Time, ghost wrote: seq<bool>, ghost summary: bool)
    requires s.Valid() && ItemsSay(items, roles, server, aps) && WarningsSay(warnings, aps, items)
             && AuditWriteFailed !in warnings
    modifies s`clock, s`step, s`trail
    ensures s.Valid() && Reported(a, roles, server, manifest, aps, at, wrote, summary, old(s.trail), s.trail, res)
    ensures old(s.Healthy()) ==> res.base.recorded
  {
    var now := s.Now();
    at := now;
    var rows, lost, base;
    rows, lost, wrote := WriteRows(s, a, aps, manifest, now);
    NoRowLostIffAllWrote(a, aps, manifest, now, wrote);
    base, summary := Settle(s, SummaryRow(a, server, aps, manifest, now), warnings, lost, aps, items);
    res := Result(base, items, rows);
  }

  /** The summary row, and recorded only if no other row was lost. */
  method Settle(s: Service, row: Row, warnings: seq<Warning>, lost: nat, ghost aps: seq<Approval>,
                ghost items: seq<ApprovedTool>)
    returns (base: ActionResult, ghost summary: bool)
    requires |aps| == |items| && WarningsSay(warnings, aps, items) && AuditWriteFailed !in warnings
    modifies s`step, s`trail
    ensures s.trail == old(s.trail) + Listed(row, summary)
    ensures base.changed && base.recorded == (lost == 0 && summary)
            && base.audit == (if summary then Some(row) else None)
    ensures WarningsSay(base.warnings, aps, items) && (AuditWriteFailed in base.warnings <==> !base.recorded)
    ensures old(s.Healthy()) && lost == 0 ==> base.recorded
  {
    base := s.Record(ActionResult(true, false, None, warnings), row);
    summary := base.recorded;
    WarnMore(warnings, aps, items);
    if lost > 0 {
      WarnMore(base.warnings, aps, items);
      base := base.(recorded := false, warnings := base.warnings + [AuditWriteFailed]);
    }
  }

  /** listServer. */
  method ListServer(s: Service, q: Quarantine, server: string) returns (err: Option<Code>)
    modifies s`step, q
    ensures s.step >= old(s.step)
    ensures q.tools == old(q.tools) || q.tools == q.Moved(old(q.turn), old(q.tools))
    ensures err.None? ==> q.turn == old(q.turn) + 1 && q.tools == q.Moved(old(q.turn), old(q.tools)) && q.tools != []
    ensures A.TrimSpace(server) != "" ==> q.turn == old(q.turn) + 1 && q.tools == q.Moved(old(q.turn), old(q.tools))
    ensures old(s.Healthy()) && A.TrimSpace(server) != "" && q.tools != [] ==> err.None?
  {
    if A.TrimSpace(server) == "" { return Some(InvalidArgument); }
    var f := s.Port();
    q.Observe();
    if f != Fine { return Some(StoreErr(f)); }
    err := if q.tools == [] then Some(NotFound) else None;
  }

  /** Every definition of the set can be shown. */
  method AllKept(s: Service, set_: seq<Tool>, kept: string -> bool) returns (err: Option<Code>)
    modifies s`step
    ensures s.step >= old(s.step)
    ensures err.None? ==> forall t <- set_ :: kept(t.observed)
    ensures old(s.Healthy()) && (forall t <- set_ :: kept(t.observed)) ==> err.None?
  {
    var i := 0;
    while i < |set_|
      invariant 0 <= i <= |set_| && s.step >= old(s.step)
      invariant forall k :: 0 <= k < i ==> kept(set_[k].observed)
    {
      var f := s.Port();
      if f != Fine { return Some(StoreErr(f)); }
      if !kept(set_[i].observed) { return Some(DefinitionUnavailable); }
      i := i + 1;
    }
    err := None;
  }

  /** What lets a set through to the transaction. */
  predicate Reviewed(seen: seq<Tool>, manifest: string, hash: seq<Entry> -> string, kept: string -> bool) {
    && Waiting(seen) != [] && hash(EntriesOf(Waiting(seen))) == A.Given(manifest)
    && forall t <- Waiting(seen) :: kept(t.observed)
  }

  /** A request that names its actor, its backend and a manifest. */
  predicate Asks(a: Actor, server: string, manifest: string) {
    Attributable(a) && A.TrimSpace(server) != "" && A.Given(manifest) != ""
  }

  /** What is refused before the transaction, on the set as it is read. */
  method Review(s: Service, q: Quarantine, a: Actor, server: string, manifest: string, hash: seq<Entry> -> string,
                kept: string -> bool)
    returns (err: Option<Code>, empty: bool)
    modifies s`step, q
    ensures s.step >= old(s.step)
    ensures q.tools == old(q.tools) || q.tools == q.Moved(old(q.turn), old(q.tools))
    ensures var seen := q.Moved(old(q.turn), old(q.tools));
            && (err.None? ==> q.turn == old(q.turn) + 1 && q.tools == seen
                              && Attributable(a) && A.Given(manifest) != "" && empty == (Waiting(seen) == []))
            && (err.None? && !empty ==> Reviewed(seen, manifest, hash, kept))
            && (old(s.Healthy()) && Asks(a, server, manifest) && Reviewed(seen, manifest, hash, kept) ==> err.None?)
  {
    empty := false;
    if !Attributable(a) { return Some(PeerUnattributable), false; }
    var config := s.Port();
    if config != Fine { return Some(ConfigUnavailable), false; }
    err := ListServer(s, q, server);
    if err.Some? { return; }
    var set_ := Waiting(q.tools);
    if A.Given(manifest) == "" { return Some(ManifestRequired), false; }
    if set_ == [] { return None, true; }
    if A.Given(manifest) != hash(EntriesOf(set_)) { return Some(ManifestMismatch), false; }
    err := AllKept(s, set_, kept);
  }

  /** ApproveToolSet. seen is the backend when the set is checked, at when the
      transaction runs; other processes may move it in between. */
  method ApproveToolSet(s: Service, q: Quarantine, a: Actor, roles: seq<A.Role>, server: string, manifest: string,
                        hash: seq<Entry> -> string, kept: string -> bool)
    returns (res: Result, err: Option<Code>, ghost when: Time, ghost wrote: seq<bool>, ghost summary: bool)
    requires s.Valid()
    modifies s`clock, s`step, s`trail, q
    ensures s.Valid()
    // All or none, and only of the reviewed manifest.
    ensures var seen := q.Moved(old(q.turn), old(q.tools));
            var at := q.Moved(old(q.turn) + 1, seen);
            if res.base.changed then
              q.tools == ApproveAll(at) && Reviewed(seen, manifest, hash, kept)
              && Waiting(at) != [] && hash(EntriesOf(Waiting(at))) == A.Given(manifest)
            else
              q.tools in {old(q.tools), seen, at} && Untouched(res, old(s.trail), s.trail)
    // What is answered about it.
    ensures var seen := q.Moved(old(q.turn), old(q.tools));
            var approvals := ApprovalsOf(Waiting(q.Moved(old(q.turn) + 1, seen)));
            && (err.None? && !res.base.changed ==> Waiting(seen) == [])
            && (res.base.changed && err.None? ==>
                  Reported(a, roles, server, A.Given(manifest), approvals, when, wrote, summary, old(s.trail), s.trail,
                           res))
            && (res.base.changed && err.Some? ==> s.trail == old(s.trail) && !NoneUnusable(approvals))
    // A change in force is answered as an error only if the hash collides, or
    // the empty fingerprint has a definition.
    ensures var seen := q.Moved(old(q.turn), old(q.tools));
            !kept("") && !Collides(hash, Waiting(seen), Waiting(q.Moved(old(q.turn) + 1, seen))) ==>
              (err.Some? ==> !res.base.changed)
    // When nothing fails and the set has not moved, it is approved and recorded.
    ensures var seen := q.Moved(old(q.turn), old(q.tools));
            old(s.Healthy()) && Asks(a, server, manifest) && Reviewed(seen, manifest, hash, kept) && !kept("") &&
            Waiting(q.Moved(old(q.turn) + 1, seen)) == Waiting(seen) ==>
              err.None? && res.base.recorded
  {
    res, when, wrote, summary := NO_RESULT, ZERO_TIME, [], false;
    var empty;
    err, empty := Review(s, q, a, server, manifest, hash, kept);
    if err.Some? || empty { return; }
    var f := s.Retry();
    if !f.Fine? { return NO_RESULT, Some(StoreErr(f)), when, wrote, summary; }
    ghost var seen, at := q.tools, q.Moved(q.turn, q.tools);
    var approvals := q.ApproveReviewSet(A.Given(manifest), hash);
    if approvals.None? { return NO_RESULT, Some(ManifestMismatch), when, wrote, summary; }
    var ok;
    res, ok, when, wrote, summary := Report(s, a, roles, server, A.Given(manifest), approvals.value);
    OnlyKeptAreUsable(Waiting(at), kept);
    KeptCarriesOver(Waiting(seen), Waiting(at), hash, kept);
    err := if ok then None else Some(Internal);
  }

  /** Two sets that differ in what a manifest covers and share one. */
  predicate Collides(hash: seq<Entry> -> string, x: seq<Tool>, y: seq<Tool>) {
    hash(EntriesOf(x)) == hash(EntriesOf(y)) && EntriesOf(x) != EntriesOf(y)
  }

  /** What was checked of the set as it was read holds of the set approved. */
  lemma KeptCarriesOver(x: seq<Tool>, y: seq<Tool>, hash: seq<Entry> -> string, kept: string -> bool)
    requires hash(EntriesOf(x)) == hash(EntriesOf(y)) && forall t <- x :: kept(t.observed)
    ensures !Collides(hash, x, y) ==> forall t <- y :: kept(t.observed)
  {
    if !Collides(hash, x, y) {
      forall t <- y ensures kept(t.observed) {
        var k :| 0 <= k < |y| && y[k] == t;
        assert EntriesOf(x)[k] == EntriesOf(y)[k] && x[k] in x;
      }
    }
  }

  /** An approved tool comes out unusable, not held, only if it advertises the
      empty fingerprint, which no stored definition answers to. */
  lemma OnlyKeptAreUsable(set_: seq<Tool>, kept: string -> bool)
    ensures !kept("") && (forall t <- set_ :: kept(t.observed)) ==> NoneUnusable(ApprovalsOf(set_))
  {
    if !kept("") && (forall t <- set_ :: kept(t.observed)) {
      forall ap <- ApprovalsOf(set_) ensures !Unusable(ap) {
        assert ap.before in set_ && ap.after == ap.before.AsApproved();
      }
    }
  }
}
