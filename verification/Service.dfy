/** The management service's state and ports: the blocklist, the users file, the
    trail, a clock, and the faults any port call may meet
    (internal/admin/service.go). The actions are in BlockActions, Offboard,
    Accounts and ReviewSet. */
module Service {
  import opened GoText
  import opened Blocks
  import A = Access

  /** What one attempt at a port meets. A busy attempt writes nothing; with
      expired, the caller's deadline passes while it waits to try again. */
  datatype Fault = Fine | Busy(expired: bool) | Broke

  const BUSY_ATTEMPTS: nat := 4

  datatype Actor = Actor(name: string, via: string, front: string, root: bool, operator: bool)

  const UNUSABLE := " \t\r\n()"

  /** checkActor: a name a row can be held to. */
  predicate Attributable(a: Actor) { a.name != "" && forall c <- UNUSABLE :: c !in a.name }

  function Tag(a: Actor): string {
    "[" + (if a.front == "" then "api" else a.front) + "]" + (if a.via == "" then "" else " [via " + a.via + "]")
  }

  function Identity(a: Actor): string { "(operator:" + a.name + ")" }

  datatype Tool =
    | ToolApprove | ToolApproveSet
    | AccessBlock | AccessUnblock | AccessBlockExpired
    | AccountAdd | AccountGroups | AccountDisable | AccountEnable | AccountReset | AccountDelete | AccountOffboard
    | ConfigReload | UpstreamRedial

  /** A row's reason, by what it states. */
  datatype Reason =
    | OfBlock(subject: string, until: Option<Time>, note: string, replaced: Option<Block>)
    | OfUnblock(subject: string, note: string)
    | OfExpiry(b: Block)
    | OfAccount(username: string, groups: Option<seq<string>>, tag: string)
    | OfOffboard(username: string, subject: string, blocked: bool, disabled: bool, tag: string, why: string)
    | OfApproval(tool: string, hash: string, was: string, sensitive: bool, manifest: string, tag: string)
    | OfRequest(target: string, applied: bool, text: Bytes)
    | OfSet(manifest: string, server: string, count: nat, pending: nat, changed: nat, tag: string)

  datatype Row = Row(identity: string, tool: Tool, at: Time, reason: Reason)

  function OperatorRow(a: Actor, tool: Tool, reason: Reason, at: Time): Row { Row(Identity(a), tool, at, reason) }

  datatype Warning =
    | AuditWriteFailed | OffboardIncomplete | IdpReload
    | NoRoleGrants | WildcardGrant(role: string) | SensitiveUncleared

  datatype ActionResult = ActionResult(changed: bool, recorded: bool, audit: Option<Row>, warnings: seq<Warning>)

  const NEW_RESULT := ActionResult(false, false, None, [])

  datatype Code =
    | PeerUnattributable | InvalidArgument | ForbiddenPeer | ConfigUnavailable | StoreBusy | Internal
    | NotFound | AccountNotManaged | GroupNotMapped | AccountExists
    | ManifestRequired | ManifestMismatch | DefinitionUnavailable

  datatype Account = Account(displayName: string, email: string, groups: seq<string>, disabled: bool, hash: string)

  function Listed(row: Row, written: bool): seq<Row> { if written then [row] else [] }

  /** storeErr, for an attempt that did not take effect. */
  function StoreErr(f: Fault): Code { if f.Busy? then StoreBusy else Internal }

  predicate AllBusy(faults: nat -> Fault, from: nat, to: nat) {
    to > from ==> AllBusy(faults, from, to - 1) && faults(to - 1) == Busy(false)
  }

  /** The attempts from `from` on, up to `to`: at most four, all but the last
      busy, so that at most one took effect. */
  predicate Tried(faults: nat -> Fault, from: nat, to: nat) {
    from < to <= from + BUSY_ATTEMPTS && AllBusy(faults, from, to - 1)
  }

  ghost predicate FineFrom(faults: nat -> Fault, from: nat) { forall i :: i >= from ==> faults(i) == Fine }

  /** What the last attempt before `to` met. */
  function LastOf(faults: nat -> Fault, to: nat): Fault
    requires to > 0
  {
    faults(to - 1)
  }

  lemma {:induction false} AllBusyAt(faults: nat -> Fault, from: nat, to: nat, i: nat)
    requires AllBusy(faults, from, to) && from <= i < to
    ensures faults(i) == Busy(false)
  {
    if i < to - 1 { AllBusyAt(faults, from, to - 1, i); }
  }

  lemma TriedOnce(faults: nat -> Fault, from: nat, to: nat)
    requires Tried(faults, from, to) && !faults(from).Busy?
    ensures to == from + 1
  {
    if to > from + 1 { AllBusyAt(faults, from, to - 1, from); }
  }

  /** retryBusy: up to four attempts, and what the last of them met. */
  method RetryOn(faults: nat -> Fault, from: nat) returns (f: Fault, to: nat)
    ensures Tried(faults, from, to) && f == LastOf(faults, to)
    ensures f == Busy(false) ==> to == from + BUSY_ATTEMPTS
  {
    f, to := Broke, from;
    while to < from + BUSY_ATTEMPTS
      invariant from <= to <= from + BUSY_ATTEMPTS
      invariant AllBusy(faults, from, to)
      invariant to > from ==> f == faults(to - 1)
    {
      f := faults(to);
      to := to + 1;
      if !f.Busy? || f.expired { return; }
    }
  }

  class Service {
    const faults: nat -> Fault
    const drift: nat -> nat
    /** The blocklist says which block a placement replaces. */
    const replacer: bool

    var step: nat
    var clock: Time
    var blocks: map<string, Block>
    var accounts: map<string, Account>
    var trail: seq<Row>

    constructor (faults: nat -> Fault, drift: nat -> nat, replacer: bool, start: Time,
                 blocks: map<string, Block>, accounts: map<string, Account>)
      requires start > ZERO_TIME
      ensures Valid() && this.faults == faults && this.drift == drift && this.replacer == replacer
      ensures clock == start && this.blocks == blocks && this.accounts == accounts && trail == [] && step == 0
    {
      this.faults, this.drift, this.replacer := faults, drift, replacer;
      this.step, this.clock, this.blocks, this.accounts, this.trail := 0, start, blocks, accounts, [];
    }

    predicate Valid()
      reads this
    {
      clock > ZERO_TIME
    }

    /** No port fails from here on. */
    ghost predicate Healthy()
      reads this
    {
      FineFrom(faults, step)
    }

    method Now() returns (t: Time)
      requires Valid()
      modifies this`clock, this`step
      ensures Valid() && step == old(step) + 1 && t == clock >= old(clock)
    {
      clock := clock + drift(step);
      step := step + 1;
      t := clock;
    }

    /** One attempt at a port. */
    method Port() returns (f: Fault)
      modifies this`step
      ensures step == old(step) + 1 && f == faults(old(step))
    {
      f := faults(step);
      step := step + 1;
    }

    /** retryBusy at a port of the service. */
    method Retry() returns (f: Fault)
      modifies this`step
      ensures Tried(faults, old(step), step) && f == LastOf(faults, step)
      ensures f == Busy(false) ==> step == old(step) + BUSY_ATTEMPTS
    {
      f, step := RetryOn(faults, step);
    }

    /** Append to the trail, retrying while it is busy. */
    method Append(row: Row) returns (ok: bool)
      modifies this`step, this`trail
      ensures step > old(step) && trail == old(trail) + Listed(row, ok)
      ensures Tried(faults, old(step), step) && ok == (LastOf(faults, step) == Fine)
      ensures old(Healthy()) ==> ok
    {
      var f := Retry();
      ok := f.Fine?;
      if ok { trail := trail + [row]; }
    }

    /** record: a change that took effect is never turned into an error; the
        answer says recorded exactly when the row is on the trail. */
    method Record(res: ActionResult, row: Row) returns (out: ActionResult)
      modifies this`step, this`trail
      ensures step > old(step) && trail == old(trail) + Listed(row, out.recorded) && out.changed == res.changed
      ensures out.recorded ==> out.audit == Some(row) && out.warnings == res.warnings
      ensures !out.recorded ==> out.audit == None && out.warnings == res.warnings + [AuditWriteFailed]
      ensures old(Healthy()) ==> out.recorded
    {
      var ok := Append(row);
      if ok {
        out := res.(recorded := true, audit := Some(row));
      } else {
        out := res.(recorded := false, audit := None, warnings := res.warnings + [AuditWriteFailed]);
      }
    }
  }
}
