/** The kill switch as it runs: any number of Block, Unblock and Offboard
    calls and expiry rounds, in separate processes, one atomic store, trail or
    directory step at a time, any of which may fail, and any of which may be
    the last its process takes (internal/admin/access.go, offboard.go;
    cmd/mcp-gateway/serve_blocks.go). */
module KillSwitch {
  import opened GoText
  import opened Blocks

  datatype Kind = BlockCall | OffboardCall

  /** A row of the trail, as far as blocks are concerned. */
  datatype Row = Placed(b: Block, replaced: Option<Block>) | Unblocked(subject: string) | Expired(b: Block)

  /** Where a call is. Lifting and Removing hold the index of the row the call
      wrote for what it is about to do; ids are placement numbers. */
  datatype Proc =
    | Preparing(kind: Kind, subject: string, until: Option<Time>, reason: string, author: string)
    | Placing(kind: Kind, b: Block)
    | PlaceRecording(kind: Kind, id: nat, replaced: Option<Block>)
    | OffboardRest(changed: bool, recorded: bool)
    | UnblockReading(subject: string)
    | UnblockRecording(subject: string)
    | Lifting(subject: string, row: nat)
    | RoundReading
    | Expiring(todo: seq<Block>)
    | Removing(b: Block, row: nat, todo: seq<Block>)
    | Done(changed: bool, recorded: bool)
    | Failed
    | Crashed

  datatype How = ByLift(row: nat) | ByExpiry(row: nat) | ByReplacement(call: nat, newer: nat)

  /** History: placement `id` left the list at `when`, the trail then holding
      `seen` rows. */
  datatype Departure = Departure(id: nat, how: How, when: Time, seen: nat)

  /** `list` maps a subject to the placement on record for it. `replacer`: the
      store says which block a placement replaced. */
  datatype State = State(clock: Time, list: map<string, nat>, trail: seq<Row>, procs: seq<Proc>,
                         replacer: bool, placed: seq<Block>, left: seq<Departure>)

  datatype Step =
    | Tick(d: nat)
    | StartBlock(kind: Kind, subject: string, until: Option<Time>, reason: string, author: string)
    | StartUnblock(subject: string)
    | StartRound
    | ReadExpired(call: nat, found: seq<Block>)
    | Do(call: nat, ok: bool)
    | Crash(call: nat)

  // ---- The store's steps ------------------------------------------------------

  /** A subject refused now. */
  predicate Blocked(s: State, x: string) {
    x in s.list && s.list[x] < |s.placed| && s.placed[s.list[x]].ActiveAt(s.clock)
  }

  function Leave(s: State, x: string, how: How): State
    requires x in s.list
  {
    s.(list := s.list - {x}, left := s.left + [Departure(s.list[x], how, s.clock, |s.trail|)])
  }

  /** BlockReplacing: refused while the subject is blocked; a block that has
      ended is replaced, in the same step. */
  function Place(s: State, call: nat, b: Block): State {
    var cleared := if b.subject in s.list then Leave(s, b.subject, ByReplacement(call, |s.placed|)) else s;
    cleared.(list := cleared.list[b.subject := |s.placed|], placed := s.placed + [b])
  }

  /** The block a placement of b replaces, when the store says so. */
  function Displaced(s: State, b: Block): Option<Block> {
    if s.replacer && b.subject in s.list && s.list[b.subject] < |s.placed|
    then Some(s.placed[s.list[b.subject]])
    else None
  }

  /** RemoveExpired: the block on the subject, if its end is the one given and
      has passed. */
  predicate Removable(s: State, b: Block) {
    && b.subject in s.list && s.list[b.subject] < |s.placed|
    && b.until.Some? && s.placed[s.list[b.subject]].until == b.until && b.until.value <= s.clock
  }

  // ---- One step of a call -------------------------------------------------------

  function Goto(s: State, call: nat, p: Proc): State
    requires call < |s.procs|
  {
    s.(procs := s.procs[call := p])
  }

  function Write(s: State, row: Row): State { s.(trail := s.trail + [row]) }

  function AfterBlock(kind: Kind, changed: bool, recorded: bool): Proc {
    if kind == BlockCall then Done(changed, changed && recorded) else OffboardRest(changed, recorded)
  }

  function Advance(s: State, call: nat, ok: bool): State
    requires call < |s.procs|
  {
    match s.procs[call]
    case Preparing(kind, x, until, reason, author) =>
      Goto(s, call, Placing(kind, Block(x, reason, author, s.clock, until)))
    case Placing(kind, b) =>
      if !ok || !b.EndsAfterItBegins() then Goto(s, call, Failed)
      else if Blocked(s, b.subject) then Goto(s, call, AfterBlock(kind, false, true))
      else
        Goto(Place(s, call, b), call, PlaceRecording(kind, |s.placed|, Displaced(s, b)))
    case PlaceRecording(kind, id, replaced) =>
      if ok && id < |s.placed| then Goto(Write(s, Placed(s.placed[id], replaced)), call, AfterBlock(kind, true, true))
      else Goto(s, call, AfterBlock(kind, true, false))
    case OffboardRest(changed, recorded) =>
      if ok then Goto(s, call, Done(true, recorded))
      else if changed then Goto(s, call, Done(true, false)) else Goto(s, call, Failed)
    case UnblockReading(x) =>
      if !ok then Goto(s, call, Failed)
      else if x in s.list then Goto(s, call, UnblockRecording(x)) else Goto(s, call, Done(false, false))
    case UnblockRecording(x) =>
      if ok then Goto(Write(s, Unblocked(x)), call, Lifting(x, |s.trail|)) else Goto(s, call, Failed)
    case Lifting(x, row) =>
      if !ok then Goto(s, call, Failed)
      else Goto(if x in s.list then Leave(s, x, ByLift(row)) else s, call, Done(true, true))
    case Expiring(todo) =>
      if todo == [] then Goto(s, call, Done(true, true))
      else if ok then Goto(Write(s, Expired(todo[0])), call, Removing(todo[0], |s.trail|, todo[1..]))
      else Goto(s, call, Expiring(todo[1..]))
    case Removing(b, row, todo) =>
      Goto(if ok && Removable(s, b) then Leave(s, b.subject, ByExpiry(row)) else s, call, Expiring(todo))
    case RoundReading => if ok then s else Goto(s, call, Failed)
    case Done(_, _) => s
    case Failed => s
    case Crashed => s
  }

  /** Expired: every stored block whose end has passed, oldest end first. */
  predicate IsExpiredList(s: State, found: seq<Block>) {
    && (forall b <- found :: b.subject in s.list && s.list[b.subject] < |s.placed|
                             && s.placed[s.list[b.subject]] == b && !b.ActiveAt(s.clock))
    && (forall x <- s.list :: s.list[x] < |s.placed| && !s.placed[s.list[x]].ActiveAt(s.clock) ==>
          s.placed[s.list[x]] in found)
    && (forall i, j :: 0 <= i < j < |found| ==> found[i].subject != found[j].subject)
    && (forall i, j :: 0 <= i < j < |found| && found[i].until.Some? && found[j].until.Some? ==>
          found[i].until.value <= found[j].until.value)
  }

  function Apply(s: State, step: Step): State {
    match step
    case Tick(d) => s.(clock := s.clock + d)
    case StartBlock(kind, x, until, reason, author) =>
      // validateBlock: an end that is not in the future is refused.
      if until.Some? && until.value <= s.clock then s
      else s.(procs := s.procs + [Preparing(kind, x, until, reason, author)])
    case StartUnblock(x) => s.(procs := s.procs + [UnblockReading(x)])
    case StartRound => s.(procs := s.procs + [RoundReading])
    case ReadExpired(call, found) =>
      if call < |s.procs| && s.procs[call].RoundReading? && IsExpiredList(s, found)
      then Goto(s, call, Expiring(found))
      else s
    case Do(call, ok) => if call < |s.procs| then Advance(s, call, ok) else s
    case Crash(call) => if call < |s.procs| then Goto(s, call, Crashed) else s
  }

  function Run(s: State, steps: seq<Step>): State
    decreases |steps|
  {
    if steps == [] then s else Run(Apply(s, steps[0]), steps[1..])
  }

  function Init(replacer: bool, start: Time): State { State(start, map[], [], [], replacer, [], []) }

  // ---- What every run keeps -----------------------------------------------------

  /** The row a call has written and not acted on yet. */
  function Holds(p: Proc): Option<nat> {
    match p case Lifting(_, row) => Some(row) case Removing(_, row, _) => Some(row) case _ => None
  }

  function RowOf(how: How): Option<nat> {
    match how case ByLift(row) => Some(row) case ByExpiry(row) => Some(row) case ByReplacement(_, _) => None
  }

  /** The row a call holds says what the call is about to do. */
  predicate HeldRowSays(p: Proc, trail: seq<Row>) {
    match p
    case Lifting(x, row) => row < |trail| && trail[row] == Unblocked(x)
    case Removing(b, row, _) => row < |trail| && trail[row] == Expired(b)
    case _ => true
  }

  /** A departure's row is on the trail, was written before it, and is about
      that subject -- and about that end, for an expiry. */
  predicate RowSays(d: Departure, trail: seq<Row>, placed: seq<Block>)
    requires d.id < |placed|
  {
    match d.how
    case ByLift(row) => row < d.seen <= |trail| && trail[row] == Unblocked(placed[d.id].subject)
    case ByExpiry(row) =>
      row < d.seen <= |trail| && trail[row].Expired? && trail[row].b.subject == placed[d.id].subject
      && trail[row].b.until == placed[d.id].until
    case ByReplacement(_, _) => true
  }

  /** A replaced block is named in the row of the block that replaced it, or
      the call that wrote no row answered, or will answer, recorded = false. */
  predicate Accounted(p: Proc, gone: Block, newer: nat, placed: seq<Block>, trail: seq<Row>, replacer: bool)
    requires newer < |placed|
  {
    var named := replacer ==> Placed(placed[newer], Some(gone)) in trail;
    match p
    case PlaceRecording(_, id, replaced) => id == newer && replaced == (if replacer then Some(gone) else None)
    case OffboardRest(changed, recorded) => changed && (recorded ==> named)
    case Done(changed, recorded) => changed && (recorded ==> named)
    case Crashed => true
    case _ => false
  }

  predicate OnList(id: nat, list: map<string, nat>, placed: seq<Block>)
    requires id < |placed|
  {
    placed[id].subject in list && list[placed[id].subject] == id
  }

  predicate Gone(id: nat, left: seq<Departure>) { exists k :: 0 <= k < |left| && left[k].id == id }

  /** Placements are on the list or gone, never both, and never gone twice. */
  ghost predicate Conserved(list: map<string, nat>, placed: seq<Block>, left: seq<Departure>) {
    && (forall x <- list :: list[x] < |placed| && placed[list[x]].subject == x)
    && (forall k :: 0 <= k < |left| ==> left[k].id < |placed| && !OnList(left[k].id, list, placed))
    && (forall id :: 0 <= id < |placed| ==> OnList(id, list, placed) || Gone(id, left))
    && (forall j, k :: 0 <= j < k < |left| ==> left[j].id != left[k].id)
  }

  ghost predicate Known(left: seq<Departure>, placed: seq<Block>) {
    forall k :: 0 <= k < |left| ==> left[k].id < |placed|
  }

  /** Every departure by lift or expiry has a row of its own. */
  ghost predicate RowsSay(left: seq<Departure>, trail: seq<Row>, placed: seq<Block>)
    requires Known(left, placed)
  {
    && (forall k :: 0 <= k < |left| ==> RowSays(left[k], trail, placed))
    && (forall j, k :: 0 <= j < k < |left| && RowOf(left[j].how).Some? ==> RowOf(left[j].how) != RowOf(left[k].how))
  }

  /** Every row a call holds is its own, and still unused. */
  ghost predicate RowsHeld(procs: seq<Proc>, left: seq<Departure>, trail: seq<Row>) {
    && (forall c :: 0 <= c < |procs| ==> HeldRowSays(procs[c], trail))
    && (forall c, k :: 0 <= c < |procs| && 0 <= k < |left| && Holds(procs[c]).Some? ==>
          Holds(procs[c]) != RowOf(left[k].how))
    && (forall c, e :: 0 <= c < e < |procs| && Holds(procs[c]).Some? ==> Holds(procs[c]) != Holds(procs[e]))
  }

  /** Only a lift takes a block that is still in force. */
  ghost predicate OnlyLiftsBreak(left: seq<Departure>, placed: seq<Block>)
    requires Known(left, placed)
  {
    forall k :: 0 <= k < |left| && !left[k].how.ByLift? ==> !placed[left[k].id].ActiveAt(left[k].when)
  }

  ghost predicate NamedBy(d: Departure, procs: seq<Proc>, placed: seq<Block>, trail: seq<Row>, replacer: bool)
    requires d.id < |placed|
  {
    d.how.ByReplacement? ==>
      && d.how.call < |procs| && d.how.newer < |placed|
      && Accounted(procs[d.how.call], placed[d.id], d.how.newer, placed, trail, replacer)
  }

  ghost predicate AllNamed(left: seq<Departure>, procs: seq<Proc>, placed: seq<Block>, trail: seq<Row>, replacer: bool)
    requires Known(left, placed)
  {
    forall k :: 0 <= k < |left| ==> NamedBy(left[k], procs, placed, trail, replacer)
  }

  ghost predicate Past(left: seq<Departure>, clock: Time) {
    forall k :: 0 <= k < |left| ==> left[k].when <= clock
  }

  ghost predicate Inv(s: State) {
    && Known(s.left, s.placed)
    && Past(s.left, s.clock)
    && Conserved(s.list, s.placed, s.left)
    && RowsSay(s.left, s.trail, s.placed)
    && RowsHeld(s.procs, s.left, s.trail)
    && OnlyLiftsBreak(s.left, s.placed)
    && AllNamed(s.left, s.procs, s.placed, s.trail, s.replacer)
  }

  lemma InitHolds(replacer: bool, start: Time)
    ensures Inv(Init(replacer, start))
  { }

  /** Call `call` has replaced nothing so far. */
  ghost predicate NothingReplaced(s: State, call: nat) {
    forall k :: 0 <= k < |s.left| && s.left[k].how.ByReplacement? ==> s.left[k].how.call != call
  }

  /** A call moves on without touching the list or the trail, and holds no row. */
  lemma GotoKeeps(s: State, call: nat, p: Proc)
    requires Inv(s) && call < |s.procs| && Holds(p).None?
    requires forall k :: 0 <= k < |s.left| && s.left[k].how.ByReplacement? && s.left[k].how.call == call ==>
               Accounted(p, s.placed[s.left[k].id], s.left[k].how.newer, s.placed, s.trail, s.replacer)
    ensures Inv(Goto(s, call, p))
  {
    var procs := s.procs[call := p];
    assert RowsHeld(procs, s.left, s.trail);
    forall k | 0 <= k < |s.left| ensures NamedBy(s.left[k], procs, s.placed, s.trail, s.replacer) {
      assert NamedBy(s.left[k], s.procs, s.placed, s.trail, s.replacer);
    }
  }

  lemma StartKeeps(s: State, p: Proc)
    requires Inv(s) && Holds(p).None?
    ensures Inv(s.(procs := s.procs + [p]))
  {
    var procs := s.procs + [p];
    assert RowsHeld(procs, s.left, s.trail);
    forall k | 0 <= k < |s.left| ensures NamedBy(s.left[k], procs, s.placed, s.trail, s.replacer) {
      assert NamedBy(s.left[k], s.procs, s.placed, s.trail, s.replacer);
    }
  }

  lemma WriteKeeps(s: State, row: Row)
    requires Inv(s)
    ensures Inv(Write(s, row))
  {
    var trail := s.trail + [row];
    forall r <- s.trail ensures r in trail { }
    assert RowsHeld(s.procs, s.left, trail);
    forall k | 0 <= k < |s.left| ensures NamedBy(s.left[k], s.procs, s.placed, trail, s.replacer) {
      assert NamedBy(s.left[k], s.procs, s.placed, s.trail, s.replacer);
    }
  }

  /** A call writes the row it will act on. */
  lemma HoldKeeps(s: State, call: nat, row: Row, p: Proc)
    requires Inv(s) && call < |s.procs| && NothingReplaced(s, call)
    requires Holds(p) == Some(|s.trail|) && HeldRowSays(p, s.trail + [row])
    ensures Inv(Goto(Write(s, row), call, p))
  {
    WriteKeeps(s, row);
    var trail, procs := s.trail + [row], s.procs[call := p];
    HeldBelow(s);
    assert RowsHeld(procs, s.left, trail);
    forall k | 0 <= k < |s.left| ensures NamedBy(s.left[k], procs, s.placed, trail, s.replacer) {
      assert NamedBy(s.left[k], s.procs, s.placed, trail, s.replacer);
    }
  }

  lemma HeldBelow(s: State)
    requires Inv(s)
    ensures forall c :: 0 <= c < |s.procs| ==> Holds(s.procs[c]) != Some(|s.trail|)
    ensures forall k :: 0 <= k < |s.left| ==> RowOf(s.left[k].how) != Some(|s.trail|)
  {
    forall c | 0 <= c < |s.procs| ensures Holds(s.procs[c]) != Some(|s.trail|) {
      assert HeldRowSays(s.procs[c], s.trail);
    }
    forall k | 0 <= k < |s.left| ensures RowOf(s.left[k].how) != Some(|s.trail|) {
      assert RowSays(s.left[k], s.trail, s.placed);
    }
  }

  lemma LeaveKeepsRows(s: State, d: Departure)
    requires Known(s.left, s.placed) && RowsSay(s.left, s.trail, s.placed) && RowsHeld(s.procs, s.left, s.trail)
    requires d.id < |s.placed| && RowSays(d, s.trail, s.placed)
    requires forall k :: 0 <= k < |s.left| ==> RowOf(s.left[k].how) != RowOf(d.how)
    requires forall c :: 0 <= c < |s.procs| ==> Holds(s.procs[c]) != RowOf(d.how)
    ensures Known(s.left + [d], s.placed) && RowsSay(s.left + [d], s.trail, s.placed)
    ensures RowsHeld(s.procs, s.left + [d], s.trail)
  { }

  /** The block on x leaves, on the strength of a row nobody else uses. */
  lemma LeaveKeeps(s: State, x: string, how: How)
    requires Inv(s) && x in s.list && s.list[x] < |s.placed| && !how.ByReplacement?
    requires RowSays(Departure(s.list[x], how, s.clock, |s.trail|), s.trail, s.placed)
    requires forall k :: 0 <= k < |s.left| ==> RowOf(s.left[k].how) != RowOf(how)
    requires forall c :: 0 <= c < |s.procs| ==> Holds(s.procs[c]) != RowOf(how)
    requires how.ByLift? || !s.placed[s.list[x]].ActiveAt(s.clock)
    ensures Inv(Leave(s, x, how))
  {
    var left := s.left + [Departure(s.list[x], how, s.clock, |s.trail|)];
    LeaveConserves(s, x, how);
    LeaveKeepsRows(s, Departure(s.list[x], how, s.clock, |s.trail|));
    assert OnlyLiftsBreak(left, s.placed);
    forall k | 0 <= k < |left| ensures NamedBy(left[k], s.procs, s.placed, s.trail, s.replacer) {
      if k < |s.left| { assert NamedBy(s.left[k], s.procs, s.placed, s.trail, s.replacer); }
    }
  }

  lemma LeaveConserves(s: State, x: string, how: How)
    requires Conserved(s.list, s.placed, s.left) && x in s.list
    ensures Conserved(s.list - {x}, s.placed, s.left + [Departure(s.list[x], how, s.clock, |s.trail|)])
  {
    var list, left := s.list - {x}, s.left + [Departure(s.list[x], how, s.clock, |s.trail|)];
    assert left[|s.left|].id == s.list[x];
    forall id | 0 <= id < |s.placed| ensures OnList(id, list, s.placed) || Gone(id, left) {
      if id != s.list[x] && Gone(id, s.left) {
        var k :| 0 <= k < |s.left| && s.left[k].id == id;
        assert left[k].id == id;
      }
    }
  }

  lemma NothingYet(s: State, call: nat)
    requires Inv(s) && call < |s.procs|
    requires !s.procs[call].PlaceRecording? && !s.procs[call].OffboardRest? && !s.procs[call].Done?
             && !s.procs[call].Crashed?
    ensures NothingReplaced(s, call)
  {
    forall k | 0 <= k < |s.left| && s.left[k].how.ByReplacement? ensures s.left[k].how.call != call {
      assert NamedBy(s.left[k], s.procs, s.placed, s.trail, s.replacer);
    }
  }

  /** The history of a placement, alone. */
  lemma PlaceConserves(list: map<string, nat>, placed: seq<Block>, left: seq<Departure>, b: Block)
    requires Conserved(list, placed, left) && b.subject !in list
    ensures Conserved(list[b.subject := |placed|], placed + [b], left)
  {
    var list', placed' := list[b.subject := |placed|], placed + [b];
    forall id | 0 <= id < |placed'| ensures OnList(id, list', placed') || Gone(id, left) {
      if id < |placed| { assert OnList(id, list, placed) || Gone(id, left); }
    }
  }

  /** A departure that needs no row of its own takes none from another. */
  lemma NeedsNoRow(left: seq<Departure>, d: Departure, trail: seq<Row>, placed: seq<Block>, procs: seq<Proc>)
    requires Known(left, placed) && RowsSay(left, trail, placed) && RowsHeld(procs, left, trail)
    requires d.id < |placed| && d.how.ByReplacement?
    ensures Known(left + [d], placed) && RowsSay(left + [d], trail, placed) && RowsHeld(procs, left + [d], trail)
  {
    var all := left + [d];
    forall k | 0 <= k < |all| ensures all[k].id < |placed| && RowSays(all[k], trail, placed) {
      if k < |left| { assert RowSays(left[k], trail, placed); }
    }
    forall c, k | 0 <= c < |procs| && 0 <= k < |all| && Holds(procs[c]).Some?
      ensures Holds(procs[c]) != RowOf(all[k].how)
    {
      if k < |left| { assert Holds(procs[c]) != RowOf(left[k].how); }
    }
  }

  /** What holds of the departures once the block b replaces has left. */
  lemma ReplacedLeaves(s: State, call: nat, b: Block)
    requires Inv(s) && !Blocked(s, b.subject) && b.subject in s.list
    ensures var t := Leave(s, b.subject, ByReplacement(call, |s.placed|));
            && Known(t.left, s.placed) && Conserved(t.list, s.placed, t.left) && RowsSay(t.left, s.trail, s.placed)
            && RowsHeld(s.procs, t.left, s.trail) && OnlyLiftsBreak(t.left, s.placed)
  {
    var how := ByReplacement(call, |s.placed|);
    LeaveConserves(s, b.subject, how);
    NeedsNoRow(s.left, Departure(s.list[b.subject], how, s.clock, |s.trail|), s.trail, s.placed, s.procs);
  }

  /** None of it changes as more blocks are placed. */
  lemma PlacedGrows(left: seq<Departure>, trail: seq<Row>, placed: seq<Block>, b: Block)
    requires Known(left, placed) && RowsSay(left, trail, placed) && OnlyLiftsBreak(left, placed)
    ensures Known(left, placed + [b]) && RowsSay(left, trail, placed + [b]) && OnlyLiftsBreak(left, placed + [b])
  {
    var placed' := placed + [b];
    forall k | 0 <= k < |left| ensures RowSays(left[k], trail, placed') { assert RowSays(left[k], trail, placed); }
  }

  lemma PlaceNames(s: State, call: nat, kind: Kind, b: Block)
    requires Inv(s) && call < |s.procs| && NothingReplaced(s, call)
    ensures var t := Goto(Place(s, call, b), call, PlaceRecording(kind, |s.placed|, Displaced(s, b)));
            Known(t.left, t.placed) && AllNamed(t.left, t.procs, t.placed, t.trail, t.replacer)
  {
    var t := Goto(Place(s, call, b), call, PlaceRecording(kind, |s.placed|, Displaced(s, b)));
    forall k | 0 <= k < |t.left|
      ensures t.left[k].id < |t.placed| && NamedBy(t.left[k], t.procs, t.placed, t.trail, t.replacer)
    {
      if k < |s.left| { assert t.left[k] == s.left[k] && NamedBy(s.left[k], s.procs, s.placed, s.trail, s.replacer); }
    }
  }

  lemma PlaceKeeps(s: State, call: nat, kind: Kind, b: Block)
    requires Inv(s) && call < |s.procs| && NothingReplaced(s, call) && !Blocked(s, b.subject)
    ensures Inv(Goto(Place(s, call, b), call, PlaceRecording(kind, |s.placed|, Displaced(s, b))))
  {
    var t := Goto(Place(s, call, b), call, PlaceRecording(kind, |s.placed|, Displaced(s, b)));
    var list := s.list - {b.subject};
    if b.subject in s.list { ReplacedLeaves(s, call, b); } else { assert list == s.list; }
    PlaceConserves(list, s.placed, t.left, b);
    assert t.list == list[b.subject := |s.placed|];
    PlacedGrows(t.left, s.trail, s.placed, b);
    PlaceNames(s, call, kind, b);
    StillHeld(s.procs, call, t.procs[call], t.left, s.trail);
  }

  /** A call that holds no row afterwards leaves the others' alone. */
  lemma StillHeld(procs: seq<Proc>, call: nat, p: Proc, left: seq<Departure>, trail: seq<Row>)
    requires call < |procs| && RowsHeld(procs, left, trail) && Holds(p).None?
    ensures RowsHeld(procs[call := p], left, trail)
  {
    var next := procs[call := p];
    forall c | 0 <= c < |next| ensures HeldRowSays(next[c], trail) {
      if c != call { assert HeldRowSays(procs[c], trail); }
    }
  }

  // ---- Every step keeps it -------------------------------------------------------

  lemma PlacingKeeps(s: State, call: nat, ok: bool)
    requires Inv(s) && call < |s.procs| && s.procs[call].Placing?
    ensures Inv(Advance(s, call, ok))
  {
    var Placing(kind, b) := s.procs[call];
    NothingYet(s, call);
    if ok && b.EndsAfterItBegins() && !Blocked(s, b.subject) { PlaceKeeps(s, call, kind, b); }
    else { GotoKeeps(s, call, if !ok || !b.EndsAfterItBegins() then Failed else AfterBlock(kind, false, true)); }
  }

  lemma ExpiringKeeps(s: State, call: nat, ok: bool)
    requires Inv(s) && call < |s.procs| && s.procs[call].Expiring?
    ensures Inv(Advance(s, call, ok))
  {
    var Expiring(todo) := s.procs[call];
    NothingYet(s, call);
    if todo == [] { GotoKeeps(s, call, Done(true, true)); }
    else if ok { HoldKeeps(s, call, Expired(todo[0]), Removing(todo[0], |s.trail|, todo[1..])); }
    else { GotoKeeps(s, call, Expiring(todo[1..])); }
  }

  lemma UnblockRecordingKeeps(s: State, call: nat, ok: bool)
    requires Inv(s) && call < |s.procs| && s.procs[call].UnblockRecording?
    ensures Inv(Advance(s, call, ok))
  {
    var UnblockRecording(x) := s.procs[call];
    NothingYet(s, call);
    if ok { HoldKeeps(s, call, Unblocked(x), Lifting(x, |s.trail|)); } else { GotoKeeps(s, call, Failed); }
  }

  /** A step that only reads. */
  lemma ReadingKeeps(s: State, call: nat, ok: bool)
    requires Inv(s) && call < |s.procs|
    requires s.procs[call].Preparing? || s.procs[call].UnblockReading? || s.procs[call].RoundReading?
    ensures Inv(Advance(s, call, ok))
  {
    NothingYet(s, call);
    match s.procs[call]
    case Preparing(kind, x, until, reason, author) =>
      GotoKeeps(s, call, Placing(kind, Block(x, reason, author, s.clock, until)));
    case UnblockReading(x) =>
      GotoKeeps(s, call, if !ok then Failed else if x in s.list then UnblockRecording(x) else Done(false, false));
    case _ => GotoKeeps(s, call, Failed);
  }

  lemma AdvanceKeeps(s: State, call: nat, ok: bool)
    requires Inv(s) && call < |s.procs|
    ensures Inv(Advance(s, call, ok))
  {
    match s.procs[call]
    case Placing(_, _) => PlacingKeeps(s, call, ok);
    case PlaceRecording(_, _, _) => RecordKeeps(s, call, ok);
    case OffboardRest(_, _) => RestKeeps(s, call, ok);
    case UnblockRecording(_) => UnblockRecordingKeeps(s, call, ok);
    case Lifting(_, _) => LiftKeeps(s, call, ok);
    case Expiring(_) => ExpiringKeeps(s, call, ok);
    case Removing(_, _, _) => RemoveKeeps(s, call, ok);
    case Preparing(_, _, _, _, _) => ReadingKeeps(s, call, ok);
    case UnblockReading(_) => ReadingKeeps(s, call, ok);
    case RoundReading => ReadingKeeps(s, call, ok);
    case _ =>
  }

  lemma RecordKeeps(s: State, call: nat, ok: bool)
    requires Inv(s) && call < |s.procs| && s.procs[call].PlaceRecording?
    ensures Inv(Advance(s, call, ok))
  {
    var PlaceRecording(kind, id, replaced) := s.procs[call];
    var done := ok && id < |s.placed|;
    var t := if done then Write(s, Placed(s.placed[id], replaced)) else s;
    if done {
      WriteKeeps(s, Placed(s.placed[id], replaced));
      assert t.trail[|s.trail|] == Placed(s.placed[id], replaced);
    }
    forall k | 0 <= k < |t.left| && t.left[k].how.ByReplacement? && t.left[k].how.call == call
      ensures Accounted(AfterBlock(kind, true, done), t.placed[t.left[k].id], t.left[k].how.newer, t.placed, t.trail,
                        t.replacer)
    {
      assert NamedBy(s.left[k], s.procs, s.placed, s.trail, s.replacer);
    }
    GotoKeeps(t, call, AfterBlock(kind, true, done));
  }

  lemma RestKeeps(s: State, call: nat, ok: bool)
    requires Inv(s) && call < |s.procs| && s.procs[call].OffboardRest?
    ensures Inv(Advance(s, call, ok))
  {
    var OffboardRest(changed, recorded) := s.procs[call];
    var p := if ok then Done(true, recorded) else if changed then Done(true, false) else Failed;
    forall k | 0 <= k < |s.left| && s.left[k].how.ByReplacement? && s.left[k].how.call == call
      ensures Accounted(p, s.placed[s.left[k].id], s.left[k].how.newer, s.placed, s.trail, s.replacer)
    {
      assert NamedBy(s.left[k], s.procs, s.placed, s.trail, s.replacer);
    }
    GotoKeeps(s, call, p);
  }

  lemma LiftKeeps(s: State, call: nat, ok: bool)
    requires Inv(s) && call < |s.procs| && s.procs[call].Lifting?
    ensures Inv(Advance(s, call, ok))
  {
    var Lifting(x, row) := s.procs[call];
    NothingYet(s, call);
    assert HeldRowSays(s.procs[call], s.trail);
    if !ok { GotoKeeps(s, call, Failed); return; }
    GotoKeeps(s, call, Done(true, true));
    if x in s.list {
      LeaveKeeps(Goto(s, call, Done(true, true)), x, ByLift(row));
    }
  }

  lemma RemoveKeeps(s: State, call: nat, ok: bool)
    requires Inv(s) && call < |s.procs| && s.procs[call].Removing?
    ensures Inv(Advance(s, call, ok))
  {
    var Removing(b, row, todo) := s.procs[call];
    NothingYet(s, call);
    assert HeldRowSays(s.procs[call], s.trail);
    GotoKeeps(s, call, Expiring(todo));
    if ok && Removable(s, b) {
      LeaveKeeps(Goto(s, call, Expiring(todo)), b.subject, ByExpiry(row));
    }
  }

  lemma ApplyKeeps(s: State, step: Step)
    requires Inv(s)
    ensures Inv(Apply(s, step))
  {
    match step
    case Tick(_) =>
    case StartBlock(kind, x, until, reason, author) => StartKeeps(s, Preparing(kind, x, until, reason, author));
    case StartUnblock(x) => StartKeeps(s, UnblockReading(x));
    case StartRound => StartKeeps(s, RoundReading);
    case ReadExpired(call, found) =>
      if call < |s.procs| && s.procs[call].RoundReading? && IsExpiredList(s, found) {
        NothingYet(s, call);
        GotoKeeps(s, call, Expiring(found));
      }
    case Do(call, ok) => if call < |s.procs| { AdvanceKeeps(s, call, ok); }
    case Crash(call) => if call < |s.procs| { CrashKeeps(s, call); }
  }

  lemma CrashKeeps(s: State, call: nat)
    requires Inv(s) && call < |s.procs|
    ensures Inv(Goto(s, call, Crashed))
  {
    forall k | 0 <= k < |s.left| && s.left[k].how.ByReplacement? && s.left[k].how.call == call
      ensures Accounted(Crashed, s.placed[s.left[k].id], s.left[k].how.newer, s.placed, s.trail, s.replacer)
    {
      assert NamedBy(s.left[k], s.procs, s.placed, s.trail, s.replacer);
    }
    GotoKeeps(s, call, Crashed);
  }

  lemma {:induction false} RunKeeps(s: State, steps: seq<Step>)
    requires Inv(s)
    ensures Inv(Run(s, steps))
    decreases |steps|
  {
    if steps != [] {
      ApplyKeeps(s, steps[0]);
      RunKeeps(Apply(s, steps[0]), steps[1..]);
    }
  }

  // ---- The properties of a run -----------------------------------------------------

  ghost function Reached(replacer: bool, start: Time, steps: seq<Step>): (s: State)
    ensures Inv(s)
  {
    InitHolds(replacer, start);
    RunKeeps(Init(replacer, start), steps);
    Run(Init(replacer, start), steps)
  }

  /** Over every run: a block that left by an unblock has an unblock row for
      its subject, one that left by expiry an expiry row for its subject and
      end, each written before the block left and shared with no other. */
  lemma NoBlockLeavesUnrecorded(replacer: bool, start: Time, steps: seq<Step>, k: nat)
    requires k < |Run(Init(replacer, start), steps).left|
    ensures var s := Run(Init(replacer, start), steps);
            var d := s.left[k];
            && d.id < |s.placed|
            && (d.how.ByLift? ==> d.how.row < d.seen <= |s.trail|
                                  && s.trail[d.how.row] == Unblocked(s.placed[d.id].subject))
            && (d.how.ByExpiry? ==>
                  d.how.row < d.seen <= |s.trail| && s.trail[d.how.row].Expired?
                  && s.trail[d.how.row].b.subject == s.placed[d.id].subject
                     && s.trail[d.how.row].b.until == s.placed[d.id].until)
            && (forall j :: 0 <= j < |s.left| && j != k && RowOf(d.how).Some? ==> RowOf(s.left[j].how) != RowOf(d.how))
  {
    InitHolds(replacer, start);
    RunKeeps(Init(replacer, start), steps);
    var s := Run(Init(replacer, start), steps);
    assert RowSays(s.left[k], s.trail, s.placed);
  }

  /** Over every run of a store that names what it replaces: a block that left
      by replacement is named in the row of the block that replaced it, or the
      call, if it has answered, answered recorded = false. */
  lemma ReplacedBlocksAreNamed(start: Time, steps: seq<Step>, k: nat)
    requires k < |Reached(true, start, steps).left|
    ensures var s := Reached(true, start, steps);
            var d := s.left[k];
            d.how.ByReplacement? ==>
              && d.how.call < |s.procs| && d.how.newer < |s.placed|
              && s.placed[d.how.newer].subject == s.placed[d.id].subject
              && (match s.procs[d.how.call]
                  case Done(changed, recorded) =>
                    changed && (recorded ==> Placed(s.placed[d.how.newer], Some(s.placed[d.id])) in s.trail)
                  case PlaceRecording(_, _, _) => true
                  case OffboardRest(_, _) => true
                  case Crashed => true
                  case _ => false)
  {
    KeepsSubject(Init(true, start), steps);
    var s := Reached(true, start, steps);
    SameReplacer(Init(true, start), steps);
    assert NamedBy(s.left[k], s.procs, s.placed, s.trail, s.replacer);
  }

  lemma {:induction false} SameReplacer(s: State, steps: seq<Step>)
    ensures Run(s, steps).replacer == s.replacer
    decreases |steps|
  {
    if steps != [] { SameReplacer(Apply(s, steps[0]), steps[1..]); }
  }

  /** A block is replaced by one on the same subject. */
  ghost predicate SameSubject(s: State) {
    forall k :: 0 <= k < |s.left| && s.left[k].how.ByReplacement? && s.left[k].how.newer < |s.placed|
                && s.left[k].id < |s.placed| ==>
      s.placed[s.left[k].how.newer].subject == s.placed[s.left[k].id].subject
  }

  lemma {:induction false} KeepsSubject(s: State, steps: seq<Step>)
    requires Inv(s) && SameSubject(s)
    ensures SameSubject(Run(s, steps))
    decreases |steps|
  {
    if steps != [] {
      ApplyKeeps(s, steps[0]);
      OneSubject(s, steps[0]);
      KeepsSubject(Apply(s, steps[0]), steps[1..]);
    }
  }

  lemma OneSubject(s: State, step: Step)
    requires Inv(s) && SameSubject(s)
    ensures SameSubject(Apply(s, step))
  {
    Grows(s, step);
    OldSubjects(s, Apply(s, step));
    if step.Do? && step.call < |s.procs| { NewSubjects(s, step.call, step.ok); }
  }

  ghost predicate SubjectAt(d: Departure, placed: seq<Block>) {
    d.how.ByReplacement? && d.how.newer < |placed| && d.id < |placed| ==>
      placed[d.how.newer].subject == placed[d.id].subject
  }

  lemma OldSubjects(s: State, t: State)
    requires Inv(s) && SameSubject(s) && Later(s, t)
    ensures forall k :: 0 <= k < |s.left| ==> SubjectAt(t.left[k], t.placed)
  {
    forall k | 0 <= k < |s.left| ensures SubjectAt(t.left[k], t.placed) {
      assert t.left[k] == s.left[k] && NamedBy(s.left[k], s.procs, s.placed, s.trail, s.replacer);
    }
  }

  lemma NewSubjects(s: State, call: nat, ok: bool)
    requires Inv(s) && call < |s.procs|
    ensures var t := Advance(s, call, ok);
            forall k :: |s.left| <= k < |t.left| ==> SubjectAt(t.left[k], t.placed)
  {
    if s.procs[call].Placing? { PlacesOnTheSubject(s, call, s.procs[call].b); }
  }

  lemma PlacesOnTheSubject(s: State, call: nat, b: Block)
    requires Inv(s)
    ensures var t := Place(s, call, b);
            forall k :: |s.left| <= k < |t.left| ==> SubjectAt(t.left[k], t.placed)
  { }

  /** History only grows, and time does not run backwards. */
  ghost predicate Later(s: State, t: State) {
    s.left <= t.left && s.placed <= t.placed && s.trail <= t.trail && s.clock <= t.clock
  }

  lemma Grows(s: State, step: Step)
    ensures Later(s, Apply(s, step))
  {
    if step.Do? && step.call < |s.procs| { AdvanceGrows(s, step.call, step.ok); }
  }

  lemma LeaveGrows(s: State, x: string, how: How)
    requires x in s.list
    ensures Later(s, Leave(s, x, how))
  { }

  lemma PlaceGrows(s: State, call: nat, b: Block)
    ensures Later(s, Place(s, call, b))
  {
    if b.subject in s.list { LeaveGrows(s, b.subject, ByReplacement(call, |s.placed|)); }
  }

  lemma AdvanceGrows(s: State, call: nat, ok: bool)
    requires call < |s.procs|
    ensures Later(s, Advance(s, call, ok))
  {
    match s.procs[call]
    case Placing(kind, b) => PlaceGrows(s, call, b);
    case Lifting(x, row) => if x in s.list { LeaveGrows(s, x, ByLift(row)); }
    case Removing(b, row, todo) => if Removable(s, b) { LeaveGrows(s, b.subject, ByExpiry(row)); }
    case _ =>
  }

  lemma {:induction false} RunGrows(s: State, steps: seq<Step>)
    ensures Later(s, Run(s, steps))
    decreases |steps|
  {
    if steps != [] {
      Grows(s, steps[0]);
      RunGrows(Apply(s, steps[0]), steps[1..]);
    }
  }

  /** A block that was on the list, and is not though it is still in force, was
      lifted since. */
  lemma LeftByALift(s: State, t: State, id: nat) returns (k: nat)
    requires Inv(s) && Inv(t) && Later(s, t) && id < |s.placed| && OnList(id, s.list, s.placed)
    requires t.placed[id].ActiveAt(t.clock) && !OnList(id, t.list, t.placed)
    ensures |s.left| <= k < |t.left| && t.left[k].id == id && t.left[k].how.ByLift?
    ensures t.left[k].how.row < t.left[k].seen <= |t.trail|
            && t.trail[t.left[k].how.row] == Unblocked(t.placed[id].subject)
  {
    k :| 0 <= k < |t.left| && t.left[k].id == id;
    assert forall j :: 0 <= j < |s.left| ==> t.left[j] == s.left[j] && s.left[j].id != id;
    assert t.left[k].when <= t.clock;
    assert RowSays(t.left[k], t.trail, t.placed);
  }

  /** From the moment a block is on the list, whatever any call does and
      whichever steps fail, its subject is blocked by it at every later instant
      before its end -- unless a lift took that very block, on the strength of
      an unblock row written before. */
  lemma BlockedUntilItsEndOrALift(s: State, x: string, steps: seq<Step>)
    requires Inv(s) && x in s.list
    ensures var t := Run(s, steps);
            var id := s.list[x];
            id < |t.placed| && t.placed[id] == s.placed[id] && t.placed[id].subject == x &&
            (t.placed[id].ActiveAt(t.clock) ==>
               (Blocked(t, x) && t.list[x] == id)
               || (exists k :: |s.left| <= k < |t.left| && t.left[k].id == id && t.left[k].how.ByLift?
                               && t.left[k].how.row < t.left[k].seen <= |t.trail|
                               && t.trail[t.left[k].how.row] == Unblocked(x)))
  {
    RunKeeps(s, steps);
    RunGrows(s, steps);
    var t := Run(s, steps);
    var id := s.list[x];
    if t.placed[id].ActiveAt(t.clock) && !OnList(id, t.list, t.placed) {
      var k := LeftByALift(s, t, id);
    }
  }
}
