/** The calls of BlockActions as runs of KillSwitch's state machine: a call that
    nothing interleaves with leaves the blocklist and the trail as its own steps
    do there, so what every run keeps holds of the calls themselves
    (internal/admin/access.go, cmd/mcp-gateway/serve_blocks.go). */
module BlockRuns {
  import opened GoText
  import opened Blocks
  import opened Service
  import opened BlockActions
  import K = KillSwitch
  import L = KillSwitchLimits

  // ---- One state by both models -----------------------------------------------------

  /** The blocklist of a state: each subject's block on record. */
  function BlocksOf(st: K.State): map<string, Block> {
    map x | x in st.list && st.list[x] < |st.placed| :: st.placed[st.list[x]]
  }

  /** The row on the trail is the one the state machine wrote. */
  predicate Shows(row: Row, k: K.Row) {
    match k
    case Placed(b, replaced) =>
      row.identity == "(operator:" + b.author + ")" && row.tool == AccessBlock && row.at == b.at
      && row.reason == OfBlock(b.subject, b.until, b.reason, replaced)
    case Unblocked(x) => row.reason.OfUnblock? && row.reason.subject == x
    case Expired(b) => row.reason == OfExpiry(b)
  }

  ghost predicate AllShow(trail: seq<Row>, rows: seq<K.Row>) {
    |trail| == |rows| && forall k :: 0 <= k < |trail| ==> Shows(trail[k], rows[k])
  }

  ghost predicate Same(blocks: map<string, Block>, trail: seq<Row>, clock: Time, replacer: bool, st: K.State) {
    && K.Inv(st) && blocks == BlocksOf(st) && AllShow(trail, st.trail)
    && clock == st.clock && replacer == st.replacer
  }

  /** Only this call moves, and the clock. */
  predicate Moves(steps: seq<K.Step>, call: nat) {
    forall k :: 0 <= k < |steps| ==> steps[k].Tick? || (steps[k].Do? && steps[k].call == call)
  }

  /** A call's own steps: it starts, and then moves. */
  predicate Own(steps: seq<K.Step>, call: nat) {
    steps != [] && (steps[0].StartBlock? || steps[0].StartUnblock?) && Moves(steps[1..], call)
  }

  lemma ShowOn(trail: seq<Row>, rows: seq<K.Row>, row: Row, k: K.Row)
    requires AllShow(trail, rows) && Shows(row, k)
    ensures AllShow(trail + [row], rows + [k])
  { }

  /** The call st.procs ends with has moved on to p. */
  lemma LastGoes(st: K.State, procs: seq<K.Proc>, p: K.Proc, q: K.Proc)
    requires st.procs == procs + [p]
    ensures K.Goto(st, |procs|, q) == st.(procs := procs + [q])
  {
    L.LastMoves(procs, p, q);
  }

  // ---- Placing ---------------------------------------------------------------------------

  function Starts(a: Actor, req: Request, note: string): K.Step {
    K.StartBlock(K.BlockCall, req.subject, req.until, note, a.name)
  }

  function Preparing(a: Actor, req: Request, note: string): K.Proc {
    K.Preparing(K.BlockCall, req.subject, req.until, note, a.name)
  }

  /** After d, only the clock and the calls are different. */
  predicate Quiet(st: K.State, t: K.State, d: nat, last: K.Proc) {
    t == st.(clock := st.clock + d, procs := st.procs + [last])
  }

  lemma StartsAt(st: K.State, a: Actor, req: Request, note: string)
    requires EndsAfter(req, st.clock)
    ensures K.Apply(st, Starts(a, req, note)) == st.(procs := st.procs + [Preparing(a, req, note)])
  { }

  lemma Prepares(st: K.State, procs: seq<K.Proc>, a: Actor, req: Request, note: string)
    requires st.procs == procs + [Preparing(a, req, note)]
    ensures K.Apply(st, K.Do(|procs|, true)) ==
            st.(procs := procs + [K.Placing(K.BlockCall, Block(req.subject, note, a.name, st.clock, req.until))])
  {
    LastGoes(st, procs, Preparing(a, req, note),
             K.Placing(K.BlockCall, Block(req.subject, note, a.name, st.clock, req.until)));
  }

  /** A call that is refused, or that cannot place. */
  lemma RefusedRun(st: K.State, a: Actor, req: Request, note: string, d: nat) returns (steps: seq<K.Step>)
    ensures Own(steps, |st.procs|)
    ensures var t := K.Run(st, steps);
            if EndsAfter(req, st.clock) then Quiet(st, t, d, K.Failed) else t == st.(clock := st.clock + d)
  {
    var c := |st.procs|;
    steps := [Starts(a, req, note), K.Do(c, true), K.Do(c, false), K.Tick(d)];
    L.RunFour(st, steps[0], steps[1], steps[2], steps[3]);
    if EndsAfter(req, st.clock) {
      StartsAt(st, a, req, note);
      var s1 := K.Apply(st, steps[0]);
      Prepares(s1, st.procs, a, req, note);
      var s2 := K.Apply(s1, steps[1]);
      LastGoes(s2, st.procs, s2.procs[c], K.Failed);
    }
  }

  /** A call whose subject is blocked already. */
  lemma BlockedRun(st: K.State, a: Actor, req: Request, note: string, d: nat) returns (steps: seq<K.Step>)
    requires K.Blocked(st, req.subject)
    ensures Own(steps, |st.procs|)
    ensures var t := K.Run(st, steps);
            if EndsAfter(req, st.clock) then Quiet(st, t, d, K.Done(false, false)) else t == st.(clock := st.clock + d)
  {
    var c := |st.procs|;
    steps := [Starts(a, req, note), K.Do(c, true), K.Do(c, true), K.Tick(d)];
    L.RunFour(st, steps[0], steps[1], steps[2], steps[3]);
    if EndsAfter(req, st.clock) {
      StartsAt(st, a, req, note);
      var s1 := K.Apply(st, steps[0]);
      Prepares(s1, st.procs, a, req, note);
      var s2 := K.Apply(s1, steps[1]);
      LastGoes(s2, st.procs, s2.procs[c], K.Done(false, false));
    }
  }

  /** The step that places, and the step that records. */
  lemma Places(st: K.State, procs: seq<K.Proc>, b: Block)
    requires st.procs == procs + [K.Placing(K.BlockCall, b)] && b.EndsAfterItBegins() && !K.Blocked(st, b.subject)
    ensures K.Apply(st, K.Do(|procs|, true)) ==
            K.Place(st, |procs|, b).(procs := procs + [K.PlaceRecording(K.BlockCall, |st.placed|, K.Displaced(st, b))])
  {
    LastGoes(K.Place(st, |procs|, b), procs, K.Placing(K.BlockCall, b),
             K.PlaceRecording(K.BlockCall, |st.placed|, K.Displaced(st, b)));
  }

  lemma Records(st: K.State, procs: seq<K.Proc>, id: nat, replaced: Option<Block>, ok: bool)
    requires st.procs == procs + [K.PlaceRecording(K.BlockCall, id, replaced)] && id < |st.placed|
    ensures K.Apply(st, K.Do(|procs|, ok)) ==
            st.(trail := st.trail + (if ok then [K.Placed(st.placed[id], replaced)] else []),
                procs := procs + [K.Done(true, ok)])
  {
    LastGoes(st, procs, st.procs[|procs|], K.Done(true, ok));
    assert st.trail + [] == st.trail;
  }

  /** Up to the step that places b, which was prepared d after the start and is
      placed e later. */
  lemma ReadyRun(st: K.State, a: Actor, req: Request, note: string, b: Block, d: nat, e: nat)
    requires b == Block(req.subject, note, a.name, st.clock + d, req.until) && b.EndsAfterItBegins()
    ensures K.Run(st, [Starts(a, req, note), K.Tick(d), K.Do(|st.procs|, true), K.Tick(e)]) ==
            st.(clock := b.at + e, procs := st.procs + [K.Placing(K.BlockCall, b)])
  {
    L.RunFour(st, Starts(a, req, note), K.Tick(d), K.Do(|st.procs|, true), K.Tick(e));
    StartsAt(st, a, req, note);
    var s1 := K.Apply(st, Starts(a, req, note));
    var s2 := st.(clock := b.at, procs := st.procs + [Preparing(a, req, note)]);
    assert K.Apply(s1, K.Tick(d)) == s2;
    Prepares(s2, st.procs, a, req, note);
    var s3 := s2.(procs := st.procs + [K.Placing(K.BlockCall, b)]);
    assert K.Apply(s3, K.Tick(e)) == s3.(clock := b.at + e);
  }

  /** A call that places b, and writes its row or not. */
  lemma PlacedRun(st: K.State, a: Actor, req: Request, note: string, b: Block, d: nat, e: nat, ok: bool)
    returns (steps: seq<K.Step>)
    requires K.Inv(st) && b == Block(req.subject, note, a.name, st.clock + d, req.until) && b.EndsAfterItBegins()
    requires b.subject in BlocksOf(st) ==> !BlocksOf(st)[b.subject].ActiveAt(b.at + e)
    ensures Own(steps, |st.procs|)
    ensures var t := K.Run(st, steps);
            && BlocksOf(t) == BlocksOf(st)[b.subject := b] && t.clock == b.at + e && t.replacer == st.replacer
            && t.trail == st.trail + (if ok then [K.Placed(b, Displaced(st.replacer, BlocksOf(st), b.subject))] else [])
            && t.procs == st.procs + [K.Done(true, ok)]
  {
    var c := |st.procs|;
    var first := [Starts(a, req, note), K.Tick(d), K.Do(c, true), K.Tick(e)];
    var rest := [K.Do(c, true), K.Do(c, ok)];
    steps := first + rest;
    assert steps[1..] == first[1..] + rest;
    L.RunConcat(st, first, rest);
    ReadyRun(st, a, req, note, b, d, e);
    var ready := st.(clock := b.at + e, procs := st.procs + [K.Placing(K.BlockCall, b)]);
    L.RunTwo(ready, rest[0], rest[1]);
    NotBlocked(st, ready, b.subject);
    Places(ready, st.procs, b);
    PlacedOnRecord(st, ready, c, b);
    Records(K.Apply(ready, rest[0]), st.procs, |st.placed|, K.Displaced(ready, b), ok);
  }

  lemma NotBlocked(st: K.State, ready: K.State, x: string)
    requires ready.list == st.list && ready.placed == st.placed
    requires x in BlocksOf(st) ==> !BlocksOf(st)[x].ActiveAt(ready.clock)
    ensures !K.Blocked(ready, x)
  { }

  lemma PlacedOnRecord(st: K.State, ready: K.State, call: nat, b: Block)
    requires K.Inv(st) && ready.list == st.list && ready.placed == st.placed && ready.replacer == st.replacer
    ensures BlocksOf(K.Place(ready, call, b)) == BlocksOf(st)[b.subject := b]
    ensures K.Place(ready, call, b).placed == st.placed + [b]
    ensures K.Displaced(ready, b) == Displaced(st.replacer, BlocksOf(st), b.subject)
  { }

  /** PlaceBlock, whatever came of it, is a run of one call's steps. */
  lemma PlacingIsARun(st: K.State, a: Actor, req: Request, note: string, blocks0: map<string, Block>,
                      blocks1: map<string, Block>, trail0: seq<Row>, trail1: seq<Row>, t0: Time, t1: Time,
                      res: ActionResult, err: Option<Code>) returns (steps: seq<K.Step>)
    requires Same(blocks0, trail0, t0, st.replacer, st) && t0 <= t1
    requires PlaceOutcome(a, req, note, st.replacer, blocks0, blocks1, trail0, trail1, t0, t1, res, err)
    ensures Own(steps, |st.procs|) && Same(blocks1, trail1, t1, st.replacer, K.Run(st, steps))
    ensures EndsAfter(req, t0) ==>
              K.Run(st, steps).procs == st.procs + [if err.None? then K.Done(res.changed, res.recorded) else K.Failed]
  {
    if err.Some? {
      steps := RefusedRun(st, a, req, note, t1 - t0);
    } else if !res.changed {
      steps := BlockedRun(st, a, req, note, t1 - t0);
    } else {
      var b := blocks1[req.subject];
      steps := PlacedRun(st, a, req, note, b, b.at - t0, t1 - b.at, res.recorded);
      if res.recorded {
        ShowOn(trail0, st.trail, BlockRow(a, b, Displaced(st.replacer, blocks0, req.subject)),
               K.Placed(b, Displaced(st.replacer, blocks0, req.subject)));
      }
    }
    K.RunKeeps(st, steps);
  }

  // ---- Lifting -----------------------------------------------------------------------------

  /** Reading, recording, lifting: each as it went, until one did not. */
  function UnblockSteps(c: nat, x: string, d: nat, read: bool, written: bool, lifted: bool): seq<K.Step> {
    [K.StartUnblock(x), K.Tick(d), K.Do(c, read), K.Do(c, written), K.Do(c, lifted)]
  }

  /** Up to the read, d after the start. */
  lemma ReadRun(st: K.State, x: string, d: nat, read: bool, written: bool, lifted: bool)
    ensures K.Run(st, UnblockSteps(|st.procs|, x, d, read, written, lifted)) ==
            K.Run(st.(clock := st.clock + d, procs := st.procs + [K.UnblockReading(x)]),
                  [K.Do(|st.procs|, read), K.Do(|st.procs|, written), K.Do(|st.procs|, lifted)])
  {
    var c := |st.procs|;
    var first, rest := [K.StartUnblock(x), K.Tick(d)], [K.Do(c, read), K.Do(c, written), K.Do(c, lifted)];
    assert UnblockSteps(c, x, d, read, written, lifted) == first + rest;
    L.RunConcat(st, first, rest);
    L.RunTwo(st, first[0], first[1]);
    var s1 := st.(procs := st.procs + [K.UnblockReading(x)]);
    assert K.Apply(st, first[0]) == s1;
    assert K.Apply(s1, first[1]) == s1.(clock := st.clock + d);
  }

  /** A call that goes no further than its read: it fails, or finds nothing. */
  lemma UnreadRun(st: K.State, x: string, d: nat, found: bool) returns (steps: seq<K.Step>)
    requires !found ==> x !in st.list
    ensures Own(steps, |st.procs|)
    ensures Quiet(st, K.Run(st, steps), d, if found then K.Failed else K.Done(false, false))
  {
    var c := |st.procs|;
    steps := UnblockSteps(c, x, d, !found, true, true);
    ReadRun(st, x, d, !found, true, true);
    var s1 := st.(clock := st.clock + d, procs := st.procs + [K.UnblockReading(x)]);
    L.RunThree(s1, steps[2], steps[3], steps[4]);
    LastGoes(s1, st.procs, K.UnblockReading(x), if found then K.Failed else K.Done(false, false));
    var s2 := s1.(procs := st.procs + [if found then K.Failed else K.Done(false, false)]);
    assert K.Apply(s1, steps[2]) == s2;
    assert K.Apply(s2, steps[3]) == s2 && K.Apply(s2, steps[4]) == s2;
  }

  lemma Writes(st: K.State, procs: seq<K.Proc>, x: string)
    requires st.procs == procs + [K.UnblockRecording(x)]
    ensures K.Apply(st, K.Do(|procs|, true)) ==
            st.(trail := st.trail + [K.Unblocked(x)], procs := procs + [K.Lifting(x, |st.trail|)])
  {
    LastGoes(K.Write(st, K.Unblocked(x)), procs, K.UnblockRecording(x), K.Lifting(x, |st.trail|));
  }

  lemma Lifts(st: K.State, procs: seq<K.Proc>, x: string, row: nat, lifted: bool)
    requires st.procs == procs + [K.Lifting(x, row)] && x in st.list
    ensures K.Apply(st, K.Do(|procs|, lifted)) ==
            (if lifted then K.Leave(st, x, K.ByLift(row)) else st)
            .(procs := procs + [if lifted then K.Done(true, true) else K.Failed])
  {
    LastGoes(if lifted then K.Leave(st, x, K.ByLift(row)) else st, procs, K.Lifting(x, row),
             if lifted then K.Done(true, true) else K.Failed);
  }

  /** A call that reads and records: the block goes, or stays. */
  lemma LiftRun(st: K.State, x: string, d: nat, lifted: bool) returns (steps: seq<K.Step>)
    requires x in st.list
    ensures Own(steps, |st.procs|)
    ensures var t := K.Run(st, steps);
            && t.list == (if lifted then st.list - {x} else st.list) && t.placed == st.placed
            && t.trail == st.trail + [K.Unblocked(x)] && t.clock == st.clock + d && t.replacer == st.replacer
            && t.procs == st.procs + [if lifted then K.Done(true, true) else K.Failed]
  {
    var c := |st.procs|;
    steps := UnblockSteps(c, x, d, true, true, lifted);
    ReadRun(st, x, d, true, true, lifted);
    var s1 := st.(clock := st.clock + d, procs := st.procs + [K.UnblockReading(x)]);
    L.RunThree(s1, K.Do(c, true), K.Do(c, true), K.Do(c, lifted));
    L.ReadsBlock(s1, st.procs, x);
    var s2 := s1.(procs := st.procs + [K.UnblockRecording(x)]);
    Writes(s2, st.procs, x);
    var s3 := s2.(trail := st.trail + [K.Unblocked(x)], procs := st.procs + [K.Lifting(x, |st.trail|)]);
    Lifts(s3, st.procs, x, |st.trail|, lifted);
  }

  lemma GoneAlike(st: K.State, t: K.State, x: string)
    requires K.Inv(st) && t.list == st.list - {x} && t.placed == st.placed
    ensures BlocksOf(t) == BlocksOf(st) - {x}
  { }

  /** UnblockSubject, whatever came of it, is a run of one call's steps. */
  lemma LiftingIsARun(st: K.State, a: Actor, req: Request, blocks0: map<string, Block>, blocks1: map<string, Block>,
                      trail0: seq<Row>, trail1: seq<Row>, t0: Time, t1: Time, res: ActionResult, err: Option<Code>)
    returns (steps: seq<K.Step>)
    requires Same(blocks0, trail0, t0, st.replacer, st) && t0 <= t1
    requires UnblockOutcome(a, req, blocks0, blocks1, trail0, trail1, res, err)
    ensures Own(steps, |st.procs|) && Same(blocks1, trail1, t1, st.replacer, K.Run(st, steps))
    ensures K.Run(st, steps).procs == st.procs + [if err.None? then K.Done(res.changed, res.recorded) else K.Failed]
  {
    if trail1 == trail0 {
      steps := UnreadRun(st, req.subject, t1 - t0, err.Some?);
    } else {
      steps := LiftRun(st, req.subject, t1 - t0, res.changed);
      assert trail1 == trail0 + [trail1[|trail0|]];
      ShowOn(trail0, st.trail, trail1[|trail0|], K.Unblocked(req.subject));
      if res.changed { GoneAlike(st, K.Run(st, steps), req.subject); }
    }
    K.RunKeeps(st, steps);
  }

  // ---- Expiring ------------------------------------------------------------------------------

  lemma ExpiresOne(st: K.State, call: nat, b: Block, rest: seq<Block>, removed: bool)
    requires call < |st.procs| && st.procs[call] == K.Expiring([b] + rest) && K.Removable(st, b)
    ensures var t := K.Apply(K.Apply(st, K.Do(call, true)), K.Do(call, removed));
            && t.list == (if removed then st.list - {b.subject} else st.list) && t.placed == st.placed
            && t.trail == st.trail + [K.Expired(b)] && t.clock == st.clock && t.replacer == st.replacer
            && t.procs == st.procs[call := K.Expiring(rest)]
  {
    var todo := [b] + rest;
    assert todo[0] == b && todo[1..] == rest;
    var s1 := K.Apply(st, K.Do(call, true));
    assert s1.procs[call] == K.Removing(b, |st.trail|, rest);
    assert st.procs[call := K.Removing(b, |st.trail|, rest)][call := K.Expiring(rest)]
        == st.procs[call := K.Expiring(rest)];
  }

  lemma SkippedRun(st: K.State, call: nat, b: Block, rest: seq<Block>, d: nat) returns (steps: seq<K.Step>)
    requires call < |st.procs| && st.procs[call] == K.Expiring([b] + rest)
    ensures Moves(steps, call)
    ensures K.Run(st, steps) == st.(clock := st.clock + d, procs := st.procs[call := K.Expiring(rest)])
  {
    var todo := [b] + rest;
    assert todo[0] == b && todo[1..] == rest;
    steps := [K.Tick(d), K.Do(call, false)];
    L.RunTwo(st, steps[0], steps[1]);
  }

  lemma ExpiredRun(st: K.State, call: nat, b: Block, rest: seq<Block>, d: nat, removed: bool)
    returns (steps: seq<K.Step>)
    requires call < |st.procs| && st.procs[call] == K.Expiring([b] + rest)
    requires K.Removable(st.(clock := st.clock + d), b)
    ensures Moves(steps, call)
    ensures var t := K.Run(st, steps);
            && t.list == (if removed then st.list - {b.subject} else st.list) && t.placed == st.placed
            && t.trail == st.trail + [K.Expired(b)] && t.clock == st.clock + d && t.replacer == st.replacer
            && t.procs == st.procs[call := K.Expiring(rest)]
  {
    steps := [K.Tick(d), K.Do(call, true), K.Do(call, removed)];
    L.RunThree(st, steps[0], steps[1], steps[2]);
    ExpiresOne(st.(clock := st.clock + d), call, b, rest, removed);
  }

  /** ExpireOne, whatever came of it, is what the round's call does with the
      first block it still has to deal with. */
  lemma ExpiringIsARun(st: K.State, call: nat, b: Block, rest: seq<Block>, blocks0: map<string, Block>,
                       blocks1: map<string, Block>, trail0: seq<Row>, trail1: seq<Row>, t0: Time, t1: Time,
                       removed: bool) returns (steps: seq<K.Step>)
    requires Same(blocks0, trail0, t0, st.replacer, st) && t0 <= t1
    requires call < |st.procs| && st.procs[call] == K.Expiring([b] + rest)
    requires b.subject in blocks0 && blocks0[b.subject] == b && !b.ActiveAt(t0)
    requires ExpireOutcome(b, blocks0, blocks1, trail0, trail1, removed)
    ensures Moves(steps, call) && Same(blocks1, trail1, t1, st.replacer, K.Run(st, steps))
    ensures K.Run(st, steps).procs == st.procs[call := K.Expiring(rest)]
  {
    if trail1 == trail0 {
      steps := SkippedRun(st, call, b, rest, t1 - t0);
    } else {
      steps := ExpiredRun(st, call, b, rest, t1 - t0, removed);
      assert trail1 == trail0 + [trail1[|trail0|]];
      ShowOn(trail0, st.trail, trail1[|trail0|], K.Expired(b));
      if removed { GoneAlike(st, K.Run(st, steps), b.subject); }
    }
    K.RunKeeps(st, steps);
  }

  // ---- Any number of them ---------------------------------------------------------------------

  datatype Call = Blocks(a: Actor, req: Request) | Unblocks(a: Actor, req: Request)

  /** One call of the service, and the run that it is. */
  method Serve(s: Service, call: Call, ghost st: K.State) returns (ghost steps: seq<K.Step>)
    requires s.Valid() && Same(s.blocks, s.trail, s.clock, s.replacer, st)
    modifies s`clock, s`step, s`blocks, s`trail
    ensures s.Valid() && Own(steps, |st.procs|)
    ensures Same(s.blocks, s.trail, s.clock, s.replacer, K.Run(st, steps))
  {
    match call
    case Blocks(a, req) =>
      var res, err := BlockSubject(s, a, req);
      if err.Some? && res == NEW_RESULT && s.blocks == old(s.blocks) && s.trail == old(s.trail) {
        steps := RefusedRun(st, a, req, BlockNote(a, req.reason), s.clock - old(s.clock));
        K.RunKeeps(st, steps);
      } else {
        steps := PlacingIsARun(st, a, req, BlockNote(a, req.reason), old(s.blocks), s.blocks, old(s.trail), s.trail,
                               old(s.clock), s.clock, res, err);
      }
    case Unblocks(a, req) =>
      var res, err := UnblockSubject(s, a, req);
      steps := LiftingIsARun(st, a, req, old(s.blocks), s.blocks, old(s.trail), s.trail, old(s.clock), s.clock, res,
                             err);
  }

  /** Any number of calls, one after the other and with any port failing, from
      an empty blocklist: blocklist and trail are those of a run from Init. */
  method ServeAll(s: Service, calls: seq<Call>) returns (ghost steps: seq<K.Step>)
    requires s.Valid() && s.blocks == map[] && s.trail == []
    modifies s`clock, s`step, s`blocks, s`trail
    ensures s.Valid()
    ensures Same(s.blocks, s.trail, s.clock, s.replacer, K.Run(K.Init(s.replacer, old(s.clock)), steps))
  {
    ghost var start := K.Init(s.replacer, s.clock);
    K.InitHolds(s.replacer, s.clock);
    steps := [];
    var i := 0;
    while i < |calls|
      invariant 0 <= i <= |calls| && s.Valid()
      invariant Same(s.blocks, s.trail, s.clock, s.replacer, K.Run(start, steps))
    {
      ghost var more := Serve(s, calls[i], K.Run(start, steps));
      L.RunConcat(start, steps, more);
      steps := steps + more;
      i := i + 1;
    }
  }
}
