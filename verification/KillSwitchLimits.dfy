/** What an answered unblock and a replacing block do not promise, exactly when
    they do keep it, and runs in which they do not. */
module KillSwitchLimits {
  import opened GoText
  import opened Blocks
  import opened KillSwitch

  // ---- What a lift takes -----------------------------------------------------------

  /** Placement id has left since there were `from` departures. */
  ghost predicate LeftSince(t: State, from: nat, id: nat) { exists k :: from <= k < |t.left| && t.left[k].id == id }

  function Taken(t: State, id: nat, row: nat): Departure { Departure(id, ByLift(row), t.clock, |t.trail|) }

  /** A lift that does not fail answers changed and recorded whatever it takes:
      it takes a block if and only if one is on the list at that step. */
  lemma ALiftAnswersChanged(t: State, c: nat)
    requires c < |t.procs| && t.procs[c].Lifting?
    ensures var Lifting(x, row) := t.procs[c];
            var u := Advance(t, c, true);
            && u.procs[c] == Done(true, true) && x !in u.list
            && (x in t.list ==> u.left == t.left + [Taken(t, t.list[x], row)])
            && (x !in t.list ==> u.left == t.left)
            && (|u.left| == |t.left| + 1 <==> x in t.list)
  { }

  /** From any moment x is blocked: a later lift takes that very block, on the
      strength of its own row, if and only if the block has not left since. */
  lemma ALiftTakesTheBlockItMeant(s: State, x: string, steps: seq<Step>, c: nat, row: nat)
    requires Inv(s) && x in s.list
    requires var t := Run(s, steps); c < |t.procs| && t.procs[c] == Lifting(x, row)
    ensures var t := Run(s, steps);
            Advance(t, c, true).left == t.left + [Taken(t, s.list[x], row)] <==> !LeftSince(t, |s.left|, s.list[x])
  {
    RunKeeps(s, steps);
    RunGrows(s, steps);
    var t, id := Run(s, steps), s.list[x];
    ALiftAnswersChanged(t, c);
    Since(s, t, id);
    if x in t.list && t.list[x] != id {
      assert Taken(t, t.list[x], row) != Taken(t, id, row);
      assert (t.left + [Taken(t, t.list[x], row)])[|t.left|] != (t.left + [Taken(t, id, row)])[|t.left|];
    }
  }

  /** A placement on the list is there still, or it has left since. */
  lemma Since(s: State, t: State, id: nat)
    requires Inv(s) && Inv(t) && Later(s, t) && id < |s.placed| && OnList(id, s.list, s.placed)
    ensures OnList(id, t.list, t.placed) <==> !LeftSince(t, |s.left|, id)
  {
    assert forall j :: 0 <= j < |s.left| ==> t.left[j] == s.left[j] && s.left[j].id != id;
    if !OnList(id, t.list, t.placed) {
      var k :| 0 <= k < |t.left| && t.left[k].id == id;
      assert k >= |s.left|;
    }
  }

  /** The same, at the step that writes the row the lift rests on. */
  lemma ARowIsForTheBlockThere(s: State, x: string, c: nat, steps: seq<Step>)
    requires Inv(s) && x in s.list && c < |s.procs| && s.procs[c] == UnblockRecording(x)
    requires var t := Run(Advance(s, c, true), steps); c < |t.procs| && t.procs[c] == Lifting(x, |s.trail|)
    ensures var t := Run(Advance(s, c, true), steps);
            && |s.trail| < |t.trail| && t.trail[|s.trail|] == Unblocked(x)
            && (Advance(t, c, true).left == t.left + [Taken(t, s.list[x], |s.trail|)] <==>
                  !LeftSince(t, |s.left|, s.list[x]))
  {
    AdvanceKeeps(s, c, true);
    RunGrows(Advance(s, c, true), steps);
    ALiftTakesTheBlockItMeant(Advance(s, c, true), x, steps, c, |s.trail|);
  }

  // ---- When nobody comes between ------------------------------------------------------

  /** The next step of this call would change the list's entry for x. */
  predicate Acts(p: Proc, x: string) {
    match p
    case Placing(_, b) => b.subject == x
    case Lifting(y, _) => y == x
    case Removing(b, _, _) => b.subject == x
    case _ => false
  }

  /** No other call acts on x anywhere in the run: the service's lock, and no
      expiry of x. */
  ghost predicate Alone(s: State, c: nat, x: string, steps: seq<Step>)
    decreases |steps|
  {
    steps == [] || (LeavesAlone(s, c, x, steps[0]) && Alone(Apply(s, steps[0]), c, x, steps[1..]))
  }

  predicate LeavesAlone(s: State, c: nat, x: string, step: Step) {
    step.Do? && step.call != c && step.call < |s.procs| ==> !Acts(s.procs[step.call], x)
  }

  /** An unblock of x on its way to its lift. */
  predicate Unblocking(p: Proc, x: string) {
    p == UnblockReading(x) || p == UnblockRecording(x) || (p.Lifting? && p.subject == x)
  }

  predicate Settled(p: Proc) { p.Done? || p.Failed? || p.Crashed? }

  lemma {:induction false} SettledStays(s: State, steps: seq<Step>, c: nat)
    requires c < |s.procs| && Settled(s.procs[c])
    ensures c < |Run(s, steps).procs| && Settled(Run(s, steps).procs[c])
    decreases |steps|
  {
    if steps != [] {
      OneSettled(s, steps[0], c);
      SettledStays(Apply(s, steps[0]), steps[1..], c);
    }
  }

  lemma OneSettled(s: State, step: Step, c: nat)
    requires c < |s.procs| && Settled(s.procs[c])
    ensures c < |Apply(s, step).procs| && Settled(Apply(s, step).procs[c])
  {
    if step.Do? && step.call < |s.procs| { OnlyItsOwn(s, step.call, step.ok, c); }
  }

  lemma OnlyItsOwn(s: State, call: nat, ok: bool, c: nat)
    requires call < |s.procs| && c < |s.procs|
    ensures |Advance(s, call, ok).procs| == |s.procs|
    ensures c != call ==> Advance(s, call, ok).procs[c] == s.procs[c]
    ensures Settled(s.procs[call]) ==> Advance(s, call, ok).procs[call] == s.procs[call]
  {
    match s.procs[call]
    case Placing(kind, b) => assert Place(s, call, b).procs == s.procs;
    case Lifting(x, row) => assert x in s.list ==> Leave(s, x, ByLift(row)).procs == s.procs;
    case Removing(b, row, todo) => assert Removable(s, b) ==> Leave(s, b.subject, ByExpiry(row)).procs == s.procs;
    case _ =>
  }

  /** A step that does not act on x leaves its entry as it is. */
  lemma EntryStays(s: State, x: string, call: nat, ok: bool)
    requires call < |s.procs| && !Acts(s.procs[call], x) && x in s.list
    ensures x in Advance(s, call, ok).list && Advance(s, call, ok).list[x] == s.list[x]
  { }

  /** One step of a run alone with x: the unblock goes on or is settled, and the
      entry stays until it is. */
  lemma OneAlone(s: State, c: nat, x: string, step: Step)
    requires x in s.list && c < |s.procs| && Unblocking(s.procs[c], x) && LeavesAlone(s, c, x, step)
    ensures var t := Apply(s, step);
            c < |t.procs| && (Settled(t.procs[c])
                              || (Unblocking(t.procs[c], x) && x in t.list && t.list[x] == s.list[x]))
  {
    if step.Do? && step.call < |s.procs| {
      OnlyItsOwn(s, step.call, step.ok, c);
      if !Acts(s.procs[step.call], x) { EntryStays(s, x, step.call, step.ok); }
    }
  }

  lemma {:induction false} AloneKeepsTheEntry(s: State, c: nat, x: string, steps: seq<Step>)
    requires x in s.list && c < |s.procs| && Unblocking(s.procs[c], x) && Alone(s, c, x, steps)
    requires var t := Run(s, steps); c < |t.procs| && t.procs[c].Lifting?
    ensures x in Run(s, steps).list && Run(s, steps).list[x] == s.list[x]
    decreases |steps|
  {
    if steps != [] {
      OneAlone(s, c, x, steps[0]);
      var t := Apply(s, steps[0]);
      if Settled(t.procs[c]) {
        SettledStays(t, steps[1..], c);
      } else {
        AloneKeepsTheEntry(t, c, x, steps[1..]);
      }
    }
  }

  /** If no other call acts on x between the read and the lift, the unblock that
      answers changed has lifted the very block it read, on its own row. */
  lemma AnUndisturbedUnblockLifts(s: State, x: string, c: nat, steps: seq<Step>, row: nat)
    requires Inv(s) && x in s.list && c < |s.procs| && s.procs[c] == UnblockReading(x) && Alone(s, c, x, steps)
    requires var t := Run(s, steps); c < |t.procs| && t.procs[c] == Lifting(x, row)
    ensures var t := Run(s, steps);
            var u := Advance(t, c, true);
            && u.procs[c] == Done(true, true) && u.left == t.left + [Taken(t, s.list[x], row)]
            && row < |t.trail| && t.trail[row] == Unblocked(x)
  {
    RunKeeps(s, steps);
    AloneKeepsTheEntry(s, c, x, steps);
    var t := Run(s, steps);
    ALiftAnswersChanged(t, c);
    assert HeldRowSays(t.procs[c], t.trail);
  }

  /** The gateway's round runs in its own process, so it may come between. No
      other lift of x does. */
  ghost predicate OnlyLift(s: State, c: nat, x: string, steps: seq<Step>)
    decreases |steps|
  {
    steps == [] || (NoOtherLift(s, c, x, steps[0]) && OnlyLift(Apply(s, steps[0]), c, x, steps[1..]))
  }

  predicate NoOtherLift(s: State, c: nat, x: string, step: Step) {
    step.Do? && step.call != c && step.call < |s.procs| ==>
      !(s.procs[step.call].Lifting? && s.procs[step.call].subject == x)
  }

  /** No placement on x has been lifted since there were `from` departures. */
  ghost predicate NotLiftedSince(t: State, from: nat, x: string) {
    forall k :: from <= k < |t.left| && t.left[k].how.ByLift? && t.left[k].id < |t.placed| ==>
      t.placed[t.left[k].id].subject != x
  }

  lemma OneNotLifted(s: State, call: nat, ok: bool, x: string)
    requires Inv(s) && call < |s.procs| && !(s.procs[call].Lifting? && s.procs[call].subject == x)
    ensures NotLiftedSince(Advance(s, call, ok), |s.left|, x)
  {
    var t := Advance(s, call, ok);
    AdvanceGrows(s, call, ok);
    if ok && s.procs[call].Lifting? && s.procs[call].subject in s.list {
      assert t.left == s.left + [Taken(s, s.list[s.procs[call].subject], s.procs[call].row)];
    }
  }

  lemma StillUnblocking(s: State, c: nat, x: string, step: Step)
    requires Inv(s) && c < |s.procs| && Unblocking(s.procs[c], x) && NoOtherLift(s, c, x, step)
    ensures var t := Apply(s, step);
            c < |t.procs| && (Settled(t.procs[c]) || (Unblocking(t.procs[c], x) && NotLiftedSince(t, |s.left|, x)))
  {
    if step.Do? && step.call < |s.procs| {
      OnlyItsOwn(s, step.call, step.ok, c);
      if !(s.procs[step.call].Lifting? && s.procs[step.call].subject == x) { OneNotLifted(s, step.call, step.ok, x); }
    }
  }

  /** One step nearer to the lift that is to come. */
  lemma StepsOn(s: State, c: nat, x: string, steps: seq<Step>)
    requires Inv(s) && c < |s.procs| && Unblocking(s.procs[c], x) && steps != [] && NoOtherLift(s, c, x, steps[0])
    requires var t := Run(s, steps); c < |t.procs| && t.procs[c].Lifting?
    ensures var t := Apply(s, steps[0]);
            && Inv(t) && |s.left| <= |t.left| && c < |t.procs| && Unblocking(t.procs[c], x)
            && NotLiftedSince(t, |s.left|, x)
  {
    ApplyKeeps(s, steps[0]);
    Grows(s, steps[0]);
    StillUnblocking(s, c, x, steps[0]);
    if Settled(Apply(s, steps[0]).procs[c]) { SettledStays(Apply(s, steps[0]), steps[1..], c); }
  }

  lemma {:induction false} OnlyLiftLiftsNothing(s: State, c: nat, x: string, steps: seq<Step>)
    requires Inv(s) && c < |s.procs| && Unblocking(s.procs[c], x) && OnlyLift(s, c, x, steps)
    requires var t := Run(s, steps); c < |t.procs| && t.procs[c].Lifting?
    ensures NotLiftedSince(Run(s, steps), |s.left|, x)
    decreases |steps|
  {
    if steps != [] {
      var t := Apply(s, steps[0]);
      StepsOn(s, c, x, steps);
      OnlyLiftLiftsNothing(t, c, x, steps[1..]);
      NotLiftedThrough(s, t, Run(t, steps[1..]), steps[1..], x);
    }
  }

  lemma NotLiftedThrough(s: State, t: State, u: State, steps: seq<Step>, x: string)
    requires Inv(t) && u == Run(t, steps) && |s.left| <= |t.left|
    requires NotLiftedSince(t, |s.left|, x) && NotLiftedSince(u, |t.left|, x)
    ensures NotLiftedSince(u, |s.left|, x)
  {
    RunGrows(t, steps);
    forall k | |s.left| <= k < |t.left| && u.left[k].how.ByLift? ensures u.placed[u.left[k].id].subject != x {
      assert u.left[k] == t.left[k];
    }
  }

  /** Whatever else happens, the expiry round included: if no other call lifts x
      between and the block is still in force, the unblock lifts that block. */
  lemma AnUnblockLiftsABlockInForce(s: State, x: string, c: nat, steps: seq<Step>, row: nat)
    requires Inv(s) && x in s.list && c < |s.procs| && s.procs[c] == UnblockReading(x) && OnlyLift(s, c, x, steps)
    requires var t := Run(s, steps); c < |t.procs| && t.procs[c] == Lifting(x, row)
    requires s.list[x] < |s.placed| && s.placed[s.list[x]].ActiveAt(Run(s, steps).clock)
    ensures var t := Run(s, steps);
            Advance(t, c, true).left == t.left + [Taken(t, s.list[x], row)]
  {
    BlockedUntilItsEndOrALift(s, x, steps);
    OnlyLiftLiftsNothing(s, c, x, steps);
    RunGrows(s, steps);
    ALiftAnswersChanged(Run(s, steps), c);
  }

  // ---- When a replaced block is named ----------------------------------------------------

  /** No row names a replaced block, and no call is about to write one that does. */
  ghost predicate NamesNothing(s: State) {
    && !s.replacer
    && (forall k :: 0 <= k < |s.trail| && s.trail[k].Placed? ==> s.trail[k].replaced.None?)
    && (forall c :: 0 <= c < |s.procs| && s.procs[c].PlaceRecording? ==> s.procs[c].replaced.None?)
  }

  lemma PlaceNamesNothing(s: State, call: nat, ok: bool)
    requires NamesNothing(s) && call < |s.procs| && (s.procs[call].Placing? || s.procs[call].PlaceRecording?)
    ensures NamesNothing(Advance(s, call, ok))
  { }

  lemma AdvanceNamesNothing(s: State, call: nat, ok: bool)
    requires NamesNothing(s) && call < |s.procs|
    ensures NamesNothing(Advance(s, call, ok))
  {
    if s.procs[call].Placing? || s.procs[call].PlaceRecording? { PlaceNamesNothing(s, call, ok); }
  }

  lemma OneNamesNothing(s: State, step: Step)
    requires NamesNothing(s)
    ensures NamesNothing(Apply(s, step))
  {
    if step.Do? && step.call < |s.procs| { AdvanceNamesNothing(s, step.call, step.ok); }
  }

  lemma {:induction false} RunNamesNothing(s: State, steps: seq<Step>)
    requires NamesNothing(s)
    ensures NamesNothing(Run(s, steps))
    decreases |steps|
  {
    if steps != [] {
      OneNamesNothing(s, steps[0]);
      RunNamesNothing(Apply(s, steps[0]), steps[1..]);
    }
  }

  /** Over every run: a block that left by replacement, in a call that answered
      recorded, is named in the row of its successor if and only if the store
      says what it replaces -- and without one, no row of the trail names any
      replaced block. */
  lemma NamedExactlyByAReplacer(replacer: bool, start: Time, steps: seq<Step>, k: nat)
    requires k < |Reached(replacer, start, steps).left| && Reached(replacer, start, steps).left[k].how.ByReplacement?
    requires var s := Reached(replacer, start, steps);
             var call := s.left[k].how.call;
             call < |s.procs| && s.procs[call].Done? && s.procs[call].recorded
    ensures var s := Reached(replacer, start, steps);
            var d := s.left[k];
            && d.how.newer < |s.placed|
            && (Placed(s.placed[d.how.newer], Some(s.placed[d.id])) in s.trail <==> replacer)
            && (!replacer ==> forall r <- s.trail :: r.Placed? ==> r.replaced.None?)
  {
    var s := Reached(replacer, start, steps);
    SameReplacer(Init(replacer, start), steps);
    assert NamedBy(s.left[k], s.procs, s.placed, s.trail, s.replacer);
    if !replacer { RunNamesNothing(Init(false, start), steps); }
  }

  // ---- Runs that fail -----------------------------------------------------------------

  lemma Then(s: State, step: Step, rest: seq<Step>)
    ensures Run(s, [step] + rest) == Run(Apply(s, step), rest)
  { }

  lemma {:induction false} RunConcat(s: State, first: seq<Step>, rest: seq<Step>)
    ensures Run(s, first + rest) == Run(Run(s, first), rest)
    decreases |first|
  {
    if first == [] {
      assert first + rest == rest;
    } else {
      RunConcat(Apply(s, first[0]), first[1..], rest);
      assert (first + rest)[1..] == first[1..] + rest;
    }
  }

  lemma RunTwo(s: State, a: Step, b: Step)
    ensures Run(s, [a, b]) == Apply(Apply(s, a), b)
  {
    Then(s, a, [b]);
    Then(Apply(s, a), b, []);
    assert [a] + [b] == [a, b] && [b] + [] == [b];
  }

  lemma RunThree(s: State, a: Step, b: Step, c: Step)
    ensures Run(s, [a, b, c]) == Apply(Apply(Apply(s, a), b), c)
  {
    Then(s, a, [b, c]);
    RunTwo(Apply(s, a), b, c);
    assert [a] + [b, c] == [a, b, c];
  }

  lemma RunFour(s: State, a: Step, b: Step, c: Step, d: Step)
    ensures Run(s, [a, b, c, d]) == Apply(Apply(Apply(Apply(s, a), b), c), d)
  {
    Then(s, a, [b, c, d]);
    assert [a] + [b, c, d] == [a, b, c, d];
    RunThree(Apply(s, a), b, c, d);
  }

  /** The last call moves on. */
  lemma LastMoves(procs: seq<Proc>, p: Proc, q: Proc)
    ensures (procs + [p])[|procs| := q] == procs + [q]
  { }

  function Plain(x: string, at: Time, until: Option<Time>): Block { Block(x, "", "op", at, until) }

  function Begin(x: string, until: Option<Time>): Step { StartBlock(BlockCall, x, until, "", "op") }

  lemma Validates(s: State, procs: seq<Proc>, x: string, until: Option<Time>)
    requires s.procs == procs + [Preparing(BlockCall, x, until, "", "op")]
    ensures Apply(s, Do(|procs|, true)) == s.(procs := procs + [Placing(BlockCall, Plain(x, s.clock, until))])
  {
    LastMoves(procs, Preparing(BlockCall, x, until, "", "op"), Placing(BlockCall, Plain(x, s.clock, until)));
  }

  lemma Places(s: State, procs: seq<Proc>, b: Block)
    requires s.procs == procs + [Placing(BlockCall, b)] && b.EndsAfterItBegins() && b.subject !in s.list
    ensures Apply(s, Do(|procs|, true)) ==
            s.(list := s.list[b.subject := |s.placed|], placed := s.placed + [b],
               procs := procs + [PlaceRecording(BlockCall, |s.placed|, None)])
  {
    LastMoves(procs, Placing(BlockCall, b), PlaceRecording(BlockCall, |s.placed|, None));
  }

  lemma Records(s: State, procs: seq<Proc>, id: nat)
    requires s.procs == procs + [PlaceRecording(BlockCall, id, None)] && id < |s.placed|
    ensures Apply(s, Do(|procs|, true)) ==
            s.(trail := s.trail + [Placed(s.placed[id], None)], procs := procs + [Done(true, true)])
  {
    LastMoves(procs, PlaceRecording(BlockCall, id, None), Done(true, true));
  }

  function BlockSteps(c: nat, x: string, until: Option<Time>): seq<Step> {
    [Begin(x, until), Do(c, true), Do(c, true), Do(c, true)]
  }

  /** A call with no failing step: validated, placed and recorded. */
  lemma BlockRun(s: State, x: string, until: Option<Time>)
    requires x !in s.list && (until.Some? ==> until.value > s.clock)
    ensures Run(s, BlockSteps(|s.procs|, x, until)) ==
            s.(list := s.list[x := |s.placed|], trail := s.trail + [Placed(Plain(x, s.clock, until), None)],
               procs := s.procs + [Done(true, true)], placed := s.placed + [Plain(x, s.clock, until)])
  {
    var c := |s.procs|;
    RunFour(s, Begin(x, until), Do(c, true), Do(c, true), Do(c, true));
    var s1 := Apply(s, Begin(x, until));
    Validates(s1, s.procs, x, until);
    var s2 := Apply(s1, Do(c, true));
    Places(s2, s.procs, Plain(x, s.clock, until));
    Records(Apply(s2, Do(c, true)), s.procs, |s.placed|);
  }

  lemma ReadsBlock(s: State, procs: seq<Proc>, x: string)
    requires s.procs == procs + [UnblockReading(x)] && x in s.list
    ensures Apply(s, Do(|procs|, true)) == s.(procs := procs + [UnblockRecording(x)])
  {
    LastMoves(procs, UnblockReading(x), UnblockRecording(x));
  }

  lemma RecordsUnblock(s: State, procs: seq<Proc>, x: string)
    requires s.procs == procs + [UnblockRecording(x)]
    ensures Apply(s, Do(|procs|, true)) ==
            s.(trail := s.trail + [Unblocked(x)], procs := procs + [Lifting(x, |s.trail|)])
  {
    LastMoves(procs, UnblockRecording(x), Lifting(x, |s.trail|));
  }

  /** An unblock up to the row it writes. */
  lemma UnblockRecorded(s: State, x: string)
    requires x in s.list
    ensures var c := |s.procs|;
            Run(s, [StartUnblock(x), Do(c, true), Do(c, true)]) ==
            s.(trail := s.trail + [Unblocked(x)], procs := s.procs + [Lifting(x, |s.trail|)])
  {
    var c := |s.procs|;
    RunThree(s, StartUnblock(x), Do(c, true), Do(c, true));
    var s1 := Apply(s, StartUnblock(x));
    ReadsBlock(s1, s.procs, x);
    RecordsUnblock(Apply(s1, Do(c, true)), s.procs, x);
  }

  /** x blocked by a call that has answered. */
  function OneBlock(replacer: bool, start: Time, x: string, until: Option<Time>): State {
    State(start, map[x := 0], [Placed(Plain(x, start, until), None)], [Done(true, true)], replacer,
          [Plain(x, start, until)], [])
  }

  lemma OneBlockIsReached(replacer: bool, start: Time, x: string, until: Option<Time>)
    requires until.Some? ==> until.value > start
    ensures Run(Init(replacer, start), BlockSteps(0, x, until)) == OneBlock(replacer, start, x, until)
  {
    BlockRun(Init(replacer, start), x, until);
    assert [] + [Done(true, true)] == [Done(true, true)];
  }

  /** x blocked, and two unblocks of it recorded and not lifted yet. */
  function TwoWaiting(replacer: bool, start: Time, x: string): State {
    OneBlock(replacer, start, x, None).(
      trail := [Placed(Plain(x, start, None), None), Unblocked(x), Unblocked(x)],
      procs := [Done(true, true), Lifting(x, 1), Lifting(x, 2)])
  }

  lemma TwoWaitingIsReached(replacer: bool, start: Time, x: string) returns (steps: seq<Step>)
    ensures Run(Init(replacer, start), steps) == TwoWaiting(replacer, start, x)
  {
    var block := BlockSteps(0, x, None);
    var first := [StartUnblock(x), Do(1, true), Do(1, true)];
    var second := [StartUnblock(x), Do(2, true), Do(2, true)];
    var s := OneBlock(replacer, start, x, None);
    steps := block + (first + second);
    OneBlockIsReached(replacer, start, x, None);
    RunConcat(Init(replacer, start), block, first + second);
    RunConcat(s, first, second);
    UnblockRecorded(s, x);
    UnblockRecorded(Run(s, first), x);
    assert Run(s, first).trail == [Placed(Plain(x, start, None), None), Unblocked(x)];
  }

  /** Two unblocks of one block can both answer changed and recorded though one
      of them lifted nothing: the store's answer to a lift is not looked at. */
  lemma AnUnblockMayLiftNothing(replacer: bool, start: Time, x: string) returns (steps: seq<Step>)
    ensures var t := Run(Init(replacer, start), steps);
            && t.procs == [Done(true, true), Done(true, true), Done(true, true)]
            && t.trail == [Placed(Plain(x, start, None), None), Unblocked(x), Unblocked(x)]
            && t.left == [Departure(0, ByLift(1), start, 3)]
  {
    var waiting := TwoWaitingIsReached(replacer, start, x);
    var t := TwoWaiting(replacer, start, x);
    var both := [Do(1, true), Do(2, true)];
    steps := waiting + both;
    RunConcat(Init(replacer, start), waiting, both);
    RunTwo(t, Do(1, true), Do(2, true));
    assert Apply(t, Do(1, true)).procs == [Done(true, true), Done(true, true), Lifting(x, 2)];
    assert Apply(t, Do(1, true)).left == [Departure(0, ByLift(1), start, 3)];
  }

  /** A lift can take a block placed after the row it rests on: the trail then
      ends with the block's own row, and the subject is not blocked. */
  lemma ALiftMayTakeALaterBlock(replacer: bool, start: Time, x: string) returns (steps: seq<Step>)
    ensures var t := Run(Init(replacer, start), steps);
            var b := Plain(x, start, None);
            && t.trail == [Placed(b, None), Unblocked(x), Unblocked(x), Placed(b, None)]
            && t.left == [Departure(0, ByLift(2), start, 3), Departure(1, ByLift(1), start, 4)]
            && b.ActiveAt(t.clock) && !Blocked(t, x)
  {
    var waiting := TwoWaitingIsReached(replacer, start, x);
    var t := TwoWaiting(replacer, start, x);
    var block := BlockSteps(3, x, None);
    steps := waiting + ([Do(2, true)] + (block + [Do(1, true)]));
    RunConcat(Init(replacer, start), waiting, [Do(2, true)] + (block + [Do(1, true)]));
    var t1 := Apply(t, Do(2, true));
    Then(t, Do(2, true), block + [Do(1, true)]);
    RunConcat(t1, block, [Do(1, true)]);
    BlockRun(t1, x, None);
    var t2 := Run(t1, block);
    Then(t2, Do(1, true), []);
    assert [Do(1, true)] + [] == [Do(1, true)];
    assert t1.left == [Departure(0, ByLift(2), start, 3)] && |t1.procs| == 3;
    assert t2.procs[1] == Lifting(x, 1) && t2.list[x] == 1;
  }

  /** Without a store that names what it replaces, a call can answer recorded
      while the ended block it replaced is named by no row at all. */
  lemma AReplacedBlockMayGoUnnamed(start: Time, x: string) returns (steps: seq<Step>)
    ensures var t := Run(Init(false, start), steps);
            && t.procs == [Done(true, true), Done(true, true)]
            && t.trail == [Placed(Plain(x, start, Some(start + 1)), None), Placed(Plain(x, start + 1, None), None)]
            && t.left == [Departure(0, ByReplacement(1, 1), start + 1, 1)]
  {
    var ended := BlockSteps(0, x, Some(start + 1));
    var block := BlockSteps(1, x, None);
    steps := ended + ([Tick(1)] + block);
    OneBlockIsReached(false, start, x, Some(start + 1));
    RunConcat(Init(false, start), ended, [Tick(1)] + block);
    var s := OneBlock(false, start, x, Some(start + 1));
    Then(s, Tick(1), block);
    Replaces(s.(clock := start + 1), x);
  }

  /** The second call, on a store that does not say what it replaces. */
  lemma Replaces(s: State, x: string)
    requires !s.replacer && x in s.list && !Blocked(s, x) && |s.procs| == 1
    ensures var t := Run(s, BlockSteps(1, x, None));
            && t.procs == s.procs + [Done(true, true)] && t.trail == s.trail + [Placed(Plain(x, s.clock, None), None)]
            && t.left == s.left + [Departure(s.list[x], ByReplacement(1, |s.placed|), s.clock, |s.trail|)]
  {
    var b := Plain(x, s.clock, None);
    RunFour(s, Begin(x, None), Do(1, true), Do(1, true), Do(1, true));
    var s1 := Apply(s, Begin(x, None));
    Validates(s1, s.procs, x, None);
    var s2 := Apply(s1, Do(1, true));
    PlacesOver(s2, s.procs, b);
    Records(Apply(s2, Do(1, true)), s.procs, |s.placed|);
  }

  lemma PlacesOver(s: State, procs: seq<Proc>, b: Block)
    requires s.procs == procs + [Placing(BlockCall, b)] && b.until.None? && b.subject in s.list
    requires !s.replacer && !Blocked(s, b.subject)
    ensures var gone := Departure(s.list[b.subject], ByReplacement(|procs|, |s.placed|), s.clock, |s.trail|);
            Apply(s, Do(|procs|, true)) ==
            s.(list := s.list[b.subject := |s.placed|], placed := s.placed + [b], left := s.left + [gone],
               procs := procs + [PlaceRecording(BlockCall, |s.placed|, None)])
  {
    LastMoves(procs, Placing(BlockCall, b), PlaceRecording(BlockCall, |s.placed|, None));
    assert (s.list - {b.subject})[b.subject := |s.placed|] == s.list[b.subject := |s.placed|];
  }
}
