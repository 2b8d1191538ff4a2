/** Whole runs of a gateway and its requesters: what an answer says of the trail,
    and a run in which it denies a row that is there. */
module ControlRuns {
  import opened GoText
  import opened Service
  import opened Answers
  import opened Control
  import R = Reload

  /** Requests are filed and abandoned, signals arrive, the gateway restarts. */
  datatype Happening =
    | Files(kind: Kind, target: string, actor: string, tag: Bytes)
    | Abandons(ids: set<int>)
    | Rings(world: World, readable: bool)
    | Restarts(readable: bool)

  method Happen(s: Serve, h: Happening)
    requires s.Valid()
    modifies s, s.svc, s.stack
    ensures s.Valid() && old(s.calls) <= s.calls && Keeps(old(s.answers), s.answers)
  {
    match h
    case Files(kind, target, actor, tag) => var _ := s.Submit(kind, target, actor, tag);
    case Abandons(ids) => s.Abandon(ids);
    case Rings(world, readable) => var _, _ := s.HandleControl(world, readable);
    case Restarts(readable) => s.Announce(readable);
  }

  /** Over every run, with any port failing: an answer once given stands; a row
      of an answered request is on the trail exactly when its answer says
      recorded or an earlier finish wrote one; for an answer serve gave, exactly
      when it says recorded or a finish whose answer the store did not take wrote
      one; and while no write to the store fails, exactly when it says recorded. */
  method RunAll(s: Serve, script: seq<Happening>)
    requires s.Valid()
    modifies s, s.svc, s.stack
    ensures s.Valid() && Keeps(old(s.answers), s.answers)
    ensures forall id <- s.answers ::
              OnTrail(id, s.calls) <==> s.answers[id].recorded || WroteUnanswered(id, s.giver, s.calls)
    ensures forall id <- s.giver ::
              OnTrail(id, s.calls) <==> s.answers[id].recorded || WroteAndLost(id, s.calls, s.lost)
    ensures s.hasControl && s.Reliable() ==>
              forall id <- s.giver :: s.answers[id].recorded <==> OnTrail(id, s.calls)
  {
    var i := 0;
    while i < |script|
      invariant 0 <= i <= |script| && s.Valid() && Keeps(old(s.answers), s.answers)
    {
      Happen(s, script[i]);
      i := i + 1;
    }
    forall id <- s.answers
      ensures OnTrail(id, s.calls) <==> s.answers[id].recorded || WroteUnanswered(id, s.giver, s.calls)
    {
      OnTrailExactlyWhen(s.answers, s.giver, s.calls, s.svc.trail, id);
    }
    forall id <- s.giver
      ensures OnTrail(id, s.calls) <==> s.answers[id].recorded || WroteAndLost(id, s.calls, s.lost)
    {
      OnTrailUnlessLost(s.answers, s.giver, s.calls, s.svc.trail, s.lost, id);
    }
  }

  /** The second thing asked of the trail fails: the clock and a row, then the
      clock and no row. */
  function TrailFaults(i: nat): Fault { if i == 3 then Broke else Fine }

  /** The second thing asked of the store fails: the request is filed, and its
      first answer is lost. */
  function StoreFaults(i: nat): Fault { if i == 1 then Broke else Fine }

  function Steady(i: nat): nat { 0 }

  /** What a signal would take is this one reload. */
  ghost predicate Pending(s: Serve, r: Request)
    reads s
  {
    && s.filed == [r] && Taken(true, s.filed, s.answers) == [r] && r.kind == Reload && r.id > 0
    && r.id !in s.giver && r.id !in s.answers
  }

  ghost predicate SetUp(s: Serve)
    reads s
  {
    s.hasControl && s.audited && s.svc.faults == TrailFaults && s.storeFaults == StoreFaults
  }

  /** The first signal's answer to it, the file not loading: the row is written
      and the answer lost. */
  method TheFirst(s: Serve, r: Request)
    requires s.Valid() && Pending(s, r) && SetUp(s)
    requires s.svc.step == 0 && s.asked == 1 && s.calls == [] && s.svc.trail == [] && s.lost == {}
    modifies s`answers, s`asked, s`giver, s`calls, s`lost, s.svc
    ensures s.Valid() && Pending(s, r) && s.svc.step == 2 && s.asked == 2
    ensures s.calls == [Finished(r, Some(0))] && |s.svc.trail| == 1 && RowIs(s.svc.trail[0], r)
  {
    var row, _, _ := s.Finish(r, Refused, Some(ByReload(R.InvalidConfig)), []);
    TriedOnce(TrailFaults, 1, s.svc.step);
    TriedOnce(StoreFaults, 1, s.asked);
    assert RowIs(row, r);
  }

  /** The second signal's: the row is lost and the answer stored. */
  method TheSecond(s: Serve, r: Request)
    requires s.Valid() && Pending(s, r) && SetUp(s)
    requires s.svc.step == 2 && s.asked == 2
    modifies s`answers, s`asked, s`giver, s`calls, s`lost, s.svc
    ensures s.Valid() && s.svc.trail == old(s.svc.trail) && s.calls == old(s.calls) + [Finished(r, None)]
    ensures r.id in s.giver && !s.answers[r.id].recorded && s.answers[r.id].audit.None?
  {
    var row, _, _ := s.Finish(r, Refused, Some(ByReload(R.InvalidConfig)), []);
    TriedOnce(TrailFaults, 3, s.svc.step);
    TriedOnce(StoreFaults, 2, s.asked);
  }

  /** The gateway, and the request filed with it. */
  method FileOne(stack: R.Stack) returns (s: Serve, r: Request)
    requires stack.InForce()
    ensures fresh(s) && fresh(s.svc) && s.Valid() && Pending(s, r) && SetUp(s)
    ensures s.svc.step == 0 && s.asked == 1 && s.calls == [] && s.svc.trail == [] && s.lost == {}
  {
    var svc := new Service(TrailFaults, Steady, true, 1, map[], map[]);
    s := new Serve(svc, stack, true, true, StoreFaults);
    var filed := s.Submit(Reload, "", "(operator:ana)", []);
    TriedOnce(StoreFaults, 0, s.asked);
    r := filed.value;
    assert PendingOf(s.filed, s.answers.Keys) == [r];
  }

  /** One reload request, taken by two signals. The first writes its row and
      cannot store its answer, so it stays pending; the second cannot write a row
      and stores its answer. The answer then says the request was not recorded,
      and its row is on the trail. */
  method ARowMayBeDenied(stack: R.Stack) returns (s: Serve, r: Request)
    requires stack.InForce()
    ensures s.Valid() && s.filed == [r] && r.kind == Reload
    ensures r.id in s.giver && !s.answers[r.id].recorded && s.answers[r.id].audit.None?
    ensures OnTrail(r.id, s.calls) && |s.svc.trail| == 1 && RowIs(s.svc.trail[0], r)
  {
    s, r := FileOne(stack);
    TheFirst(s, r);
    TheSecond(s, r);
    assert WroteFor(s.calls[0], r.id);
  }
}
