/** The operator's requests to a running gateway: taken on SIGHUP, done, and
    answered on their own rows (cmd/mcp-gateway/serve_control.go). */
module Control {
  import opened GoText
  import opened Utf8
  import opened Blocks
  import opened Service
  import opened Answers
  import R = Reload

  // ---- The reason of a row ---------------------------------------------------------

  const MAX_RELOAD_REASON: nat := 4000
  const TRUNCATED: Bytes := Ascii(" ... (truncated)")

  /** Cutting valid UTF-8 before a byte that starts a code point leaves valid
      UTF-8. */
  lemma {:induction false} CutAtARuneStart(s: Bytes, n: nat)
    requires Valid(s) && n <= |s| && (n < |s| ==> !Cont(s[n]) || n == 0)
    ensures Valid(s[..n])
    decreases |s|
  {
    if n > 0 {
      var m := Size(s);
      assert n >= m;
      CutAtARuneStart(s[m..], n - m);
      assert s[..n] == s[..m] + s[m..n] && s[m..][..n - m] == s[m..n];
      assert s[..n][m..] == s[m..n];
    }
  }

  /** In valid UTF-8 a code point starts within three bytes. */
  lemma {:induction false} AStartIsNear(s: Bytes, n: nat) returns (k: nat)
    requires Valid(s) && n < |s|
    ensures n - 3 <= k <= n && !Cont(s[k])
    decreases |s|
  {
    var m := Size(s);
    if n < m {
      k := 0;
    } else {
      k := AStartIsNear(s[m..], n - m);
      k := k + m;
    }
  }

  predicate TooLong(reason: Bytes) { |reason| > MAX_RELOAD_REASON + 100 }

  /** The reason as it is, or its first n bytes and a note that it was cut: at a
      code point, as near the bound as one starts. */
  predicate Fits(reason: Bytes, n: nat, out: Bytes) {
    if !TooLong(reason) then out == reason
    else
      && n <= MAX_RELOAD_REASON && out == reason[..n] + TRUNCATED
      && (n == 0 || !Cont(reason[n]))
      && (forall k :: n < k <= MAX_RELOAD_REASON ==> Cont(reason[k]))
  }

  /** A reason that is valid UTF-8 is cut into valid UTF-8, at most three bytes
      short of the bound. */
  lemma CutsWell(reason: Bytes, n: nat, out: Bytes)
    requires Valid(reason) && TooLong(reason) && Fits(reason, n, out)
    ensures Valid(reason[..n]) && MAX_RELOAD_REASON - 3 <= n <= MAX_RELOAD_REASON
  {
    var k := AStartIsNear(reason, MAX_RELOAD_REASON);
    CutAtARuneStart(reason, n);
  }

  /** The tag, the reason, and the bound on both together. */
  method Truncate(reason: Bytes) returns (out: Bytes, n: nat)
    ensures Fits(reason, n, out)
  {
    if !TooLong(reason) { return reason, |reason|; }
    n := MAX_RELOAD_REASON;
    while n > 0 && Cont(reason[n])
      invariant n <= MAX_RELOAD_REASON
      invariant forall k :: n < k <= MAX_RELOAD_REASON ==> Cont(reason[k])
    {
      n := n - 1;
    }
    out := reason[..n] + TRUNCATED;
  }

  // ---- The row of a request -------------------------------------------------------

  const SIGNAL: Request := Request(0, Reload, "", "(gateway)", Ascii("[signal]"))

  function FullReason(r: Request, outcome: Outcome, text: Bytes): Bytes {
    var said := if text != [] then text else if outcome == Applied then Ascii("applied") else Ascii("refused");
    if r.tag == [] then said else r.tag + Ascii(" ") + said
  }

  /** The operator row of a request: who asked, what, on what, and how it went. */
  predicate RowSays(row: Row, r: Request, outcome: Outcome, text: Bytes, n: nat) {
    RowIs(row, r) && row.reason.applied == (outcome == Applied)
    && Fits(FullReason(r, outcome, text), n, row.reason.text)
  }

  /** What the outside makes of the requests of one signal, by their place in
      the list. */
  datatype RedialAnswer = Dropped(wasConnected: bool) | RefusedRedial | QuotaHolds | GatewayClosed
  datatype World = World(reloads: nat -> R.Event, redials: nat -> RedialAnswer, texts: nat -> Bytes,
                         roundStops: bool, rest: nat, abandons: nat -> set<int>)

  /** Answered at once, accepted for the round, or met a closed gateway. */
  datatype Fate = Done(outcome: Outcome) | Accepted | Closes

  function FateOf(w: World, planOk: R.Section -> bool, r: Request, i: nat): Fate {
    match r.kind
    case Reload => Done(if R.Judge(planOk, w.reloads(i)).None? then Applied else Refused)
    case Unknown(_) => Done(Refused)
    case Redial =>
      match w.redials(i)
      case Dropped(_) => Accepted
      case GatewayClosed => Closes
      case RefusedRedial => Done(Refused)
      case QuotaHolds => Done(Refused)
  }

  function FatesOf(w: World, planOk: R.Section -> bool, p: seq<Request>): seq<Fate> {
    seq(|p|, i requires 0 <= i < |p| => FateOf(w, planOk, p[i], i))
  }

  ghost predicate AreFates(w: World, planOk: R.Section -> bool, p: seq<Request>, fates: seq<Fate>) {
    |fates| == |p| && forall i :: 0 <= i < |p| ==> fates[i] == FateOf(w, planOk, p[i], i)
  }

  /** The first n requests that are answered at once, and that are accepted. */
  function AtOnce(p: seq<Request>, fates: seq<Fate>, n: nat): seq<Call>
    requires n <= |p| == |fates|
  {
    if n == 0 then []
    else if fates[n - 1].Done? then AtOnce(p, fates, n - 1) + [Finished(p[n - 1], None)]
    else AtOnce(p, fates, n - 1)
  }

  function AfterRound(p: seq<Request>, fates: seq<Fate>, n: nat): seq<Call>
    requires n <= |p| == |fates|
  {
    if n == 0 then []
    else if fates[n - 1].Accepted? then AfterRound(p, fates, n - 1) + [Finished(p[n - 1], None)]
    else AfterRound(p, fates, n - 1)
  }

  lemma AtOnceGrows(before: seq<Call>, p: seq<Request>, fates: seq<Fate>, n: nat)
    requires n < |p| == |fates|
    ensures before + AtOnce(p, fates, n + 1) ==
            if fates[n].Done? then before + AtOnce(p, fates, n) + [Finished(p[n], None)]
            else before + AtOnce(p, fates, n)
  {
    assert fates[n].Done? ==> AtOnce(p, fates, n + 1) == AtOnce(p, fates, n) + [Finished(p[n], None)];
  }

  lemma AfterRoundGrows(before: seq<Call>, p: seq<Request>, fates: seq<Fate>, n: nat)
    requires n < |p| == |fates|
    ensures before + AfterRound(p, fates, n + 1) ==
            if fates[n].Accepted? then before + AfterRound(p, fates, n) + [Finished(p[n], None)]
            else before + AfterRound(p, fates, n)
  {
    assert fates[n].Accepted? ==> AfterRound(p, fates, n + 1) == AfterRound(p, fates, n) + [Finished(p[n], None)];
  }

  predicate NeedsRound(fates: seq<Fate>, n: nat)
    requires n <= |fates|
  {
    exists k :: 0 <= k < n && (fates[k] == Accepted || fates[k] == Done(Applied))
  }

  /** The calls without the places of their rows. */
  function Order(calls: seq<Call>): seq<Call> {
    seq(|calls|, k requires 0 <= k < |calls| => if calls[k].Finished? then Finished(calls[k].r, None) else RoundRan)
  }

  function Finishes(p: seq<Request>): seq<Call> { seq(|p|, k requires 0 <= k < |p| => Finished(p[k], None)) }

  /** Exactly one finish a request: between them the two passes are the list. */
  lemma {:induction false} EachIsFinishedOnce(p: seq<Request>, fates: seq<Fate>, n: nat)
    requires n <= |p| == |fates| && forall k :: 0 <= k < n ==> fates[k] != Closes
    ensures multiset(AtOnce(p, fates, n)) + multiset(AfterRound(p, fates, n)) == multiset(Finishes(p[..n]))
  {
    if n > 0 {
      var k := n - 1;
      EachIsFinishedOnce(p, fates, k);
      FinishesSnoc(p, k);
      OneTurn(p, fates, k);
    } else {
      assert Finishes(p[..0]) == [];
    }
  }

  lemma FinishesSnoc(p: seq<Request>, k: nat)
    requires k < |p|
    ensures Finishes(p[..k + 1]) == Finishes(p[..k]) + [Finished(p[k], None)]
    ensures multiset(Finishes(p[..k + 1])) == multiset(Finishes(p[..k])) + multiset{Finished(p[k], None)}
  {
    assert Finishes(p[..k + 1]) == Finishes(p[..k]) + [Finished(p[k], None)];
  }

  lemma OneTurn(p: seq<Request>, fates: seq<Fate>, k: nat)
    requires k < |p| == |fates| && fates[k] != Closes
    ensures multiset(AtOnce(p, fates, k + 1)) + multiset(AfterRound(p, fates, k + 1)) ==
            multiset(AtOnce(p, fates, k)) + multiset(AfterRound(p, fates, k)) + multiset{Finished(p[k], None)}
  {
    var x := Finished(p[k], None);
    if fates[k].Done? {
      assert AtOnce(p, fates, k + 1) == AtOnce(p, fates, k) + [x]
             && AfterRound(p, fates, k + 1) == AfterRound(p, fates, k);
    } else {
      assert AtOnce(p, fates, k + 1) == AtOnce(p, fates, k)
             && AfterRound(p, fates, k + 1) == AfterRound(p, fates, k) + [x];
    }
  }

  /** An accepted request is not finished before the round. */
  lemma {:induction false} AcceptedAreAnsweredAfter(p: seq<Request>, fates: seq<Fate>, n: nat, k: nat)
    requires n <= |p| == |fates| && k < n && fates[k] == Accepted
    requires forall i, j :: 0 <= i < j < |p| ==> p[i] != p[j]
    ensures Finished(p[k], None) !in AtOnce(p, fates, n) && Finished(p[k], None) in AfterRound(p, fates, n)
    ensures NeedsRound(fates, n)
  {
    OnlyTheFirst(p, fates, n, k);
    if k < n - 1 { AcceptedAreAnsweredAfter(p, fates, n - 1, k); }
  }

  lemma {:induction false} OnlyTheFirst(p: seq<Request>, fates: seq<Fate>, n: nat, k: nat)
    requires n <= |p| == |fates| && k < |p| && fates[k] == Accepted
    requires forall i, j :: 0 <= i < j < |p| ==> p[i] != p[j]
    ensures Finished(p[k], None) !in AtOnce(p, fates, n)
  {
    if n > 0 {
      OnlyTheFirst(p, fates, n - 1, k);
      if fates[n - 1].Done? { assert p[n - 1] != p[k]; }
    }
  }

  lemma OrderConcat(a: seq<Call>, b: seq<Call>)
    ensures Order(a + b) == Order(a) + Order(b)
  { }

  // ---- One list of requests ----------------------------------------------------------

  /** What one signal takes: distinct requests, none of them answered. */
  ghost predicate Fresh(p: seq<Request>, giver: map<int, nat>) {
    && (forall j, k :: 0 <= j < k < |p| ==> p[j].id != p[k].id)
    && (forall k :: 0 <= k < |p| ==> p[k].id !in giver)
  }

  /** The requests of p that the first pass has not reached, or has accepted,
      are still unanswered by serve. */
  ghost predicate Open(p: seq<Request>, fates: seq<Fate>, n: nat, giver: map<int, nat>)
    requires n <= |p| == |fates|
  {
    && (forall j, k :: 0 <= j < k < |p| ==> p[j].id != p[k].id)
    && (forall k :: 0 <= k < |p| && (k < n ==> fates[k].Accepted?) ==> p[k].id !in giver)
  }

  lemma OpenOn(p: seq<Request>, fates: seq<Fate>, n: nat, giver: map<int, nat>, after: map<int, nat>)
    requires n < |p| == |fates| && Open(p, fates, n, giver)
    requires after.Keys <= giver.Keys + (if fates[n].Done? then {p[n].id} else {})
    ensures fates[n] != Closes ==> Open(p, fates, n + 1, after)
    ensures fates[n] == Closes ==> Open(p, fates, n, after)
  { }

  /** The requests of p from n on are still unanswered by serve, those not
      accepted aside. */
  ghost predicate OpenLate(p: seq<Request>, fates: seq<Fate>, n: nat, giver: map<int, nat>)
    requires n <= |p| == |fates|
  {
    && (forall j, k :: 0 <= j < k < |p| ==> p[j].id != p[k].id)
    && (forall k :: n <= k < |p| && fates[k].Accepted? ==> p[k].id !in giver)
  }

  /** The requests of a signal: what is pending, or a reload of the signal's own. */
  function Taken(readable: bool, filed: seq<Request>, answers: map<int, Answer>): seq<Request> {
    var p := if readable then PendingOf(filed, answers.Keys) else [];
    if p == [] then [SIGNAL] else p
  }

  lemma TakenIsFresh(readable: bool, filed: seq<Request>, answers: map<int, Answer>, giver: map<int, nat>)
    requires InOrder(filed) && giver.Keys <= answers.Keys && 0 !in giver
    ensures Fresh(Taken(readable, filed, answers), giver)
  {
    var p := PendingOf(filed, answers.Keys);
    PendingAreUnanswered(filed, answers.Keys);
    forall k | 0 <= k < |p| ensures p[k].id !in giver { assert p[k] in p; }
  }

  /** What the store takes for a request. */
  predicate Fileable(kind: Kind, target: string, actor: string) {
    actor != "" && match kind
                   case Reload => target == ""
                   case Redial => target != ""
                   case Unknown(_) => false
  }

  /** Those of the first n that were accepted, or answered at once, have their
      answer in the store. */
  ghost predicate AnsweredOf(p: seq<Request>, fates: seq<Fate>, n: nat, accepted: bool, answers: map<int, Answer>)
    requires n <= |p| == |fates|
  {
    forall k :: 0 <= k < n && (if accepted then fates[k].Accepted? else fates[k].Done?) && p[k].id != 0 ==>
      p[k].id in answers
  }

  lemma AnsweredOn(p: seq<Request>, fates: seq<Fate>, n: nat, accepted: bool, answers: map<int, Answer>,
                   after: map<int, Answer>)
    requires n < |p| == |fates| && AnsweredOf(p, fates, n, accepted, answers) && Keeps(answers, after)
    requires (if accepted then fates[n].Accepted? else fates[n].Done?) && p[n].id != 0 ==> p[n].id in after
    ensures AnsweredOf(p, fates, n, accepted, after) && AnsweredOf(p, fates, n + 1, accepted, after)
  { }

  lemma KeepsOn(given: map<int, Answer>, answers: map<int, Answer>, after: map<int, Answer>)
    requires Keeps(given, answers) && Keeps(answers, after)
    ensures Keeps(given, after)
  { }

  /** The first pass has dealt with the first n: what it has kept of what was
      there before it, and done. */
  ghost predicate Dealt(p: seq<Request>, fates: seq<Fate>, n: nat, before: seq<Call>, calls: seq<Call>,
                        given: map<int, Answer>, answers: map<int, Answer>, giver: map<int, nat>, all: bool)
    requires n <= |p| == |fates|
  {
    && before <= calls && Keeps(given, answers) && (forall k :: 0 <= k < n ==> fates[k] != Closes)
    && Order(calls) == Order(before) + AtOnce(p, fates, n) && Open(p, fates, n, giver)
    && (all ==> AnsweredOf(p, fates, n, false, answers))
  }

  lemma DealtNone(p: seq<Request>, fates: seq<Fate>, calls: seq<Call>, answers: map<int, Answer>,
                  giver: map<int, nat>, all: bool)
    requires |p| == |fates| && Fresh(p, giver)
    ensures Dealt(p, fates, 0, calls, calls, answers, answers, giver, all)
  {
    assert Order(calls) + [] == Order(calls);
  }

  lemma DealtOn(p: seq<Request>, fates: seq<Fate>, n: nat, before: seq<Call>, calls: seq<Call>, more: seq<Call>,
                given: map<int, Answer>, answers: map<int, Answer>, after: map<int, Answer>,
                giver: map<int, nat>, givers: map<int, nat>, all: bool)
    requires n < |p| == |fates| && Dealt(p, fates, n, before, calls, given, answers, giver, all)
    requires calls <= more && Keeps(answers, after)
    requires Order(more) == (if fates[n].Done? then Order(calls) + [Finished(p[n], None)] else Order(calls))
    requires givers.Keys <= giver.Keys + (if fates[n].Done? then {p[n].id} else {})
    requires all && fates[n].Done? && p[n].id != 0 ==> p[n].id in after
    ensures Dealt(p, fates, if fates[n] == Closes then n else n + 1, before, more, given, after, givers, all)
  {
    AtOnceGrows(Order(before), p, fates, n);
    OpenOn(p, fates, n, giver, givers);
    KeepsOn(given, answers, after);
    if all { AnsweredOn(p, fates, n, false, answers, after); }
  }

  class Serve {
    const svc: Service
    const stack: R.Stack
    const audited: bool
    const hasControl: bool
    /** What each write to the control store meets, apart from all else. */
    const storeFaults: nat -> Fault
    /** The control store: the requests filed, and the answers to those done. */
    var filed: seq<Request>
    var answers: map<int, Answer>
    var asked: nat
    ghost var giver: map<int, nat>
    ghost var calls: seq<Call>
    ghost var lost: set<nat>

    constructor (svc: Service, stack: R.Stack, audited: bool, hasControl: bool, storeFaults: nat -> Fault)
      requires svc.Valid() && stack.InForce()
      ensures Valid() && this.svc == svc && this.stack == stack && this.audited == audited
              && this.hasControl == hasControl && this.storeFaults == storeFaults
      ensures filed == [] && answers == map[] && asked == 0 && giver == map[] && calls == [] && lost == {}
    {
      this.svc, this.stack, this.audited, this.hasControl := svc, stack, audited, hasControl;
      this.storeFaults, this.filed, this.answers, this.asked := storeFaults, [], map[], 0;
      this.giver, this.calls, this.lost := map[], [], {};
    }

    /** What holds between the row of a finish and its answer, too. */
    ghost predicate Sound()
      reads this, svc, stack
    {
      && svc.Valid() && stack.InForce() && InOrder(filed)
      && Kept(answers, giver, calls, svc.trail) && Stored(answers, giver, calls, lost)
    }

    /** No write to the control store fails, now or ever. */
    ghost predicate Reliable() { FineFrom(storeFaults, 0) }

    ghost predicate Valid()
      reads this, svc, stack
    {
      Sound() && (hasControl && Reliable() ==> lost == {})
    }

    /** No port fails from here on. */
    ghost predicate Healthy()
      reads `asked, svc
    {
      svc.Healthy() && FineFrom(storeFaults, asked)
    }

    /** Submit: a request filed by another process, under a new id, unless the
        store refuses it or fails. */
    method Submit(kind: Kind, target: string, actor: string, tag: Bytes) returns (r: Option<Request>)
      requires Valid()
      modifies `filed, `asked
      ensures Valid()
      ensures r.Some? ==> && Fileable(kind, target, actor) && filed == old(filed) + [r.value]
                          && r.value.id > 0 && r.value == Request(r.value.id, kind, target, actor, tag)
      ensures r.None? ==> filed == old(filed)
      ensures Fileable(kind, target, actor) ==>
                Tried(storeFaults, old(asked), asked) && (r.Some? <==> LastOf(storeFaults, asked) == Fine)
    {
      if !Fileable(kind, target, actor) { return None; }
      var f;
      f, asked := RetryOn(storeFaults, asked);
      if !f.Fine? { return None; }
      r := Some(Request(if filed == [] then 1 else filed[|filed| - 1].id + 1, kind, target, actor, tag));
      filed := filed + [r.value];
    }

    /** Abandon, by requesters that could not ring: those of the requests that
        are filed and not answered yet are refused. */
    method Abandon(ids: set<int>)
      requires Valid()
      modifies `answers
      ensures Valid() && Keeps(old(answers), answers)
      ensures answers == Abandoned(old(answers), set r <- filed | r.id in ids :: r.id)
    {
      KeptByAbandoning(answers, giver, calls, svc.trail, set r <- filed | r.id in ids :: r.id);
      answers := Abandoned(answers, set r <- filed | r.id in ids :: r.id);
    }

    /** The row first. */
    method RecordRequest(r: Request, outcome: Outcome, text: Bytes) returns (row: Row, ok: bool, ghost n: nat)
      requires svc.Valid()
      modifies svc`clock, svc`step, svc`trail
      ensures svc.Valid() && RowSays(row, r, outcome, text, n)
      ensures svc.trail == old(svc.trail) + Listed(row, ok) && (ok ==> audited)
      ensures audited ==> Tried(svc.faults, old(svc.step) + 1, svc.step) && ok == (LastOf(svc.faults, svc.step) == Fine)
      ensures old(svc.Healthy()) ==> svc.Healthy() && ok == audited
    {
      var now := svc.Now();
      var reason, kept := Truncate(FullReason(r, outcome, text));
      n := kept;
      row := Row(ActorOf(r), ToolOf(r), now, OfRequest(TargetOf(r), outcome == Applied, reason));
      ok := false;
      if audited { ok := svc.Append(row); }
    }

    /** Finish in the store: the first answer stands. */
    method StoreAnswer(r: Request, answer: Answer) returns (ok: bool)
      modifies this`answers, this`asked
      ensures answers == if ok && r.id !in old(answers) then old(answers)[r.id := answer] else old(answers)
      ensures Tried(storeFaults, old(asked), asked) && ok == (LastOf(storeFaults, asked) == Fine)
    {
      var f;
      f, asked := RetryOn(storeFaults, asked);
      ok := f.Fine?;
      if ok && r.id !in answers { answers := answers[r.id := answer]; }
    }

    /** What one finish leaves: the call, its row on the trail or not, and its
        answer in the store or not. */
    twostate predicate Finishing(r: Request, outcome: Outcome, why: Option<Why>, row: Row, ok: bool)
      reads this, svc
    {
      && calls == old(calls) + [Finished(r, if ok then Some(|old(svc.trail)|) else None)]
      && svc.trail == old(svc.trail) + Listed(row, ok) && (ok ==> audited)
      && (if hasControl && r.id != 0 && r.id in answers && r.id !in old(answers)
          then answers == old(answers)[r.id := Answer(outcome, why, ok, if ok then Some(row) else None)]
               && giver == old(giver)[r.id := |old(calls)|]
          else answers == old(answers) && giver == old(giver))
    }

    /** What decides a finish: the row is written, and the answer stored, exactly
        when the last attempt at it, of at most four, met no fault. */
    twostate predicate Decided(r: Request, ok: bool)
      reads this, svc
    {
      && (audited ==> Tried(svc.faults, old(svc.step) + 1, svc.step) && ok == (LastOf(svc.faults, svc.step) == Fine))
      && lost == (if |old(calls)| in lost then old(lost) + {|old(calls)|} else old(lost))
      && (r.id == 0 ==> |old(calls)| !in lost)
      && (r.id != 0 && !hasControl ==> |old(calls)| in lost)
      && (r.id != 0 && hasControl ==>
            && Tried(storeFaults, old(asked), asked)
            && (|old(calls)| in lost <==> LastOf(storeFaults, asked) != Fine)
            && (|old(calls)| !in lost ==> r.id in answers))
    }

    /** The row of a finish, which is on the record as called from then on. */
    method RecordCall(r: Request, outcome: Outcome, text: Bytes) returns (row: Row, ok: bool, ghost n: nat)
      requires Sound() && r.id !in giver
      modifies `calls, `lost, svc`clock, svc`step, svc`trail
      ensures Sound() && RowSays(row, r, outcome, text, n)
      ensures svc.trail == old(svc.trail) + Listed(row, ok) && (ok ==> audited)
      ensures calls == old(calls) + [Finished(r, if ok then Some(|old(svc.trail)|) else None)]
      ensures lost == (if r.id == 0 then old(lost) else old(lost) + {|old(calls)|})
      ensures lost - {|old(calls)|} == old(lost)
      ensures audited ==> Tried(svc.faults, old(svc.step) + 1, svc.step) && ok == (LastOf(svc.faults, svc.step) == Fine)
      ensures old(svc.Healthy()) ==> svc.Healthy() && ok == audited
    {
      ghost var trail := svc.trail;
      row, ok, n := RecordRequest(r, outcome, text);
      ghost var call := Finished(r, if ok then Some(|trail|) else None);
      KeptByFinishing(answers, giver, calls, trail, r, call.row, svc.trail);
      StoredByFinishing(answers, giver, calls, lost, call);
      lost := if r.id == 0 then lost else lost + {|calls|};
      calls := calls + [call];
    }

    /** finish: the operator row of r, then r's answer, which says recorded
        exactly when that row was written. */
    method Finish(r: Request, outcome: Outcome, why: Option<Why>, text: Bytes)
      returns (row: Row, ok: bool, ghost n: nat)
      requires Valid() && r.id !in giver
      modifies this`answers, this`asked, this`giver, this`calls, this`lost, svc
      ensures Valid() && RowSays(row, r, outcome, text, n) && Finishing(r, outcome, why, row, ok)
      ensures Decided(r, ok)
      ensures old(Healthy()) ==> Healthy() && ok == audited && (r.id != 0 && hasControl ==> r.id in answers)
    {
      row, ok, n := RecordCall(r, outcome, text);
      AnswerLast(r, Answer(outcome, why, ok, if ok then Some(row) else None));
    }

    /** The answer of the finish that was just called, if there is a request and
        a store to answer it in. */
    method AnswerLast(r: Request, answer: Answer)
      requires Sound() && r.id !in giver && calls != [] && (r.id != 0 ==> |calls| - 1 in lost)
      requires calls[|calls| - 1].Finished? && calls[|calls| - 1].r == r
      requires Gave(answer, r.id, calls[|calls| - 1], svc.trail)
      modifies this`answers, this`asked, this`giver, this`lost
      ensures Sound() && lost == (if |calls| - 1 in lost then old(lost) else old(lost) - {|calls| - 1})
      ensures if hasControl && r.id != 0 && r.id in answers && r.id !in old(answers)
              then answers == old(answers)[r.id := answer] && giver == old(giver)[r.id := |calls| - 1]
              else answers == old(answers) && giver == old(giver)
      ensures !(hasControl && r.id != 0) ==> lost == old(lost) && asked == old(asked)
      ensures hasControl && r.id != 0 ==>
                && Tried(storeFaults, old(asked), asked)
                && (|calls| - 1 in lost <==> LastOf(storeFaults, asked) != Fine)
                && (|calls| - 1 !in lost ==> r.id in answers)
    {
      if r.id == 0 || !hasControl { return; }
      ghost var was, last := answers, |calls| - 1;
      var stored := StoreAnswer(r, answer);
      if stored {
        KeptByStoring(was, giver, calls, svc.trail, lost, answer);
        giver, lost := Giver(was, giver, r.id, last), lost - {last};
      }
    }

    /** finish, as the order of calls sees it. */
    method Give(r: Request, outcome: Outcome, why: Option<Why>, text: Bytes)
      requires Valid() && r.id !in giver
      modifies this`answers, this`asked, this`giver, this`calls, this`lost, svc
      ensures Valid() && old(calls) <= calls && Keeps(old(answers), answers) && giver.Keys <= old(giver.Keys) + {r.id}
      ensures Order(calls) == Order(old(calls)) + [Finished(r, None)]
      ensures old(Healthy()) ==> Healthy() && (r.id != 0 && hasControl ==> r.id in answers)
    {
      ghost var before := calls;
      var _, _, _ := Finish(r, outcome, why, text);
      OrderConcat(before, [calls[|before|]]);
    }

    /** What is tried of a request, before any answer. */
    method Try(w: World, r: Request, i: nat) returns (fate: Fate, why: Option<Why>)
      requires Valid()
      modifies stack
      ensures Valid() && fate == FateOf(w, stack.planOk, r, i)
      ensures stack.cfg == (if r.kind == Reload then R.After(stack.planOk, old(stack.cfg), w.reloads(i))
                            else old(stack.cfg))
      ensures fate == Done(Refused) <==> why.Some?
    {
      fate, why := FateOf(w, stack.planOk, r, i), None;
      match r.kind {
        case Reload =>
          var refusal := stack.ReloadConfig(w.reloads(i));
          why := if refusal.None? then None else Some(ByReload(refusal.value));
        case Unknown(_) => why := Some(UnknownKind);
        case Redial =>
          if fate.Done? { why := Some(if w.redials(i) == QuotaHolds then HeldBack else NotServable); }
      }
    }

    /** One request of the first pass: answered at once, unless it is a redial
        that the gateway accepted or the gateway is closed. Requesters may
        abandon theirs at any moment before. */
    method Turn(w: World, r: Request, i: nat) returns (fate: Fate)
      requires Valid() && r.id !in giver
      modifies this`answers, this`asked, this`giver, this`calls, this`lost, svc, stack
      ensures Valid() && fate == FateOf(w, stack.planOk, r, i)
      ensures Order(calls) == (if fate.Done? then Order(old(calls)) + [Finished(r, None)] else Order(old(calls)))
      ensures old(calls) <= calls && Keeps(old(answers), answers)
      ensures giver.Keys <= old(giver.Keys) + (if fate.Done? then {r.id} else {})
      ensures stack.cfg == (if r.kind == Reload then R.After(stack.planOk, old(stack.cfg), w.reloads(i))
                            else old(stack.cfg))
      ensures old(Healthy()) ==> Healthy() && (fate.Done? && r.id != 0 && hasControl ==> r.id in answers)
    {
      var why;
      Abandon(w.abandons(i));
      fate, why := Try(w, r, i);
      if fate.Done? { Give(r, fate.outcome, why, w.texts(i)); }
    }

    ghost predicate PassTo(p: seq<Request>, fates: seq<Fate>, n: nat, before: seq<Call>, given: map<int, Answer>,
                           healthy: bool, rest: map<string, R.Section>)
      requires n <= |p| == |fates|
      reads this, svc, stack
    {
      && Valid() && stack.cfg.rest == rest && (healthy ==> Healthy())
      && Dealt(p, fates, n, before, calls, given, answers, giver, healthy && hasControl)
    }

    /** The first pass, up to the end of the list or a closed gateway. */
    method FirstPass(w: World, p: seq<Request>, ghost fates: seq<Fate>) returns (n: nat)
      requires Valid() && Fresh(p, giver) && AreFates(w, stack.planOk, p, fates)
      modifies this`answers, this`asked, this`giver, this`calls, this`lost, svc, stack
      ensures n <= |p| && (n < |p| ==> fates[n] == Closes)
      ensures PassTo(p, fates, n, old(calls), old(answers), old(Healthy()), old(stack.cfg.rest))
    {
      DealtNone(p, fates, calls, answers, giver, Healthy() && hasControl);
      n := 0;
      while n < |p|
        invariant n <= |p|
        invariant PassTo(p, fates, n, old(calls), old(answers), old(Healthy()), old(stack.cfg.rest))
      {
        var fate := OneOf(w, p, n, fates, old(calls), old(answers), old(Healthy()), old(stack.cfg.rest));
        if fate == Closes { break; }
        n := n + 1;
      }
    }

    method OneOf(w: World, p: seq<Request>, n: nat, ghost fates: seq<Fate>, ghost before: seq<Call>,
                 ghost given: map<int, Answer>, ghost healthy: bool, ghost rest: map<string, R.Section>)
      returns (fate: Fate)
      requires n < |p| == |fates| && AreFates(w, stack.planOk, p, fates)
      requires PassTo(p, fates, n, before, given, healthy, rest)
      modifies this`answers, this`asked, this`giver, this`calls, this`lost, svc, stack
      ensures fate == fates[n]
      ensures PassTo(p, fates, if fate == Closes then n else n + 1, before, given, healthy, rest)
    {
      fate := Turn(w, p[n], n);
      DealtOn(p, fates, n, before, old(calls), calls, given, old(answers), answers, old(giver), giver,
              healthy && hasControl);
    }

    /** The same for the last pass. */
    ghost predicate LateTo(p: seq<Request>, fates: seq<Fate>, n: nat, before: seq<Call>, given: map<int, Answer>,
                           healthy: bool)
      requires n <= |p| == |fates|
      reads this, svc, stack
    {
      && Valid() && before <= calls && Keeps(given, answers)
      && Order(calls) == Order(before) + AfterRound(p, fates, n) && OpenLate(p, fates, n, giver)
      && (healthy ==> Healthy() && (hasControl ==> AnsweredOf(p, fates, n, true, answers)))
    }

    /** The accepted redials, answered in order. */
    method LastPass(w: World, p: seq<Request>, fates: seq<Fate>)
      requires Valid() && |fates| == |p| && OpenLate(p, fates, 0, giver)
      modifies this`answers, this`asked, this`giver, this`calls, this`lost, svc
      ensures LateTo(p, fates, |p|, old(calls), old(answers), old(Healthy()))
    {
      var n := 0;
      while n < |p|
        invariant n <= |p| && LateTo(p, fates, n, old(calls), old(answers), old(Healthy()))
      {
        OneLate(w, p, n, fates, old(calls), old(answers), old(Healthy()));
        n := n + 1;
      }
    }

    method OneLate(w: World, p: seq<Request>, n: nat, fates: seq<Fate>, ghost before: seq<Call>,
                   ghost given: map<int, Answer>, ghost healthy: bool)
      requires n < |p| == |fates| && LateTo(p, fates, n, before, given, healthy)
      modifies this`answers, this`asked, this`giver, this`calls, this`lost, svc
      ensures LateTo(p, fates, n + 1, before, given, healthy)
    {
      Abandon(w.abandons(|p| + n));
      AfterRoundGrows(Order(before), p, fates, n);
      if fates[n].Accepted? { Give(p[n], Applied, None, w.texts(n)); }
      KeepsOn(given, old(answers), answers);
      if healthy && hasControl { AnsweredOn(p, fates, n, true, old(answers), answers); }
    }

    method Round(w: World) returns (stop: bool)
      requires Valid()
      modifies `calls
      ensures Valid() && calls == old(calls) + [RoundRan] && stop == w.roundStops
      ensures Order(calls) == Order(old(calls)) + [RoundRan]
    {
      KeptByARound(answers, giver, calls, svc.trail);
      StoredByARound(answers, giver, calls, lost);
      OrderConcat(calls, [RoundRan]);
      calls := calls + [RoundRan];
      stop := w.roundStops;
    }

    /** announce: before serving, every request a previous process left pending
        is answered, once and in order, as superseded by the restart. */
    method Announce(readable: bool)
      requires Valid()
      modifies this`answers, this`asked, this`giver, this`calls, this`lost, svc
      ensures Valid() && old(calls) <= calls && Keeps(old(answers), answers)
      ensures var p := if hasControl && readable then PendingOf(filed, old(answers).Keys) else [];
              && Order(calls) == Order(old(calls)) + Finishes(p)
              && (old(Healthy()) ==> forall r <- p :: r.id in answers)
    {
      if !hasControl || !readable {
        assert Finishes([]) == [] && Order(calls) + [] == Order(calls);
        return;
      }
      TakenIsFresh(true, filed, answers, giver);
      PendingAreUnanswered(filed, answers.Keys);
      var p := PendingOf(filed, answers.Keys);
      SupersedeAll(p);
      assert p[..|p|] == p;
    }

    /** The first n are answered as superseded. */
    ghost predicate SupersededTo(p: seq<Request>, n: nat, before: seq<Call>, given: map<int, Answer>, healthy: bool)
      requires n <= |p|
      reads this, svc, stack
    {
      && Valid() && before <= calls && Keeps(given, answers)
      && (forall k :: n <= k < |p| ==> p[k].id !in giver)
      && Order(calls) == Order(before) + Finishes(p[..n])
      && (healthy ==> Healthy() && forall k :: 0 <= k < n ==> p[k].id in answers)
    }

    method OneSuperseded(p: seq<Request>, n: nat, ghost before: seq<Call>, ghost given: map<int, Answer>,
                         ghost healthy: bool)
      requires n < |p| && SupersededTo(p, n, before, given, healthy) && hasControl && p[n].id > 0
      requires forall j, k :: 0 <= j < k < |p| ==> p[j].id != p[k].id
      modifies this`answers, this`asked, this`giver, this`calls, this`lost, svc
      ensures SupersededTo(p, n + 1, before, given, healthy)
    {
      Give(p[n], Refused, Some(Superseded), []);
      FinishesSnoc(p, n);
      KeepsOn(given, old(answers), answers);
    }

    method SupersedeAll(p: seq<Request>)
      requires Valid() && Fresh(p, giver) && hasControl && forall k :: 0 <= k < |p| ==> p[k].id > 0
      modifies this`answers, this`asked, this`giver, this`calls, this`lost, svc
      ensures SupersededTo(p, |p|, old(calls), old(answers), old(Healthy()))
    {
      var n := 0;
      assert Order(calls) + Finishes(p[..0]) == Order(calls);
      while n < |p|
        invariant n <= |p| && SupersededTo(p, n, old(calls), old(answers), old(Healthy()))
      {
        OneSuperseded(p, n, old(calls), old(answers), old(Healthy()));
        n := n + 1;
      }
    }

    /** What one signal over the requests p leaves: the order of finishes, at
        most one round, and who was answered. */
    twostate predicate Handled(w: World, p: seq<Request>, fates: seq<Fate>, stop: bool, next: nat)
      requires |p| == |fates|
      reads this, svc
    {
      var before := Order(old(calls));
      if exists k :: 0 <= k < |p| && fates[k] == Closes then
        // A closed gateway: the rest of the list is left unanswered.
        && stop && next == 0
        && exists n :: 0 <= n < |p| && fates[n] == Closes && (forall k :: 0 <= k < n ==> fates[k] != Closes)
                       && Order(calls) == before + AtOnce(p, fates, n)
      else if NeedsRound(fates, |p|) && w.roundStops then
        stop && next == 0 && Order(calls) == before + AtOnce(p, fates, |p|) + [RoundRan]
      else
        && !stop && next == (if NeedsRound(fates, |p|) then w.rest else 0)
        && Order(calls) == before + AtOnce(p, fates, |p|) + (if NeedsRound(fates, |p|) then [RoundRan] else [])
                           + AfterRound(p, fates, |p|)
        && (old(Healthy()) && hasControl ==> forall r <- p :: r.id != 0 ==> r.id in answers)
    }

    /** handleControl: one signal. readable: the pending requests could be read. */
    method HandleControl(w: World, readable: bool) returns (stop: bool, next: nat)
      requires Valid()
      modifies this`answers, this`asked, this`giver, this`calls, this`lost, svc, stack
      ensures Valid() && old(calls) <= calls && Keeps(old(answers), answers) && stack.cfg.rest == old(stack.cfg.rest)
      ensures var p := Taken(hasControl && readable, filed, old(answers));
              var fates := FatesOf(w, stack.planOk, p);
              Handled(w, p, fates, stop, next)
    {
      TakenIsFresh(hasControl && readable, filed, answers, giver);
      var p := Taken(hasControl && readable, filed, answers);
      stop, next := Signal(w, p, FatesOf(w, stack.planOk, p));
    }

    /** The two passes and the round between them. */
    method Signal(w: World, p: seq<Request>, fates: seq<Fate>) returns (stop: bool, next: nat)
      requires Valid() && Fresh(p, giver) && fates == FatesOf(w, stack.planOk, p)
      modifies this`answers, this`asked, this`giver, this`calls, this`lost, svc, stack
      ensures Valid() && old(calls) <= calls && Keeps(old(answers), answers) && stack.cfg.rest == old(stack.cfg.rest)
      ensures Handled(w, p, fates, stop, next)
    {
      var n := FirstPass(w, p, fates);
      if n < |p| { return true, 0; }
      stop, next := RoundAndRest(w, p, fates);
    }

    /** At most one round, and only then the accepted redials. */
    method RoundAndRest(w: World, p: seq<Request>, fates: seq<Fate>) returns (stop: bool, next: nat)
      requires Valid() && |fates| == |p| && Open(p, fates, |p|, giver)
      modifies this`answers, this`asked, this`giver, this`calls, this`lost, svc
      ensures Valid() && old(calls) <= calls && Keeps(old(answers), answers)
      ensures stop == (NeedsRound(fates, |p|) && w.roundStops)
      ensures stop ==> next == 0 && Order(calls) == Order(old(calls)) + [RoundRan]
      ensures !stop ==> && next == (if NeedsRound(fates, |p|) then w.rest else 0)
                        && Order(calls) == Order(old(calls)) + (if NeedsRound(fates, |p|) then [RoundRan] else [])
                                           + AfterRound(p, fates, |p|)
      ensures !stop && old(Healthy()) && hasControl ==> AnsweredOf(p, fates, |p|, true, answers)
    {
      if NeedsRound(fates, |p|) {
        stop := Round(w);
        if stop { return true, 0; }
      }
      assert !NeedsRound(fates, |p|) ==> Order(calls) == Order(old(calls)) + [];
      stop, next := false, if NeedsRound(fates, |p|) then w.rest else 0;
      LastPass(w, p, fates);
    }
  }
}
