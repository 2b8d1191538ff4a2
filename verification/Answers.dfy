/** The control store: the requests filed with a gateway, what was answered to
    them, and what the trail holds of them (internal/control/control.go,
    internal/admin/control.go and cmd/mcp-gateway/serve_control.go, finish). */
module Answers {
  import opened GoText
  import opened Service
  import A = Access
  import R = Reload

  datatype Kind = Reload | Redial | Unknown(name: string)

  /** id 0: the signal's own reload, which has a row and no request to answer. */
  datatype Request = Request(id: int, kind: Kind, target: string, actor: string, tag: Bytes)

  datatype Outcome = Applied | Refused
  datatype Why = ByReload(refusal: R.Refusal) | NotServable | HeldBack | UnknownKind | Superseded | NotRung

  datatype Answer = Answer(outcome: Outcome, why: Option<Why>, recorded: bool, audit: Option<Row>)

  /** What a requester writes when serve could not be rung. */
  const ABANDONED := Answer(Refused, Some(NotRung), false, None)

  // ---- What is pending ------------------------------------------------------------

  /** The table: ids are positive and ascend. */
  predicate InOrder(filed: seq<Request>) {
    && (forall k :: 0 <= k < |filed| ==> filed[k].id > 0)
    && (forall j, k :: 0 <= j < k < |filed| ==> filed[j].id < filed[k].id)
  }

  function PendingOf(filed: seq<Request>, answered: set<int>): seq<Request> {
    if filed == [] then []
    else if filed[0].id in answered then PendingOf(filed[1..], answered)
    else [filed[0]] + PendingOf(filed[1..], answered)
  }

  lemma {:induction false} PendingHolds(filed: seq<Request>, answered: set<int>, r: Request)
    ensures r in PendingOf(filed, answered) <==> r in filed && r.id !in answered
  {
    if filed != [] {
      PendingHolds(filed[1..], answered, r);
      assert r in filed <==> r == filed[0] || r in filed[1..];
    }
  }

  lemma InOrderCons(first: Request, rest: seq<Request>)
    requires first.id > 0 && InOrder(rest) && forall r <- rest :: first.id < r.id
    ensures InOrder([first] + rest)
  { }

  lemma {:induction false} PendingInOrder(filed: seq<Request>, answered: set<int>)
    requires InOrder(filed)
    ensures InOrder(PendingOf(filed, answered))
  {
    if filed != [] {
      PendingInOrder(filed[1..], answered);
      if filed[0].id !in answered {
        forall r <- PendingOf(filed[1..], answered) ensures filed[0].id < r.id {
          PendingHolds(filed[1..], answered, r);
        }
        InOrderCons(filed[0], PendingOf(filed[1..], answered));
      }
    }
  }

  lemma PendingAreUnanswered(filed: seq<Request>, answered: set<int>)
    requires InOrder(filed)
    ensures InOrder(PendingOf(filed, answered))
    ensures forall r :: r in PendingOf(filed, answered) <==> r in filed && r.id !in answered
  {
    PendingInOrder(filed, answered);
    forall r ensures r in PendingOf(filed, answered) <==> r in filed && r.id !in answered {
      PendingHolds(filed, answered, r);
    }
  }

  // ---- What was answered --------------------------------------------------------------

  function ActorOf(r: Request): string { if A.TrimSpace(r.actor) == "" then "(unknown)" else r.actor }

  function ToolOf(r: Request): Tool { if r.kind == Redial then UpstreamRedial else ConfigReload }

  function TargetOf(r: Request): string { if r.kind == Redial then r.target else "(gateway)" }

  /** An operator row of this request. */
  predicate RowIs(row: Row, r: Request) {
    row.identity == ActorOf(r) && row.tool == ToolOf(r) && row.reason.OfRequest? && row.reason.target == TargetOf(r)
  }

  /** What happened, in order: serve finished a request, with the place of its
      row on the trail if one was written, or ran a round. */
  datatype Call = Finished(r: Request, row: Option<nat>) | RoundRan

  /** This answer was given by that call, and says recorded exactly when the
      call wrote a row, which is the row it names. */
  predicate Gave(answer: Answer, id: int, call: Call, trail: seq<Row>) {
    && call.Finished? && call.r.id == id
    && answer.recorded == call.row.Some? == answer.audit.Some?
    && (call.row.Some? ==> call.row.value < |trail| && trail[call.row.value] == answer.audit.value)
  }

  /** giver: the finish that gave each answer that serve gave. The others were
      given by a requester that abandoned its request. */
  ghost predicate AnswersSay(answers: map<int, Answer>, giver: map<int, nat>, calls: seq<Call>, trail: seq<Row>) {
    && giver.Keys <= answers.Keys && 0 !in giver
    && (forall id <- giver :: giver[id] < |calls| && Gave(answers[id], id, calls[giver[id]], trail))
    && (forall id <- answers :: id !in giver ==> answers[id] == ABANDONED)
  }

  /** A request serve has answered is not finished again. */
  ghost predicate NoneLater(giver: map<int, nat>, calls: seq<Call>) {
    forall id <- giver, k :: giver[id] < k < |calls| && calls[k].Finished? ==> calls[k].r.id != id
  }

  ghost predicate RowsThere(calls: seq<Call>, trail: seq<Row>) {
    forall k :: 0 <= k < |calls| && calls[k].Finished? && calls[k].row.Some? ==>
      calls[k].row.value < |trail| && RowIs(trail[calls[k].row.value], calls[k].r)
  }

  ghost predicate Kept(answers: map<int, Answer>, giver: map<int, nat>, calls: seq<Call>, trail: seq<Row>) {
    AnswersSay(answers, giver, calls, trail) && NoneLater(giver, calls) && RowsThere(calls, trail)
  }

  lemma KeptByFinishing(answers: map<int, Answer>, giver: map<int, nat>, calls: seq<Call>, trail: seq<Row>,
                        r: Request, row: Option<nat>, rows: seq<Row>)
    requires Kept(answers, giver, calls, trail) && r.id !in giver && trail <= rows
    requires row.Some? ==> row.value < |rows| && RowIs(rows[row.value], r)
    ensures Kept(answers, giver, calls + [Finished(r, row)], rows)
  {
    var more := calls + [Finished(r, row)];
    forall id <- giver ensures giver[id] < |more| && Gave(answers[id], id, more[giver[id]], rows) {
      assert Gave(answers[id], id, calls[giver[id]], trail);
    }
    forall k | 0 <= k < |more| && more[k].Finished? && more[k].row.Some?
      ensures more[k].row.value < |rows| && RowIs(rows[more[k].row.value], more[k].r)
    {
      if k < |calls| { assert more[k] == calls[k]; }
    }
  }

  lemma KeptByAnswering(answers: map<int, Answer>, giver: map<int, nat>, calls: seq<Call>, trail: seq<Row>,
                        answer: Answer)
    requires Kept(answers, giver, calls, trail) && calls != []
    requires var last := calls[|calls| - 1];
             last.Finished? && last.r.id != 0 && last.r.id !in answers && Gave(answer, last.r.id, last, trail)
    ensures var id := calls[|calls| - 1].r.id;
            Kept(answers[id := answer], giver[id := |calls| - 1], calls, trail)
  { }

  lemma KeptByARound(answers: map<int, Answer>, giver: map<int, nat>, calls: seq<Call>, trail: seq<Row>)
    requires Kept(answers, giver, calls, trail)
    ensures Kept(answers, giver, calls + [RoundRan], trail)
  {
    var more := calls + [RoundRan];
    forall id <- giver ensures giver[id] < |more| && Gave(answers[id], id, more[giver[id]], trail) { }
  }

  /** The first answer stands. */
  function Abandoned(answers: map<int, Answer>, ids: set<int>): map<int, Answer> {
    map id | id in answers.Keys + ids :: if id in answers then answers[id] else ABANDONED
  }

  lemma KeptByAbandoning(answers: map<int, Answer>, giver: map<int, nat>, calls: seq<Call>, trail: seq<Row>,
                         ids: set<int>)
    requires Kept(answers, giver, calls, trail)
    ensures Kept(Abandoned(answers, ids), giver, calls, trail)
  { }

  /** lost: the finishes of a request whose answer did not reach the store. Any
      other finish found its request answered, or answered it. */
  ghost predicate Stored(answers: map<int, Answer>, giver: map<int, nat>, calls: seq<Call>, lost: set<nat>) {
    && (forall k <- lost :: k < |calls|)
    && (forall id <- giver :: giver[id] < |calls| && giver[id] !in lost)
    && (forall k :: 0 <= k < |calls| && calls[k].Finished? && calls[k].r.id != 0 && k !in lost ==>
          calls[k].r.id in answers && (calls[k].r.id in giver ==> giver[calls[k].r.id] == k))
  }

  lemma StoredByFinishing(answers: map<int, Answer>, giver: map<int, nat>, calls: seq<Call>, lost: set<nat>,
                          call: Call)
    requires Stored(answers, giver, calls, lost) && call.Finished?
    ensures Stored(answers, giver, calls + [call], if call.r.id == 0 then lost else lost + {|calls|})
  { }

  function Giver(answers: map<int, Answer>, giver: map<int, nat>, id: int, last: nat): map<int, nat> {
    if id in answers then giver else giver[id := last]
  }

  lemma StoredByAnswering(answers: map<int, Answer>, giver: map<int, nat>, calls: seq<Call>, lost: set<nat>,
                          answer: Answer)
    requires Stored(answers, giver, calls, lost) && calls != [] && calls[|calls| - 1].Finished?
    requires giver.Keys <= answers.Keys && calls[|calls| - 1].r.id !in giver
    ensures var id := calls[|calls| - 1].r.id;
            Stored(if id in answers then answers else answers[id := answer],
                   Giver(answers, giver, id, |calls| - 1), calls, lost - {|calls| - 1})
  { }

  lemma KeptByStoring(answers: map<int, Answer>, giver: map<int, nat>, calls: seq<Call>, trail: seq<Row>,
                      lost: set<nat>, answer: Answer)
    requires Kept(answers, giver, calls, trail) && Stored(answers, giver, calls, lost)
    requires calls != [] && calls[|calls| - 1].Finished? && calls[|calls| - 1].r.id !in giver
    requires calls[|calls| - 1].r.id != 0 && Gave(answer, calls[|calls| - 1].r.id, calls[|calls| - 1], trail)
    ensures var id, last := calls[|calls| - 1].r.id, |calls| - 1;
            var after := if id in answers then answers else answers[id := answer];
            Kept(after, Giver(answers, giver, id, last), calls, trail)
            && Stored(after, Giver(answers, giver, id, last), calls, lost - {last})
  {
    if calls[|calls| - 1].r.id !in answers { KeptByAnswering(answers, giver, calls, trail, answer); }
    StoredByAnswering(answers, giver, calls, lost, answer);
  }

  lemma StoredByARound(answers: map<int, Answer>, giver: map<int, nat>, calls: seq<Call>, lost: set<nat>)
    requires Stored(answers, giver, calls, lost)
    ensures Stored(answers, giver, calls + [RoundRan], lost)
  { }

  /** No answer given is taken back or changed. */
  ghost predicate Keeps(before: map<int, Answer>, after: map<int, Answer>) {
    forall id <- before :: id in after && after[id] == before[id]
  }

  // ---- What an answer says of the trail --------------------------------------------------

  predicate WroteFor(call: Call, id: int) { call.Finished? && call.r.id == id && call.row.Some? }

  /** An operator row of the request is on the trail. */
  ghost predicate OnTrail(id: int, calls: seq<Call>) { exists k :: 0 <= k < |calls| && WroteFor(calls[k], id) }

  /** A finish that gave no answer wrote a row all the same. */
  ghost predicate WroteUnanswered(id: int, giver: map<int, nat>, calls: seq<Call>) {
    exists k :: 0 <= k < |calls| && WroteFor(calls[k], id) && (id in giver ==> k < giver[id])
  }

  /** Whatever happened: the trail holds a row of an answered request if and only
      if the answer says recorded or some finish before it wrote one. */
  lemma OnTrailExactlyWhen(answers: map<int, Answer>, giver: map<int, nat>, calls: seq<Call>, trail: seq<Row>, id: int)
    requires Kept(answers, giver, calls, trail) && id in answers
    ensures OnTrail(id, calls) <==> answers[id].recorded || WroteUnanswered(id, giver, calls)
  {
    if id in giver {
      var g := giver[id];
      assert Gave(answers[id], id, calls[g], trail);
      if answers[id].recorded { assert WroteFor(calls[g], id); }
      if OnTrail(id, calls) {
        var k :| 0 <= k < |calls| && WroteFor(calls[k], id);
        assert k <= g;
        if k == g { assert answers[id].recorded; }
      }
    }
  }

  /** Every finish of the request is the one that answered it: no answer was
      lost on its way to the store, and none was written over an abandonment. */
  ghost predicate FinishedToAnswer(id: int, giver: map<int, nat>, calls: seq<Call>) {
    forall k :: 0 <= k < |calls| && calls[k].Finished? && calls[k].r.id == id ==> id in giver && k == giver[id]
  }

  /** Then recorded means exactly that the request's operator row is on the trail. */
  lemma RecordedExactlyWhenOnTrail(answers: map<int, Answer>, giver: map<int, nat>, calls: seq<Call>, trail: seq<Row>,
                                   id: int)
    requires Kept(answers, giver, calls, trail) && id in answers && FinishedToAnswer(id, giver, calls)
    ensures answers[id].recorded <==> OnTrail(id, calls)
  {
    OnTrailExactlyWhen(answers, giver, calls, trail, id);
  }

  /** A finish whose answer did not reach the store wrote a row. */
  ghost predicate WroteAndLost(id: int, calls: seq<Call>, lost: set<nat>) {
    exists k <- lost :: k < |calls| && WroteFor(calls[k], id)
  }

  /** The same on the failing branch, for an answer serve gave: the trail holds a
      row of the request if and only if the answer says recorded or a finish
      whose answer the store did not take wrote one. */
  lemma OnTrailUnlessLost(answers: map<int, Answer>, giver: map<int, nat>, calls: seq<Call>, trail: seq<Row>,
                          lost: set<nat>, id: int)
    requires Kept(answers, giver, calls, trail) && Stored(answers, giver, calls, lost) && id in giver
    ensures OnTrail(id, calls) <==>
              answers[id].recorded || WroteAndLost(id, calls, lost)
  {
    OnTrailExactlyWhen(answers, giver, calls, trail, id);
    if WroteUnanswered(id, giver, calls) {
      var k :| 0 <= k < |calls| && WroteFor(calls[k], id) && k < giver[id];
      assert k in lost;
    }
  }
}
