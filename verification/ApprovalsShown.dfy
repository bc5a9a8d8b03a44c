/** What each approval on the page says, in terms of the log and the open requests alone. */
module ApprovalsShown {
  import opened Options
  import opened Conversation
  import opened Approvals

  // ---------------------------------------------------------------- decisions

  predicate Resolves(e: Event, id: string) {
    e.ApprovalResolved? && e.approvalId == id
  }

  /** Event `k` is the log's last word on a request. */
  ghost predicate LastWord(es: seq<Event>, id: string, k: int) {
    0 <= k < |es| && Resolves(es[k], id) && forall j :: k < j < |es| ==> !Resolves(es[j], id)
  }

  ghost predicate DecidedAs(es: seq<Event>, id: string, decision: string) {
    exists k :: LastWord(es, id, k) && es[k].decision == decision
  }

  lemma LastWordEarlier(es: seq<Event>, id: string, k: int)
    requires es != [] && 0 <= k < |es| - 1
    ensures LastWord(es, id, k) <==> LastWord(es[..|es| - 1], id, k) && !Resolves(es[|es| - 1], id)
  {
    var init := es[..|es| - 1];
    assert forall j :: 0 <= j < |init| ==> init[j] == es[j];
    if LastWord(es, id, k) { assert !Resolves(es[|es| - 1], id); }
  }

  lemma {:induction false} ResolvedIsLastWord(es: seq<Event>, id: string, decision: string)
    requires id != ""
    ensures DecidedAs(es, id, decision) <==> id in Resolved(es) && Resolved(es)[id] == decision
    decreases |es|
  {
    if es != [] {
      var init, last := es[..|es| - 1], |es| - 1;
      ResolvedIsLastWord(init, id, decision);
      if Resolves(es[last], id) {
        assert LastWord(es, id, last);
      } else {
        if k :| LastWord(es, id, k) && es[k].decision == decision { LastWordEarlier(es, id, k); }
        if k :| LastWord(init, id, k) && init[k].decision == decision { LastWordEarlier(es, id, k); }
      }
    }
  }

  // ---------------------------------------------------------------- open requests

  /** Entry `q` is the snapshot's last one for a request. */
  ghost predicate LastOpen(pending: seq<Pending>, id: string, q: int) {
    0 <= q < |pending| && pending[q].approvalId == id && forall r :: q < r < |pending| ==> pending[r].approvalId != id
  }

  ghost predicate IsOpen(pending: seq<Pending>, id: string) {
    exists q :: 0 <= q < |pending| && pending[q].approvalId == id
  }

  lemma {:induction false} OpenIsLast(pending: seq<Pending>, id: string)
    ensures OpenOf(pending, id).Some? <==> IsOpen(pending, id)
    ensures forall q :: LastOpen(pending, id, q) ==> OpenOf(pending, id) == Some(pending[q])
    decreases |pending|
  {
    if pending != [] {
      var init, last := pending[..|pending| - 1], |pending| - 1;
      OpenIsLast(init, id);
      if pending[last].approvalId != id {
        if IsOpen(pending, id) {
          var q :| 0 <= q < |pending| && pending[q].approvalId == id;
          assert init[q].approvalId == id;
        }
        forall q | LastOpen(pending, id, q) ensures OpenOf(pending, id) == Some(pending[q]) {
          assert LastOpen(init, id, q);
        }
      }
    }
  }

  predicate KnownDecision(decision: string) {
    decision == "accept" || decision == "accept_for_session" || decision == "cancel"
  }

  predicate KnownKind(kind: string) {
    || kind == "command_execution" || kind == "file_change" || kind == "tool_use"
    || kind == "plan_approval" || kind == "user_input"
  }

  /** The choices offered are the known ones among those allowed, in order. */
  lemma {:induction false} PermittedMeans(before: seq<string>, decision: string, after: seq<string>)
    ensures Permitted(before + [decision] + after) ==
      Permitted(before) + (if KnownDecision(decision) then [decision] else []) + Permitted(after)
    decreases |before|
  {
    var all := before + [decision] + after;
    if before == [] {
      assert all[1..] == after && all[0] == decision;
    } else {
      assert all[0] == before[0] && all[1..] == before[1..] + [decision] + after;
      PermittedMeans(before[1..], decision, after);
    }
  }

  // ---------------------------------------------------------------- the request behind an entry

  /** The turn a request interrupts: the last one if it is the assistant's, else the next one. */
  function TurnAt(messages: seq<Message>): nat {
    if messages != [] && !messages[|messages| - 1].user then |messages| - 1 else |messages|
  }

  /** Event `k` raises the request that entry `i` is for. */
  ghost predicate Raises(es: seq<Event>, k: nat, i: nat) {
    k < |es| && es[k].ApprovalRequested? && es[k].approvalId != "" && |RaisedIds(es[..k])| == i
  }

  ghost predicate RequestIs(r: Request, e: Event, messages: seq<Message>) {
    && e.ApprovalRequested? && r.approvalId == e.approvalId && r.kind == e.kind && r.reason == e.reason
    && r.command == e.command && r.toolName == e.toolName && r.callId == e.callId && r.messageIndex == TurnAt(messages)
  }

  lemma AskAdds(s: State, e: Event)
    requires Inv(s) && e.ApprovalRequested? && e.approvalId != ""
    ensures |Step(s, e).requests| == |s.requests| + 1
    ensures RequestIs(Step(s, e).requests[|s.requests|], e, Step(s, e).messages)
  {
    StepRequests(s, e);
    StepKeeps(s, e);
  }

  lemma RaisedLast(es: seq<Event>, i: nat)
    requires es != [] && |Fold(es[..|es| - 1]).requests| <= i < |Fold(es).requests|
    ensures Raises(es, |es| - 1, i) && RequestIs(Fold(es).requests[i], es[|es| - 1], Fold(es).messages)
  {
    var init, e := es[..|es| - 1], es[|es| - 1];
    var s := Fold(init);
    StepRequests(s, e);
    TranscriptWellFormed(init);
    AskAdds(s, e);
    FoldRequestIds(init);
    assert |RequestIds(s.requests)| == |s.requests|;
  }

  lemma RequestStays(es: seq<Event>, i: nat)
    requires es != [] && i < |Fold(es[..|es| - 1]).requests|
    ensures i < |Fold(es).requests| && Fold(es).requests[i] == Fold(es[..|es| - 1]).requests[i]
  {
    StepRequests(Fold(es[..|es| - 1]), es[|es| - 1]);
  }

  lemma {:induction false} RaisedBy(es: seq<Event>, i: nat) returns (k: nat)
    requires i < |Fold(es).requests|
    ensures Raises(es, k, i) && RequestIs(Fold(es).requests[i], es[k], Fold(es[..k + 1]).messages)
    decreases |es|
  {
    assert es != [];
    var init := es[..|es| - 1];
    if i < |Fold(init).requests| {
      k := RaisedBy(init, i);
      assert init[..k] == es[..k] && init[..k + 1] == es[..k + 1];
      RequestStays(es, i);
    } else {
      k := |es| - 1;
      RaisedLast(es, i);
      assert es[..k + 1] == es;
    }
  }

  function Given(text: string): Option<string> {
    if |text| == 0 then None else Some(text)
  }

  /** What an approval has from its request. */
  ghost predicate ShowsRequest(a: Approval, e: Event) {
    && e.ApprovalRequested? && a.id == e.approvalId
    && a.kind == (if KnownKind(e.kind) then e.kind else "command_execution")
    && a.reason == Given(e.reason) && a.command == Given(e.command)
    && a.toolName == Given(e.toolName) && a.toolCallId == Given(e.callId)
  }

  /** It waits if it is open, is decided if the log's last word on it is a decision, and otherwise
      was interrupted. */
  ghost predicate ShowsStatus(a: Approval, es: seq<Event>, pending: seq<Pending>) {
    && (a.status == Waiting <==> IsOpen(pending, a.id))
    && (a.status == Decided <==> !IsOpen(pending, a.id) && exists d :: d != "" && DecidedAs(es, a.id, d))
    && (forall d :: a.decision == Some(d) <==> KnownDecision(d) && DecidedAs(es, a.id, d))
    && (a.decisionSource == if a.decision.Some? then Some("user") else None)
  }

  ghost predicate ShowsChoices(a: Approval, pending: seq<Pending>) {
    && (forall q :: LastOpen(pending, a.id, q) ==> a.allowed == Permitted(pending[q].allowed))
    && (!IsOpen(pending, a.id) ==> a.allowed == [])
  }

  lemma StatusRight(r: Request, es: seq<Event>, pending: seq<Pending>)
    requires r.approvalId != ""
    ensures ShowsStatus(ApprovalOf(r, OpenOf(pending, r.approvalId), Resolved(es)), es, pending)
    ensures ShowsChoices(ApprovalOf(r, OpenOf(pending, r.approvalId), Resolved(es)), pending)
  {
    var id := r.approvalId;
    OpenIsLast(pending, id);
    forall d ensures DecidedAs(es, id, d) <==> id in Resolved(es) && Resolved(es)[id] == d {
      ResolvedIsLastWord(es, id, d);
    }
    if id in Resolved(es) { assert DecidedAs(es, id, Resolved(es)[id]); }
  }

  /** Every approval the page places says what its request and the log's last word on it say, and is
      placed at the turn that was open when it was raised, or else at the next one. */
  lemma {:induction false} Presented(es: seq<Event>, pending: seq<Pending>, i: nat) returns (k: nat)
    requires i < |Requests(es, pending)|
    ensures Raises(es, k, i)
    ensures var shown := Requests(es, pending)[i];
      && shown.messageIndex == TurnAt(Fold(es[..k + 1]).messages)
      && ShowsRequest(shown.approval, es[k])
      && ShowsStatus(shown.approval, es, pending) && ShowsChoices(shown.approval, pending)
  {
    k := RaisedBy(es, i);
    StatusRight(Fold(es).requests[i], es, pending);
  }

  /** Every approval held apart is an open request the log did not raise: it waits, has no turn, and says
      what the snapshot says. */
  lemma PresentedApart(es: seq<Event>, pending: seq<Pending>, j: nat)
    requires j < |Unplaced(es, pending)|
    ensures j < |NotIn(pending, Raised(es))|
    ensures NotIn(pending, Raised(es))[j] in pending && NotIn(pending, Raised(es))[j].approvalId !in Raised(es)
    ensures var shown, p := Unplaced(es, pending)[j], NotIn(pending, Raised(es))[j];
      var a := shown.approval;
      && shown.messageIndex == -1 && a.id == p.approvalId && a.status == Waiting
      && a.kind == (if KnownKind(p.kind) then p.kind else "command_execution")
      && a.reason == Given(p.reason) && a.command == Given(p.command) && a.toolName == Given(p.toolName)
      && a.toolCallId == None && a.allowed == Permitted(p.allowed)
  {
    var p := NotIn(pending, Raised(es))[j];
    assert p in NotIn(pending, Raised(es));
    NotInMembers(pending, Raised(es), p);
  }
}
