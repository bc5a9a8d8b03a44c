/** The mutable halves: folding a log in a loop, and the store the page publishes into. */
module ApprovalStore {
  import opened Options
  import opened Conversation
  import opened Approvals

  datatype Folded = Folded(messages: seq<Message>, requests: seq<InlineApproval>, unplaced: seq<InlineApproval>, failure: string)

  /** The decisions, collected in a pass of their own before anything is folded. */
  method CollectResolved(events: seq<Event>) returns (resolved: map<string, string>)
    ensures resolved == Resolved(events)
  {
    resolved := map[];
    for i := 0 to |events|
      invariant resolved == Resolved(events[..i])
    {
      assert events[..i + 1][..i] == events[..i];
      if events[i].ApprovalResolved? && events[i].approvalId != "" {
        resolved := resolved[events[i].approvalId := events[i].decision];
      }
    }
    assert events[..|events|] == events;
  }

  /** The whole fold. */
  method GraphConversation(events: seq<Event>, pending: seq<Pending>) returns (c: Folded)
    ensures c == Folded(Fold(events).messages, Requests(events, pending), Unplaced(events, pending), Fold(events).failure)
  {
    var resolved := CollectResolved(events);
    var s := EMPTY;
    for i := 0 to |events|
      invariant s == Fold(events[..i])
    {
      assert events[..i + 1][..i] == events[..i];
      s := Step(s, events[i]);
    }
    assert events[..|events|] == events;
    var requests := seq(|s.requests|, i requires 0 <= i < |s.requests| =>
      InlineApproval(s.requests[i].messageIndex, ApprovalOf(s.requests[i], OpenOf(pending, s.requests[i].approvalId), resolved)));
    var raised := set i | 0 <= i < |s.requests| :: s.requests[i].approvalId;
    c := Folded(s.messages, requests, NotRaised(pending, raised, resolved), s.failure);
  }

  class Store {
    var byThread: map<string, seq<InlineApproval>>

    constructor ()
      ensures byThread == map[]
    {
      byThread := map[];
    }

    /** Everything a conversation has been asked to allow, oldest first. */
    function Read(thread: string): seq<InlineApproval>
      reads this
    {
      if thread in byThread then byThread[thread] else []
    }

    /** Record a snapshot: replace the entry of the same request where it stands, keeping the turn
        it was first given for, or append it. Listeners are told only if something changed. */
    method Publish(thread: string, approval: Option<Approval>, messageIndex: int) returns (told: bool)
      modifies this
      ensures approval.None? ==> byThread == old(byThread)
      ensures approval.Some? ==> Read(thread) == Published(old(Read(thread)), InlineApproval(messageIndex, approval.value))
      ensures forall other :: other != thread ==> Read(other) == old(Read(other))
      ensures told <==> Read(thread) != old(Read(thread))
    {
      if approval.None? { return false; }
      var existing := Read(thread);
      var at := 0;
      while at < |existing| && existing[at].approval.id != approval.value.id
        invariant at <= |existing|
        invariant forall i :: 0 <= i < at ==> existing[i].approval.id != approval.value.id
      {
        at := at + 1;
      }
      assert at == Find(existing, approval.value.id);
      if at < |existing| && existing[at].approval == approval.value { return false; }
      if at < |existing| {
        byThread := byThread[thread := existing[at := InlineApproval(existing[at].messageIndex, approval.value)]];
        assert Read(thread)[at] != existing[at];
      } else {
        byThread := byThread[thread := existing + [InlineApproval(messageIndex, approval.value)]];
      }
      told := true;
    }

    /** The publishing effect of a page: every request of the fold, in order. */
    method PublishConversation(thread: string, entries: seq<InlineApproval>)
      modifies this
      ensures Read(thread) == PublishedAll(old(Read(thread)), entries)
      ensures forall other :: other != thread ==> Read(other) == old(Read(other))
    {
      for i := 0 to |entries|
        invariant Read(thread) == PublishedAll(old(Read(thread)), entries[..i])
        invariant forall other :: other != thread ==> Read(other) == old(Read(other))
      {
        assert entries[..i + 1][..i] == entries[..i];
        var told := Publish(thread, Some(entries[i].approval), entries[i].messageIndex);
      }
      assert entries[..|entries|] == entries;
    }
  }
}
