/** The requests a conversation raised, as the fold presents them and as the page's store keeps
    them: recomputed from the whole log on every poll, and published one by one into a store
    that only ever replaces an entry in place or appends one. */
module Approvals {
  import opened Options
  import opened Conversation

  /** An open request, as the run's snapshot lists it. */
  datatype Pending = Pending(approvalId: string, kind: string, reason: string, command: string,
                             toolName: string, allowed: seq<string>)

  datatype Status = Waiting | Decided | Interrupted

  datatype Approval = Approval(id: string, status: Status, kind: string, reason: Option<string>, command: Option<string>,
                               toolName: Option<string>, toolCallId: Option<string>, allowed: seq<string>,
                               decision: Option<string>, decisionSource: Option<string>)

  /** An approval and the turn it belongs to. */
  datatype InlineApproval = InlineApproval(messageIndex: int, approval: Approval)

  const NO_TURN := -1

  const KINDS := ["command_execution", "file_change", "tool_use", "plan_approval", "user_input"]

  const DECISIONS := ["accept", "accept_for_session", "cancel"]

  // ---------------------------------------------------------------- what the fold presents

  function NonEmpty(text: string): Option<string> {
    if text == "" then None else Some(text)
  }

  function Permitted(allowed: seq<string>): seq<string> {
    if allowed == [] then [] else (if allowed[0] in DECISIONS then [allowed[0]] else []) + Permitted(allowed[1..])
  }

  /** The last decision the log has for each request. */
  function Resolved(es: seq<Event>): map<string, string> {
    if es == [] then map[]
    else
      var before, e := Resolved(es[..|es| - 1]), es[|es| - 1];
      if e.ApprovalResolved? && e.approvalId != "" then before[e.approvalId := e.decision] else before
  }

  /** The snapshot's entry for a request; a later one of the same id wins. */
  function OpenOf(pending: seq<Pending>, id: string): Option<Pending> {
    if pending == [] then None
    else if pending[|pending| - 1].approvalId == id then Some(pending[|pending| - 1])
    else OpenOf(pending[..|pending| - 1], id)
  }

  function ApprovalOf(r: Request, open: Option<Pending>, resolved: map<string, string>): Approval {
    var decided := if r.approvalId in resolved then resolved[r.approvalId] else "";
    var decision := if decided in DECISIONS then Some(decided) else None;
    Approval(r.approvalId,
             if open.Some? then Waiting else if decided != "" then Decided else Interrupted,
             if r.kind in KINDS then r.kind else "command_execution",
             NonEmpty(r.reason), NonEmpty(r.command), NonEmpty(r.toolName), NonEmpty(r.callId),
             if open.Some? then Permitted(open.value.allowed) else [],
             decision, if decision.Some? then Some("user") else None)
  }

  function Placed(r: Request, es: seq<Event>, pending: seq<Pending>): InlineApproval {
    InlineApproval(r.messageIndex, ApprovalOf(r, OpenOf(pending, r.approvalId), Resolved(es)))
  }

  /** Every request of the log, with the turn it interrupted. */
  function Requests(es: seq<Event>, pending: seq<Pending>): seq<InlineApproval> {
    var rs := Fold(es).requests;
    seq(|rs|, i requires 0 <= i < |rs| => Placed(rs[i], es, pending))
  }

  function Loose(p: Pending, resolved: map<string, string>): InlineApproval {
    InlineApproval(NO_TURN, ApprovalOf(Request(p.approvalId, p.kind, p.reason, p.command, p.toolName, "", 0), Some(p), resolved))
  }

  /** The ids of the requests the log raised. */
  function Raised(es: seq<Event>): set<string> {
    var rs := Fold(es).requests;
    set i | 0 <= i < |rs| :: rs[i].approvalId
  }

  /** The open requests among these that were not raised, in order. */
  function NotIn(pending: seq<Pending>, raised: set<string>): seq<Pending> {
    if pending == [] then []
    else if pending[0].approvalId in raised then NotIn(pending[1..], raised)
    else [pending[0]] + NotIn(pending[1..], raised)
  }

  function NotRaised(pending: seq<Pending>, raised: set<string>, resolved: map<string, string>): seq<InlineApproval> {
    var apart := NotIn(pending, raised);
    seq(|apart|, i requires 0 <= i < |apart| => Loose(apart[i], resolved))
  }

  /** The open requests the log does not have. */
  function Unplaced(es: seq<Event>, pending: seq<Pending>): seq<InlineApproval> {
    NotRaised(pending, Raised(es), Resolved(es))
  }

  // ---------------------------------------------------------------- every open request is shown once

  function IdsOf(entries: seq<InlineApproval>): seq<string> {
    seq(|entries|, i requires 0 <= i < |entries| => entries[i].approval.id)
  }

  ghost predicate Distinct(ids: seq<string>) {
    forall i, j :: 0 <= i < j < |ids| ==> ids[i] != ids[j]
  }

  /** The ids the log raises, in order. */
  function RaisedIds(es: seq<Event>): seq<string> {
    if es == [] then []
    else
      var e := es[|es| - 1];
      RaisedIds(es[..|es| - 1]) + if e.ApprovalRequested? && e.approvalId != "" then [e.approvalId] else []
  }

  /** A step adds the request its event raises, and touches no other. */
  lemma StepRequests(s: State, e: Event)
    ensures s.requests <= Step(s, e).requests
    ensures if e.ApprovalRequested? && e.approvalId != ""
      then |Step(s, e).requests| == |s.requests| + 1 && Step(s, e).requests[|s.requests|].approvalId == e.approvalId
      else Step(s, e).requests == s.requests
  {}

  function RequestIds(rs: seq<Request>): seq<string> {
    seq(|rs|, i requires 0 <= i < |rs| => rs[i].approvalId)
  }

  lemma StepRequestIds(s: State, e: Event)
    ensures RequestIds(Step(s, e).requests) ==
      RequestIds(s.requests) + if e.ApprovalRequested? && e.approvalId != "" then [e.approvalId] else []
  {
    StepRequests(s, e);
  }

  lemma {:induction false} FoldRequestIds(es: seq<Event>)
    ensures RequestIds(Fold(es).requests) == RaisedIds(es)
    decreases |es|
  {
    if es != [] {
      FoldRequestIds(es[..|es| - 1]);
      StepRequestIds(Fold(es[..|es| - 1]), es[|es| - 1]);
    }
  }

  lemma {:induction false} RequestsAreRaised(es: seq<Event>, pending: seq<Pending>)
    ensures IdsOf(Requests(es, pending)) == RaisedIds(es)
  {
    FoldRequestIds(es);
    assert IdsOf(Requests(es, pending)) == RequestIds(Fold(es).requests);
  }

  lemma DistinctCount(ids: seq<string>, id: string)
    requires Distinct(ids)
    ensures multiset(ids)[id] == if id in ids then 1 else 0
    decreases |ids|
  {
    if ids != [] {
      var last := |ids| - 1;
      DistinctCount(ids[..last], id);
      assert ids == ids[..last] + [ids[last]];
    }
  }

  function PendingIds(pending: seq<Pending>): seq<string> {
    seq(|pending|, i requires 0 <= i < |pending| => pending[i].approvalId)
  }

  lemma PendingCons(first: Pending, rest: seq<Pending>, id: string)
    ensures multiset(PendingIds([first] + rest))[id] == multiset(PendingIds(rest))[id] + if first.approvalId == id then 1 else 0
  {
    assert PendingIds([first] + rest) == [first.approvalId] + PendingIds(rest);
    ConsCount(first.approvalId, PendingIds(rest), id);
  }

  lemma {:induction false} NotInCount(pending: seq<Pending>, raised: set<string>, id: string)
    ensures multiset(PendingIds(NotIn(pending, raised)))[id] == if id in raised then 0 else multiset(PendingIds(pending))[id]
    decreases |pending|
  {
    if pending != [] {
      NotInCount(pending[1..], raised, id);
      assert pending == [pending[0]] + pending[1..];
      PendingCons(pending[0], pending[1..], id);
      if pending[0].approvalId !in raised { PendingCons(pending[0], NotIn(pending[1..], raised), id); }
    }
  }

  lemma {:induction false} NotInMembers(pending: seq<Pending>, raised: set<string>, p: Pending)
    ensures p in NotIn(pending, raised) <==> p in pending && p.approvalId !in raised
    decreases |pending|
  {
    if pending != [] { NotInMembers(pending[1..], raised, p); }
  }

  lemma NotRaisedCount(pending: seq<Pending>, raised: set<string>, resolved: map<string, string>, id: string)
    ensures multiset(IdsOf(NotRaised(pending, raised, resolved)))[id] ==
      if id in raised then 0 else multiset(PendingIds(pending))[id]
  {
    NotInCount(pending, raised, id);
    assert IdsOf(NotRaised(pending, raised, resolved)) == PendingIds(NotIn(pending, raised));
  }

  lemma ConsCount(x: string, ids: seq<string>, id: string)
    ensures multiset([x] + ids)[id] == multiset(ids)[id] + if x == id then 1 else 0
  {}

  lemma RaisedIsShown(es: seq<Event>, pending: seq<Pending>, id: string)
    ensures id in Raised(es) <==> id in IdsOf(Requests(es, pending))
  {
    var rs, ids := Fold(es).requests, IdsOf(Requests(es, pending));
    assert forall i :: 0 <= i < |rs| ==> ids[i] == rs[i].approvalId;
    if id in Raised(es) {
      var i :| 0 <= i < |rs| && rs[i].approvalId == id;
      assert ids[i] == id;
    }
  }

  /** When the snapshot lists no id twice and the log raises none twice, every open request is shown
      exactly once: under the turn that raised it, or, if the log has no record of it, apart. */
  lemma OpenShownOnce(es: seq<Event>, pending: seq<Pending>, k: nat)
    requires k < |pending| && Distinct(PendingIds(pending)) && Distinct(RaisedIds(es))
    ensures var id := pending[k].approvalId;
      && multiset(IdsOf(Requests(es, pending)))[id] == (if id in Raised(es) then 1 else 0)
      && multiset(IdsOf(Unplaced(es, pending)))[id] == (if id in Raised(es) then 0 else 1)
  {
    var id := pending[k].approvalId;
    RequestsAreRaised(es, pending);
    DistinctCount(RaisedIds(es), id);
    RaisedIsShown(es, pending, id);
    NotRaisedCount(pending, Raised(es), Resolved(es), id);
    DistinctCount(PendingIds(pending), id);
    assert PendingIds(pending)[k] == id;
  }

  // ---------------------------------------------------------------- a growing log

  /** The turns of `a` are the first turns of `b`: same role, same opening event. */
  ghost predicate SameTurns(a: seq<Message>, b: seq<Message>) {
    |a| <= |b| && forall i :: 0 <= i < |a| ==> b[i].user == a[i].user && b[i].sequence == a[i].sequence
  }

  lemma EditSameTurns(messages: seq<Message>, edit: Edit)
    requires Fits(messages, edit)
    ensures SameTurns(messages, Edited(messages, edit))
  {}

  /** Requests and the identity of turns never change as the log grows. */
  lemma {:induction false} PrefixStable(es: seq<Event>, k: nat)
    requires k <= |es|
    ensures Fold(es[..k]).requests <= Fold(es).requests
    ensures SameTurns(Fold(es[..k]).messages, Fold(es).messages)
    decreases |es|
  {
    if k == |es| {
      assert es[..k] == es;
    } else {
      var init := es[..|es| - 1];
      assert init[..k] == es[..k];
      PrefixStable(init, k);
      StepRequests(Fold(init), es[|es| - 1]);
      TranscriptWellFormed(init);
      StepEdits(Fold(init), es[|es| - 1]);
      EditSameTurns(Fold(init).messages, EditOf(Fold(init), es[|es| - 1]));
    }
  }

  // ---------------------------------------------------------------- the store

  /** The position of an id, or the length of the list. */
  function Find(entries: seq<InlineApproval>, id: string): (at: nat)
    ensures at <= |entries|
    ensures at < |entries| ==> entries[at].approval.id == id
    ensures forall i :: 0 <= i < at ==> entries[i].approval.id != id
  {
    if entries == [] || entries[0].approval.id == id then 0 else 1 + Find(entries[1..], id)
  }

  /** Publishing one snapshot of a request. */
  function Published(entries: seq<InlineApproval>, entry: InlineApproval): seq<InlineApproval> {
    var at := Find(entries, entry.approval.id);
    if at < |entries| then entries[at := InlineApproval(entries[at].messageIndex, entry.approval)] else entries + [entry]
  }

  function PublishedAll(entries: seq<InlineApproval>, news: seq<InlineApproval>): seq<InlineApproval> {
    if news == [] then entries else Published(PublishedAll(entries, news[..|news| - 1]), news[|news| - 1])
  }

  /** One poll: how much of the log the page holds, and the open requests it was told of. */
  datatype Poll = Poll(length: nat, pending: seq<Pending>)

  /** The store after the page published the fold of what it held at each poll. */
  function Stored(log: seq<Event>, polls: seq<Poll>): seq<InlineApproval>
    requires forall i :: 0 <= i < |polls| ==> polls[i].length <= |log|
  {
    if polls == [] then []
    else
      var last := polls[|polls| - 1];
      PublishedAll(Stored(log, polls[..|polls| - 1]), Requests(log[..last.length], last.pending))
  }

  lemma PublishedDistinct(entries: seq<InlineApproval>, entry: InlineApproval)
    requires Distinct(IdsOf(entries))
    ensures Distinct(IdsOf(Published(entries, entry)))
  {
    var at := Find(entries, entry.approval.id);
    if at < |entries| {
      assert IdsOf(Published(entries, entry)) == IdsOf(entries);
    } else {
      assert IdsOf(Published(entries, entry)) == IdsOf(entries) + [entry.approval.id];
    }
  }

  lemma {:induction false} PublishedAllDistinct(entries: seq<InlineApproval>, news: seq<InlineApproval>)
    requires Distinct(IdsOf(entries))
    ensures Distinct(IdsOf(PublishedAll(entries, news)))
    decreases |news|
  {
    if news != [] {
      PublishedAllDistinct(entries, news[..|news| - 1]);
      PublishedDistinct(PublishedAll(entries, news[..|news| - 1]), news[|news| - 1]);
    }
  }

  lemma {:induction false} StoredDistinct(log: seq<Event>, polls: seq<Poll>)
    requires forall i :: 0 <= i < |polls| ==> polls[i].length <= |log|
    ensures Distinct(IdsOf(Stored(log, polls)))
    decreases |polls|
  {
    if polls != [] {
      var last := polls[|polls| - 1];
      StoredDistinct(log, polls[..|polls| - 1]);
      PublishedAllDistinct(Stored(log, polls[..|polls| - 1]), Requests(log[..last.length], last.pending));
    }
  }

  /** Two lists of entries for the same requests, one perhaps longer: same ids, same turns. */
  ghost predicate Agree(a: seq<InlineApproval>, b: seq<InlineApproval>) {
    forall i :: 0 <= i < |a| && i < |b| ==> a[i].approval.id == b[i].approval.id && a[i].messageIndex == b[i].messageIndex
  }

  /** `news` laid over `entries`. */
  function Laid(entries: seq<InlineApproval>, news: seq<InlineApproval>): seq<InlineApproval> {
    news + if |news| < |entries| then entries[|news|..] else []
  }

  lemma PublishNext(entries: seq<InlineApproval>, news: seq<InlineApproval>, entry: InlineApproval)
    requires Agree(entries, news + [entry]) && Distinct(IdsOf(entries)) && Distinct(IdsOf(news + [entry]))
    ensures Published(Laid(entries, news), entry) == Laid(entries, news + [entry])
  {
    var n := |news|;
    var laid, all := Laid(entries, news), news + [entry];
    assert all[n] == entry;
    forall i | 0 <= i < n ensures laid[i].approval.id != entry.approval.id {
      assert IdsOf(all)[i] != IdsOf(all)[n];
    }
    var at := Find(laid, entry.approval.id);
    if n < |entries| {
      assert laid[n] == entries[n] && entries[n].approval.id == all[n].approval.id;
      assert at == n;
      assert laid[n := InlineApproval(laid[n].messageIndex, entry.approval)] == Laid(entries, all);
    } else {
      assert laid == news;
      assert at == |laid|;
    }
  }

  lemma {:induction false} PublishLays(entries: seq<InlineApproval>, news: seq<InlineApproval>)
    requires Agree(entries, news) && Distinct(IdsOf(entries)) && Distinct(IdsOf(news))
    ensures PublishedAll(entries, news) == Laid(entries, news)
    decreases |news|
  {
    if news == [] {
      assert Laid(entries, news) == entries;
    } else {
      var init, last := news[..|news| - 1], news[|news| - 1];
      assert news == init + [last];
      assert forall i :: 0 <= i < |init| ==> IdsOf(init)[i] == IdsOf(news)[i];
      PublishLays(entries, init);
      PublishNext(entries, init, last);
    }
  }

  /** Whatever the page held, an entry is for the same request and the same turn. */
  lemma RequestsAgree(log: seq<Event>, m: nat, n: nat, p: seq<Pending>, q: seq<Pending>)
    requires m <= |log| && n <= |log|
    ensures Agree(Requests(log[..m], p), Requests(log[..n], q))
  {
    var hi := if m < n then n else m;
    assert log[..hi][..m] == log[..m] && log[..hi][..n] == log[..n];
    PrefixStable(log[..hi], m);
    PrefixStable(log[..hi], n);
  }

  /** The most of the log the page ever held. */
  function Longest(polls: seq<Poll>): nat {
    if polls == [] then 0
    else
      var before, last := Longest(polls[..|polls| - 1]), polls[|polls| - 1].length;
      if before < last then last else before
  }

  ghost predicate Tracks(entries: seq<InlineApproval>, log: seq<Event>, n: nat)
    requires n <= |log|
  {
    |entries| == |Requests(log[..n], [])| && Agree(entries, Requests(log[..n], []))
  }

  lemma {:induction false} LongestBound(log: seq<Event>, polls: seq<Poll>)
    requires forall i :: 0 <= i < |polls| ==> polls[i].length <= |log|
    ensures Longest(polls) <= |log|
    decreases |polls|
  {
    if polls != [] { LongestBound(log, polls[..|polls| - 1]); }
  }

  lemma RequestCount(log: seq<Event>, m: nat, n: nat, p: seq<Pending>, q: seq<Pending>)
    requires m <= n <= |log|
    ensures |Requests(log[..m], p)| <= |Requests(log[..n], q)|
  {
    assert log[..n][..m] == log[..m];
    PrefixStable(log[..n], m);
  }

  lemma DistinctPrefix(log: seq<Event>, m: nat, n: nat)
    requires m <= n <= |log| && Distinct(RaisedIds(log[..n]))
    ensures Distinct(RaisedIds(log[..m]))
  {
    RequestsAreRaised(log[..m], []);
    RequestsAreRaised(log[..n], []);
    RequestsAgree(log, m, n, [], []);
    RequestCount(log, m, n, [], []);
    var a, b := IdsOf(Requests(log[..m], [])), IdsOf(Requests(log[..n], []));
    assert forall i :: 0 <= i < |a| ==> a[i] == b[i];
  }

  lemma LaidTracks(entries: seq<InlineApproval>, log: seq<Event>, m: nat, poll: Poll)
    requires m <= |log| && poll.length <= |log| && Tracks(entries, log, m)
    ensures Tracks(Laid(entries, Requests(log[..poll.length], poll.pending)), log, if m < poll.length then poll.length else m)
  {
    var n := if m < poll.length then poll.length else m;
    RequestsAgree(log, poll.length, n, poll.pending, []);
    RequestsAgree(log, m, n, [], []);
    RequestCount(log, poll.length, n, poll.pending, []);
    RequestCount(log, m, n, [], []);
    if n == poll.length { RequestCount(log, n, n, [], poll.pending); }
  }

  /** The store always has the requests of the longest log seen, in order, each with its turn. */
  lemma {:induction false} StoreTracks(log: seq<Event>, polls: seq<Poll>)
    requires forall i :: 0 <= i < |polls| ==> polls[i].length <= |log|
    requires Longest(polls) <= |log| && Distinct(RaisedIds(log[..Longest(polls)]))
    ensures Tracks(Stored(log, polls), log, Longest(polls))
    decreases |polls|
  {
    if polls != [] {
      var init, last := polls[..|polls| - 1], polls[|polls| - 1];
      LongestBound(log, init);
      DistinctPrefix(log, Longest(init), Longest(polls));
      StoreTracks(log, init);
      PollLays(log, init, last);
      LaidTracks(Stored(log, init), log, Longest(init), last);
    }
  }

  /** One more poll lays the fold of what the page now holds over what the store had. */
  lemma {:induction false} PollLays(log: seq<Event>, init: seq<Poll>, last: Poll)
    requires forall i :: 0 <= i < |init| ==> init[i].length <= |log|
    requires last.length <= |log| && Longest(init) <= |log|
    requires Distinct(RaisedIds(log[..last.length])) || last.length <= Longest(init)
    requires Distinct(RaisedIds(log[..Longest(init)]))
    requires Tracks(Stored(log, init), log, Longest(init))
    ensures var news := Requests(log[..last.length], last.pending);
      PublishedAll(Stored(log, init), news) == Laid(Stored(log, init), news)
  {
    var entries, news := Stored(log, init), Requests(log[..last.length], last.pending);
    StoredDistinct(log, init);
    RequestsAreRaised(log[..last.length], last.pending);
    if last.length <= Longest(init) { DistinctPrefix(log, last.length, Longest(init)); }
    RequestsAgree(log, Longest(init), last.length, [], last.pending);
    PublishLays(entries, news);
  }

  /** After any polls, of which the last held at least as much of the log as any before, the store
      equals the fold of the whole log held, in order and with the same turns, if and only if no
      id was raised twice. */
  lemma {:induction false} StoreEqualsFold(log: seq<Event>, polls: seq<Poll>)
    requires polls != [] && (forall i :: 0 <= i < |polls| ==> polls[i].length <= |log|)
    requires Longest(polls) == polls[|polls| - 1].length
    ensures var last := polls[|polls| - 1];
      Stored(log, polls) == Requests(log[..last.length], last.pending) <==> Distinct(RaisedIds(log[..last.length]))
  {
    var init, last := polls[..|polls| - 1], polls[|polls| - 1];
    var news := Requests(log[..last.length], last.pending);
    RequestsAreRaised(log[..last.length], last.pending);
    StoredDistinct(log, polls);
    if Distinct(RaisedIds(log[..last.length])) {
      LongestBound(log, init);
      DistinctPrefix(log, Longest(init), last.length);
      StoreTracks(log, init);
      PollLays(log, init, last);
      RequestCount(log, Longest(init), last.length, [], last.pending);
      assert Laid(Stored(log, init), news) == news;
    }
  }
}
