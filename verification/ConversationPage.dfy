/** A page showing a node's conversation: it follows the run's log, folds what it holds, and
    publishes the requests of the fold into the store. */
module ConversationPage {
  import opened Runs
  import opened Approvals
  import Conversation
  import Polling

  /** A conversation is a node of a run. */
  type Key = (string, string)

  /** The page and the store. `published` remembers, for every conversation, how much of its log
      was folded each time it was published, and the open requests known then. */
  datatype Page = Page(poll: Polling.State, node: string, stored: map<Key, seq<InlineApproval>>,
                       published: map<Key, seq<Poll>>)

  datatype Event =
    | Follow(event: Polling.Event)                        // anything that happens to the polling
    | Show(node: string)                                  // another node of the run is shown
    | Publish(pending: seq<Pending>)                      // the fold changed and its requests are published
    | ChangeRun(run: string, pending: seq<Pending>)       // another run is shown

  /** The events the conversation of a node is folded from. */
  function OfNode(es: seq<Polling.LogEvent>, node: string): seq<Conversation.Event> {
    if es == [] then []
    else
      var last := es[|es| - 1];
      OfNode(es[..|es| - 1], node) + if last.node == node || last.body.RunForked? then [last.body] else []
  }

  /** A conversation is folded from its node's events and the run's forks, in order, and from nothing else. */
  lemma {:induction false} OfNodeMeans(before: seq<Polling.LogEvent>, x: Polling.LogEvent, after: seq<Polling.LogEvent>, node: string)
    ensures OfNode(before + [x] + after, node) ==
      OfNode(before, node) + (if x.node == node || x.body == Conversation.RunForked then [x.body] else []) + OfNode(after, node)
    decreases |after|
  {
    var all := before + [x] + after;
    if after == [] {
      assert all == before + [x] && (before + [x])[..|before|] == before;
    } else {
      var init, last := after[..|after| - 1], after[|after| - 1];
      assert all[..|all| - 1] == before + [x] + init && all[|all| - 1] == last;
      OfNodeMeans(before, x, init, node);
    }
  }

  function LogFor(p: Page, key: Key): seq<Conversation.Event> {
    OfNode(Polling.LogOf(p.poll, key.0), key.1)
  }

  function StoreFor(p: Page, key: Key): seq<InlineApproval> {
    if key in p.stored then p.stored[key] else []
  }

  function PollsFor(p: Page, key: Key): seq<Poll> {
    if key in p.published then p.published[key] else []
  }

  function Shown(p: Page): Key {
    (p.poll.run, p.node)
  }

  /** What the page folds. */
  function Held(p: Page): seq<Conversation.Event> {
    OfNode(p.poll.events, p.node)
  }

  function PublishNow(p: Page, pending: seq<Pending>): Page {
    var key := Shown(p);
    p.(stored := p.stored[key := PublishedAll(StoreFor(p, key), Requests(Held(p), pending))],
       published := p.published[key := PollsFor(p, key) + [Poll(|Held(p)|, pending)]])
  }

  /** In the commit that shows another run, the page still has the events of the run it leaves, and
      publishes their fold under the conversation it comes to. */
  function PublishStale(p: Page, run: string, pending: seq<Pending>): Page {
    var key := (run, p.node);
    p.(stored := p.stored[key := PublishedAll(StoreFor(p, key), Requests(Held(p), pending))])
  }

  /** Following a log is not leaving its run. */
  predicate Leaves(p: Page, e: Polling.Event) {
    e.Rerun? && e.run != p.poll.run
  }

  function Step(p: Page, e: Event): Page {
    match e
    case Follow(event) => if Leaves(p, event) then p else p.(poll := Polling.Step(p.poll, event))
    case Show(node) => p.(node := node)
    case Publish(pending) => PublishNow(p, pending)
    case ChangeRun(run, pending) =>
      (if run == p.poll.run then p else PublishStale(p, run, pending)).(poll := Polling.Step(p.poll, Polling.Rerun(run)))
  }

  function Opened(run: string, node: string): Page {
    Page(Polling.Opened(run), node, map[], map[])
  }

  // ---------------------------------------------------------------- growing logs

  lemma {:induction false} OfNodePrefix(es: seq<Polling.LogEvent>, k: nat, node: string)
    requires k <= |es|
    ensures OfNode(es[..k], node) <= OfNode(es, node)
    decreases |es|
  {
    if k < |es| {
      var init := es[..|es| - 1];
      OfNodePrefix(init, k, node);
      assert init[..k] == es[..k];
    } else {
      assert es[..k] == es;
    }
  }

  ghost predicate Bounded(log: seq<Conversation.Event>, polls: seq<Poll>) {
    forall i :: 0 <= i < |polls| ==> polls[i].length <= |log|
  }

  /** Published folds do not depend on what the log came to later. */
  lemma {:induction false} StoredPrefix(log: seq<Conversation.Event>, more: seq<Conversation.Event>, polls: seq<Poll>)
    requires log <= more && Bounded(log, polls)
    ensures Bounded(more, polls) && Stored(more, polls) == Stored(log, polls)
    decreases |polls|
  {
    if polls != [] {
      var last := polls[|polls| - 1];
      StoredPrefix(log, more, polls[..|polls| - 1]);
      assert more[..last.length] == log[..last.length];
    }
  }

  lemma StoredMore(log: seq<Conversation.Event>, polls: seq<Poll>, poll: Poll)
    requires Bounded(log, polls) && poll.length <= |log|
    ensures Bounded(log, polls + [poll])
    ensures Stored(log, polls + [poll]) == PublishedAll(Stored(log, polls), Requests(log[..poll.length], poll.pending))
  {
    assert (polls + [poll])[..|polls|] == polls;
  }

  /** Logs only ever grow. */
  lemma LogsGrow(s: Polling.State, e: Polling.Event, run: string)
    ensures Polling.LogOf(s, run) <= Polling.LogOf(Polling.Step(s, e), run)
  {}

  lemma LogForGrows(p: Page, e: Polling.Event, key: Key)
    ensures LogFor(p, key) <= LogFor(p.(poll := Polling.Step(p.poll, e)), key)
  {
    var before, after := Polling.LogOf(p.poll, key.0), Polling.LogOf(Polling.Step(p.poll, e), key.0);
    LogsGrow(p.poll, e, key.0);
    OfNodePrefix(after, |before|, key.1);
    assert after[..|before|] == before;
  }

  // ---------------------------------------------------------------- the store

  /** The store of a conversation is what publishing its folds, one after the other, made it. */
  ghost predicate Follows(log: seq<Conversation.Event>, polls: seq<Poll>, stored: seq<InlineApproval>) {
    Bounded(log, polls) && stored == Stored(log, polls)
  }

  ghost predicate FollowsAt(p: Page, key: Key) {
    Follows(LogFor(p, key), PollsFor(p, key), StoreFor(p, key))
  }

  ghost predicate Inv(p: Page) {
    Polling.Inv(p.poll) && forall key: Key :: FollowsAt(p, key)
  }

  lemma FollowKeeps(p: Page, e: Polling.Event, key: Key)
    requires FollowsAt(p, key)
    ensures FollowsAt(p.(poll := Polling.Step(p.poll, e)), key)
  {
    LogForGrows(p, e, key);
    StoredPrefix(LogFor(p, key), LogFor(p.(poll := Polling.Step(p.poll, e)), key), PollsFor(p, key));
  }

  /** What the page folds is the first part of the conversation's log. */
  lemma HeldIsPrefix(p: Page)
    requires Polling.Inv(p.poll)
    ensures Held(p) <= LogFor(p, Shown(p))
  {
    var log := Polling.LogOf(p.poll, p.poll.run);
    OfNodePrefix(log, |p.poll.events|, p.node);
    assert log[..|p.poll.events|] == p.poll.events;
  }

  lemma PublishKeeps(p: Page, pending: seq<Pending>, key: Key)
    requires Polling.Inv(p.poll) && FollowsAt(p, key)
    ensures FollowsAt(PublishNow(p, pending), key)
  {
    if key == Shown(p) {
      HeldIsPrefix(p);
      StoredMore(LogFor(p, key), PollsFor(p, key), Poll(|Held(p)|, pending));
      assert LogFor(p, key)[..|Held(p)|] == Held(p);
    }
  }

  lemma PollKeeps(p: Page, e: Polling.Event)
    requires Inv(p)
    ensures Inv(p.(poll := Polling.Step(p.poll, e)))
  {
    Polling.StepKeeps(p.poll, e);
    forall key: Key ensures FollowsAt(p.(poll := Polling.Step(p.poll, e)), key) {
      assert FollowsAt(p, key);
      FollowKeeps(p, e, key);
    }
  }

  /** The page leaves a run only when what it holds of the shown conversation raised no request. */
  ghost predicate CleanStep(p: Page, e: Event) {
    e.ChangeRun? && e.run != p.poll.run ==> RaisedIds(Held(p)) == []
  }

  lemma NothingToPublish(es: seq<Conversation.Event>, pending: seq<Pending>)
    ensures Requests(es, pending) == [] <==> RaisedIds(es) == []
  {
    RequestsAreRaised(es, pending);
    assert |IdsOf(Requests(es, pending))| == |Requests(es, pending)|;
  }

  lemma StaleKeeps(p: Page, run: string, pending: seq<Pending>)
    requires Inv(p) && RaisedIds(Held(p)) == []
    ensures Inv(PublishStale(p, run, pending))
  {
    NothingToPublish(Held(p), pending);
    forall key: Key ensures FollowsAt(PublishStale(p, run, pending), key) { assert FollowsAt(p, key); }
  }

  lemma InvKept(p: Page, e: Event)
    requires Inv(p) && CleanStep(p, e)
    ensures Inv(Step(p, e))
  {
    match e {
      case Follow(event) => PollKeeps(p, event);
      case Show(node) =>
        forall key: Key ensures FollowsAt(Step(p, e), key) { assert FollowsAt(p, key); }
      case Publish(pending) =>
        forall key: Key ensures FollowsAt(Step(p, e), key) {
          assert FollowsAt(p, key);
          PublishKeeps(p, pending, key);
        }
      case ChangeRun(run, pending) =>
        if run == p.poll.run {
          PollKeeps(p, Polling.Rerun(run));
        } else {
          StaleKeeps(p, run, pending);
          PollKeeps(PublishStale(p, run, pending), Polling.Rerun(run));
        }
    }
  }

  ghost predicate CleanRun(p: Page, es: seq<Event>)
    decreases |es|
  {
    es != [] ==> CleanRun(p, es[..|es| - 1]) && CleanStep(Run(Step, p, es[..|es| - 1]), es[|es| - 1])
  }

  /** On every interleaving of polls, refreshes, node changes, failures, cancelled loads, publications
      and run changes at which nothing stale is published, the store of every conversation is what
      publishing the folds of its own log made it. */
  lemma {:induction false} EveryRunKeeps(run: string, node: string, es: seq<Event>)
    requires CleanRun(Opened(run, node), es)
    ensures Inv(Run(Step, Opened(run, node), es))
    decreases |es|
  {
    if es == [] {
      Polling.EveryRunKeeps(run, []);
    } else {
      var init := es[..|es| - 1];
      EveryRunKeeps(run, node, init);
      InvKept(Run(Step, Opened(run, node), init), es[|es| - 1]);
    }
  }

  /** Showing another run, none of whose requests were published before, leaves its conversation's
      store empty exactly when the events still held raised no request. */
  lemma StaleExactly(p: Page, run: string, pending: seq<Pending>)
    requires run != p.poll.run && StoreFor(p, (run, p.node)) == []
    ensures var q := Step(p, ChangeRun(run, pending));
      Shown(q) == (run, p.node) && (StoreFor(q, Shown(q)) == [] <==> RaisedIds(Held(p)) == [])
  {
    NothingToPublish(Held(p), pending);
    PublishedSome([], Requests(Held(p), pending));
  }

  lemma {:induction false} PublishedSome(entries: seq<InlineApproval>, news: seq<InlineApproval>)
    ensures PublishedAll(entries, news) == [] <==> entries == [] && news == []
    decreases |news|
  {
    if news != [] { PublishedSome(entries, news[..|news| - 1]); }
  }

  function Asks(id: string): Conversation.Event {
    Conversation.ApprovalRequested(1, id, "tool_use", "", "", "", "")
  }

  lemma AsksRaises(id: string)
    requires id != ""
    ensures RaisedIds([Asks(id)]) == [id]
  {
    assert [Asks(id)][..0] == [] && RaisedIds([]) == [];
  }

  function Asked(id: string): Polling.LogEvent {
    Polling.LogEvent(1, "node", Asks(id))
  }

  /** A page of the run `old` that has loaded the one event of its log. */
  function Loaded(id: string): Page {
    Step(Step(Step(Opened("old", "node"), Follow(Polling.Log("old", Asked(id)))), Follow(Polling.Serve(0, 1))), Follow(Polling.Complete(0)))
  }

  lemma LoadedHolds(id: string)
    ensures var p := Loaded(id);
      && p.poll.run == "old" && p.node == "node" && p.poll.events == [Asked(id)]
      && p.poll.logs == map["old" := [Asked(id)]] && p.stored == map[]
  {
    var p1 := Step(Opened("old", "node"), Follow(Polling.Log("old", Asked(id))));
    assert [] + [Asked(id)] == [Asked(id)];
    assert p1.poll.logs == map["old" := [Asked(id)]] && p1.poll.loads == [Polling.Load(0, "old", 0, Polling.Unanswered)];
    Polling.AfterNothing([Asked(id)], 0);
    assert Polling.Take([Asked(id)], 1) == [Asked(id)];
    var p2 := Step(p1, Follow(Polling.Serve(0, 1)));
    assert p2.poll.loads[0].reply == Polling.Answered([Asked(id)]);
  }

  /** Shown another run, that page files the request under a conversation whose log is empty. */
  lemma StalePublished(id: string)
    requires id != ""
    ensures var q := Step(Loaded(id), ChangeRun("new", []));
      LogFor(q, Shown(q)) == [] && StoreFor(q, Shown(q)) != []
  {
    var p := Loaded(id);
    LoadedHolds(id);
    assert [Asked(id)][..0] == [] && OfNode([], "node") == [];
    assert Held(p) == [Asks(id)];
    AsksRaises(id);
    StaleExactly(p, "new", []);
  }

  // ---------------------------------------------------------------- the store is the fold

  /** Right after a publication that folded at least as much as any before it, the store is the
      fold of the log up to the page's cursor, if and only if no id was raised twice there. */
  lemma PublishedIsFold(p: Page, pending: seq<Pending>)
    requires Inv(p) && Longest(PollsFor(p, Shown(p))) <= |Held(p)|
    ensures var q := Step(p, Publish(pending));
      StoreFor(q, Shown(q)) == Requests(Held(p), pending) <==> Distinct(RaisedIds(Held(p)))
  {
    var q, key := Step(p, Publish(pending)), Shown(p);
    var polls := PollsFor(p, key) + [Poll(|Held(p)|, pending)];
    InvKept(p, Publish(pending));
    assert FollowsAt(q, key) && PollsFor(q, key) == polls && LogFor(q, key) == LogFor(p, key);
    assert polls[..|polls| - 1] == PollsFor(p, key);
    HeldIsPrefix(p);
    StoreEqualsFold(LogFor(p, key), polls);
    assert LogFor(p, key)[..|Held(p)|] == Held(p);
  }

  /** The page stays with its run; it may refresh and show other nodes of it. */
  predicate Stays(run: string, e: Event) {
    e.ChangeRun? ==> e.run == run
  }

  /** All that was published of the run is held. */
  ghost predicate HoldsPublished(p: Page, run: string) {
    p.poll.run == run && forall node :: Longest(PollsFor(p, (run, node))) <= |OfNode(p.poll.events, node)|
  }

  lemma EventsGrow(s: Polling.State, e: Polling.Event)
    requires e.Rerun? ==> e.run == s.run
    ensures s.events <= Polling.Step(s, e).events && Polling.Step(s, e).run == s.run
  {}

  lemma HoldsFollowed(p: Page, e: Polling.Event, run: string)
    requires HoldsPublished(p, run) && (e.Rerun? ==> e.run == run)
    ensures HoldsPublished(p.(poll := Polling.Step(p.poll, e)), run)
  {
    var events := Polling.Step(p.poll, e).events;
    EventsGrow(p.poll, e);
    forall node ensures Longest(PollsFor(p, (run, node))) <= |OfNode(events, node)| {
      assert Longest(PollsFor(p, (run, node))) <= |OfNode(p.poll.events, node)|;
      OfNodePrefix(events, |p.poll.events|, node);
      assert events[..|p.poll.events|] == p.poll.events;
    }
  }

  lemma HoldsKept(p: Page, e: Event, run: string)
    requires HoldsPublished(p, run) && Stays(run, e)
    ensures HoldsPublished(Step(p, e), run)
  {
    match e {
      case Follow(event) => if !Leaves(p, event) { HoldsFollowed(p, event, run); }
      case Show(_) =>
      case Publish(pending) =>
        forall node ensures Longest(PollsFor(Step(p, e), (run, node))) <= |OfNode(p.poll.events, node)| {
          var polls := PollsFor(p, (run, node));
          assert Longest(polls) <= |OfNode(p.poll.events, node)|;
          if node == p.node { assert (polls + [Poll(|Held(p)|, pending)])[..|polls|] == polls; }
        }
      case ChangeRun(_, _) => HoldsFollowed(p, Polling.Rerun(run), run);
    }
  }

  lemma {:induction false} HoldsAlways(run: string, node: string, es: seq<Event>)
    requires forall i :: 0 <= i < |es| ==> Stays(run, es[i])
    ensures HoldsPublished(Run(Step, Opened(run, node), es), run) && CleanRun(Opened(run, node), es)
    decreases |es|
  {
    if es != [] {
      var init := es[..|es| - 1];
      HoldsAlways(run, node, init);
      HoldsKept(Run(Step, Opened(run, node), init), es[|es| - 1], run);
    }
  }

  /** The conversation's events up to the page's cursor. */
  function Seen(p: Page): seq<Conversation.Event> {
    OfNode(Polling.UpTo(Polling.LogOf(p.poll, p.poll.run), p.poll.cursor), p.node)
  }

  lemma SeenIsHeld(p: Page)
    requires Inv(p)
    ensures Seen(p) == Held(p)
  {
    Polling.HoldsUpTo(p.poll);
  }

  lemma PublishedAllHeld(p: Page, run: string)
    requires HoldsPublished(p, run)
    ensures Longest(PollsFor(p, Shown(p))) <= |Held(p)|
  {}

  /** The theorem of the page. On every interleaving of polls, refreshes, failures, answers to cancelled
      loads, node changes and publications of a page that stays with its run, every publication
      leaves the store of the shown conversation equal to the requests folded from exactly the
      log's events up to the cursor, in order and with their turns, if and only if no id was raised
      twice among them. */
  lemma {:induction false} StoreIsFoldOfLog(run: string, node: string, es: seq<Event>, pending: seq<Pending>)
    requires forall i :: 0 <= i < |es| ==> Stays(run, es[i])
    ensures var p := Run(Step, Opened(run, node), es);
      var q := Step(p, Publish(pending));
      StoreFor(q, Shown(q)) == Requests(Seen(p), pending) <==> Distinct(RaisedIds(Seen(p)))
  {
    var p := Run(Step, Opened(run, node), es);
    HoldsAlways(run, node, es);
    EveryRunKeeps(run, node, es);
    PublishedAllHeld(p, run);
    PublishedIsFold(p, pending);
    SeenIsHeld(p);
  }
}
