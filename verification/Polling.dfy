/** A page following a run's event log: it polls with a cursor, refreshes at will, switches to
    other runs, and ignores the answers to loads it has given up. */
module Polling {
  import opened Runs
  import Conversation

  /** An event of a run's log, and the node it is about. */
  datatype LogEvent = LogEvent(sequence: nat, node: string, body: Conversation.Event)

  /** A request for events, in flight or done. It belongs to the effect that started it. */
  datatype Load = Load(effect: nat, run: string, cursor: nat, reply: Reply)

  datatype Reply = Unanswered | Answered(feed: seq<LogEvent>) | Broken | Finished

  /** The server's logs, and the page: the run it shows, its cursor, the events it holds, the effect
      now in force, every load ever started, and whether the next poll is scheduled. */
  datatype State = State(logs: map<string, seq<LogEvent>>, run: string, cursor: nat, events: seq<LogEvent>,
                         effect: nat, loads: seq<Load>, timer: bool)

  datatype Event =
    | Log(run: string, entry: LogEvent)       // the server's log grows
    | Rerun(run: string)                      // refreshed, or shown another run
    | Serve(load: nat, count: nat)            // the server answers, with some of what is new
    | Break(load: nat)                        // the request fails
    | Complete(load: nat)                     // the page gets the answer, or the failure
    | Timer                                   // a second has passed

  function LogOf(s: State, run: string): seq<LogEvent> {
    if run in s.logs then s.logs[run] else []
  }

  /** What the server returns for a cursor: the events after it. */
  function After(log: seq<LogEvent>, cursor: nat): seq<LogEvent> {
    if log == [] then [] else (if log[0].sequence > cursor then [log[0]] else []) + After(log[1..], cursor)
  }

  function Take(s: seq<LogEvent>, count: nat): seq<LogEvent> {
    if count <= |s| then s[..count] else s
  }

  function MaxSequence(cursor: nat, feed: seq<LogEvent>): nat
    decreases |feed|
  {
    if feed == [] then cursor
    else MaxSequence(if feed[0].sequence > cursor then feed[0].sequence else cursor, feed[1..])
  }

  /** Start a load at the current cursor. */
  function StartLoad(s: State): State {
    s.(loads := s.loads + [Load(s.effect, s.run, s.cursor, Unanswered)], timer := false)
  }

  function Enter(s: State, run: string): State {
    StartLoad(if run != s.run then s.(run := run, cursor := 0, events := [], effect := s.effect + 1)
              else s.(effect := s.effect + 1))
  }

  function SetReply(s: State, i: nat, reply: Reply): State
    requires i < |s.loads|
  {
    s.(loads := s.loads[i := s.loads[i].(reply := reply)])
  }

  /** The answer reaches the page. A load of an earlier effect was cancelled and changes nothing. */
  function Deliver(s: State, i: nat): State
    requires i < |s.loads|
  {
    var done := SetReply(s, i, Finished);
    if s.loads[i].effect != s.effect then done
    else match s.loads[i].reply
      case Answered(feed) =>
        done.(cursor := MaxSequence(s.cursor, feed), events := s.events + feed, timer := true)
      case _ => done.(timer := true)
  }

  function Step(s: State, e: Event): State {
    match e
    case Log(run, entry) =>
      if Grows(LogOf(s, run), entry) then s.(logs := s.logs[run := LogOf(s, run) + [entry]]) else s
    case Rerun(run) => Enter(s, run)
    case Serve(i, count) =>
      if i < |s.loads| && s.loads[i].reply.Unanswered?
      then SetReply(s, i, Answered(Take(After(LogOf(s, s.loads[i].run), s.loads[i].cursor), count))) else s
    case Break(i) => if i < |s.loads| && s.loads[i].reply.Unanswered? then SetReply(s, i, Broken) else s
    case Complete(i) =>
      if i < |s.loads| && (s.loads[i].reply.Answered? || s.loads[i].reply.Broken?) then Deliver(s, i) else s
    case Timer => if s.timer then StartLoad(s) else s
  }

  /** A log's sequence numbers are positive and increase. */
  predicate Grows(log: seq<LogEvent>, entry: LogEvent) {
    entry.sequence > if log == [] then 0 else log[|log| - 1].sequence
  }

  function Opened(run: string): State {
    StartLoad(State(map[], run, 0, [], 0, [], false))
  }

  // ---------------------------------------------------------------- logs and cursors

  ghost predicate Ordered(log: seq<LogEvent>) {
    && (forall i :: 0 <= i < |log| ==> log[i].sequence > 0)
    && (forall i, j :: 0 <= i < j < |log| ==> log[i].sequence < log[j].sequence)
  }

  /** `cursor` stands right behind the first `n` events of the log. */
  ghost predicate Behind(log: seq<LogEvent>, n: nat, cursor: nat) {
    n <= |log| && cursor == if n == 0 then 0 else log[n - 1].sequence
  }

  lemma {:induction false} AfterNothing(log: seq<LogEvent>, cursor: nat)
    requires forall i :: 0 <= i < |log| ==> log[i].sequence > cursor
    ensures After(log, cursor) == log
  {
    if log != [] {
      AfterNothing(log[1..], cursor);
      assert log == [log[0]] + log[1..];
    }
  }

  /** The events after a cursor are the rest of the log. */
  lemma {:induction false} AfterIsRest(log: seq<LogEvent>, n: nat, cursor: nat)
    requires n <= |log|
    requires forall i :: 0 <= i < n ==> log[i].sequence <= cursor
    requires forall i :: n <= i < |log| ==> log[i].sequence > cursor
    ensures After(log, cursor) == log[n..]
  {
    if n == 0 {
      AfterNothing(log, cursor);
    } else {
      AfterIsRest(log[1..], n - 1, cursor);
      assert log[1..][n - 1..] == log[n..];
    }
  }

  lemma {:induction false} MaxOfIncreasing(cursor: nat, feed: seq<LogEvent>)
    requires forall i, j :: 0 <= i < j < |feed| ==> feed[i].sequence < feed[j].sequence
    requires feed != [] ==> cursor < feed[0].sequence
    ensures MaxSequence(cursor, feed) == if feed == [] then cursor else feed[|feed| - 1].sequence
    decreases |feed|
  {
    if feed != [] { MaxOfIncreasing(feed[0].sequence, feed[1..]); }
  }

  // ---------------------------------------------------------------- what the page holds

  /** `feed` is what comes next in the log behind the events held. */
  ghost predicate NextOf(log: seq<LogEvent>, events: seq<LogEvent>, feed: seq<LogEvent>) {
    events + feed <= log
  }

  /** The load in force asks for what comes right behind what the page holds. */
  ghost predicate GoodLoad(s: State, load: Load) {
    load.effect == s.effect && !load.reply.Finished? ==>
      && load.run == s.run && load.cursor == s.cursor
      && (load.reply.Answered? ==> NextOf(LogOf(s, s.run), s.events, load.reply.feed))
  }

  /** The page holds the first events of an ordered log, and its cursor stands behind them. */
  ghost predicate Holds(log: seq<LogEvent>, events: seq<LogEvent>, cursor: nat) {
    Ordered(log) && events <= log && Behind(log, |events|, cursor)
  }

  /** At most one load is in force, and none while the next poll is scheduled. */
  ghost predicate OneInForce(loads: seq<Load>, effect: nat, timer: bool) {
    && (forall i :: 0 <= i < |loads| ==> loads[i].effect <= effect)
    && (forall i, j :: 0 <= i < j < |loads| && loads[i].effect == effect && loads[j].effect == effect ==>
          loads[i].reply.Finished?)
    && (timer ==> forall i :: 0 <= i < |loads| && loads[i].effect == effect ==> loads[i].reply.Finished?)
  }

  ghost predicate GoodLoads(s: State) {
    forall i :: 0 <= i < |s.loads| ==> GoodLoad(s, s.loads[i])
  }

  ghost predicate Inv(s: State) {
    && (forall run :: run in s.logs ==> Ordered(s.logs[run]))
    && Holds(LogOf(s, s.run), s.events, s.cursor)
    && OneInForce(s.loads, s.effect, s.timer)
    && GoodLoads(s)
  }

  lemma LogGrows(log: seq<LogEvent>, entry: LogEvent)
    requires Ordered(log) && Grows(log, entry)
    ensures Ordered(log + [entry])
  {}

  lemma HoldsStill(log: seq<LogEvent>, entry: LogEvent, events: seq<LogEvent>, cursor: nat)
    requires Holds(log, events, cursor) && Grows(log, entry)
    ensures Holds(log + [entry], events, cursor)
  {
    LogGrows(log, entry);
  }

  lemma NextStill(log: seq<LogEvent>, entry: LogEvent, events: seq<LogEvent>, feed: seq<LogEvent>)
    requires NextOf(log, events, feed)
    ensures NextOf(log + [entry], events, feed)
  {}

  lemma LogKeeps(s: State, run: string, entry: LogEvent)
    requires Inv(s)
    ensures Inv(Step(s, Log(run, entry)))
  {
    if Grows(LogOf(s, run), entry) {
      var s' := Step(s, Log(run, entry));
      LogGrows(LogOf(s, run), entry);
      if run == s.run { HoldsStill(LogOf(s, run), entry, s.events, s.cursor); }
      forall i | 0 <= i < |s.loads| ensures GoodLoad(s', s.loads[i]) {
        assert GoodLoad(s, s.loads[i]);
        if run == s.run && s.loads[i].effect == s.effect && s.loads[i].reply.Answered? {
          NextStill(LogOf(s, run), entry, s.events, s.loads[i].reply.feed);
        }
      }
    }
  }

  lemma EnterKeeps(s: State, run: string)
    requires Inv(s)
    ensures Inv(Enter(s, run))
  {
    var s' := Enter(s, run);
    forall i | 0 <= i < |s'.loads| ensures s'.loads[i].effect <= s'.effect && GoodLoad(s', s'.loads[i]) {
      if i < |s.loads| { assert s'.loads[i] == s.loads[i]; }
    }
  }

  /** Changing the reply of a load that was not finished. */
  lemma ReplyKeeps(s: State, i: nat, reply: Reply)
    requires Inv(s) && i < |s.loads| && !s.loads[i].reply.Finished?
    requires s.loads[i].effect == s.effect && reply.Answered? ==> NextOf(LogOf(s, s.run), s.events, reply.feed)
    ensures Inv(SetReply(s, i, reply))
  {
    var s' := SetReply(s, i, reply);
    assert GoodLoad(s, s.loads[i]);
    forall k | 0 <= k < |s'.loads| ensures GoodLoad(s', s'.loads[k]) {
      assert GoodLoad(s, s.loads[k]);
    }
  }

  lemma ServeKeeps(s: State, i: nat, count: nat)
    requires Inv(s)
    ensures Inv(Step(s, Serve(i, count)))
  {
    if i < |s.loads| && s.loads[i].reply.Unanswered? {
      assert GoodLoad(s, s.loads[i]);
      var feed := Take(After(LogOf(s, s.loads[i].run), s.loads[i].cursor), count);
      if s.loads[i].effect == s.effect { ServedIsNext(LogOf(s, s.run), s.events, s.cursor, count); }
      ReplyKeeps(s, i, Answered(feed));
    }
  }

  lemma ServedIsNext(log: seq<LogEvent>, events: seq<LogEvent>, cursor: nat, count: nat)
    requires Holds(log, events, cursor)
    ensures NextOf(log, events, Take(After(log, cursor), count))
  {
    var n := |events|;
    AfterIsRest(log, n, cursor);
    assert events == log[..n];
    assert events + log[n..] == log;
    if count <= |log[n..]| { assert events + log[n..][..count] == log[..n + count]; }
  }

  lemma FeedAt(log: seq<LogEvent>, events: seq<LogEvent>, feed: seq<LogEvent>, k: nat)
    requires NextOf(log, events, feed) && k < |feed|
    ensures |events| + k < |log| && feed[k] == log[|events| + k]
  {
    assert (events + feed)[|events| + k] == feed[k];
  }

  lemma FeedIncreases(log: seq<LogEvent>, events: seq<LogEvent>, cursor: nat, feed: seq<LogEvent>)
    requires Holds(log, events, cursor) && NextOf(log, events, feed)
    ensures forall i, j :: 0 <= i < j < |feed| ==> feed[i].sequence < feed[j].sequence
    ensures feed != [] ==> cursor < feed[0].sequence
  {
    forall i, j | 0 <= i < j < |feed| ensures feed[i].sequence < feed[j].sequence {
      FeedAt(log, events, feed, i);
      FeedAt(log, events, feed, j);
    }
    if feed != [] { FeedAt(log, events, feed, 0); }
  }

  /** A feed that comes next extends what is held, and the cursor moves behind it. */
  lemma FeedExtends(log: seq<LogEvent>, events: seq<LogEvent>, cursor: nat, feed: seq<LogEvent>)
    requires Holds(log, events, cursor) && NextOf(log, events, feed)
    ensures Holds(log, events + feed, MaxSequence(cursor, feed))
  {
    FeedIncreases(log, events, cursor, feed);
    MaxOfIncreasing(cursor, feed);
    if feed == [] {
      assert events + feed == events;
    } else {
      FeedAt(log, events, feed, |feed| - 1);
    }
  }

  lemma AllFinished(loads: seq<Load>, effect: nat, i: nat)
    requires OneInForce(loads, effect, false) && i < |loads| && loads[i].effect == effect && !loads[i].reply.Finished?
    ensures OneInForce(loads[i := loads[i].(reply := Finished)], effect, true)
  {}

  lemma GoodWhenFinished(s: State)
    requires OneInForce(s.loads, s.effect, true)
    ensures GoodLoads(s)
  {}

  lemma CompleteKeeps(s: State, i: nat)
    requires Inv(s) && i < |s.loads| && (s.loads[i].reply.Answered? || s.loads[i].reply.Broken?)
    ensures Inv(Deliver(s, i))
  {
    if s.loads[i].effect == s.effect {
      assert GoodLoad(s, s.loads[i]);
      if s.loads[i].reply.Answered? { FeedExtends(LogOf(s, s.run), s.events, s.cursor, s.loads[i].reply.feed); }
      AllFinished(s.loads, s.effect, i);
      GoodWhenFinished(Deliver(s, i));
    } else {
      ReplyKeeps(s, i, Finished);
    }
  }

  lemma StepKeeps(s: State, e: Event)
    requires Inv(s)
    ensures Inv(Step(s, e))
  {
    match e {
      case Log(run, entry) => LogKeeps(s, run, entry);
      case Rerun(run) => EnterKeeps(s, run);
      case Serve(i, count) => ServeKeeps(s, i, count);
      case Break(i) => if i < |s.loads| && s.loads[i].reply.Unanswered? { ReplyKeeps(s, i, Broken); }
      case Complete(i) =>
        if i < |s.loads| && (s.loads[i].reply.Answered? || s.loads[i].reply.Broken?) { CompleteKeeps(s, i); }
      case Timer =>
    }
  }

  lemma {:induction false} EveryRunKeeps(run: string, es: seq<Event>)
    ensures Inv(Run(Step, Opened(run), es))
  {
    forall s: State, e | Inv(s) ensures Inv(Step(s, e)) { StepKeeps(s, e); }
    RunKeeps(Step, (s: State) => Inv(s), Opened(run), es);
  }

  /** The events a cursor has passed. */
  function UpTo(log: seq<LogEvent>, cursor: nat): seq<LogEvent> {
    if log == [] then [] else (if log[0].sequence <= cursor then [log[0]] else []) + UpTo(log[1..], cursor)
  }

  lemma {:induction false} UpToIsPrefix(log: seq<LogEvent>, n: nat, cursor: nat)
    requires n <= |log|
    requires forall i :: 0 <= i < n ==> log[i].sequence <= cursor
    requires forall i :: n <= i < |log| ==> log[i].sequence > cursor
    ensures UpTo(log, cursor) == log[..n]
  {
    if log != [] {
      if n > 0 {
        UpToIsPrefix(log[1..], n - 1, cursor);
        assert log[..n] == [log[0]] + log[1..][..n - 1];
      } else {
        UpToIsPrefix(log[1..], 0, cursor);
      }
    }
  }

  lemma HoldsUpTo(s: State)
    requires Inv(s)
    ensures s.events == UpTo(LogOf(s, s.run), s.cursor)
  {
    UpToIsPrefix(LogOf(s, s.run), |s.events|, s.cursor);
  }

  /** At every moment of every interleaving of polls, refreshes, run changes, failures and answers to
      cancelled loads, the page holds exactly the events of its run's log up to its cursor: no
      gap, no duplicate, nothing of another run. */
  lemma {:induction false} PageHoldsPrefix(run: string, es: seq<Event>)
    ensures var s := Run(Step, Opened(run), es);
      s.events == UpTo(LogOf(s, s.run), s.cursor) && s.events <= LogOf(s, s.run)
  {
    EveryRunKeeps(run, es);
    HoldsUpTo(Run(Step, Opened(run), es));
  }

  /** The page's loop over a feed. */
  method AdvanceCursor(cursor: nat, feed: seq<LogEvent>) returns (advanced: nat)
    ensures advanced == MaxSequence(cursor, feed)
    ensures advanced >= cursor && forall i :: 0 <= i < |feed| ==> feed[i].sequence <= advanced
  {
    advanced := cursor;
    for i := 0 to |feed|
      invariant MaxSequence(cursor, feed) == MaxSequence(advanced, feed[i..])
      invariant advanced >= cursor && forall k :: 0 <= k < i ==> feed[k].sequence <= advanced
    {
      if feed[i].sequence > advanced { advanced := feed[i].sequence; }
      assert feed[i..][1..] == feed[i + 1..];
    }
  }
}
