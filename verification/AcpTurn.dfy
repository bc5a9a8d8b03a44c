/** Turns of an agent session: updates arrive on the read loop, the request that started the
    turn runs as its own task, and a consumer takes both from the turn's queue.

    Each event below is one stretch of code between two suspension points. A queue belongs
    to the turn that opened it; the client's `streams` says whose queue a session's updates
    go to. */
module AcpTurn {
  import opened Options
  import opened Runs

  /** An update of a session, as the consumer tells them apart. */
  datatype Update = ErrorUpdate(message: string) | ToolStarted(id: nat) | MessageDelta(text: string) | Other(id: nat)

  /** How the prompt request ended, when its answer could be read. */
  datatype Result = Success(value: string) | Failure(error: string)

  /** A queued item. A completion remembers the turn whose task queued it. */
  datatype Item = Queued(update: Update) | Completion(turn: nat, result: Result)

  /** The task running the request. An answer that is no object and not null is never queued. */
  datatype Task = Running | Delivered(result: Result) | Unreadable | TaskCancelled

  /** What became of the consumer: it waits for the next item, was given the completion, got an
      error, or stopped early. */
  datatype Consumer = Iterating | Completed | Failed | Stopped

  datatype Yielded = Updated(update: Update) | PromptCompleted(value: string)

  /** `left` says that the generator's clean-up has run. After the completion was yielded the
      generator is suspended once more, and is cleaned up when it is resumed or closed. */
  datatype Turn = Turn(session: string, queue: seq<Item>, task: Task, consumer: Consumer, left: bool,
                       yielded: seq<Yielded>, usedTools: bool, diagnostic: string)

  /** `providerError` recognizes a provider's error envelope in the last text of a turn. */
  datatype State = State(providerError: string -> bool, closed: bool, streams: map<string, nat>, turns: seq<Turn>)

  datatype Event =
    | Prompt(session: string)
    | Read(to: Option<string>, update: Update)     // an update came in
    | Finish(turn: nat, result: Result)            // the prompt request was answered, or failed
    | FinishUnreadable(turn: nat)
    | Consume(turn: nat)                           // the consumer takes the next item
    | Stop(turn: nat)                              // the consumer stops early, or is done: clean-up
    | CloseSession(session: string)
    | CloseClient

  function Fresh(providerError: string -> bool): State {
    State(providerError, false, map[], [])
  }

  // ---------------------------------------------------------------- the steps

  /** The last 8192 characters. */
  function Tail(text: string): string {
    if |text| <= 8192 then text else text[|text| - 8192..]
  }

  function Opened(session: string): Turn {
    Turn(session, [], Running, Iterating, false, [], false, "")
  }

  function CloseStream(streams: map<string, nat>, session: string): map<string, nat> {
    streams - {session}
  }

  /** The generator is left: its session's stream is unregistered and a running task cancelled. */
  function Leave(s: State, t: nat, turn: Turn, how: Consumer): State
    requires t < |s.turns|
  {
    s.(streams := CloseStream(s.streams, turn.session),
       turns := s.turns[t := turn.(consumer := how, left := true,
                                   task := if turn.task.Running? then TaskCancelled else turn.task)])
  }

  /** The consumer passes an update on, remembering what it needs to judge the end of the turn. */
  function Pass(turn: Turn, u: Update): Turn {
    turn.(yielded := turn.yielded + [Updated(u)],
          usedTools := turn.usedTools || u.ToolStarted?,
          diagnostic := if u.MessageDelta? then Tail(turn.diagnostic + u.text) else turn.diagnostic)
  }

  /** The consumer's judgement of a completion. */
  predicate Accepts(s: State, turn: Turn, result: Result) {
    result.Success? && (turn.usedTools || !s.providerError(turn.diagnostic))
  }

  function Take(s: State, t: nat): State
    requires t < |s.turns|
  {
    var turn := s.turns[t];
    if turn.consumer.Iterating? && turn.queue != [] then
      var rest := turn.(queue := turn.queue[1..]);
      match turn.queue[0]
      case Queued(u) =>
        if u.ErrorUpdate? then Leave(s, t, rest, Failed) else s.(turns := s.turns[t := Pass(rest, u)])
      case Completion(_, result) =>
        if Accepts(s, turn, result)
        then s.(turns := s.turns[t := rest.(consumer := Completed, yielded := turn.yielded + [PromptCompleted(result.value)])])
        else Leave(s, t, rest, Failed)
    else s
  }

  /** What the clean-up makes of the consumer. */
  function Done(turn: Turn): Consumer {
    if turn.consumer.Iterating? then Stopped else turn.consumer
  }

  function Deliver(s: State, session: string, u: Update): State {
    if session in s.streams && s.streams[session] < |s.turns| then
      var t := s.streams[session];
      s.(turns := s.turns[t := s.turns[t].(queue := s.turns[t].queue + [Queued(u)])])
    else s
  }

  function Step(s: State, e: Event): State {
    match e
    case Prompt(session) =>
      if session in s.streams then s
      else s.(streams := s.streams[session := |s.turns|], turns := s.turns + [Opened(session)])
    case Read(to, u) => if to.None? then s else Deliver(s, to.value, u)
    case Finish(t, result) =>
      if t < |s.turns| && s.turns[t].task.Running?
      then s.(turns := s.turns[t := s.turns[t].(task := Delivered(result), queue := s.turns[t].queue + [Completion(t, result)])])
      else s
    case FinishUnreadable(t) =>
      if t < |s.turns| && s.turns[t].task.Running? then s.(turns := s.turns[t := s.turns[t].(task := Unreadable)]) else s
    case Consume(t) => if t < |s.turns| then Take(s, t) else s
    case Stop(t) => if t < |s.turns| && !s.turns[t].left then Leave(s, t, s.turns[t], Done(s.turns[t])) else s
    case CloseSession(session) => s.(streams := CloseStream(s.streams, session))
    case CloseClient => s.(closed := true, streams := map[])
  }

  // ---------------------------------------------------------------- completions never stray

  /** A queued completion is in the queue of the turn whose own task queued it. */
  ghost predicate OwnCompletions(s: State) {
    forall t, i :: 0 <= t < |s.turns| && 0 <= i < |s.turns[t].queue| && s.turns[t].queue[i].Completion? ==>
      s.turns[t].queue[i].turn == t && s.turns[t].task == Delivered(s.turns[t].queue[i].result)
  }

  lemma OwnCompletionsKept(s: State, e: Event)
    requires OwnCompletions(s)
    ensures OwnCompletions(Step(s, e))
  {
    var s' := Step(s, e);
    forall t, i | 0 <= t < |s'.turns| && 0 <= i < |s'.turns[t].queue| && s'.turns[t].queue[i].Completion?
      ensures s'.turns[t].queue[i].turn == t && s'.turns[t].task == Delivered(s'.turns[t].queue[i].result)
    {
      if t < |s.turns| { QueueChange(s, e, t); }
    }
  }

  /** What a step can do to one turn's queue and task. */
  lemma QueueChange(s: State, e: Event, t: nat)
    requires t < |s.turns|
    ensures t < |Step(s, e).turns| && Step(s, e).turns[t].session == s.turns[t].session
    ensures var a, b := s.turns[t], Step(s, e).turns[t];
      || (b.queue == a.queue && (b.task == a.task || (a.task.Running? && !b.task.Delivered?)))
      || (a.queue != [] && b.queue == a.queue[1..] && (b.task == a.task || (a.task.Running? && !b.task.Delivered?)))
      || (exists u :: b.queue == a.queue + [Queued(u)] && b.task == a.task)
      || (exists r :: b.queue == a.queue + [Completion(t, r)] && a.task.Running? && b.task == Delivered(r))
  {
    NextRight(s, e, t);
    NextSession(s, e, t);
  }

  /** On every interleaving, session closes included, a turn's completion is only ever in its
      own queue, and a cancelled turn's completion is in none. */
  lemma {:induction false} CompletionsNeverStray(providerError: string -> bool, es: seq<Event>)
    ensures OwnCompletions(Run(Step, Fresh(providerError), es))
  {
    forall s: State, e | OwnCompletions(s) ensures OwnCompletions(Step(s, e)) { OwnCompletionsKept(s, e); }
    RunKeeps(Step, (s: State) => OwnCompletions(s), Fresh(providerError), es);
  }

  // ---------------------------------------------------------------- what a turn yields

  /** The updates of turn `t`'s session that were read from its opening until its own completion
      was queued. Queues and streams play no part in it. */
  ghost function Heard(s0: State, es: seq<Event>, t: nat): seq<Update>
    decreases |es|
  {
    if es == [] then []
    else
      var init, e := es[..|es| - 1], es[|es| - 1];
      Heard(s0, init, t) + (if IsHeard(Run(Step, s0, init), e, t) then [e.update] else [])
  }

  ghost predicate IsHeard(s: State, e: Event, t: nat) {
    e.Read? && t < |s.turns| && e.to == Some(s.turns[t].session) && !s.turns[t].task.Delivered?
  }

  /** Nobody closes a session that has a turn not yet left, and a closed client reads nothing,
      because closing it stops the read loop. */
  ghost predicate Quiet(s: State, e: Event) {
    match e
    case CloseSession(session) =>
      forall t :: 0 <= t < |s.turns| && s.turns[t].session == session ==> s.turns[t].left
    case Read(_, _) => !s.closed
    case _ => true
  }

  ghost predicate QuietRun(s0: State, es: seq<Event>)
    decreases |es|
  {
    es != [] ==> QuietRun(s0, es[..|es| - 1]) && Quiet(Run(Step, s0, es[..|es| - 1]), es[|es| - 1])
  }

  /** A session's updates go to its turn until that turn is left. */
  ghost predicate StreamsInv(s: State) {
    && (forall t :: !s.closed && 0 <= t < |s.turns| && !s.turns[t].left ==>
          s.turns[t].session in s.streams && s.streams[s.turns[t].session] == t)
    && (forall session :: session in s.streams ==>
          s.streams[session] < |s.turns| && s.turns[s.streams[session]].session == session)
  }

  /** One turn after one step. */
  function Next(s: State, e: Event, t: nat): Turn
    requires t < |s.turns|
  {
    var turn := s.turns[t];
    match e
    case Read(to, u) =>
      if to.Some? && to.value in s.streams && s.streams[to.value] == t
      then turn.(queue := turn.queue + [Queued(u)]) else turn
    case Finish(u, result) =>
      if u == t && turn.task.Running? then turn.(task := Delivered(result), queue := turn.queue + [Completion(t, result)]) else turn
    case FinishUnreadable(u) => if u == t && turn.task.Running? then turn.(task := Unreadable) else turn
    case Consume(u) => if u == t then Take(s, t).turns[t] else turn
    case Stop(u) =>
      if u == t && !turn.left
      then turn.(consumer := Done(turn), left := true, task := if turn.task.Running? then TaskCancelled else turn.task)
      else turn
    case _ => turn
  }

  lemma NextRight(s: State, e: Event, t: nat)
    requires t < |s.turns|
    ensures t < |Step(s, e).turns| && Step(s, e).turns[t] == Next(s, e, t)
  {}

  /** Leaving a turn takes only its own stream with it. */
  lemma LeaveKeeps(s: State, t: nat, turn: Turn, how: Consumer)
    requires StreamsInv(s) && t < |s.turns| && !s.turns[t].left
    requires turn.session == s.turns[t].session
    ensures StreamsInv(Leave(s, t, turn, how))
  {
    var s' := Leave(s, t, turn, how);
    forall u | !s'.closed && 0 <= u < |s'.turns| && !s'.turns[u].left
      ensures s'.turns[u].session in s'.streams && s'.streams[s'.turns[u].session] == u
    {
      assert u != t && s'.turns[u] == s.turns[u];
    }
  }

  lemma UpdateKeeps(s: State, t: nat, turn: Turn)
    requires StreamsInv(s) && t < |s.turns|
    requires turn.session == s.turns[t].session && turn.left == s.turns[t].left
    ensures StreamsInv(s.(turns := s.turns[t := turn]))
  {}

  lemma TakeKeeps(s: State, t: nat)
    requires StreamsInv(s) && LeftIsOver(s) && t < |s.turns|
    ensures StreamsInv(Take(s, t))
  {
    var turn := s.turns[t];
    if turn.consumer.Iterating? && turn.queue != [] {
      var rest := turn.(queue := turn.queue[1..]);
      if turn.queue[0].Queued? {
        UpdateKeeps(s, t, Pass(rest, turn.queue[0].update));
      } else if turn.queue[0].result.Success? {
        UpdateKeeps(s, t, rest.(consumer := Completed, yielded := turn.yielded + [PromptCompleted(turn.queue[0].result.value)]));
      }
      LeaveKeeps(s, t, rest, Failed);
    }
  }

  lemma PromptKeeps(s: State, session: string)
    requires StreamsInv(s)
    ensures StreamsInv(Step(s, Prompt(session)))
  {}

  lemma CloseKeeps(s: State, session: string)
    requires StreamsInv(s) && Quiet(s, CloseSession(session))
    ensures StreamsInv(Step(s, CloseSession(session)))
  {}

  lemma StreamsKept(s: State, e: Event)
    requires StreamsInv(s) && LeftIsOver(s) && Quiet(s, e)
    ensures StreamsInv(Step(s, e))
  {
    match e {
      case Prompt(session) => PromptKeeps(s, session);
      case Read(to, u) =>
        if to.Some? && to.value in s.streams {
          var t := s.streams[to.value];
          UpdateKeeps(s, t, s.turns[t].(queue := s.turns[t].queue + [Queued(u)]));
        }
      case Finish(t, result) =>
        if t < |s.turns| {
          UpdateKeeps(s, t, s.turns[t].(task := Delivered(result), queue := s.turns[t].queue + [Completion(t, result)]));
        }
      case FinishUnreadable(t) =>
        if t < |s.turns| { UpdateKeeps(s, t, s.turns[t].(task := Unreadable)); }
      case Consume(t) => if t < |s.turns| { TakeKeeps(s, t); }
      case Stop(t) =>
        if t < |s.turns| && !s.turns[t].left { LeaveKeeps(s, t, s.turns[t], Done(s.turns[t])); }
      case CloseSession(session) => CloseKeeps(s, session);
      case CloseClient =>
    }
  }

  /** The updates in a queue that come before any completion. */
  function Before(queue: seq<Item>): seq<Update> {
    if queue == [] || queue[0].Completion? then [] else [queue[0].update] + Before(queue[1..])
  }

  ghost predicate HasCompletion(queue: seq<Item>) {
    exists i :: 0 <= i < |queue| && queue[i].Completion?
  }

  lemma {:induction false} BeforeSnoc(queue: seq<Item>, x: Item)
    ensures Before(queue + [x]) == Before(queue) + (if x.Queued? && !HasCompletion(queue) then [x.update] else [])
  {
    if queue == [] {
      assert queue + [x] == [x];
    } else if queue[0].Queued? {
      assert (queue + [x])[1..] == queue[1..] + [x];
      BeforeSnoc(queue[1..], x);
      assert HasCompletion(queue) <==> HasCompletion(queue[1..]) by {
        if HasCompletion(queue) {
          var i :| 0 <= i < |queue| && queue[i].Completion?;
          assert queue[1..][i - 1].Completion?;
        }
      }
    } else {
      assert (queue + [x])[0] == queue[0];
    }
  }

  function Wrap(us: seq<Update>): seq<Yielded> {
    seq(|us|, i requires 0 <= i < |us| => Updated(us[i]))
  }

  /** What a turn holds and has yielded, against what was heard for it. */
  ghost predicate Matches(t: nat, turn: Turn, heard: seq<Update>) {
    && (turn.consumer.Iterating? ==>
          Wrap(heard) == turn.yielded + Wrap(Before(turn.queue)) && (turn.task.Delivered? ==> HasCompletion(turn.queue)))
    && (forall i :: 0 <= i < |turn.queue| && turn.queue[i].Completion? ==> turn.task == Delivered(turn.queue[i].result))
    && (turn.consumer.Completed? ==>
          turn.task.Delivered? && turn.task.result.Success?
          && turn.yielded == Wrap(heard) + [PromptCompleted(turn.task.result.value)])
  }

  lemma HasCompletionSnoc(queue: seq<Item>, x: Item)
    ensures HasCompletion(queue + [x]) <==> HasCompletion(queue) || x.Completion?
  {
    if HasCompletion(queue) {
      var i :| 0 <= i < |queue| && queue[i].Completion?;
      assert (queue + [x])[i].Completion?;
    }
    if x.Completion? { assert (queue + [x])[|queue|].Completion?; }
  }

  lemma MatchesRead(t: nat, turn: Turn, u: Update, heard: seq<Update>)
    requires Matches(t, turn, heard)
    ensures var queued := turn.(queue := turn.queue + [Queued(u)]);
      Matches(t, queued, if turn.task.Delivered? then heard else heard + [u])
  {
    BeforeSnoc(turn.queue, Queued(u));
    HasCompletionSnoc(turn.queue, Queued(u));
    assert HasCompletion(turn.queue) ==> turn.task.Delivered?;
    assert Wrap(heard + [u]) == Wrap(heard) + [Updated(u)];
    assert Wrap(Before(turn.queue) + [u]) == Wrap(Before(turn.queue)) + [Updated(u)];
    assert Before(turn.queue) + [] == Before(turn.queue);
  }

  lemma MatchesFinish(t: nat, turn: Turn, result: Result, heard: seq<Update>)
    requires Matches(t, turn, heard) && turn.task.Running?
    ensures Matches(t, turn.(task := Delivered(result), queue := turn.queue + [Completion(t, result)]), heard)
  {
    BeforeSnoc(turn.queue, Completion(t, result));
    HasCompletionSnoc(turn.queue, Completion(t, result));
    assert Before(turn.queue) + [] == Before(turn.queue);
  }

  lemma WrapCons(u: Update, us: seq<Update>)
    ensures Wrap([u] + us) == [Updated(u)] + Wrap(us)
  {
    var a, b := Wrap([u] + us), [Updated(u)] + Wrap(us);
    assert |a| == |b|;
    forall i | 0 <= i < |a| ensures a[i] == b[i] {
      if i > 0 { assert ([u] + us)[i] == us[i - 1]; }
    }
  }

  lemma WrapFirst(queue: seq<Item>)
    requires queue != [] && queue[0].Queued?
    ensures Wrap(Before(queue)) == [Updated(queue[0].update)] + Wrap(Before(queue[1..]))
  {
    WrapCons(queue[0].update, Before(queue[1..]));
  }

  lemma CompletionBehind(queue: seq<Item>)
    requires queue != [] && queue[0].Queued? && HasCompletion(queue)
    ensures HasCompletion(queue[1..])
  {
    var i :| 0 <= i < |queue| && queue[i].Completion?;
    assert queue[1..][i - 1] == queue[i];
  }

  lemma MatchesTake(s: State, t: nat, heard: seq<Update>)
    requires t < |s.turns| && Matches(t, s.turns[t], heard)
    ensures Matches(t, Take(s, t).turns[t], heard)
  {
    var turn := s.turns[t];
    if turn.consumer.Iterating? && turn.queue != [] {
      assert forall i :: 0 <= i < |turn.queue[1..]| ==> turn.queue[1..][i] == turn.queue[i + 1];
      if turn.queue[0].Queued? {
        WrapFirst(turn.queue);
        if HasCompletion(turn.queue) { CompletionBehind(turn.queue); }
        var u := turn.queue[0].update;
        assert turn.yielded + ([Updated(u)] + Wrap(Before(turn.queue[1..])))
            == (turn.yielded + [Updated(u)]) + Wrap(Before(turn.queue[1..]));
      } else {
        assert Wrap(heard) == turn.yielded + [];
      }
    }
  }

  /** The update goes into the queue of turn `t`, ahead of its completion. */
  ghost predicate IsFiled(s: State, e: Event, t: nat) {
    && e.Read? && t < |s.turns| && !s.turns[t].task.Delivered?
    && e.to.Some? && e.to.value in s.streams && s.streams[e.to.value] == t
  }

  lemma MatchesFiled(s: State, e: Event, t: nat, filed: seq<Update>)
    requires t < |s.turns| && Matches(t, s.turns[t], filed)
    ensures Matches(t, Next(s, e, t), filed + (if IsFiled(s, e, t) then [e.update] else []))
  {
    var turn := s.turns[t];
    assert filed + [] == filed;
    match e {
      case Read(to, u) => MatchesRead(t, turn, u, filed);
      case Finish(_, result) =>
        if turn.task.Running? { MatchesFinish(t, turn, result, filed); }
      case Consume(_) => MatchesTake(s, t, filed);
      case _ =>
    }
  }

  ghost predicate MatchesIn(s: State, t: nat, heard: seq<Update>) {
    if t < |s.turns| then Matches(t, s.turns[t], heard) else heard == []
  }

  /** The updates filed with turn `t`. */
  ghost function Filed(s0: State, es: seq<Event>, t: nat): seq<Update>
    decreases |es|
  {
    if es == [] then []
    else
      var init, e := es[..|es| - 1], es[|es| - 1];
      Filed(s0, init, t) + (if IsFiled(Run(Step, s0, init), e, t) then [e.update] else [])
  }

  /** How many updates were read for turn `t` while its session's stream was not its own. */
  ghost function Missed(s0: State, es: seq<Event>, t: nat): nat
    decreases |es|
  {
    if es == [] then 0
    else
      var init, e := es[..|es| - 1], es[|es| - 1];
      var s := Run(Step, s0, init);
      Missed(s0, init, t) + (if IsHeard(s, e, t) && !IsFiled(s, e, t) then 1 else 0)
  }

  lemma {:induction false} FiledMatches(s0: State, es: seq<Event>, t: nat)
    requires s0.turns == []
    ensures MatchesIn(Run(Step, s0, es), t, Filed(s0, es, t))
    decreases |es|
  {
    if es != [] {
      var init, e := es[..|es| - 1], es[|es| - 1];
      var s, filed := Run(Step, s0, init), Filed(s0, init, t);
      FiledMatches(s0, init, t);
      assert filed + [] == filed;
      if t < |s.turns| {
        MatchesFiled(s, e, t, filed);
        NextRight(s, e, t);
      } else if t < |Step(s, e).turns| {
        assert e.Prompt? && Step(s, e).turns[t] == Opened(e.session);
      }
    }
  }

  /** A session's stream is the queue of one of its turns. */
  ghost predicate StreamsOwn(s: State) {
    forall session :: session in s.streams ==>
      s.streams[session] < |s.turns| && s.turns[s.streams[session]].session == session
  }

  lemma StreamsOwnKept(s: State, e: Event)
    requires StreamsOwn(s)
    ensures StreamsOwn(Step(s, e))
  {
    forall session | session in Step(s, e).streams
      ensures var t := Step(s, e).streams[session]; t < |Step(s, e).turns| && Step(s, e).turns[t].session == session
    {
      if session in s.streams { QueueChange(s, e, s.streams[session]); }
    }
  }

  lemma StreamsOwnAlways(providerError: string -> bool, es: seq<Event>)
    ensures StreamsOwn(Run(Step, Fresh(providerError), es))
  {
    forall s: State, e | StreamsOwn(s) ensures StreamsOwn(Step(s, e)) { StreamsOwnKept(s, e); }
    RunKeeps(Step, (s: State) => StreamsOwn(s), Fresh(providerError), es);
  }

  lemma {:induction false} HeardFiledMissed(providerError: string -> bool, es: seq<Event>, t: nat)
    ensures var s0 := Fresh(providerError);
      && |Heard(s0, es, t)| == |Filed(s0, es, t)| + Missed(s0, es, t)
      && (Missed(s0, es, t) == 0 ==> Heard(s0, es, t) == Filed(s0, es, t))
    decreases |es|
  {
    if es != [] {
      var init := es[..|es| - 1];
      HeardFiledMissed(providerError, init, t);
      StreamsOwnAlways(providerError, init);
    }
  }

  /** A completed turn has yielded the updates filed with it and then its completion; these are all
      the updates heard for it exactly when none was missed. */
  lemma {:induction false} YieldsFiled(providerError: string -> bool, es: seq<Event>, t: nat)
    requires t < |Run(Step, Fresh(providerError), es).turns|
    requires Run(Step, Fresh(providerError), es).turns[t].consumer.Completed?
    ensures var s0 := Fresh(providerError);
      var turn := Run(Step, s0, es).turns[t];
      && turn.task.Delivered? && turn.task.result.Success?
      && turn.yielded == Wrap(Filed(s0, es, t)) + [PromptCompleted(turn.task.result.value)]
      && (turn.yielded == Wrap(Heard(s0, es, t)) + [PromptCompleted(turn.task.result.value)]
          <==> Missed(s0, es, t) == 0)
  {
    FiledMatches(Fresh(providerError), es, t);
    HeardFiledMissed(providerError, es, t);
  }

  // ---------------------------------------------------------------- when an update is missed

  /** A turn's consumer waits for more, or its completion was queued. */
  predicate Live(turn: Turn) {
    turn.consumer.Iterating? || turn.task.Delivered?
  }

  /** A turn that was left is not iterated over, and one that is not iterated over has no running
      task. */
  ghost predicate LeftIsOver(s: State) {
    forall t :: 0 <= t < |s.turns| ==>
      && (s.turns[t].left ==> !s.turns[t].consumer.Iterating?)
      && (!s.turns[t].consumer.Iterating? ==> !s.turns[t].task.Running?)
  }

  lemma LeftIsOverKept(s: State, e: Event)
    requires LeftIsOver(s) && OwnCompletions(s)
    ensures LeftIsOver(Step(s, e))
  {
    forall t | 0 <= t < |Step(s, e).turns|
      ensures var turn := Step(s, e).turns[t];
        (turn.left ==> !turn.consumer.Iterating?) && (!turn.consumer.Iterating? ==> !turn.task.Running?)
    {
      if t < |s.turns| { NextRight(s, e, t); }
    }
  }

  lemma LeftIsOverAlways(providerError: string -> bool, es: seq<Event>)
    ensures LeftIsOver(Run(Step, Fresh(providerError), es))
  {
    var inv := (s: State) => LeftIsOver(s) && OwnCompletions(s);
    forall s: State, e | inv(s) ensures inv(Step(s, e)) {
      LeftIsOverKept(s, e);
      OwnCompletionsKept(s, e);
    }
    RunKeeps(Step, inv, Fresh(providerError), es);
  }

  /** A turn that is live now was live before. */
  lemma LiveBefore(s: State, e: Event, t: nat)
    requires LeftIsOver(s) && t < |s.turns|
    ensures t < |Step(s, e).turns| && (Live(Step(s, e).turns[t]) ==> Live(s.turns[t]))
    ensures s.turns[t].left ==> Step(s, e).turns[t].left
  {
    NextRight(s, e, t);
  }

  /** The event leaves turn `u`. */
  predicate Leaves(s: State, e: Event, u: nat) {
    && u < |s.turns| && !s.turns[u].left
    && u < |Step(s, e).turns| && Step(s, e).turns[u].left
  }

  /** The event unregisters the stream of turn `t`'s session from under it: the session or the client
      is closed, or another turn of the same session is left. */
  predicate Unregisters(s: State, e: Event, t: nat) {
    t < |s.turns| &&
      match e
      case CloseSession(session) => session == s.turns[t].session
      case CloseClient => true
      case Consume(u) => u != t && Leaves(s, e, u) && s.turns[u].session == s.turns[t].session
      case Stop(u) => u != t && Leaves(s, e, u) && s.turns[u].session == s.turns[t].session
      case _ => false
  }

  predicate Registered(s: State, t: nat)
    requires t < |s.turns|
  {
    s.turns[t].session in s.streams && s.streams[s.turns[t].session] == t
  }

  /** Such an event has happened since the turn was opened. */
  predicate Popped(s0: State, es: seq<Event>, t: nat)
    decreases |es|
  {
    es != [] && (Popped(s0, es[..|es| - 1], t) || Unregisters(Run(Step, s0, es[..|es| - 1]), es[|es| - 1], t))
  }

  /** What a step does to the registered streams. */
  function StreamsAfter(s: State, e: Event): map<string, nat> {
    match e
    case Prompt(session) => if session in s.streams then s.streams else s.streams[session := |s.turns|]
    case Consume(u) => if Leaves(s, e, u) then s.streams - {s.turns[u].session} else s.streams
    case Stop(u) => if Leaves(s, e, u) then s.streams - {s.turns[u].session} else s.streams
    case CloseSession(session) => s.streams - {session}
    case CloseClient => map[]
    case _ => s.streams
  }

  lemma StreamsStep(s: State, e: Event)
    requires LeftIsOver(s)
    ensures Step(s, e).streams == StreamsAfter(s, e)
  {}

  lemma RegisteredStep(s: State, e: Event, t: nat)
    requires t < |s.turns| && LeftIsOver(s)
    requires t < |Step(s, e).turns| && !Step(s, e).turns[t].left
    ensures Registered(Step(s, e), t) <==> Registered(s, t) && !Unregisters(s, e, t)
  {
    StreamsStep(s, e);
    NextRight(s, e, t);
    NextSession(s, e, t);
  }

  lemma NextSession(s: State, e: Event, t: nat)
    requires t < |s.turns|
    ensures Next(s, e, t).session == s.turns[t].session
  {}

  /** Until popped, and only until then, a turn that is not yet left has its session's stream. */
  ghost predicate RegisteredUnless(s: State, t: nat, popped: bool) {
    if t < |s.turns| then !s.turns[t].left ==> (Registered(s, t) <==> !popped) else !popped
  }

  lemma RegisteredUnlessStep(s: State, e: Event, t: nat, popped: bool)
    requires LeftIsOver(s) && t < |s.turns| && RegisteredUnless(s, t, popped)
    ensures RegisteredUnless(Step(s, e), t, popped || Unregisters(s, e, t))
  {
    LiveBefore(s, e, t);
    if !Step(s, e).turns[t].left { RegisteredStep(s, e, t); }
  }

  lemma RegisteredWhenOpened(s: State, e: Event, t: nat)
    requires t >= |s.turns|
    ensures RegisteredUnless(Step(s, e), t, false)
  {}

  /** Once popped, a turn never gets its stream back. */
  lemma {:induction false} RegisteredUntilPopped(providerError: string -> bool, es: seq<Event>, t: nat)
    ensures RegisteredUnless(Run(Step, Fresh(providerError), es), t, Popped(Fresh(providerError), es, t))
    decreases |es|
  {
    if es != [] {
      var init, e := es[..|es| - 1], es[|es| - 1];
      var s := Run(Step, Fresh(providerError), init);
      RegisteredUntilPopped(providerError, init, t);
      LeftIsOverAlways(providerError, init);
      if t < |s.turns| {
        RegisteredUnlessStep(s, e, t, Popped(Fresh(providerError), init, t));
      } else {
        RegisteredWhenOpened(s, e, t);
      }
    }
  }

  /** An update was heard for the turn after its stream was popped. */
  ghost predicate ReadLate(s0: State, es: seq<Event>, t: nat)
    decreases |es|
  {
    es != [] &&
      var init, e := es[..|es| - 1], es[|es| - 1];
      ReadLate(s0, init, t) || (IsHeard(Run(Step, s0, init), e, t) && Popped(s0, init, t))
  }

  lemma {:induction false} MissedIsLate(providerError: string -> bool, es: seq<Event>, t: nat)
    requires var s := Run(Step, Fresh(providerError), es); t < |s.turns| ==> Live(s.turns[t])
    ensures Missed(Fresh(providerError), es, t) == 0 <==> !ReadLate(Fresh(providerError), es, t)
    decreases |es|
  {
    if es != [] {
      var init, e := es[..|es| - 1], es[|es| - 1];
      var s := Run(Step, Fresh(providerError), init);
      LeftIsOverAlways(providerError, init);
      RegisteredUntilPopped(providerError, init, t);
      if t < |s.turns| { LiveBefore(s, e, t); }
      MissedIsLate(providerError, init, t);
    }
  }

  /** Event `j` unregisters the turn's stream, and the later event `i` is an update heard for it. */
  ghost predicate LateAt(s0: State, es: seq<Event>, t: nat, j: int, i: int) {
    0 <= j < i < |es| && PoppedAt(s0, es, t, j) && IsHeard(Run(Step, s0, es[..i]), es[i], t)
  }

  predicate PoppedAt(s0: State, es: seq<Event>, t: nat, j: int) {
    0 <= j < |es| && Unregisters(Run(Step, s0, es[..j]), es[j], t)
  }

  lemma {:induction false} PoppedSomewhere(s0: State, es: seq<Event>, t: nat)
    ensures Popped(s0, es, t) <==> exists j :: PoppedAt(s0, es, t, j)
    decreases |es|
  {
    if es != [] {
      var last := |es| - 1;
      PoppedSomewhere(s0, es[..last], t);
      forall j | 0 <= j < last ensures PoppedAt(s0, es, t, j) <==> PoppedAt(s0, es[..last], t, j) {
        assert es[..last][..j] == es[..j];
      }
      if Popped(s0, es, t) && !Popped(s0, es[..last], t) { assert PoppedAt(s0, es, t, last); }
    }
  }

  lemma LateEarlier(s0: State, es: seq<Event>, t: nat, j: int, i: int)
    requires es != [] && 0 <= j < i < |es| - 1
    ensures LateAt(s0, es, t, j, i) <==> LateAt(s0, es[..|es| - 1], t, j, i)
  {
    var init := es[..|es| - 1];
    assert init[..i] == es[..i] && init[..j] == es[..j];
  }

  lemma LateLast(s0: State, es: seq<Event>, t: nat, last: nat)
    requires last == |es| - 1
    ensures (exists j :: LateAt(s0, es, t, j, last)) <==>
      IsHeard(Run(Step, s0, es[..last]), es[last], t) && Popped(s0, es[..last], t)
  {
    PoppedSomewhere(s0, es[..last], t);
    forall j | 0 <= j < last ensures PoppedAt(s0, es, t, j) <==> PoppedAt(s0, es[..last], t, j) {
      assert es[..last][..j] == es[..j];
    }
    if IsHeard(Run(Step, s0, es[..last]), es[last], t) && Popped(s0, es[..last], t) {
      var j :| PoppedAt(s0, es[..last], t, j);
      assert LateAt(s0, es, t, j, last);
    }
  }

  lemma {:induction false} LateSomewhere(s0: State, es: seq<Event>, t: nat)
    ensures ReadLate(s0, es, t) <==> exists j, i :: LateAt(s0, es, t, j, i)
    decreases |es|
  {
    if es != [] {
      var init, last := es[..|es| - 1], |es| - 1;
      LateSomewhere(s0, init, t);
      LateLast(s0, es, t, last);
      forall j, i | 0 <= j < i < last ensures LateAt(s0, es, t, j, i) <==> LateAt(s0, init, t, j, i) {
        LateEarlier(s0, es, t, j, i);
      }
      if j, i :| LateAt(s0, es, t, j, i) {
        if i == last { assert exists j :: LateAt(s0, es, t, j, last); }
      }
    }
  }

  /** On every interleaving whatsoever, a completed turn has yielded every update of its session
      read between its opening and its completion, in order, then its completion and nothing
      else, exactly when no such update comes after an event that unregistered its stream: the
      session or the client closed, or another turn of the same session left. */
  lemma {:induction false} YieldsAllExactly(providerError: string -> bool, es: seq<Event>, t: nat)
    requires t < |Run(Step, Fresh(providerError), es).turns|
    requires Run(Step, Fresh(providerError), es).turns[t].consumer.Completed?
    ensures var s0 := Fresh(providerError);
      var turn := Run(Step, s0, es).turns[t];
      && turn.task.Delivered? && turn.task.result.Success?
      && (turn.yielded == Wrap(Heard(s0, es, t)) + [PromptCompleted(turn.task.result.value)]
          <==> !exists j, i :: LateAt(s0, es, t, j, i))
  {
    YieldsFiled(providerError, es, t);
    MissedIsLate(providerError, es, t);
    LateSomewhere(Fresh(providerError), es, t);
  }

  // ---------------------------------------------------------------- quiet runs

  lemma {:induction false} StreamsAlways(providerError: string -> bool, es: seq<Event>)
    requires QuietRun(Fresh(providerError), es)
    ensures StreamsInv(Run(Step, Fresh(providerError), es))
    decreases |es|
  {
    if es != [] {
      StreamsAlways(providerError, es[..|es| - 1]);
      LeftIsOverAlways(providerError, es[..|es| - 1]);
      StreamsKept(Run(Step, Fresh(providerError), es[..|es| - 1]), es[|es| - 1]);
    }
  }

  lemma {:induction false} QuietMissesNothing(providerError: string -> bool, es: seq<Event>, t: nat)
    requires QuietRun(Fresh(providerError), es)
    requires var s := Run(Step, Fresh(providerError), es); t < |s.turns| ==> Live(s.turns[t])
    ensures Missed(Fresh(providerError), es, t) == 0
    decreases |es|
  {
    if es != [] {
      var init, e := es[..|es| - 1], es[|es| - 1];
      var s := Run(Step, Fresh(providerError), init);
      LeftIsOverAlways(providerError, init);
      StreamsAlways(providerError, init);
      if t < |s.turns| { LiveBefore(s, e, t); }
      QuietMissesNothing(providerError, init, t);
    }
  }

  /** On every interleaving in which no session is closed that has a turn not yet left: a turn that ran to its end without an error has yielded every update of its session read
      between its opening and its completion, in order, then its completion, and nothing else. */
  lemma {:induction false} TurnYieldsAll(providerError: string -> bool, es: seq<Event>, t: nat)
    requires QuietRun(Fresh(providerError), es)
    requires t < |Run(Step, Fresh(providerError), es).turns|
    requires Run(Step, Fresh(providerError), es).turns[t].consumer.Completed?
    ensures var turn := Run(Step, Fresh(providerError), es).turns[t];
      && turn.task.Delivered? && turn.task.result.Success?
      && turn.yielded == Wrap(Heard(Fresh(providerError), es, t)) + [PromptCompleted(turn.task.result.value)]
  {
    YieldsFiled(providerError, es, t);
    QuietMissesNothing(providerError, es, t);
  }

  // ---------------------------------------------------------------- three ways to miss an update

  /** A turn that is consumed but has no stream completes without an update read for its session. */
  lemma LosesUpdate(s: State, t: nat, u: Update)
    requires t < |s.turns| && s.turns[t] == Opened(s.turns[t].session) && s.turns[t].session !in s.streams
    requires !s.providerError("")
    ensures var s' := Step(Step(Step(s, Read(Some(s.turns[t].session), u)), Finish(t, Success("end"))), Consume(t));
      |s'.turns| == |s.turns| && s'.turns[t].consumer.Completed? && s'.turns[t].yielded == [PromptCompleted("end")]
  {
    assert Step(s, Read(Some(s.turns[t].session), u)) == s;
    assert Step(s, Finish(t, Success("end"))).turns[t].queue == [Completion(t, Success("end"))];
  }

  /** The last three events of a run. */
  lemma RunThree(s0: State, es: seq<Event>, a: Event, b: Event, c: Event)
    ensures Run(Step, s0, es + [a, b, c]) == Step(Step(Step(Run(Step, s0, es), a), b), c)
  {
    var all := es + [a, b, c];
    RunSnoc(Step, s0, all, |es|);
    RunSnoc(Step, s0, all, |es| + 1);
    RunSnoc(Step, s0, all, |es| + 2);
    assert all[..|es|] == es && all[..|es| + 3] == all;
  }

  lemma RunTwo(s0: State, es: seq<Event>, a: Event, b: Event)
    ensures Run(Step, s0, es + [a, b]) == Step(Step(Run(Step, s0, es), a), b)
  {
    var all := es + [a, b];
    RunSnoc(Step, s0, all, |es|);
    RunSnoc(Step, s0, all, |es| + 1);
    assert all[..|es|] == es && all[..|es| + 2] == all;
  }

  lemma OpenedAndClosed(providerError: string -> bool)
    ensures Run(Step, Fresh(providerError), [Prompt("s"), CloseSession("s")]) == State(providerError, false, map[], [Opened("s")])
  {
    var s0 := Fresh(providerError);
    RunTwo(s0, [], Prompt("s"), CloseSession("s"));
    assert [] + [Prompt("s"), CloseSession("s")] == [Prompt("s"), CloseSession("s")];
    assert Step(s0, Prompt("s")).turns == [Opened("s")];
  }

  /** Close the session mid-turn, and the turn still completes, without an update read for it. */
  lemma ClosedMidTurn(providerError: string -> bool, u: Update)
    requires !providerError("")
    ensures var es := [Prompt("s"), CloseSession("s")] + [Read(Some("s"), u), Finish(0, Success("end")), Consume(0)];
      var s := Run(Step, Fresh(providerError), es);
      && |s.turns| == 1 && s.turns[0].consumer.Completed?
      && s.turns[0].yielded == [PromptCompleted("end")]
  {
    OpenedAndClosed(providerError);
    RunThree(Fresh(providerError), [Prompt("s"), CloseSession("s")], Read(Some("s"), u), Finish(0, Success("end")), Consume(0));
    LosesUpdate(State(providerError, false, map[], [Opened("s")]), 0, u);
  }

  /** Turn 0, left by its consumer, takes the stream of turn 1 with it: no session is closed while
      turn 1 exists, and yet it completes without an update read for it. */
  lemma RobbedOfStream(providerError: string -> bool, u: Update)
    requires !providerError("")
    ensures var es := [Prompt("s"), CloseSession("s")] + [Prompt("s"), Stop(0)]
                      + [Read(Some("s"), u), Finish(1, Success("end")), Consume(1)];
      var s := Run(Step, Fresh(providerError), es);
      && |s.turns| == 2 && s.turns[1].consumer.Completed?
      && s.turns[1].yielded == [PromptCompleted("end")]
  {
    var s0, es := Fresh(providerError), [Prompt("s"), CloseSession("s")] + [Prompt("s"), Stop(0)];
    OpenedAndClosed(providerError);
    RunTwo(s0, [Prompt("s"), CloseSession("s")], Prompt("s"), Stop(0));
    var s3 := State(providerError, false, map["s" := 1], [Opened("s"), Opened("s")]);
    assert Step(State(providerError, false, map[], [Opened("s")]), Prompt("s")) == s3;
    var s4 := Step(s3, Stop(0));
    assert s4.streams == map[] && |s4.turns| == 2 && s4.turns[1] == Opened("s");
    RunThree(s0, es, Read(Some("s"), u), Finish(1, Success("end")), Consume(1));
    LosesUpdate(s4, 1, u);
  }

  /** A consumer that was given the completion closes the session and prompts again before the first
      generator is cleaned up: no session is closed while a turn waits for an item, and yet the
      second turn completes without an update read for it. */
  lemma ClosedBeforeCleanUp(providerError: string -> bool, u: Update)
    requires !providerError("")
    ensures var es := [Prompt("s"), Finish(0, Success("end")), Consume(0)] + [CloseSession("s"), Prompt("s"), Stop(0)]
                      + [Read(Some("s"), u), Finish(1, Success("end")), Consume(1)];
      var s := Run(Step, Fresh(providerError), es);
      && |s.turns| == 2 && s.turns[1].consumer.Completed?
      && s.turns[1].yielded == [PromptCompleted("end")]
  {
    var s0 := Fresh(providerError);
    var first, then' := [Prompt("s"), Finish(0, Success("end")), Consume(0)], [CloseSession("s"), Prompt("s"), Stop(0)];
    RunThree(s0, [], Prompt("s"), Finish(0, Success("end")), Consume(0));
    assert [] + first == first;
    var s3 := Run(Step, s0, first);
    CompletedAlone(providerError);
    RunThree(s0, first, CloseSession("s"), Prompt("s"), Stop(0));
    TakenOver(s3);
    RunThree(s0, first + then', Read(Some("s"), u), Finish(1, Success("end")), Consume(1));
    LosesUpdate(Run(Step, s0, first + then'), 1, u);
  }

  lemma CompletedAlone(providerError: string -> bool)
    requires !providerError("")
    ensures var s := Step(Step(Step(Fresh(providerError), Prompt("s")), Finish(0, Success("end"))), Consume(0));
      && s.providerError == providerError && s.streams == map["s" := 0] && |s.turns| == 1
      && s.turns[0].session == "s" && s.turns[0].consumer.Completed? && !s.turns[0].left
  {
    var s1 := Step(Fresh(providerError), Prompt("s"));
    assert s1.turns == [Opened("s")];
    assert Step(s1, Finish(0, Success("end"))).turns[0].queue == [Completion(0, Success("end"))];
  }

  lemma TakenOver(s: State)
    requires s.streams == map["s" := 0] && |s.turns| == 1 && s.turns[0].session == "s" && !s.turns[0].left
    ensures var s' := Step(Step(Step(s, CloseSession("s")), Prompt("s")), Stop(0));
      s'.streams == map[] && |s'.turns| == 2 && s'.turns[1] == Opened("s") && s'.providerError == s.providerError
  {
    var a := Step(s, CloseSession("s"));
    assert a.streams == map[];
    var b := Step(a, Prompt("s"));
    assert b.streams == map["s" := 1] && b.turns == s.turns + [Opened("s")];
  }
}
