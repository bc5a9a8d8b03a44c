/** When a turn fails although its request was answered: its last words are a provider's error, and it
    used no tool. */
module AcpErrors {
  import opened Options
  import opened Runs
  import opened AcpTurn

  /** The text the consumer was given, put end to end. */
  function Texts(yielded: seq<Yielded>): string {
    if yielded == [] then ""
    else
      var last := yielded[|yielded| - 1];
      Texts(yielded[..|yielded| - 1]) + if last.Updated? && last.update.MessageDelta? then last.update.text else ""
  }

  predicate IsTool(y: Yielded) {
    y.Updated? && y.update.ToolStarted?
  }

  predicate UsedTool(yielded: seq<Yielded>) {
    exists i :: 0 <= i < |yielded| && IsTool(yielded[i])
  }

  function Last(text: string, n: nat): string {
    if |text| > n then text[|text| - n..] else text
  }

  /** The last 8192 characters the consumer was given read like a provider's error, and no tool ran. */
  predicate EndsInError(providerError: string -> bool, yielded: seq<Yielded>) {
    !UsedTool(yielded) && providerError(Last(Texts(yielded), 8192))
  }

  lemma LastOfLast(a: string, b: string)
    ensures Tail(Tail(a) + b) == Last(a + b, 8192)
  {
    var whole := a + b;
    if |a| > 8192 {
      var kept := a[|a| - 8192..];
      assert kept + b == whole[|a| - 8192..];
    }
  }

  lemma TextsSnoc(yielded: seq<Yielded>, y: Yielded)
    ensures Texts(yielded + [y]) == Texts(yielded) + if y.Updated? && y.update.MessageDelta? then y.update.text else ""
    ensures UsedTool(yielded + [y]) <==> UsedTool(yielded) || IsTool(y)
  {
    var more := yielded + [y];
    assert more[..|yielded|] == yielded;
    if UsedTool(yielded) {
      var i :| 0 <= i < |yielded| && IsTool(yielded[i]);
      assert IsTool(more[i]);
    }
    if IsTool(y) { assert IsTool(more[|yielded|]); }
  }

  /** What the consumer remembers is what it was given, and a completion it was given did not follow a
      provider's error. */
  ghost predicate Knows(providerError: string -> bool, turn: Turn) {
    && (turn.usedTools <==> UsedTool(turn.yielded))
    && turn.diagnostic == Last(Texts(turn.yielded), 8192)
    && (turn.consumer.Completed? ==> !EndsInError(providerError, turn.yielded))
  }

  lemma PassKnows(providerError: string -> bool, turn: Turn, u: Update)
    requires Knows(providerError, turn) && turn.consumer.Iterating?
    ensures Knows(providerError, Pass(turn, u))
  {
    TextsSnoc(turn.yielded, Updated(u));
    if u.MessageDelta? {
      var said := Texts(turn.yielded);
      LastOfLast(said, u.text);
      assert Tail(said) == Last(said, 8192);
    } else {
      assert Texts(turn.yielded) + "" == Texts(turn.yielded);
    }
  }

  lemma CompletedKnows(providerError: string -> bool, turn: Turn, value: string)
    requires Knows(providerError, turn)
    ensures EndsInError(providerError, turn.yielded + [PromptCompleted(value)]) <==> EndsInError(providerError, turn.yielded)
    ensures Texts(turn.yielded + [PromptCompleted(value)]) == Texts(turn.yielded)
    ensures UsedTool(turn.yielded + [PromptCompleted(value)]) <==> UsedTool(turn.yielded)
  {
    TextsSnoc(turn.yielded, PromptCompleted(value));
    assert Texts(turn.yielded) + "" == Texts(turn.yielded);
  }

  lemma TakeKnows(s: State, t: nat)
    requires t < |s.turns| && Knows(s.providerError, s.turns[t])
    ensures Knows(s.providerError, Take(s, t).turns[t])
  {
    var turn := s.turns[t];
    if turn.consumer.Iterating? && turn.queue != [] {
      match turn.queue[0] {
        case Queued(u) => PassKnows(s.providerError, turn.(queue := turn.queue[1..]), u);
        case Completion(_, result) => if result.Success? { CompletedKnows(s.providerError, turn, result.value); }
      }
    }
  }

  lemma StepKnows(s: State, e: Event, t: nat)
    requires t < |s.turns| && Knows(s.providerError, s.turns[t])
    ensures t < |Step(s, e).turns| && Knows(s.providerError, Step(s, e).turns[t])
  {
    NextRight(s, e, t);
    if e.Consume? && e.turn == t { TakeKnows(s, t); }
  }

  ghost predicate AllKnow(s: State, providerError: string -> bool) {
    s.providerError == providerError && forall t :: 0 <= t < |s.turns| ==> Knows(providerError, s.turns[t])
  }

  lemma AllKnowKept(s: State, e: Event, providerError: string -> bool)
    requires AllKnow(s, providerError)
    ensures AllKnow(Step(s, e), providerError)
  {
    forall t | 0 <= t < |Step(s, e).turns| ensures Knows(providerError, Step(s, e).turns[t]) {
      if t < |s.turns| { StepKnows(s, e, t); }
    }
  }

  lemma {:induction false} AlwaysKnow(providerError: string -> bool, es: seq<Event>)
    ensures AllKnow(Run(Step, Fresh(providerError), es), providerError)
  {
    forall s: State, e | AllKnow(s, providerError) ensures AllKnow(Step(s, e), providerError) { AllKnowKept(s, e, providerError); }
    RunKeeps(Step, (s: State) => AllKnow(s, providerError), Fresh(providerError), es);
  }

  /** On every run, a consumer about to be given the answer of its request is given the completion exactly
      when the answer is no error and what it was given does not end in a provider's error; otherwise
      the turn fails and nothing more is yielded. */
  lemma {:induction false} ErrorsFailTurns(providerError: string -> bool, es: seq<Event>, t: nat, result: Result)
    requires var s := Run(Step, Fresh(providerError), es);
      t < |s.turns| && s.turns[t].consumer.Iterating? && s.turns[t].queue != [] && s.turns[t].queue[0] == Completion(t, result)
    ensures var s := Run(Step, Fresh(providerError), es);
      var before, after := s.turns[t], Step(s, Consume(t)).turns[t];
      if result.Success? && !EndsInError(providerError, before.yielded)
      then after.consumer.Completed? && after.yielded == before.yielded + [PromptCompleted(result.value)]
      else after.consumer.Failed? && after.left && after.yielded == before.yielded
  {
    AlwaysKnow(providerError, es);
    var s := Run(Step, Fresh(providerError), es);
    assert Knows(providerError, s.turns[t]);
  }

  /** An update is passed on, except an error, which fails the turn at once. */
  lemma UpdatesPassOn(s: State, t: nat, u: Update)
    requires t < |s.turns| && s.turns[t].consumer.Iterating? && s.turns[t].queue != [] && s.turns[t].queue[0] == Queued(u)
    ensures var before, after := s.turns[t], Step(s, Consume(t)).turns[t];
      if u.ErrorUpdate? then after.consumer.Failed? && after.left && after.yielded == before.yielded
      else after.consumer.Iterating? && after.yielded == before.yielded + [Updated(u)] && after.queue == before.queue[1..]
  {}
}
