/** The client and its turns as mutable objects: one method for each stretch of code between
    two suspension points, each proved to take the step the protocol prescribes. */
module AcpClient {
  import opened Options
  import opened AcpTurn

  class Client {
    const providerError: string -> bool
    var closed: bool
    var streams: map<string, nat>
    var turns: seq<Turn>

    ghost function View(): State
      reads this
    {
      State(providerError, closed, streams, turns)
    }

    /** A registered stream is the queue of some turn. */
    ghost predicate Valid()
      reads this
    {
      forall session :: session in streams ==> streams[session] < |turns|
    }

    constructor (providerError: string -> bool)
      ensures Valid() && View() == Fresh(providerError)
    {
      this.providerError := providerError;
      closed, streams, turns := false, map[], [];
    }

    /** Claim the session's updates; refused while another turn has them. */
    method OpenStream(session: string) returns (turn: nat, refused: bool)
      requires Valid()
      modifies this
      ensures Valid() && View() == Step(old(View()), Prompt(session))
      ensures refused == (session in old(streams))
      ensures !refused ==> turn == |old(turns)| && turns[turn] == Opened(session) && streams[session] == turn
    {
      turn := |turns|;
      refused := session in streams;
      if !refused {
        turns := turns + [Opened(session)];
        streams := streams[session := turn];
      }
    }

    method CloseStream(session: string)
      requires Valid()
      modifies this`streams
      ensures Valid() && View() == Step(old(View()), CloseSession(session))
    {
      streams := streams - {session};
    }

    /** File an update with the turn that is streaming its session; drop it if there is none. */
    method Deliver(to: Option<string>, u: Update)
      requires Valid()
      modifies this`turns
      ensures Valid() && View() == Step(old(View()), Read(to, u))
    {
      if to.Some? && to.value in streams {
        var turn := streams[to.value];
        turns := turns[turn := turns[turn].(queue := turns[turn].queue + [Queued(u)])];
      }
    }

    /** The prompt request is over: queue its completion behind the updates that preceded it. */
    method FinishRun(turn: nat, result: Result)
      requires Valid() && turn < |turns| && turns[turn].task.Running?
      modifies this`turns
      ensures Valid() && View() == Step(old(View()), Finish(turn, result))
    {
      turns := turns[turn := turns[turn].(task := Delivered(result),
                                          queue := turns[turn].queue + [Completion(turn, result)])];
    }

    /** The answer could not be read, and nothing is queued. */
    method FinishUnread(turn: nat)
      requires Valid() && turn < |turns| && turns[turn].task.Running?
      modifies this`turns
      ensures Valid() && View() == Step(old(View()), FinishUnreadable(turn))
    {
      turns := turns[turn := turns[turn].(task := Unreadable)];
    }

    /** Clean up the generator: unregister the stream, cancel a running request. */
    method Leave(turn: nat, how: Consumer)
      requires Valid() && turn < |turns|
      modifies this`turns, this`streams
      ensures Valid() && View() == AcpTurn.Leave(old(View()), turn, old(turns)[turn], how)
    {
      CloseStream(turns[turn].session);
      var left := turns[turn].(consumer := how, left := true);
      if left.task.Running? { left := left.(task := TaskCancelled); }
      turns := turns[turn := left];
    }

    /** The consumer takes one item: an update is passed on, an error raised, a completion yielded. */
    method Next(turn: nat)
      requires Valid() && turn < |turns| && turns[turn].consumer.Iterating? && turns[turn].queue != []
      modifies this
      ensures Valid() && View() == Step(old(View()), Consume(turn))
    {
      var was := turns[turn];
      var item := was.queue[0];
      turns := turns[turn := was.(queue := was.queue[1..])];
      match item {
        case Queued(u) =>
          if u.ErrorUpdate? {
            Leave(turn, Failed);
          } else {
            turns := turns[turn := Pass(turns[turn], u)];
          }
        case Completion(_, result) =>
          if result.Failure? || (!was.usedTools && providerError(was.diagnostic)) {
            Leave(turn, Failed);
          } else {
            turns := turns[turn := turns[turn].(consumer := Completed,
                                                yielded := was.yielded + [PromptCompleted(result.value)])];
          }
      }
    }

    /** The generator is closed early, or resumed after its last item. */
    method StopConsuming(turn: nat)
      requires Valid() && turn < |turns| && !turns[turn].left
      modifies this
      ensures Valid() && View() == Step(old(View()), Stop(turn))
    {
      Leave(turn, if turns[turn].consumer.Iterating? then Stopped else turns[turn].consumer);
    }

    method Close()
      requires Valid()
      modifies this
      ensures Valid() && View() == Step(old(View()), CloseClient)
    {
      closed, streams := true, map[];
    }
  }
}
