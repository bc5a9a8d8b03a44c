/** The peer itself: mutable fields, and one method for each stretch of code between two
    suspension points. Every method is proved to take the step the protocol prescribes. */
module JsonRpcPeer {
  import opened JsonRpc

  /** The loop over the pending futures: settle the open ones. */
  method SettleOpen(pending: map<int, nat>, futures: seq<Future>) returns (settled: seq<Future>)
    requires forall id :: id in pending ==> pending[id] < |futures|
    ensures settled == Failed(futures, pending)
  {
    settled := futures;
    var all := set id | id in pending :: pending[id];
    var rest := all;
    while rest != {}
      invariant rest <= all && |settled| == |futures|
      invariant forall i :: 0 <= i < |futures| ==>
        settled[i] == if i in all && i !in rest && futures[i].Unsettled? then Settled(ConnectionClosed) else futures[i]
      decreases |rest|
    {
      var future :| future in rest;
      if settled[future].Unsettled? {
        settled := settled[future := Settled(ConnectionClosed)];
      }
      rest := rest - {future};
    }
  }

  class Peer {
    var closed: bool
    var ended: bool
    ghost var drained: bool
    var writerClosing: bool
    var nextId: nat
    var pending: map<int, nat>
    var futures: seq<Future>
    var calls: seq<Call>
    var asked: seq<Asked>
    var tasks: seq<Task>
    var notified: seq<(string, Message)>
    var sent: seq<Sent>

    ghost predicate Valid()
      reads this
    {
      nextId == |calls| && Inv(View())
    }

    ghost function View(): State
      reads this
    {
      State(Link(closed, ended, drained, writerClosing), Requests(pending, futures, calls),
            Answers(asked, tasks), notified, sent)
    }

    constructor ()
      ensures Valid() && View() == FRESH
    {
      closed, ended, drained, writerClosing := false, false, false, false;
      nextId := 0;
      pending, futures, calls := map[], [], [];
      asked, tasks, notified, sent := [], [], [], [];
    }

    /** The invariant follows any step. */
    twostate lemma Stepped(e: Event)
      requires old(Valid()) && View() == Step(old(View()), e) && nextId == |calls|
      ensures Valid()
    {
      InvKept();
    }

    /** `request`, up to its first suspension: refuse if closed, else take an id, register the
        future and write; a transport that is closing fails the call and unregisters it. */
    method Request(name: string, params: Message) returns (id: nat, refused: bool)
      requires Valid()
      modifies this
      ensures Valid() && View() == Step(old(View()), Event.Request(name, params))
      ensures refused == (old(closed) || old(writerClosing))
      ensures !refused ==> id == old(nextId) && id in pending && futures[pending[id]].Unsettled?
    {
      id := nextId;
      if closed { return id, true; }
      nextId := nextId + 1;
      var future := |futures|;
      futures := futures + [Unsettled];
      pending := pending[id := future];
      refused := writerClosing;
      if writerClosing {
        assert pending - {id} == old(pending) - {id};
        pending := pending - {id};
        calls := calls + [Finished(ConnectionClosed)];
      } else {
        sent := sent + [SentRequest(id, name, params)];
        calls := calls + [Draining];
      }
      Stepped(Event.Request(name, params));
    }

    method Finish(id: nat, how: Outcome)
      requires id < |calls|
      modifies this`pending, this`calls
      ensures Requests(pending, futures, calls) == JsonRpc.Finish(old(View()).requests, id, how)
    {
      calls := calls[id := Finished(how)];
      pending := pending - {id};
    }

    /** The write went through: wait for the answer, or return at once if it is there. */
    method AfterDrain(id: nat)
      requires Valid() && id < |calls| && calls[id].Draining?
      modifies this
      ensures Valid() && View() == Step(old(View()), Drained(id))
    {
      if futures[id].Settled? {
        Finish(id, futures[id].outcome);
      } else {
        calls := calls[id := Awaiting];
      }
      Stepped(Drained(id));
    }

    method AfterDrainFailure(id: nat)
      requires Valid() && id < |calls| && calls[id].Draining?
      modifies this
      ensures Valid() && View() == Step(old(View()), DrainFailed(id))
    {
      Finish(id, ConnectionClosed);
      Stepped(DrainFailed(id));
    }

    /** Cancel a caller, which runs later. If it waits for its answer, its future is cancelled now. */
    method Cancel(id: nat)
      requires Valid() && id < |calls| && !calls[id].Finished?
      modifies this
      ensures Valid() && View() == Step(old(View()), CancelCall(id))
    {
      if calls[id].Draining? {
        calls := calls[id := Unwinding];
      } else if calls[id].Awaiting? && futures[id].Unsettled? {
        futures := futures[id := Settled(Cancelled)];
      }
      Stepped(CancelCall(id));
    }

    /** A caller that was cancelled during its write runs again, and its entry is popped. */
    method Unwind(id: nat)
      requires Valid() && id < |calls| && calls[id].Unwinding?
      modifies this
      ensures Valid() && View() == Step(old(View()), Resume(id, true))
      ensures calls[id] == Finished(Cancelled) && id !in pending
    {
      Finish(id, Cancelled);
      Stepped(Resume(id, true));
    }

    method AfterWait(id: nat, cancelled: bool) returns (how: Outcome)
      requires Valid() && id < |calls| && calls[id].Awaiting? && futures[id].Settled?
      modifies this
      ensures Valid() && View() == Step(old(View()), Resume(id, cancelled))
      ensures calls[id] == Finished(how) && (!cancelled ==> old(futures)[id] == Settled(how))
      ensures id !in pending
    {
      how := if cancelled then Cancelled else futures[id].outcome;
      Finish(id, how);
      Stepped(Resume(id, cancelled));
    }

    /** A JSON object was read: a notification, a request of the far side, or a response. */
    method Dispatch(m: Message)
      requires Valid() && !closed
      modifies this
      ensures Valid() && View() == Step(old(View()), Line(m))
    {
      var name := Get(m, "method");
      if name.Str? {
        var id := Get(m, "id");
        if id.Null? {
          notified := notified + [(name.s, ParamsOf(m))];
        } else {
          asked, tasks := asked + [Asked(id, name.s, ParamsOf(m))], tasks + [Answering];
        }
      } else {
        ResolveResponse(m);
      }
      Stepped(Line(m));
    }

    method ResolveResponse(m: Message)
      requires Valid()
      modifies this`pending, this`futures
      ensures Requests(pending, futures, calls) == Resolve(old(View()).requests, m)
    {
      var id := Get(m, "id");
      if !id.Int? || id.n !in pending { return; }
      var future := pending[id.n];
      pending := pending - {id.n};
      if futures[future].Settled? { return; }
      futures := futures[future := Settled(Responded(ReplyOf(m)))];
    }

    /** The callback answered a request of the far side. */
    method Answer(task: nat, reply: Reply)
      requires Valid() && task < |tasks| && tasks[task].Answering?
      modifies this
      ensures Valid() && View() == Step(old(View()), AnswerDone(task, reply))
    {
      if closed || writerClosing {
        tasks := tasks[task := Dropped];
      } else {
        sent := sent + [SentReply(task, asked[task].id, reply)];
        tasks := tasks[task := Replied];
      }
      Stepped(AnswerDone(task, reply));
    }

    method LoseWriter()
      requires Valid()
      modifies this
      ensures Valid() && View() == Step(old(View()), WriterLost)
    {
      writerClosing := true;
      Stepped(WriterLost);
    }

    method EndOfInput()
      requires Valid()
      modifies this
      ensures Valid() && View() == Step(old(View()), Eof)
    {
      closed, ended := true, true;
      Stepped(Eof);
    }

    /** The end has been looked into: fail what is pending. */
    method EndReported()
      requires Valid() && ended
      modifies this
      ensures Valid() && View() == Step(old(View()), EofReported)
      ensures forall id :: 0 <= id < |calls| && !calls[id].Finished? ==> id < |futures| && futures[id].Settled?
    {
      FailPending();
      Stepped(EofReported);
    }

    /** Settle every future still open and forget the entries. */
    method FailPending()
      requires Valid()
      modifies this`pending, this`futures, this`drained
      ensures Requests(pending, futures, calls) == JsonRpc.FailPending(old(View()).requests)
      ensures drained
    {
      futures := SettleOpen(pending, futures);
      pending := map[];
      drained := true;
    }

    /** Cancel the tasks still answering the far side. */
    method CancelAnswers()
      modifies this`tasks
      ensures Answers(asked, tasks) == CancelTasks(old(View()).answers)
    {
      for t := 0 to |tasks|
        invariant |tasks| == |old(tasks)|
        invariant forall i :: 0 <= i < |tasks| ==>
          tasks[i] == if i < t && old(tasks)[i].Answering? then Dropped else old(tasks)[i]
      {
        if tasks[t].Answering? { tasks := tasks[t := Dropped]; }
      }
    }

    /** Stop: refuse new requests, give up the answers in progress, fail what is pending. */
    method Aclose()
      requires Valid()
      modifies this
      ensures Valid() && View() == Step(old(View()), Close)
      ensures forall id :: 0 <= id < |calls| && !calls[id].Finished? ==> id < |futures| && futures[id].Settled?
    {
      FailPending();
      CancelAnswers();
      closed, writerClosing := true, true;
      Stepped(Close);
    }
  }
}
