/** One end of a JSON-RPC 2.0 connection (sections 4, 4.1, 5 and 5.1 of the JSON-RPC 2.0
    Specification), as a state machine.

    Code between two suspension points runs without interference, so each such stretch is
    one step. `Step` says what every step does to the peer; the class `JsonRpcPeer.Peer` performs
    the steps on mutable fields and is proved to follow it; the theorems are about every
    interleaving of steps. */
module JsonRpc {
  import opened Runs

  datatype Json = Null | Bool(b: bool) | Int(n: int) | Float(r: real) | Str(s: string)
                | Arr(items: seq<Json>) | Obj(fields: Message)

  type Message = map<string, Json>

  const INTERNAL_ERROR := -32603

  /** A missing key reads as null. */
  function Get(m: Message, key: string): Json {
    if key in m then m[key] else Null
  }

  /** What a response says: a result, or an error with its code, message and data. */
  datatype Reply = Answer(value: Json) | Refusal(code: int, message: string, data: Json)

  /** A truth value counts as an integer here, as it does to the program. */
  function CodeOf(code: Json): int {
    match code
    case Int(n) => n
    case Bool(b) => if b then 1 else 0
    case _ => INTERNAL_ERROR
  }

  function ReplyOf(m: Message): Reply {
    match Get(m, "error")
    case Obj(error) =>
      var detail := Get(error, "message");
      Refusal(CodeOf(Get(error, "code")),
              if detail.Str? then detail.s else "the agent reported an error",
              Get(error, "data"))
    case _ => Answer(Get(m, "result"))
  }

  /** A message with a method is a call; anything else is read as a response. */
  predicate IsCall(m: Message) {
    Get(m, "method").Str?
  }

  predicate IsResponseTo(m: Message, id: int) {
    !IsCall(m) && Get(m, "id") == Int(id)
  }

  function ParamsOf(m: Message): Message {
    match Get(m, "params")
    case Obj(fields) => fields
    case _ => map[]
  }

  // ---------------------------------------------------------------- the state

  datatype Outcome = Responded(reply: Reply) | ConnectionClosed | Cancelled

  datatype Future = Unsettled | Settled(outcome: Outcome)

  /** Where a caller of `request` is: waiting for the write, cancelled there but not yet run again,
      waiting for the answer, or done. */
  datatype Call = Draining | Unwinding | Awaiting | Finished(how: Outcome)

  /** Our own requests. Ids count up from 0, so call `k` is the one that took id `k`. */
  datatype Requests = Requests(
    pending: map<int, nat>,     // request id -> its future
    futures: seq<Future>,       // every future ever made
    calls: seq<Call>)

  datatype Task = Answering | Replied | Dropped

  /** A request of the far side, as it is handed to the callback. */
  datatype Asked = Asked(id: Json, name: string, params: Message)

  /** The far side's requests, and the task answering each. */
  datatype Answers = Answers(asked: seq<Asked>, tasks: seq<Task>)

  /** A message written to the far side. A reply remembers the task that wrote it. */
  datatype Sent = SentRequest(id: int, name: string, params: Message)
                | SentReply(task: nat, answered: Json, reply: Reply)

  datatype Link = Link(
    closed: bool,               // no request may start any more
    ended: bool,                // the far side stopped talking; its end is being looked into
    drained: bool,              // what was pending has been failed
    writerClosing: bool)        // the transport refuses writes

  datatype State = State(link: Link, requests: Requests, answers: Answers,
                         notified: seq<(string, Message)>, sent: seq<Sent>)

  const FRESH := State(Link(false, false, false, false), Requests(map[], [], []), Answers([], []), [], [])

  datatype Event =
    | Request(name: string, params: Message)
    | Drained(id: nat)                            // the write went through
    | DrainFailed(id: nat)                        // the write failed
    | CancelCall(id: nat)                         // the caller's task is cancelled
    | Resume(id: nat, cancelled: bool)            // the waiting caller runs again
    | Line(message: Message)                      // a JSON object was read
    | Noise                                       // a line that is not a JSON object
    | AnswerDone(task: nat, reply: Reply)         // a callback answered the far side's request
    | WriterLost
    | Eof                                         // the read side ended
    | EofReported                                 // ... and its end has been looked into
    | Close

  // ---------------------------------------------------------------- the steps

  function Without(m: map<int, nat>, id: int): map<int, nat> {
    m - {id}
  }

  /** Take the next id and make its future; a closing transport fails the call at once. */
  function Begin(r: Requests, writerClosing: bool): Requests {
    var id := |r.calls|;
    if writerClosing then Requests(Without(r.pending, id), r.futures + [Unsettled], r.calls + [Finished(ConnectionClosed)])
    else Requests(r.pending[id := |r.futures|], r.futures + [Unsettled], r.calls + [Draining])
  }

  /** The call is over, and its entry is popped on every exit. */
  function Finish(r: Requests, id: nat, how: Outcome): Requests
    requires id < |r.calls|
  {
    Requests(Without(r.pending, id), r.futures, r.calls[id := Finished(how)])
  }

  /** The write went through; an answer may already be there. */
  function AfterDrain(r: Requests, id: nat): Requests {
    if id < |r.calls| && id < |r.futures| && r.calls[id].Draining? then
      if r.futures[id].Settled? then Finish(r, id, r.futures[id].outcome)
      else r.(calls := r.calls[id := Awaiting])
    else r
  }

  function AfterDrainFailure(r: Requests, id: nat): Requests {
    if id < |r.calls| && r.calls[id].Draining? then Finish(r, id, ConnectionClosed) else r
  }

  /** Cancelling a task that waits for its future cancels the future; the task itself runs later, and
      its entry stays until then. */
  function AfterCancel(r: Requests, id: nat): Requests {
    if id < |r.calls| && r.calls[id].Draining? then r.(calls := r.calls[id := Unwinding])
    else if id < |r.calls| && id < |r.futures| && r.calls[id].Awaiting? && r.futures[id].Unsettled?
    then r.(futures := r.futures[id := Settled(Cancelled)])
    else r
  }

  function AfterResume(r: Requests, id: nat, cancelled: bool): Requests {
    if id < |r.calls| && id < |r.futures| && r.calls[id].Awaiting? && r.futures[id].Settled?
    then Finish(r, id, if cancelled then Cancelled else r.futures[id].outcome)
    else if id < |r.calls| && r.calls[id].Unwinding? then Finish(r, id, Cancelled)
    else r
  }

  /** A response settles the future pending under its id, if there is one and it is open. */
  function Resolve(r: Requests, m: Message): Requests {
    match Get(m, "id")
    case Int(id) =>
      if id !in r.pending then r
      else
        var f := r.pending[id];
        Requests(Without(r.pending, id),
                 if f < |r.futures| && r.futures[f].Unsettled?
                 then r.futures[f := Settled(Responded(ReplyOf(m)))] else r.futures,
                 r.calls)
    case _ => r
  }

  predicate Holds(pending: map<int, nat>, f: nat) {
    exists id | id in pending :: pending[id] == f
  }

  /** The futures once everything pending has been failed. */
  function Failed(futures: seq<Future>, pending: map<int, nat>): seq<Future> {
    seq(|futures|, i requires 0 <= i < |futures| =>
      if Holds(pending, i) && futures[i].Unsettled? then Settled(ConnectionClosed) else futures[i])
  }

  function FailPending(r: Requests): Requests {
    Requests(map[], Failed(r.futures, r.pending), r.calls)
  }

  function CancelTasks(a: Answers): Answers {
    Answers(a.asked, seq(|a.tasks|, i requires 0 <= i < |a.tasks| => if a.tasks[i].Answering? then Dropped else a.tasks[i]))
  }

  function Dispatch(s: State, m: Message): State {
    if !IsCall(m) then s.(requests := Resolve(s.requests, m))
    else if Get(m, "id").Null? then s.(notified := s.notified + [(Get(m, "method").s, ParamsOf(m))])
    else s.(answers := Answers(s.answers.asked + [Asked(Get(m, "id"), Get(m, "method").s, ParamsOf(m))], s.answers.tasks + [Answering]))
  }

  /** The callback is done: its answer is written, unless the connection is gone. */
  function FinishAnswer(s: State, task: nat, reply: Reply): State {
    if task < |s.answers.tasks| && task < |s.answers.asked| && s.answers.tasks[task].Answering? then
      if s.link.closed || s.link.writerClosing
      then s.(answers := s.answers.(tasks := s.answers.tasks[task := Dropped]))
      else s.(answers := s.answers.(tasks := s.answers.tasks[task := Replied]),
              sent := s.sent + [SentReply(task, s.answers.asked[task].id, reply)])
    else s
  }

  function BeginRequest(s: State, name: string, params: Message): State {
    if s.link.closed then s
    else s.(requests := Begin(s.requests, s.link.writerClosing),
            sent := if s.link.writerClosing then s.sent else s.sent + [SentRequest(|s.requests.calls|, name, params)])
  }

  /** One step. An event that cannot happen in a state leaves it as it is. */
  function Step(s: State, e: Event): State {
    match e
    case Request(name, params) => BeginRequest(s, name, params)
    case Drained(id) => s.(requests := AfterDrain(s.requests, id))
    case DrainFailed(id) => s.(requests := AfterDrainFailure(s.requests, id))
    case CancelCall(id) => s.(requests := AfterCancel(s.requests, id))
    case Resume(id, cancelled) => s.(requests := AfterResume(s.requests, id, cancelled))
    case Line(m) => if s.link.closed then s else Dispatch(s, m)
    case Noise => s
    case AnswerDone(task, reply) => FinishAnswer(s, task, reply)
    case WriterLost => s.(link := s.link.(writerClosing := true))
    case Eof => s.(link := s.link.(closed := true, ended := true))
    case EofReported =>
      if s.link.ended then s.(link := s.link.(drained := true), requests := FailPending(s.requests)) else s
    case Close =>
      State(Link(true, s.link.ended, true, true), FailPending(s.requests), CancelTasks(s.answers), s.notified, s.sent)
  }

  // ---------------------------------------------------------------- our own requests

  /** Every pending entry is the future of its own call, still waiting; every waiting call has
      its future pending or settled; a reply a caller returned with is its future's. */
  ghost predicate Consistent(r: Requests) {
    && |r.futures| == |r.calls|
    && (forall id :: id in r.pending ==> 0 <= id < |r.calls| && r.pending[id] == id && !r.calls[id].Finished?)
    && (forall id :: 0 <= id < |r.calls| && !r.calls[id].Finished? ==> id in r.pending || r.futures[id].Settled?)
    && (forall id :: 0 <= id < |r.calls| && r.calls[id].Finished? && r.calls[id].how.Responded? ==>
          r.futures[id] == Settled(r.calls[id].how))
  }

  lemma BeginKeeps(r: Requests, writerClosing: bool)
    requires Consistent(r)
    ensures Consistent(Begin(r, writerClosing))
  {}

  lemma FinishKeeps(r: Requests, id: nat, how: Outcome)
    requires Consistent(r) && id < |r.calls|
    requires how.Responded? ==> r.futures[id] == Settled(how)
    ensures Consistent(Finish(r, id, how))
  {}

  lemma ResolveKeeps(r: Requests, m: Message)
    requires Consistent(r)
    ensures Consistent(Resolve(r, m))
  {}

  lemma PendingHolds(r: Requests, id: nat)
    requires Consistent(r)
    ensures Holds(r.pending, id) <==> id in r.pending
  {
    if id in r.pending { assert r.pending[id] == id; }
  }

  lemma FailKeeps(r: Requests)
    requires Consistent(r)
    ensures Consistent(FailPending(r))
    ensures forall id :: 0 <= id < |r.calls| && !r.calls[id].Finished? ==> FailPending(r).futures[id].Settled?
  {
    forall id | 0 <= id < |r.calls| && !r.calls[id].Finished? ensures FailPending(r).futures[id].Settled? {
      PendingHolds(r, id);
    }
  }

  /** What one event does to our own requests. */
  function RequestStep(s: State, e: Event): Requests {
    match e
    case Request(name, params) => if s.link.closed then s.requests else Begin(s.requests, s.link.writerClosing)
    case Drained(id) => AfterDrain(s.requests, id)
    case DrainFailed(id) => AfterDrainFailure(s.requests, id)
    case CancelCall(id) => AfterCancel(s.requests, id)
    case Resume(id, cancelled) => AfterResume(s.requests, id, cancelled)
    case Line(m) => if s.link.closed || IsCall(m) then s.requests else Resolve(s.requests, m)
    case EofReported => if s.link.ended then FailPending(s.requests) else s.requests
    case Close => FailPending(s.requests)
    case _ => s.requests
  }

  lemma RequestsPart(s: State, e: Event)
    ensures Step(s, e).requests == RequestStep(s, e)
  {}

  lemma ConsistentKept(s: State, e: Event)
    requires Consistent(s.requests)
    ensures Consistent(RequestStep(s, e))
  {
    var r := s.requests;
    match e {
      case Request(name, params) => BeginKeeps(r, s.link.writerClosing);
      case Drained(id) =>
        if id < |r.calls| && r.futures[id].Settled? { FinishKeeps(r, id, r.futures[id].outcome); }
      case DrainFailed(id) =>
        if id < |r.calls| { FinishKeeps(r, id, ConnectionClosed); }
      case Resume(id, cancelled) =>
        if id < |r.calls| { FinishKeeps(r, id, Cancelled); }
        if id < |r.calls| && r.futures[id].Settled? {
          FinishKeeps(r, id, if cancelled then Cancelled else r.futures[id].outcome);
        }
      case Line(m) => ResolveKeeps(r, m);
      case EofReported => FailKeeps(r);
      case Close => FailKeeps(r);
      case _ =>
    }
  }

  // ---------------------------------------------------------------- the whole peer

  /** The connection's flags; after the end nothing is pending. */
  ghost predicate LinkInv(s: State) {
    && (s.link.ended ==> s.link.closed)
    && (s.link.drained ==> s.link.closed && s.requests.pending == map[])
  }

  /** The ids on the wire strictly increase, and all have been handed out. */
  ghost predicate WireInv(sent: seq<Sent>, handedOut: nat) {
    var ids := RequestIds(sent);
    && (forall i :: 0 <= i < |ids| ==> 0 <= ids[i] < handedOut)
    && (forall i, j :: 0 <= i < j < |ids| ==> ids[i] < ids[j])
  }

  /** The ids of the requests written so far, in order. */
  function RequestIds(sent: seq<Sent>): seq<int> {
    if sent == [] then []
    else
      var last := |sent| - 1;
      RequestIds(sent[..last]) + (if sent[last].SentRequest? then [sent[last].id] else [])
  }

  /** How many replies task `t` has written. */
  function Replies(sent: seq<Sent>, t: nat): nat {
    if sent == [] then 0
    else
      var last := |sent| - 1;
      Replies(sent[..last], t) + (if sent[last].SentReply? && sent[last].task == t then 1 else 0)
  }

  /** Each request of the far side is being answered, was answered exactly once, or was given
      up; and a reply carries the id of its request (section 5). */
  ghost predicate AnswersInv(a: Answers, sent: seq<Sent>) {
    |a.tasks| == |a.asked| && RepliesOwn(a.asked, sent) && RepliesCounted(a.tasks, sent)
  }

  ghost predicate RepliesOwn(asked: seq<Asked>, sent: seq<Sent>) {
    forall i :: 0 <= i < |sent| && sent[i].SentReply? ==>
      sent[i].task < |asked| && sent[i].answered == asked[sent[i].task].id
  }

  ghost predicate RepliesCounted(tasks: seq<Task>, sent: seq<Sent>) {
    forall t: nat :: Replies(sent, t) == if t < |tasks| && tasks[t].Replied? then 1 else 0
  }

  lemma SentSnoc(sent: seq<Sent>, x: Sent)
    ensures RequestIds(sent + [x]) == RequestIds(sent) + (if x.SentRequest? then [x.id] else [])
    ensures forall t: nat :: Replies(sent + [x], t) == Replies(sent, t) + (if x.SentReply? && x.task == t then 1 else 0)
  {
    assert (sent + [x])[..|sent|] == sent;
  }

  lemma LinkKept(s: State, e: Event)
    requires LinkInv(s)
    ensures LinkInv(Step(s, e))
  {
    if s.link.drained { assert Without(map[], 0) == map[]; }
  }

  lemma WireSnoc(sent: seq<Sent>, x: Sent, n: nat)
    requires WireInv(sent, n) && (x.SentRequest? ==> x.id == n)
    ensures WireInv(sent + [x], if x.SentRequest? then n + 1 else n)
  {
    SentSnoc(sent, x);
  }

  lemma WireKept(s: State, e: Event)
    requires WireInv(s.sent, |s.requests.calls|)
    ensures WireInv(Step(s, e).sent, |Step(s, e).requests.calls|)
  {
    var n := |s.requests.calls|;
    match e {
      case Request(name, params) => WireSnoc(s.sent, SentRequest(n, name, params), n);
      case AnswerDone(task, reply) =>
        if task < |s.answers.asked| { WireSnoc(s.sent, SentReply(task, s.answers.asked[task].id, reply), n); }
      case _ =>
    }
  }

  lemma OwnSnoc(asked: seq<Asked>, sent: seq<Sent>, x: Sent)
    requires RepliesOwn(asked, sent) && (x.SentReply? ==> x.task < |asked| && x.answered == asked[x.task].id)
    ensures RepliesOwn(asked, sent + [x])
  {}

  lemma CountedReply(tasks: seq<Task>, sent: seq<Sent>, task: nat, x: Sent)
    requires RepliesCounted(tasks, sent) && task < |tasks| && tasks[task].Answering? && x.SentReply? && x.task == task
    ensures RepliesCounted(tasks[task := Replied], sent + [x])
  {
    SentSnoc(sent, x);
    forall t: nat
      ensures Replies(sent + [x], t) == if t < |tasks| && tasks[task := Replied][t].Replied? then 1 else 0
    {
      assert Replies(sent, t) == if t < |tasks| && tasks[t].Replied? then 1 else 0;
    }
  }

  lemma ReplyKeeps(a: Answers, sent: seq<Sent>, task: nat, reply: Reply)
    requires AnswersInv(a, sent) && task < |a.tasks| && a.tasks[task].Answering?
    ensures AnswersInv(a.(tasks := a.tasks[task := Replied]), sent + [SentReply(task, a.asked[task].id, reply)])
  {
    OwnSnoc(a.asked, sent, SentReply(task, a.asked[task].id, reply));
    CountedReply(a.tasks, sent, task, SentReply(task, a.asked[task].id, reply));
  }

  lemma RequestKeeps(a: Answers, sent: seq<Sent>, x: Sent)
    requires AnswersInv(a, sent) && x.SentRequest?
    ensures AnswersInv(a, sent + [x])
  {
    SentSnoc(sent, x);
  }

  lemma AskKeeps(a: Answers, sent: seq<Sent>, asked: Asked)
    requires AnswersInv(a, sent)
    ensures AnswersInv(Answers(a.asked + [asked], a.tasks + [Answering]), sent)
  {}

  lemma DropKeeps(a: Answers, sent: seq<Sent>, tasks: seq<Task>)
    requires AnswersInv(a, sent) && |tasks| == |a.tasks|
    requires forall t :: 0 <= t < |tasks| ==> tasks[t].Replied? == a.tasks[t].Replied?
    ensures AnswersInv(a.(tasks := tasks), sent)
  {}

  lemma AnswersKept(s: State, e: Event)
    requires AnswersInv(s.answers, s.sent)
    ensures AnswersInv(Step(s, e).answers, Step(s, e).sent)
  {
    var a, t := s.answers, Step(s, e);
    match e {
      case Request(name, params) =>
        RequestKeeps(a, s.sent, SentRequest(|s.requests.calls|, name, params));
      case Line(m) => if IsCall(m) { AskKeeps(a, s.sent, Asked(Get(m, "id"), Get(m, "method").s, ParamsOf(m))); }
      case AnswerDone(task, reply) =>
        if task < |a.tasks| && a.tasks[task].Answering? {
          ReplyKeeps(a, s.sent, task, reply);
          DropKeeps(a, s.sent, a.tasks[task := Dropped]);
        }
      case Close => DropKeeps(a, s.sent, t.answers.tasks);
      case _ =>
    }
  }

  ghost predicate Inv(s: State) {
    Consistent(s.requests) && LinkInv(s) && WireInv(s.sent, |s.requests.calls|) && AnswersInv(s.answers, s.sent)
  }

  lemma InvKept()
    ensures Preserves(Step, (s: State) => Inv(s))
  {
    forall s: State, e | Inv(s) ensures Inv(Step(s, e)) {
      RequestsPart(s, e);
      ConsistentKept(s, e);
      LinkKept(s, e);
      WireKept(s, e);
      AnswersKept(s, e);
    }
  }

  /** On every interleaving: an id is never handed out or written twice; every caller still
      waiting has its future pending or settled; what a caller got is what its future was
      settled with; and every incoming request is answered at most once, under its own id. */
  lemma {:induction false} EveryRunKeeps(es: seq<Event>)
    ensures Inv(Run(Step, FRESH, es))
  {
    InvKept();
    RunKeeps(Step, (s: State) => Inv(s), FRESH, es);
  }

  // ---------------------------------------------------------------- how a future is settled

  /** Only these events settle a future, each in its own way. */
  ghost predicate Settles(s: State, e: Event, id: nat, o: Outcome) {
    match o
    case Responded(reply) =>
      e.Line? && !s.link.closed && id in s.requests.pending && IsResponseTo(e.message, id) && reply == ReplyOf(e.message)
    case ConnectionClosed => id in s.requests.pending && ((e.EofReported? && s.link.ended) || e.Close?)
    case Cancelled => e == CancelCall(id) && id < |s.requests.calls| && s.requests.calls[id].Awaiting?
  }

  ghost predicate HasOutcome(r: Requests, id: nat, o: Outcome) {
    id < |r.futures| && r.futures[id] == Settled(o)
  }

  ghost predicate Open(r: Requests, id: nat) {
    id < |r.futures| ==> r.futures[id].Unsettled?
  }

  /** A settled future never changes. */
  lemma SettledStays(s: State, e: Event, id: nat, o: Outcome)
    requires Consistent(s.requests) && HasOutcome(s.requests, id, o)
    ensures HasOutcome(RequestStep(s, e), id, o)
  {}

  /** A step settles an open future exactly when it is a response with its own id, the end of
      the connection, or the cancellation of its own caller. */
  lemma SettledBy(s: State, e: Event, id: nat, o: Outcome)
    requires Consistent(s.requests) && Open(s.requests, id)
    requires id < |RequestStep(s, e).futures|
    ensures HasOutcome(RequestStep(s, e), id, o) <==> Settles(s, e, id, o) && id < |s.requests.futures|
  {
    PendingHolds(s.requests, id);
  }

  /** Exactly one event of a run settles a settled request. For a reply, it is a response with
      the request's own id, read while the request was pending and carrying this very reply. */
  lemma {:induction false} SettledOnce(es: seq<Event>, id: nat, o: Outcome) returns (k: nat)
    requires HasOutcome(Run(Step, FRESH, es).requests, id, o)
    ensures k < |es| && Settles(Run(Step, FRESH, es[..k]), es[k], id, o)
    ensures forall j :: 0 <= j <= k ==> Open(Run(Step, FRESH, es[..j]).requests, id)
    ensures forall j :: k < j <= |es| ==> HasOutcome(Run(Step, FRESH, es[..j]).requests, id, o)
  {
    var inv := (s: State) => Inv(s);
    var done := (s: State) => !Open(s.requests, id);
    InvKept();
    forall s: State, e | inv(s) && done(s) ensures done(Step(s, e)) {
      SettledStays(s, e, id, s.requests.futures[id].outcome);
      RequestsPart(s, e);
    }
    k := TurningPoint(Step, inv, done, FRESH, es);
    var before := Run(Step, FRESH, es[..k]);
    EveryRunKeeps(es[..k]);
    RunSnoc(Step, FRESH, es, k);
    RequestsPart(before, es[k]);
    forall j | k < j <= |es| ensures HasOutcome(Run(Step, FRESH, es[..j]).requests, id, o) {
      SameOutcomeLater(es, j, id, o);
    }
    SettledBy(before, es[k], id, o);
  }

  lemma OutcomeStable(id: nat, o: Outcome)
    ensures Stable(Step, (t: State) => Inv(t), (t: State) => HasOutcome(t.requests, id, o))
  {
    forall t: State, e | Inv(t) && HasOutcome(t.requests, id, o) ensures HasOutcome(Step(t, e).requests, id, o) {
      SettledStays(t, e, id, o);
      RequestsPart(t, e);
    }
  }

  lemma OutcomeForGood(s: State, es: seq<Event>, id: nat, o: Outcome)
    requires Inv(s) && HasOutcome(s.requests, id, o)
    ensures HasOutcome(Run(Step, s, es).requests, id, o)
  {
    InvKept();
    OutcomeStable(id, o);
    StaysTrue(Step, (t: State) => Inv(t), (t: State) => HasOutcome(t.requests, id, o), s, es);
  }

  /** Whatever outcome a request has at some moment is the one it ends with. */
  lemma SameOutcomeLater(es: seq<Event>, j: nat, id: nat, o: Outcome)
    requires j <= |es| && !Open(Run(Step, FRESH, es[..j]).requests, id)
    requires HasOutcome(Run(Step, FRESH, es).requests, id, o)
    ensures HasOutcome(Run(Step, FRESH, es[..j]).requests, id, o)
  {
    var s := Run(Step, FRESH, es[..j]);
    EveryRunKeeps(es[..j]);
    OutcomeForGood(s, es[j..], id, s.requests.futures[id].outcome);
    RunSplit(Step, FRESH, es[..j], es[j..]);
    assert es[..j] + es[j..] == es;
  }

  // ---------------------------------------------------------------- endings and strangers

  /** Once what was pending has been failed, no caller is left waiting on an open future, and no
      later event can make one: requests that start later get no id. */
  lemma {:induction false} NobodyLeftWaiting(es: seq<Event>, more: seq<Event>)
    requires Run(Step, FRESH, es).link.drained
    ensures var t := Run(Step, FRESH, es + more);
      && t.link.drained && t.link.closed && t.requests.pending == map[]
      && (forall id :: 0 <= id < |t.requests.calls| ==>
            id < |t.requests.futures| && (t.requests.calls[id].Finished? || t.requests.futures[id].Settled?))
      && |t.requests.calls| == |Run(Step, FRESH, es).requests.calls|
  {
    var inv := (s: State) => Inv(s);
    var s := Run(Step, FRESH, es);
    var q := (t: State) => t.link.drained && |t.requests.calls| == |s.requests.calls|;
    InvKept();
    EveryRunKeeps(es);
    EveryRunKeeps(es + more);
    RunSplit(Step, FRESH, es, more);
    forall t: State, e | inv(t) && q(t) ensures q(Step(t, e)) { DrainedStays(t, e); }
    StaysTrue(Step, inv, q, s, more);
  }

  lemma DrainedStays(s: State, e: Event)
    requires LinkInv(s) && s.link.drained
    ensures Step(s, e).link.drained && |Step(s, e).requests.calls| == |s.requests.calls|
  {}

  /** A response that is late, foreign or malformed changes nothing at all; neither a request nor
      a notification of the far side touches our own requests, whatever id it carries; and a
      notification is never answered (section 4.1). */
  lemma StrangersIgnored(s: State, m: Message)
    ensures !IsCall(m) && (forall id :: id in s.requests.pending ==> !IsResponseTo(m, id)) ==> Step(s, Line(m)) == s
    ensures IsCall(m) ==> Step(s, Line(m)).requests == s.requests && Step(s, Line(m)).sent == s.sent
    ensures IsCall(m) && Get(m, "id").Null? ==> Step(s, Line(m)).answers == s.answers
  {
    if !IsCall(m) && (forall id :: id in s.requests.pending ==> !IsResponseTo(m, id)) {
      match Get(m, "id") {
        case Int(id) => assert IsResponseTo(m, id);
        case _ =>
      }
    }
  }

  // ---------------------------------------------------------------- on the wire

  /** The object that is written (sections 4 and 5). */
  function WireOf(x: Sent): Message {
    match x
    case SentRequest(id, name, params) =>
      map["jsonrpc" := Str("2.0"), "id" := Int(id), "method" := Str(name), "params" := Obj(params)]
    case SentReply(_, answered, Answer(value)) =>
      map["jsonrpc" := Str("2.0"), "id" := answered, "result" := value]
    case SentReply(_, answered, Refusal(code, message, data)) =>
      map["jsonrpc" := Str("2.0"), "id" := answered,
          "error" := Obj(map["code" := Int(code), "message" := Str(message)] + if data.Null? then map[] else map["data" := data])]
  }

  /** A written reply reads back as that reply, under the id of its request. */
  lemma ReplyReadsBack(task: nat, answered: Json, reply: Reply)
    ensures var m := WireOf(SentReply(task, answered, reply));
      !IsCall(m) && Get(m, "id") == answered && ReplyOf(m) == reply
  {}

  /** A written request reads as a call of that method with those parameters. */
  lemma RequestReadsBack(id: int, name: string, params: Message)
    ensures var m := WireOf(SentRequest(id, name, params));
      IsCall(m) && Get(m, "method") == Str(name) && Get(m, "id") == Int(id) && ParamsOf(m) == params
  {}

  /** A response is an error exactly when it has an error object. A code that is no integer and a
      message that is no text are replaced. */
  lemma ErrorsAreRead(m: Message)
    ensures !Get(m, "error").Obj? ==> ReplyOf(m) == Answer(Get(m, "result"))
    ensures Get(m, "error").Obj? ==>
      var error, reply := Get(m, "error").fields, ReplyOf(m);
      && reply.Refusal? && reply.data == Get(error, "data")
      && (Get(error, "code").Int? ==> reply.code == Get(error, "code").n)
      && (Get(error, "code") == Bool(true) ==> reply.code == 1) && (Get(error, "code") == Bool(false) ==> reply.code == 0)
      && (!Get(error, "code").Int? && !Get(error, "code").Bool? ==> reply.code == -32603)
      && (Get(error, "message").Str? ==> reply.message == Get(error, "message").s)
      && (!Get(error, "message").Str? ==> reply.message == "the agent reported an error")
  {}

  /** A peer that is neither closed nor about to be. */
  predicate Running(s: State) {
    !s.link.closed && !s.link.writerClosing
  }

  /** A request written by one peer is handed to the other's callback with its method and parameters,
      and the callback's reply settles the request of the one that asked. */
  lemma CallGoesRound(a: State, b: State, name: string, params: Message, reply: Reply)
    requires Inv(a) && Inv(b) && Running(a) && Running(b)
    ensures var id, task := |a.requests.calls|, |b.answers.tasks|;
      var a1 := Step(a, Request(name, params));
      |a1.sent| == |a.sent| + 1 &&
      var b1 := Step(b, Line(WireOf(a1.sent[|a.sent|])));
      |b1.answers.asked| == task + 1 && b1.answers.asked[task] == Asked(Int(id), name, params) &&
      var b2 := Step(b1, AnswerDone(task, reply));
      |b2.sent| == |b.sent| + 1 &&
      HasOutcome(Step(a1, Line(WireOf(b2.sent[|b.sent|]))).requests, id, Responded(reply))
  {
    var id, task := |a.requests.calls|, |b.answers.tasks|;
    var a1 := Step(a, Request(name, params));
    RequestReadsBack(id, name, params);
    assert a1.sent[|a.sent|] == SentRequest(id, name, params);
    var b1 := Step(b, Line(WireOf(a1.sent[|a.sent|])));
    assert b1.answers.tasks[task] == Answering && b1.sent == b.sent;
    ReplyReadsBack(task, Int(id), reply);
    assert a1.requests.pending[id] == id && a1.requests.futures[id] == Unsettled;
  }
}
