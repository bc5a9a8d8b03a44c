/** A node's event log, folded back into the turns it happened in. */
module Conversation {
  import opened Options

  type Args = map<string, string>

  /** The events the fold looks at, with the payload fields it reads. */
  datatype Event =
    | Transcript(sequence: nat, role: string, text: string)
    | Steering(sequence: nat, text: string)
    | Thought(sequence: nat, text: string)
    | ToolCall(sequence: nat, callId: string, name: string, args: Args)
    | ToolResult(callId: string, result: string)
    | ApprovalRequested(sequence: nat, approvalId: string, kind: string, reason: string,
                        command: string, toolName: string, callId: string)
    | ApprovalResolved(approvalId: string, decision: string)
    | RunFailed(error: string)
    | RunForked
    | Unknown

  datatype Part =
    | Text(text: string)
    | Reasoning(text: string)
    | Call(callId: string, toolName: string, args: Args, result: Option<string>)

  /** A turn. Its id is its role and the sequence number of the event that opened it. */
  datatype Message = Message(user: bool, sequence: nat, content: seq<Part>)

  datatype Request = Request(approvalId: string, kind: string, reason: string, command: string,
                             toolName: string, callId: string, messageIndex: nat)

  /** The fold's variables. `calls` says where each tool call's part is; `turn` is the assistant
      turn that is open. */
  datatype State = State(messages: seq<Message>, calls: map<string, (nat, nat)>, steered: map<string, nat>,
                         turn: Option<nat>, requests: seq<Request>, failure: string)

  const EMPTY := State([], map[], map[], None, [], "")

  // ---------------------------------------------------------------- the steps

  /** JavaScript's white space and line terminators. */
  const BLANKS := "\t\n\U{0B}\U{0C}\r \U{A0}\U{1680}\U{2000}\U{2001}\U{2002}\U{2003}\U{2004}\U{2005}\U{2006}\U{2007}\U{2008}\U{2009}\U{200A}\U{2028}\U{2029}\U{202F}\U{205F}\U{3000}\U{FEFF}"

  predicate Blank(text: string) {
    forall c :: c in text ==> c in BLANKS
  }

  /** The open assistant turn, opening one if there is none. */
  function OpenTurn(s: State, sequence: nat): State {
    if s.turn.Some? then s
    else s.(messages := s.messages + [Message(false, sequence, [])], turn := Some(|s.messages|))
  }

  function Push(messages: seq<Message>, i: nat, part: Part): seq<Message>
    requires i < |messages|
  {
    messages[i := messages[i].(content := messages[i].content + [part])]
  }

  function SetPart(messages: seq<Message>, i: nat, j: nat, part: Part): seq<Message>
    requires i < |messages| && j < |messages[i].content|
  {
    messages[i := messages[i].(content := messages[i].content[j := part])]
  }

  /** Add a part to the assistant turn. */
  function Say(s: State, sequence: nat, part: Part): State {
    var o := OpenTurn(s, sequence);
    if o.turn.value < |o.messages| then o.(messages := Push(o.messages, o.turn.value, part)) else o
  }

  function UserTurn(s: State, sequence: nat, text: string): State {
    s.(turn := None, messages := s.messages + [Message(true, sequence, [Text(text)])])
  }

  function Credit(steered: map<string, nat>, text: string): nat {
    if text in steered then steered[text] else 0
  }

  function OrElse(a: string, b: string): string {
    if a != "" then a else b
  }

  /** Whether the open turn ends in reasoning, which more thinking is added to. */
  predicate EndsInReasoning(s: State) {
    && s.turn.Some? && s.turn.value < |s.messages|
    && var content := s.messages[s.turn.value].content;
       content != [] && content[|content| - 1].Reasoning?
  }

  function Think(s: State, sequence: nat, text: string): State {
    if EndsInReasoning(s) then
      var i := s.turn.value;
      var j := |s.messages[i].content| - 1;
      s.(messages := SetPart(s.messages, i, j, Reasoning(s.messages[i].content[j].text + text)))
    else Say(s, sequence, Reasoning(text))
  }

  /** Whether the map of calls points at the part of this call. */
  predicate Known(s: State, callId: string) {
    && callId in s.calls
    && var (i, j) := s.calls[callId];
       i < |s.messages| && j < |s.messages[i].content| && s.messages[i].content[j].Call?
  }

  /** A call: described further if it is known, else a new part of the assistant turn. */
  function Describe(s: State, sequence: nat, callId: string, toolName: string, args: Args): State {
    if Known(s, callId) then
      var (i, j) := s.calls[callId];
      var part := s.messages[i].content[j];
      s.(messages := SetPart(s.messages, i, j, part.(toolName := OrElse(toolName, part.toolName), args := part.args + args)))
    else
      var o := OpenTurn(s, sequence);
      if o.turn.value < |o.messages| then
        o.(calls := o.calls[callId := (o.turn.value, |o.messages[o.turn.value].content|)],
           messages := Push(o.messages, o.turn.value, Call(callId, toolName, args, None)))
      else o
  }

  function Finish(s: State, callId: string, result: string): State {
    if Known(s, callId) then
      var (i, j) := s.calls[callId];
      s.(messages := SetPart(s.messages, i, j, s.messages[i].content[j].(result := Some(result))))
    else s
  }

  function RequestArgs(command: string, reason: string): Args {
    (if command != "" then map["command" := command] else map[])
    + (if reason != "" then map["reason" := reason] else map[])
  }

  function Ask(s: State, e: Event): State
    requires e.ApprovalRequested?
  {
    if e.approvalId == "" then s
    else
      var o := if e.callId == "" then s
               else Describe(s, e.sequence, e.callId, OrElse(e.toolName, "tool"), RequestArgs(e.command, e.reason));
      o.(requests := o.requests + [Request(e.approvalId, e.kind, e.reason, e.command, e.toolName, e.callId,
                                           if o.turn.Some? then o.turn.value else |o.messages|)])
  }

  function Step(s: State, e: Event): State {
    match e
    case Transcript(sequence, role, text) =>
      if text == "" then s
      else if role != "user" then Say(s, sequence, Text(text))
      else if Credit(s.steered, text) > 0 then s.(steered := s.steered[text := Credit(s.steered, text) - 1])
      else UserTurn(s, sequence, text)
    case Steering(sequence, text) =>
      if text == "" then s
      else UserTurn(s.(steered := s.steered[text := Credit(s.steered, text) + 1]), sequence, text)
    case Thought(sequence, text) => if Blank(text) then s else Think(s, sequence, text)
    case ToolCall(sequence, callId, name, args) =>
      if callId == "" then s else Describe(s, sequence, callId, OrElse(name, "tool"), args)
    case ToolResult(callId, result) => Finish(s, callId, result)
    case ApprovalRequested(_, _, _, _, _, _, _) => Ask(s, e)
    case RunFailed(error) => s.(failure := error)
    case RunForked => s.(failure := "")
    case ApprovalResolved(_, _) => s
    case Unknown => s
  }

  function Fold(es: seq<Event>): State
    decreases |es|
  {
    if es == [] then EMPTY else Step(Fold(es[..|es| - 1]), es[|es| - 1])
  }

  // ---------------------------------------------------------------- the shape of a transcript

  /** The open turn is the last message; when none is open, a person spoke last. */
  ghost predicate TurnIsLast(messages: seq<Message>, turn: Option<nat>) {
    match turn
    case Some(i) => messages != [] && i == |messages| - 1 && !messages[i].user
    case None => messages != [] ==> messages[|messages| - 1].user
  }

  ghost predicate GoodContent(content: seq<Part>) {
    && content != []
    && forall j :: 0 <= j < |content| - 1 ==> !(content[j].Reasoning? && content[j + 1].Reasoning?)
  }

  /** A person's turn is one text. */
  ghost predicate GoodMessage(m: Message) {
    GoodContent(m.content) && (m.user ==> |m.content| == 1 && m.content[0].Text?)
  }

  /** No two assistant turns in a row, no empty turn, no two reasoning parts in a row. */
  ghost predicate WellShaped(messages: seq<Message>) {
    && (forall i :: 0 <= i < |messages| - 1 ==> messages[i].user || messages[i + 1].user)
    && (forall i :: 0 <= i < |messages| ==> GoodMessage(messages[i]))
  }

  predicate IsCallAt(messages: seq<Message>, at: (nat, nat), callId: string) {
    && at.0 < |messages| && at.1 < |messages[at.0].content|
    && messages[at.0].content[at.1].Call? && messages[at.0].content[at.1].callId == callId
  }

  /** The map of calls and the tool-call parts of the transcript are in one-to-one correspondence. */
  ghost predicate CallsMatch(messages: seq<Message>, calls: map<string, (nat, nat)>) {
    && (forall c :: c in calls ==> IsCallAt(messages, calls[c], c))
    && (forall at, c :: IsCallAt(messages, at, c) ==> c in calls && calls[c] == at)
  }

  ghost predicate Inv(s: State) {
    TurnIsLast(s.messages, s.turn) && WellShaped(s.messages) && CallsMatch(s.messages, s.calls)
  }

  // Appending a message, pushing a part onto the last one, replacing a part.

  lemma AppendShape(messages: seq<Message>, m: Message)
    requires WellShaped(messages) && GoodMessage(m)
    requires m.user || (messages != [] ==> messages[|messages| - 1].user)
    ensures WellShaped(messages + [m])
  {}

  lemma AppendCalls(messages: seq<Message>, calls: map<string, (nat, nat)>, m: Message)
    requires CallsMatch(messages, calls)
    requires forall j :: 0 <= j < |m.content| ==> !m.content[j].Call?
    ensures CallsMatch(messages + [m], calls)
  {
    var more := messages + [m];
    assert forall at: (nat, nat), c :: IsCallAt(more, at, c) <==> IsCallAt(messages, at, c);
  }

  lemma AppendCall(messages: seq<Message>, calls: map<string, (nat, nat)>, sequence: nat, part: Part)
    requires CallsMatch(messages, calls) && part.Call? && part.callId !in calls
    ensures CallsMatch(messages + [Message(false, sequence, [part])], calls[part.callId := (|messages|, 0)])
  {
    var more := messages + [Message(false, sequence, [part])];
    assert forall at: (nat, nat), c ::
      IsCallAt(more, at, c) <==> IsCallAt(messages, at, c) || (at == (|messages|, 0) && c == part.callId);
  }

  lemma PushShape(messages: seq<Message>, part: Part)
    requires WellShaped(messages) && messages != [] && !messages[|messages| - 1].user
    requires var last := messages[|messages| - 1].content; part.Reasoning? ==> !last[|last| - 1].Reasoning?
    ensures WellShaped(Push(messages, |messages| - 1, part))
  {
    var i := |messages| - 1;
    var content := messages[i].content;
    assert GoodMessage(messages[i]);
    assert GoodContent(content + [part]);
  }

  lemma PushCalls(messages: seq<Message>, calls: map<string, (nat, nat)>, i: nat, part: Part)
    requires CallsMatch(messages, calls) && i < |messages| && (part.Call? ==> part.callId !in calls)
    ensures CallsMatch(Push(messages, i, part),
                       if part.Call? then calls[part.callId := (i, |messages[i].content|)] else calls)
  {
    var more, new' := Push(messages, i, part), (i, |messages[i].content|);
    assert forall at: (nat, nat), c ::
      IsCallAt(more, at, c) <==> IsCallAt(messages, at, c) || (part.Call? && at == new' && c == part.callId);
  }

  lemma SetPartShape(messages: seq<Message>, i: nat, j: nat, part: Part)
    requires WellShaped(messages) && i < |messages| && j < |messages[i].content|
    requires part.Reasoning? == messages[i].content[j].Reasoning? && part.Text? == messages[i].content[j].Text?
    ensures WellShaped(SetPart(messages, i, j, part))
  {
    assert GoodMessage(messages[i]);
    assert GoodContent(messages[i].content[j := part]);
  }

  lemma SetPartCalls(messages: seq<Message>, calls: map<string, (nat, nat)>, i: nat, j: nat, part: Part)
    requires CallsMatch(messages, calls) && i < |messages| && j < |messages[i].content|
    requires part.Call? == messages[i].content[j].Call? && (part.Call? ==> part.callId == messages[i].content[j].callId)
    ensures CallsMatch(SetPart(messages, i, j, part), calls)
  {
    var more := SetPart(messages, i, j, part);
    assert forall at: (nat, nat), c :: IsCallAt(more, at, c) <==> IsCallAt(messages, at, c);
  }

  lemma SetPartKeeps(s: State, i: nat, j: nat, part: Part)
    requires Inv(s) && i < |s.messages| && j < |s.messages[i].content|
    requires part.Reasoning? == s.messages[i].content[j].Reasoning?
    requires part.Call? == s.messages[i].content[j].Call? && (part.Call? ==> part.callId == s.messages[i].content[j].callId)
    ensures Inv(s.(messages := SetPart(s.messages, i, j, part)))
  {
    SetPartShape(s.messages, i, j, part);
    SetPartCalls(s.messages, s.calls, i, j, part);
  }

  /** Opening a turn and pushing the first part is appending a message with that part. */
  lemma PushOpened(s: State, sequence: nat, part: Part)
    requires TurnIsLast(s.messages, s.turn)
    ensures var o := OpenTurn(s, sequence);
      && o.turn == Some(|o.messages| - 1) && o.calls == s.calls
      && Push(o.messages, o.turn.value, part) ==
           (if s.turn.Some? then Push(s.messages, |s.messages| - 1, part)
            else s.messages + [Message(false, sequence, [part])])
  {
    assert [] + [part] == [part];
  }

  lemma SayKeeps(s: State, sequence: nat, part: Part)
    requires Inv(s) && !part.Call? && (part.Reasoning? ==> !EndsInReasoning(s))
    ensures Inv(Say(s, sequence, part))
  {
    PushOpened(s, sequence, part);
    if s.turn.Some? {
      assert GoodMessage(s.messages[|s.messages| - 1]);
      PushShape(s.messages, part);
      PushCalls(s.messages, s.calls, |s.messages| - 1, part);
    } else {
      var m := Message(false, sequence, [part]);
      AppendShape(s.messages, m);
      AppendCalls(s.messages, s.calls, m);
    }
  }

  lemma UserTurnKeeps(s: State, sequence: nat, text: string)
    requires Inv(s)
    ensures Inv(UserTurn(s, sequence, text))
  {
    var m := Message(true, sequence, [Text(text)]);
    AppendShape(s.messages, m);
    AppendCalls(s.messages, s.calls, m);
  }

  lemma ThinkKeeps(s: State, sequence: nat, text: string)
    requires Inv(s)
    ensures Inv(Think(s, sequence, text))
  {
    if EndsInReasoning(s) {
      var i := s.turn.value;
      var j := |s.messages[i].content| - 1;
      SetPartKeeps(s, i, j, Reasoning(s.messages[i].content[j].text + text));
    } else {
      SayKeeps(s, sequence, Reasoning(text));
    }
  }

  lemma KnownIsCall(s: State, callId: string)
    requires Inv(s)
    ensures Known(s, callId) <==> callId in s.calls
    ensures callId in s.calls ==> IsCallAt(s.messages, s.calls[callId], callId)
  {}

  lemma NewCallKeeps(s: State, sequence: nat, part: Part)
    requires Inv(s) && part.Call? && part.callId !in s.calls
    ensures var o := OpenTurn(s, sequence);
      && o.turn.Some? && o.turn.value < |o.messages|
      && Inv(o.(calls := o.calls[part.callId := (o.turn.value, |o.messages[o.turn.value].content|)],
                messages := Push(o.messages, o.turn.value, part)))
  {
    PushOpened(s, sequence, part);
    if s.turn.Some? {
      assert GoodMessage(s.messages[|s.messages| - 1]);
      PushShape(s.messages, part);
      PushCalls(s.messages, s.calls, |s.messages| - 1, part);
    } else {
      AppendShape(s.messages, Message(false, sequence, [part]));
      AppendCall(s.messages, s.calls, sequence, part);
    }
  }

  lemma DescribeKeeps(s: State, sequence: nat, callId: string, toolName: string, args: Args)
    requires Inv(s)
    ensures Inv(Describe(s, sequence, callId, toolName, args))
    ensures Describe(s, sequence, callId, toolName, args).calls.Keys == s.calls.Keys + {callId}
  {
    KnownIsCall(s, callId);
    if callId in s.calls {
      var (i, j) := s.calls[callId];
      var part := s.messages[i].content[j];
      SetPartKeeps(s, i, j, part.(toolName := OrElse(toolName, part.toolName), args := part.args + args));
    } else {
      NewCallKeeps(s, sequence, Call(callId, toolName, args, None));
    }
  }

  lemma FinishKeeps(s: State, callId: string, result: string)
    requires Inv(s)
    ensures Inv(Finish(s, callId, result))
  {
    KnownIsCall(s, callId);
    if callId in s.calls {
      var (i, j) := s.calls[callId];
      SetPartKeeps(s, i, j, s.messages[i].content[j].(result := Some(result)));
    }
  }

  lemma AskKeeps(s: State, e: Event)
    requires Inv(s) && e.ApprovalRequested?
    ensures Inv(Ask(s, e)) && Ask(s, e).calls.Keys == s.calls.Keys + CallsIn(e)
  {
    if e.approvalId != "" && e.callId != "" {
      DescribeKeeps(s, e.sequence, e.callId, OrElse(e.toolName, "tool"), RequestArgs(e.command, e.reason));
    }
  }

  lemma TranscriptKeeps(s: State, sequence: nat, role: string, text: string)
    requires Inv(s)
    ensures var t := Step(s, Transcript(sequence, role, text)); Inv(t) && t.calls == s.calls
  {
    if text != "" && role != "user" { SayKeeps(s, sequence, Text(text)); }
    UserTurnKeeps(s, sequence, text);
  }

  lemma SteeringKeeps(s: State, sequence: nat, text: string)
    requires Inv(s)
    ensures var t := Step(s, Steering(sequence, text)); Inv(t) && t.calls == s.calls
  {
    UserTurnKeeps(s.(steered := s.steered[text := Credit(s.steered, text) + 1]), sequence, text);
  }

  lemma ToolKeeps(s: State, e: Event)
    requires Inv(s) && (e.ToolCall? || e.ToolResult?)
    ensures Inv(Step(s, e)) && Step(s, e).calls.Keys == s.calls.Keys + CallsIn(e)
  {
    if e.ToolResult? {
      FinishKeeps(s, e.callId, e.result);
    } else if e.callId != "" {
      DescribeKeeps(s, e.sequence, e.callId, OrElse(e.name, "tool"), e.args);
    }
  }

  lemma OtherKeeps(s: State, e: Event)
    requires Inv(s) && !e.Transcript? && !e.Steering? && !e.ToolCall? && !e.ToolResult? && !e.ApprovalRequested?
    ensures Inv(Step(s, e)) && Step(s, e).calls == s.calls
  {
    if e.Thought? { ThinkKeeps(s, e.sequence, e.text); }
  }

  lemma StepKeeps(s: State, e: Event)
    requires Inv(s)
    ensures Inv(Step(s, e))
    ensures Step(s, e).calls.Keys == s.calls.Keys + CallsIn(e)
  {
    match e {
      case Transcript(sequence, role, text) => TranscriptKeeps(s, sequence, role, text);
      case Steering(sequence, text) => SteeringKeeps(s, sequence, text);
      case ToolCall(_, _, _, _) => ToolKeeps(s, e);
      case ToolResult(_, _) => ToolKeeps(s, e);
      case ApprovalRequested(_, _, _, _, _, _, _) => AskKeeps(s, e);
      case _ => OtherKeeps(s, e);
    }
  }

  /** The call ids an event mentions as calls. */
  function CallsIn(e: Event): set<string> {
    if e.ToolCall? && e.callId != "" then {e.callId}
    else if e.ApprovalRequested? && e.approvalId != "" && e.callId != "" then {e.callId}
    else {}
  }

  function CallsSeen(es: seq<Event>): set<string> {
    if es == [] then {} else CallsSeen(es[..|es| - 1]) + CallsIn(es[|es| - 1])
  }

  /** For every log: no two adjacent assistant turns, no empty turn, no two adjacent reasoning
      parts, and exactly one tool-call part for each call id seen, and for no other. */
  lemma {:induction false} TranscriptWellFormed(es: seq<Event>)
    ensures Inv(Fold(es)) && Fold(es).calls.Keys == CallsSeen(es)
    decreases |es|
  {
    if es != [] {
      TranscriptWellFormed(es[..|es| - 1]);
      StepKeeps(Fold(es[..|es| - 1]), es[|es| - 1]);
    }
  }

  // ---------------------------------------------------------------- what a step does to the turns

  /** Every step changes the transcript in one of these ways. */
  datatype Edit =
    | NoEdit
    | Append(message: Message)
    | Extend(part: Part)                       // add a part to the last turn, an assistant's
    | Replace(i: nat, j: nat, part: Part)      // say more about a part of an assistant turn

  predicate Fits(messages: seq<Message>, edit: Edit) {
    match edit
    case NoEdit => true
    case Append(m) => |m.content| == 1 && (m.user ==> m.content[0].Text?)
    case Extend(part) => messages != [] && !messages[|messages| - 1].user
    case Replace(i, j, part) =>
      && i < |messages| && j < |messages[i].content| && !messages[i].user
      && (part.Call? == messages[i].content[j].Call?) && (part.Reasoning? == messages[i].content[j].Reasoning?)
      && !part.Text?
  }

  function Edited(messages: seq<Message>, edit: Edit): seq<Message>
    requires Fits(messages, edit)
  {
    match edit
    case NoEdit => messages
    case Append(m) => messages + [m]
    case Extend(part) => Push(messages, |messages| - 1, part)
    case Replace(i, j, part) => SetPart(messages, i, j, part)
  }

  /** A new part of the assistant's. */
  function Adding(s: State, sequence: nat, part: Part): Edit {
    if s.turn.Some? then Extend(part) else Append(Message(false, sequence, [part]))
  }

  function Describing(s: State, sequence: nat, callId: string, toolName: string, args: Args): Edit {
    if Known(s, callId) then
      var (i, j) := s.calls[callId];
      var part := s.messages[i].content[j];
      Replace(i, j, part.(toolName := OrElse(toolName, part.toolName), args := part.args + args))
    else Adding(s, sequence, Call(callId, toolName, args, None))
  }

  function Thinking(s: State, sequence: nat, text: string): Edit {
    if EndsInReasoning(s) then
      var i := s.turn.value;
      var j := |s.messages[i].content| - 1;
      Replace(i, j, Reasoning(s.messages[i].content[j].text + text))
    else Adding(s, sequence, Reasoning(text))
  }

  function EditOf(s: State, e: Event): Edit {
    match e
    case Transcript(sequence, role, text) =>
      if text == "" then NoEdit
      else if role != "user" then Adding(s, sequence, Text(text))
      else if Credit(s.steered, text) > 0 then NoEdit
      else Append(Message(true, sequence, [Text(text)]))
    case Steering(sequence, text) => if text == "" then NoEdit else Append(Message(true, sequence, [Text(text)]))
    case Thought(sequence, text) => if Blank(text) then NoEdit else Thinking(s, sequence, text)
    case ToolCall(sequence, callId, name, args) =>
      if callId == "" then NoEdit else Describing(s, sequence, callId, OrElse(name, "tool"), args)
    case ToolResult(callId, result) =>
      if Known(s, callId) then
        var (i, j) := s.calls[callId];
        Replace(i, j, s.messages[i].content[j].(result := Some(result)))
      else NoEdit
    case ApprovalRequested(sequence, approvalId, _, reason, command, toolName, callId) =>
      if approvalId == "" || callId == "" then NoEdit
      else Describing(s, sequence, callId, OrElse(toolName, "tool"), RequestArgs(command, reason))
    case _ => NoEdit
  }

  lemma AddingRight(s: State, sequence: nat, part: Part)
    requires Inv(s)
    ensures Fits(s.messages, Adding(s, sequence, part))
    ensures Say(s, sequence, part).messages == Edited(s.messages, Adding(s, sequence, part))
  {
    PushOpened(s, sequence, part);
  }

  /** A part that is no text is in an assistant turn. */
  lemma AssistantPart(s: State, i: nat, j: nat)
    requires Inv(s) && i < |s.messages| && j < |s.messages[i].content| && !s.messages[i].content[j].Text?
    ensures !s.messages[i].user
  {
    assert GoodMessage(s.messages[i]);
  }

  lemma DescribingRight(s: State, sequence: nat, callId: string, toolName: string, args: Args)
    requires Inv(s)
    ensures Fits(s.messages, Describing(s, sequence, callId, toolName, args))
    ensures Describe(s, sequence, callId, toolName, args).messages ==
      Edited(s.messages, Describing(s, sequence, callId, toolName, args))
  {
    if Known(s, callId) {
      AssistantPart(s, s.calls[callId].0, s.calls[callId].1);
    } else {
      AddingRight(s, sequence, Call(callId, toolName, args, None));
    }
  }

  lemma ThinkingRight(s: State, sequence: nat, text: string)
    requires Inv(s)
    ensures Fits(s.messages, Thinking(s, sequence, text))
    ensures Think(s, sequence, text).messages == Edited(s.messages, Thinking(s, sequence, text))
  {
    if !EndsInReasoning(s) { AddingRight(s, sequence, Reasoning(text)); }
  }

  lemma StepEdits(s: State, e: Event)
    requires Inv(s)
    ensures Fits(s.messages, EditOf(s, e))
    ensures Step(s, e).messages == Edited(s.messages, EditOf(s, e))
  {
    match e {
      case Transcript(sequence, role, text) =>
        if text != "" && role != "user" { AddingRight(s, sequence, Text(text)); }
      case Thought(sequence, text) => ThinkingRight(s, sequence, text);
      case ToolCall(sequence, callId, name, args) => DescribingRight(s, sequence, callId, OrElse(name, "tool"), args);
      case ToolResult(callId, result) =>
        if Known(s, callId) { AssistantPart(s, s.calls[callId].0, s.calls[callId].1); }
      case ApprovalRequested(sequence, _, _, reason, command, toolName, callId) =>
        DescribingRight(s, sequence, callId, OrElse(toolName, "tool"), RequestArgs(command, reason));
      case _ =>
    }
  }
}
