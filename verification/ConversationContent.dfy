/** Nothing the node said, thought or called is lost, repeated or reordered by the fold. */
module ConversationContent {
  import opened Options
  import opened Conversation

  // ---------------------------------------------------------------- speech and thought

  function SayOf(part: Part): seq<string> {
    if part.Text? then [part.text] else []
  }

  function ThinkOf(part: Part): string {
    if part.Reasoning? then part.text else ""
  }

  function TextsOf(content: seq<Part>): seq<string> {
    if content == [] then []
    else TextsOf(content[..|content| - 1]) + SayOf(content[|content| - 1])
  }

  function ReasonedIn(content: seq<Part>): string {
    if content == [] then ""
    else ReasonedIn(content[..|content| - 1]) + ThinkOf(content[|content| - 1])
  }

  /** What the assistant turns say, in order. */
  function Said(messages: seq<Message>): seq<string> {
    if messages == [] then []
    else
      var last := messages[|messages| - 1];
      Said(messages[..|messages| - 1]) + if last.user then [] else TextsOf(last.content)
  }

  /** All reasoning of the transcript, put end to end. */
  function Reasoned(messages: seq<Message>): string {
    if messages == [] then "" else Reasoned(messages[..|messages| - 1]) + ReasonedIn(messages[|messages| - 1].content)
  }

  function SaysIn(e: Event): seq<string> {
    if e.Transcript? && e.role != "user" && e.text != "" then [e.text] else []
  }

  function ThinksIn(e: Event): string {
    if e.Thought? && !Blank(e.text) then e.text else ""
  }

  /** What the log has the node say. */
  function SaidIn(es: seq<Event>): seq<string> {
    if es == [] then [] else SaidIn(es[..|es| - 1]) + SaysIn(es[|es| - 1])
  }

  /** What the log has the node think. */
  function ThoughtIn(es: seq<Event>): string {
    if es == [] then "" else ThoughtIn(es[..|es| - 1]) + ThinksIn(es[|es| - 1])
  }

  lemma ContentSnoc(content: seq<Part>, part: Part)
    ensures TextsOf(content + [part]) == TextsOf(content) + SayOf(part)
    ensures ReasonedIn(content + [part]) == ReasonedIn(content) + ThinkOf(part)
  {
    assert (content + [part])[..|content|] == content;
  }

  lemma SaidSnoc(messages: seq<Message>, m: Message)
    ensures Said(messages + [m]) == Said(messages) + if m.user then [] else TextsOf(m.content)
    ensures Reasoned(messages + [m]) == Reasoned(messages) + ReasonedIn(m.content)
  {
    assert (messages + [m])[..|messages|] == messages;
  }

  /** Replacing a part that is neither text nor reasoning, by another such. */
  lemma {:induction false} ReplaceCallIn(content: seq<Part>, j: nat, part: Part)
    requires j < |content| && content[j].Call? && part.Call?
    ensures TextsOf(content[j := part]) == TextsOf(content) && ReasonedIn(content[j := part]) == ReasonedIn(content)
    decreases |content|
  {
    var last := |content| - 1;
    if j < last {
      ReplaceCallIn(content[..last], j, part);
      assert content[j := part][..last] == content[..last][j := part];
    } else {
      assert content[j := part][..last] == content[..last];
    }
  }

  lemma {:induction false} SaidUpdate(messages: seq<Message>, i: nat, m: Message)
    requires i < |messages| && m.user == messages[i].user
    requires TextsOf(m.content) == TextsOf(messages[i].content) && ReasonedIn(m.content) == ReasonedIn(messages[i].content)
    ensures Said(messages[i := m]) == Said(messages) && Reasoned(messages[i := m]) == Reasoned(messages)
    decreases |messages|
  {
    var last := |messages| - 1;
    if i < last {
      SaidUpdate(messages[..last], i, m);
      assert messages[i := m][..last] == messages[..last][i := m];
    } else {
      assert messages[i := m][..last] == messages[..last];
    }
  }

  /** The last turn replaced by one that says and thinks something more. */
  lemma LastUpdate(messages: seq<Message>, m: Message, said: seq<string>, thought: string)
    requires messages != [] && !messages[|messages| - 1].user && !m.user
    requires TextsOf(m.content) == TextsOf(messages[|messages| - 1].content) + said
    requires ReasonedIn(m.content) == ReasonedIn(messages[|messages| - 1].content) + thought
    ensures Said(messages[|messages| - 1 := m]) == Said(messages) + said
    ensures Reasoned(messages[|messages| - 1 := m]) == Reasoned(messages) + thought
  {
    var last := |messages| - 1;
    var updated, old' := messages[last := m], messages[last].content;
    assert updated[..last] == messages[..last];
    assert Said(messages[..last]) + (TextsOf(old') + said) == (Said(messages[..last]) + TextsOf(old')) + said;
    assert Reasoned(messages[..last]) + (ReasonedIn(old') + thought) == (Reasoned(messages[..last]) + ReasonedIn(old')) + thought;
  }

  lemma ExtendSaid(messages: seq<Message>, part: Part)
    requires messages != [] && !messages[|messages| - 1].user
    ensures var m := Push(messages, |messages| - 1, part);
      && Said(m) == Said(messages) + SayOf(part)
      && Reasoned(m) == Reasoned(messages) + ThinkOf(part)
  {
    var last := messages[|messages| - 1];
    ContentSnoc(last.content, part);
    LastUpdate(messages, last.(content := last.content + [part]),
               SayOf(part), ThinkOf(part));
  }

  lemma OnePart(part: Part)
    ensures TextsOf([part]) == SayOf(part) && ReasonedIn([part]) == ThinkOf(part)
  {
    assert [part][..0] == [];
    assert [] + SayOf(part) == SayOf(part) && "" + ThinkOf(part) == ThinkOf(part);
  }

  /** Adding a part anywhere the fold adds parts. */
  lemma AddingSaid(s: State, sequence: nat, part: Part)
    requires Inv(s)
    ensures Fits(s.messages, Adding(s, sequence, part))
    ensures var m := Edited(s.messages, Adding(s, sequence, part));
      && Said(m) == Said(s.messages) + SayOf(part)
      && Reasoned(m) == Reasoned(s.messages) + ThinkOf(part)
  {
    AddingRight(s, sequence, part);
    if s.turn.Some? {
      ExtendSaid(s.messages, part);
    } else {
      OnePart(part);
      SaidSnoc(s.messages, Message(false, sequence, [part]));
    }
  }

  lemma ReplaceCallSaid(messages: seq<Message>, i: nat, j: nat, part: Part)
    requires i < |messages| && j < |messages[i].content| && messages[i].content[j].Call? && part.Call?
    ensures Said(SetPart(messages, i, j, part)) == Said(messages)
    ensures Reasoned(SetPart(messages, i, j, part)) == Reasoned(messages)
  {
    ReplaceCallIn(messages[i].content, j, part);
    SaidUpdate(messages, i, messages[i].(content := messages[i].content[j := part]));
  }

  lemma LongerThought(content: seq<Part>, text: string)
    requires content != [] && content[|content| - 1].Reasoning?
    ensures var j := |content| - 1;
      var longer := content[j := Reasoning(content[j].text + text)];
      TextsOf(longer) == TextsOf(content) && ReasonedIn(longer) == ReasonedIn(content) + text
  {
    var j := |content| - 1;
    var before, part := content[..j], Reasoning(content[j].text + text);
    assert content == before + [content[j]];
    assert content[j := part] == before + [part];
    ContentSnoc(before, content[j]);
    ContentSnoc(before, part);
    assert ReasonedIn(before) + (content[j].text + text) == (ReasonedIn(before) + content[j].text) + text;
  }

  lemma ThinkLonger(messages: seq<Message>, text: string)
    requires messages != [] && !messages[|messages| - 1].user
    requires var c := messages[|messages| - 1].content; c != [] && c[|c| - 1].Reasoning?
    ensures var i := |messages| - 1;
      var j := |messages[i].content| - 1;
      var longer := SetPart(messages, i, j, Reasoning(messages[i].content[j].text + text));
      Said(longer) == Said(messages) && Reasoned(longer) == Reasoned(messages) + text
  {
    var last := messages[|messages| - 1];
    var j := |last.content| - 1;
    LongerThought(last.content, text);
    assert TextsOf(last.content) + [] == TextsOf(last.content) && Said(messages) + [] == Said(messages);
    LastUpdate(messages, last.(content := last.content[j := Reasoning(last.content[j].text + text)]), [], text);
  }

  lemma ThinkSaid(s: State, sequence: nat, text: string)
    requires Inv(s)
    ensures Said(Think(s, sequence, text).messages) == Said(s.messages)
    ensures Reasoned(Think(s, sequence, text).messages) == Reasoned(s.messages) + text
  {
    if EndsInReasoning(s) {
      ThinkLonger(s.messages, text);
    } else {
      AddingSaid(s, sequence, Reasoning(text));
      AddingRight(s, sequence, Reasoning(text));
      assert Said(s.messages) + [] == Said(s.messages);
    }
  }

  lemma DescribeSaid(s: State, sequence: nat, callId: string, toolName: string, args: Args)
    requires Inv(s)
    ensures Said(Describe(s, sequence, callId, toolName, args).messages) == Said(s.messages)
    ensures Reasoned(Describe(s, sequence, callId, toolName, args).messages) == Reasoned(s.messages)
  {
    DescribingRight(s, sequence, callId, toolName, args);
    if Known(s, callId) {
      var (i, j) := s.calls[callId];
      var part := s.messages[i].content[j];
      ReplaceCallSaid(s.messages, i, j, part.(toolName := OrElse(toolName, part.toolName), args := part.args + args));
    } else {
      AddingSaid(s, sequence, Call(callId, toolName, args, None));
    }
  }

  lemma UserSaid(s: State, sequence: nat, text: string)
    ensures Said(UserTurn(s, sequence, text).messages) == Said(s.messages)
    ensures Reasoned(UserTurn(s, sequence, text).messages) == Reasoned(s.messages)
  {
    OnePart(Text(text));
    SaidSnoc(s.messages, Message(true, sequence, [Text(text)]));
    assert Said(s.messages) + [] == Said(s.messages) && Reasoned(s.messages) + "" == Reasoned(s.messages);
  }

  lemma SaySaid(s: State, sequence: nat, text: string)
    requires Inv(s)
    ensures Said(Say(s, sequence, Text(text)).messages) == Said(s.messages) + [text]
    ensures Reasoned(Say(s, sequence, Text(text)).messages) == Reasoned(s.messages)
  {
    AddingSaid(s, sequence, Text(text));
    AddingRight(s, sequence, Text(text));
    assert Reasoned(s.messages) + "" == Reasoned(s.messages);
  }

  lemma FinishSaid(s: State, callId: string, result: string)
    requires Inv(s)
    ensures Said(Finish(s, callId, result).messages) == Said(s.messages)
    ensures Reasoned(Finish(s, callId, result).messages) == Reasoned(s.messages)
  {
    if Known(s, callId) {
      var (i, j) := s.calls[callId];
      ReplaceCallSaid(s.messages, i, j, s.messages[i].content[j].(result := Some(result)));
    }
  }

  ghost predicate Adds(s: State, t: State, said: seq<string>, thought: string) {
    Said(t.messages) == Said(s.messages) + said && Reasoned(t.messages) == Reasoned(s.messages) + thought
  }

  lemma AddsNothing(s: State, t: State)
    requires Said(t.messages) == Said(s.messages) && Reasoned(t.messages) == Reasoned(s.messages)
    ensures Adds(s, t, [], "")
  {}

  lemma TranscriptSaid(s: State, e: Event)
    requires Inv(s) && e.Transcript?
    ensures Adds(s, Step(s, e), SaysIn(e), "")
  {
    if e.role != "user" { SaySaid(s, e.sequence, e.text); } else { UserSaid(s, e.sequence, e.text); }
    AddsNothing(s, s);
  }

  lemma SteeringSaid(s: State, e: Event)
    requires Inv(s) && e.Steering?
    ensures Adds(s, Step(s, e), [], "")
  {
    UserSaid(s.(steered := s.steered[e.text := Credit(s.steered, e.text) + 1]), e.sequence, e.text);
    AddsNothing(s, Step(s, e));
  }

  lemma ThoughtSaid(s: State, e: Event)
    requires Inv(s) && e.Thought?
    ensures Adds(s, Step(s, e), [], ThinksIn(e))
  {
    ThinkSaid(s, e.sequence, e.text);
    AddsNothing(s, s);
    assert Said(s.messages) + [] == Said(s.messages);
  }

  lemma CallSaid(s: State, e: Event)
    requires Inv(s) && e.ToolCall?
    ensures Adds(s, Step(s, e), [], "")
  {
    if e.callId != "" { DescribeSaid(s, e.sequence, e.callId, OrElse(e.name, "tool"), e.args); }
    AddsNothing(s, Step(s, e));
  }

  lemma ResultSaid(s: State, e: Event)
    requires Inv(s) && e.ToolResult?
    ensures Adds(s, Step(s, e), [], "")
  {
    FinishSaid(s, e.callId, e.result);
    AddsNothing(s, Step(s, e));
  }

  lemma AskSaid(s: State, e: Event)
    requires Inv(s) && e.ApprovalRequested?
    ensures Adds(s, Step(s, e), [], "")
  {
    if e.approvalId != "" && e.callId != "" {
      DescribeSaid(s, e.sequence, e.callId, OrElse(e.toolName, "tool"), RequestArgs(e.command, e.reason));
    }
    AddsNothing(s, Step(s, e));
  }

  /** A step adds to the transcript what its event says and thinks. */
  lemma StepSaid(s: State, e: Event)
    requires Inv(s)
    ensures Adds(s, Step(s, e), SaysIn(e), ThinksIn(e))
  {
    if e.Transcript? {
      TranscriptSaid(s, e);
    } else if e.Steering? {
      SteeringSaid(s, e);
    } else if e.Thought? {
      ThoughtSaid(s, e);
    } else if e.ToolCall? {
      CallSaid(s, e);
    } else if e.ToolResult? {
      ResultSaid(s, e);
    } else if e.ApprovalRequested? {
      AskSaid(s, e);
    } else {
      AddsNothing(s, Step(s, e));
    }
  }

  /** For every log, the transcript says and thinks exactly what the log does, in the same order. */
  lemma {:induction false} NothingLost(es: seq<Event>)
    ensures Said(Fold(es).messages) == SaidIn(es)
    ensures Reasoned(Fold(es).messages) == ThoughtIn(es)
    decreases |es|
  {
    if es != [] {
      var init := es[..|es| - 1];
      NothingLost(init);
      TranscriptWellFormed(init);
      StepSaid(Fold(init), es[|es| - 1]);
    }
  }

  // ---------------------------------------------------------------- calls

  /** The part a call has in the transcript. */
  function PartOf(s: State, callId: string): Option<Part> {
    if Known(s, callId) then Some(s.messages[s.calls[callId].0].content[s.calls[callId].1]) else None
  }

  /** What the log says of one call, looking at the events about it and at nothing else. */
  function CallIn(es: seq<Event>, callId: string): Option<Part> {
    if es == [] then None else CallAfter(CallIn(es[..|es| - 1], callId), es[|es| - 1], callId)
  }

  function CallAfter(known: Option<Part>, e: Event, callId: string): Option<Part> {
    if callId == "" then known
    else match e
      case ToolCall(_, id, name, args) =>
        if id == callId then Some(Told(known, callId, if name == "" then "tool" else name, args)) else known
      case ApprovalRequested(_, approvalId, _, reason, command, toolName, id) =>
        if id == callId && approvalId != ""
        then Some(Told(known, callId, if toolName == "" then "tool" else toolName, Described(command, reason)))
        else known
      case ToolResult(id, result) =>
        if id == callId && known.Some? && known.value.Call? then Some(known.value.(result := Some(result))) else known
      case _ => known
  }

  /** What a request says of its call. */
  function Described(command: string, reason: string): Args {
    if command == "" && reason == "" then map[]
    else if reason == "" then map["command" := command]
    else if command == "" then map["reason" := reason]
    else map["command" := command, "reason" := reason]
  }

  lemma DescribedIs(command: string, reason: string)
    ensures RequestArgs(command, reason) == Described(command, reason)
  {}

  function Told(known: Option<Part>, callId: string, toolName: string, args: Args): Part {
    if known.Some? && known.value.Call?
    then known.value.(toolName := if toolName == "" then known.value.toolName else toolName, args := known.value.args + args)
    else Call(callId, toolName, args, None)
  }

  /** Where a call's part is, it stays, whatever is added. */
  lemma AddingElsewhere(s: State, sequence: nat, part: Part, callId: string)
    requires Inv(s) && !part.Call?
    ensures PartOf(Say(s, sequence, part), callId) == PartOf(s, callId)
  {
    PushOpened(s, sequence, part);
  }

  lemma ThinkElsewhere(s: State, sequence: nat, text: string, callId: string)
    requires Inv(s)
    ensures PartOf(Think(s, sequence, text), callId) == PartOf(s, callId)
  {
    if !EndsInReasoning(s) { AddingElsewhere(s, sequence, Reasoning(text), callId); }
  }

  lemma DescribeKnown(s: State, sequence: nat, id: string, toolName: string, args: Args, callId: string)
    requires Inv(s) && id in s.calls
    ensures PartOf(Describe(s, sequence, id, toolName, args), callId) ==
      if callId == id then Some(Told(PartOf(s, callId), id, toolName, args)) else PartOf(s, callId)
  {
    KnownIsCall(s, id);
    KnownIsCall(s, callId);
  }

  lemma DescribeNew(s: State, sequence: nat, id: string, toolName: string, args: Args, callId: string)
    requires Inv(s) && id !in s.calls
    ensures PartOf(Describe(s, sequence, id, toolName, args), callId) ==
      if callId == id then Some(Call(id, toolName, args, None)) else PartOf(s, callId)
  {
    KnownIsCall(s, id);
    KnownIsCall(s, callId);
    PushOpened(s, sequence, Call(id, toolName, args, None));
  }

  lemma DescribePart(s: State, sequence: nat, id: string, toolName: string, args: Args, callId: string)
    requires Inv(s)
    ensures PartOf(Describe(s, sequence, id, toolName, args), callId) ==
      if callId == id then Some(Told(PartOf(s, callId), id, toolName, args)) else PartOf(s, callId)
  {
    KnownIsCall(s, id);
    if id in s.calls {
      DescribeKnown(s, sequence, id, toolName, args, callId);
    } else {
      DescribeNew(s, sequence, id, toolName, args, callId);
    }
  }

  lemma FinishPart(s: State, id: string, result: string, callId: string)
    requires Inv(s)
    ensures PartOf(Finish(s, id, result), callId) ==
      if callId == id && PartOf(s, callId).Some? then Some(PartOf(s, callId).value.(result := Some(result)))
      else PartOf(s, callId)
  {
    KnownIsCall(s, id);
    KnownIsCall(s, callId);
  }

  lemma SpeechPart(s: State, e: Event, callId: string)
    requires Inv(s) && callId != "" && (e.Transcript? || e.Steering? || e.Thought?)
    ensures PartOf(Step(s, e), callId) == PartOf(s, callId)
  {
    KnownIsCall(s, callId);
    if e.Transcript? { AddingElsewhere(s, e.sequence, Text(e.text), callId); }
    if e.Thought? { ThinkElsewhere(s, e.sequence, e.text, callId); }
  }

  lemma CallPart(s: State, e: Event, callId: string)
    requires Inv(s) && callId != "" && e.ToolCall?
    ensures PartOf(Step(s, e), callId) == CallAfter(PartOf(s, callId), e, callId)
  {
    if e.callId != "" { DescribePart(s, e.sequence, e.callId, OrElse(e.name, "tool"), e.args, callId); }
  }

  lemma ResultPart(s: State, e: Event, callId: string)
    requires Inv(s) && callId != "" && e.ToolResult?
    ensures PartOf(Step(s, e), callId) == CallAfter(PartOf(s, callId), e, callId)
  {
    FinishPart(s, e.callId, e.result, callId);
  }

  lemma AskPart(s: State, e: Event, callId: string)
    requires Inv(s) && callId != "" && e.ApprovalRequested?
    ensures PartOf(Step(s, e), callId) == CallAfter(PartOf(s, callId), e, callId)
  {
    if e.approvalId != "" && e.callId != "" {
      DescribedIs(e.command, e.reason);
      DescribePart(s, e.sequence, e.callId, OrElse(e.toolName, "tool"), RequestArgs(e.command, e.reason), callId);
    }
  }

  lemma StepPart(s: State, e: Event, callId: string)
    requires Inv(s) && callId != ""
    ensures PartOf(Step(s, e), callId) == CallAfter(PartOf(s, callId), e, callId)
  {
    if e.Transcript? || e.Steering? || e.Thought? {
      SpeechPart(s, e, callId);
    } else if e.ToolCall? {
      CallPart(s, e, callId);
    } else if e.ToolResult? {
      ResultPart(s, e, callId);
    } else if e.ApprovalRequested? {
      AskPart(s, e, callId);
    }
  }

  /** Every call's part is what the events about that call alone make it: its first description,
      later names and arguments laid over it, and its last result. */
  lemma {:induction false} CallsProject(es: seq<Event>, callId: string)
    requires callId != ""
    ensures PartOf(Fold(es), callId) == CallIn(es, callId)
    decreases |es|
  {
    if es != [] {
      var init := es[..|es| - 1];
      CallsProject(init, callId);
      TranscriptWellFormed(init);
      StepPart(Fold(init), es[|es| - 1], callId);
    }
  }
}
