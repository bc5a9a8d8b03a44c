/** Where each turn of a transcript comes from, and what the log's outcome is. */
module ConversationTurns {
  import opened Conversation

  // ---------------------------------------------------------------- the event behind a turn

  /** The event opens the turn: a person's turn shows exactly what the event says, and every turn has
      the event's number. */
  ghost predicate Opens(e: Event, m: Message) {
    if m.user then
      && (e.Steering? || (e.Transcript? && e.role == "user"))
      && m.sequence == e.sequence && e.text != "" && m.content == [Text(e.text)]
    else
      && ((e.Transcript? && e.role != "user") || e.Thought? || e.ToolCall? || e.ApprovalRequested?)
      && m.sequence == e.sequence
  }

  /** A step leaves the turns there are in place: a person's as it is, an assistant's with its number. */
  lemma StepKeepsTurn(s: State, e: Event, i: nat)
    requires Inv(s) && i < |s.messages|
    ensures i < |Step(s, e).messages|
    ensures var m, n := s.messages[i], Step(s, e).messages[i];
      n.user == m.user && n.sequence == m.sequence && (m.user ==> n == m)
  {
    StepEdits(s, e);
  }

  lemma StepOpens(s: State, e: Event)
    requires Inv(s)
    ensures |Step(s, e).messages| <= |s.messages| + 1
    ensures |Step(s, e).messages| == |s.messages| + 1 ==> Opens(e, Step(s, e).messages[|s.messages|])
  {
    StepEdits(s, e);
  }

  lemma OpensStill(e: Event, m: Message, n: Message)
    requires Opens(e, m) && n.user == m.user && n.sequence == m.sequence && (m.user ==> n == m)
    ensures Opens(e, n)
  {}

  /** Every turn was opened by an event that came when all earlier turns were there; a person's turn
      shows that event's words, and the turn's id is its number. */
  lemma {:induction false} OpenedBy(es: seq<Event>, i: nat) returns (k: nat)
    requires i < |Fold(es).messages|
    ensures k < |es| && |Fold(es[..k]).messages| == i && Opens(es[k], Fold(es).messages[i])
    decreases |es|
  {
    assert es != [];
    var init, e := es[..|es| - 1], es[|es| - 1];
    var s := Fold(init);
    TranscriptWellFormed(init);
    if i < |s.messages| {
      k := OpenedBy(init, i);
      assert init[..k] == es[..k];
      StepKeepsTurn(s, e, i);
      OpensStill(es[k], s.messages[i], Fold(es).messages[i]);
    } else {
      k := |es| - 1;
      StepOpens(s, e);
    }
  }

  // ---------------------------------------------------------------- failure

  predicate Settles(e: Event) {
    e.RunFailed? || e.RunForked?
  }

  ghost predicate LastOutcome(es: seq<Event>, k: int) {
    0 <= k < |es| && Settles(es[k]) && forall j :: k < j < |es| ==> !Settles(es[j])
  }

  lemma StepFailure(s: State, e: Event)
    ensures Step(s, e).failure == if e.RunFailed? then e.error else if e.RunForked? then "" else s.failure
  {}

  /** The failure shown is the last one, unless the run was forked after it. */
  lemma {:induction false} FailureShown(es: seq<Event>)
    ensures forall k :: LastOutcome(es, k) ==> Fold(es).failure == if es[k].RunFailed? then es[k].error else ""
    ensures (forall k :: 0 <= k < |es| ==> !Settles(es[k])) ==> Fold(es).failure == ""
    decreases |es|
  {
    if es != [] {
      var init, e := es[..|es| - 1], es[|es| - 1];
      FailureShown(init);
      StepFailure(Fold(init), e);
      assert forall k :: 0 <= k < |init| ==> init[k] == es[k];
      forall k | LastOutcome(es, k) ensures Fold(es).failure == if es[k].RunFailed? then es[k].error else "" {
        if k < |init| {
          assert LastOutcome(init, k);
        }
      }
    }
  }

  // ---------------------------------------------------------------- blank thoughts

  predicate IsSpace(c: char) {
    || '\t' <= c <= '\r' || c == ' ' || c == '\U{A0}' || c == '\U{1680}' || '\U{2000}' <= c <= '\U{200A}'
    || c == '\U{2028}' || c == '\U{2029}' || c == '\U{202F}' || c == '\U{205F}' || c == '\U{3000}' || c == '\U{FEFF}'
  }

  function TrimStart(text: string): string {
    if text != "" && IsSpace(text[0]) then TrimStart(text[1..]) else text
  }

  lemma SpacesAre(c: char)
    ensures c in BLANKS <==> IsSpace(c)
  {}

  /** A thought is passed over exactly when trimming leaves nothing of it. */
  lemma {:induction false} BlankMeans(text: string)
    ensures Blank(text) <==> TrimStart(text) == ""
  {
    if text != "" {
      SpacesAre(text[0]);
      BlankMeans(text[1..]);
      assert text == [text[0]] + text[1..];
    }
  }
}
