/** How often a person's message is shown. It is published twice: when it is sent, and when the
    node picks it up; the fold counts, because the same thing may be said twice. */
module Steering {
  import opened Conversation

  predicate Shows(m: Message, text: string) {
    m.user && m.content == [Text(text)]
  }

  /** The number of user turns that show a text. */
  function Shown(messages: seq<Message>, text: string): nat {
    if messages == [] then 0
    else Shown(messages[..|messages| - 1], text) + if Shows(messages[|messages| - 1], text) then 1 else 0
  }

  predicate Sends(e: Event, text: string) {
    e.Steering? && e.text == text && text != ""
  }

  predicate PicksUp(e: Event, text: string) {
    e.Transcript? && e.role == "user" && e.text == text && text != ""
  }

  /** The number of times a text was sent. */
  function Sent(es: seq<Event>, text: string): nat {
    if es == [] then 0 else Sent(es[..|es| - 1], text) + if Sends(es[|es| - 1], text) then 1 else 0
  }

  /** The number of times a text appears as the user's in the node's own transcript. */
  function PickedUp(es: seq<Event>, text: string): nat {
    if es == [] then 0 else PickedUp(es[..|es| - 1], text) + if PicksUp(es[|es| - 1], text) then 1 else 0
  }

  function Max(a: int, b: int): int {
    if a > b then a else b
  }

  /** The most by which pickups were ahead of sends at any moment of the log, at least 0. */
  function MostAhead(es: seq<Event>, text: string): nat {
    if es == [] then 0 else Max(MostAhead(es[..|es| - 1], text), PickedUp(es, text) - Sent(es, text))
  }

  /** `MostAhead` is the maximum over all prefixes, floored at 0. */
  lemma {:induction false} MostAheadIsMaximum(es: seq<Event>, text: string)
    ensures forall k :: 0 <= k <= |es| ==> PickedUp(es[..k], text) - Sent(es[..k], text) <= MostAhead(es, text)
    ensures MostAhead(es, text) == 0 ||
      exists k :: 0 <= k <= |es| && PickedUp(es[..k], text) - Sent(es[..k], text) == MostAhead(es, text)
  {
    assert es[..|es|] == es;
    if es != [] {
      var init := es[..|es| - 1];
      MostAheadIsMaximum(init, text);
      assert forall k :: 0 <= k < |es| ==> init[..k] == es[..k];
      if MostAhead(es, text) == MostAhead(init, text) && MostAhead(init, text) != 0 {
        var k :| 0 <= k <= |init| && PickedUp(init[..k], text) - Sent(init[..k], text) == MostAhead(init, text);
        assert PickedUp(es[..k], text) - Sent(es[..k], text) == MostAhead(es, text);
      } else if MostAhead(es, text) != 0 {
        assert PickedUp(es[..|es|], text) - Sent(es[..|es|], text) == MostAhead(es, text);
      }
    }
  }

  lemma ShownSnoc(messages: seq<Message>, m: Message, text: string)
    ensures Shown(messages + [m], text) == Shown(messages, text) + if Shows(m, text) then 1 else 0
  {
    assert (messages + [m])[..|messages|] == messages;
  }

  /** Changing an assistant turn changes nothing about what people are shown to have said. */
  lemma {:induction false} ShownUpdate(messages: seq<Message>, i: nat, m: Message, text: string)
    requires i < |messages| && !messages[i].user && !m.user
    ensures Shown(messages[i := m], text) == Shown(messages, text)
    decreases |messages|
  {
    var last := |messages| - 1;
    var updated := messages[i := m];
    if i < last {
      ShownUpdate(messages[..last], i, m, text);
      assert updated[..last] == messages[..last][i := m];
    } else {
      assert updated[..last] == messages[..last];
    }
  }

  lemma EditShown(messages: seq<Message>, edit: Edit, text: string)
    requires Fits(messages, edit)
    ensures Shown(Edited(messages, edit), text) ==
      Shown(messages, text) + if edit.Append? && Shows(edit.message, text) then 1 else 0
  {
    match edit {
      case NoEdit =>
      case Append(m) => ShownSnoc(messages, m, text);
      case Extend(part) =>
        var i := |messages| - 1;
        ShownUpdate(messages, i, messages[i].(content := messages[i].content + [part]), text);
      case Replace(i, j, part) =>
        ShownUpdate(messages, i, messages[i].(content := messages[i].content[j := part]), text);
    }
  }

  /** What a step does to the number of turns showing a text. */
  lemma StepShown(s: State, e: Event, text: string)
    requires Inv(s)
    ensures Shown(Step(s, e).messages, text) == Shown(s.messages, text)
      + if Sends(e, text) || (PicksUp(e, text) && Credit(s.steered, text) == 0) then 1 else 0
  {
    StepEdits(s, e);
    EditShown(s.messages, EditOf(s, e), text);
  }

  lemma StepCredit(s: State, e: Event, text: string)
    ensures Credit(Step(s, e).steered, text) ==
      if Sends(e, text) then Credit(s.steered, text) + 1
      else if PicksUp(e, text) && Credit(s.steered, text) > 0 then Credit(s.steered, text) - 1
      else Credit(s.steered, text)
  {}

  /** For every log and text: the user turns showing it are the sends of it, plus the most by which
      pickups were ever ahead of sends. */
  lemma {:induction false} ShownExactly(es: seq<Event>, text: string)
    ensures Shown(Fold(es).messages, text) == Sent(es, text) + MostAhead(es, text)
    ensures Credit(Fold(es).steered, text) == Sent(es, text) - PickedUp(es, text) + MostAhead(es, text)
    decreases |es|
  {
    if es != [] {
      var init := es[..|es| - 1];
      ShownExactly(init, text);
      TranscriptWellFormed(init);
      StepShown(Fold(init), es[|es| - 1], text);
      StepCredit(Fold(init), es[|es| - 1], text);
    }
  }

  /** So when every pickup follows its send, each message that was sent is shown exactly once. */
  lemma ShownOnce(es: seq<Event>, text: string)
    requires forall k :: 0 <= k <= |es| ==> PickedUp(es[..k], text) <= Sent(es[..k], text)
    ensures Shown(Fold(es).messages, text) == Sent(es, text)
  {
    ShownExactly(es, text);
    MostAheadIsMaximum(es, text);
  }
}
