/** Reading a run's response: a stream of text, cut anywhere, that holds one event a line. */
module RunStream {
  import opened Options
  import opened Approvals
  import opened ApprovalStore

  // ---------------------------------------------------------------- lines

  /** The position of the first line feed. */
  function Feed(s: string): (k: nat)
    ensures k <= |s| && (k < |s| ==> s[k] == '\n') && forall i :: 0 <= i < k ==> s[i] != '\n'
  {
    if s == "" || s[0] == '\n' then 0 else Feed(s[1..]) + 1
  }

  /** The lines of a text that end in a line feed. */
  function Lines(s: string): seq<string>
    decreases |s|
  {
    if Feed(s) == |s| then [] else [s[..Feed(s)]] + Lines(s[Feed(s) + 1..])
  }

  /** What follows the last line feed. */
  function Rest(s: string): string
    decreases |s|
  {
    if Feed(s) == |s| then s else Rest(s[Feed(s) + 1..])
  }

  function Joined(lines: seq<string>, rest: string): string {
    if lines == [] then rest else lines[0] + "\n" + Joined(lines[1..], rest)
  }

  predicate OneLine(s: string) {
    forall i :: 0 <= i < |s| ==> s[i] != '\n'
  }

  lemma FeedAfter(line: string, more: string)
    requires OneLine(line)
    ensures Feed(line + "\n" + more) == |line|
  {
    var s := line + "\n" + more;
    assert s[|line|] == '\n';
    assert forall i :: 0 <= i < |line| ==> s[i] == line[i];
  }

  /** The lines and the rest are the only way to take a text apart at its line feeds. */
  lemma {:induction false} LinesUnique(lines: seq<string>, rest: string)
    requires (forall i :: 0 <= i < |lines| ==> OneLine(lines[i])) && OneLine(rest)
    ensures Lines(Joined(lines, rest)) == lines && Rest(Joined(lines, rest)) == rest
  {
    if lines != [] {
      var more := Joined(lines[1..], rest);
      LinesUnique(lines[1..], rest);
      FeedAfter(lines[0], more);
      var s := lines[0] + "\n" + more;
      assert s[..|lines[0]|] == lines[0] && s[|lines[0]| + 1..] == more;
    }
  }

  lemma JoinedCons(line: string, lines: seq<string>, rest: string)
    ensures Joined([line] + lines, rest) == line + "\n" + Joined(lines, rest)
  {
    assert ([line] + lines)[1..] == lines;
  }

  lemma SplitAtFeed(s: string, k: nat)
    requires k < |s| && s[k] == '\n'
    ensures s == s[..k] + "\n" + s[k + 1..]
  {}

  lemma {:induction false} LinesBack(s: string)
    ensures Joined(Lines(s), Rest(s)) == s
    decreases |s|
  {
    if Feed(s) < |s| {
      LinesBack(s[Feed(s) + 1..]);
      JoinedCons(s[..Feed(s)], Lines(s[Feed(s) + 1..]), Rest(s));
      SplitAtFeed(s, Feed(s));
    }
  }

  lemma {:induction false} LinesAreLines(s: string)
    ensures OneLine(Rest(s)) && forall i :: 0 <= i < |Lines(s)| ==> OneLine(Lines(s)[i])
    decreases |s|
  {
    if Feed(s) < |s| { LinesAreLines(s[Feed(s) + 1..]); }
  }

  lemma LinesJoin(s: string)
    ensures Joined(Lines(s), Rest(s)) == s && OneLine(Rest(s))
    ensures forall i :: 0 <= i < |Lines(s)| ==> OneLine(Lines(s)[i])
  {
    LinesBack(s);
    LinesAreLines(s);
  }

  lemma {:induction false} JoinedAppend(a: seq<string>, b: seq<string>, rest: string)
    ensures Joined(a + b, rest) == Joined(a, Joined(b, rest))
  {
    if a == [] {
      assert a + b == b;
    } else {
      JoinedAppend(a[1..], b, rest);
      assert (a + b)[1..] == a[1..] + b;
    }
  }

  lemma {:induction false} JoinedRest(lines: seq<string>, rest: string, more: string)
    ensures Joined(lines, rest) + more == Joined(lines, rest + more)
  {
    if lines != [] { JoinedRest(lines[1..], rest, more); }
  }

  /** A cut changes nothing: what was left of the text before it, continued by the text after it,
      has the lines that were still missing. */
  lemma LinesOfCut(before: string, after: string)
    ensures Lines(before + after) == Lines(before) + Lines(Rest(before) + after)
    ensures Rest(before + after) == Rest(Rest(before) + after)
  {
    var middle := Rest(before) + after;
    LinesJoin(before);
    LinesJoin(middle);
    JoinedRest(Lines(before), Rest(before), after);
    JoinedAppend(Lines(before), Lines(middle), Rest(middle));
    LinesUnique(Lines(before) + Lines(middle), Rest(middle));
  }

  // ---------------------------------------------------------------- events

  /** What a line says; one that is not an event fails like an error event. */
  datatype Parsed<C> = Content(content: C) | Snapshot(approval: Option<Approval>) | Failure(message: string)

  datatype Effect<C> = Yielded(content: C) | Publishes(approval: Option<Approval>)

  /** What a reader has seen so far, and the error that stopped it. */
  datatype Outcome<C> = Outcome(effects: seq<Effect<C>>, error: Option<string>)

  function ReadLine<C>(parse: string -> Parsed<C>, sofar: Outcome<C>, line: string): Outcome<C> {
    if sofar.error.Some? || line == "" then sofar
    else match parse(line)
      case Content(content) => sofar.(effects := sofar.effects + [Yielded(content)])
      case Snapshot(approval) => sofar.(effects := sofar.effects + [Publishes(approval)])
      case Failure(message) => sofar.(error := Some(message))
  }

  function ReadLines<C>(parse: string -> Parsed<C>, sofar: Outcome<C>, lines: seq<string>): Outcome<C>
    decreases |lines|
  {
    if lines == [] then sofar else ReadLines(parse, ReadLine(parse, sofar, lines[0]), lines[1..])
  }

  lemma {:induction false} ReadAppend<C>(parse: string -> Parsed<C>, sofar: Outcome<C>, a: seq<string>, b: seq<string>)
    ensures ReadLines(parse, sofar, a + b) == ReadLines(parse, ReadLines(parse, sofar, a), b)
    decreases |a|
  {
    if a == [] {
      assert a + b == b;
    } else {
      ReadAppend(parse, ReadLine(parse, sofar, a[0]), a[1..], b);
      assert (a + b)[1..] == a[1..] + b;
    }
  }

  lemma {:induction false} StoppedForGood<C>(parse: string -> Parsed<C>, sofar: Outcome<C>, lines: seq<string>)
    requires sofar.error.Some?
    ensures ReadLines(parse, sofar, lines) == sofar
  {
    if lines != [] { StoppedForGood(parse, sofar, lines[1..]); }
  }

  function Fresh<C>(): Outcome<C> {
    Outcome([], None)
  }

  /** What a whole stream amounts to. */
  function Whole<C>(parse: string -> Parsed<C>, stream: string): Outcome<C> {
    ReadLines(parse, Fresh(), Lines(stream))
  }

  predicate Fails<C>(parse: string -> Parsed<C>, line: string) {
    line != "" && parse(line).Failure?
  }

  function EffectOf<C>(parse: string -> Parsed<C>, line: string): seq<Effect<C>> {
    if line == "" then []
    else match parse(line)
      case Content(content) => [Yielded(content)]
      case Snapshot(approval) => [Publishes(approval)]
      case Failure(_) => []
  }

  /** The effect of each line that has one. */
  function EffectsOf<C>(parse: string -> Parsed<C>, lines: seq<string>): seq<Effect<C>> {
    if lines == [] then [] else EffectOf(parse, lines[0]) + EffectsOf(parse, lines[1..])
  }

  /** Where the first failing line is. */
  function FirstFailure<C>(parse: string -> Parsed<C>, lines: seq<string>): (k: nat)
    ensures k <= |lines| && (k < |lines| ==> Fails(parse, lines[k]))
    ensures forall i :: 0 <= i < k ==> !Fails(parse, lines[i])
  {
    if lines == [] || Fails(parse, lines[0]) then 0 else FirstFailure(parse, lines[1..]) + 1
  }

  /** A reader has the effects of the lines up to the first failing one, and stops with its message. */
  lemma {:induction false} UpToFirstFailure<C>(parse: string -> Parsed<C>, sofar: Outcome<C>, lines: seq<string>)
    requires sofar.error.None?
    ensures var k := FirstFailure(parse, lines); ReadLines(parse, sofar, lines) == Outcome(
      sofar.effects + EffectsOf(parse, lines[..k]), if k < |lines| then Some(parse(lines[k]).message) else None)
    decreases |lines|
  {
    if lines != [] {
      var k := FirstFailure(parse, lines);
      var next := ReadLine(parse, sofar, lines[0]);
      if k == 0 {
        StoppedForGood(parse, next, lines[1..]);
      } else {
        UpToFirstFailure(parse, next, lines[1..]);
        assert lines[..k][1..] == lines[1..][..k - 1] && lines[..k][0] == lines[0];
        assert sofar.effects + EffectsOf(parse, lines[..k]) == next.effects + EffectsOf(parse, lines[1..][..k - 1]);
      }
    }
  }

  /** A stream amounts to its finished lines up to the first failing one; what follows the last
      line feed is never read. */
  lemma WholeStream<C>(parse: string -> Parsed<C>, lines: seq<string>, rest: string)
    requires (forall i :: 0 <= i < |lines| ==> OneLine(lines[i])) && OneLine(rest)
    ensures var k := FirstFailure(parse, lines); Whole(parse, Joined(lines, rest)) == Outcome(
      EffectsOf(parse, lines[..k]), if k < |lines| then Some(parse(lines[k]).message) else None)
  {
    LinesUnique(lines, rest);
    UpToFirstFailure(parse, Fresh(), lines);
    var k := FirstFailure(parse, lines);
    assert [] + EffectsOf(parse, lines[..k]) == EffectsOf(parse, lines[..k]);
  }

  // ---------------------------------------------------------------- the reader

  function Concat(chunks: seq<string>): string {
    if chunks == [] then "" else Concat(chunks[..|chunks| - 1]) + chunks[|chunks| - 1]
  }

  /** What a thread's approvals become: the effects publish into them beside the turn the stream
      is producing. */
  function Held<C>(start: seq<InlineApproval>, effects: seq<Effect<C>>, messageIndex: int): seq<InlineApproval> {
    if effects == [] then start
    else
      var before := Held(start, effects[..|effects| - 1], messageIndex);
      match effects[|effects| - 1]
      case Publishes(Some(approval)) => Published(before, InlineApproval(messageIndex, approval))
      case _ => before
  }

  /** Take the finished lines off a buffer. */
  method SplitLines(buffer: string) returns (lines: seq<string>, rest: string)
    ensures lines == Lines(buffer) && rest == Rest(buffer)
  {
    lines, rest := [], buffer;
    while true
      invariant lines + Lines(rest) == Lines(buffer) && Rest(rest) == Rest(buffer)
      decreases |rest|
    {
      var k := Feed(rest);
      if k == |rest| { return; }
      lines, rest := lines + [rest[..k]], rest[k + 1..];
    }
  }

  /** Handle one line. */
  method HandleLine<C>(parse: string -> Parsed<C>, sofar: Outcome<C>, line: string,
                       store: Store, thread: string, messageIndex: int, ghost start: seq<InlineApproval>)
    returns (r: Outcome<C>)
    requires sofar.error.None? && store.Read(thread) == Held(start, sofar.effects, messageIndex)
    modifies store
    ensures r == ReadLine(parse, sofar, line)
    ensures store.Read(thread) == Held(start, r.effects, messageIndex)
    ensures forall other :: other != thread ==> store.Read(other) == old(store.Read(other))
  {
    if line == "" { return sofar; }
    match parse(line) {
      case Content(content) =>
        r := sofar.(effects := sofar.effects + [Yielded(content)]);
        assert r.effects[..|sofar.effects|] == sofar.effects;
      case Snapshot(approval) =>
        var _ := store.Publish(thread, approval, messageIndex);
        r := sofar.(effects := sofar.effects + [Publishes(approval)]);
        assert r.effects[..|sofar.effects|] == sofar.effects;
      case Failure(message) =>
        r := sofar.(error := Some(message));
    }
  }

  /** Read the lines of one chunk; approvals go to the store, everything else to the consumer. */
  method ReadChunk<C>(parse: string -> Parsed<C>, sofar: Outcome<C>, lines: seq<string>,
                      store: Store, thread: string, messageIndex: int, ghost start: seq<InlineApproval>)
    returns (r: Outcome<C>)
    requires sofar.error.None? && store.Read(thread) == Held(start, sofar.effects, messageIndex)
    modifies store
    ensures r == ReadLines(parse, sofar, lines)
    ensures store.Read(thread) == Held(start, r.effects, messageIndex)
    ensures forall other :: other != thread ==> store.Read(other) == old(store.Read(other))
  {
    r := sofar;
    for i := 0 to |lines|
      invariant r == ReadLines(parse, sofar, lines[..i]) && r.error.None?
      invariant store.Read(thread) == Held(start, r.effects, messageIndex)
      invariant forall other :: other != thread ==> store.Read(other) == old(store.Read(other))
    {
      ReadOneMore(parse, sofar, lines, i);
      r := HandleLine(parse, r, lines[i], store, thread, messageIndex, start);
      if r.error.Some? {
        ReadAppend(parse, sofar, lines[..i + 1], lines[i + 1..]);
        assert lines[..i + 1] + lines[i + 1..] == lines;
        StoppedForGood(parse, r, lines[i + 1..]);
        return;
      }
    }
    assert lines[..|lines|] == lines;
  }

  lemma ReadOneMore<C>(parse: string -> Parsed<C>, sofar: Outcome<C>, lines: seq<string>, i: nat)
    requires i < |lines|
    ensures ReadLines(parse, sofar, lines[..i + 1]) == ReadLine(parse, ReadLines(parse, sofar, lines[..i]), lines[i])
  {
    assert lines[..i + 1] == lines[..i] + [lines[i]];
    ReadAppend(parse, sofar, lines[..i], [lines[i]]);
  }

  /** However the stream is cut into chunks, the reader sees what the whole stream amounts to. */
  method ReadRunResponse<C>(parse: string -> Parsed<C>, chunks: seq<string>, store: Store, thread: string, messageIndex: int)
    returns (r: Outcome<C>)
    modifies store
    ensures r == Whole(parse, Concat(chunks))
    ensures store.Read(thread) == Held(old(store.Read(thread)), r.effects, messageIndex)
    ensures forall other :: other != thread ==> store.Read(other) == old(store.Read(other))
  {
    r := Fresh();
    ghost var start := store.Read(thread);
    var buffer := "";
    for i := 0 to |chunks|
      invariant r == Whole(parse, Concat(chunks[..i])) && r.error.None?
      invariant buffer == Rest(Concat(chunks[..i]))
      invariant store.Read(thread) == Held(start, r.effects, messageIndex)
      invariant forall other :: other != thread ==> store.Read(other) == old(store.Read(other))
    {
      assert chunks[..i + 1][..i] == chunks[..i];
      LinesOfCut(Concat(chunks[..i]), chunks[i]);
      ReadAppend(parse, Fresh(), Lines(Concat(chunks[..i])), Lines(buffer + chunks[i]));
      var lines;
      lines, buffer := SplitLines(buffer + chunks[i]);
      r := ReadChunk(parse, r, lines, store, thread, messageIndex, start);
      if r.error.Some? {
        ConcatSplit(chunks, i + 1);
        LinesOfCut(Concat(chunks[..i + 1]), Concat(chunks[i + 1..]));
        var more := Lines(Rest(Concat(chunks[..i + 1])) + Concat(chunks[i + 1..]));
        ReadAppend(parse, Fresh(), Lines(Concat(chunks[..i + 1])), more);
        StoppedForGood(parse, r, more);
        return;
      }
    }
    assert chunks[..|chunks|] == chunks;
  }

  lemma {:induction false} ConcatSplit(chunks: seq<string>, k: nat)
    requires k <= |chunks|
    ensures Concat(chunks) == Concat(chunks[..k]) + Concat(chunks[k..])
    decreases |chunks|
  {
    if k == |chunks| {
      assert chunks[..k] == chunks && chunks[k..] == [];
    } else {
      var init := chunks[..|chunks| - 1];
      ConcatSplit(init, k);
      assert init[..k] == chunks[..k] && init[k..] == chunks[k..][..|chunks| - k - 1];
    }
  }
}
