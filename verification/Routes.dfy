/** The addresses of the pages: printing them, and finding the page of an address. */
module Routes {
  import opened Options
  import opened PercentEncoding

  datatype Route =
    | Login
    | RunList
    | NewRun
    | RunPage(runId: Text)
    | GraphConversation(runId: Text, nodeId: Text)
    | Utilization
    | NewLoop
    | LoopPage(loopId: Text)
    | Chat(chatRun: Option<Text>, thread: Option<Text>)

  function RunsPath(): Text { Ascii("/runs/") }

  function LoopsPath(): Text { Ascii("/loops/") }

  function ChatPath(): Text { Ascii("/conversations/") }

  function GraphPath(): Text { Ascii("/conversations/graph--") }

  function New(): Text { Ascii("new") }

  predicate StartsWith(s: Text, prefix: Text) {
    |prefix| <= |s| && s[..|prefix|] == prefix
  }

  predicate Segment(s: Text) {
    s != [] && SLASH !in s
  }

  /** One slash at the end does not matter. */
  function Trimmed(pathname: Text): Text {
    var path := if pathname != [] && pathname[|pathname| - 1] == SLASH then pathname[..|pathname| - 1] else pathname;
    if path == [] then [SLASH] else path
  }

  /** The position of the first slash. */
  function FirstSlash(s: Text): (k: nat)
    ensures k <= |s| && (k < |s| ==> s[k] == SLASH) && SLASH !in s[..k]
  {
    if s == [] || s[0] == SLASH then 0
    else
      var k := FirstSlash(s[1..]) + 1;
      assert s[..k] == [s[0]] + s[1..][..k - 1];
      k
  }

  /** The two segments of a path of the form `<prefix><a><infix><b>`. */
  function Match(path: Text, prefix: Text, infix: Text): Option<(Text, Text)> {
    if !StartsWith(path, prefix) then None
    else
      var rest := path[|prefix|..];
      var k := FirstSlash(rest);
      if k > 0 && StartsWith(rest[k..], infix) && Segment(rest[k..][|infix|..]) then
        Some((rest[..k], rest[k..][|infix|..]))
      else None
  }

  function RunsMatch(path: Text, infix: Text): Option<(Text, Text)> {
    Match(path, RunsPath(), infix)
  }

  // Pages whose ids still have to be decoded; what cannot be decoded has no page.

  function LoopOf(part: Text): Option<Route> {
    var id := Decode(part);
    if id.None? then None else Some(LoopPage(id.value))
  }

  function RunOf(part: Text): Option<Route> {
    var id := Decode(part);
    if id.None? then None else Some(RunPage(id.value))
  }

  function ThreadOf(part: Text): Option<Route> {
    var id := Decode(part);
    if id.None? then None else Some(Chat(None, id))
  }

  function GraphConversationOf(parts: (Text, Text)): Option<Route> {
    var run, node := Decode(parts.0), Decode(parts.1);
    if run.None? || node.None? then None else Some(GraphConversation(run.value, node.value))
  }

  function StepConversationOf(parts: (Text, Text)): Option<Route> {
    var run, thread := Decode(parts.0), Decode(parts.1);
    if run.None? || thread.None? then None else Some(Chat(run, thread))
  }

  /** The pages with an address of their own. */
  function FixedPage(path: Text): Option<Route> {
    if path == Ascii("/login") then Some(Login)
    else if path == [SLASH] || path == Ascii("/runs") then Some(RunList)
    else if path == RunsPath() + New() then Some(NewRun)
    else if path == Ascii("/utilization") then Some(Utilization)
    else if path == LoopsPath() + New() then Some(NewLoop)
    else None
  }

  function PageWithId(path: Text): Option<Route> {
    if StartsWith(path, LoopsPath()) then LoopOf(path[|LoopsPath()|..])
    else if RunsMatch(path, GraphPath()).Some? then GraphConversationOf(RunsMatch(path, GraphPath()).value)
    else if RunsMatch(path, ChatPath()).Some? then StepConversationOf(RunsMatch(path, ChatPath()).value)
    else if StartsWith(path, RunsPath()) then RunOf(path[|RunsPath()|..])
    else if StartsWith(path, ChatPath()) then ThreadOf(path[|ChatPath()|..])
    else Some(Chat(None, None))
  }

  function RouteForPath(pathname: Text): Option<Route> {
    var path := Trimmed(pathname);
    if FixedPage(path).Some? then FixedPage(path) else PageWithId(path)
  }

  // ---------------------------------------------------------------- the pattern

  lemma {:induction false} FirstSlashIs(a: Text, more: Text)
    requires SLASH !in a && more != [] && more[0] == SLASH
    ensures FirstSlash(a + more) == |a|
  {
    if a == [] {
      assert a + more == more;
    } else {
      assert (a + more)[1..] == a[1..] + more;
      FirstSlashIs(a[1..], more);
    }
  }

  lemma MatchFinds(prefix: Text, a: Text, infix: Text, b: Text)
    requires infix != [] && infix[0] == SLASH && Segment(a) && Segment(b)
    ensures Match(prefix + a + infix + b, prefix, infix) == Some((a, b))
  {
    var path, rest, tail := prefix + a + infix + b, a + (infix + b), infix + b;
    assert path[..|prefix|] == prefix && path[|prefix|..] == rest;
    FirstSlashIs(a, tail);
    assert rest[..|a|] == a && rest[|a|..] == tail;
    assert tail[..|infix|] == infix && tail[|infix|..] == b;
  }

  lemma MatchOnly(path: Text, prefix: Text, infix: Text, a: Text, b: Text)
    requires Match(path, prefix, infix) == Some((a, b))
    ensures Segment(a) && Segment(b) && path == prefix + a + infix + b
  {
    var rest := path[|prefix|..];
    assert path == prefix + rest && rest == a + rest[|a|..] && rest[|a|..] == infix + b;
  }

  /** The pattern matches exactly the paths of its form, and finds their segments. */
  lemma {:induction false} RunsMatchExact(path: Text, infix: Text, a: Text, b: Text)
    requires infix != [] && infix[0] == SLASH
    ensures RunsMatch(path, infix) == Some((a, b)) <==> Segment(a) && Segment(b) && path == RunsPath() + a + infix + b
  {
    if Segment(a) && Segment(b) { MatchFinds(RunsPath(), a, infix, b); }
    if RunsMatch(path, infix) == Some((a, b)) { MatchOnly(path, RunsPath(), infix, a, b); }
  }

  // ---------------------------------------------------------------- there and back

  function RunUrl(id: Text): Option<Text> {
    Before(RunsPath(), Encode(id))
  }

  function LoopUrl(id: Text): Option<Text> {
    Before(LoopsPath(), Encode(id))
  }

  function GraphConversationUrl(runId: Text, nodeId: Text): Option<Text> {
    var run, node := Encode(runId), Encode(nodeId);
    if run.None? || node.None? then None else Some(RunsPath() + run.value + GraphPath() + node.value)
  }

  lemma {:induction false} DecodeNonEmpty(s: Text)
    requires s != [] && Decode(s).Some?
    ensures Decode(s).value != []
  {}

  /** Under `/runs/` the only address of its own is that of a new run... */
  lemma FixedRuns(a: Text)
    requires a != []
    ensures FixedPage(RunsPath() + a) == if a == New() then Some(NewRun) else None
    ensures !StartsWith(RunsPath() + a, LoopsPath())
  {
    var path := RunsPath() + a;
    assert path[..6] == RunsPath() && path[6..] == a;
    assert path[1] == 'r' as int && path[5] == SLASH && LoopsPath()[1] == 'l' as int;
    assert |path| > 6;
    assert (LoopsPath() + New())[1] == 'l' as int && Ascii("/utilization")[1] == 'u' as int;
    assert a != New() ==> path != RunsPath() + New();
  }

  /** ... and under `/loops/` that of a new loop. */
  lemma FixedLoops(a: Text)
    requires a != []
    ensures FixedPage(LoopsPath() + a) == if a == New() then Some(NewLoop) else None
  {
    var path := LoopsPath() + a;
    assert path[7..] == a && path[1] == 'l' as int && |path| > 7;
    assert (RunsPath() + New())[1] == 'r' as int && Ascii("/utilization")[1] == 'u' as int;
    assert a != New() ==> path != LoopsPath() + New();
  }

  lemma TrimmedPlain(prefix: Text, a: Text)
    requires Segment(a)
    ensures Trimmed(prefix + a) == prefix + a
  {
    assert (prefix + a)[|prefix + a| - 1] == a[|a| - 1];
  }

  lemma PartsNonEmpty(path: Text, infix: Text)
    ensures var parts := RunsMatch(path, infix); parts.Some? ==> parts.value.0 != [] && parts.value.1 != []
  {}

  lemma ConversationNonEmpty(parts: (Text, Text), runId: Text, nodeId: Text)
    requires parts.0 != [] && parts.1 != []
    ensures GraphConversationOf(parts) == Some(GraphConversation(runId, nodeId)) ==> runId != [] && nodeId != []
  {
    if Decode(parts.0).Some? && Decode(parts.1).Some? {
      DecodeNonEmpty(parts.0);
      DecodeNonEmpty(parts.1);
    }
  }

  /** A conversation page has a run and a node, whatever the path. */
  lemma {:induction false} NoEmptyIds(pathname: Text, runId: Text, nodeId: Text)
    ensures RouteForPath(pathname) == Some(GraphConversation(runId, nodeId)) ==> runId != [] && nodeId != []
  {
    var parts := RunsMatch(Trimmed(pathname), GraphPath());
    PartsNonEmpty(Trimmed(pathname), GraphPath());
    if parts.Some? { ConversationNonEmpty(parts.value, runId, nodeId); }
  }

  /** The printed address of a conversation leads back to it exactly when neither id is empty. */
  lemma ConversationRoundTrip(runId: Text, nodeId: Text)
    requires WellFormed(runId) && WellFormed(nodeId)
    ensures GraphConversationUrl(runId, nodeId).Some?
    ensures RouteForPath(GraphConversationUrl(runId, nodeId).value) == Some(GraphConversation(runId, nodeId))
      <==> runId != [] && nodeId != []
  {
    EncodeDefined(runId);
    EncodeDefined(nodeId);
    var url := GraphConversationUrl(runId, nodeId).value;
    NoEmptyIds(url, runId, nodeId);
    if runId != [] && nodeId != [] { ConversationFound(runId, nodeId); }
  }

  lemma ConversationPath(a: Text, b: Text)
    requires Segment(a) && Segment(b)
    ensures RouteForPath(RunsPath() + a + GraphPath() + b) == GraphConversationOf((a, b))
  {
    var path := RunsPath() + a + GraphPath() + b;
    TrimmedPlain(RunsPath() + a + GraphPath(), b);
    RunsMatchExact(path, GraphPath(), a, b);
    var rest := a + GraphPath() + b;
    assert path == RunsPath() + rest;
    FixedRuns(rest);
  }

  lemma ConversationFound(runId: Text, nodeId: Text)
    requires Encode(runId).Some? && Encode(nodeId).Some? && runId != [] && nodeId != []
    ensures RouteForPath(GraphConversationUrl(runId, nodeId).value) == Some(GraphConversation(runId, nodeId))
  {
    RoundTrip(runId);
    RoundTrip(nodeId);
    EncodedPlain(runId);
    EncodedPlain(nodeId);
    ConversationPath(Encode(runId).value, Encode(nodeId).value);
  }

  lemma NewIsPlain()
    ensures Encode(New()) == Some(New()) && Segment(New())
  {
    EncodePlain(New());
  }

  /** The encoded id is `new` only for `new` itself. */
  lemma OnlyNewIsNew(id: Text)
    requires Encode(id) == Some(New())
    ensures id == New()
  {
    NewIsPlain();
    RoundTrip(id);
    RoundTrip(New());
  }

  lemma LoopPath(a: Text)
    requires Segment(a)
    ensures RouteForPath(LoopsPath() + a) == if a == New() then Some(NewLoop) else LoopOf(a)
  {
    var path := LoopsPath() + a;
    TrimmedPlain(LoopsPath(), a);
    FixedLoops(a);
    assert path[..7] == LoopsPath() && path[7..] == a;
  }

  /** The printed address of a loop leads back to it exactly when its id is neither empty nor `new`. */
  lemma LoopRoundTrip(id: Text)
    requires WellFormed(id)
    ensures LoopUrl(id).Some?
    ensures RouteForPath(LoopUrl(id).value) == Some(LoopPage(id)) <==> id != [] && id != New()
  {
    EncodeDefined(id);
    if id == [] {
      assert LoopUrl(id).value == LoopsPath();
      assert |Trimmed(LoopsPath())| == 6;
    } else {
      var a := Encode(id).value;
      RoundTrip(id);
      EncodedPlain(id);
      LoopPath(a);
      if a == New() { OnlyNewIsNew(id); } else { NewIsPlain(); }
    }
  }

  lemma NoSlashNoMatch(a: Text, infix: Text)
    requires SLASH !in a && infix != []
    ensures RunsMatch(RunsPath() + a, infix).None?
  {
    var path := RunsPath() + a;
    assert path[|RunsPath()|..] == a;
  }

  lemma RunPath(a: Text)
    requires Segment(a)
    ensures RouteForPath(RunsPath() + a) == if a == New() then Some(NewRun) else RunOf(a)
  {
    var path := RunsPath() + a;
    TrimmedPlain(RunsPath(), a);
    FixedRuns(a);
    NoSlashNoMatch(a, GraphPath());
    NoSlashNoMatch(a, ChatPath());
    assert path[..6] == RunsPath() && path[6..] == a;
  }

  /** And likewise the address of a run. */
  lemma RunRoundTrip(id: Text)
    requires WellFormed(id)
    ensures RunUrl(id).Some?
    ensures RouteForPath(RunUrl(id).value) == Some(RunPage(id)) <==> id != [] && id != New()
  {
    EncodeDefined(id);
    if id == [] {
      assert RunUrl(id).value == RunsPath();
      assert |Trimmed(RunsPath())| == 5;
    } else {
      var a := Encode(id).value;
      RoundTrip(id);
      EncodedPlain(id);
      RunPath(a);
      if a == New() { OnlyNewIsNew(id); } else { NewIsPlain(); }
    }
  }

  // ---------------------------------------------------------------- the remaining pages

  /** The pages with an address of their own, with or without a slash at the end. */
  lemma FixedPages()
    ensures RouteForPath([]) == Some(RunList) && RouteForPath(Ascii("/")) == Some(RunList)
    ensures RouteForPath(Ascii("/runs")) == Some(RunList) && RouteForPath(Ascii("/runs/")) == Some(RunList)
    ensures RouteForPath(Ascii("/login")) == Some(Login) && RouteForPath(Ascii("/login/")) == Some(Login)
    ensures RouteForPath(Ascii("/utilization")) == Some(Utilization)
  {
    assert Ascii("/") == [SLASH];
    TrimOne(Ascii("/runs"), Ascii("/runs/"));
    TrimOne(Ascii("/login"), Ascii("/login/"));
    NoTrim(Ascii("/runs"));
    NoTrim(Ascii("/login"));
    NoTrim(Ascii("/utilization"));
    assert Ascii("/login")[1] == 'l' as int && Ascii("/runs")[1] == 'r' as int;
    FixedUtilization();
  }

  lemma FixedUtilization()
    ensures FixedPage(Ascii("/utilization")) == Some(Utilization)
  {
    var path := Ascii("/utilization");
    assert path[1] == 'u' as int && |path| == 12;
    assert (RunsPath() + New())[1] == 'r' as int;
  }

  lemma NoTrim(path: Text)
    requires path != [] && path[|path| - 1] != SLASH
    ensures Trimmed(path) == path
  {}

  lemma TrimOne(path: Text, longer: Text)
    requires path != [] && longer == path + [SLASH]
    ensures Trimmed(longer) == path
  {
    assert longer[..|longer| - 1] == path;
  }

  lemma NewPages()
    ensures RouteForPath(RunsPath() + New()) == Some(NewRun) && RouteForPath(LoopsPath() + New()) == Some(NewLoop)
  {
    NewIsPlain();
    RunPath(New());
    LoopPath(New());
  }

  function ThreadUrl(id: Text): Option<Text> {
    Before(ChatPath(), Encode(id))
  }

  lemma ThreadPath(a: Text)
    requires Segment(a)
    ensures RouteForPath(ChatPath() + a) == ThreadOf(a)
  {
    var path := ChatPath() + a;
    TrimmedPlain(ChatPath(), a);
    assert path[..15] == ChatPath() && path[15..] == a;
    assert path[1] == 'c' as int && |path| > 15;
    assert RunsPath()[1] == 'r' as int && LoopsPath()[1] == 'l' as int;
  }

  /** The address of a conversation on its own leads back to it exactly when its id is not empty. */
  lemma ThreadRoundTrip(id: Text)
    requires WellFormed(id)
    ensures ThreadUrl(id).Some?
    ensures RouteForPath(ThreadUrl(id).value) == Some(Chat(None, Some(id))) <==> id != []
  {
    EncodeDefined(id);
    if id == [] {
      assert ThreadUrl(id).value == ChatPath();
      assert |Trimmed(ChatPath())| == 14;
    } else {
      RoundTrip(id);
      EncodedPlain(id);
      ThreadPath(Encode(id).value);
    }
  }

  function Graph(): Text { Ascii("graph--") }

  function StepUrl(runId: Text, thread: Text): Option<Text> {
    var run, rest := Encode(runId), Encode(thread);
    if run.None? || rest.None? then None else Some(RunsPath() + run.value + ChatPath() + rest.value)
  }

  lemma GraphPathIs()
    ensures GraphPath() == ChatPath() + Graph()
  {}

  lemma AsGraph(a: Text, b: Text)
    requires Segment(a) && Segment(b) && StartsWith(b, Graph()) && b != Graph()
    ensures RouteForPath(RunsPath() + a + ChatPath() + b) == GraphConversationOf((a, b[|Graph()|..]))
  {
    var rest := b[|Graph()|..];
    GraphPathIs();
    assert b == Graph() + rest;
    assert RunsPath() + a + ChatPath() + b == RunsPath() + a + GraphPath() + rest;
    ConversationPath(a, rest);
  }

  lemma UnderRuns(rest: Text)
    requires rest != [] && rest != New() && rest[|rest| - 1] != SLASH
    ensures RouteForPath(RunsPath() + rest) == PageWithId(RunsPath() + rest) && !StartsWith(RunsPath() + rest, LoopsPath())
  {
    assert (RunsPath() + rest)[|RunsPath() + rest| - 1] == rest[|rest| - 1];
    FixedRuns(rest);
  }

  lemma StepPage(path: Text, parts: (Text, Text))
    requires !StartsWith(path, LoopsPath()) && RunsMatch(path, GraphPath()).None? && RunsMatch(path, ChatPath()) == Some(parts)
    ensures PageWithId(path) == StepConversationOf(parts)
  {}

  lemma Regrouped(p: Text, a: Text, infix: Text, b: Text)
    requires b != []
    ensures p + a + infix + b == p + (a + infix + b)
    ensures var rest := a + infix + b; |rest| > |infix| && rest[|rest| - 1] == b[|b| - 1]
  {}

  lemma StepMatches(a: Text, b: Text)
    requires Segment(a) && Segment(b) && !(StartsWith(b, Graph()) && b != Graph())
    ensures var path := RunsPath() + a + ChatPath() + b;
      RunsMatch(path, GraphPath()).None? && RunsMatch(path, ChatPath()) == Some((a, b))
  {
    NotGraph(a, b);
    RunsMatchExact(RunsPath() + a + ChatPath() + b, ChatPath(), a, b);
  }

  lemma AsStep(a: Text, b: Text)
    requires Segment(a) && Segment(b) && !(StartsWith(b, Graph()) && b != Graph())
    ensures RouteForPath(RunsPath() + a + ChatPath() + b) == StepConversationOf((a, b))
  {
    Regrouped(RunsPath(), a, ChatPath(), b);
    UnderRuns(a + ChatPath() + b);
    StepMatches(a, b);
    StepPage(RunsPath() + a + ChatPath() + b, (a, b));
  }

  lemma NotGraph(a: Text, b: Text)
    requires Segment(a) && Segment(b) && !(StartsWith(b, Graph()) && b != Graph())
    ensures RunsMatch(RunsPath() + a + ChatPath() + b, GraphPath()).None?
  {
    var path := RunsPath() + a + ChatPath() + b;
    var m := RunsMatch(path, GraphPath());
    if m.Some? {
      GraphTail(path, m.value.0, m.value.1);
      RunsMatchExact(path, ChatPath(), a, b);
    }
  }

  /** What the graph's pattern matches, the step's pattern matches too. */
  lemma GraphTail(path: Text, x: Text, y: Text)
    requires RunsMatch(path, GraphPath()) == Some((x, y))
    ensures RunsMatch(path, ChatPath()) == Some((x, Graph() + y))
    ensures StartsWith(Graph() + y, Graph()) && Graph() + y != Graph()
  {
    MatchOnly(path, RunsPath(), GraphPath(), x, y);
    GraphPathIs();
    assert RunsPath() + x + (ChatPath() + Graph()) + y == RunsPath() + x + ChatPath() + (Graph() + y);
    NoSlashInGraph(y);
    RunsMatchExact(path, ChatPath(), x, Graph() + y);
    assert |Graph() + y| > |Graph()|;
  }

  lemma NoSlashInGraph(y: Text)
    requires Segment(y)
    ensures Segment(Graph() + y)
  {}

  lemma GraphIsPlain()
    ensures forall i :: 0 <= i < |Graph()| ==> Unreserved(Graph()[i])
  {}

  /** Encoding keeps an unreserved beginning, and makes none. */
  lemma StartsAlike(g: Text, thread: Text)
    requires (forall i :: 0 <= i < |g| ==> Unreserved(g[i])) && Encode(thread).Some?
    ensures StartsWith(Encode(thread).value, g) <==> StartsWith(thread, g)
    ensures Encode(thread).value == g <==> thread == g
  {
    EncodePlain(g);
    RoundTrip(g);
    RoundTrip(thread);
    if StartsWith(Encode(thread).value, g) { StartsDecoded(g, thread); }
    if StartsWith(thread, g) {
      var x := thread[|g|..];
      assert thread == g + x;
      EncodePrefix(g, x);
    }
  }

  lemma StartsDecoded(g: Text, thread: Text)
    requires (forall i :: 0 <= i < |g| ==> Unreserved(g[i])) && Encode(thread).Some? && StartsWith(Encode(thread).value, g)
    ensures StartsWith(thread, g)
  {
    var b := Encode(thread).value;
    var y := b[|g|..];
    RoundTrip(thread);
    assert b == g + y;
    DecodePrefix(g, y);
    assert thread == g + Decode(y).value;
  }

  /** A step's conversation has a run and a thread, whatever the path. */
  lemma NoEmptySteps(pathname: Text, runId: Text, thread: Text)
    ensures RouteForPath(pathname) == Some(Chat(Some(runId), Some(thread))) ==> runId != [] && thread != []
  {
    var parts := RunsMatch(Trimmed(pathname), ChatPath());
    PartsNonEmpty(Trimmed(pathname), ChatPath());
    if parts.Some? { StepNonEmpty(parts.value, runId, thread); }
  }

  lemma StepNonEmpty(parts: (Text, Text), runId: Text, thread: Text)
    requires parts.0 != [] && parts.1 != []
    ensures StepConversationOf(parts) == Some(Chat(Some(runId), Some(thread))) ==> runId != [] && thread != []
  {
    if Decode(parts.0).Some? && Decode(parts.1).Some? {
      DecodeNonEmpty(parts.0);
      DecodeNonEmpty(parts.1);
    }
  }

  lemma StepFound(runId: Text, thread: Text)
    requires Encode(runId).Some? && Encode(thread).Some? && runId != [] && thread != []
    ensures RouteForPath(StepUrl(runId, thread).value) == Some(Chat(Some(runId), Some(thread)))
      <==> !(StartsWith(thread, Graph()) && thread != Graph())
  {
    var a, b := Encode(runId).value, Encode(thread).value;
    RoundTrip(runId);
    RoundTrip(thread);
    EncodedPlain(runId);
    EncodedPlain(thread);
    GraphIsPlain();
    StartsAlike(Graph(), thread);
    if StartsWith(b, Graph()) && b != Graph() { AsGraph(a, b); } else { AsStep(a, b); }
  }

  /** The address of a step's conversation leads back to it exactly when neither id is empty and the thread's
      does not begin with `graph--` and go on. */
  lemma {:induction false} StepRoundTrip(runId: Text, thread: Text)
    requires WellFormed(runId) && WellFormed(thread)
    ensures StepUrl(runId, thread).Some?
    ensures RouteForPath(StepUrl(runId, thread).value) == Some(Chat(Some(runId), Some(thread)))
      <==> runId != [] && thread != [] && !(StartsWith(thread, Graph()) && thread != Graph())
  {
    EncodeDefined(runId);
    EncodeDefined(thread);
    NoEmptySteps(StepUrl(runId, thread).value, runId, thread);
    if runId != [] && thread != [] { StepFound(runId, thread); }
  }
}
