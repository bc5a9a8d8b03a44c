/** The stateful side of the stand-ins: a page asks for them one token at a time. */
module StandInPage {
  import opened Options
  import opened Runs
  import opened StandIns

  /** Filling a shape one place more: the places done are those `Fill` does first. */
  lemma {:induction false} FillSnoc(shape: seq<Option<char>>, k: nat, seed: bv32)
    requires k < |shape|
    ensures var before := Fill(shape[..k], seed);
      Fill(shape[..k + 1], seed) ==
        if shape[k].None? then (before.0 + [HexDigit(Next(before.1))], Next(before.1))
        else (before.0 + [shape[k].value], before.1)
  {
    if k == 0 {
      assert shape[..1][1..] == [] && shape[..0] == [] && shape[..1][0] == shape[0];
      var only := if shape[0].None? then HexDigit(Next(seed)) else shape[0].value;
      assert [only] + "" == "" + [only];
    } else {
      assert shape[..k][1..] == shape[1..][..k - 1] && shape[..k + 1][1..] == shape[1..][..k];
      var next := if shape[0].None? then Next(seed) else seed;
      FillSnoc(shape[1..], k - 1, next);
      var first := if shape[0].None? then HexDigit(next) else shape[0].value;
      var last := if shape[k].None? then HexDigit(Next(Fill(shape[..k], seed).1)) else shape[k].value;
      var between := Fill(shape[1..][..k - 1], next).0;
      assert [first] + (between + [last]) == ([first] + between) + [last];
    }
  }

  class Page {
    var standIns: map<string, string>
    var used: set<string>
    var ports: seq<Port>
    var seed: bv32

    function View(): State
      reads this
    {
      State(Names(standIns, used, seed), ports)
    }

    constructor (daemon: Option<Port>)
      ensures View() == StandIns.Fresh(daemon)
    {
      standIns, used, seed := map[], {}, SEED;
      ports := if daemon.Some? then [daemon.value] else [];
    }

    /** Advance the fixed sequence. */
    method Draw() returns (x: bv32)
      modifies this`seed
      ensures x == seed == Next(old(seed))
      ensures old(seed) != 0 ==> seed != 0
    {
      if seed != 0 { NextNotZero(seed); }
      seed := Next(seed);
      x := seed;
    }

    method StandInFor(id: string) returns (shown: string)
      modifies this
      ensures shown == Shown(old(View()), Id(id)) && View() == Step(old(View()), Id(id))
    {
      if id in used { return id; }
      if id in standIns && standIns[id] != "" { return standIns[id]; }
      ghost var shape := Shape(id);
      var kept := if IsEngineId(id) then |id| - 12 else 0;
      shown := "";
      for k := 0 to |id|
        invariant (shown, seed) == Fill(shape[..k], old(seed))
        invariant standIns == old(standIns) && used == old(used) && ports == old(ports)
      {
        FillSnoc(shape, k, old(seed));
        if k >= kept && IsHex(id[k]) {
          var x := Draw();
          shown := shown + [HexDigit(x)];
        } else {
          shown := shown + [id[k]];
        }
      }
      assert shape[..|id|] == shape;
      standIns := standIns[id := shown];
      used := used + {shown};
    }

    method PortFor(port: string) returns (shown: string)
      modifies this`ports
      ensures shown == ShownPort(old(ports), port) && ports == EnterPort(old(ports), port)
    {
      if ShowsPort(ports, port) { return port; }
      shown := ShownFor(ports, port);
      if shown == "" {
        var before := CountOfLength(|port|);
        shown := PortText(FIRST_PORT + before, |port|);
        ports := Put(ports, port, shown);
      }
    }

    method CountOfLength(length: nat) returns (count: nat)
      ensures count == OfLength(ports, length)
    {
      count := 0;
      for k := 0 to |ports|
        invariant count == OfLength(ports[..k], length)
      {
        assert ports[..k + 1][..k] == ports[..k];
        if |ports[k].real'| == length { count := count + 1; }
      }
      assert ports[..|ports|] == ports;
    }

    method Show(t: Token) returns (shown: string)
      modifies this
      ensures shown == Shown(old(View()), t) && View() == Step(old(View()), t)
    {
      match t {
        case Id(id) => shown := StandInFor(id);
        case PortToken(port) => shown := PortFor(port);
      }
    }

    /** A page that is asked for every token of a run shows what the run shows. */
    method Apply(tokens: seq<Token>) returns (shown: seq<string>)
      modifies this
      ensures View() == Run(Step, old(View()), tokens)
      ensures |shown| == |tokens| && ShowsRun(old(View()), tokens, shown)
    {
      ghost var start := View();
      shown := [];
      for k := 0 to |tokens|
        invariant View() == Run(Step, start, tokens[..k])
        invariant |shown| == k && ShowsRun(start, tokens, shown)
      {
        RunSnoc(Step, start, tokens, k);
        var text := Show(tokens[k]);
        shown := shown + [text];
      }
      assert tokens[..|tokens|] == tokens;
    }
  }

  /** `shown` is what a run from `start` shows for its first tokens. */
  ghost predicate ShowsRun(start: State, tokens: seq<Token>, shown: seq<string>)
    requires |shown| <= |tokens|
  {
    forall i :: 0 <= i < |shown| ==> shown[i] == ShownAt(start, tokens, i)
  }

  ghost function ShownAt(start: State, tokens: seq<Token>, i: nat): string
    requires i < |tokens|
  {
    Shown(Run(Step, start, tokens[..i]), tokens[i])
  }
}
