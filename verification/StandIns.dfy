/** The stand-ins drawn in place of ids and ports, so that a page looks the same on every run. */
module StandIns {
  import opened Options
  import opened Runs

  const HEX := "0123456789abcdef"

  const FIRST_PORT := 54321

  const SEED: bv32 := 0x2f6e2b1

  // ---------------------------------------------------------------- the fixed sequence

  /** One step of a 32-bit xorshift. */
  function Next(x: bv32): bv32 {
    var a := x ^ (x << 13);
    var b := a ^ (a >> 17);
    b ^ (b << 5)
  }

  /** The state never becomes 0, from which it could not leave. */
  lemma NextNotZero(x: bv32)
    requires x != 0
    ensures Next(x) != 0
  {
    var a := x ^ (x << 13);
    assert a != 0;
    var b := a ^ (a >> 17);
    assert b != 0;
  }

  function HexDigit(x: bv32): char {
    HEX[(x % 16) as int]
  }

  // ---------------------------------------------------------------- ids

  predicate IsHex(c: char) {
    '0' <= c <= '9' || 'a' <= c <= 'f'
  }

  predicate IsLower(c: char) {
    'a' <= c <= 'z'
  }

  /** An engine id: a lower-case word, a dash, and twelve hexadecimal digits. */
  predicate IsEngineId(id: string) {
    && |id| >= 14 && id[|id| - 13] == '-'
    && (forall k :: 0 <= k < |id| - 13 ==> IsLower(id[k]))
    && (forall k :: |id| - 12 <= k < |id| ==> IsHex(id[k]))
  }

  /** What an id keeps: everything but its hexadecimal digits, and the whole prefix of an engine id. */
  function Shape(id: string): seq<Option<char>> {
    var kept := if IsEngineId(id) then |id| - 12 else 0;
    seq(|id|, k requires 0 <= k < |id| => if k >= kept && IsHex(id[k]) then None else Some(id[k]))
  }

  /** A shape with its gaps filled from the fixed sequence, and the sequence's new state. */
  function Fill(shape: seq<Option<char>>, seed: bv32): (string, bv32) {
    if shape == [] then ("", seed)
    else if shape[0].None? then
      var next := Next(seed);
      var rest := Fill(shape[1..], next);
      ([HexDigit(next)] + rest.0, rest.1)
    else
      var rest := Fill(shape[1..], seed);
      ([shape[0].value] + rest.0, rest.1)
  }

  lemma {:induction false} FillLength(shape: seq<Option<char>>, seed: bv32)
    ensures |Fill(shape, seed).0| == |shape|
    ensures seed != 0 ==> Fill(shape, seed).1 != 0
  {
    if shape != [] {
      if shape[0].None? {
        FillLength(shape[1..], Next(seed));
        if seed != 0 { NextNotZero(seed); }
      } else {
        FillLength(shape[1..], seed);
      }
    }
  }

  /** Every kept character stays where it was, and every gap gets a hexadecimal digit. */
  lemma {:induction false} FillAt(shape: seq<Option<char>>, seed: bv32, k: nat)
    requires k < |shape|
    ensures |Fill(shape, seed).0| == |shape|
    ensures var c := Fill(shape, seed).0[k]; if shape[k].Some? then c == shape[k].value else IsHex(c)
  {
    var next := if shape[0].None? then Next(seed) else seed;
    FillLength(shape, seed);
    if k > 0 { FillAt(shape[1..], next, k - 1); }
  }

  /** A stand-in for an engine id is an engine id with the same prefix. */
  lemma EngineIdKept(id: string, seed: bv32)
    requires IsEngineId(id)
    ensures var shown := Fill(Shape(id), seed).0; IsEngineId(shown) && Shape(shown) == Shape(id)
  {
    forall k | 0 <= k < |id|
      ensures var shown := Fill(Shape(id), seed).0;
        |shown| == |id| && if k < |id| - 12 then shown[k] == id[k] else IsHex(shown[k])
    {
      FillAt(Shape(id), seed, k);
    }
  }

  // ---------------------------------------------------------------- ports

  function Digit(n: nat): char {
    ('0' as int + n % 10) as char
  }

  /** A number in decimal. */
  function Decimal(n: nat): string {
    if n < 10 then [Digit(n)] else Decimal(n / 10) + [Digit(n)]
  }

  /** The last `n` characters; all of them for 0, as negative slices have it. */
  function LastChars(s: string, n: nat): string {
    if n == 0 || |s| <= n then s else s[|s| - n..]
  }

  function PadStart(s: string, n: nat): string
    decreases n - |s|
  {
    if |s| >= n then s else PadStart("0" + s, n)
  }

  function PortText(n: nat, length: nat): string {
    PadStart(LastChars(Decimal(n), length), length)
  }

  /** An entry of the map of ports, which remembers the order of insertion. */
  datatype Port = Port(real': string, shown: string)

  predicate HasPort(ports: seq<Port>, port: string) {
    exists i :: 0 <= i < |ports| && ports[i].real' == port
  }

  predicate ShowsPort(ports: seq<Port>, port: string) {
    exists i :: 0 <= i < |ports| && ports[i].shown == port
  }

  /** The stand-in of a known port. */
  function ShownFor(ports: seq<Port>, port: string): string {
    if ports == [] then "" else if ports[0].real' == port then ports[0].shown else ShownFor(ports[1..], port)
  }

  /** Setting an entry of the map: in place for a known port, otherwise after the others. */
  function Put(ports: seq<Port>, port: string, shown: string): seq<Port> {
    if ports == [] then [Port(port, shown)]
    else if ports[0].real' == port then [Port(port, shown)] + ports[1..]
    else [ports[0]] + Put(ports[1..], port, shown)
  }

  /** Where `Put` puts the entry. */
  lemma {:induction false} PutAt(ports: seq<Port>, port: string, shown: string) returns (k: nat)
    ensures k <= |ports| && forall i :: 0 <= i < k ==> ports[i].real' != port
    ensures k == |ports| ==> Put(ports, port, shown) == ports + [Port(port, shown)]
    ensures k < |ports| ==> ports[k].real' == port && ShownFor(ports, port) == ports[k].shown
    ensures k < |ports| ==> Put(ports, port, shown) == ports[k := Port(port, shown)]
  {
    if ports == [] || ports[0].real' == port {
      k := 0;
    } else {
      var rest := PutAt(ports[1..], port, shown);
      k := rest + 1;
      assert forall i :: 1 <= i < k ==> ports[i] == ports[1..][i - 1];
      assert ports == [ports[0]] + ports[1..];
    }
  }

  /** How many ports of this length are known. */
  function OfLength(ports: seq<Port>, length: nat): nat {
    if ports == [] then 0
    else OfLength(ports[..|ports| - 1], length) + if |ports[|ports| - 1].real'| == length then 1 else 0
  }

  // ---------------------------------------------------------------- one token at a time

  datatype Token = Id(text: string) | PortToken(text: string)

  /** The ids with their stand-ins, every stand-in issued, and the state of the fixed sequence. */
  datatype Names = Names(standIns: map<string, string>, used: set<string>, seed: bv32)

  datatype State = State(names: Names, ports: seq<Port>)

  /** `daemon` is the port the session's daemon listens on, with the port a reader would see. */
  function Fresh(daemon: Option<Port>): State {
    State(Names(map[], {}, SEED), if daemon.Some? then [daemon.value] else [])
  }

  predicate KnownId(n: Names, id: string) {
    id in n.standIns && n.standIns[id] != ""
  }

  function ShownId(n: Names, id: string): string {
    if id in n.used then id
    else if KnownId(n, id) then n.standIns[id]
    else Fill(Shape(id), n.seed).0
  }

  function EnterId(n: Names, id: string): Names {
    if id in n.used || KnownId(n, id) then n
    else
      var (standIn, seed) := Fill(Shape(id), n.seed);
      Names(n.standIns[id := standIn], n.used + {standIn}, seed)
  }

  function ShownPort(ports: seq<Port>, port: string): string {
    if ShowsPort(ports, port) then port
    else if ShownFor(ports, port) != "" then ShownFor(ports, port)
    else PortText(FIRST_PORT + OfLength(ports, |port|), |port|)
  }

  /** A port is entered when it neither is shown nor has a stand-in. */
  function EnterPort(ports: seq<Port>, port: string): seq<Port> {
    if ShowsPort(ports, port) || ShownFor(ports, port) != "" then ports
    else Put(ports, port, ShownPort(ports, port))
  }

  function Shown(s: State, t: Token): string {
    match t
    case Id(id) => ShownId(s.names, id)
    case PortToken(port) => ShownPort(s.ports, port)
  }

  function Step(s: State, t: Token): State {
    match t
    case Id(id) => s.(names := EnterId(s.names, id))
    case PortToken(port) => s.(ports := EnterPort(s.ports, port))
  }

  /** The state after the first `n` tokens. */
  function After(daemon: Option<Port>, ts: seq<Token>, n: nat): State
    requires n <= |ts|
  {
    Run(Step, Fresh(daemon), ts[..n])
  }

  /** The token equals no stand-in issued so far. */
  predicate Unissued(s: State, t: Token) {
    if t.Id? then t.text !in s.names.used else !ShowsPort(s.ports, t.text)
  }

  // ---------------------------------------------------------------- stability

  lemma {:induction false} SeedNeverZero(daemon: Option<Port>, ts: seq<Token>)
    ensures Run(Step, Fresh(daemon), ts).names.seed != 0
  {
    forall s: State, t | s.names.seed != 0 ensures Step(s, t).names.seed != 0 {
      if t.Id? { FillLength(Shape(t.text), s.names.seed); }
    }
    RunKeeps(Step, (s: State) => s.names.seed != 0, Fresh(daemon), ts);
  }

  /** A stand-in, once assigned, is never replaced. */
  lemma {:induction false} AssignedForGood(s: State, ts: seq<Token>, id: string)
    requires KnownId(s.names, id)
    ensures var n := Run(Step, s, ts).names; KnownId(n, id) && n.standIns[id] == s.names.standIns[id]
  {
    var kept := (u: State) => KnownId(u.names, id) && u.names.standIns[id] == s.names.standIns[id];
    forall u: State, t | kept(u) ensures kept(Step(u, t)) {}
    RunKeeps(Step, kept, s, ts);
  }

  lemma {:induction false} PutKeeps(ports: seq<Port>, port: string, shown: string, other: string)
    requires other != port
    ensures ShownFor(Put(ports, port, shown), other) == ShownFor(ports, other)
  {
    if ports != [] && ports[0].real' != port { PutKeeps(ports[1..], port, shown, other); }
  }

  lemma {:induction false} PortAssignedForGood(s: State, ts: seq<Token>, port: string)
    requires ShownFor(s.ports, port) != ""
    ensures ShownFor(Run(Step, s, ts).ports, port) == ShownFor(s.ports, port)
  {
    var kept := (u: State) => ShownFor(u.ports, port) == ShownFor(s.ports, port);
    forall u: State, t | kept(u) ensures kept(Step(u, t)) {
      if t.PortToken? && t.text != port { PutKeeps(u.ports, t.text, ShownPort(u.ports, t.text), port); }
    }
    RunKeeps(Step, kept, s, ts);
  }

  lemma {:induction false} ShownForKnown(ports: seq<Port>, port: string)
    ensures HasPort(ports, port) ==> exists i :: 0 <= i < |ports| && ports[i].real' == port && ports[i].shown == ShownFor(ports, port)
    ensures !HasPort(ports, port) ==> ShownFor(ports, port) == ""
  {
    if ports != [] {
      ShownForKnown(ports[1..], port);
      if ports[0].real' == port {
        assert ports[0].shown == ShownFor(ports, port);
      } else {
        if HasPort(ports, port) {
          var i :| 0 <= i < |ports| && ports[i].real' == port;
          assert ports[1..][i - 1].real' == port;
        }
        if HasPort(ports[1..], port) {
          var i :| 0 <= i < |ports[1..]| && ports[1..][i].real' == port && ports[1..][i].shown == ShownFor(ports[1..], port);
          assert ports[i + 1].real' == port && ports[i + 1].shown == ShownFor(ports, port);
        }
      }
    }
  }

  /** A stand-in is as long as its id, and is remembered as used. */
  ghost predicate Kept(n: Names) {
    forall id :: id in n.standIns ==> |n.standIns[id]| == |id| && n.standIns[id] in n.used
  }

  lemma KeptStep(n: Names, id: string)
    requires Kept(n)
    ensures Kept(EnterId(n, id))
  {
    FillLength(Shape(id), n.seed);
  }

  lemma PortReapplied(ports: seq<Port>, port: string)
    ensures ShowsPort(EnterPort(ports, port), ShownPort(ports, port))
  {
    var entered := EnterPort(ports, port);
    if !ShowsPort(ports, port) {
      ShownForKnown(ports, port);
      if ShownFor(ports, port) == "" {
        var k := PutAt(ports, port, ShownPort(ports, port));
        assert entered[k].shown == ShownPort(ports, port);
      }
    }
  }

  /** On every run, applying the stand-ins to text that already shows them changes nothing. */
  lemma {:induction false} Reapplied(daemon: Option<Port>, ts: seq<Token>, t: Token)
    ensures var s := Run(Step, Fresh(daemon), ts);
      var again := if t.Id? then Id(Shown(s, t)) else PortToken(Shown(s, t));
      Shown(Step(s, t), again) == Shown(s, t) && Step(Step(s, t), again) == Step(s, t)
  {
    forall s: State, u | Kept(s.names) ensures Kept(Step(s, u).names) {
      if u.Id? { KeptStep(s.names, u.text); }
    }
    RunKeeps(Step, (s: State) => Kept(s.names), Fresh(daemon), ts);
    var s := Run(Step, Fresh(daemon), ts);
    if t.PortToken? { PortReapplied(s.ports, t.text); }
  }
}
