/** The stand-ins of ports are distinct. */
module PortStandIns {
  import opened Options
  import opened Runs
  import opened SetFacts
  import opened StandIns

  // ---------------------------------------------------------------- fixed-width decimals

  /** The last `length` decimal digits of a number. */
  function Fixed(n: nat, length: nat): string {
    if length == 0 then "" else Fixed(n / 10, length - 1) + [Digit(n)]
  }

  function Pow10(n: nat): nat {
    if n == 0 then 1 else 10 * Pow10(n - 1)
  }

  lemma {:induction false} PadSnoc(s: string, c: char, n: nat)
    requires n > 0
    ensures PadStart(s + [c], n) == PadStart(s, n - 1) + [c]
    decreases n - |s|
  {
    if |s| + 1 < n {
      PadSnoc("0" + s, c, n);
      assert "0" + (s + [c]) == ("0" + s) + [c];
    }
  }

  lemma {:induction false} PadZeros(n: nat)
    ensures PadStart("", n) == Fixed(0, n)
  {
    if n > 0 {
      PadZeros(n - 1);
      PadStep("", n);
      PadSnoc("", '0', n);
      assert "" + ['0'] == "0" + "";
    }
  }

  lemma PadStep(s: string, n: nat)
    requires |s| < n
    ensures PadStart(s, n) == PadStart("0" + s, n)
  {}

  /** Cutting and padding gives the last digits, zeros included. */
  lemma {:induction false} PortTextIsFixed(n: nat, length: nat)
    requires length > 0
    ensures PortText(n, length) == Fixed(n, length)
    decreases length
  {
    if n < 10 {
      assert Decimal(n) == "" + [Digit(n)];
      PadSnoc("", Digit(n), length);
      PadZeros(length - 1);
    } else if length == 1 {
      var d := Decimal(n / 10);
      assert LastChars(d + [Digit(n)], 1) == [Digit(n)];
      assert Fixed(n / 10, 0) == "";
    } else {
      PortTextIsFixed(n / 10, length - 1);
      var d := Decimal(n / 10);
      assert LastChars(d + [Digit(n)], length) == LastChars(d, length - 1) + [Digit(n)];
      PadSnoc(LastChars(d, length - 1), Digit(n), length);
    }
  }

  lemma {:induction false} FixedLength(n: nat, length: nat)
    ensures |Fixed(n, length)| == length
  {
    if length > 0 { FixedLength(n / 10, length - 1); }
  }

  /** Numbers less than 10^length apart do not share their last digits. */
  lemma {:induction false} FixedDiffers(a: nat, b: nat, length: nat)
    requires a < b < a + Pow10(length)
    ensures Fixed(a, length) != Fixed(b, length)
  {
    if length > 0 && Fixed(a, length) == Fixed(b, length) {
      var x, y := Fixed(a / 10, length - 1), Fixed(b / 10, length - 1);
      FixedLength(a / 10, length - 1);
      FixedLength(b / 10, length - 1);
      assert (x + [Digit(a)])[length - 1] == Digit(a) && (y + [Digit(b)])[length - 1] == Digit(b);
      assert (x + [Digit(a)])[..length - 1] == x && (y + [Digit(b)])[..length - 1] == y;
      assert a % 10 == b % 10;
      FixedDiffers(a / 10, b / 10, length - 1);
    }
  }

  // ---------------------------------------------------------------- how many ports there can be

  predicate Digits(s: string) {
    forall i :: 0 <= i < |s| ==> '0' <= s[i] <= '9'
  }

  function Value(s: string): nat
    requires Digits(s)
  {
    if s == "" then 0 else 10 * Value(s[..|s| - 1]) + (s[|s| - 1] as int - '0' as int)
  }

  lemma {:induction false} ValueBound(s: string)
    requires Digits(s)
    ensures Value(s) < Pow10(|s|)
  {
    if s != "" { ValueBound(s[..|s| - 1]); }
  }

  lemma {:induction false} ValueInjective(a: string, b: string)
    requires Digits(a) && Digits(b) && |a| == |b| && Value(a) == Value(b)
    ensures a == b
  {
    if a != "" {
      var n := |a| - 1;
      assert a == a[..n] + [a[n]] && b == b[..n] + [b[n]];
      ValueInjective(a[..n], b[..n]);
    }
  }

  ghost predicate DistinctPorts(ports: seq<Port>) {
    && (forall i, j :: 0 <= i < j < |ports| ==> ports[i].real' != ports[j].real')
    && (forall i :: 0 <= i < |ports| ==> Digits(ports[i].real'))
  }

  ghost function Reals(ports: seq<Port>, length: nat): set<string> {
    set i | 0 <= i < |ports| && |ports[i].real'| == length :: ports[i].real'
  }

  lemma {:induction false} OfLengthIsSize(ports: seq<Port>, length: nat)
    requires DistinctPorts(ports)
    ensures OfLength(ports, length) == |Reals(ports, length)|
    decreases |ports|
  {
    if ports == [] {
      assert Reals(ports, length) == {};
    } else {
      OfLengthIsSize(ports[..|ports| - 1], length);
      RealsSnoc(ports, length);
      LastIsNew(ports, length);
    }
  }

  lemma LastIsNew(ports: seq<Port>, length: nat)
    requires DistinctPorts(ports) && ports != []
    ensures ports[|ports| - 1].real' !in Reals(ports[..|ports| - 1], length)
  {}

  lemma RealsSnoc(ports: seq<Port>, length: nat)
    requires ports != []
    ensures var last := |ports| - 1;
      Reals(ports, length) == Reals(ports[..last], length) + if |ports[last].real'| == length then {ports[last].real'} else {}
  {
    var last := |ports| - 1;
    var init := ports[..last];
    forall x | x in Reals(ports, length)
      ensures x in Reals(init, length) || (|ports[last].real'| == length && x == ports[last].real')
    {
      var i :| 0 <= i < |ports| && |ports[i].real'| == length && ports[i].real' == x;
      if i < last { assert init[i].real' == x; }
    }
    forall x | x in Reals(init, length) ensures x in Reals(ports, length) {
      var i :| 0 <= i < |init| && |init[i].real'| == length && init[i].real' == x;
      assert ports[i].real' == x;
    }
  }

  /** There are no more ports of a length than decimal numbers of that length. */
  lemma FewPorts(ports: seq<Port>, length: nat)
    requires DistinctPorts(ports)
    ensures OfLength(ports, length) <= Pow10(length)
  {
    OfLengthIsSize(ports, length);
    var reals := Reals(ports, length);
    forall x | x in reals ensures Digits(x) && |x| == length && Value(x) < Pow10(length) {
      var i :| 0 <= i < |ports| && |ports[i].real'| == length && ports[i].real' == x;
      ValueBound(x);
    }
    var value := map x | x in reals :: Value(x);
    forall x, y | x in reals && y in reals && value[x] == value[y] ensures x == y { ValueInjective(x, y); }
    BelowSize(Pow10(length));
    InjectionBounds(reals, Below(Pow10(length)), value);
  }

  // ---------------------------------------------------------------- distinct stand-ins

  /** How many ports of its length came before a port. */
  ghost function Rank(ports: seq<Port>, i: nat): nat
    requires i < |ports|
  {
    OfLength(ports[..i], |ports[i].real'|)
  }

  ghost predicate NumberedAt(ports: seq<Port>, i: nat)
    requires i < |ports|
  {
    var length := |ports[i].real'|;
    length > 0 && ports[i].shown == Fixed(FIRST_PORT + Rank(ports, i), length)
  }

  /** From entry `base` on, every port was numbered among those of its length. */
  ghost predicate Numbered(ports: seq<Port>, base: nat) {
    && DistinctPorts(ports)
    && (forall i :: base <= i < |ports| ==> NumberedAt(ports, i))
  }

  lemma {:induction false} OfLengthGrows(ports: seq<Port>, i: nat, j: nat, length: nat)
    requires i <= j <= |ports|
    ensures OfLength(ports[..i], length) <= OfLength(ports[..j], length)
    decreases j
  {
    if i < j {
      OfLengthGrows(ports, i, j - 1, length);
      assert ports[..j][..j - 1] == ports[..j - 1];
    }
  }

  lemma OfLengthAt(ports: seq<Port>, i: nat)
    requires i < |ports|
    ensures OfLength(ports[..i + 1], |ports[i].real'|) == OfLength(ports[..i], |ports[i].real'|) + 1
  {
    assert ports[..i + 1][..i] == ports[..i];
  }

  /** Among ports of one length, ranks increase and stay below the number of such ports. */
  lemma RanksIncrease(ports: seq<Port>, i: nat, j: nat)
    requires DistinctPorts(ports) && i < j < |ports| && |ports[i].real'| == |ports[j].real'|
    ensures Rank(ports, i) < Rank(ports, j) < Pow10(|ports[j].real'|)
  {
    OfLengthAt(ports, i);
    OfLengthGrows(ports, i + 1, j, |ports[i].real'|);
    OfLengthAt(ports, j);
    FewPorts(ports[..j + 1], |ports[j].real'|);
  }

  /** Two ports numbered by the page never share a stand-in. */
  lemma NumberedDistinct(ports: seq<Port>, base: nat, i: nat, j: nat)
    requires Numbered(ports, base) && base <= i < j < |ports|
    ensures ports[i].shown != ports[j].shown
  {
    assert NumberedAt(ports, i) && NumberedAt(ports, j);
    var m, n := FIRST_PORT + Rank(ports, i), FIRST_PORT + Rank(ports, j);
    FixedLength(m, |ports[i].real'|);
    FixedLength(n, |ports[j].real'|);
    if |ports[i].real'| == |ports[j].real'| {
      RanksIncrease(ports, i, j);
      FixedDiffers(m, n, |ports[i].real'|);
    }
  }

  /** A token the page's pattern for ports can hand over, or an id. */
  predicate Proper(t: Token) {
    t.PortToken? ==> Digits(t.text) && |t.text| > 0
  }

  function ProperStep(s: State, t: Token): State {
    if Proper(t) then Step(s, t) else s
  }

  lemma NumberedSnoc(ports: seq<Port>, p: Port, base: nat)
    requires Numbered(ports, base) && !HasPort(ports, p.real') && Digits(p.real') && |p.real'| > 0
    requires p.shown == Fixed(FIRST_PORT + OfLength(ports, |p.real'|), |p.real'|)
    ensures Numbered(ports + [p], base)
  {
    var more := ports + [p];
    assert more[..|ports|] == ports;
    forall i | base <= i < |more| ensures NumberedAt(more, i) {
      if i < |ports| { assert more[..i] == ports[..i] && NumberedAt(ports, i); }
    }
  }

  lemma {:induction false} OfLengthReals(ps: seq<Port>, qs: seq<Port>, length: nat)
    requires |ps| == |qs| && forall i :: 0 <= i < |ps| ==> ps[i].real' == qs[i].real'
    ensures OfLength(ps, length) == OfLength(qs, length)
    decreases |ps|
  {
    if ps != [] { OfLengthReals(ps[..|ps| - 1], qs[..|qs| - 1], length); }
  }

  lemma NumberedUpdate(ports: seq<Port>, k: nat, shown: string, base: nat)
    requires Numbered(ports, base) && k < base <= |ports|
    ensures Numbered(ports[k := Port(ports[k].real', shown)], base)
  {
    var changed := ports[k := Port(ports[k].real', shown)];
    forall i | base <= i < |ports| ensures NumberedAt(changed, i) {
      assert NumberedAt(ports, i);
      OfLengthReals(ports[..i], changed[..i], |ports[i].real'|);
    }
  }

  lemma NumberedShown(ports: seq<Port>, base: nat, i: nat)
    requires Numbered(ports, base) && base <= i < |ports|
    ensures ports[i].shown != ""
  {
    assert NumberedAt(ports, i);
    FixedLength(FIRST_PORT + Rank(ports, i), |ports[i].real'|);
  }

  lemma NumberedPut(ports: seq<Port>, port: string, shown: string, base: nat)
    requires Numbered(ports, base) && Digits(port) && |port| > 0 && base <= |ports|
    requires ShownFor(ports, port) == "" && shown == Fixed(FIRST_PORT + OfLength(ports, |port|), |port|)
    ensures Numbered(Put(ports, port, shown), base) && base <= |Put(ports, port, shown)|
  {
    var k := PutAt(ports, port, shown);
    if k == |ports| {
      NumberedSnoc(ports, Port(port, shown), base);
    } else {
      forall i | base <= i < |ports| ensures ports[i].shown != "" { NumberedShown(ports, base, i); }
      NumberedUpdate(ports, k, shown, base);
    }
  }

  lemma EnterNumbered(ports: seq<Port>, port: string, base: nat)
    requires Numbered(ports, base) && Digits(port) && |port| > 0 && base <= |ports|
    ensures Numbered(EnterPort(ports, port), base) && base <= |EnterPort(ports, port)|
  {
    if !ShowsPort(ports, port) && ShownFor(ports, port) == "" {
      PortTextIsFixed(FIRST_PORT + OfLength(ports, |port|), |port|);
      NumberedPut(ports, port, ShownPort(ports, port), base);
    }
  }

  lemma NumberedStep(s: State, t: Token, base: nat)
    requires Numbered(s.ports, base) && base <= |s.ports|
    ensures Numbered(ProperStep(s, t).ports, base) && base <= |ProperStep(s, t).ports|
  {
    if Proper(t) && t.PortToken? { EnterNumbered(s.ports, t.text, base); }
  }

  /** Every rank below the number of ports of a length is some port's. */
  lemma {:induction false} RankExists(ports: seq<Port>, length: nat, k: nat) returns (j: nat)
    requires k < OfLength(ports, length)
    ensures j < |ports| && |ports[j].real'| == length && Rank(ports, j) == k
    decreases |ports|
  {
    var last := |ports| - 1;
    if |ports[last].real'| == length && OfLength(ports[..last], length) == k {
      j := last;
    } else {
      j := RankExists(ports[..last], length, k);
      assert ports[..last][..j] == ports[..j];
    }
  }

  /** One of the numbers handed out to ports as long as `shown` reads like it; the first number is
      skipped if the daemon's own port has that length. */
  ghost predicate HandedOut(ports: seq<Port>, shown: string)
    requires ports != []
  {
    exists k: nat :: (|ports[0].real'| == |shown| ==> k > 0) && k < OfLength(ports, |shown|) && Reads(shown, k)
  }

  predicate Reads(shown: string, k: nat) {
    shown == Fixed(FIRST_PORT + k, |shown|)
  }

  lemma CoincidingIsHandedOut(ports: seq<Port>, j: nat)
    requires Numbered(ports, 1) && 1 <= j < |ports| && ports[j].shown == ports[0].shown
    ensures HandedOut(ports, ports[0].shown)
  {
    var shown := ports[0].shown;
    assert NumberedAt(ports, j);
    FixedLength(FIRST_PORT + Rank(ports, j), |ports[j].real'|);
    assert Reads(shown, Rank(ports, j));
    OfLengthAt(ports, j);
    OfLengthGrows(ports, j + 1, |ports|, |shown|);
    assert ports[..|ports|] == ports;
    if |ports[0].real'| == |shown| { RanksIncrease(ports, 0, j); }
  }

  lemma HandedOutCoincides(ports: seq<Port>) returns (j: nat)
    requires Numbered(ports, 1) && ports != [] && HandedOut(ports, ports[0].shown)
    ensures 1 <= j < |ports| && ports[j].shown == ports[0].shown
  {
    var shown := ports[0].shown;
    var k: nat :| (|ports[0].real'| == |shown| ==> k > 0) && k < OfLength(ports, |shown|) && Reads(shown, k);
    j := RankExists(ports, |shown|, k);
    assert Rank(ports, 0) == 0 by { assert ports[..0] == []; }
    assert j > 0;
    assert NumberedAt(ports, j);
  }

  /** The port shown for the daemon's own is not numbered. A numbered one coincides with it exactly
      when its number was handed out. */
  lemma DaemonCoincides(ports: seq<Port>)
    requires Numbered(ports, 1) && ports != []
    ensures (exists j :: 1 <= j < |ports| && ports[j].shown == ports[0].shown) <==> HandedOut(ports, ports[0].shown)
  {
    if j :| 1 <= j < |ports| && ports[j].shown == ports[0].shown { CoincidingIsHandedOut(ports, j); }
    if HandedOut(ports, ports[0].shown) { var _ := HandedOutCoincides(ports); }
  }

  lemma {:induction false} RunNumbered(daemon: Option<Port>, ts: seq<Token>)
    requires daemon.Some? ==> Digits(daemon.value.real')
    ensures var base := if daemon.Some? then 1 else 0;
      var ports := Run(ProperStep, Fresh(daemon), ts).ports; Numbered(ports, base) && base <= |ports|
  {
    var base := if daemon.Some? then 1 else 0;
    var inv := (s: State) => Numbered(s.ports, base) && base <= |s.ports|;
    forall s: State, t | inv(s) ensures inv(ProperStep(s, t)) { NumberedStep(s, t, base); }
    RunKeeps(ProperStep, inv, Fresh(daemon), ts);
  }

  /** On every run, with or without a daemon port given at the start, all ports the page numbers get
      different stand-ins. */
  lemma PortsDistinct(daemon: Option<Port>, ts: seq<Token>, i: nat, j: nat)
    requires daemon.Some? ==> Digits(daemon.value.real')
    requires (if daemon.Some? then 1 else 0) <= i < j < |Run(ProperStep, Fresh(daemon), ts).ports|
    ensures var ports := Run(ProperStep, Fresh(daemon), ts).ports; ports[i].shown != ports[j].shown
  {
    RunNumbered(daemon, ts);
    NumberedDistinct(Run(ProperStep, Fresh(daemon), ts).ports, if daemon.Some? then 1 else 0, i, j);
  }

  /** So on every run, all stand-ins of ports differ, the daemon's included, exactly when the
      daemon's does not read like a number handed out. */
  lemma AllDistinct(daemon: Port, ts: seq<Token>)
    requires Digits(daemon.real')
    ensures var ports := Run(ProperStep, Fresh(Some(daemon)), ts).ports;
      && ports != []
      && ((forall i, j :: 0 <= i < j < |ports| ==> ports[i].shown != ports[j].shown)
          <==> !HandedOut(ports, ports[0].shown))
  {
    RunNumbered(Some(daemon), ts);
    var ports := Run(ProperStep, Fresh(Some(daemon)), ts).ports;
    DaemonCoincides(ports);
    forall i, j | 1 <= i < j < |ports| ensures ports[i].shown != ports[j].shown { NumberedDistinct(ports, 1, i, j); }
  }

  /** It can happen. */
  lemma DaemonMayCoincide()
    ensures var ports := Step(Fresh(Some(Port("40000", "54322"))), PortToken("50000")).ports;
      |ports| == 2 && ports[0].shown == ports[1].shown
  {
    var s := Fresh(Some(Port("40000", "54322")));
    assert s.ports[..0] == [] && s.ports[1..] == [];
    assert OfLength(s.ports, 5) == 1;
    PortTextIsFixed(54322, 5);
    SecondPort();
  }

  lemma SecondPort()
    ensures Fixed(54322, 5) == "54322"
  {
    assert Fixed(5, 1) == "" + [Digit(5)] == "5";
    assert Fixed(54, 2) == Fixed(5, 1) + [Digit(54)] == "54";
    assert Fixed(543, 3) == Fixed(54, 2) + [Digit(543)] == "543";
    assert Fixed(5432, 4) == Fixed(543, 3) + [Digit(5432)] == "5432";
  }

  // ---------------------------------------------------------------- two ports on one page

  /** Another port is shown like a numbered one exactly when it is that one's stand-in, which is
      left as it is. */
  lemma ShownLike(ports: seq<Port>, base: nat, p: nat, y: string)
    requires Numbered(ports, base) && base <= p < |ports| && y != ports[p].real' && Digits(y) && |y| > 0
    requires forall k :: 0 <= k < base ==> ports[k].real' != y
    ensures ShownPort(ports, y) == ports[p].shown <==> y == ports[p].shown
  {
    if !ShowsPort(ports, y) {
      if ShownFor(ports, y) != "" {
        ShownForKnown(ports, y);
        var q :| 0 <= q < |ports| && ports[q].real' == y && ports[q].shown == ShownFor(ports, y);
        if q < p { NumberedDistinct(ports, base, q, p); } else { NumberedDistinct(ports, base, p, q); }
      } else {
        NewApart(ports, base, p, y);
      }
    }
  }

  lemma NewApart(ports: seq<Port>, base: nat, p: nat, y: string)
    requires Numbered(ports, base) && base <= p < |ports| && Digits(y) && |y| > 0
    requires forall k :: 0 <= k < base ==> ports[k].real' != y
    requires !ShowsPort(ports, y) && ShownFor(ports, y) == ""
    ensures ShownPort(ports, y) != ports[p].shown
  {
    var shown := ShownPort(ports, y);
    EnterNumbered(ports, y, base);
    var k := PutAt(ports, y, shown);
    if k < |ports| { NumberedShown(ports, base, k); } else { NumberedDistinct(ports + [Port(y, shown)], base, p, k); }
  }

  lemma {:induction false} PutGives(ports: seq<Port>, port: string, shown: string)
    ensures ShownFor(Put(ports, port, shown), port) == shown
  {
    if ports != [] && ports[0].real' != port { PutGives(ports[1..], port, shown); }
  }

  lemma NewNonEmpty(ports: seq<Port>, port: string)
    requires !ShowsPort(ports, port) && ShownFor(ports, port) == "" && |port| > 0
    ensures ShownPort(ports, port) != ""
  {
    var n := FIRST_PORT + OfLength(ports, |port|);
    PortTextIsFixed(n, |port|);
    FixedLength(n, |port|);
  }

  /** A port that is not itself a stand-in is known from then on under what it is shown as. */
  lemma EnteredKnown(ports: seq<Port>, port: string)
    requires !ShowsPort(ports, port) && |port| > 0
    ensures ShownFor(EnterPort(ports, port), port) == ShownPort(ports, port) != ""
  {
    if ShownFor(ports, port) == "" {
      NewNonEmpty(ports, port);
      PutGives(ports, port, ShownPort(ports, port));
    }
  }

  ghost predicate AllProper(ts: seq<Token>) {
    forall k :: 0 <= k < |ts| ==> Proper(ts[k])
  }

  lemma {:induction false} ProperRun(s: State, ts: seq<Token>)
    requires AllProper(ts)
    ensures Run(ProperStep, s, ts) == Run(Step, s, ts)
    decreases |ts|
  {
    if ts != [] { ProperRun(s, ts[..|ts| - 1]); }
  }

  lemma FirstKept(ports: seq<Port>, port: string)
    requires ports != []
    ensures EnterPort(ports, port) != [] && EnterPort(ports, port)[0].real' == ports[0].real'
  {}

  lemma DaemonFirst(daemon: Port, ts: seq<Token>)
    ensures var ports := Run(Step, Fresh(Some(daemon)), ts).ports; ports != [] && ports[0].real' == daemon.real'
  {
    var first := (s: State) => s.ports != [] && s.ports[0].real' == daemon.real';
    forall s: State, t | first(s) ensures first(Step(s, t)) {
      if t.PortToken? { FirstKept(s.ports, t.text); }
    }
    RunKeeps(Step, first, Fresh(Some(daemon)), ts);
  }

  lemma KnownNext(daemon: Option<Port>, ts: seq<Token>, i: nat)
    requires i < |ts| && ts[i].PortToken? && |ts[i].text| > 0 && Unissued(After(daemon, ts, i), ts[i])
    ensures ShownFor(After(daemon, ts, i + 1).ports, ts[i].text) == Shown(After(daemon, ts, i), ts[i]) != ""
  {
    RunSnoc(Step, Fresh(daemon), ts, i);
    var s := After(daemon, ts, i);
    assert After(daemon, ts, i + 1) == Step(s, ts[i]);
    EnteredKnown(s.ports, ts[i].text);
  }

  lemma KnownLater(daemon: Option<Port>, ts: seq<Token>, k: nat, port: string)
    requires k <= |ts| && ShownFor(After(daemon, ts, k).ports, port) != ""
    ensures ShownFor(Run(Step, Fresh(daemon), ts).ports, port) == ShownFor(After(daemon, ts, k).ports, port)
  {
    PortAssignedForGood(After(daemon, ts, k), ts[k..], port);
    RunSplit(Step, Fresh(daemon), ts[..k], ts[k..]);
    assert ts[..k] + ts[k..] == ts;
  }

  /** On every run: a port that was no stand-in when it came, and a different port looked up after
      any further tokens, neither being the daemon's, are shown alike exactly when the second is
      the stand-in of the first. So two ports that are no stand-ins are shown differently. */
  lemma {:induction false} PortsShownApart(daemon: Option<Port>, ts: seq<Token>, i: nat, y: string)
    requires AllProper(ts) && Proper(PortToken(y)) && (daemon.Some? ==> Digits(daemon.value.real'))
    requires i < |ts| && ts[i].PortToken? && Unissued(After(daemon, ts, i), ts[i]) && y != ts[i].text
    requires daemon.Some? ==> daemon.value.real' != ts[i].text && daemon.value.real' != y
    ensures var shown := Shown(After(daemon, ts, i), ts[i]);
      Shown(Run(Step, Fresh(daemon), ts), PortToken(y)) == shown <==> y == shown
  {
    var base, ports := if daemon.Some? then 1 else 0, Run(Step, Fresh(daemon), ts).ports;
    assert Proper(ts[i]);
    ProperRun(Fresh(daemon), ts);
    RunNumbered(daemon, ts);
    if daemon.Some? { DaemonFirst(daemon.value, ts); }
    KnownNext(daemon, ts, i);
    KnownLater(daemon, ts, i + 1, ts[i].text);
    ShownForKnown(ports, ts[i].text);
    var p :| 0 <= p < |ports| && ports[p].real' == ts[i].text && ports[p].shown == ShownFor(ports, ts[i].text);
    ShownLike(ports, base, p, y);
  }

  /** Without that condition two ports are shown alike: the second is the stand-in of the first. */
  lemma RealMayCoincide()
    ensures Shown(Fresh(None), PortToken("40000")) == "54321"
    ensures Shown(Step(Fresh(None), PortToken("40000")), PortToken("54321")) == "54321"
  {
    assert OfLength([], 5) == 0;
    PortTextIsFixed(54321, 5);
    FirstPort();
    assert EnterPort([], "40000")[0].shown == "54321";
  }

  lemma FirstPort()
    ensures Fixed(54321, 5) == "54321"
  {
    assert Fixed(5, 1) == "" + [Digit(5)] == "5";
    assert Fixed(54, 2) == Fixed(5, 1) + [Digit(54)] == "54";
    assert Fixed(543, 3) == Fixed(54, 2) + [Digit(543)] == "543";
    assert Fixed(5432, 4) == Fixed(543, 3) + [Digit(5432)] == "5432";
  }
}
