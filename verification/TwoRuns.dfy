/** Two recordings of the same session look the same, although every id and port in them differs. */
module TwoRuns {
  import opened Options
  import opened Runs
  import opened StandIns

  /** No real value of the run equals a stand-in that was already issued. */
  ghost predicate Clean(daemon: Option<Port>, ts: seq<Token>) {
    forall i :: 0 <= i < |ts| ==> Unissued(After(daemon, ts, i), ts[i])
  }

  predicate SameShape(x: Token, y: Token) {
    x.Id? == y.Id? && if x.Id? then Shape(x.text) == Shape(y.text) else |x.text| == |y.text|
  }

  predicate SameDaemon(a: Option<Port>, b: Option<Port>) {
    a.Some? == b.Some? && (a.Some? ==> a.value.shown == b.value.shown && |a.value.real'| == |b.value.real'|)
  }

  /** Position by position the tokens have the same shape... */
  ghost predicate SameShapes(a: seq<Token>, b: seq<Token>) {
    |a| == |b| && forall i :: 0 <= i < |a| ==> SameShape(a[i], b[i])
  }

  /** ... and they repeat in the same places. */
  ghost predicate SamePattern(a: seq<Token>, b: seq<Token>)
    requires |a| == |b|
  {
    forall i, j :: 0 <= i < j < |a| ==> (a[i] == a[j] <==> b[i] == b[j])
  }

  ghost predicate SameDaemonPattern(da: Option<Port>, a: seq<Token>, db: Option<Port>, b: seq<Token>)
    requires |a| == |b|
  {
    && SameDaemon(da, db)
    && (da.Some? ==> forall i :: 0 <= i < |a| ==> (a[i] == PortToken(da.value.real') <==> b[i] == PortToken(db.value.real')))
  }

  ghost predicate Alike(da: Option<Port>, a: seq<Token>, db: Option<Port>, b: seq<Token>) {
    SameShapes(a, b) && SamePattern(a, b) && SameDaemonPattern(da, a, db, b)
  }

  // ---------------------------------------------------------------- ids

  /** The ids among the first `n` tokens. */
  function Seen(ts: seq<Token>, n: nat): set<string>
    requires n <= |ts|
  {
    if n == 0 then {} else Seen(ts, n - 1) + if ts[n - 1].Id? then {ts[n - 1].text} else {}
  }

  lemma {:induction false} SeenAt(ts: seq<Token>, n: nat, id: string) returns (i: nat)
    requires n <= |ts| && id in Seen(ts, n)
    ensures i < n && ts[i] == Id(id)
  {
    if ts[n - 1] == Id(id) { i := n - 1; } else { i := SeenAt(ts, n - 1, id); }
  }

  lemma {:induction false} SeenToo(ts: seq<Token>, n: nat, i: nat)
    requires i < n <= |ts| && ts[i].Id?
    ensures ts[i].text in Seen(ts, n)
  {
    if i < n - 1 { SeenToo(ts, n - 1, i); }
  }

  /** An id of one run was seen before exactly when its counterpart was. */
  lemma SeenAlike(a: seq<Token>, b: seq<Token>, n: nat)
    requires SameShapes(a, b) && SamePattern(a, b) && n < |a| && a[n].Id?
    ensures a[n].text in Seen(a, n) <==> b[n].text in Seen(b, n)
  {
    assert SameShape(a[n], b[n]);
    if a[n].text in Seen(a, n) {
      var i := SeenAt(a, n, a[n].text);
      assert SameShape(a[i], b[i]) && b[i] == b[n];
      SeenToo(b, n, i);
    }
    if b[n].text in Seen(b, n) {
      var i := SeenAt(b, n, b[n].text);
      assert SameShape(a[i], b[i]) && a[i] == a[n];
      SeenToo(a, n, i);
    }
  }

  /** The two pages know the ids seen so far, corresponding ones under the same stand-ins. */
  ghost predicate NamesAgree(m: Names, k: Names, a: seq<Token>, b: seq<Token>, n: nat)
    requires n <= |a| == |b|
  {
    && m.seed == k.seed && Kept(m) && Kept(k)
    && m.standIns.Keys == Seen(a, n) && k.standIns.Keys == Seen(b, n)
    && (forall i :: 0 <= i < n && a[i].Id? && b[i].Id? ==> SameStandIn(m, k, a[i].text, b[i].text))
  }

  ghost predicate SameStandIn(m: Names, k: Names, x: string, y: string) {
    x in m.standIns && y in k.standIns && m.standIns[x] == k.standIns[y]
  }

  lemma KnownWhenKept(n: Names, id: string)
    requires Kept(n) && id !in n.used
    ensures KnownId(n, id) <==> id in n.standIns
  {}

  lemma NamesStep(m: Names, k: Names, a: seq<Token>, b: seq<Token>, n: nat)
    requires SameShapes(a, b) && SamePattern(a, b) && n < |a| && a[n].Id?
    requires NamesAgree(m, k, a, b, n) && a[n].text !in m.used && b[n].text !in k.used
    ensures NamesAgree(EnterId(m, a[n].text), EnterId(k, b[n].text), a, b, n + 1)
    ensures ShownId(m, a[n].text) == ShownId(k, b[n].text)
  {
    var x, y := a[n].text, b[n].text;
    assert SameShape(a[n], b[n]);
    SeenAlike(a, b, n);
    KnownWhenKept(m, x);
    KnownWhenKept(k, y);
    if x in Seen(a, n) {
      var i := SeenAt(a, n, x);
      assert SameShape(a[i], b[i]) && b[i] == b[n];
      assert SameStandIn(m, k, a[i].text, b[i].text);
    } else {
      KeptStep(m, x);
      KeptStep(k, y);
      NewNames(m, k, a, b, n);
    }
  }

  lemma NewNames(m: Names, k: Names, a: seq<Token>, b: seq<Token>, n: nat)
    requires n < |a| == |b| && a[n].Id? && b[n].Id? && Shape(a[n].text) == Shape(b[n].text)
    requires NamesAgree(m, k, a, b, n) && a[n].text !in Seen(a, n) && b[n].text !in Seen(b, n)
    requires a[n].text !in m.used && b[n].text !in k.used
    ensures var m', k' := EnterId(m, a[n].text), EnterId(k, b[n].text);
      && m'.seed == k'.seed
      && m'.standIns.Keys == Seen(a, n + 1) && k'.standIns.Keys == Seen(b, n + 1)
      && (forall i :: 0 <= i < n + 1 && a[i].Id? && b[i].Id? ==> SameStandIn(m', k', a[i].text, b[i].text))
  {
    var m', k' := EnterId(m, a[n].text), EnterId(k, b[n].text);
    forall i | 0 <= i < n + 1 && a[i].Id? && b[i].Id? ensures SameStandIn(m', k', a[i].text, b[i].text) {
      if i < n { assert SameStandIn(m, k, a[i].text, b[i].text); }
    }
  }

  lemma NamesLater(m: Names, k: Names, a: seq<Token>, b: seq<Token>, n: nat)
    requires n < |a| == |b| && !a[n].Id? && !b[n].Id? && NamesAgree(m, k, a, b, n)
    ensures NamesAgree(m, k, a, b, n + 1)
  {}

  // ---------------------------------------------------------------- ports

  /** The entries correspond, and so do their matches with `x` and `y`. */
  ghost predicate Matched(ps: seq<Port>, qs: seq<Port>, x: string, y: string) {
    && |ps| == |qs|
    && (forall k :: 0 <= k < |ps| ==>
          ps[k].shown == qs[k].shown && |ps[k].real'| == |qs[k].real'| && (ps[k].real' == x <==> qs[k].real' == y))
  }

  lemma {:induction false} MatchedShown(ps: seq<Port>, qs: seq<Port>, x: string, y: string)
    requires Matched(ps, qs, x, y)
    ensures ShownFor(ps, x) == ShownFor(qs, y)
  {
    if ps != [] { MatchedShown(ps[1..], qs[1..], x, y); }
  }

  lemma {:induction false} MatchedLengths(ps: seq<Port>, qs: seq<Port>, length: nat)
    requires |ps| == |qs| && forall k :: 0 <= k < |ps| ==> |ps[k].real'| == |qs[k].real'|
    ensures OfLength(ps, length) == OfLength(qs, length)
    decreases |ps|
  {
    if ps != [] { MatchedLengths(ps[..|ps| - 1], qs[..|qs| - 1], length); }
  }

  /** Where an entry came from: token `from`, or the daemon's port for -1. */
  predicate CameFrom(daemon: Option<Port>, ts: seq<Token>, n: nat, p: Port, from: int)
    requires n <= |ts|
  {
    if from == -1 then daemon.Some? && p.real' == daemon.value.real'
    else 0 <= from < n && ts[from] == PortToken(p.real')
  }

  /** The two lists of ports have the same stand-ins for corresponding tokens. */
  ghost predicate PortsAgree(ps: seq<Port>, qs: seq<Port>, from: seq<int>,
                             da: Option<Port>, a: seq<Token>, db: Option<Port>, b: seq<Token>, n: nat)
    requires n <= |a| == |b|
  {
    && |ps| == |qs| == |from|
    && (forall k :: 0 <= k < |ps| ==>
          && ps[k].shown == qs[k].shown && |ps[k].real'| == |qs[k].real'|
          && CameFrom(da, a, n, ps[k], from[k]) && CameFrom(db, b, n, qs[k], from[k]))
  }

  lemma AgreeMatches(ps: seq<Port>, qs: seq<Port>, from: seq<int>,
                     da: Option<Port>, a: seq<Token>, db: Option<Port>, b: seq<Token>, n: nat)
    requires Alike(da, a, db, b) && n < |a| && a[n].PortToken? && PortsAgree(ps, qs, from, da, a, db, b, n)
    ensures Matched(ps, qs, a[n].text, b[n].text)
  {
    assert SameShape(a[n], b[n]);
    forall k | 0 <= k < |ps| ensures ps[k].real' == a[n].text <==> qs[k].real' == b[n].text {
      if from[k] != -1 { assert a[from[k]] == a[n] <==> b[from[k]] == b[n]; }
    }
  }

  /** The stand-in shown depends only on what the two lists have in common. */
  lemma MatchedPort(ps: seq<Port>, qs: seq<Port>, x: string, y: string)
    requires Matched(ps, qs, x, y) && |x| == |y| && !ShowsPort(ps, x) && !ShowsPort(qs, y)
    ensures ShownPort(ps, x) == ShownPort(qs, y)
    ensures ShownFor(ps, x) == ShownFor(qs, y)
  {
    MatchedShown(ps, qs, x, y);
    MatchedLengths(ps, qs, |x|);
  }

  lemma PortsStep(ps: seq<Port>, qs: seq<Port>, from: seq<int>,
                  da: Option<Port>, a: seq<Token>, db: Option<Port>, b: seq<Token>, n: nat) returns (from': seq<int>)
    requires Alike(da, a, db, b) && n < |a| && a[n].PortToken? && PortsAgree(ps, qs, from, da, a, db, b, n)
    requires !ShowsPort(ps, a[n].text) && !ShowsPort(qs, b[n].text)
    ensures PortsAgree(EnterPort(ps, a[n].text), EnterPort(qs, b[n].text), from', da, a, db, b, n + 1)
    ensures ShownPort(ps, a[n].text) == ShownPort(qs, b[n].text)
  {
    assert SameShape(a[n], b[n]);
    AgreeMatches(ps, qs, from, da, a, db, b, n);
    MatchedPort(ps, qs, a[n].text, b[n].text);
    if ShownFor(ps, a[n].text) == "" {
      from' := PortsPut(ps, qs, from, da, a, db, b, n, ShownPort(ps, a[n].text));
    } else {
      from' := from;
      PortsLater(ps, qs, from, da, a, db, b, n);
    }
  }

  lemma PortsPut(ps: seq<Port>, qs: seq<Port>, from: seq<int>,
                 da: Option<Port>, a: seq<Token>, db: Option<Port>, b: seq<Token>, n: nat, shown: string)
    returns (from': seq<int>)
    requires n < |a| == |b| && a[n].PortToken? && SameShape(a[n], b[n]) && PortsAgree(ps, qs, from, da, a, db, b, n)
    requires Matched(ps, qs, a[n].text, b[n].text)
    ensures PortsAgree(Put(ps, a[n].text, shown), Put(qs, b[n].text, shown), from', da, a, db, b, n + 1)
  {
    var k := PutAt(ps, a[n].text, shown);
    var l := PutAt(qs, b[n].text, shown);
    SamePlace(ps, qs, a[n].text, b[n].text, k, l);
    PortsLater(ps, qs, from, da, a, db, b, n);
    if k < |ps| {
      from' := from;
      PortsUpdated(ps, qs, from, da, a, db, b, n + 1, k, shown);
    } else {
      from' := from + [n];
      PortsSnoc(ps, qs, from, da, a, db, b, n, shown);
    }
  }

  lemma SamePlace(ps: seq<Port>, qs: seq<Port>, x: string, y: string, k: nat, l: nat)
    requires Matched(ps, qs, x, y) && k <= |ps| && l <= |qs|
    requires (forall i :: 0 <= i < k ==> ps[i].real' != x) && (k < |ps| ==> ps[k].real' == x)
    requires (forall i :: 0 <= i < l ==> qs[i].real' != y) && (l < |qs| ==> qs[l].real' == y)
    ensures k == l
  {}

  lemma PortsLater(ps: seq<Port>, qs: seq<Port>, from: seq<int>,
                   da: Option<Port>, a: seq<Token>, db: Option<Port>, b: seq<Token>, n: nat)
    requires n < |a| == |b| && PortsAgree(ps, qs, from, da, a, db, b, n)
    ensures PortsAgree(ps, qs, from, da, a, db, b, n + 1)
  {}

  lemma PortsUpdated(ps: seq<Port>, qs: seq<Port>, from: seq<int>,
                     da: Option<Port>, a: seq<Token>, db: Option<Port>, b: seq<Token>, n: nat, k: nat, shown: string)
    requires n <= |a| == |b| && PortsAgree(ps, qs, from, da, a, db, b, n) && k < |ps|
    ensures PortsAgree(ps[k := Port(ps[k].real', shown)], qs[k := Port(qs[k].real', shown)], from, da, a, db, b, n)
  {}

  lemma PortsSnoc(ps: seq<Port>, qs: seq<Port>, from: seq<int>,
                  da: Option<Port>, a: seq<Token>, db: Option<Port>, b: seq<Token>, n: nat, shown: string)
    requires n < |a| == |b| && a[n].PortToken? && SameShape(a[n], b[n]) && PortsAgree(ps, qs, from, da, a, db, b, n)
    ensures PortsAgree(ps + [Port(a[n].text, shown)], qs + [Port(b[n].text, shown)], from + [n], da, a, db, b, n + 1)
  {}

  // ---------------------------------------------------------------- the theorem

  ghost predicate Agree(s: State, t: State, from: seq<int>,
                        da: Option<Port>, a: seq<Token>, db: Option<Port>, b: seq<Token>, n: nat)
    requires n <= |a| == |b|
  {
    NamesAgree(s.names, t.names, a, b, n) && PortsAgree(s.ports, t.ports, from, da, a, db, b, n)
  }

  lemma StepAgrees(s: State, t: State, from: seq<int>,
                   da: Option<Port>, a: seq<Token>, db: Option<Port>, b: seq<Token>, n: nat) returns (from': seq<int>)
    requires Alike(da, a, db, b) && n < |a| && Agree(s, t, from, da, a, db, b, n)
    requires Unissued(s, a[n]) && Unissued(t, b[n])
    ensures Agree(Step(s, a[n]), Step(t, b[n]), from', da, a, db, b, n + 1)
    ensures Shown(s, a[n]) == Shown(t, b[n])
  {
    assert SameShape(a[n], b[n]);
    if a[n].Id? {
      NamesStep(s.names, t.names, a, b, n);
      from' := from;
    } else {
      NamesLater(s.names, t.names, a, b, n);
      from' := PortsStep(s.ports, t.ports, from, da, a, db, b, n);
    }
  }

  lemma FreshAgree(da: Option<Port>, a: seq<Token>, db: Option<Port>, b: seq<Token>) returns (from: seq<int>)
    requires |a| == |b| && SameDaemon(da, db)
    ensures Agree(Fresh(da), Fresh(db), from, da, a, db, b, 0)
  {
    from := if da.Some? then [-1] else [];
  }

  lemma AfterNext(daemon: Option<Port>, ts: seq<Token>, n: nat)
    requires n < |ts|
    ensures After(daemon, ts, n + 1) == Step(After(daemon, ts, n), ts[n])
  {
    RunSnoc(Step, Fresh(daemon), ts, n);
  }

  lemma {:induction false} RunsAgree(da: Option<Port>, a: seq<Token>, db: Option<Port>, b: seq<Token>, n: nat)
    returns (from: seq<int>)
    requires Alike(da, a, db, b) && Clean(da, a) && Clean(db, b) && n <= |a|
    ensures Agree(After(da, a, n), After(db, b, n), from, da, a, db, b, n)
  {
    if n == 0 {
      from := FreshAgree(da, a, db, b);
    } else {
      var before := RunsAgree(da, a, db, b, n - 1);
      AfterNext(da, a, n - 1);
      AfterNext(db, b, n - 1);
      from := StepAgrees(After(da, a, n - 1), After(db, b, n - 1), before, da, a, db, b, n - 1);
    }
  }

  /** Two runs whose ids and ports have the same shapes and repeat in the same places, and in which
      no real value happens to equal an issued stand-in, show the same text at every position. */
  lemma {:induction false} SameEverywhere(da: Option<Port>, a: seq<Token>, db: Option<Port>, b: seq<Token>, i: nat)
    requires Alike(da, a, db, b) && Clean(da, a) && Clean(db, b) && i < |a|
    ensures Shown(After(da, a, i), a[i]) == Shown(After(db, b, i), b[i])
  {
    var from := RunsAgree(da, a, db, b, i);
    assert SameShape(a[i], b[i]);
    var _ := StepAgrees(After(da, a, i), After(db, b, i), from, da, a, db, b, i);
  }
}
