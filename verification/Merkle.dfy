/** The Merkle hasher of the clone detector.

    A syntax tree is hashed bottom-up. The program does it without recursion: an
    explicit stack holds the nodes still to be looked at, and a dictionary keyed by
    node id holds the value of every finished node until its parent collects it. The
    recursive definition below says what each value has to be; `Fingerprints` is the
    stack machine, proved to yield exactly what the recursive definition lists.

    SHA-256 is a parameter, so every statement holds for any hash function. */
module Merkle {

  /** A byte is represented by the character of the same code. */
  type Bytes = string

  /** A parsed node: its grammar kind, the bytes it spans, and its children. */
  datatype Node = Node(id: nat, kind: string, start: nat, end: nat, children: seq<Node>)

  /** What one scan is asked to do. */
  datatype Scan = Scan(data: Bytes, language: string, minimum: int, blinded: bool, sha: Bytes -> Bytes)

  /** One yielded fingerprint. */
  datatype Print = Print(digest: Bytes, count: nat, node: Node)

  datatype Outcome = Prints(prints: seq<Print>) | ParseError

  const LITERALS := {
    "string", "string_literal", "template_string", "raw_string_literal", "interpreted_string_literal"
  }
  const NUMBERS := {
    "integer", "float", "number", "integer_literal", "float_literal", "decimal_integer_literal"
  }

  predicate Contains(s: string, part: string) {
    exists i :: 0 <= i <= |s| - |part| && s[i..][..|part|] == part
  }

  /** Comments, and Python's backslash continuations, are not code. */
  predicate Skipped(c: Scan, n: Node) {
    Contains(n.kind, "comment") || (c.language == "python" && n.kind == "line_continuation")
  }

  predicate Atomic(n: Node) {
    n.children == [] || n.kind in LITERALS
  }

  /** The kind that is hashed: blinding collapses names, strings and numbers. */
  function Kind(c: Scan, kind: string): string {
    if !c.blinded then kind
    else if Contains(kind, "identifier") || kind == "variable_name" then "ID"
    else if kind in LITERALS || Contains(kind, "string") then "STR"
    else if kind in NUMBERS then "NUM"
    else kind
  }

  /** Whether an atomic node's own text is left out of its digest. */
  predicate Hidden(c: Scan, n: Node) {
    c.blinded && Kind(c, n.kind) in {"ID", "STR", "NUM"}
  }

  /** Python slicing, which clamps. */
  function Text(c: Scan, n: Node): Bytes {
    var hi := if n.end <= |c.data| then n.end else |c.data|;
    if n.start <= hi then c.data[n.start..hi] else ""
  }

  // ---------------------------------------------------------------- the recursive definition

  /** The digest and leaf count of one node. */
  function Value(c: Scan, n: Node): (Bytes, nat)
    decreases n, 1
  {
    if Skipped(c, n) then ("", 0)
    else if Atomic(n) then
      (c.sha(Kind(c, n.kind) + "\0" + (if Hidden(c, n) then "" else Text(c, n))), 1)
    else
      var inner := Collected(c, n.children);
      (c.sha(Kind(c, n.kind) + "\0" + inner.0), inner.1)
  }

  /** The digests of a run of siblings, joined, and the sum of their counts. */
  function Collected(c: Scan, ns: seq<Node>): (Bytes, nat)
    decreases ns, 0
  {
    if ns == [] then ("", 0)
    else
      var head, rest := Value(c, ns[0]), Collected(c, ns[1..]);
      (head.0 + rest.0, head.1 + rest.1)
  }

  function Own(c: Scan, n: Node): seq<Print> {
    var v := Value(c, n);
    if v.1 >= c.minimum then [Print(v.0, v.1, n)] else []
  }

  /** The fingerprints of a tree, children before parents. */
  function PostOrder(c: Scan, n: Node): seq<Print>
    decreases n, 1
  {
    if Skipped(c, n) then []
    else if Atomic(n) then Own(c, n)
    else PostOrders(c, n.children) + Own(c, n)
  }

  function PostOrders(c: Scan, ns: seq<Node>): seq<Print>
    decreases ns, 0
  {
    if ns == [] then [] else PostOrder(c, ns[0]) + PostOrders(c, ns[1..])
  }

  // ---------------------------------------------------------------- node identity

  function Ids(n: Node): set<nat>
    decreases n, 1
  {
    {n.id} + IdsOf(n.children)
  }

  function IdsOf(ns: seq<Node>): set<nat>
    decreases ns, 0
  {
    if ns == [] then {} else Ids(ns[0]) + IdsOf(ns[1..])
  }

  /** No two nodes of a tree share an id, which the parser promises. */
  ghost predicate UniqueIds(n: Node)
    decreases n, 1
  {
    n.id !in IdsOf(n.children) && UniqueIdsOf(n.children)
  }

  ghost predicate UniqueIdsOf(ns: seq<Node>)
    decreases ns, 0
  {
    ns != [] ==> UniqueIds(ns[0]) && UniqueIdsOf(ns[1..]) && Ids(ns[0]) !! IdsOf(ns[1..])
  }

  function Size(n: Node): (size: nat)
    ensures size > 0
    decreases n, 1
  {
    1 + SizeOf(n.children)
  }

  function SizeOf(ns: seq<Node>): nat
    decreases ns, 0
  {
    if ns == [] then 0 else Size(ns[0]) + SizeOf(ns[1..])
  }

  // ---------------------------------------------------------------- the stack machine

  /** A stack entry: a node, and whether its children have already been pushed. */
  datatype Entry = Entry(node: Node, visited: bool)

  type Values = map<nat, (Bytes, nat)>

  predicate Expands(c: Scan, e: Entry) {
    !Skipped(c, e.node) && !Atomic(e.node) && !e.visited
  }

  /** Whether an entry is the second visit of an inner node, which collects its children. */
  predicate Collects(c: Scan, e: Entry) {
    !Skipped(c, e.node) && !Atomic(e.node) && e.visited
  }

  function ChildIds(ns: seq<Node>): set<nat> {
    set k | 0 <= k < |ns| :: ns[k].id
  }

  /** What the dictionary holds once an entry and everything it pushes is done. */
  function After(c: Scan, e: Entry, values: Values): Values {
    (if Collects(c, e) then values - ChildIds(e.node.children) else values)[e.node.id := Value(c, e.node)]
  }

  /** The machine can run to the end from here: every value a parent is going to pop is
      there when it pops it, and nothing left over collides with a node still to come. */
  ghost predicate Ready(c: Scan, stack: seq<Entry>, values: Values)
    decreases |stack|
  {
    stack != [] ==>
      var e := stack[|stack| - 1];
      && (Collects(c, e) ==>
            forall k :: 0 <= k < |e.node.children| ==>
              e.node.children[k].id in values && values[e.node.children[k].id] == Value(c, e.node.children[k]))
      && (!e.visited ==> UniqueIds(e.node) && Ids(e.node) !! values.Keys)
      && Ready(c, stack[..|stack| - 1], After(c, e, values))
  }

  function Yields(c: Scan, e: Entry): seq<Print> {
    if Collects(c, e) then Own(c, e.node) else PostOrder(c, e.node)
  }

  function Cost(e: Entry): nat {
    if e.visited then 1 else 2 * Size(e.node)
  }

  /** What the machine still has to yield. */
  function Remaining(c: Scan, stack: seq<Entry>): seq<Print>
    decreases |stack|
  {
    if stack == [] then []
    else
      Yields(c, stack[|stack| - 1]) + Remaining(c, stack[..|stack| - 1])
  }

  function Work(stack: seq<Entry>): nat
    decreases |stack|
  {
    if stack == [] then 0
    else
      Cost(stack[|stack| - 1]) + Work(stack[..|stack| - 1])
  }

  /** The children in the order they are pushed, so that the first is on top. */
  function Pushed(ns: seq<Node>): seq<Entry>
    decreases |ns|
  {
    if ns == [] then [] else Pushed(ns[1..]) + [Entry(ns[0], false)]
  }

  function ValuesOf(c: Scan, ns: seq<Node>): Values
    decreases |ns|
  {
    if ns == [] then map[] else ValuesOf(c, ns[..|ns| - 1])[ns[|ns| - 1].id := Value(c, ns[|ns| - 1])]
  }

  lemma {:induction false} IdsOfMember(ns: seq<Node>, k: nat)
    requires k < |ns|
    ensures Ids(ns[k]) <= IdsOf(ns)
  {
    if k > 0 {
      assert ns[k] == ns[1..][k - 1];
      IdsOfMember(ns[1..], k - 1);
    }
  }

  lemma {:induction false} SiblingsDisjoint(ns: seq<Node>, j: nat, k: nat)
    requires UniqueIdsOf(ns)
    requires j < k < |ns|
    ensures UniqueIds(ns[j]) && UniqueIds(ns[k])
    ensures Ids(ns[j]) !! Ids(ns[k])
  {
    assert ns[k] == ns[1..][k - 1];
    if j == 0 {
      IdsOfMember(ns[1..], k - 1);
      UniqueAt(ns, k);
    } else {
      assert ns[j] == ns[1..][j - 1];
      SiblingsDisjoint(ns[1..], j - 1, k - 1);
    }
  }

  lemma {:induction false} UniqueAt(ns: seq<Node>, k: nat)
    requires UniqueIdsOf(ns) && k < |ns|
    ensures UniqueIds(ns[k])
  {
    if k > 0 {
      assert ns[k] == ns[1..][k - 1];
      UniqueAt(ns[1..], k - 1);
    }
  }

  lemma {:induction false} ValuesOfKeys(c: Scan, ns: seq<Node>)
    requires UniqueIdsOf(ns)
    ensures forall k :: 0 <= k < |ns| ==> ns[k].id in ValuesOf(c, ns) && ValuesOf(c, ns)[ns[k].id] == Value(c, ns[k])
    ensures ValuesOf(c, ns).Keys == ChildIds(ns)
  {
    ValuesOfPrefix(c, ns, |ns|);
    assert ns[..|ns|] == ns;
  }

  lemma {:induction false} ValuesOfPrefix(c: Scan, ns: seq<Node>, n: nat)
    requires UniqueIdsOf(ns) && n <= |ns|
    ensures forall k :: 0 <= k < n ==> ns[k].id in ValuesOf(c, ns[..n]) && ValuesOf(c, ns[..n])[ns[k].id] == Value(c, ns[k])
    ensures ValuesOf(c, ns[..n]).Keys == ChildIds(ns[..n])
  {
    if n > 0 {
      ValuesOfPrefix(c, ns, n - 1);
      assert ns[..n][..n - 1] == ns[..n - 1];
      assert ns[..n][n - 1] == ns[n - 1];
      forall k | 0 <= k < n - 1
        ensures ns[k].id != ns[n - 1].id
      {
        SiblingsDisjoint(ns, k, n - 1);
      }
      assert ChildIds(ns[..n]) == ChildIds(ns[..n - 1]) + {ns[n - 1].id} by {
        forall x | x in ChildIds(ns[..n]) ensures x in ChildIds(ns[..n - 1]) + {ns[n - 1].id} {
          var k :| 0 <= k < n && ns[..n][k].id == x;
          if k < n - 1 { assert ns[..n - 1][k].id == x; }
        }
        forall x | x in ChildIds(ns[..n - 1]) ensures x in ChildIds(ns[..n]) {
          var k :| 0 <= k < n - 1 && ns[..n - 1][k].id == x;
          assert ns[..n][k].id == x;
        }
      }
    }
  }

  lemma ChildIdsInIds(ns: seq<Node>)
    ensures ChildIds(ns) <= IdsOf(ns)
  {
    forall k | 0 <= k < |ns| ensures ns[k].id in IdsOf(ns) { IdsOfMember(ns, k); }
  }

  /** Top entry `e` may be put on a ready stack. */
  lemma PushOne(c: Scan, rest: seq<Entry>, e: Entry, values: Values)
    requires Collects(c, e) ==>
      forall k :: 0 <= k < |e.node.children| ==>
        e.node.children[k].id in values && values[e.node.children[k].id] == Value(c, e.node.children[k])
    requires !e.visited ==> UniqueIds(e.node) && Ids(e.node) !! values.Keys
    requires Ready(c, rest, After(c, e, values))
    ensures Ready(c, rest + [e], values)
  {
    var stack := rest + [e];
    assert stack[..|stack| - 1] == rest;
  }

  /** The k-th child's subtree is untouched by its earlier siblings. */
  lemma ChildFresh(c: Scan, n: Node, values: Values, k: nat)
    requires UniqueIds(n) && Ids(n) !! values.Keys && k < |n.children|
    ensures UniqueIds(n.children[k])
    ensures Ids(n.children[k]) !! (values + ValuesOf(c, n.children[..k])).Keys
  {
    var ns := n.children;
    UniqueAt(ns, k);
    IdsOfMember(ns, k);
    ValuesOfPrefix(c, ns, k);
    forall x | x in Ids(ns[k]) ensures x !in ChildIds(ns[..k]) {
      if x in ChildIds(ns[..k]) {
        var j :| 0 <= j < k && ns[..k][j].id == x;
        SiblingsDisjoint(ns, j, k);
        assert false;
      }
    }
  }

  lemma FirstVisit(c: Scan, ns: seq<Node>, values: Values, k: nat)
    requires k < |ns|
    ensures After(c, Entry(ns[k], false), values + ValuesOf(c, ns[..k])) == values + ValuesOf(c, ns[..k + 1])
  {
    assert ns[..k + 1][..k] == ns[..k];
    assert ns[..k + 1][k] == ns[k];
  }

  /** Once all children are done, the second visit leaves just the node's own value. */
  lemma SecondVisit(c: Scan, n: Node, values: Values)
    requires Expands(c, Entry(n, false)) && UniqueIds(n) && Ids(n) !! values.Keys
    ensures After(c, Entry(n, true), values + ValuesOf(c, n.children)) == values[n.id := Value(c, n)]
  {
    ValuesOfKeys(c, n.children);
    ChildIdsInIds(n.children);
    assert (values + ValuesOf(c, n.children)) - ChildIds(n.children) == values;
  }

  /** Pushing the children of `n` from the k-th on keeps the machine ready. */
  lemma {:induction false} PushReady(c: Scan, rest: seq<Entry>, n: Node, values: Values, k: nat)
    requires Expands(c, Entry(n, false)) && UniqueIds(n) && Ids(n) !! values.Keys
    requires Ready(c, rest, values[n.id := Value(c, n)])
    requires k <= |n.children|
    ensures Ready(c, rest + [Entry(n, true)] + Pushed(n.children[k..]), values + ValuesOf(c, n.children[..k]))
    decreases |n.children| - k
  {
    var ns := n.children;
    var base := rest + [Entry(n, true)];
    if k == |ns| {
      assert ns[..k] == ns;
      assert base + Pushed(ns[k..]) == base;
      SecondVisit(c, n, values);
      ValuesOfKeys(c, ns);
      PushOne(c, rest, Entry(n, true), values + ValuesOf(c, ns));
    } else {
      PushReady(c, rest, n, values, k + 1);
      ChildFresh(c, n, values, k);
      assert ns[k..][1..] == ns[k + 1..];
      FirstVisit(c, ns, values, k);
      PushOne(c, base + Pushed(ns[k + 1..]), Entry(ns[k], false), values + ValuesOf(c, ns[..k]));
      assert base + Pushed(ns[k..]) == base + Pushed(ns[k + 1..]) + [Entry(ns[k], false)];
    }
  }

  lemma Unstack(c: Scan, rest: seq<Entry>, e: Entry)
    ensures Remaining(c, rest + [e]) == Yields(c, e) + Remaining(c, rest)
    ensures Work(rest + [e]) == Cost(e) + Work(rest)
  {
    var stack := rest + [e];
    assert stack[..|stack| - 1] == rest && stack[|stack| - 1] == e;
  }

  lemma Associative<T>(a: seq<T>, b: seq<T>, c: seq<T>)
    ensures a + (b + c) == (a + b) + c
  {}

  lemma {:induction false} PushRemaining(c: Scan, rest: seq<Entry>, ns: seq<Node>)
    ensures Remaining(c, rest + Pushed(ns)) == PostOrders(c, ns) + Remaining(c, rest)
    ensures Work(rest + Pushed(ns)) == 2 * SizeOf(ns) + Work(rest)
    decreases |ns|
  {
    if ns == [] {
      assert rest + Pushed(ns) == rest;
    } else {
      var e := Entry(ns[0], false);
      PushRemaining(c, rest, ns[1..]);
      Unstack(c, rest + Pushed(ns[1..]), e);
      Associative(rest, Pushed(ns[1..]), [e]);
      Associative(PostOrder(c, ns[0]), PostOrders(c, ns[1..]), Remaining(c, rest));
    }
  }

  lemma {:induction false} CollectedSnoc(c: Scan, ns: seq<Node>, n: Node)
    ensures Collected(c, ns + [n]) == (Collected(c, ns).0 + Value(c, n).0, Collected(c, ns).1 + Value(c, n).1)
    decreases |ns|
  {
    if ns == [] {
      assert ns + [n] == [n];
      assert [n][1..] == [];
      assert Collected(c, []) == ("", 0);
      assert Value(c, n).0 + "" == Value(c, n).0 == "" + Value(c, n).0;
    } else {
      assert (ns + [n])[1..] == ns[1..] + [n];
      CollectedSnoc(c, ns[1..], n);
      var head, rest := Value(c, ns[0]), Collected(c, ns[1..]);
      assert head.0 + (rest.0 + Value(c, n).0) == (head.0 + rest.0) + Value(c, n).0;
    }
  }

  /** Pop the children's values and hash them: the inner loop of the second visit. */
  method Collect(c: Scan, node: Node, before: Values) returns (value: (Bytes, nat), values: Values)
    requires Collects(c, Entry(node, true)) && UniqueIds(node)
    requires forall k :: 0 <= k < |node.children| ==>
      node.children[k].id in before && before[node.children[k].id] == Value(c, node.children[k])
    ensures value == Value(c, node)
    ensures values == before - ChildIds(node.children)
  {
    var digest, count: nat := Kind(c, node.kind) + "\0", 0;
    values := before;
    ghost var ns := node.children;
    for k := 0 to |node.children|
      invariant values == before - ChildIds(ns[..k])
      invariant digest == Kind(c, node.kind) + "\0" + Collected(c, ns[..k]).0
      invariant count == Collected(c, ns[..k]).1
    {
      var child := node.children[k];
      ChildIsNew(ns, k);
      var found := values[child.id];
      values := values - {child.id};
      digest := digest + found.0;
      count := count + found.1;
      CollectedNext(c, ns, k);
      Associative(Kind(c, node.kind) + "\0", Collected(c, ns[..k]).0, found.0);
      ChildIdsSnoc(ns, k);
    }
    assert ns[..|ns|] == ns;
    value := (c.sha(digest), count);
  }

  lemma ChildIsNew(ns: seq<Node>, k: nat)
    requires UniqueIdsOf(ns) && k < |ns|
    ensures ns[k].id !in ChildIds(ns[..k])
  {
    forall j | 0 <= j < k ensures ns[..k][j].id != ns[k].id { SiblingsDisjoint(ns, j, k); }
  }

  lemma CollectedNext(c: Scan, ns: seq<Node>, k: nat)
    requires k < |ns|
    ensures Collected(c, ns[..k + 1]) ==
      (Collected(c, ns[..k]).0 + Value(c, ns[k]).0, Collected(c, ns[..k]).1 + Value(c, ns[k]).1)
  {
    assert ns[..k + 1] == ns[..k] + [ns[k]];
    CollectedSnoc(c, ns[..k], ns[k]);
  }

  lemma ChildIdsSnoc(ns: seq<Node>, k: nat)
    requires k < |ns|
    ensures ChildIds(ns[..k + 1]) == ChildIds(ns[..k]) + {ns[k].id}
  {
    forall x | x in ChildIds(ns[..k + 1]) ensures x in ChildIds(ns[..k]) + {ns[k].id} {
      var j :| 0 <= j < k + 1 && ns[..k + 1][j].id == x;
      if j < k { assert ns[..k][j].id == x; }
    }
    forall x | x in ChildIds(ns[..k]) ensures x in ChildIds(ns[..k + 1]) {
      var j :| 0 <= j < k && ns[..k][j].id == x;
      assert ns[..k + 1][j].id == x;
    }
    assert ns[..k + 1][k].id == ns[k].id;
  }

  /** Every entry waiting for its second visit came from a tree with unique ids. */
  ghost predicate AllUnique(stack: seq<Entry>) {
    forall k :: 0 <= k < |stack| ==> UniqueIds(stack[k].node)
  }

  lemma {:induction false} PushedUnique(ns: seq<Node>)
    requires UniqueIdsOf(ns)
    ensures AllUnique(Pushed(ns))
    decreases |ns|
  {
    if ns != [] { PushedUnique(ns[1..]); }
  }

  /** Replacing an inner node by its second visit and its children leaves the machine ready... */
  lemma ExpandReady(c: Scan, rest: seq<Entry>, n: Node, values: Values)
    requires Expands(c, Entry(n, false)) && UniqueIds(n) && Ids(n) !! values.Keys
    requires Ready(c, rest, After(c, Entry(n, false), values)) && AllUnique(rest)
    ensures Ready(c, rest + [Entry(n, true)] + Pushed(n.children), values)
    ensures AllUnique(rest + [Entry(n, true)] + Pushed(n.children))
  {
    PushReady(c, rest, n, values, 0);
    assert n.children[0..] == n.children;
    assert values + ValuesOf(c, n.children[..0]) == values;
    PushedUnique(n.children);
  }

  /** ... with the same fingerprints to yield and less to do. */
  lemma {:induction false} ExpandRemaining(c: Scan, rest: seq<Entry>, n: Node)
    requires Expands(c, Entry(n, false))
    ensures Remaining(c, rest + [Entry(n, true)] + Pushed(n.children)) == Yields(c, Entry(n, false)) + Remaining(c, rest)
    ensures Work(rest + [Entry(n, true)] + Pushed(n.children)) < Work(rest + [Entry(n, false)])
  {
    Unstack(c, rest, Entry(n, false));
    Unstack(c, rest, Entry(n, true));
    PushRemaining(c, rest + [Entry(n, true)], n.children);
    Associative(PostOrders(c, n.children), Own(c, n), Remaining(c, rest));
  }

  /** Any other entry is done in one go, and the dictionary then is what was promised. */
  lemma PopStep(c: Scan, rest: seq<Entry>, e: Entry, values: Values)
    requires Ready(c, rest + [e], values) && AllUnique(rest + [e])
    ensures Ready(c, rest, After(c, e, values)) && AllUnique(rest)
    ensures UniqueIds(e.node) && (!e.visited ==> Ids(e.node) !! values.Keys)
    ensures Collects(c, e) ==>
      forall k :: 0 <= k < |e.node.children| ==>
        e.node.children[k].id in values && values[e.node.children[k].id] == Value(c, e.node.children[k])
    ensures Remaining(c, rest + [e]) == Yields(c, e) + Remaining(c, rest)
    ensures Work(rest) < Work(rest + [e])
  {
    var stack := rest + [e];
    assert stack[..|stack| - 1] == rest && stack[|stack| - 1] == e;
    Unstack(c, rest, e);
    forall k | 0 <= k < |rest| ensures UniqueIds(rest[k].node) { assert stack[k] == rest[k]; }
  }

  /** Hash one node whose children, if any, are done. */
  method Finish(c: Scan, e: Entry, before: Values) returns (value: (Bytes, nat), values: Values)
    requires !Skipped(c, e.node) && !Expands(c, e) && UniqueIds(e.node)
    requires Collects(c, e) ==>
      forall k :: 0 <= k < |e.node.children| ==>
        e.node.children[k].id in before && before[e.node.children[k].id] == Value(c, e.node.children[k])
    ensures value == Value(c, e.node)
    ensures values == After(c, e, before)
  {
    var node := e.node;
    if Atomic(node) {
      value := (c.sha(Kind(c, node.kind) + "\0" + (if Hidden(c, node) then "" else Text(c, node))), 1);
      values := before;
    } else {
      value, values := Collect(c, node, before);
    }
    values := values[node.id := value];
  }

  lemma Settled(c: Scan, e: Entry, values: Values)
    ensures Skipped(c, e.node) ==> Yields(c, e) == [] && After(c, e, values) == values[e.node.id := ("", 0)]
    ensures !Skipped(c, e.node) && !Expands(c, e) ==>
      var v := Value(c, e.node);
      Yields(c, e) == if v.1 >= c.minimum then [Print(v.0, v.1, e.node)] else []
  {}

  /** One turn of the loop: pop an entry and skip, expand or hash it. */
  method Advance(c: Scan, stack: seq<Entry>, values: Values)
    returns (stack': seq<Entry>, values': Values, yielded: seq<Print>)
    requires stack != [] && Ready(c, stack, values) && AllUnique(stack)
    ensures Ready(c, stack', values') && AllUnique(stack')
    ensures Remaining(c, stack) == yielded + Remaining(c, stack')
    ensures Work(stack') < Work(stack)
  {
    var entry := stack[|stack| - 1];
    var node := entry.node;
    var rest := stack[..|stack| - 1];
    assert stack == rest + [entry];
    PopStep(c, rest, entry, values);
    Settled(c, entry, values);
    yielded := [];
    if Skipped(c, node) {
      stack', values' := rest, values[node.id := ("", 0)];
    } else if !entry.visited && !Atomic(node) {
      ExpandReady(c, rest, node, values);
      ExpandRemaining(c, rest, node);
      stack', values' := rest + [Entry(node, true)] + Pushed(node.children), values;
    } else {
      var value: (Bytes, nat);
      value, values' := Finish(c, entry, values);
      stack' := rest;
      if value.1 >= c.minimum {
        yielded := [Print(value.0, value.1, node)];
      }
    }
  }

  lemma Start(c: Scan, root: Node)
    requires UniqueIds(root)
    ensures Ready(c, [Entry(root, false)], map[]) && AllUnique([Entry(root, false)])
    ensures Remaining(c, [Entry(root, false)]) == PostOrder(c, root)
  {
    PushOne(c, [], Entry(root, false), map[]);
    Unstack(c, [], Entry(root, false));
    assert [] + [Entry(root, false)] == [Entry(root, false)];
  }

  /** The traversal. It always finds the child values it pops, it terminates, and it yields
      the fingerprints of the recursive definition in post-order. */
  method Fingerprints(c: Scan, root: Node, hasError: bool) returns (r: Outcome)
    requires UniqueIds(root)
    ensures r == if hasError then ParseError else Prints(PostOrder(c, root))
  {
    if hasError { return ParseError; }
    var stack := [Entry(root, false)];
    var values: Values := map[];
    var out: seq<Print> := [];
    Start(c, root);
    while stack != []
      invariant Ready(c, stack, values) && AllUnique(stack)
      invariant out + Remaining(c, stack) == PostOrder(c, root)
      decreases Work(stack)
    {
      var yielded;
      stack, values, yielded := Advance(c, stack, values);
      out := out + yielded;
    }
    r := Prints(out);
  }

  // ---------------------------------------------------------------- what the digests ignore

  /** Two trees that are the same code: they differ at most in comments and continuations,
      in ids and byte ranges, and (when blinding) in the text of names and literals. */
  ghost predicate SameCode(c: Scan, n: Node, d: Scan, m: Node)
    decreases Size(n) + Size(m), 0
  {
    && Kind(c, n.kind) == Kind(d, m.kind)
    && Atomic(n) == Atomic(m)
    && (if Atomic(n) then Hidden(c, n) || Text(c, n) == Text(d, m)
        else SameCodes(c, n.children, d, m.children))
  }

  ghost predicate SameCodes(c: Scan, ns: seq<Node>, d: Scan, ms: seq<Node>)
    decreases SizeOf(ns) + SizeOf(ms), 1
  {
    if ns != [] && Skipped(c, ns[0]) then SameCodes(c, ns[1..], d, ms)
    else if ms != [] && Skipped(d, ms[0]) then SameCodes(c, ns, d, ms[1..])
    else if ns == [] || ms == [] then ns == [] && ms == []
    else SameCode(c, ns[0], d, ms[0]) && SameCodes(c, ns[1..], d, ms[1..])
  }

  /** The scans ask for the same thing, of possibly different files. */
  predicate SamePolicy(c: Scan, d: Scan) {
    c.language == d.language && c.minimum == d.minimum && c.blinded == d.blinded
  }

  /** The digests and counts that are yielded, without the nodes they came from. */
  function Marks(ps: seq<Print>): seq<(Bytes, nat)> {
    seq(|ps|, i requires 0 <= i < |ps| => (ps[i].digest, ps[i].count))
  }

  lemma MarksConcat(a: seq<Print>, b: seq<Print>)
    ensures Marks(a + b) == Marks(a) + Marks(b)
  {}

  lemma SkippedAdds(c: Scan, ns: seq<Node>)
    requires ns != [] && Skipped(c, ns[0])
    ensures Collected(c, ns) == Collected(c, ns[1..])
    ensures PostOrders(c, ns) == PostOrders(c, ns[1..])
  {
    assert Value(c, ns[0]) == ("", 0);
    assert "" + Collected(c, ns[1..]).0 == Collected(c, ns[1..]).0;
    assert [] + PostOrders(c, ns[1..]) == PostOrders(c, ns[1..]);
  }

  /** The same code has the same digest and count, and yields the same fingerprints. */
  lemma {:induction false} SameCodeSamePrints(c: Scan, n: Node, d: Scan, m: Node)
    requires SamePolicy(c, d) && c.sha == d.sha
    requires !Skipped(c, n) && !Skipped(d, m) && SameCode(c, n, d, m)
    ensures Value(c, n) == Value(d, m)
    ensures Marks(PostOrder(c, n)) == Marks(PostOrder(d, m))
    decreases Size(n) + Size(m), 0
  {
    if !Atomic(n) {
      SameCodesSamePrints(c, n.children, d, m.children);
      MarksConcat(PostOrders(c, n.children), Own(c, n));
      MarksConcat(PostOrders(d, m.children), Own(d, m));
    }
  }

  lemma {:induction false} SameCodesSamePrints(c: Scan, ns: seq<Node>, d: Scan, ms: seq<Node>)
    requires SamePolicy(c, d) && c.sha == d.sha
    requires SameCodes(c, ns, d, ms)
    ensures Collected(c, ns) == Collected(d, ms)
    ensures Marks(PostOrders(c, ns)) == Marks(PostOrders(d, ms))
    decreases SizeOf(ns) + SizeOf(ms), 1
  {
    if ns != [] && Skipped(c, ns[0]) {
      SameCodesSamePrints(c, ns[1..], d, ms);
      SkippedAdds(c, ns);
    } else if ms != [] && Skipped(d, ms[0]) {
      SameCodesSamePrints(c, ns, d, ms[1..]);
      SkippedAdds(d, ms);
    } else if ns != [] && ms != [] {
      SameCodeSamePrints(c, ns[0], d, ms[0]);
      SameCodesSamePrints(c, ns[1..], d, ms[1..]);
      MarksConcat(PostOrder(c, ns[0]), PostOrders(c, ns[1..]));
      MarksConcat(PostOrder(d, ms[0]), PostOrders(d, ms[1..]));
    }
  }

  /** The children that are code. */
  function CodeOnly(c: Scan, ns: seq<Node>): seq<Node>
  {
    if ns == [] then []
    else (if Skipped(c, ns[0]) then [] else [ns[0]]) + CodeOnly(c, ns[1..])
  }

  lemma {:induction false} CodeOnlyCollected(c: Scan, ns: seq<Node>)
    ensures Collected(c, CodeOnly(c, ns)) == Collected(c, ns)
  {
    if ns != [] {
      CodeOnlyCollected(c, ns[1..]);
      if Skipped(c, ns[0]) {
        SkippedAdds(c, ns);
        assert CodeOnly(c, ns) == CodeOnly(c, ns[1..]);
      } else {
        assert CodeOnly(c, ns)[1..] == CodeOnly(c, ns[1..]);
      }
    }
  }

  /** Deleting a node's comment children changes nothing exactly when some child is left.
      A node that loses its last child turns into a leaf: its count goes from 0 to 1. */
  lemma CommentRemoval(c: Scan, n: Node)
    requires !Skipped(c, n) && !Atomic(n)
    ensures Value(c, n.(children := CodeOnly(c, n.children))).1 == Value(c, n).1 <==> CodeOnly(c, n.children) != []
    ensures CodeOnly(c, n.children) != [] ==> Value(c, n.(children := CodeOnly(c, n.children))) == Value(c, n)
  {
    var stripped := n.(children := CodeOnly(c, n.children));
    CodeOnlyCollected(c, n.children);
    assert stripped.kind == n.kind;
    if CodeOnly(c, n.children) == [] {
      assert Collected(c, []) == ("", 0);
    }
  }

  /** A module that holds nothing but a comment, before and after the comment is removed. */
  lemma LoneComment(sha: Bytes -> Bytes)
    ensures var c := Scan("", "python", 1, false, sha);
      var module' := Node(0, "module", 0, 0, [Node(1, "comment", 0, 0, [])]);
      Value(c, module').1 == 0 && Value(c, module'.(children := CodeOnly(c, module'.children))).1 == 1
  {
    var c := Scan("", "python", 1, false, sha);
    var comment := Node(1, "comment", 0, 0, []);
    var module' := Node(0, "module", 0, 0, [comment]);
    assert "comment"[0..][..7] == "comment";
    assert Skipped(c, comment);
    assert CodeOnly(c, [comment]) == [] by { assert [comment][1..] == []; }
    assert !Skipped(c, module');
    CommentRemoval(c, module');
    SkippedAdds(c, [comment]);
    assert [comment][1..] == [] && Collected(c, []) == ("", 0);
  }

  /** A comment on the right can be dropped whatever comments stand on the left. */
  lemma {:induction false} SkipRight(c: Scan, ns: seq<Node>, d: Scan, ms: seq<Node>)
    requires ms != [] && Skipped(d, ms[0])
    ensures SameCodes(c, ns, d, ms) == SameCodes(c, ns, d, ms[1..])
  {
    if ns != [] && Skipped(c, ns[0]) { SkipRight(c, ns[1..], d, ms); }
  }

  // Comments removed throughout a tree.

  /** A tree without its comments, except that a node with no other child is left alone. */
  function Stripped(c: Scan, n: Node): Node
    decreases n, 1
  {
    if Skipped(c, n) || Atomic(n) then n
    else
      var kept := StrippedAll(c, n.children);
      if kept == [] then n else n.(children := kept)
  }

  function StrippedAll(c: Scan, ns: seq<Node>): seq<Node>
    decreases ns, 0
  {
    if ns == [] then []
    else (if Skipped(c, ns[0]) then [] else [Stripped(c, ns[0])]) + StrippedAll(c, ns[1..])
  }

  lemma {:induction false} SameCodeReflexive(c: Scan, n: Node)
    ensures SameCode(c, n, c, n)
    decreases n, 1
  {
    if !Atomic(n) { SameCodesReflexive(c, n.children); }
  }

  lemma {:induction false} SameCodesReflexive(c: Scan, ns: seq<Node>)
    ensures SameCodes(c, ns, c, ns)
    decreases ns, 0
  {
    if ns != [] {
      SameCodesReflexive(c, ns[1..]);
      if Skipped(c, ns[0]) { SkipRight(c, ns[1..], c, ns); } else { SameCodeReflexive(c, ns[0]); }
    }
  }

  lemma {:induction false} StrippedIsSameCode(c: Scan, n: Node)
    ensures SameCode(c, n, c, Stripped(c, n))
    decreases n, 1
  {
    if !Skipped(c, n) && !Atomic(n) && StrippedAll(c, n.children) != [] {
      StrippedAreSameCodes(c, n.children);
    } else {
      SameCodeReflexive(c, n);
    }
  }

  lemma {:induction false} StrippedAreSameCodes(c: Scan, ns: seq<Node>)
    ensures SameCodes(c, ns, c, StrippedAll(c, ns))
    decreases ns, 0
  {
    if ns != [] {
      var kept, rest := StrippedAll(c, ns), StrippedAll(c, ns[1..]);
      StrippedAreSameCodes(c, ns[1..]);
      if Skipped(c, ns[0]) {
        assert kept == rest;
      } else {
        StrippedIsSameCode(c, ns[0]);
        assert kept[0] == Stripped(c, ns[0]) && kept[1..] == rest;
      }
    }
  }

  /** Removing comments throughout a tree, wherever a node keeps another child, keeps its digest
      and count and every fingerprint, in order. */
  lemma StripKeepsPrints(c: Scan, n: Node)
    requires !Skipped(c, n)
    ensures Value(c, n) == Value(c, Stripped(c, n))
    ensures Marks(PostOrder(c, n)) == Marks(PostOrder(c, Stripped(c, n)))
  {
    StrippedIsSameCode(c, n);
    SameCodeSamePrints(c, n, c, Stripped(c, n));
  }

  /** Renaming identifiers and changing literals keeps every blinded fingerprint: it is enough
      that the trees have the same kinds and arity, and agree on the text of all other leaves. */
  ghost predicate Renamed(c: Scan, n: Node, d: Scan, m: Node)
    decreases n
  {
    && n.kind == m.kind && |n.children| == |m.children|
    && (Atomic(n) ==> Hidden(c, n) || Text(c, n) == Text(d, m))
    && (!Atomic(n) ==> forall k :: 0 <= k < |n.children| ==>
          !Skipped(c, n.children[k]) ==> Renamed(c, n.children[k], d, m.children[k]))
    && (!Atomic(n) ==> forall k :: 0 <= k < |n.children| ==> Skipped(c, n.children[k]) == Skipped(d, m.children[k]))
  }

  lemma {:induction false} RenamedIsSameCode(c: Scan, n: Node, d: Scan, m: Node)
    requires SamePolicy(c, d) && Renamed(c, n, d, m)
    ensures SameCode(c, n, d, m)
    decreases n, 1
  {
    if !Atomic(n) { RenamedAreSameCodes(c, n.children, d, m.children); }
  }

  lemma {:induction false} RenamedAreSameCodes(c: Scan, ns: seq<Node>, d: Scan, ms: seq<Node>)
    requires SamePolicy(c, d) && |ns| == |ms|
    requires forall k :: 0 <= k < |ns| ==> Skipped(c, ns[k]) == Skipped(d, ms[k])
    requires forall k :: 0 <= k < |ns| ==> !Skipped(c, ns[k]) ==> Renamed(c, ns[k], d, ms[k])
    ensures SameCodes(c, ns, d, ms)
    decreases ns, 0
  {
    if ns != [] {
      RenamedAreSameCodes(c, ns[1..], d, ms[1..]);
      if !Skipped(c, ns[0]) { RenamedIsSameCode(c, ns[0], d, ms[0]); }
      else { assert SameCodes(c, ns[1..], d, ms) == SameCodes(c, ns[1..], d, ms[1..]) by {
        SkipRight(c, ns[1..], d, ms); } }
    }
  }

  /** So a renamed file yields the same blinded digests and counts, in the same order. */
  lemma {:induction false} RenamingKeepsPrints(c: Scan, n: Node, d: Scan, m: Node)
    requires SamePolicy(c, d) && c.sha == d.sha && Renamed(c, n, d, m)
    requires !Skipped(c, n) && !Skipped(d, m)
    ensures Value(c, n) == Value(d, m) && Marks(PostOrder(c, n)) == Marks(PostOrder(d, m))
  {
    RenamedIsSameCode(c, n, d, m);
    SameCodeSamePrints(c, n, d, m);
  }
}
