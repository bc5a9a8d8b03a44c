/** Different code has different digests: what the hasher sees of a node, and that it is all told
    apart. */
module Digests {
  import opened Merkle

  // ---------------------------------------------------------------- kinds and leaf texts

  /** A kind contains a word wherever it stands in it. */
  lemma ContainsSuch(a: string, part: string, b: string)
    ensures Contains(a + part + b, part)
  {
    var s := a + part + b;
    assert s[|a|..][..|part|] == part;
  }

  lemma ContainsOnly(s: string, part: string) returns (a: string, b: string)
    requires Contains(s, part)
    ensures s == a + part + b
  {
    var i :| 0 <= i <= |s| - |part| && s[i..][..|part|] == part;
    a, b := s[..i], s[i..][|part|..];
  }

  /** What blinding makes of a kind. A kind that already reads like the mark of a class is in it. */
  datatype Class = Name | Str | Number | Plain(kind: string)

  predicate IsNumber(kind: string) {
    || kind == "integer" || kind == "float" || kind == "number"
    || kind == "integer_literal" || kind == "float_literal" || kind == "decimal_integer_literal"
  }

  predicate IsLiteral(kind: string) {
    || kind == "string" || kind == "string_literal" || kind == "template_string"
    || kind == "raw_string_literal" || kind == "interpreted_string_literal"
  }

  function ClassOf(kind: string): Class {
    if Contains(kind, "identifier") || kind == "variable_name" || kind == "ID" then Name
    else if IsLiteral(kind) || Contains(kind, "string") || kind == "STR" then Str
    else if IsNumber(kind) || kind == "NUM" then Number
    else Plain(kind)
  }

  /** Blinded, two kinds are hashed alike exactly when they are in the same class; otherwise exactly
      when they are the same. */
  lemma KindsExactly(c: Scan, k: string, d: Scan, l: string)
    requires c.blinded == d.blinded
    ensures Kind(c, k) == Kind(d, l) <==> if c.blinded then ClassOf(k) == ClassOf(l) else k == l
  {
    KindOfClass(c, k);
    KindOfClass(d, l);
  }

  lemma KindOfClass(c: Scan, k: string)
    ensures Kind(c, k) == if !c.blinded then k
      else match ClassOf(k) case Name => "ID" case Str => "STR" case Number => "NUM" case Plain(kind) => kind
    ensures ClassOf(k).Plain? ==> ClassOf(k).kind == k && k != "ID" && k != "STR" && k != "NUM"
  {}

  /** A literal is hashed as a whole, like a node without children: spaces and comments in it matter. */
  lemma LeavesAre(n: Node)
    ensures Atomic(n) <==> n.children == [] || IsLiteral(n.kind)
  {}

  /** Comments of every kind are skipped, and in Python continuations of a line too. */
  lemma SkippedAre(c: Scan, n: Node, before: string, after: string)
    ensures n.kind == before + "comment" + after ==> Skipped(c, n)
    ensures n.kind == "line_continuation" ==> (Skipped(c, n) <==> c.language == "python")
    ensures Skipped(c, n) ==> n.kind == "line_continuation" || exists a, b :: n.kind == a + "comment" + b
  {
    ContainsSuch(before, "comment", after);
    if Contains(n.kind, "comment") {
      var a, b := ContainsOnly(n.kind, "comment");
      assert n.kind[|a| + 2] == 'm';
      assert 'm' !in "line_continuation";
    }
  }

  /** The bytes a node spans lie in the file. */
  predicate Spans(c: Scan, n: Node) {
    n.start <= n.end <= |c.data|
  }

  /** Two leaves are the same code exactly when their kinds are hashed alike and, unless both are
      blinded, they have the same bytes. */
  lemma LeavesExactly(c: Scan, n: Node, d: Scan, m: Node)
    requires c.blinded == d.blinded && Atomic(n) && Atomic(m) && Spans(c, n) && Spans(d, m)
    ensures SameCode(c, n, d, m) <==>
      if c.blinded then
        ClassOf(n.kind) == ClassOf(m.kind) && (ClassOf(n.kind).Plain? ==> c.data[n.start..n.end] == d.data[m.start..m.end])
      else n.kind == m.kind && c.data[n.start..n.end] == d.data[m.start..m.end]
  {
    KindsExactly(c, n.kind, d, m.kind);
    KindOfClass(c, n.kind);
  }

  // ---------------------------------------------------------------- what is hashed

  /** What follows a node's kind in what is hashed. */
  function Content(c: Scan, n: Node): Bytes {
    if !Atomic(n) then Collected(c, n.children).0 else if Hidden(c, n) then "" else Text(c, n)
  }

  function Hashed(c: Scan, n: Node): Bytes {
    Kind(c, n.kind) + "\0" + Content(c, n)
  }

  lemma DigestIs(c: Scan, n: Node)
    requires !Skipped(c, n)
    ensures Value(c, n).0 == c.sha(Hashed(c, n))
  {}

  /** The nodes that are hashed. */
  function Nodes(c: Scan, n: Node): set<Node>
    decreases n, 1
  {
    if Skipped(c, n) then {} else if Atomic(n) then {n} else {n} + NodesOf(c, n.children)
  }

  function NodesOf(c: Scan, ns: seq<Node>): set<Node>
    decreases ns, 0
  {
    if ns == [] then {} else Nodes(c, ns[0]) + NodesOf(c, ns[1..])
  }

  /** On these nodes the hash has no collision and digests of one length, kinds are words, and no
      leaf reads like the digests of an inner node's children. */
  ghost predicate ToldApart(c: Scan, a: set<Node>, d: Scan, b: set<Node>, length: nat) {
    && length > 0
    && (forall x :: x in a ==> |c.sha(Hashed(c, x))| == length && '\0' !in x.kind)
    && (forall y :: y in b ==> |d.sha(Hashed(d, y))| == length && '\0' !in y.kind)
    && (forall x, y :: x in a && y in b && c.sha(Hashed(c, x)) == d.sha(Hashed(d, y)) ==> Hashed(c, x) == Hashed(d, y))
    && (forall x, y :: x in a && y in b && Atomic(x) != Atomic(y) ==> Content(c, x) != Content(d, y))
  }

  /** The position of the first NUL. */
  function NulAt(s: string): nat {
    if s == "" || s[0] == '\0' then 0 else NulAt(s[1..]) + 1
  }

  lemma {:induction false} NulAfter(k: string, x: string)
    requires '\0' !in k
    ensures NulAt(k + "\0" + x) == |k|
  {
    var s := k + "\0" + x;
    if k == "" {
      assert s[0] == '\0';
    } else {
      assert s[0] == k[0] && s[1..] == k[1..] + "\0" + x;
      NulAfter(k[1..], x);
    }
  }

  lemma SplitAtNul(k: string, x: string, l: string, y: string)
    requires '\0' !in k && '\0' !in l && k + "\0" + x == l + "\0" + y
    ensures k == l && x == y
  {
    NulAfter(k, x);
    NulAfter(l, y);
    assert k + ("\0" + x) == k + "\0" + x && l + ("\0" + y) == l + "\0" + y;
    SamePrefix(k, "\0" + x, l, "\0" + y);
    SamePrefix("\0", x, "\0", y);
  }

  lemma KindHasNoNul(c: Scan, kind: string)
    requires '\0' !in kind
    ensures '\0' !in Kind(c, kind)
  {}

  lemma SameHashed(c: Scan, n: Node, d: Scan, m: Node)
    requires Hashed(c, n) == Hashed(d, m) && '\0' !in n.kind && '\0' !in m.kind
    ensures Kind(c, n.kind) == Kind(d, m.kind) && Content(c, n) == Content(d, m)
  {
    KindHasNoNul(c, n.kind);
    KindHasNoNul(d, m.kind);
    SplitAtNul(Kind(c, n.kind), Content(c, n), Kind(d, m.kind), Content(d, m));
  }

  lemma SamePrefix<T>(x: seq<T>, a: seq<T>, y: seq<T>, b: seq<T>)
    requires x + a == y + b && |x| == |y|
    ensures x == y && a == b
  {
    assert (x + a)[..|x|] == x && (y + b)[..|y|] == y;
    assert (x + a)[|x|..] == a && (y + b)[|y|..] == b;
  }

  /** Equal digests come from the same code. */
  lemma {:induction false} DigestsSameCode(c: Scan, n: Node, d: Scan, m: Node, a: set<Node>, b: set<Node>, length: nat)
    requires SamePolicy(c, d) && c.sha == d.sha && !Skipped(c, n) && !Skipped(d, m)
    requires Nodes(c, n) <= a && Nodes(d, m) <= b && ToldApart(c, a, d, b, length)
    requires Value(c, n).0 == Value(d, m).0
    ensures SameCode(c, n, d, m)
    decreases Size(n) + Size(m), 0
  {
    DigestIs(c, n);
    DigestIs(d, m);
    assert n in a && m in b;
    SameHashed(c, n, d, m);
    if !Atomic(n) { CollectedSameCodes(c, n.children, d, m.children, a, b, length); }
  }

  lemma HeadLength(c: Scan, ns: seq<Node>, a: set<Node>, d: Scan, b: set<Node>, length: nat)
    requires ns != [] && !Skipped(c, ns[0]) && NodesOf(c, ns) <= a && ToldApart(c, a, d, b, length)
    ensures |Value(c, ns[0]).0| == length && |Collected(c, ns).0| >= length
  {
    DigestIs(c, ns[0]);
    assert ns[0] in Nodes(c, ns[0]);
  }

  lemma ToldApartBack(c: Scan, a: set<Node>, d: Scan, b: set<Node>, length: nat)
    requires ToldApart(c, a, d, b, length)
    ensures ToldApart(d, b, c, a, length)
  {}

  lemma {:induction false} CollectedSameCodes(c: Scan, ns: seq<Node>, d: Scan, ms: seq<Node>, a: set<Node>, b: set<Node>, length: nat)
    requires SamePolicy(c, d) && c.sha == d.sha
    requires NodesOf(c, ns) <= a && NodesOf(d, ms) <= b && ToldApart(c, a, d, b, length)
    requires Collected(c, ns).0 == Collected(d, ms).0
    ensures SameCodes(c, ns, d, ms)
    decreases SizeOf(ns) + SizeOf(ms), 1
  {
    ToldApartBack(c, a, d, b, length);
    if ns != [] && Skipped(c, ns[0]) {
      SkippedAdds(c, ns);
      CollectedSameCodes(c, ns[1..], d, ms, a, b, length);
    } else if ms != [] && Skipped(d, ms[0]) {
      SkippedAdds(d, ms);
      CollectedSameCodes(c, ns, d, ms[1..], a, b, length);
    } else {
      if ns != [] { HeadLength(c, ns, a, d, b, length); }
      if ms != [] { HeadLength(d, ms, b, c, a, length); }
      if ns != [] && ms != [] {
        SamePrefix(Value(c, ns[0]).0, Collected(c, ns[1..]).0, Value(d, ms[0]).0, Collected(d, ms[1..]).0);
        DigestsSameCode(c, ns[0], d, ms[0], a, b, length);
        CollectedSameCodes(c, ns[1..], d, ms[1..], a, b, length);
      }
    }
  }

  /** Two nodes have the same digest if and only if they are the same code. */
  lemma {:induction false} DigestsExactly(c: Scan, n: Node, d: Scan, m: Node, length: nat)
    requires SamePolicy(c, d) && c.sha == d.sha && !Skipped(c, n) && !Skipped(d, m)
    requires ToldApart(c, Nodes(c, n), d, Nodes(d, m), length)
    ensures Value(c, n).0 == Value(d, m).0 <==> SameCode(c, n, d, m)
  {
    if Value(c, n).0 == Value(d, m).0 { DigestsSameCode(c, n, d, m, Nodes(c, n), Nodes(d, m), length); }
    if SameCode(c, n, d, m) { SameCodeSamePrints(c, n, d, m); }
  }

  /** The last condition is needed, whatever the hash: a leaf that reads like a child's digest has the
      digest of the node with that child. */
  lemma LeafReadsLikeDigest(sha: Bytes -> Bytes)
    ensures var c := Scan("x", "go", 1, false, sha);
      var child := Node(1, "identifier", 0, 1, []);
      var d := Scan(Value(c, child).0, "go", 1, false, sha);
      var inner, leaf := Node(0, "block", 0, 1, [child]), Node(0, "block", 0, |Value(c, child).0|, []);
      Value(c, inner).0 == Value(d, leaf).0 && !SameCode(c, inner, d, leaf)
  {
    var c := Scan("x", "go", 1, false, sha);
    var child := Node(1, "identifier", 0, 1, []);
    var d := Scan(Value(c, child).0, "go", 1, false, sha);
    var inner, leaf := Node(0, "block", 0, 1, [child]), Node(0, "block", 0, |Value(c, child).0|, []);
    assert !Skipped(c, inner) && !Skipped(d, leaf);
    assert Collected(c, []) == ("", 0) && [child][1..] == [];
    assert Collected(c, [child]).0 == Value(c, child).0 + "" == Value(c, child).0;
    assert Text(d, leaf) == d.data[0..|d.data|] == d.data;
    DigestIs(c, inner);
    DigestIs(d, leaf);
  }
}
