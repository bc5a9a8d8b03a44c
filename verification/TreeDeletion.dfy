/** What deleting a part of a file does to its fingerprints. */
module TreeDeletion {
  import opened Merkle

  /** `path` leads, through nodes the traversal expands, to a proper descendant. */
  predicate Reaches(c: Scan, n: Node, path: seq<nat>)
    decreases |path|
  {
    && path != [] && !Skipped(c, n) && !Atomic(n) && path[0] < |n.children|
    && (|path| > 1 ==> Reaches(c, n.children[path[0]], path[1..]))
  }

  /** The descendant that is deleted. */
  function Target(c: Scan, n: Node, path: seq<nat>): Node
    requires Reaches(c, n, path)
    decreases |path|
  {
    if |path| == 1 then n.children[path[0]] else Target(c, n.children[path[0]], path[1..])
  }

  /** The tree without it. */
  function Without(c: Scan, n: Node, path: seq<nat>): Node
    requires Reaches(c, n, path)
    decreases |path|
  {
    var i := path[0];
    if |path| == 1 then n.(children := n.children[..i] + n.children[i + 1..])
    else n.(children := n.children[..i] + [Without(c, n.children[i], path[1..])] + n.children[i + 1..])
  }

  /** The fingerprints of the children before and behind the one on the path. */
  function Left(c: Scan, n: Node, i: nat): seq<Print>
    requires i < |n.children|
  {
    PostOrders(c, n.children[..i])
  }

  function Right(c: Scan, n: Node, i: nat): seq<Print>
    requires i < |n.children|
  {
    PostOrders(c, n.children[i + 1..])
  }

  /** The fingerprints before the deleted subtree. */
  function Before(c: Scan, n: Node, path: seq<nat>): seq<Print>
    requires Reaches(c, n, path)
    decreases |path|
  {
    if |path| == 1 then Left(c, n, path[0])
    else Left(c, n, path[0]) + Before(c, n.children[path[0]], path[1..])
  }

  /** The fingerprints behind it, each ancestor's after those of its children. */
  function Behind(c: Scan, n: Node, path: seq<nat>): seq<Print>
    requires Reaches(c, n, path)
    decreases |path|
  {
    if |path| == 1 then Right(c, n, path[0]) + Own(c, n)
    else Behind(c, n.children[path[0]], path[1..]) + (Right(c, n, path[0]) + Own(c, n))
  }

  /** The same fingerprints, but for the ancestors', which are those the ancestors have become. */
  function BehindWithout(c: Scan, n: Node, path: seq<nat>): seq<Print>
    requires Reaches(c, n, path)
    decreases |path|
  {
    if |path| == 1 then Right(c, n, path[0]) + Own(c, Without(c, n, path))
    else BehindWithout(c, n.children[path[0]], path[1..]) + (Right(c, n, path[0]) + Own(c, Without(c, n, path)))
  }

  lemma {:induction false} PostOrdersConcat(c: Scan, a: seq<Node>, b: seq<Node>)
    ensures PostOrders(c, a + b) == PostOrders(c, a) + PostOrders(c, b)
    decreases |a|
  {
    if a == [] {
      assert a + b == b;
    } else {
      assert (a + b)[1..] == a[1..] + b;
      PostOrdersConcat(c, a[1..], b);
      Associative(PostOrder(c, a[0]), PostOrders(c, a[1..]), PostOrders(c, b));
    }
  }

  lemma PostOrdersAround(c: Scan, a: seq<Node>, n: Node, b: seq<Node>)
    ensures PostOrders(c, a + [n] + b) == PostOrders(c, a) + PostOrder(c, n) + PostOrders(c, b)
  {
    PostOrdersConcat(c, a + [n], b);
    PostOrdersConcat(c, a, [n]);
    assert [n][1..] == [] && PostOrders(c, []) == [];
    assert PostOrder(c, n) + [] == PostOrder(c, n);
  }

  /** An expanded node's fingerprints, around one of its children. */
  lemma PostOrderAround(c: Scan, n: Node, i: nat)
    requires !Skipped(c, n) && !Atomic(n) && i < |n.children|
    ensures PostOrder(c, n) == Left(c, n, i) + PostOrder(c, n.children[i]) + (Right(c, n, i) + Own(c, n))
  {
    assert n.children == n.children[..i] + [n.children[i]] + n.children[i + 1..];
    PostOrdersAround(c, n.children[..i], n.children[i], n.children[i + 1..]);
    Associative(Left(c, n, i) + PostOrder(c, n.children[i]), Right(c, n, i), Own(c, n));
  }

  lemma Combine<T>(before: seq<T>, left: seq<T>, middle: seq<T>, right: seq<T>, end: seq<T>)
    ensures before + (left + middle + right) + end == (before + left) + middle + (right + end)
  {}

  /** The fingerprints of a tree are those before a subtree, its own, and those behind it. */
  lemma {:induction false} PrintsAround(c: Scan, n: Node, path: seq<nat>)
    requires Reaches(c, n, path)
    ensures PostOrder(c, n) == Before(c, n, path) + PostOrder(c, Target(c, n, path)) + Behind(c, n, path)
    decreases |path|
  {
    PostOrderAround(c, n, path[0]);
    if |path| > 1 {
      var child, rest := n.children[path[0]], path[1..];
      PrintsAround(c, child, rest);
      Combine(Left(c, n, path[0]), Before(c, child, rest), PostOrder(c, Target(c, child, rest)), Behind(c, child, rest),
              Right(c, n, path[0]) + Own(c, n));
    }
  }

  lemma WithoutPrints(c: Scan, n: Node, path: seq<nat>)
    requires Reaches(c, n, path)
    ensures var m := Without(c, n, path);
      !Skipped(c, m) && PostOrder(c, m) == PostOrders(c, m.children) + Own(c, m)
  {
    var m := Without(c, n, path);
    assert m.kind == n.kind;
    if m.children == [] { assert [] + Own(c, m) == Own(c, m); }
  }

  lemma OneWithout(c: Scan, n: Node, path: seq<nat>)
    requires Reaches(c, n, path) && |path| == 1
    ensures PostOrder(c, Without(c, n, path)) == Before(c, n, path) + BehindWithout(c, n, path)
  {
    WithoutPrints(c, n, path);
    PostOrdersConcat(c, n.children[..path[0]], n.children[path[0] + 1..]);
    Associative(Left(c, n, path[0]), Right(c, n, path[0]), Own(c, Without(c, n, path)));
  }

  lemma LongerWithout(c: Scan, n: Node, path: seq<nat>)
    requires Reaches(c, n, path) && |path| > 1
    ensures PostOrder(c, Without(c, n, path)) ==
      Left(c, n, path[0]) + PostOrder(c, Without(c, n.children[path[0]], path[1..]))
      + (Right(c, n, path[0]) + Own(c, Without(c, n, path)))
  {
    var i, child := path[0], Without(c, n.children[path[0]], path[1..]);
    WithoutPrints(c, n, path);
    PostOrdersAround(c, n.children[..i], child, n.children[i + 1..]);
    Associative(Left(c, n, i) + PostOrder(c, child), Right(c, n, i), Own(c, Without(c, n, path)));
  }

  lemma Append<T>(before: seq<T>, left: seq<T>, right: seq<T>, end: seq<T>)
    ensures before + (left + right) + end == (before + left) + (right + end)
  {}

  /** Deleting a subtree leaves every fingerprint as it is, in order, except those of the subtree,
      which are gone, and those of its ancestors, which are the new ancestors'. */
  lemma {:induction false} PrintsWithout(c: Scan, n: Node, path: seq<nat>)
    requires Reaches(c, n, path)
    ensures PostOrder(c, Without(c, n, path)) == Before(c, n, path) + BehindWithout(c, n, path)
    decreases |path|
  {
    if |path| == 1 {
      OneWithout(c, n, path);
    } else {
      var child, rest := n.children[path[0]], path[1..];
      PrintsWithout(c, child, rest);
      LongerWithout(c, n, path);
      Append(Left(c, n, path[0]), Before(c, child, rest), BehindWithout(c, child, rest),
             Right(c, n, path[0]) + Own(c, Without(c, n, path)));
    }
  }

  /** So a file that is the same code as another with a subtree deleted has the digests and counts
      that one had, in order, but for the subtree's and its ancestors'. */
  lemma SubtreeDeleted(c: Scan, n: Node, path: seq<nat>, d: Scan, m: Node)
    requires Reaches(c, n, path) && SamePolicy(c, d) && c.sha == d.sha
    requires !Skipped(d, m) && SameCode(c, Without(c, n, path), d, m)
    ensures Marks(PostOrder(c, n)) ==
      Marks(Before(c, n, path)) + Marks(PostOrder(c, Target(c, n, path))) + Marks(Behind(c, n, path))
    ensures Marks(PostOrder(d, m)) == Marks(Before(c, n, path)) + Marks(BehindWithout(c, n, path))
  {
    PrintsAround(c, n, path);
    MarksConcat(Before(c, n, path) + PostOrder(c, Target(c, n, path)), Behind(c, n, path));
    MarksConcat(Before(c, n, path), PostOrder(c, Target(c, n, path)));
    PrintsWithout(c, n, path);
    WithoutPrints(c, n, path);
    MarksConcat(Before(c, n, path), BehindWithout(c, n, path));
    SameCodeSamePrints(c, Without(c, n, path), d, m);
  }
}
