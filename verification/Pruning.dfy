/** Suppression of nested findings: a group whose locations all lie inside those of a
    larger reported group with the same file spread is not reported again. */
module Pruning {
  import opened Ordering
  import opened FuzzyGroups

  datatype Group = Group(kind: string, tokens: nat, locations: seq<Location>)

  /** A dictionary entry. */
  datatype Item = Item(key: string, group: Group)

  function PathSet(g: Group): set<string> {
    set i | 0 <= i < |g.locations| :: g.locations[i].path
  }

  function Bytes(ls: seq<Location>): int {
    if ls == [] then 0 else ls[0].endByte - ls[0].startByte + Bytes(ls[1..])
  }

  predicate Inside(a: Location, b: Location) {
    a.path == b.path && a.startByte >= b.startByte && a.endByte <= b.endByte
  }

  predicate InsideSome(a: Location, g: Group) {
    exists i :: 0 <= i < |g.locations| && Inside(a, g.locations[i])
  }

  /** `larger` makes `g` redundant. */
  predicate Covers(larger: Group, g: Group) {
    PathSet(larger) == PathSet(g) && forall i :: 0 <= i < |g.locations| ==> InsideSome(g.locations[i], larger)
  }

  /** Largest first; then exact before type2 before type3; then by key. */
  predicate ItemLe(a: Item, b: Item) {
    var x, y := Bytes(a.group.locations), Bytes(b.group.locations);
    if x != y then x > y
    else if a.group.kind != b.group.kind then StringLe(a.group.kind, b.group.kind)
    else StringLe(a.key, b.key)
  }

  lemma ItemLePreorder()
    ensures TotalPreorder(ItemLe)
  {
    forall a, b ensures ItemLe(a, b) || ItemLe(b, a) {
      StringLeTotal(a.group.kind, b.group.kind);
      StringLeTotal(a.key, b.key);
    }
    forall a, b, c | ItemLe(a, b) && ItemLe(b, c) ensures ItemLe(a, c) { ItemLeTransitive(a, b, c); }
  }

  lemma ItemLeTransitive(a: Item, b: Item, c: Item)
    requires ItemLe(a, b) && ItemLe(b, c)
    ensures ItemLe(a, c)
  {
    if a.group.kind != b.group.kind && b.group.kind != c.group.kind {
      if StringLe(a.group.kind, b.group.kind) && StringLe(b.group.kind, c.group.kind) {
        StringLeTransitive(a.group.kind, b.group.kind, c.group.kind);
        if a.group.kind == c.group.kind { StringLeAntisymmetric(a.group.kind, b.group.kind); }
      }
    } else if a.group.kind == b.group.kind == c.group.kind {
      if StringLe(a.key, b.key) && StringLe(b.key, c.key) { StringLeTransitive(a.key, b.key, c.key); }
    }
  }

  ghost predicate DistinctKeys(items: seq<Item>) {
    forall i, j :: 0 <= i < j < |items| ==> items[i].key != items[j].key
  }

  /** Among the entries of one dictionary, the order has no ties. */
  lemma ItemLeAntisymmetric(items: seq<Item>, a: Item, b: Item)
    requires DistinctKeys(items) && a in items && b in items
    requires ItemLe(a, b) && ItemLe(b, a)
    ensures a == b
  {
    if a.group.kind != b.group.kind { StringLeAntisymmetric(a.group.kind, b.group.kind); }
    StringLeAntisymmetric(a.key, b.key);
  }

  // ---------------------------------------------------------------- the loop

  predicate CoveredBy(kept: seq<Item>, g: Group) {
    exists k :: 0 <= k < |kept| && Covers(kept[k].group, g)
  }

  /** What is kept of an ordered list. */
  function Kept(ordered: seq<Item>): seq<Item>
    decreases |ordered|
  {
    if ordered == [] then []
    else
      var last := |ordered| - 1;
      var before := Kept(ordered[..last]);
      if CoveredBy(before, ordered[last].group) then before else before + [ordered[last]]
  }

  function Pruned(items: seq<Item>): seq<Item> {
    Kept(Sort(ItemLe, items))
  }

  method PruneNested(items: seq<Item>) returns (kept: seq<Item>)
    ensures kept == Pruned(items)
  {
    var ordered := Sort(ItemLe, items);
    kept := [];
    for i := 0 to |ordered|
      invariant kept == Kept(ordered[..i])
    {
      assert ordered[..i + 1][..i] == ordered[..i];
      if !CoveredBy(kept, ordered[i].group) {
        kept := kept + [ordered[i]];
      }
    }
    assert ordered[..|ordered|] == ordered;
  }

  // ---------------------------------------------------------------- what pruning gives

  lemma KeptSnoc(ordered: seq<Item>, it: Item)
    ensures Kept(ordered + [it]) ==
      if CoveredBy(Kept(ordered), it.group) then Kept(ordered) else Kept(ordered) + [it]
  {
    assert (ordered + [it])[..|ordered|] == ordered;
  }

  lemma {:induction false} KeptSubset(ordered: seq<Item>)
    ensures forall x :: x in Kept(ordered) ==> x in ordered
    decreases |ordered|
  {
    if ordered != [] {
      var init, it := ordered[..|ordered| - 1], ordered[|ordered| - 1];
      KeptSubset(init);
      KeptSnoc(init, it);
      assert ordered == init + [it];
    }
  }

  lemma CoveredByMore(kept: seq<Item>, it: Item, g: Group)
    requires CoveredBy(kept, g) || Covers(it.group, g)
    ensures CoveredBy(kept + [it], g)
  {
    if CoveredBy(kept, g) {
      var k :| 0 <= k < |kept| && Covers(kept[k].group, g);
      assert (kept + [it])[k] == kept[k];
    } else {
      assert (kept + [it])[|kept|] == it;
    }
  }

  lemma {:induction false} KeptCovers(ordered: seq<Item>, i: nat)
    requires i < |ordered|
    ensures CoveredBy(Kept(ordered), ordered[i].group)
    decreases |ordered|
  {
    var init, it := ordered[..|ordered| - 1], ordered[|ordered| - 1];
    KeptSnoc(init, it);
    assert ordered == init + [it];
    if i < |init| {
      KeptCovers(init, i);
      assert init[i] == ordered[i];
      CoveredByMore(Kept(init), it, ordered[i].group);
    } else {
      CoversSelf(it.group);
      if !CoveredBy(Kept(init), it.group) { CoveredByMore(Kept(init), it, it.group); }
    }
  }

  ghost predicate Irredundant(kept: seq<Item>) {
    forall p, q :: 0 <= p < q < |kept| ==> !Covers(kept[p].group, kept[q].group)
  }

  lemma IrredundantSnoc(kept: seq<Item>, it: Item)
    ensures Irredundant(kept + [it]) <==> Irredundant(kept) && !CoveredBy(kept, it.group)
  {
    var more := kept + [it];
    assert forall p :: 0 <= p < |kept| ==> more[p] == kept[p];
    if Irredundant(more) {
      forall p, q | 0 <= p < q < |kept| ensures !Covers(kept[p].group, kept[q].group) {
        assert !Covers(more[p].group, more[q].group);
      }
      forall p | 0 <= p < |kept| ensures !Covers(kept[p].group, it.group) {
        assert !Covers(more[p].group, more[|kept|].group);
      }
    }
  }

  lemma {:induction false} KeptIrredundant(ordered: seq<Item>)
    ensures Irredundant(Kept(ordered))
    decreases |ordered|
  {
    if ordered != [] {
      var init, it := ordered[..|ordered| - 1], ordered[|ordered| - 1];
      KeptIrredundant(init);
      KeptSnoc(init, it);
      assert ordered == init + [it];
      IrredundantSnoc(Kept(init), it);
    }
  }

  lemma CoversSelf(g: Group)
    ensures Covers(g, g)
  {
    forall i | 0 <= i < |g.locations| ensures InsideSome(g.locations[i], g) {
      assert Inside(g.locations[i], g.locations[i]);
    }
  }

  /** Pruning invents nothing, leaves every location inside a location of a kept group of the
      same file spread, and keeps no group that one kept before it covers. */
  lemma PrunedFacts(items: seq<Item>)
    ensures forall x :: x in Pruned(items) ==> x in items
    ensures forall x :: x in items ==> CoveredBy(Pruned(items), x.group)
    ensures Irredundant(Pruned(items))
    ensures Pruned(items) == [] <==> items == []
  {
    ItemLePreorder();
    SortCorrect(ItemLe, items);
    var sorted := Sort(ItemLe, items);
    MultisetMembers(sorted, items);
    KeptSubset(sorted);
    KeptIrredundant(sorted);
    forall x | x in items ensures CoveredBy(Pruned(items), x.group) {
      var i :| 0 <= i < |sorted| && sorted[i] == x;
      KeptCovers(sorted, i);
    }
    if items != [] {
      assert CoveredBy(Pruned(items), items[0].group);
    }
  }


  /** The order of the dictionary does not matter. */
  lemma PruneOrderFree(a: seq<Item>, b: seq<Item>)
    requires DistinctKeys(a) && multiset(a) == multiset(b)
    ensures Pruned(a) == Pruned(b)
  {
    ItemLePreorder();
    SortCorrect(ItemLe, a);
    SortCorrect(ItemLe, b);
    var s := Sort(ItemLe, a);
    MultisetMembers(s, a);
    forall x, y | x in s && y in s && ItemLe(x, y) && ItemLe(y, x) ensures x == y {
      ItemLeAntisymmetric(a, x, y);
    }
    SortedUnique(ItemLe, s, Sort(ItemLe, b));
  }

  lemma {:induction false} KeptSorted(le: (Item, Item) -> bool, ordered: seq<Item>)
    requires Sorted(le, ordered)
    ensures Sorted(le, Kept(ordered))
    decreases |ordered|
  {
    if ordered != [] {
      var init, it := ordered[..|ordered| - 1], ordered[|ordered| - 1];
      KeptSorted(le, init);
      KeptSubset(init);
      KeptSnoc(init, it);
      assert ordered == init + [it];
      forall x | x in Kept(init) ensures le(x, it) {
        var i :| 0 <= i < |init| && init[i] == x;
        assert ordered[i] == x;
      }
    }
  }

  lemma {:induction false} KeptStable(kept: seq<Item>)
    requires Irredundant(kept)
    ensures Kept(kept) == kept
    decreases |kept|
  {
    if kept != [] {
      var init, it := kept[..|kept| - 1], kept[|kept| - 1];
      assert kept == init + [it];
      IrredundantSnoc(init, it);
      KeptStable(init);
      KeptSnoc(init, it);
    }
  }

  /** Pruning again changes nothing. */
  lemma PruneIdempotent(items: seq<Item>)
    requires DistinctKeys(items)
    ensures Pruned(Pruned(items)) == Pruned(items)
  {
    ItemLePreorder();
    SortCorrect(ItemLe, items);
    var kept := Pruned(items);
    KeptSorted(ItemLe, Sort(ItemLe, items));
    PrunedFacts(items);
    SortCorrect(ItemLe, kept);
    forall x, y | x in kept && y in kept && ItemLe(x, y) && ItemLe(y, x) ensures x == y {
      ItemLeAntisymmetric(items, x, y);
    }
    SortedUnique(ItemLe, kept, Sort(ItemLe, kept));
    KeptStable(kept);
  }

  // ---------------------------------------------------------------- nested findings are suppressed

  lemma CoversTransitive(a: Group, b: Group, c: Group)
    requires Covers(a, b) && Covers(b, c)
    ensures Covers(a, c)
  {
    forall i | 0 <= i < |c.locations| ensures InsideSome(c.locations[i], a) {
      var j :| 0 <= j < |b.locations| && Inside(c.locations[i], b.locations[j]);
      assert InsideSome(b.locations[j], a);
      var k :| 0 <= k < |a.locations| && Inside(b.locations[j], a.locations[k]);
      assert Inside(c.locations[i], a.locations[k]);
    }
  }

  /** What is kept was not covered by what was kept before it. */
  lemma {:induction false} KeptAt(ordered: seq<Item>, x: Item) returns (i: nat)
    requires x in Kept(ordered)
    ensures i < |ordered| && ordered[i] == x && !CoveredBy(Kept(ordered[..i]), x.group)
    decreases |ordered|
  {
    var init, it := ordered[..|ordered| - 1], ordered[|ordered| - 1];
    if x in Kept(init) {
      i := KeptAt(init, x);
      assert init[..i] == ordered[..i];
    } else {
      i := |ordered| - 1;
    }
  }

  /** Largest first; among equals exact before type2 before type3; then by key. */
  predicate Earlier(a: Item, b: Item) {
    var x, y := Bytes(a.group.locations), Bytes(b.group.locations);
    || x > y
    || (x == y && a.group.kind != b.group.kind && StringLe(a.group.kind, b.group.kind))
    || (x == y && a.group.kind == b.group.kind && a.key != b.key && StringLe(a.key, b.key))
  }

  lemma EarlierIsStrict(a: Item, b: Item)
    requires Earlier(a, b)
    ensures !ItemLe(b, a)
  {
    if a.group.kind != b.group.kind && StringLe(b.group.kind, a.group.kind) && StringLe(a.group.kind, b.group.kind) {
      StringLeAntisymmetric(a.group.kind, b.group.kind);
    }
    if a.key != b.key && StringLe(b.key, a.key) && StringLe(a.key, b.key) { StringLeAntisymmetric(a.key, b.key); }
  }

  lemma KindsInOrder(a: Item, b: Item)
    requires Bytes(a.group.locations) == Bytes(b.group.locations)
    requires (a.group.kind == "exact" && b.group.kind in {"type2", "type3"}) || (a.group.kind == "type2" && b.group.kind == "type3")
    ensures Earlier(a, b)
  {
    FirstDifference("", "exact", "type2");
    FirstDifference("", "exact", "type3");
    FirstDifference("type", "2", "3");
    assert "" + "exact" == "exact" && "" + "type2" == "type2" && "" + "type3" == "type3";
    assert "type" + "2" == "type2" && "type" + "3" == "type3";
  }

  lemma SortedBefore<T>(le: (T, T) -> bool, s: seq<T>, i: nat, j: nat)
    requires Sorted(le, s) && i < |s| && j < |s| && s[i] != s[j] && !le(s[i], s[j])
    ensures j < i
  {}

  lemma EarlierCovers(sorted: seq<Item>, a: Item, b: Item, i: nat)
    requires Sorted(ItemLe, sorted) && a in sorted && i < |sorted| && sorted[i] == b
    requires Covers(a.group, b.group) && Earlier(a, b)
    ensures CoveredBy(Kept(sorted[..i]), b.group)
  {
    var j :| 0 <= j < |sorted| && sorted[j] == a;
    EarlierIsStrict(a, b);
    SortedBefore(ItemLe, sorted, i, j);
    assert sorted[..i][j] == a;
    KeptCovers(sorted[..i], j);
    var kept := Kept(sorted[..i]);
    var k :| 0 <= k < |kept| && Covers(kept[k].group, a.group);
    CoversTransitive(kept[k].group, a.group, b.group);
  }

  /** A group that an earlier one covers is not reported. */
  lemma CoveredSuppressed(items: seq<Item>, a: Item, b: Item)
    requires a in items && Covers(a.group, b.group) && Earlier(a, b)
    ensures b !in Pruned(items)
  {
    ItemLePreorder();
    SortCorrect(ItemLe, items);
    var sorted := Sort(ItemLe, items);
    MultisetMembers(sorted, items);
    if b in Pruned(items) {
      var i := KeptAt(sorted, b);
      EarlierCovers(sorted, a, b, i);
      assert false;
    }
  }

  predicate Shorter(a: Location, b: Location) {
    a.endByte - a.startByte < b.endByte - b.startByte
  }

  lemma {:induction false} BytesNested(outer: seq<Location>, inner: seq<Location>)
    requires |outer| == |inner| && forall i :: 0 <= i < |inner| ==> Inside(inner[i], outer[i])
    ensures Bytes(inner) <= Bytes(outer)
    ensures (exists i :: 0 <= i < |inner| && Shorter(inner[i], outer[i])) ==> Bytes(inner) < Bytes(outer)
  {
    if inner != [] {
      BytesNested(outer[1..], inner[1..]);
      if i :| 0 <= i < |inner| && Shorter(inner[i], outer[i]) {
        if i > 0 { assert inner[1..][i - 1] == inner[i] && outer[1..][i - 1] == outer[i]; }
      }
    }
  }

  lemma NestedCovers(a: Group, b: Group)
    requires |a.locations| == |b.locations|
    requires forall i :: 0 <= i < |b.locations| ==> Inside(b.locations[i], a.locations[i])
    ensures Covers(a, b)
  {
    forall i | 0 <= i < |b.locations| ensures InsideSome(b.locations[i], a) {
      assert Inside(b.locations[i], a.locations[i]);
    }
    forall p ensures p in PathSet(a) <==> p in PathSet(b) {
      if p in PathSet(a) {
        var i :| 0 <= i < |a.locations| && a.locations[i].path == p;
        assert b.locations[i].path == p;
      }
      if p in PathSet(b) {
        var i :| 0 <= i < |b.locations| && b.locations[i].path == p;
        assert a.locations[i].path == p;
      }
    }
  }

  /** A finding whose locations lie inside those of a larger one, one in one and some smaller, is not
      reported beside it. */
  lemma NestedSuppressed(items: seq<Item>, a: Item, b: Item)
    requires a in items && |a.group.locations| == |b.group.locations|
    requires forall i :: 0 <= i < |b.group.locations| ==> Inside(b.group.locations[i], a.group.locations[i])
    requires exists i :: 0 <= i < |b.group.locations| && Shorter(b.group.locations[i], a.group.locations[i])
    ensures b !in Pruned(items)
  {
    NestedCovers(a.group, b.group);
    BytesNested(a.group.locations, b.group.locations);
    CoveredSuppressed(items, a, b);
  }

  /** A finding with a file spread of its own is always reported. */
  lemma OwnSpreadKept(items: seq<Item>, x: Item)
    requires x in items && forall y :: y in items && y != x ==>
      (set i | 0 <= i < |y.group.locations| :: y.group.locations[i].path) != (set i | 0 <= i < |x.group.locations| :: x.group.locations[i].path)
    ensures x in Pruned(items)
  {
    PrunedFacts(items);
    var kept := Pruned(items);
    var k :| 0 <= k < |kept| && Covers(kept[k].group, x.group);
    assert kept[k] in items;
  }

  lemma {:induction false} KeptUnlessCovered(ordered: seq<Item>, i: nat)
    requires i < |ordered| && !CoveredBy(Kept(ordered[..i]), ordered[i].group)
    ensures ordered[i] in Kept(ordered)
    decreases |ordered|
  {
    var init := ordered[..|ordered| - 1];
    if i < |init| {
      assert init[..i] == ordered[..i];
      KeptUnlessCovered(init, i);
    }
  }

  lemma EarlierIfBefore(items: seq<Item>, a: Item, b: Item)
    requires DistinctKeys(items) && a in items && b in items && a != b && ItemLe(a, b)
    ensures Earlier(a, b)
  {}

  /** What is reported, without the loop: a finding is left out exactly when an earlier one covers it. */
  lemma PrunedExactly(items: seq<Item>, b: Item)
    requires DistinctKeys(items) && b in items
    ensures b in Pruned(items) <==> forall a :: a in items && Earlier(a, b) ==> !Covers(a.group, b.group)
  {
    forall a | a in items && Earlier(a, b) && Covers(a.group, b.group) ensures b !in Pruned(items) {
      CoveredSuppressed(items, a, b);
    }
    if forall a :: a in items && Earlier(a, b) ==> !Covers(a.group, b.group) { NotCoveredKept(items, b); }
  }

  lemma NotCoveredKept(items: seq<Item>, b: Item)
    requires DistinctKeys(items) && b in items
    requires forall a :: a in items && Earlier(a, b) ==> !Covers(a.group, b.group)
    ensures b in Pruned(items)
  {
    ItemLePreorder();
    SortCorrect(ItemLe, items);
    var sorted := Sort(ItemLe, items);
    MultisetMembers(sorted, items);
    var i :| 0 <= i < |sorted| && sorted[i] == b;
    var kept := Kept(sorted[..i]);
    KeptSubset(sorted[..i]);
    forall k | 0 <= k < |kept| && kept[k] != b ensures !Covers(kept[k].group, b.group) {
      assert kept[k] in sorted[..i];
      var j :| 0 <= j < i && sorted[..i][j] == kept[k];
      assert ItemLe(sorted[j], sorted[i]);
      EarlierIfBefore(items, kept[k], b);
    }
    if b in kept {
      KeptGrows(sorted, i, b);
    } else {
      KeptUnlessCovered(sorted, i);
    }
  }

  lemma {:induction false} KeptGrows(ordered: seq<Item>, i: nat, x: Item)
    requires i <= |ordered| && x in Kept(ordered[..i])
    ensures x in Kept(ordered)
    decreases |ordered|
  {
    if i < |ordered| {
      var init := ordered[..|ordered| - 1];
      assert init[..i] == ordered[..i];
      KeptGrows(init, i, x);
    } else {
      assert ordered[..i] == ordered;
    }
  }
}
