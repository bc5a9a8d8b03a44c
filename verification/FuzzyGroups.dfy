/** Near-duplicate candidates: pairs proposed by an inverted index, kept by exact Jaccard
    similarity. */
module FuzzyGroups {

  datatype Location = Location(path: string, start: nat, end: nat, startByte: nat, endByte: nat)

  /** A function, method or class large enough to be compared. */
  datatype Unit = Unit(at: Location, language: string, exact: string, blinded: string,
                       tokens: nat, shingles: seq<string>)

  function Shingles(u: Unit): set<string> {
    set s | s in u.shingles
  }

  lemma ShinglesAre(u: Unit, s: string)
    ensures s in Shingles(u) <==> exists i :: 0 <= i < |u.shingles| && u.shingles[i] == s
  {}

  // ---------------------------------------------------------------- similarity edges

  /** Jaccard similarity; two empty sets are not similar. */
  function Score(a: set<string>, b: set<string>): real {
    if a + b == {} then 0.0 else |a * b| as real / |a + b| as real
  }

  /** The share of common shingles: 1 exactly for equal sets, 0 exactly for disjoint ones. */
  lemma ScoreMeans(a: set<string>, b: set<string>)
    requires a + b != {}
    ensures Score(a, b) * |a + b| as real == |a * b| as real
    ensures Score(a, b) == 1.0 <==> a == b
    ensures Score(a, b) == 0.0 <==> a !! b
  {
    var common, all := a * b, a + b;
    assert all == common + (all - common);
    assert |all| == |common| + |all - common|;
    if |common| == |all| {
      assert all - common == {};
      assert a <= common && b <= common;
    }
    if a == b { assert common == all; }
  }

  /** The brute-force definition: units `j` and `i` are similar enough. */
  predicate Similar(us: seq<Unit>, threshold: real, j: int, i: int) {
    && 0 <= j < i < |us|
    && us[j].language == us[i].language
    && Score(Shingles(us[i]), Shingles(us[j])) >= threshold
  }

  type Index = map<(string, string), seq<nat>>

  type Edges = map<(nat, nat), real>

  function Postings(index: Index, language: string, shingle: string): seq<nat> {
    if (language, shingle) in index then index[(language, shingle)] else []
  }

  predicate Listed(index: Index, language: string, shingle: string, k: nat) {
    k in Postings(index, language, shingle)
  }

  /** The index lists exactly the first `n` units, each under each of its shingles. */
  ghost predicate Indexes(index: Index, us: seq<Unit>, n: nat)
    requires n <= |us|
  {
    forall language, shingle, k: nat ::
      Listed(index, language, shingle, k) <==>
      k < n && us[k].language == language && shingle in Shingles(us[k])
  }

  /** The units that share a shingle with the new one. */
  method Candidates(index: Index, language: string, shingles: set<string>) returns (found: set<nat>)
    ensures forall k: nat :: k in found <==> exists s :: s in shingles && Listed(index, language, s, k)
  {
    found := {};
    var rest := shingles;
    while rest != {}
      invariant rest <= shingles
      invariant forall k: nat :: k in found <==> exists s :: s in shingles - rest && Listed(index, language, s, k)
      decreases |rest|
    {
      var s :| s in rest;
      var posted := Postings(index, language, s);
      found := found + set k | k in posted;
      assert shingles - (rest - {s}) == (shingles - rest) + {s};
      rest := rest - {s};
    }
    assert shingles - rest == shingles;
  }

  /** List unit `i` under each of its shingles. */
  method Post(index: Index, language: string, shingles: set<string>, i: nat) returns (index': Index)
    ensures forall l, s, k: nat :: Listed(index', l, s, k) <==>
      Listed(index, l, s, k) || (l == language && s in shingles && k == i)
  {
    index' := index;
    var rest := shingles;
    while rest != {}
      invariant rest <= shingles
      invariant forall l, s, k: nat :: Listed(index', l, s, k) <==>
        Listed(index, l, s, k) || (l == language && s in shingles - rest && k == i)
      decreases |rest|
    {
      var s :| s in rest;
      ghost var before := index';
      index' := index'[(language, s) := Postings(index', language, s) + [i]];
      forall l, z, k: nat ensures Listed(index', l, z, k) <==> Listed(before, l, z, k) || (l == language && z == s && k == i) {
        if l == language && z == s {
          assert Postings(index', l, z) == Postings(before, l, z) + [i];
        } else {
          assert Postings(index', l, z) == Postings(before, l, z);
        }
      }
      rest := rest - {s};
    }
  }

  /** Disjoint sets are not similar at any positive threshold. */
  lemma SimilarShare(a: set<string>, b: set<string>, threshold: real)
    requires 0.0 < threshold <= Score(a, b)
    ensures a * b != {}
  {}

  /** Score the candidates of unit `i`. */
  method AddEdges(us: seq<Unit>, threshold: real, i: nat, candidates: set<nat>, edges: Edges) returns (edges': Edges)
    requires i < |us|
    requires forall j :: j in candidates ==> j < i && us[j].language == us[i].language
    ensures forall a: nat, b: nat :: (a, b) in edges' <==> (a, b) in edges || (b == i && a in candidates && Similar(us, threshold, a, b))
    ensures forall a: nat, b: nat :: (a, b) in edges' ==>
      edges'[(a, b)] == if b == i && a in candidates && Similar(us, threshold, a, b)
                        then Score(Shingles(us[i]), Shingles(us[a])) else edges[(a, b)]
  {
    edges' := edges;
    var rest := candidates;
    while rest != {}
      invariant rest <= candidates
      invariant forall a: nat, b: nat :: (a, b) in edges' <==>
        (a, b) in edges || (b == i && a in candidates - rest && Similar(us, threshold, a, b))
      invariant forall a: nat, b: nat :: (a, b) in edges' ==>
        edges'[(a, b)] == if b == i && a in candidates - rest && Similar(us, threshold, a, b)
                          then Score(Shingles(us[i]), Shingles(us[a])) else edges[(a, b)]
      decreases |rest|
    {
      var j :| j in rest;
      var score := Score(Shingles(us[i]), Shingles(us[j]));
      if score >= threshold {
        edges' := edges'[(j, i) := score];
      }
      rest := rest - {j};
    }
  }

  /** What the edge dictionary has to be for the first `n` units. */
  ghost predicate EdgesExact(us: seq<Unit>, threshold: real, edges: Edges, n: nat) {
    && (forall a: nat, b: nat :: (a, b) in edges <==> b < n && Similar(us, threshold, a, b))
    && (forall a: nat, b: nat :: (a, b) in edges && a < |us| && b < |us| ==>
          edges[(a, b)] == Score(Shingles(us[b]), Shingles(us[a])))
  }

  /** The pairs found through the index are exactly the pairs brute force accepts. */
  method FindEdges(us: seq<Unit>, threshold: real) returns (edges: Edges)
    requires 0.0 < threshold <= 1.0
    ensures EdgesExact(us, threshold, edges, |us|)
  {
    var index: Index := map[];
    edges := map[];
    assert forall l, s, k: nat :: !Listed(index, l, s, k);
    for i := 0 to |us|
      invariant Indexes(index, us, i)
      invariant EdgesExact(us, threshold, edges, i)
    {
      var own := Shingles(us[i]);
      var candidates := Candidates(index, us[i].language, own);
      assert forall j: nat :: j in candidates <==>
        j < i && us[j].language == us[i].language && own * Shingles(us[j]) != {} by {
        CandidatesMeaning(index, us, i, candidates);
      }
      forall j | Similar(us, threshold, j, i) ensures j in candidates {
        SimilarShare(own, Shingles(us[j]), threshold);
      }
      edges := AddEdges(us, threshold, i, candidates, edges);
      index := Post(index, us[i].language, own, i);
    }
  }

  lemma CandidatesMeaning(index: Index, us: seq<Unit>, i: nat, candidates: set<nat>)
    requires i < |us| && Indexes(index, us, i)
    requires forall k: nat :: k in candidates <==>
      exists s :: s in Shingles(us[i]) && Listed(index, us[i].language, s, k)
    ensures forall j: nat :: j in candidates <==>
      j < i && us[j].language == us[i].language && Shingles(us[i]) * Shingles(us[j]) != {}
  {
    forall j: nat | j in candidates
      ensures j < i && us[j].language == us[i].language && Shingles(us[i]) * Shingles(us[j]) != {}
    {
      var s :| s in Shingles(us[i]) && Listed(index, us[i].language, s, j);
      assert s in Shingles(us[i]) * Shingles(us[j]);
    }
    forall j: nat | j < i && us[j].language == us[i].language && Shingles(us[i]) * Shingles(us[j]) != {}
      ensures j in candidates
    {
      var s :| s in Shingles(us[i]) * Shingles(us[j]);
      assert Listed(index, us[i].language, s, j);
    }
  }
}
