/** From similarity edges and clusters to the reported near-duplicate groups. */
module FuzzyReport {
  import opened Ordering
  import opened FuzzyGroups
  import opened Clusters

  /** One unit of a reported group, compared with the peer least like it. */
  datatype Member = Member(of: Unit, score: real, reference: Location,
                           added: set<string>, removed: set<string>)

  datatype FuzzyGroup = FuzzyGroup(tokens: nat, members: seq<Member>)

  /** The order that makes clustering deterministic: path, then byte offset, then exact hash. */
  predicate UnitLe(a: Unit, b: Unit) {
    if a.at.path != b.at.path then StringLe(a.at.path, b.at.path)
    else if a.at.startByte != b.at.startByte then a.at.startByte < b.at.startByte
    else StringLe(a.exact, b.exact)
  }

  /** Units are numbered by path, in a file by offset, and at an offset by exact hash. */
  predicate InOrder(a: Unit, b: Unit) {
    && StringLe(a.at.path, b.at.path)
    && (a.at.path == b.at.path ==> a.at.startByte <= b.at.startByte)
    && (a.at.path == b.at.path && a.at.startByte == b.at.startByte ==> StringLe(a.exact, b.exact))
  }

  predicate IdentityLe(a: (string, string), b: (string, string)) {
    if a.0 != b.0 then StringLe(a.0, b.0) else StringLe(a.1, b.1)
  }

  lemma UnitLePreorder()
    ensures TotalPreorder(UnitLe)
  {
    forall a, b ensures UnitLe(a, b) || UnitLe(b, a) {
      StringLeTotal(a.at.path, b.at.path);
      StringLeTotal(a.exact, b.exact);
    }
    forall a, b, c | UnitLe(a, b) && UnitLe(b, c) ensures UnitLe(a, c) {
      if a.at.path != b.at.path && b.at.path != c.at.path {
        StringLeTransitive(a.at.path, b.at.path, c.at.path);
        if a.at.path == c.at.path { StringLeAntisymmetric(a.at.path, b.at.path); }
      } else if a.at.path == b.at.path == c.at.path && a.at.startByte == b.at.startByte == c.at.startByte {
        StringLeTransitive(a.exact, b.exact, c.exact);
      }
    }
  }

  /** The brute-force similarity graph. */
  ghost function NeighborsOf(us: seq<Unit>, threshold: real): Neighbors {
    seq(|us|, i requires 0 <= i < |us| => set j: nat | j < i && Similar(us, threshold, j, i))
  }

  function Paths(us: seq<Unit>, cluster: seq<nat>): set<string>
    requires forall p :: 0 <= p < |cluster| ==> cluster[p] < |us|
  {
    set p | 0 <= p < |cluster| :: us[cluster[p]].at.path
  }

  /** The identity an exception refers to: the sorted paths and blinded hashes. */
  function Identity(us: seq<Unit>, cluster: seq<nat>): seq<(string, string)>
    requires forall p :: 0 <= p < |cluster| ==> cluster[p] < |us|
  {
    Sort(IdentityLe, seq(|cluster|, p requires 0 <= p < |cluster| => (us[cluster[p]].at.path, us[cluster[p]].blinded)))
  }

  lemma IdentityLePreorder()
    ensures TotalPreorder(IdentityLe)
  {
    forall a, b ensures IdentityLe(a, b) || IdentityLe(b, a) {
      StringLeTotal(a.0, b.0);
      StringLeTotal(a.1, b.1);
    }
    forall a, b, c | IdentityLe(a, b) && IdentityLe(b, c) ensures IdentityLe(a, c) {
      if a.0 != b.0 && b.0 != c.0 {
        StringLeTransitive(a.0, b.0, c.0);
        if a.0 == c.0 { StringLeAntisymmetric(a.0, b.0); }
      } else if a.0 == b.0 == c.0 {
        StringLeTransitive(a.1, b.1, c.1);
      }
    }
  }

  /** An identity holds the path and the blinded hash of every member, sorted by path and then by
      hash, so that it does not depend on how the members were found. */
  lemma IdentityMeans(us: seq<Unit>, cluster: seq<nat>)
    requires InRange(us, cluster)
    ensures var listed := seq(|cluster|, p requires 0 <= p < |cluster| => (us[cluster[p]].at.path, us[cluster[p]].blinded));
      multiset(Identity(us, cluster)) == multiset(listed)
    ensures forall p, q :: 0 <= p < q < |Identity(us, cluster)| ==>
      && StringLe(Identity(us, cluster)[p].0, Identity(us, cluster)[q].0)
      && (Identity(us, cluster)[p].0 == Identity(us, cluster)[q].0 ==> StringLe(Identity(us, cluster)[p].1, Identity(us, cluster)[q].1))
  {
    var listed := seq(|cluster|, p requires 0 <= p < |cluster| => (us[cluster[p]].at.path, us[cluster[p]].blinded));
    IdentityLePreorder();
    SortCorrect(IdentityLe, listed);
    var sorted := Sort(IdentityLe, listed);
    forall p, q | 0 <= p < q < |sorted|
      ensures StringLe(sorted[p].0, sorted[q].0) && (sorted[p].0 == sorted[q].0 ==> StringLe(sorted[p].1, sorted[q].1))
    {
      assert IdentityLe(sorted[p], sorted[q]);
      StringLeTotal(sorted[p].0, sorted[q].0);
    }
  }

  ghost predicate InRange(us: seq<Unit>, cluster: seq<nat>) {
    forall p :: 0 <= p < |cluster| ==> cluster[p] < |us|
  }

  /** Similarity does not depend on which unit comes first. */
  function Alike(us: seq<Unit>, i: nat, j: nat): real
    requires i < |us| && j < |us|
  {
    Score(Shingles(us[i]), Shingles(us[j]))
  }

  lemma ScoreSymmetric(a: set<string>, b: set<string>)
    ensures Score(a, b) == Score(b, a)
  {
    assert a + b == b + a && a * b == b * a;
  }

  /** `m` describes the unit at position `p` against the peer at position `q`, which is the
      least similar one and, among equals, the earliest. */
  ghost predicate Describes(us: seq<Unit>, cluster: seq<nat>, p: nat, q: nat, m: Member)
    requires InRange(us, cluster) && p < |cluster|
  {
    && q < |cluster| && q != p
    && m == Member(us[cluster[p]], Alike(us, cluster[p], cluster[q]), us[cluster[q]].at,
                   Shingles(us[cluster[p]]) - Shingles(us[cluster[q]]),
                   Shingles(us[cluster[q]]) - Shingles(us[cluster[p]]))
    && (forall r :: 0 <= r < |cluster| && r != p ==>
          Alike(us, cluster[p], cluster[q]) < Alike(us, cluster[p], cluster[r])
          || (Alike(us, cluster[p], cluster[q]) == Alike(us, cluster[p], cluster[r]) && cluster[q] <= cluster[r]))
  }

  ghost predicate Described(us: seq<Unit>, cluster: seq<nat>, p: nat, m: Member)
    requires InRange(us, cluster) && p < |cluster|
  {
    exists q :: Describes(us, cluster, p, q, m)
  }

  ghost predicate Reports(us: seq<Unit>, cluster: seq<nat>, g: FuzzyGroup)
    requires InRange(us, cluster)
  {
    && |g.members| == |cluster|
    && (forall p :: 0 <= p < |cluster| ==> Described(us, cluster, p, g.members[p]))
    && (forall p :: 0 <= p < |cluster| ==> g.tokens <= us[cluster[p]].tokens)
    && (exists p :: 0 <= p < |cluster| && g.tokens == us[cluster[p]].tokens)
  }

  /** A cluster as the report may rely on it: ordered, and a clique in the edge dictionary. */
  ghost predicate Reportable(us: seq<Unit>, edges: Edges, threshold: real, cluster: seq<nat>) {
    && InRange(us, cluster)
    && EdgesExact(us, threshold, edges, |us|)
    && (forall p, q :: 0 <= p < q < |cluster| ==> cluster[p] < cluster[q] && (cluster[p], cluster[q]) in edges)
  }

  /** `edges[min(i, j), max(i, j)]`, which is always there. */
  method EdgeScore(us: seq<Unit>, ghost threshold: real, edges: Edges, cluster: seq<nat>, p: nat, q: nat) returns (s: real)
    requires Reportable(us, edges, threshold, cluster)
    requires p < |cluster| && q < |cluster| && p != q
    ensures s == Alike(us, cluster[p], cluster[q]) >= threshold
  {
    var i, j := cluster[p], cluster[q];
    var lo, hi := if i < j then i else j, if i < j then j else i;
    assert (lo, hi) in edges;
    s := edges[(lo, hi)];
    ScoreSymmetric(Shingles(us[i]), Shingles(us[j]));
  }

  method Compare(us: seq<Unit>, ghost threshold: real, edges: Edges, cluster: seq<nat>, p: nat)
    returns (m: Member, ghost reference: nat)
    requires Reportable(us, edges, threshold, cluster)
    requires 2 <= |cluster| && p < |cluster|
    ensures Describes(us, cluster, p, reference, m)
    ensures m.score >= threshold
  {
    var best := if p == 0 then 1 else 0;
    var score := EdgeScore(us, threshold, edges, cluster, p, best);
    for q := best + 1 to |cluster|
      invariant best < q && best != p
      invariant score == Alike(us, cluster[p], cluster[best]) >= threshold
      invariant forall r :: 0 <= r < q && r != p ==>
          score < Alike(us, cluster[p], cluster[r])
          || (score == Alike(us, cluster[p], cluster[r]) && cluster[best] <= cluster[r])
    {
      if q != p {
        var other := EdgeScore(us, threshold, edges, cluster, p, q);
        if other < score { best, score := q, other; }
      }
    }
    reference := best;
    m := Member(us[cluster[p]], score, us[cluster[best]].at,
                Shingles(us[cluster[p]]) - Shingles(us[cluster[best]]),
                Shingles(us[cluster[best]]) - Shingles(us[cluster[p]]));
  }

  method Describe(us: seq<Unit>, ghost threshold: real, edges: Edges, cluster: seq<nat>) returns (g: FuzzyGroup)
    requires Reportable(us, edges, threshold, cluster)
    requires 2 <= |cluster|
    ensures Reports(us, cluster, g)
    ensures forall p :: 0 <= p < |g.members| ==> g.members[p].score >= threshold
  {
    var members: seq<Member> := [];
    var tokens := us[cluster[0]].tokens;
    for p := 0 to |cluster|
      invariant |members| == p
      invariant forall k :: 0 <= k < p ==> Described(us, cluster, k, members[k])
      invariant forall k :: 0 <= k < p ==> members[k].score >= threshold
      invariant forall k :: 0 <= k < p ==> tokens <= us[cluster[k]].tokens
      invariant exists k :: 0 <= k < |cluster| && tokens == us[cluster[k]].tokens
    {
      var m, reference := Compare(us, threshold, edges, cluster, p);
      members := members + [m];
      if us[cluster[p]].tokens < tokens { tokens := us[cluster[p]].tokens; }
    }
    g := FuzzyGroup(tokens, members);
  }

  /** Cluster `c` spans at least three files. */
  ghost predicate Qualifies(us: seq<Unit>, labels: Labels, c: nat) {
    InRange(us, Members(labels, c)) && |Paths(us, Members(labels, c))| >= 3
  }

  ghost function KeyOf(us: seq<Unit>, labels: Labels, c: nat, digest: seq<(string, string)> -> string): string
    requires Qualifies(us, labels, c)
  {
    "type3:" + digest(Identity(us, Members(labels, c)))
  }

  /** `g` is what is reported under `key` for cluster `c`. */
  ghost predicate FromCluster(us: seq<Unit>, labels: Labels, digest: seq<(string, string)> -> string,
                              c: nat, key: string, g: FuzzyGroup) {
    Qualifies(us, labels, c) && key == KeyOf(us, labels, c, digest) && Reports(us, Members(labels, c), g)
  }

  /** The report of a clustering: nothing but qualifying clusters, `from` saying which, and all
      of the first `n`. Two clusters of the same identity share a key; the later one is kept. */
  ghost predicate ReportOf(us: seq<Unit>, labels: Labels, threshold: real, digest: seq<(string, string)> -> string,
                           result: map<string, FuzzyGroup>, from: map<string, nat>, n: nat) {
    && NothingElse(us, labels, digest, result, from)
    && AllReported(us, labels, digest, result, from, n)
    && (forall key :: key in result ==> AtLeast(threshold, result[key]))
  }

  ghost predicate NothingElse(us: seq<Unit>, labels: Labels, digest: seq<(string, string)> -> string,
                              result: map<string, FuzzyGroup>, from: map<string, nat>) {
    forall key :: key in result ==> key in from && FromCluster(us, labels, digest, from[key], key, result[key])
  }

  ghost predicate AllReported(us: seq<Unit>, labels: Labels, digest: seq<(string, string)> -> string,
                              result: map<string, FuzzyGroup>, from: map<string, nat>, n: nat) {
    forall c: nat :: c < n && Qualifies(us, labels, c) ==>
      var key := KeyOf(us, labels, c, digest); key in result && key in from && c <= from[key]
  }

  predicate AtLeast(threshold: real, g: FuzzyGroup) {
    forall p :: 0 <= p < |g.members| ==> g.members[p].score >= threshold
  }

  lemma PathsSnoc(us: seq<Unit>, init: seq<nat>, i: nat)
    requires InRange(us, init) && i < |us|
    ensures InRange(us, init + [i]) && Paths(us, init + [i]) == Paths(us, init) + {us[i].at.path}
  {
    var cluster := init + [i];
    assert cluster[|init|] == i;
    forall p | 0 <= p < |init| ensures cluster[p] == init[p] {}
    forall x | x in Paths(us, init) ensures x in Paths(us, cluster) {
      var p :| 0 <= p < |init| && us[init[p]].at.path == x;
      assert us[cluster[p]].at.path == x;
    }
  }

  lemma {:induction false} PathsBound(us: seq<Unit>, cluster: seq<nat>)
    requires InRange(us, cluster)
    ensures |Paths(us, cluster)| <= |cluster|
    decreases |cluster|
  {
    if cluster != [] {
      var last := |cluster| - 1;
      assert cluster == cluster[..last] + [cluster[last]];
      PathsBound(us, cluster[..last]);
      PathsSnoc(us, cluster[..last], cluster[last]);
    }
  }

  lemma AddReport(us: seq<Unit>, labels: Labels, threshold: real, digest: seq<(string, string)> -> string,
                  result: map<string, FuzzyGroup>, from: map<string, nat>, c: nat, key: string, g: FuzzyGroup)
    requires ReportOf(us, labels, threshold, digest, result, from, c)
    requires FromCluster(us, labels, digest, c, key, g) && AtLeast(threshold, g)
    ensures ReportOf(us, labels, threshold, digest, result[key := g], from[key := c], c + 1)
  {
    AddOne(us, labels, digest, result, from, c, key, g);
    AddAll(us, labels, digest, result, from, c, key, g);
  }

  lemma AddOne(us: seq<Unit>, labels: Labels, digest: seq<(string, string)> -> string,
               result: map<string, FuzzyGroup>, from: map<string, nat>, c: nat, key: string, g: FuzzyGroup)
    requires NothingElse(us, labels, digest, result, from) && FromCluster(us, labels, digest, c, key, g)
    ensures NothingElse(us, labels, digest, result[key := g], from[key := c])
  {}

  lemma AddAll(us: seq<Unit>, labels: Labels, digest: seq<(string, string)> -> string,
               result: map<string, FuzzyGroup>, from: map<string, nat>, c: nat, key: string, g: FuzzyGroup)
    requires AllReported(us, labels, digest, result, from, c)
    requires Qualifies(us, labels, c) && key == KeyOf(us, labels, c, digest)
    ensures AllReported(us, labels, digest, result[key := g], from[key := c], c + 1)
  {}

  /** The neighbour sets read off the edge dictionary. */
  function NeighborSets(edges: Edges, n: nat): Neighbors {
    seq(n, i requires 0 <= i < n => set j: nat | j < i && (j, i) in edges)
  }

  lemma NeighborsAgree(us: seq<Unit>, threshold: real, edges: Edges)
    requires EdgesExact(us, threshold, edges, |us|)
    ensures NeighborSets(edges, |us|) == NeighborsOf(us, threshold)
  {
    var a, b := NeighborSets(edges, |us|), NeighborsOf(us, threshold);
    forall i | 0 <= i < |us| ensures a[i] == b[i] {
      assert a[i] == set j: nat | j < i && (j, i) in edges;
      assert b[i] == set j: nat | j < i && Similar(us, threshold, j, i);
      assert forall j: nat :: j in a[i] <==> j in b[i];
    }
  }

  /** A qualifying cluster is one of the listed ones. */
  lemma QualifyingListed(us: seq<Unit>, labels: Labels, clusters: seq<seq<nat>>, c: nat)
    requires Agree(clusters, labels) && Qualifies(us, labels, c)
    ensures c < |clusters|
  {
    PathsBound(us, Members(labels, c));
    MembersListed(labels, c);
    assert Members(labels, c)[0] in Members(labels, c);
  }

  lemma SkipReport(us: seq<Unit>, labels: Labels, threshold: real, digest: seq<(string, string)> -> string,
                   result: map<string, FuzzyGroup>, from: map<string, nat>, c: nat)
    requires ReportOf(us, labels, threshold, digest, result, from, c) && !Qualifies(us, labels, c)
    ensures ReportOf(us, labels, threshold, digest, result, from, c + 1)
  {}

  /** Report one cluster, if it spans three files. */
  method ReportOne(us: seq<Unit>, ghost threshold: real, edges: Edges, cluster: seq<nat>,
                   ghost labels: Labels, ghost c: nat, digest: seq<(string, string)> -> string)
    returns (key: string, g: FuzzyGroup, reported: bool)
    requires cluster == Members(labels, c) && Reportable(us, edges, threshold, cluster)
    ensures reported == Qualifies(us, labels, c)
    ensures reported ==> FromCluster(us, labels, digest, c, key, g) && AtLeast(threshold, g)
  {
    key, g := "", FuzzyGroup(0, []);
    reported := |Paths(us, cluster)| >= 3;
    if reported {
      PathsBound(us, cluster);
      g := Describe(us, threshold, edges, cluster);
      key := "type3:" + digest(Identity(us, cluster));
    }
  }

  method Report(us: seq<Unit>, ghost threshold: real, edges: Edges, clusters: seq<seq<nat>>, ghost labels: Labels,
                digest: seq<(string, string)> -> string)
    returns (result: map<string, FuzzyGroup>, ghost from: map<string, nat>)
    requires |labels| == |us| && EdgesExact(us, threshold, edges, |us|)
    requires FirstFit(labels, NeighborsOf(us, threshold)) && Agree(clusters, labels)
    ensures ReportOf(us, labels, threshold, digest, result, from, |clusters|)
    ensures forall key :: key in result ==> AtLeast(threshold, result[key])
  {
    result, from := map[], map[];
    for c := 0 to |clusters|
      invariant ReportOf(us, labels, threshold, digest, result, from, c)
    {
      ClusterReportable(us, threshold, edges, labels, c);
      var key, g, reported := ReportOne(us, threshold, edges, clusters[c], labels, c, digest);
      if reported {
        AddReport(us, labels, threshold, digest, result, from, c, key, g);
        result, from := result[key := g], from[key := c];
      } else {
        SkipReport(us, labels, threshold, digest, result, from, c);
      }
    }
  }

  /** The whole grouping: sort, find edges, cluster, and report what spans three files. */
  method Groups(units: seq<Unit>, threshold: real, digest: seq<(string, string)> -> string)
    returns (result: map<string, FuzzyGroup>, ghost us: seq<Unit>, ghost labels: Labels, ghost from: map<string, nat>)
    requires 0.0 < threshold <= 1.0
    ensures us == Sort(UnitLe, units) && Sorted(UnitLe, us) && multiset(us) == multiset(units)
    ensures |labels| == |us| && FirstFit(labels, NeighborsOf(us, threshold))
    ensures forall i, j :: 0 <= i < j < |us| ==> InOrder(us[i], us[j])
    ensures forall n :: ReportOf(us, labels, threshold, digest, result, from, n)
    ensures forall key :: key in result ==> AtLeast(threshold, result[key])
  {
    UnitLePreorder();
    SortCorrect(UnitLe, units);
    var sorted := Sort(UnitLe, units);
    us := sorted;
    forall i, j | 0 <= i < j < |us| ensures InOrder(us[i], us[j]) {
      assert UnitLe(us[i], us[j]);
      StringLeTotal(us[i].at.path, us[j].at.path);
    }
    var edges := FindEdges(sorted, threshold);
    NeighborsAgree(sorted, threshold, edges);
    var clusters, membership := Cluster(NeighborSets(edges, |sorted|));
    labels := membership;
    result, from := Report(sorted, threshold, edges, clusters, labels, digest);
    forall c: nat | Qualifies(us, labels, c) ensures c < |clusters| {
      QualifyingListed(us, labels, clusters, c);
    }
  }

  lemma {:induction false} ClusterReportable(us: seq<Unit>, threshold: real, edges: Edges, labels: Labels, c: nat)
    requires |labels| == |us| && EdgesExact(us, threshold, edges, |us|)
    requires FirstFit(labels, NeighborsOf(us, threshold))
    ensures Reportable(us, edges, threshold, Members(labels, c))
  {
    var cluster := Members(labels, c);
    MembersListed(labels, c);
    CompleteLink(labels, NeighborsOf(us, threshold));
    forall p | 0 <= p < |cluster| ensures cluster[p] < |us| && labels[cluster[p]] == c {
      assert cluster[p] in cluster;
    }
    forall p, q | 0 <= p < q < |cluster| ensures (cluster[p], cluster[q]) in edges {
      assert cluster[p] in NeighborsOf(us, threshold)[cluster[q]];
    }
  }
}
