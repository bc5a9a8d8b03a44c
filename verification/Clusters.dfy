/** Greedy complete-link clustering of numbered units.

    Unit `i` is offered to the existing clusters in order of their number and joins the
    first one all of whose members are its neighbours; otherwise it opens a new cluster.
    The program only tries the clusters of `i`'s own neighbours. */
module Clusters {

  /** `neighbors[i]` holds the smaller-numbered units that `i` is similar to. */
  type Neighbors = seq<set<nat>>

  /** `labels[i]` is the number of the cluster unit `i` is in. */
  type Labels = seq<nat>

  /** All members that cluster `c` has before unit `i` comes are neighbours of `i`. An unused
      number fits too, so a new cluster is the choice of last resort. */
  ghost predicate Fits(labels: Labels, i: nat, near: set<nat>, c: nat)
    requires i <= |labels|
  {
    forall k :: 0 <= k < i && labels[k] == c ==> k in near
  }

  /** Every unit is in the lowest-numbered cluster that fits it, all clusters considered. */
  ghost predicate FirstFit(labels: Labels, neighbors: Neighbors) {
    && |labels| <= |neighbors|
    && (forall i :: 0 <= i < |labels| ==> Fits(labels, i, neighbors[i], labels[i]))
    && (forall i, d :: 0 <= i < |labels| && 0 <= d < labels[i] ==> !Fits(labels, i, neighbors[i], d))
  }

  /** The members of cluster `c`, in order. */
  function Members(labels: Labels, c: nat): seq<nat>
    decreases |labels|
  {
    if labels == [] then []
    else
      var last := |labels| - 1;
      Members(labels[..last], c) + (if labels[last] == c then [last] else [])
  }

  // ---------------------------------------------------------------- what first fit gives

  /** First fit leaves no freedom: there is one such clustering. */
  lemma {:induction false} FirstFitUnique(a: Labels, b: Labels, neighbors: Neighbors, n: nat)
    requires FirstFit(a, neighbors) && FirstFit(b, neighbors)
    requires n <= |a| && n <= |b|
    ensures a[..n] == b[..n]
  {
    if n > 0 {
      var i := n - 1;
      FirstFitUnique(a, b, neighbors, i);
      assert forall k :: 0 <= k < i ==> a[..i][k] == a[k] && b[..i][k] == b[k];
      if a[i] < b[i] {
        assert Fits(b, i, neighbors[i], a[i]);
      } else if b[i] < a[i] {
        assert Fits(a, i, neighbors[i], b[i]);
      }
    }
  }

  /** Every pair inside a cluster is a pair of neighbours. */
  lemma {:induction false} CompleteLink(labels: Labels, neighbors: Neighbors)
    requires FirstFit(labels, neighbors)
    ensures forall j, i :: 0 <= j < i < |labels| && labels[j] == labels[i] ==> j in neighbors[i]
  {
    forall j, i | 0 <= j < i < |labels| && labels[j] == labels[i] ensures j in neighbors[i] {
      assert Fits(labels, i, neighbors[i], labels[i]);
    }
  }

  /** No two clusters could be merged into one clique: every unit of the higher-numbered one
      misses a neighbour in the lower-numbered one. */
  lemma NoMerge(labels: Labels, neighbors: Neighbors, c: nat, i: nat)
    requires FirstFit(labels, neighbors)
    requires i < |labels| && c < labels[i]
    ensures exists j :: 0 <= j < i && labels[j] == c && j !in neighbors[i]
  {
    assert !Fits(labels, i, neighbors[i], c);
  }

  lemma {:induction false} NoMembers(labels: Labels, c: nat)
    requires forall k :: 0 <= k < |labels| ==> labels[k] != c
    ensures Members(labels, c) == []
    decreases |labels|
  {
    if labels != [] { NoMembers(labels[..|labels| - 1], c); }
  }

  lemma {:induction false} MembersListed(labels: Labels, c: nat)
    ensures forall k :: k in Members(labels, c) <==> 0 <= k < |labels| && labels[k] == c
    ensures forall p, q :: 0 <= p < q < |Members(labels, c)| ==> Members(labels, c)[p] < Members(labels, c)[q]
    decreases |labels|
  {
    if labels != [] {
      var last := |labels| - 1;
      MembersListed(labels[..last], c);
      forall k | 0 <= k < last ensures labels[..last][k] == labels[k] {}
      var init := Members(labels[..last], c);
      forall p | 0 <= p < |init| ensures init[p] < last { assert init[p] in init; }
    }
  }

  lemma MembersSnoc(labels: Labels, x: nat, c: nat)
    ensures Members(labels + [x], c) == Members(labels, c) + (if x == c then [|labels|] else [])
  {
    assert (labels + [x])[..|labels|] == labels;
  }

  // ---------------------------------------------------------------- the program's loop

  /** The list of clusters agrees with the membership dictionary. */
  ghost predicate Agree(clusters: seq<seq<nat>>, membership: Labels) {
    && (forall k :: 0 <= k < |membership| ==> membership[k] < |clusters|)
    && (forall c :: 0 <= c < |clusters| ==> clusters[c] == Members(membership, c) != [])
  }

  predicate AllIn(cluster: seq<nat>, near: set<nat>) {
    forall p :: 0 <= p < |cluster| ==> cluster[p] in near
  }

  lemma AllInFits(clusters: seq<seq<nat>>, membership: Labels, near: set<nat>, c: nat)
    requires Agree(clusters, membership) && c < |clusters|
    ensures AllIn(clusters[c], near) <==> Fits(membership, |membership|, near, c)
  {
    MembersListed(membership, c);
    if AllIn(clusters[c], near) {
      forall k | 0 <= k < |membership| && membership[k] == c ensures k in near {
        assert k in clusters[c];
      }
    } else {
      var p :| 0 <= p < |clusters[c]| && clusters[c][p] !in near;
      assert clusters[c][p] in clusters[c];
    }
  }

  /** The number the unit gets: the lowest among its neighbours' clusters that is full of
      neighbours, or a new one. Passing over the other clusters loses nothing. */
  method Choose(clusters: seq<seq<nat>>, membership: Labels, near: set<nat>) returns (choice: nat)
    requires Agree(clusters, membership)
    requires forall j :: j in near ==> j < |membership|
    ensures choice <= |clusters|
    ensures Fits(membership, |membership|, near, choice)
    ensures forall d :: 0 <= d < choice ==> !Fits(membership, |membership|, near, d)
  {
    var choices := set j | j in near :: membership[j];
    choice := 0;
    while choice < |clusters| && !(choice in choices && AllIn(clusters[choice], near))
      invariant choice <= |clusters|
      invariant forall d :: 0 <= d < choice ==> !Fits(membership, |membership|, near, d)
    {
      MembersListed(membership, choice);
      AllInFits(clusters, membership, near, choice);
      assert clusters[choice][0] in clusters[choice];
      choice := choice + 1;
    }
    if choice < |clusters| { AllInFits(clusters, membership, near, choice); }
  }

  /** Put unit `|membership|` into cluster `choice`. */
  method Join(clusters: seq<seq<nat>>, membership: Labels, choice: nat) returns (clusters': seq<seq<nat>>)
    requires Agree(clusters, membership) && choice <= |clusters|
    ensures Agree(clusters', membership + [choice])
  {
    var i := |membership|;
    forall c: nat ensures Members(membership + [choice], c) == Members(membership, c) + (if choice == c then [i] else []) {
      MembersSnoc(membership, choice, c);
    }
    if choice < |clusters| {
      clusters' := clusters[choice := clusters[choice] + [i]];
    } else {
      NoMembers(membership, choice);
      clusters' := clusters + [[i]];
    }
  }

  /** The program's clustering is first fit over all clusters. */
  method Cluster(neighbors: Neighbors) returns (clusters: seq<seq<nat>>, membership: Labels)
    requires forall i, j :: 0 <= i < |neighbors| && j in neighbors[i] ==> j < i
    ensures |membership| == |neighbors| && FirstFit(membership, neighbors)
    ensures Agree(clusters, membership)
  {
    clusters, membership := [], [];
    for i := 0 to |neighbors|
      invariant |membership| == i && FirstFit(membership, neighbors)
      invariant Agree(clusters, membership)
    {
      var choice := Choose(clusters, membership, neighbors[i]);
      clusters := Join(clusters, membership, choice);
      FirstFitSnoc(membership, neighbors, choice);
      membership := membership + [choice];
    }
  }

  lemma FirstFitSnoc(labels: Labels, neighbors: Neighbors, choice: nat)
    requires |labels| < |neighbors| && FirstFit(labels, neighbors)
    requires Fits(labels, |labels|, neighbors[|labels|], choice)
    requires forall d :: 0 <= d < choice ==> !Fits(labels, |labels|, neighbors[|labels|], d)
    ensures FirstFit(labels + [choice], neighbors)
  {
    var more := labels + [choice];
    forall i: nat, c: nat | i <= |labels| ensures i < |neighbors| && Fits(more, i, neighbors[i], c) == Fits(labels, i, neighbors[i], c) {
      assert forall k :: 0 <= k < i ==> more[k] == labels[k];
    }
  }
}
