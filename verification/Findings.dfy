/** The gate: which duplication of the current revision is new with respect to the base. */
module Findings {
  import opened Options
  import opened Ordering
  import opened SetFacts
  import opened FuzzyGroups
  import opened Clusters
  import opened FuzzyReport
  import opened Pruning

  /** What a scan of one revision found. `fuzzy` is present when grouping was already done. */
  datatype Report = Report(groups: map<string, Group>, units: seq<Unit>, fuzzy: Option<map<string, FuzzyGroup>>)

  type Identity = (string, string)

  function IdentityOf(u: Unit): Identity {
    (u.language, u.exact)
  }

  function Identities(us: seq<Unit>): seq<Identity> {
    seq(|us|, i requires 0 <= i < |us| => IdentityOf(us[i]))
  }

  function Units(g: FuzzyGroup): seq<Unit> {
    seq(|g.members|, i requires 0 <= i < |g.members| => g.members[i].of)
  }

  function AsGroup(g: FuzzyGroup): Group {
    Group("type3", g.tokens, seq(|g.members|, i requires 0 <= i < |g.members| => g.members[i].of.at))
  }

  /** An exact or type-2 group is new when it spans three files and grew in files or copies. */
  predicate DirectlyNew(now: Group, was: Group) {
    && |PathSet(now)| >= 3
    && (|PathSet(now)| > |PathSet(was)| || |now.locations| > |was.locations|)
  }

  /** The files in which the base already had units of these identities. */
  function OldPaths(base: seq<Unit>, identities: set<Identity>): set<string> {
    set i | 0 <= i < |base| && IdentityOf(base[i]) in identities :: base[i].at.path
  }

  function IdentitiesIn(g: FuzzyGroup): set<Identity> {
    set i | 0 <= i < |g.members| :: IdentityOf(g.members[i].of)
  }

  /** A near-duplicate group is new when its members spread to more files than units of the
      same identities had, or when some identity became more frequent. */
  predicate FuzzilyNew(g: FuzzyGroup, current: seq<Unit>, base: seq<Unit>) {
    || |PathSet(AsGroup(g))| > |OldPaths(base, IdentitiesIn(g))|
    || exists x :: x in IdentitiesIn(g) && multiset(Identities(current))[x] > multiset(Identities(base))[x]
  }

  /** How many units have a language and an exact hash. */
  ghost function Frequency(us: seq<Unit>, language: string, exact: string): nat {
    |set k: nat | k < |us| && us[k].language == language && us[k].exact == exact|
  }

  lemma FrequencyCounts(us: seq<Unit>, language: string, exact: string)
    ensures multiset(Identities(us))[(language, exact)] == Frequency(us, language, exact)
  {
    CountIsPositions(Identities(us), (language, exact));
    assert Positions(Identities(us), (language, exact)) ==
      set k: nat | k < |us| && us[k].language == language && us[k].exact == exact;
  }

  /** In terms of units: some member's language and exact hash became more frequent, or the members'
      files outnumber the files that had units with a member's language and exact hash. */
  lemma FuzzilyNewMeans(g: FuzzyGroup, current: seq<Unit>, base: seq<Unit>)
    ensures FuzzilyNew(g, current, base) <==>
      || (exists i :: 0 <= i < |g.members| &&
            Frequency(current, g.members[i].of.language, g.members[i].of.exact)
              > Frequency(base, g.members[i].of.language, g.members[i].of.exact))
      || |set i | 0 <= i < |g.members| :: g.members[i].of.at.path| >
         |set k | 0 <= k < |base| && SharesIdentity(base[k], g) :: base[k].at.path|
  {
    forall i | 0 <= i < |g.members|
      ensures multiset(Identities(current))[IdentityOf(g.members[i].of)]
        == Frequency(current, g.members[i].of.language, g.members[i].of.exact)
      ensures multiset(Identities(base))[IdentityOf(g.members[i].of)]
        == Frequency(base, g.members[i].of.language, g.members[i].of.exact)
      ensures IdentityOf(g.members[i].of) in IdentitiesIn(g)
    {
      FrequencyCounts(current, g.members[i].of.language, g.members[i].of.exact);
      FrequencyCounts(base, g.members[i].of.language, g.members[i].of.exact);
    }
    MemberFiles(g);
    BaseFiles(g, base);
  }

  predicate SharesIdentity(u: Unit, g: FuzzyGroup) {
    exists i :: 0 <= i < |g.members| && g.members[i].of.language == u.language && g.members[i].of.exact == u.exact
  }

  lemma MemberFiles(g: FuzzyGroup)
    ensures PathSet(AsGroup(g)) == set i | 0 <= i < |g.members| :: g.members[i].of.at.path
  {
    var files := set i | 0 <= i < |g.members| :: g.members[i].of.at.path;
    forall p ensures p in PathSet(AsGroup(g)) <==> p in files {
      if p in files {
        var i :| 0 <= i < |g.members| && g.members[i].of.at.path == p;
        assert AsGroup(g).locations[i].path == p;
      }
    }
  }

  lemma BaseFiles(g: FuzzyGroup, base: seq<Unit>)
    ensures OldPaths(base, IdentitiesIn(g)) == set k | 0 <= k < |base| && SharesIdentity(base[k], g) :: base[k].at.path
  {
    forall k | 0 <= k < |base| ensures IdentityOf(base[k]) in IdentitiesIn(g) <==> SharesIdentity(base[k], g) {}
  }

  function OldGroup(base: Report, key: string): Group {
    if key in base.groups then base.groups[key] else Group("exact", 0, [])
  }

  function DirectFindings(current: Report, base: Report): map<string, Group> {
    map key | key in current.groups && DirectlyNew(current.groups[key], OldGroup(base, key)) :: current.groups[key]
  }

  function FuzzyFindings(groups: map<string, FuzzyGroup>, current: Report, base: Report): map<string, Group> {
    map key | key in groups && FuzzilyNew(groups[key], current.units, base.units) :: AsGroup(groups[key])
  }

  /** All findings, before nested ones are suppressed. */
  function Raw(groups: map<string, FuzzyGroup>, current: Report, base: Report): map<string, Group> {
    DirectFindings(current, base) + FuzzyFindings(groups, current, base)
  }

  /** `items` lists the dictionary `m` in some order. */
  ghost predicate Lists(items: seq<Item>, m: map<string, Group>) {
    && DistinctKeys(items)
    && (forall i :: 0 <= i < |items| ==> items[i].key in m && m[items[i].key] == items[i].group)
    && (forall key :: key in m ==> Item(key, m[key]) in items)
  }

  lemma {:induction false} ListsCount(items: seq<Item>, m: map<string, Group>, x: Item)
    requires Lists(items, m)
    ensures multiset(items)[x] == if x.key in m && m[x.key] == x.group then 1 else 0
  {
    CountIsPositions(items, x);
    if x.key in m && m[x.key] == x.group {
      assert Item(x.key, m[x.key]) == x;
      var i :| 0 <= i < |items| && items[i] == x;
      assert Positions(items, x) == {i};
    } else {
      assert Positions(items, x) == {};
    }
  }

  /** Two listings of one dictionary are pruned alike. */
  lemma ListingsPruneAlike(a: seq<Item>, b: seq<Item>, m: map<string, Group>)
    requires Lists(a, m) && Lists(b, m)
    ensures Pruned(a) == Pruned(b)
  {
    forall x ensures multiset(a)[x] == multiset(b)[x] {
      ListsCount(a, m, x);
      ListsCount(b, m, x);
    }
    PruneOrderFree(a, b);
  }

  method ListItems(m: map<string, Group>) returns (items: seq<Item>)
    ensures Lists(items, m)
  {
    items := [];
    var keys := m.Keys;
    while keys != {}
      invariant keys <= m.Keys
      invariant DistinctKeys(items)
      invariant forall i :: 0 <= i < |items| ==> items[i].key in m && items[i].key !in keys && m[items[i].key] == items[i].group
      invariant forall key :: key in m && key !in keys ==> Item(key, m[key]) in items
      decreases |keys|
    {
      var key :| key in keys;
      items := items + [Item(key, m[key])];
      keys := keys - {key};
    }
  }

  /** `part` is `all` but for the keys still to come. */
  ghost predicate PartOf(part: map<string, Group>, all: map<string, Group>, rest: set<string>) {
    part.Keys == all.Keys - rest && forall key :: key in part ==> part[key] == all[key]
  }

  lemma PartMore(part: map<string, Group>, all: map<string, Group>, rest: set<string>, key: string)
    requires PartOf(part, all, rest) && key in rest
    ensures PartOf(if key in all then part[key := all[key]] else part, all, rest - {key})
  {}

  method CollectDirect(current: Report, base: Report) returns (result: map<string, Group>)
    ensures result == DirectFindings(current, base)
  {
    result := map[];
    var keys := current.groups.Keys;
    ghost var all := DirectFindings(current, base);
    while keys != {}
      invariant keys <= current.groups.Keys && PartOf(result, all, keys)
      decreases |keys|
    {
      var key :| key in keys;
      PartMore(result, all, keys, key);
      if DirectlyNew(current.groups[key], OldGroup(base, key)) { result := result[key := current.groups[key]]; }
      keys := keys - {key};
    }
  }

  method CollectFuzzy(groups: map<string, FuzzyGroup>, current: Report, base: Report) returns (result: map<string, Group>)
    ensures result == FuzzyFindings(groups, current, base)
  {
    result := map[];
    var keys := groups.Keys;
    ghost var all := FuzzyFindings(groups, current, base);
    while keys != {}
      invariant keys <= groups.Keys && PartOf(result, all, keys)
      decreases |keys|
    {
      var key :| key in keys;
      PartMore(result, all, keys, key);
      if FuzzilyNew(groups[key], current.units, base.units) { result := result[key := AsGroup(groups[key])]; }
      keys := keys - {key};
    }
  }

  /** A finding is a near-duplicate group that is new, shown with its members' locations, or else an exact
      or type-2 group that is new, as it stands. */
  predicate Genuine(it: Item, groups: map<string, FuzzyGroup>, current: Report, base: Report) {
    if it.key in groups && FuzzilyNew(groups[it.key], current.units, base.units) then
      var g := groups[it.key];
      && it.group.kind == "type3" && it.group.tokens == g.tokens && |it.group.locations| == |g.members|
      && (forall i :: 0 <= i < |g.members| ==> it.group.locations[i] == g.members[i].of.at)
    else
      && it.key in current.groups && it.group == current.groups[it.key]
      && DirectlyNew(it.group, OldGroup(base, it.key))
  }

  /** `groups` reports the first-fit clusters of the sorted units at a threshold. */
  ghost predicate GroupedAt(threshold: real, units: seq<Unit>, digest: seq<(string, string)> -> string,
                            groups: map<string, FuzzyGroup>, us: seq<Unit>, labels: Labels, from: map<string, nat>) {
    && us == Sort(UnitLe, units) && |labels| == |us| && FirstFit(labels, NeighborsOf(us, threshold))
    && forall n :: ReportOf(us, labels, threshold, digest, groups, from, n)
  }

  /** The near-duplicate groups of a revision: those stored with it, or else grouped now. */
  method GroupsOf(current: Report, digest: seq<(string, string)> -> string)
    returns (groups: map<string, FuzzyGroup>, ghost us: seq<Unit>, ghost labels: Labels, ghost from: map<string, nat>)
    ensures current.fuzzy.Some? ==> groups == current.fuzzy.value
    ensures current.fuzzy.None? ==>
      GroupedAt(0.8, current.units, digest, groups, us, labels, from) && OwnUnits(groups, current.units)
  {
    if current.fuzzy.Some? {
      groups := current.fuzzy.value;
      us, labels, from := [], [], map[];
    } else {
      groups, us, labels, from := Groups(current.units, 0.8, digest);
      GroupsOwnUnits(groups, current.units, us, labels, 0.8, digest, from);
    }
  }

  lemma PrunedGenuine(items: seq<Item>, groups: map<string, FuzzyGroup>, current: Report, base: Report)
    requires Lists(items, Raw(groups, current, base))
    ensures forall i :: 0 <= i < |Pruned(items)| ==> Genuine(Pruned(items)[i], groups, current, base)
  {
    PrunedFacts(items);
    forall i | 0 <= i < |Pruned(items)| ensures Genuine(Pruned(items)[i], groups, current, base) {
      assert Pruned(items)[i] in items;
      RawGenuine(Pruned(items)[i], groups, current, base);
    }
  }

  lemma RawGenuine(it: Item, groups: map<string, FuzzyGroup>, current: Report, base: Report)
    requires it.key in Raw(groups, current, base) && Raw(groups, current, base)[it.key] == it.group
    ensures Genuine(it, groups, current, base)
  {}

  lemma PrunedEmpty(items: seq<Item>, raw: map<string, Group>)
    requires Lists(items, raw)
    ensures Pruned(items) == [] <==> raw == map[]
  {
    PrunedFacts(items);
    if items != [] { assert items[0].key in raw; }
  }

  /** Collect and prune what is new. The answer does not depend on the order of collection. */
  method FindNew(groups: map<string, FuzzyGroup>, current: Report, base: Report) returns (found: seq<Item>)
    ensures forall items :: Lists(items, Raw(groups, current, base)) ==> found == Pruned(items)
    ensures found == [] <==> Raw(groups, current, base) == map[]
    ensures forall i :: 0 <= i < |found| ==> Genuine(found[i], groups, current, base)
  {
    var direct := CollectDirect(current, base);
    var fuzzy := CollectFuzzy(groups, current, base);
    var raw := direct + fuzzy;
    var items := ListItems(raw);
    found := PruneNested(items);
    forall other | Lists(other, raw) ensures found == Pruned(other) {
      ListingsPruneAlike(items, other, raw);
    }
    PrunedEmpty(items, raw);
    PrunedGenuine(items, groups, current, base);
  }

  /** The gate's answer. */
  method NewDuplication(current: Report, base: Report, digest: seq<(string, string)> -> string)
    returns (found: seq<Item>, groups: map<string, FuzzyGroup>,
             ghost us: seq<Unit>, ghost labels: Labels, ghost from: map<string, nat>)
    ensures current.fuzzy.Some? ==> groups == current.fuzzy.value
    ensures current.fuzzy.None? ==>
      GroupedAt(0.8, current.units, digest, groups, us, labels, from) && OwnUnits(groups, current.units)
    ensures forall items :: Lists(items, Raw(groups, current, base)) ==> found == Pruned(items)
    ensures found == [] <==> Raw(groups, current, base) == map[]
    ensures forall i :: 0 <= i < |found| ==> Genuine(found[i], groups, current, base)
    ensures forall d :: Deletes(current, base, d) && OwnUnits(groups, current.units) ==>
      (found == [] <==> NothingGrew(groups, current, base, d))
    ensures forall d :: OnlyDeleted(current, base, d) && OwnUnits(groups, current.units) ==> found == []
  {
    groups, us, labels, from := GroupsOf(current, digest);
    found := FindNew(groups, current, base);
    ghost var raw := Raw(groups, current, base);
    forall d | Deletes(current, base, d) && OwnUnits(groups, current.units)
      ensures raw == map[] <==> NothingGrew(groups, current, base, d)
    {
      DeletionExactly(groups, current, base, d);
    }
    forall d | OnlyDeleted(current, base, d) && OwnUnits(groups, current.units) ensures raw == map[] {
      DeletionPasses(groups, current, base, d);
    }
  }

  // ---------------------------------------------------------------- what deletion does at the gate

  /** Every member of every group is one of the revision's units. */
  ghost predicate OwnUnits(groups: map<string, FuzzyGroup>, units: seq<Unit>) {
    forall key, i :: key in groups && 0 <= i < |groups[key].members| ==> groups[key].members[i].of in units
  }

  /** The grouping never invents a unit. */
  lemma {:induction false} GroupsOwnUnits(groups: map<string, FuzzyGroup>, units: seq<Unit>, us: seq<Unit>, labels: Labels,
                       threshold: real, digest: seq<(string, string)> -> string, from: map<string, nat>)
    requires multiset(us) == multiset(units)
    requires ReportOf(us, labels, threshold, digest, groups, from, 0)
    ensures OwnUnits(groups, units)
  {
    MultisetMembers(us, units);
    forall key, i | key in groups && 0 <= i < |groups[key].members| ensures groups[key].members[i].of in units {
      var cluster := Members(labels, from[key]);
      assert FromCluster(us, labels, digest, from[key], key, groups[key]);
      assert Described(us, cluster, i, groups[key].members[i]);
      assert us[cluster[i]] in us;
    }
  }

  /** How a revision came from the base by deletion. Files were renamed; a location or unit was kept
      at an index of the base, or is none the base had (-1): code that was shortened is not kept,
      it joins other code and the code it was is lost. */
  datatype Deletion = Deletion(rename: map<string, string>, unitAt: seq<int>, locationAt: map<string, seq<int>>)

  ghost predicate Injective(rename: map<string, string>) {
    forall p, q :: p in rename && q in rename && rename[p] == rename[q] ==> p == q
  }

  /** Kept units have their identity, and are in the file theirs became. */
  ghost predicate KeptUnits(rename: map<string, string>, at: seq<int>, current: seq<Unit>, base: seq<Unit>) {
    && Matching(Identities(current), Identities(base), at)
    && (forall i :: 0 <= i < |current| ==> current[i].at.path in rename)
    && (forall i :: 0 <= i < |current| && at[i] >= 0 ==> base[at[i]].at.path == rename[current[i].at.path])
  }

  /** Entries that are only counted. */
  ghost function Tags(n: nat): seq<()> {
    seq(n, i => ())
  }

  ghost predicate KeptLocations(rename: map<string, string>, at: seq<int>, now: seq<Location>, was: seq<Location>) {
    && Matching(Tags(|now|), Tags(|was|), at)
    && (forall i :: 0 <= i < |now| ==> now[i].path in rename)
    && (forall i :: 0 <= i < |now| && at[i] >= 0 ==> was[at[i]].path == rename[now[i].path])
  }

  /** Byte ranges are free, and so is what happened to code that is not kept. */
  ghost predicate Deletes(current: Report, base: Report, d: Deletion) {
    && Injective(d.rename)
    && KeptUnits(d.rename, d.unitAt, current.units, base.units)
    && (forall key :: key in current.groups ==>
          && key in d.locationAt
          && KeptLocations(d.rename, d.locationAt[key], current.groups[key].locations, OldGroup(base, key).locations))
  }

  // What was gained and what was lost: files, copies, units of an identity.

  ghost function FilesGained(rename: map<string, string>, now: set<string>, was: set<string>): set<string>
    requires now <= rename.Keys
  {
    Image(now, rename) - was
  }

  ghost function FilesLost(rename: map<string, string>, now: set<string>, was: set<string>): set<string>
    requires now <= rename.Keys
  {
    was - Image(now, rename)
  }

  ghost predicate MoreFiles(rename: map<string, string>, now: set<string>, was: set<string>) {
    now <= rename.Keys && |FilesGained(rename, now, was)| > |FilesLost(rename, now, was)|
  }

  ghost predicate MoreCopies(at: seq<int>, was: nat) {
    |Joined(Tags(|at|), at, ())| > |Lost(Tags(was), at, ())|
  }

  ghost predicate MoreUnits(at: seq<int>, current: seq<Unit>, base: seq<Unit>, x: Identity) {
    |at| == |current| && |Joined(Identities(current), at, x)| > |Lost(Identities(base), at, x)|
  }

  /** A group that spans three files gained more files or copies than it lost. */
  ghost predicate GroupGrew(d: Deletion, key: string, now: Group, was: Group) {
    && |PathSet(now)| >= 3 && key in d.locationAt
    && (MoreFiles(d.rename, PathSet(now), PathSet(was)) || MoreCopies(d.locationAt[key], |was.locations|))
  }

  /** A near-duplicate group gained more files than its identities lost, or one of its identities
      more units. */
  ghost predicate FuzzyGrew(d: Deletion, g: FuzzyGroup, current: seq<Unit>, base: seq<Unit>) {
    || MoreFiles(d.rename, PathSet(AsGroup(g)), OldPaths(base, IdentitiesIn(g)))
    || exists x :: x in IdentitiesIn(g) && MoreUnits(d.unitAt, current, base, x)
  }

  ghost predicate NothingGrew(groups: map<string, FuzzyGroup>, current: Report, base: Report, d: Deletion) {
    && (forall key :: key in current.groups ==> !GroupGrew(d, key, current.groups[key], OldGroup(base, key)))
    && (forall key :: key in groups ==> !FuzzyGrew(d, groups[key], current.units, base.units))
  }

  lemma FilesAccount(rename: map<string, string>, now: set<string>, was: set<string>)
    requires Injective(rename) && now <= rename.Keys
    ensures |now| > |was| <==> MoreFiles(rename, now, was)
  {
    ImageSize(now, rename);
    DifferenceSize(Image(now, rename), was);
  }

  lemma TagsCount(n: nat)
    ensures multiset(Tags(n))[()] == n
  {
    CountIsPositions(Tags(n), ());
    BelowSize(n);
    assert Positions(Tags(n), ()) == Below(n);
  }

  lemma CopiesAccount(rename: map<string, string>, at: seq<int>, now: seq<Location>, was: seq<Location>)
    requires KeptLocations(rename, at, now, was)
    ensures |now| > |was| <==> MoreCopies(at, |was|)
  {
    TagsCount(|now|);
    TagsCount(|was|);
    MatchingCounts(Tags(|now|), Tags(|was|), at, ());
  }

  /** An exact or type-2 group is new exactly when it spans three files and gained more files or
      more copies than it lost. */
  lemma DirectExactly(current: Report, base: Report, d: Deletion, key: string)
    requires Deletes(current, base, d) && key in current.groups
    ensures DirectlyNew(current.groups[key], OldGroup(base, key)) <==>
      GroupGrew(d, key, current.groups[key], OldGroup(base, key))
  {
    var now, was := current.groups[key], OldGroup(base, key);
    assert KeptLocations(d.rename, d.locationAt[key], now.locations, was.locations);
    FilesAccount(d.rename, PathSet(now), PathSet(was));
    CopiesAccount(d.rename, d.locationAt[key], now.locations, was.locations);
  }

  lemma MemberPaths(rename: map<string, string>, at: seq<int>, g: FuzzyGroup, current: seq<Unit>, base: seq<Unit>)
    requires KeptUnits(rename, at, current, base)
    requires forall i :: 0 <= i < |g.members| ==> g.members[i].of in current
    ensures PathSet(AsGroup(g)) <= rename.Keys
  {
    forall p | p in PathSet(AsGroup(g)) ensures p in rename {
      var i :| 0 <= i < |g.members| && AsGroup(g).locations[i].path == p;
      var k :| 0 <= k < |current| && current[k] == g.members[i].of;
    }
  }

  /** A near-duplicate group is new exactly when it gained more files than its identities lost, or one
      of its identities gained more units than it lost. */
  lemma FuzzyExactly(g: FuzzyGroup, current: Report, base: Report, d: Deletion)
    requires Deletes(current, base, d)
    requires forall i :: 0 <= i < |g.members| ==> g.members[i].of in current.units
    ensures FuzzilyNew(g, current.units, base.units) <==> FuzzyGrew(d, g, current.units, base.units)
  {
    MemberPaths(d.rename, d.unitAt, g, current.units, base.units);
    FilesAccount(d.rename, PathSet(AsGroup(g)), OldPaths(base.units, IdentitiesIn(g)));
    forall x | x in IdentitiesIn(g)
      ensures multiset(Identities(current.units))[x] > multiset(Identities(base.units))[x]
        <==> MoreUnits(d.unitAt, current.units, base.units, x)
    {
      MatchingCounts(Identities(current.units), Identities(base.units), d.unitAt, x);
    }
  }

  /** A revision made by deleting, shifting and renaming has no findings exactly when nothing grew:
      no group that spans three files gained more files or copies than it lost, and no near-duplicate
      group more files than its identities lost, nor one of its identities more units. However
      the near-duplicate groups were formed: deletion may reshuffle the greedy clusters and mint
      new keys. */
  lemma DeletionExactly(groups: map<string, FuzzyGroup>, current: Report, base: Report, d: Deletion)
    requires Deletes(current, base, d) && OwnUnits(groups, current.units)
    ensures Raw(groups, current, base) == map[] <==> NothingGrew(groups, current, base, d)
  {
    var direct, fuzzy := DirectFindings(current, base), FuzzyFindings(groups, current, base);
    forall key | key in current.groups
      ensures key in direct <==> GroupGrew(d, key, current.groups[key], OldGroup(base, key))
    {
      DirectExactly(current, base, d, key);
    }
    forall key | key in groups ensures key in fuzzy <==> FuzzyGrew(d, groups[key], current.units, base.units) {
      FuzzyExactly(groups[key], current, base, d);
    }
    RawEmpty(direct, fuzzy);
  }

  lemma RawEmpty(direct: map<string, Group>, fuzzy: map<string, Group>)
    ensures direct + fuzzy == map[] <==> (forall key :: key !in direct) && (forall key :: key !in fuzzy)
  {
    if direct + fuzzy == map[] {
      forall key ensures key !in direct && key !in fuzzy { assert key !in direct + fuzzy; }
    } else {
      var key :| key in direct + fuzzy;
      assert key in direct || key in fuzzy;
    }
  }

  // ---------------------------------------------------------------- deletion of whole records

  ghost predicate AllKept(at: seq<int>) {
    forall i :: 0 <= i < |at| ==> at[i] >= 0
  }

  /** Nothing was shortened: whole units and locations were deleted, and all that is left was kept. */
  ghost predicate OnlyDeleted(current: Report, base: Report, d: Deletion) {
    && Deletes(current, base, d)
    && AllKept(d.unitAt)
    && (forall key :: key in current.groups ==> AllKept(d.locationAt[key]))
  }

  lemma NothingJoined<T>(a: seq<T>, at: seq<int>, x: T)
    requires |at| == |a| && AllKept(at)
    ensures |Joined(a, at, x)| == 0
  {
    assert Joined(a, at, x) == {};
  }

  lemma KeptGroup(rename: map<string, string>, at: seq<int>, now: Group, was: Group)
    requires KeptLocations(rename, at, now.locations, was.locations) && AllKept(at)
    ensures !MoreFiles(rename, PathSet(now), PathSet(was)) && !MoreCopies(at, |was.locations|)
  {
    NothingJoined(Tags(|at|), at, ());
    forall p | p in PathSet(now) ensures rename[p] in PathSet(was) {
      var i :| 0 <= i < |now.locations| && now.locations[i].path == p;
      assert was.locations[at[i]].path == rename[p];
    }
    assert FilesGained(rename, PathSet(now), PathSet(was)) == {};
  }

  lemma KeptMembers(d: Deletion, g: FuzzyGroup, current: seq<Unit>, base: seq<Unit>)
    requires KeptUnits(d.rename, d.unitAt, current, base) && AllKept(d.unitAt)
    requires forall i :: 0 <= i < |g.members| ==> g.members[i].of in current
    ensures !FuzzyGrew(d, g, current, base)
  {
    var was := OldPaths(base, IdentitiesIn(g));
    MemberPaths(d.rename, d.unitAt, g, current, base);
    forall p | p in PathSet(AsGroup(g)) ensures d.rename[p] in was {
      var i :| 0 <= i < |g.members| && AsGroup(g).locations[i].path == p;
      var k :| 0 <= k < |current| && current[k] == g.members[i].of;
      assert Identities(base)[d.unitAt[k]] == Identities(current)[k] == IdentityOf(g.members[i].of);
      assert base[d.unitAt[k]].at.path == d.rename[p];
    }
    assert FilesGained(d.rename, PathSet(AsGroup(g)), was) == {};
    forall x ensures !MoreUnits(d.unitAt, current, base, x) { NothingJoined(Identities(current), d.unitAt, x); }
  }

  /** When whole units and locations were deleted, there is nothing to find. */
  lemma DeletionPasses(groups: map<string, FuzzyGroup>, current: Report, base: Report, d: Deletion)
    requires OnlyDeleted(current, base, d) && OwnUnits(groups, current.units)
    ensures Raw(groups, current, base) == map[]
  {
    forall key | key in current.groups ensures !GroupGrew(d, key, current.groups[key], OldGroup(base, key)) {
      KeptGroup(d.rename, d.locationAt[key], current.groups[key], OldGroup(base, key));
    }
    forall key | key in groups ensures !FuzzyGrew(d, groups[key], current.units, base.units) {
      KeptMembers(d, groups[key], current.units, base.units);
    }
    DeletionExactly(groups, current, base, d);
  }

  // ---------------------------------------------------------------- shortened code is found

  function Copies(length: nat): Group {
    Group("exact", 50, [Location("a", 1, 9, 0, length), Location("b", 1, 9, 0, length), Location("c", 1, 9, 0, length)])
  }

  function SameNames(): map<string, string> {
    map["a" := "a", "b" := "b", "c" := "c", "d" := "d"]
  }

  /** A revision with one group and no units. */
  function Only(key: string, now: Group): Report {
    Report(map[key := now], [], None)
  }

  lemma OnlyDeletes(key: string, now: Group, base: Report, at: seq<int>)
    requires base.units == [] && KeptLocations(SameNames(), at, now.locations, OldGroup(base, key).locations)
    ensures Deletes(Only(key, now), base, Deletion(SameNames(), [], map[key := at]))
  {}

  lemma OnlyFound(key: string, now: Group, base: Report)
    requires DirectlyNew(now, OldGroup(base, key))
    ensures key in Raw(map[], Only(key, now), base)
  {
    assert key in DirectFindings(Only(key, now), base);
  }

  lemma CopiesSpread(length: nat)
    ensures PathSet(Copies(length)) == {"a", "b", "c"} && |PathSet(Copies(length))| == 3
  {
    var at := Copies(length).locations;
    assert at[0].path == "a" && at[1].path == "b" && at[2].path == "c";
  }

  /** Three identical copies, each shortened by the same statement, are a group the base lacks: three
      copies joined and none was lost. */
  lemma ShortenedCopies()
    ensures var base, current := Only("long", Copies(200)), Only("short", Copies(180));
      && Deletes(current, base, Deletion(SameNames(), [], map["short" := [-1, -1, -1]]))
      && "short" in Raw(map[], current, base)
  {
    var base := Only("long", Copies(200));
    CopiesSpread(180);
    OnlyDeletes("short", Copies(180), base, [-1, -1, -1]);
    OnlyFound("short", Copies(180), base);
  }

  function FourCopies(): Group {
    Group("exact", 50, Copies(180).locations + [Location("d", 1, 9, 0, 180)])
  }

  lemma FourSpread()
    ensures |PathSet(FourCopies())| == 4
  {
    var at := FourCopies().locations;
    assert at[0].path == "a" && at[1].path == "b" && at[2].path == "c" && at[3].path == "d";
    assert PathSet(FourCopies()) == {"a", "b", "c", "d"};
  }

  lemma ThreeKept()
    ensures KeptLocations(SameNames(), [0, 1, 2, -1], FourCopies().locations, Copies(180).locations)
  {
    var now, was := FourCopies().locations, Copies(180).locations;
    assert now[0] == was[0] && now[1] == was[1] && now[2] == was[2] && now[3].path == "d";
    assert now[0].path == "a" && now[1].path == "b" && now[2].path == "c";
  }

  /** A longer version shortened to what three other files already hold is their fourth copy: one copy
      joined and none was lost, although the base had the group. */
  lemma ShortenedIntoOld()
    ensures var base, current := Only("short", Copies(180)), Only("short", FourCopies());
      && Deletes(current, base, Deletion(SameNames(), [], map["short" := [0, 1, 2, -1]]))
      && "short" in Raw(map[], current, base)
  {
    var base := Only("short", Copies(180));
    CopiesSpread(180);
    FourSpread();
    ThreeKept();
    OnlyDeletes("short", FourCopies(), base, [0, 1, 2, -1]);
    OnlyFound("short", FourCopies(), base);
  }
}
