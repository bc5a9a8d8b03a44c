/** Counting facts about finite sets that several components need. */
module SetFacts {

  /** An injection from `a` into `b` bounds the size of `a`. */
  lemma {:induction false} InjectionBounds<T, U>(a: set<T>, b: set<U>, f: map<T, U>)
    requires a <= f.Keys
    requires forall x :: x in a ==> f[x] in b
    requires forall x, y :: x in a && y in a && f[x] == f[y] ==> x == y
    ensures |a| <= |b|
    decreases |a|
  {
    if a != {} {
      var x :| x in a;
      InjectionBounds(a - {x}, b - {f[x]}, f);
    }
  }

  /** The positions of `x` in `s`. */
  ghost function Positions<T>(s: seq<T>, x: T): set<nat> {
    set i: nat | i < |s| && s[i] == x
  }

  lemma {:induction false} CountIsPositions<T>(s: seq<T>, x: T)
    ensures multiset(s)[x] == |Positions(s, x)|
    decreases |s|
  {
    if s == [] {
      assert Positions(s, x) == {};
    } else {
      var last := |s| - 1;
      var init := s[..last];
      CountIsPositions(init, x);
      assert s == init + [s[last]];
      if s[last] == x {
        assert Positions(s, x) == Positions(init, x) + {last};
      } else {
        assert Positions(s, x) == Positions(init, x);
      }
    }
  }

  /** `at` matches entries of `a` with entries of `b` of the same value, no two with the same one;
      -1 stands for an entry without a match. */
  ghost predicate Matching<T>(a: seq<T>, b: seq<T>, at: seq<int>) {
    && |at| == |a|
    && (forall i :: 0 <= i < |at| ==> -1 <= at[i] < |b| && (at[i] >= 0 ==> b[at[i]] == a[i]))
    && (forall i, j :: 0 <= i < j < |at| && at[i] >= 0 ==> at[i] != at[j])
  }

  /** The unmatched entries of `a` with value `x`... */
  ghost function Joined<T>(a: seq<T>, at: seq<int>, x: T): set<nat>
    requires |at| == |a|
  {
    set i: nat | i < |a| && a[i] == x && at[i] == -1
  }

  /** ... and those of `b`. */
  ghost function Lost<T>(b: seq<T>, at: seq<int>, x: T): set<nat> {
    set k: nat | k < |b| && b[k] == x && k !in at
  }

  lemma JoinedSnoc<T>(a: seq<T>, at: seq<int>, x: T)
    requires |at| == |a| && a != []
    ensures var last := |a| - 1;
      |Joined(a, at, x)| == |Joined(a[..last], at[..last], x)| + if a[last] == x && at[last] == -1 then 1 else 0
  {
    var last := |a| - 1;
    var before := Joined(a[..last], at[..last], x);
    assert last !in before;
    assert Joined(a, at, x) == before + if a[last] == x && at[last] == -1 then {last} else {};
  }

  lemma LostSnoc<T>(b: seq<T>, at: seq<int>, v: int, x: T)
    requires -1 <= v < |b| && v !in at
    ensures |Lost(b, at, x)| == |Lost(b, at + [v], x)| + if v >= 0 && b[v] == x then 1 else 0
  {
    var after := Lost(b, at + [v], x);
    assert v in at + [v];
    assert Lost(b, at, x) == after + if v >= 0 && b[v] == x then {v as nat} else {};
  }

  lemma LostSame<T>(b: seq<T>, at: seq<int>, x: T)
    ensures Lost(b, at + [-1], x) == Lost(b, at, x)
  {}

  /** What joined and what was lost account for the difference in frequency. */
  lemma {:induction false} MatchingCounts<T>(a: seq<T>, b: seq<T>, at: seq<int>, x: T)
    requires Matching(a, b, at)
    ensures multiset(a)[x] + |Lost(b, at, x)| == multiset(b)[x] + |Joined(a, at, x)|
    decreases |a|
  {
    if a == [] {
      CountIsPositions(b, x);
      assert Lost(b, at, x) == Positions(b, x);
      assert Joined(a, at, x) == {};
    } else {
      var last := |a| - 1;
      assert a == a[..last] + [a[last]] && at == at[..last] + [at[last]];
      MatchingCounts(a[..last], b, at[..last], x);
      JoinedSnoc(a, at, x);
      if at[last] == -1 { LostSame(b, at[..last], x); } else { LostSnoc(b, at[..last], at[last], x); }
    }
  }

  /** The image of a set under an injection. */
  ghost function Image<T, U>(a: set<T>, f: map<T, U>): set<U>
    requires a <= f.Keys
  {
    set x | x in a :: f[x]
  }

  lemma {:induction false} ImageSize<T, U>(a: set<T>, f: map<T, U>)
    requires a <= f.Keys
    requires forall x, y :: x in a && y in a && f[x] == f[y] ==> x == y
    ensures |Image(a, f)| == |a|
    decreases |a|
  {
    if a != {} {
      var x :| x in a;
      ImageSize(a - {x}, f);
      assert Image(a, f) == Image(a - {x}, f) + {f[x]};
    } else {
      assert Image(a, f) == {};
    }
  }

  lemma DifferenceSize<T>(a: set<T>, b: set<T>)
    ensures |a| + |b - a| == |b| + |a - b|
  {
    assert a == (a * b) + (a - b) && b == (a * b) + (b - a);
  }

  /** The numbers below `n`. */
  ghost function Below(n: nat): (s: set<nat>)
    ensures forall i: nat :: i in s <==> i < n
  {
    if n == 0 then {} else Below(n - 1) + {n - 1}
  }

  lemma {:induction false} BelowSize(n: nat)
    ensures |Below(n)| == n
  {
    if n > 0 { BelowSize(n - 1); }
  }
}
