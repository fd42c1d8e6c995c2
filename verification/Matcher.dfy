/**
 Kind matchers: how queries say which kinds they want, how the matchers of successive
 queries accumulate, and when an accumulated matcher counts as changed.
 */
module Matcher {
  import opened Base

  datatype GroupKind = GroupKind(group: string, kind: string)

  datatype GroupKindMatcher = GroupKindMatcher(
    includeAll: bool,
    includedKinds: seq<GroupKind>,
    excludedKinds: seq<GroupKind>
  )

  // The zero value: what a fresh namespace cache starts with and what a pod log query asks for.
  const NO_KINDS := GroupKindMatcher(false, [], [])

  predicate Match(m: GroupKindMatcher, gk: GroupKind) {
    if |m.includedKinds| > 0 then gk in m.includedKinds
    else if !m.includeAll then false
    else if |m.excludedKinds| > 0 then gk !in m.excludedKinds
    else true
  }

  /** The documented shape: the inclusion list and include-all are mutually exclusive, and
      exclusions are only used with include-all. */
  predicate WellFormed(m: GroupKindMatcher) {
    && (m.includeAll ==> m.includedKinds == [])
    && (!m.includeAll ==> m.excludedKinds == [])
  }

  /** The elements of `b` that occur in `a`, in the order and with the repetitions of `b`. */
  function Intersect2<T(==)>(a: seq<T>, b: seq<T>): seq<T> {
    if b == [] then []
    else if b[0] in a then [b[0]] + Intersect2(a, b[1..])
    else Intersect2(a, b[1..])
  }

  method Intersect2Loop<T(==)>(a: seq<T>, b: seq<T>) returns (intersection: seq<T>)
    ensures intersection == Intersect2(a, b)
  {
    var m: set<T> := {};
    for i := 0 to |a|
      invariant m == set x | x in a[..i]
    {
      m := m + {a[i]};
    }
    assert a[..|a|] == a;
    intersection := [];
    for i := 0 to |b|
      invariant intersection + Intersect2(a, b[i..]) == Intersect2(a, b)
    {
      assert b[i..][1..] == b[i + 1..];
      if b[i] in m {
        intersection := intersection + [b[i]];
      }
    }
  }

  lemma {:induction false} IntersectFacts<T>(a: seq<T>, b: seq<T>)
    ensures forall x :: x in Intersect2(a, b) <==> x in a && x in b
    ensures |Intersect2(a, b)| <= |b|
    ensures |Intersect2(a, b)| == |b| <==> forall x :: x in b ==> x in a
    ensures NoDup(b) ==> NoDup(Intersect2(a, b))
  {
    if b == [] {
    } else {
      IntersectFacts(a, b[1..]);
      assert b == [b[0]] + b[1..];
    }
  }

  /** Element by element, in their order. */
  lemma IntersectInOrder<T>(a: seq<T>, x: T, b: seq<T>)
    ensures Intersect2(a, []) == []
    ensures Intersect2(a, [x] + b) == (if x in a then [x] else []) + Intersect2(a, b)
  {
    assert ([x] + b)[1..] == b;
  }

  function Merge(m: GroupKindMatcher, other: GroupKindMatcher): GroupKindMatcher {
    GroupKindMatcher(
      m.includeAll || other.includeAll,
      if !m.includeAll && !other.includeAll then m.includedKinds + other.includedKinds else [],
      if m.includeAll && other.includeAll then Intersect2(m.excludedKinds, other.excludedKinds)
      else if m.includeAll then m.excludedKinds
      else if other.includeAll then other.excludedKinds
      else [])
  }

  predicate Equal(m: GroupKindMatcher, other: GroupKindMatcher) {
    && |m.includedKinds| == |other.includedKinds|
    && |m.excludedKinds| == |other.excludedKinds|
    && m.includeAll == other.includeAll
    && |Intersect2(m.includedKinds, other.includedKinds)| == |m.includedKinds|
    && |Intersect2(m.excludedKinds, other.excludedKinds)| == |m.excludedKinds|
  }

  /** nsCache.updateMatcher: the stored matcher afterwards, and whether it is reported changed. */
  function UpdateMatcher(m: GroupKindMatcher, q: GroupKindMatcher): (GroupKindMatcher, bool) {
    var merged := Merge(m, q);
    if !Equal(merged, m) then (merged, true) else (m, false)
  }

  // ----- what Merge matches -----

  /** A kind that one side lists and the include-all side excludes. */
  predicate LostByMerge(a: GroupKindMatcher, b: GroupKindMatcher, gk: GroupKind) {
    || (a.includeAll && !b.includeAll && gk in a.excludedKinds)
    || (b.includeAll && !a.includeAll && gk in b.excludedKinds)
  }

  /** Merge is the documented union exactly up to the kinds it loses. */
  lemma MergeMatchesUnionMinusLost(a: GroupKindMatcher, b: GroupKindMatcher, gk: GroupKind)
    requires WellFormed(a) && WellFormed(b)
    ensures WellFormed(Merge(a, b))
    ensures Match(Merge(a, b), gk) <==> (Match(a, gk) || Match(b, gk)) && !LostByMerge(a, b, gk)
  {
    IntersectFacts(a.excludedKinds, b.excludedKinds);
  }

  /** The union promised by the comment on Merge holds for every kind iff neither side lists a
      kind that the other one, asking for everything, excludes. */
  lemma MergeIsUnionIff(a: GroupKindMatcher, b: GroupKindMatcher)
    requires WellFormed(a) && WellFormed(b)
    ensures (forall gk :: Match(Merge(a, b), gk) <==> Match(a, gk) || Match(b, gk))
       <==> (a.includeAll != b.includeAll ==>
               forall gk :: gk in a.includedKinds + b.includedKinds ==> gk !in a.excludedKinds + b.excludedKinds)
  {
    forall gk ensures Match(Merge(a, b), gk) <==> (Match(a, gk) || Match(b, gk)) && !LostByMerge(a, b, gk) {
      MergeMatchesUnionMinusLost(a, b, gk);
    }
    if a.includeAll != b.includeAll {
      if gk :| gk in a.includedKinds + b.includedKinds && gk in a.excludedKinds + b.excludedKinds {
        assert (Match(a, gk) || Match(b, gk)) && !Match(Merge(a, b), gk);
      } else {
        forall gk | Match(a, gk) || Match(b, gk) ensures !LostByMerge(a, b, gk) {
          assert gk in a.includedKinds + b.includedKinds ==> gk !in a.excludedKinds + b.excludedKinds;
        }
      }
    }
  }

  lemma MergeCommutative(a: GroupKindMatcher, b: GroupKindMatcher, gk: GroupKind)
    requires WellFormed(a) && WellFormed(b)
    ensures Match(Merge(a, b), gk) <==> Match(Merge(b, a), gk)
  {
    MergeMatchesUnionMinusLost(a, b, gk);
    MergeMatchesUnionMinusLost(b, a, gk);
  }

  lemma MergeAssociative(a: GroupKindMatcher, b: GroupKindMatcher, c: GroupKindMatcher, gk: GroupKind)
    requires WellFormed(a) && WellFormed(b) && WellFormed(c)
    ensures Match(Merge(Merge(a, b), c), gk) <==> Match(Merge(a, Merge(b, c)), gk)
  {
    IntersectFacts(a.excludedKinds, b.excludedKinds);
    IntersectFacts(b.excludedKinds, c.excludedKinds);
    MergeMatchesUnionMinusLost(Merge(a, b), c, gk);
    MergeMatchesUnionMinusLost(a, Merge(b, c), gk);
    MergeMatchesUnionMinusLost(a, b, gk);
    MergeMatchesUnionMinusLost(b, c, gk);
  }

  lemma MergeIdempotent(a: GroupKindMatcher, gk: GroupKind)
    requires WellFormed(a)
    ensures Match(Merge(a, a), gk) <==> Match(a, gk)
  {
    MergeMatchesUnionMinusLost(a, a, gk);
  }

  // ----- the matcher accumulated over a run of queries -----

  /** The matcher a namespace holds after the given queries, as updateMatcher leaves it. */
  function Accumulate(qs: seq<GroupKindMatcher>): GroupKindMatcher {
    if qs == [] then NO_KINDS
    else UpdateMatcher(Accumulate(qs[..|qs| - 1]), qs[|qs| - 1]).0
  }

  /** When updateMatcher reports no change, merging would not have matched anything else. */
  lemma UnchangedMatchesTheSame(m: GroupKindMatcher, q: GroupKindMatcher, gk: GroupKind)
    requires WellFormed(m)
    ensures !UpdateMatcher(m, q).1 ==> (Match(Merge(m, q), gk) <==> Match(m, gk))
    ensures Match(UpdateMatcher(m, q).0, gk) <==> Match(Merge(m, q), gk)
    ensures UpdateMatcher(m, q).0.includeAll == Merge(m, q).includeAll
  {
    IntersectFacts(m.excludedKinds, q.excludedKinds);
    IntersectFacts(Merge(m, q).excludedKinds, m.excludedKinds);
  }

  /** What a run of queries matches, said without the order of the queries. */
  ghost predicate MatchedByRun(qs: seq<GroupKindMatcher>, gk: GroupKind) {
    if SomeAll(qs)
    then exists q :: q in qs && q.includeAll && gk !in q.excludedKinds
    else exists q :: q in qs && gk in q.includedKinds
  }

  lemma {:induction false} AccumulatedMatch(qs: seq<GroupKindMatcher>, gk: GroupKind)
    requires forall q :: q in qs ==> WellFormed(q)
    ensures WellFormed(Accumulate(qs))
    ensures Accumulate(qs).includeAll <==> SomeAll(qs)
    ensures Match(Accumulate(qs), gk) <==> MatchedByRun(qs, gk)
  {
    if qs == [] {
    } else {
      var init, last := qs[..|qs| - 1], qs[|qs| - 1];
      assert qs == init + [last];
      OneMoreQuery(init, last, gk);
      AccumulatedMatch(init, gk);
      var m := Accumulate(init);
      UnchangedMatchesTheSame(m, last, gk);
      MergeMatchesUnionMinusLost(m, last, gk);
      StillWellFormed(m, last);
      hide Match, Merge, UpdateMatcher, MatchedByRun, LostByMerge;
      RunStep(m, init, last, gk);
    }
  }

  lemma StillWellFormed(m: GroupKindMatcher, q: GroupKindMatcher)
    requires WellFormed(m)
    ensures WellFormed(UpdateMatcher(m, q).0)
    ensures UpdateMatcher(m, q).0.includeAll <==> m.includeAll || q.includeAll
  {
  }

  ghost predicate SomeAll(qs: seq<GroupKindMatcher>) {
    exists q :: q in qs && q.includeAll
  }

  lemma OneMoreQuery(init: seq<GroupKindMatcher>, last: GroupKindMatcher, gk: GroupKind)
    ensures SomeAll(init + [last]) <==> SomeAll(init) || last.includeAll
    ensures last in init + [last] && forall q :: q in init ==> q in init + [last]
    ensures Accumulate(init + [last]) == UpdateMatcher(Accumulate(init), last).0
  {
    hide UpdateMatcher;
    assert (init + [last])[..|init|] == init;
    assert forall q :: q in init + [last] <==> q in init || q == last;
  }

  /** A run matches one query more: the union, but for what is lost. */
  lemma RunStep(m: GroupKindMatcher, init: seq<GroupKindMatcher>, last: GroupKindMatcher, gk: GroupKind)
    requires WellFormed(m) && WellFormed(last) && (m.includeAll <==> SomeAll(init))
    requires forall q :: q in init ==> WellFormed(q)
    requires Match(m, gk) <==> MatchedByRun(init, gk)
    ensures MatchedByRun(init + [last], gk) <==> (Match(m, gk) || Match(last, gk)) && !LostByMerge(m, last, gk)
  {
    assert forall q :: q in init + [last] <==> q in init || q == last;
  }

  /** The accumulated matcher depends only on which queries were seen: not on their order,
      not on how often each was asked. */
  lemma AccumulatedDependsOnlyOnSet(qs: seq<GroupKindMatcher>, qs': seq<GroupKindMatcher>, gk: GroupKind)
    requires forall q :: q in qs ==> WellFormed(q)
    requires Elems(qs) == Elems(qs')
    ensures Match(Accumulate(qs), gk) <==> Match(Accumulate(qs'), gk)
  {
    assert forall q :: q in qs <==> q in Elems(qs);
    assert forall q :: q in qs' <==> q in Elems(qs');
    AccumulatedMatch(qs, gk);
    AccumulatedMatch(qs', gk);
  }

  // ----- Equal -----

  ghost predicate Listed<T>(a: seq<T>, b: seq<T>) {
    |a| == |b| && forall x :: x in b ==> x in a
  }

  /** What Equal means for any two matchers: flag and lengths agree, and everything the second one
      lists the first one lists too. */
  lemma EqualMeans(a: GroupKindMatcher, b: GroupKindMatcher)
    ensures Equal(a, b) <==>
            && a.includeAll == b.includeAll
            && Listed(a.includedKinds, b.includedKinds)
            && Listed(a.excludedKinds, b.excludedKinds)
  {
    IntersectFacts(a.includedKinds, b.includedKinds);
    IntersectFacts(a.excludedKinds, b.excludedKinds);
  }

  /** Equal is not symmetric once a list repeats a kind. */
  lemma EqualNotSymmetric(x: GroupKind, y: GroupKind)
    requires x != y
    ensures Equal(GroupKindMatcher(false, [x, y], []), GroupKindMatcher(false, [x, x], []))
    ensures !Equal(GroupKindMatcher(false, [x, x], []), GroupKindMatcher(false, [x, y], []))
  {
    EqualMeans(GroupKindMatcher(false, [x, y], []), GroupKindMatcher(false, [x, x], []));
    EqualMeans(GroupKindMatcher(false, [x, x], []), GroupKindMatcher(false, [x, y], []));
    assert y in [x, y] && y !in [x, x];
  }

  ghost predicate NoRepetition(m: GroupKindMatcher) {
    NoDup(m.includedKinds) && NoDup(m.excludedKinds)
  }

  /** When comparing with a matcher can be turned round, exactly: whatever is found equal to it is
      so in the other direction as well if and only if neither of its lists repeats a kind. */
  lemma EqualSymmetricIff(b: GroupKindMatcher)
    ensures (forall a :: Equal(a, b) ==> Equal(b, a)) <==> NoRepetition(b)
  {
    if NoRepetition(b) {
      forall a | Equal(a, b) ensures Equal(b, a) {
        EqualMeans(a, b);
        EqualMeans(b, a);
        ListedTurns(a.includedKinds, b.includedKinds);
        ListedTurns(a.excludedKinds, b.excludedKinds);
      }
    } else {
      var a := if NoDup(b.includedKinds) then b.(excludedKinds := Spoiled(b.excludedKinds))
               else b.(includedKinds := Spoiled(b.includedKinds));
      SpoiledFacts(if NoDup(b.includedKinds) then b.excludedKinds else b.includedKinds);
      EqualMeans(a, b);
      EqualMeans(b, a);
      assert Equal(a, b) && !Equal(b, a);
    }
  }

  lemma ListedTurns<T>(a: seq<T>, b: seq<T>)
    requires Listed(a, b) && NoDup(b)
    ensures Listed(b, a)
  {
    NoDupCardinality(a);
    NoDupCardinality(b);
    SubsetSize(Elems(b), Elems(a));
    assert forall x :: x in a ==> x in Elems(a);
  }

  /** A kind that is in no position of the list. */
  ghost function Unlisted(s: seq<GroupKind>): (gk: GroupKind)
    ensures gk !in s
  {
    Longer(s, |s|);
    GroupKind("", Blanks(LongestName(s, |s|) + 1))
  }

  ghost function LongestName(s: seq<GroupKind>, k: nat): nat
    requires k <= |s|
  {
    if k == 0 then 0
    else if |s[k - 1].kind| > LongestName(s, k - 1) then |s[k - 1].kind|
    else LongestName(s, k - 1)
  }

  lemma {:induction false} Longer(s: seq<GroupKind>, k: nat)
    requires k <= |s|
    ensures forall i :: 0 <= i < k ==> |s[i].kind| <= LongestName(s, k)
  {
    if k == 0 {
    } else {
      Longer(s, k - 1);
    }
  }

  /** The list with one of two equal entries replaced by something it does not hold. */
  ghost function Spoiled(s: seq<GroupKind>): seq<GroupKind>
    requires !NoDup(s)
  {
    var i, j :| 0 <= i < j < |s| && s[i] == s[j];
    s[j := Unlisted(s)]
  }

  lemma SpoiledFacts(s: seq<GroupKind>)
    requires !NoDup(s)
    ensures Listed(Spoiled(s), s) && !Listed(s, Spoiled(s))
  {
    var t := Spoiled(s);
    var i, j :| 0 <= i < j < |s| && s[i] == s[j] && t == s[j := Unlisted(s)];
    forall x | x in s ensures x in t {
      var k :| 0 <= k < |s| && s[k] == x;
      assert x == t[if k == j then i else k];
    }
    assert t[j] in t;
  }

  /** On lists without repetitions Equal is equality of the listed sets, in both directions. */
  lemma EqualIsSetEquality(a: GroupKindMatcher, b: GroupKindMatcher)
    requires NoRepetition(a) && NoRepetition(b)
    ensures Equal(a, b) <==>
            && a.includeAll == b.includeAll
            && Elems(a.includedKinds) == Elems(b.includedKinds)
            && Elems(a.excludedKinds) == Elems(b.excludedKinds)
  {
    SameElemsIff(a.includedKinds, b.includedKinds);
    SameElemsIff(a.excludedKinds, b.excludedKinds);
  }

  lemma {:induction false} NoDupCardinality<T>(s: seq<T>)
    ensures |Elems(s)| <= |s|
    ensures NoDup(s) ==> |Elems(s)| == |s|
  {
    if s == [] {
      assert Elems(s) == {};
    } else {
      NoDupCardinality(s[1..]);
      assert s == [s[0]] + s[1..];
      assert Elems(s) == {s[0]} + Elems(s[1..]);
    }
  }

  lemma SameElemsIff<T>(a: seq<T>, b: seq<T>)
    requires NoDup(a) && NoDup(b)
    ensures |a| == |b| && |Intersect2(a, b)| == |a| <==> Elems(a) == Elems(b)
  {
    IntersectFacts(a, b);
    NoDupCardinality(a);
    NoDupCardinality(b);
    if |a| == |b| && |Intersect2(a, b)| == |a| {
      assert forall x :: x in Elems(b) ==> x in Elems(a);
      SubsetSize(Elems(b), Elems(a));
    }
    if Elems(a) == Elems(b) {
      assert forall x :: x in b ==> x in Elems(b);
    }
  }

  lemma SubsetSize<T>(a: set<T>, b: set<T>)
    requires a <= b
    ensures |a| <= |b| && (a != b ==> |a| < |b|)
  {
    assert a + (b - a) == b && |a + (b - a)| == |a| + |b - a|;
    if a != b { assert b - a != {}; }
  }

  // ----- bounded reloading -----

  /** How many queries of a run are reported as changing the matcher, i.e. go to the backend. */
  function Reloads(m: GroupKindMatcher, qs: seq<GroupKindMatcher>): nat
    decreases |qs|
  {
    if qs == [] then 0
    else var (m', changed) := UpdateMatcher(m, qs[0]); (if changed then 1 else 0) + Reloads(m', qs[1..])
  }

  function AfterRun(m: GroupKindMatcher, qs: seq<GroupKindMatcher>): GroupKindMatcher
    decreases |qs|
  {
    if qs == [] then m else AfterRun(UpdateMatcher(m, qs[0]).0, qs[1..])
  }

  lemma {:induction false} IntersectCounts<T>(a: seq<T>, b: seq<T>, x: T)
    ensures multiset(Intersect2(a, b))[x] == if x in a then multiset(b)[x] else 0
  {
    if b == [] {
    } else {
      IntersectCounts(a, b[1..], x);
      assert b == [b[0]] + b[1..];
      assert multiset(b) == multiset{b[0]} + multiset(b[1..]);
    }
  }

  /** What both lists hold they hold equally often: lists without repetitions do, and a list does with
      itself, however often it repeats a kind. */
  ghost predicate SameCounts<T(!new)>(a: seq<T>, b: seq<T>) {
    forall x :: x in a && x in b ==> multiset(a)[x] == multiset(b)[x]
  }

  lemma NoDupSameCounts<T(!new)>(a: seq<T>, b: seq<T>)
    requires NoDup(a) && NoDup(b)
    ensures SameCounts(a, b)
  {
    forall x | x in a && x in b ensures multiset(a)[x] == multiset(b)[x] {
      NoDupCount(a, x);
      NoDupCount(b, x);
    }
  }

  lemma {:induction false} NoDupCount<T>(s: seq<T>, x: T)
    requires NoDup(s) && x in s
    ensures multiset(s)[x] == 1
  {
    assert s == [s[0]] + s[1..];
    assert multiset(s) == multiset{s[0]} + multiset(s[1..]);
    if x == s[0] {
      assert x !in s[1..];
    } else {
      NoDupCount(s[1..], x);
    }
  }

  lemma AllCountsKept<T(!new)>(a: seq<T>, b: seq<T>)
    requires SameCounts(a, b) && forall x :: x in a ==> x in b
    ensures |Intersect2(a, b)| == |a|
  {
    forall x ensures multiset(Intersect2(a, b))[x] == multiset(a)[x] {
      IntersectCounts(a, b, x);
      if x in a {
        assert x in b;
      }
    }
    assert multiset(Intersect2(a, b)) == multiset(a);
    assert |multiset(Intersect2(a, b))| == |multiset(a)|;
  }

  /** Does a query leave the exclusions of an include-all namespace as they are? */
  predicate KeepsExclusions(excluded: seq<GroupKind>, q: GroupKindMatcher) {
    q.includeAll ==>
      (forall gk :: gk in excluded ==> gk in q.excludedKinds) && |Intersect2(excluded, q.excludedKinds)| == |excluded|
  }

  /** When a query of an include-all namespace is a change, exactly and for any lists: if it drops an
      excluded kind, or merely lists what is excluded with other repetitions. */
  lemma ChangeIff(m: GroupKindMatcher, q: GroupKindMatcher)
    requires WellFormed(m) && m.includeAll
    ensures var (m', changed) := UpdateMatcher(m, q);
            && WellFormed(m') && m'.includeAll
            && (changed <==> !KeepsExclusions(m.excludedKinds, q))
            && m'.excludedKinds == (if changed then Intersect2(m.excludedKinds, q.excludedKinds) else m.excludedKinds)
            && (changed ==> q.includeAll) && (!changed ==> m' == m)
  {
    EqualMeans(Merge(m, q), m);
    IntersectFacts(m.excludedKinds, q.excludedKinds);
  }

  /** Where kinds that both exclude are listed equally often, only dropping an exclusion is a change, and
      it strictly shrinks the exclusion set. */
  lemma ChangeShrinksExclusions(m: GroupKindMatcher, q: GroupKindMatcher)
    requires WellFormed(m) && m.includeAll && (q.includeAll ==> SameCounts(m.excludedKinds, q.excludedKinds))
    ensures var (m', changed) := UpdateMatcher(m, q);
            && WellFormed(m') && m'.includeAll
            && (changed <==> Elems(m'.excludedKinds) < Elems(m.excludedKinds))
            && (changed <==> q.includeAll && exists gk :: gk in m.excludedKinds && gk !in q.excludedKinds)
            && (!changed ==> m' == m)
            && forall gk :: gk in m'.excludedKinds ==>
                              gk in m.excludedKinds && multiset(m'.excludedKinds)[gk] == multiset(m.excludedKinds)[gk]
  {
    var (m', changed) := UpdateMatcher(m, q);
    ChangeIff(m, q);
    IntersectFacts(m.excludedKinds, q.excludedKinds);
    if q.includeAll && forall gk :: gk in m.excludedKinds ==> gk in q.excludedKinds {
      AllCountsKept(m.excludedKinds, q.excludedKinds);
    }
    if changed {
      assert Elems(m'.excludedKinds) <= Elems(m.excludedKinds);
      var gk :| gk in m.excludedKinds && gk !in q.excludedKinds;
      assert gk in Elems(m.excludedKinds) && gk !in Elems(m'.excludedKinds);
      forall x | x in m'.excludedKinds ensures multiset(m'.excludedKinds)[x] == multiset(m.excludedKinds)[x] {
        IntersectCounts(m.excludedKinds, q.excludedKinds, x);
      }
    }
  }

  ghost predicate AlikeWith(m: GroupKindMatcher, qs: seq<GroupKindMatcher>) {
    forall q :: q in qs && q.includeAll ==> SameCounts(m.excludedKinds, q.excludedKinds)
  }

  /** No run of such queries, however long, reloads a namespace that already includes everything more
      often than it has excluded kinds. */
  lemma {:induction false} BoundedReloading(m: GroupKindMatcher, qs: seq<GroupKindMatcher>)
    requires WellFormed(m) && m.includeAll && AlikeWith(m, qs)
    ensures Elems(AfterRun(m, qs).excludedKinds) <= Elems(m.excludedKinds)
    ensures Reloads(m, qs) + |Elems(AfterRun(m, qs).excludedKinds)| <= |Elems(m.excludedKinds)|
    ensures (forall q :: q in qs ==> !q.includeAll) ==> Reloads(m, qs) == 0
    decreases |qs|
  {
    if qs == [] {
    } else {
      var (m', changed) := UpdateMatcher(m, qs[0]);
      assert qs[0] in qs;
      ChangeShrinksExclusions(m, qs[0]);
      assert AlikeWith(m', qs[1..]) by {
        forall q | q in qs[1..] && q.includeAll ensures SameCounts(m'.excludedKinds, q.excludedKinds) {
          assert q in qs && SameCounts(m.excludedKinds, q.excludedKinds);
        }
      }
      BoundedReloading(m', qs[1..]);
      SubsetSize(Elems(m'.excludedKinds), Elems(m.excludedKinds));
    }
  }

  /** The program itself has one list of ignored kinds, some of them in it twice. Once a namespace
      includes everything but these, no run of its queries reloads it at all. */
  lemma {:induction false} OwnQueriesNeverReload(ignored: seq<GroupKind>, m: GroupKindMatcher,
                                                 qs: seq<GroupKindMatcher>)
    requires WellFormed(m) && m.includeAll && m.excludedKinds == ignored
    requires forall q :: q in qs && q.includeAll ==> q.excludedKinds == ignored
    ensures Reloads(m, qs) == 0 && AfterRun(m, qs) == m
    decreases |qs|
  {
    if qs == [] {
    } else {
      assert qs[0] in qs;
      ChangeIff(m, qs[0]);
      IntersectFacts(ignored, ignored);
      OwnQueriesNeverReload(ignored, m, qs[1..]);
    }
  }

  // ----- where the bound ends -----

  /** Two queries asked in turn, n times each. */
  function InTurn(q: GroupKindMatcher, p: GroupKindMatcher, n: nat): seq<GroupKindMatcher> {
    if n == 0 then [] else [q, p] + InTurn(q, p, n - 1)
  }

  /** Do two lists hold different numbers of what both hold? */
  predicate CountsDiffer<T(==)>(a: seq<T>, b: seq<T>) {
    |Intersect2(a, b)| != |Intersect2(b, a)|
  }

  lemma InTurnStep(m: GroupKindMatcher, q: GroupKindMatcher, p: GroupKindMatcher, n: nat)
    requires n > 0
    ensures var (m1, changed) := UpdateMatcher(m, q);
            var (m2, changed') := UpdateMatcher(m1, p);
            Reloads(m, InTurn(q, p, n)) ==
            (if changed then 1 else 0) + (if changed' then 1 else 0) + Reloads(m2, InTurn(q, p, n - 1))
  {
    var run := InTurn(q, p, n);
    assert run[0] == q && run[1..][0] == p && run[1..][1..] == InTurn(q, p, n - 1);
  }

  lemma Reintersect<T>(a: seq<T>, b: seq<T>)
    ensures Intersect2(Intersect2(a, b), a) == Intersect2(b, a)
    ensures Intersect2(Intersect2(a, b), b) == Intersect2(a, b)
  {
    IntersectFacts(a, b);
    IntersectBySet(Intersect2(a, b), b, a);
    IntersectBySet(Intersect2(a, b), a, b);
  }

  /** Does the namespace list what both queries exclude as often as one of them does? */
  predicate ListsCommon(p: GroupKindMatcher, q: GroupKindMatcher, m: GroupKindMatcher) {
    && WellFormed(m) && m.includeAll
    && (|| m.excludedKinds == Intersect2(q.excludedKinds, p.excludedKinds)
        || (!CountsDiffer(p.excludedKinds, q.excludedKinds)
            && m.excludedKinds == Intersect2(p.excludedKinds, q.excludedKinds)))
  }

  lemma CommonTurns(p: GroupKindMatcher, q: GroupKindMatcher, m: GroupKindMatcher)
    requires p.includeAll && q.includeAll && ListsCommon(p, q, m)
    ensures var (m1, changed) := UpdateMatcher(m, q);
            var (m2, changed') := UpdateMatcher(m1, p);
            && ListsCommon(p, q, m2)
            && changed == changed' == CountsDiffer(p.excludedKinds, q.excludedKinds)
  {
    var m1 := UpdateMatcher(m, q).0;
    ChangeIff(m, q);
    ChangeIff(m1, p);
    hide UpdateMatcher, Merge, Equal, Match, Intersect2;
    IntersectFacts(p.excludedKinds, q.excludedKinds);
    IntersectFacts(q.excludedKinds, p.excludedKinds);
    Reintersect(p.excludedKinds, q.excludedKinds);
    Reintersect(q.excludedKinds, p.excludedKinds);
  }

  /** Once two include-all queries have both been asked, that is so: from then on asking them in turn
      reloads every time, or not at all. */
  lemma {:induction false} TurnsFromCommon(p: GroupKindMatcher, q: GroupKindMatcher, m: GroupKindMatcher, n: nat)
    requires p.includeAll && q.includeAll && ListsCommon(p, q, m)
    ensures Reloads(m, InTurn(q, p, n)) == if CountsDiffer(p.excludedKinds, q.excludedKinds) then 2 * n else 0
  {
    if n == 0 {
    } else {
      CommonTurns(p, q, m);
      InTurnStep(m, q, p, n);
      hide UpdateMatcher, ListsCommon, CountsDiffer, Reloads, InTurn;
      TurnsFromCommon(p, q, UpdateMatcher(UpdateMatcher(m, q).0, p).0, n - 1);
    }
  }

  /** The first two turns: where the namespace stands after them, and how often it reloaded. */
  lemma FirstTurns(p: GroupKindMatcher, q: GroupKindMatcher, m: GroupKindMatcher)
    requires WellFormed(m) && m.includeAll && p.includeAll && q.includeAll && m.excludedKinds == p.excludedKinds
    ensures var (m1, changed) := UpdateMatcher(m, q);
            var (m2, changed') := UpdateMatcher(m1, p);
            var differ := CountsDiffer(p.excludedKinds, q.excludedKinds);
            && WellFormed(m2) && m2.includeAll
            && m2.excludedKinds == (if changed && !differ then Intersect2(p.excludedKinds, q.excludedKinds)
                                    else Intersect2(q.excludedKinds, p.excludedKinds))
            && (changed <==> !KeepsExclusions(p.excludedKinds, q)) && (changed' <==> differ) && (differ ==> changed)
  {
    var m1 := UpdateMatcher(m, q).0;
    ChangeIff(m, q);
    ChangeIff(m1, p);
    hide UpdateMatcher, Merge, Intersect2;
    IntersectFacts(p.excludedKinds, q.excludedKinds);
    Reintersect(p.excludedKinds, q.excludedKinds);
    IntersectSelf(p.excludedKinds, p.excludedKinds);
    if KeepsExclusions(p.excludedKinds, q) {
      IntersectSelf(q.excludedKinds, p.excludedKinds);
    }
  }

  /** After a query, asking another one and it again in turn reloads every single time if and only if the
      two differ in how many entries they spend on the kinds that both exclude; otherwise at most once. */
  lemma InTurnReloads(p: GroupKindMatcher, q: GroupKindMatcher, m: GroupKindMatcher, n: nat)
    requires WellFormed(m) && m.includeAll && p.includeAll && q.includeAll && m.excludedKinds == p.excludedKinds
    ensures Reloads(m, InTurn(q, p, n)) ==
            if CountsDiffer(p.excludedKinds, q.excludedKinds) then 2 * n
            else if n > 0 && !KeepsExclusions(p.excludedKinds, q) then 1 else 0
  {
    if n > 0 {
      FirstTurns(p, q, m);
      InTurnStep(m, q, p, n);
      hide UpdateMatcher, Reloads, KeepsExclusions, CountsDiffer;
      TurnsFromCommon(p, q, UpdateMatcher(UpdateMatcher(m, q).0, p).0, n - 1);
    }
  }

  lemma {:induction false} IntersectSelf<T>(a: seq<T>, b: seq<T>)
    requires forall x :: x in b ==> x in a
    ensures Intersect2(a, b) == b
  {
    if b == [] {
    } else {
      assert b == [b[0]] + b[1..];
      IntersectSelf(a, b[1..]);
    }
  }

  /** So no bound holds for any two lists: excluding a kind once and twice in turn reloads for ever. */
  lemma UnboundedReloading(gk: GroupKind, n: nat)
    ensures var once, twice := GroupKindMatcher(true, [], [gk]), GroupKindMatcher(true, [], [gk, gk]);
            Reloads(once, InTurn(twice, once, n)) == 2 * n
  {
    var once, twice := GroupKindMatcher(true, [], [gk]), GroupKindMatcher(true, [], [gk, gk]);
    IntersectSelf([gk], [gk, gk]);
    IntersectSelf([gk, gk], [gk]);
    InTurnReloads(once, twice, once, n);
  }

  /** A pod log query never causes a load, whatever the namespace has accumulated. */
  lemma PodLogQueryNeverReloads(m: GroupKindMatcher)
    requires WellFormed(m)
    ensures UpdateMatcher(m, NO_KINDS) == (m, false)
  {
    IntersectFacts(m.excludedKinds, m.excludedKinds);
    IntersectFacts(m.includedKinds, m.includedKinds);
    assert m.includedKinds + [] == m.includedKinds;
  }

  /** While kinds are still listed one by one, asking for a listed kind again is a change: the
      merged list grows by the repeated kind although it matches nothing new. */
  lemma RepeatedListReloads(m: GroupKindMatcher, q: GroupKindMatcher)
    requires WellFormed(m) && !m.includeAll && !q.includeAll
    ensures UpdateMatcher(m, q).1 <==> q.includedKinds != []
  {
    if q.includedKinds == [] {
      assert m.includedKinds + q.includedKinds == m.includedKinds;
      IntersectFacts(m.includedKinds, m.includedKinds);
    }
  }

  lemma {:induction false} IntersectBySet<T>(a: seq<T>, a': seq<T>, b: seq<T>)
    requires forall x :: x in b ==> (x in a <==> x in a')
    ensures Intersect2(a, b) == Intersect2(a', b)
  {
    if b == [] {
    } else {
      assert forall x :: x in b[1..] ==> x in b;
      IntersectBySet(a, a', b[1..]);
    }
  }

  /** When asking the same again goes to the backend again, exactly: only while the namespace still
      lists its kinds one by one. */
  lemma RetryReloadsIff(m: GroupKindMatcher, q: GroupKindMatcher)
    requires WellFormed(m)
    ensures UpdateMatcher(UpdateMatcher(m, q).0, q).1 <==> !m.includeAll && !q.includeAll && q.includedKinds != []
  {
    var (m', changed) := UpdateMatcher(m, q);
    if changed && !q.includeAll {
      if !m.includeAll {
        RepeatedListReloads(m', q);
      } else {
        EqualMeans(m', m);
      }
    } else if changed {
      var again := Merge(m', q);
      EqualMeans(again, m');
      IntersectFacts(m.excludedKinds, q.excludedKinds);
      IntersectFacts(q.excludedKinds, q.excludedKinds);
      if m.includeAll {
        IntersectBySet(m.excludedKinds, m'.excludedKinds, q.excludedKinds);
      }
    } else if !m.includeAll && !q.includeAll {
      RepeatedListReloads(m, q);
    }
  }
}
