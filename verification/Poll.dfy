/**
 One round of the status poller: a reset, and then every root evaluated in turn on the one evaluator.
 What each root leaves behind can be told from the snapshot, and so can which rounds come out right.
 */
module Poll {
  import opened Base
  import opened Matcher
  import opened Cluster
  import opened History
  import opened Evaluator
  import opened Status
  import opened SnapshotTree
  import opened EvalTree
  import Analyze
  import TreePrint

  /** The loader's Get goes by kind, namespace and name: what it returns for an object that was deleted
      and created again has another UID than the object given. */
  ghost function Get(b: Snapshot, root: Object): Option<Object> {
    if p :| p in b.objects && SameName(p, root) then Some(p) else None
  }

  lemma GetMeans(b: Snapshot, root: Object, p: Object)
    requires ValidSnapshot(b)
    ensures Get(b, root) == Some(p) <==> p in b.objects && p.kind == root.kind && p.ns == root.ns && p.name == root.name
    ensures Get(b, root).None? <==>
            forall c :: c in b.objects ==> !(c.kind == root.kind && c.ns == root.ns && c.name == root.name)
  {
    assert forall c :: SameName(c, root) <==> c.kind == root.kind && c.ns == root.ns && c.name == root.name;
  }

  /** The version of a root that its analyzer gets: the cached one of its UID, else what Get returns. */
  ghost function Version(b: Snapshot, s: Situation, root: Object): Option<Object> {
    if c :| c in s.cached && c.uid == root.uid then Some(c) else Get(b, root)
  }

  /** Eval caches the object it was given, under the UID it was given with, if Get finds one. */
  ghost function AfterEval(b: Snapshot, s: Situation, root: Object): Situation {
    if Get(b, root).None? || HasUid(s.cached, root.uid) then s
    else s.(cached := s.cached + {root}, inserted := s.inserted + {root},
            hidden := s.hidden + if root.ns in s.marked then {} else {root})
  }

  ghost function AfterRoot(b: Snapshot, f: Facts, s: Situation, root: Object): Situation {
    var v := Version(b, s, root);
    if v.None? then AfterEval(b, s, root) else Explored(b, f, AfterEval(b, s, root), Reach(b, f, {v.value}))
  }

  /** What the evaluator holds when the turn of root i comes, told from the snapshot. */
  ghost function Before(b: Snapshot, f: Facts, start: set<string>, roots: seq<Object>, i: nat): Situation
    requires i <= |roots|
  {
    if i == 0 then Initial(start) else AfterRoot(b, f, Before(b, f, start, roots, i - 1), roots[i - 1])
  }

  /** Is every query that the evaluation of the root makes answered as by the snapshot? */
  ghost predicate RootServed(b: Snapshot, f: Facts, s: Situation, root: Object) {
    var v := Version(b, s, root);
    v.Some? ==> forall o :: o in Reach(b, f, {v.value}) ==> Served(b, f, AfterEval(b, s, root), o)
  }

  ghost predicate RoundServed(b: Snapshot, f: Facts, start: set<string>, roots: seq<Object>) {
    forall i :: 0 <= i < |roots| ==> RootServed(b, f, Before(b, f, start, roots, i), roots[i])
  }

  /** The versions given may be outdated and their objects gone or created again, but a UID never names
      another kind, namespace or name. */
  ghost predicate RootNamed(b: Snapshot, s: Situation, root: Object) {
    root.ns != NAMESPACE_ALL && forall c :: c in b.objects + s.inserted && c.uid == root.uid ==> SameName(c, root)
  }

  ghost predicate RootsNamed(b: Snapshot, roots: seq<Object>) {
    forall root :: root in roots ==>
      root.ns != NAMESPACE_ALL && forall c :: (c in b.objects || c in roots) && c.uid == root.uid ==> SameName(c, root)
  }

  /** The status of a root: the snapshot's tree below the version analyzed, or Unknown if it is gone. */
  ghost predicate RootStatus(b: Snapshot, f: Facts, s: Situation, root: Object, t: ObjectStatus) {
    match Version(b, s, root)
    case None => t == Analyze.UnknownStatus(SubjectOf(root))
    case Some(v) => Reflects(b, f, v, t)
  }

  // ----- one root -----

  ghost predicate Standing(e: Evaluator, f: Facts, s: Situation)
    reads e
  {
    e.Valid() && KindsKept(f) && Ready(e.cluster, f, e.history) && SituationOf(e.cluster, e.history) == s
  }

  lemma GetIsUnique(b: Snapshot, root: Object, p: Object)
    requires ValidSnapshot(b) && p in b.objects && SameName(p, root)
    ensures Get(b, root) == Some(p)
  {
  }

  lemma VersionIsUnique(b: Snapshot, h: History, root: Object, c: Object)
    requires ValidSnapshot(b) && c in Cached(b, h) && c.uid == root.uid
    ensures Version(b, SituationOf(b, h), root) == Some(c)
  {
    CachedUidsUnique(b, h);
  }

  /** Eval of one root. */
  lemma EvalStep(b: Snapshot, f: Facts, h: History, root: Object)
    requires Ready(b, f, h) && RootNamed(b, SituationOf(b, h), root)
    ensures var h' := After(h, Evaluated(root, Get(b, root).Some?));
            Ready(b, f, h') && SituationOf(b, h') == AfterEval(b, SituationOf(b, h), root)
  {
    var h' := After(h, Evaluated(root, Get(b, root).Some?));
    assert forall ns :: Acc(h', ns) == Acc(h, ns);
  }

  lemma VersionIsNamed(b: Snapshot, h: History, root: Object)
    requires RootNamed(b, SituationOf(b, h), root) && Version(b, SituationOf(b, h), root).Some?
    ensures SameName(Version(b, SituationOf(b, h), root).value, root)
  {
    CachedIsBackedOrInserted(b, h);
  }

  method CallGet(b: Snapshot, root: Object, answered: bool) returns (get: Option<Object>)
    requires ValidSnapshot(b)
    ensures get.Some? ==> get.value in b.objects && SameName(get.value, root)
    ensures answered ==> get == Get(b, root)
  {
    var fails: bool := *;
    get := None;
    if found :| found in b.objects && SameName(found, root) {
      if answered || !fails {
        get := Some(found);
      }
      GetIsUnique(b, root, found);
    }
  }

  lemma VersionIsGotten(b: Snapshot, h: History, root: Object)
    requires !HasUid(Cached(b, h), root.uid)
    ensures Version(b, SituationOf(b, h), root) == Get(b, root)
  {
  }

  lemma InsertedAfterEval(b: Snapshot, h: History, root: Object, found: bool)
    ensures Inserted(b, After(h, Evaluated(root, found))) <= Inserted(b, h) + {root}
  {
  }

  /** Eval of one root. `answered` says whether the backend is known to answer; where it is not, Get may
      fail. `good` says whether all went well so far. */
  method EvalRoot(e: Evaluator, f: Facts, root: Object, answered: bool, ghost s: Situation, ghost good: bool)
    returns (analyzed: Option<Object>)
    requires e.Valid() && root.ns != NAMESPACE_ALL
    requires good ==> answered && Standing(e, f, s) && RootNamed(e.cluster, s, root)
    modifies e
    ensures e.Valid() && Inserted(e.cluster, e.history) <= Inserted(e.cluster, old(e.history)) + {root}
    ensures analyzed.Some? ==>
              && analyzed.value in e.cluster.objects + Inserted(e.cluster, old(e.history))
              && (analyzed.value.uid == root.uid || SameName(analyzed.value, root))
    ensures good ==> Standing(e, f, AfterEval(e.cluster, s, root)) && analyzed == Version(e.cluster, s, root)
  {
    ghost var h := e.history;
    hide Ready, AfterEval, Get;
    var get := CallGet(e.cluster, root, answered);
    CachedVersion(e.cluster, h, e.cache, e.nsCache, root.uid);
    CachedIsBackedOrInserted(e.cluster, h);
    if good {
      EvalStep(e.cluster, f, h, root);
      if root.uid in e.cache {
        VersionIsUnique(e.cluster, h, root, e.cache[root.uid]);
      } else {
        VersionIsGotten(e.cluster, h, root);
      }
    }
    InsertedAfterEval(e.cluster, h, root, get.Some?);
    hide Version, Cached, Inserted, SituationOf, RootNamed;
    analyzed := e.EvalObject(root, get);
  }

  lemma Departure(b: Snapshot, f: Facts, h: History, j: Journey)
    requires ValidSnapshot(b) && Ready(b, f, h) && SituationOf(b, h) == j.s && j.ns != NAMESPACE_ALL
    ensures Exploring(b, f, j.s, j.ns, {}, h)
  {
    CachedIsBackedOrInserted(b, h);
    assert Wanted(b, f, j.s, {}) == {} && Namespaces({}) == {};
  }

  lemma Arrival(b: Snapshot, f: Facts, j: Journey, v: Object, asked: set<Object>)
    requires j.served && j.scope == Reach(b, f, {v}) && Visited(b, f, j, {}, asked) && v in asked
    ensures asked == j.scope
  {
    ReachIsLeast(b, f, {v}, asked);
  }

  /** The versions of a root that may be analyzed lie on the ground. */
  ghost predicate RootGrounded(b: Snapshot, given: set<Object>, ground: set<Object>, root: Object) {
    forall c :: c in b.objects + given && (c.uid == root.uid || SameName(c, root)) ==> c in ground
  }

  ghost function JourneyOf(b: Snapshot, f: Facts, s: Situation, root: Object, v: Object, good: bool,
                           given: set<Object>, ground: set<Object>): Journey {
    Journey(AfterEval(b, s, root), root.ns, Reach(b, f, {v}), good, given, ground)
  }

  lemma SetOut(e: Evaluator, f: Facts, s: Situation, root: Object, v: Object, good: bool, j: Journey)
    requires j == JourneyOf(e.cluster, f, s, root, v, good, j.given, j.ground)
    requires e.Valid() && root.ns != NAMESPACE_ALL && Inserted(e.cluster, e.history) <= j.given
    requires good ==> Standing(e, f, AfterEval(e.cluster, s, root)) && Version(e.cluster, s, root) == Some(v)
    requires good ==> RootServed(e.cluster, f, s, root) && v.ns == root.ns
    ensures Underway(e, f, j, {}) && v in j.scope
  {
    ReachClosed(e.cluster, f, {v});
    if good {
      ReachStaysInNamespace(e.cluster, f, v);
      Departure(e.cluster, f, e.history, j);
    }
  }

  method PollRoot(e: Evaluator, f: Facts, root: Object, answered: bool, ghost rank: Object -> nat, ghost s: Situation,
                  ghost good: bool, ghost given: set<Object>, ghost ground: set<Object>)
    returns (t: ObjectStatus)
    requires e.Valid() && root.ns != NAMESPACE_ALL && root in given && Inserted(e.cluster, e.history) <= given
    requires Grounded(e.cluster, f, given, ground, rank) && RootGrounded(e.cluster, given, ground, root)
    requires good ==> answered && Standing(e, f, s)
    requires good ==> RootNamed(e.cluster, s, root) && RootServed(e.cluster, f, s, root)
    modifies e
    ensures e.Valid() && Inserted(e.cluster, e.history) <= given && Analyze.Monotone(t)
    ensures good ==> Standing(e, f, AfterRoot(e.cluster, f, s, root)) && RootStatus(e.cluster, f, s, root, t)
  {
    ghost var b := e.cluster;
    if good {
      VersionIsNamed'(b, e.history, s, root);
    }
    var v := EvalRoot(e, f, root, answered, s, good);
    if v.None? {
      return Analyze.UnknownStatus(SubjectOf(root));
    }
    ghost var j := JourneyOf(b, f, s, root, v.value, good, given, ground);
    hide Ready, RootServed, RootNamed, AfterEval, Reach, Grounded, Unfolds, Analyze.Analyzed, Standing, Underway;
    SetOut(e, f, s, root, v.value, good, j);
    ghost var r, asked;
    t, r, asked := AnalyzeObject(e, f, v.value, answered, rank, j, {});
    Analyze.AnalyzedMonotone(r);
    UnderwayIsValid(e, f, j, asked);
    if good {
      Arrival(b, f, j, v.value, asked);
      ExploringIsStanding(e, f, j, asked);
      assert Reflects(b, f, v.value, t);
    }
  }

  lemma UnderwayIsValid(e: Evaluator, f: Facts, j: Journey, asked: set<Object>)
    requires Underway(e, f, j, asked)
    ensures e.Valid() && Inserted(e.cluster, e.history) <= j.given
  {
  }

  lemma VersionIsNamed'(b: Snapshot, h: History, s: Situation, root: Object)
    requires s == SituationOf(b, h) && RootNamed(b, s, root)
    ensures Version(b, s, root).Some? ==> Version(b, s, root).value.ns == root.ns
  {
    if Version(b, s, root).Some? {
      VersionIsNamed(b, h, root);
    }
  }

  lemma ExploringIsStanding(e: Evaluator, f: Facts, j: Journey, asked: set<Object>)
    requires j.served && Underway(e, f, j, asked)
    ensures Standing(e, f, Explored(e.cluster, f, j.s, asked))
  {
  }

  /** When the queries of a root's evaluation are answered as by the snapshot, exactly: the condition told
      from the snapshot holds if and only if each of them, put first after Eval, gets what the snapshot
      holds; and then it gets that whenever it is put. */
  lemma RootServedIff(b: Snapshot, f: Facts, s: Situation, root: Object, ns: string, h: History)
    requires ValidSnapshot(b) && KindsKept(f) && Version(b, s, root).Some?
    requires Version(b, s, root).value.ns == ns && Exploring(b, f, AfterEval(b, s, root), ns, {}, h)
    ensures RootServed(b, f, s, root) <==>
            forall o :: o in Reach(b, f, {Version(b, s, root).value}) && SubQuery(f, o).Some? ==>
              QueryResult(b, h, SubQuery(f, o).value, true) == Children(b, f, o)
  {
    var v := Version(b, s, root).value;
    ReachStaysInNamespace(b, f, v);
    hide Reach, Children, QueryResult, AfterEval, Exploring;
    forall o | o in Reach(b, f, {v}) && SubQuery(f, o).Some?
      ensures QueryResult(b, h, SubQuery(f, o).value, true) == Children(b, f, o) <==>
              Served(b, f, AfterEval(b, s, root), o)
    {
      ExploringNamespace(b, f, AfterEval(b, s, root), ns, h);
      AnsweredIffServed(b, f, AfterEval(b, s, root), ns, {}, h, o);
    }
    assert forall o :: SubQuery(f, o).None? ==> Served(b, f, AfterEval(b, s, root), o);
  }

  lemma ExploringNamespace(b: Snapshot, f: Facts, s: Situation, ns: string, h: History)
    requires Exploring(b, f, s, ns, {}, h)
    ensures ns != NAMESPACE_ALL
  {
  }

  // ----- the round -----

  lemma AfterRootAdds(b: Snapshot, f: Facts, s: Situation, root: Object)
    ensures var s' := AfterRoot(b, f, s, root);
            && s.inserted <= s'.inserted <= s.inserted + {root}
            && s'.cached <= s.cached + b.objects + s'.inserted
  {
    hide Reach;
  }

  lemma {:induction false} InsertedAreRoots(b: Snapshot, f: Facts, start: set<string>, roots: seq<Object>, i: nat)
    requires i <= |roots|
    ensures var s := Before(b, f, start, roots, i);
            && (forall x :: x in s.inserted ==> exists k :: 0 <= k < i && roots[k] == x)
            && s.cached <= b.objects + s.inserted
  {
    hide AfterRoot;
    if i == 0 {
    } else {
      InsertedAreRoots(b, f, start, roots, i - 1);
      AfterRootAdds(b, f, Before(b, f, start, roots, i - 1), roots[i - 1]);
    }
  }

  lemma RootIsNamed(b: Snapshot, f: Facts, start: set<string>, roots: seq<Object>, i: nat)
    requires RootsNamed(b, roots) && i < |roots|
    ensures RootNamed(b, Before(b, f, start, roots, i), roots[i])
  {
    InsertedAreRoots(b, f, start, roots, i);
    assert roots[i] in roots;
  }

  lemma FreshStart(e: Evaluator, f: Facts, start: set<string>)
    requires e.Valid() && e.history == Start(start)
    ensures KindsKept(f) ==> Standing(e, f, Initial(start))
    ensures Inserted(e.cluster, e.history) == {}
  {
  }

  ghost predicate GoodAt(b: Snapshot, f: Facts, start: set<string>, roots: seq<Object>, answered: seq<bool>, k: nat)
    requires k < |roots| == |answered|
  {
    answered[k] && RootServed(b, f, Before(b, f, start, roots, k), roots[k])
  }

  /** Did all go well up to root i: has the backend answered, and was every query served? */
  ghost predicate GoodUpTo(b: Snapshot, f: Facts, start: set<string>, roots: seq<Object>, answered: seq<bool>, i: nat)
    requires i <= |roots| == |answered|
  {
    KindsKept(f) && forall k :: 0 <= k < i ==> GoodAt(b, f, start, roots, answered, k)
  }

  /** With every call answered, all goes well to the end if and only if the round is served. */
  lemma GoodRoundIff(b: Snapshot, f: Facts, start: set<string>, roots: seq<Object>, answered: seq<bool>)
    requires |roots| == |answered| && KindsKept(f) && forall k :: 0 <= k < |answered| ==> answered[k]
    ensures GoodUpTo(b, f, start, roots, answered, |roots|) <==> RoundServed(b, f, start, roots)
  {
    hide Before, RootServed;
    if GoodUpTo(b, f, start, roots, answered, |roots|) {
      forall k | 0 <= k < |roots| ensures RootServed(b, f, Before(b, f, start, roots, k), roots[k]) {
        assert GoodAt(b, f, start, roots, answered, k);
      }
    }
  }

  ghost predicate StatusOk(b: Snapshot, f: Facts, start: set<string>, roots: seq<Object>, answered: seq<bool>,
                           i: nat, t: ObjectStatus)
    requires i < |roots| == |answered|
  {
    && Analyze.Monotone(t)
    && (GoodUpTo(b, f, start, roots, answered, i + 1) ==>
          RootStatus(b, f, Before(b, f, start, roots, i), roots[i], t))
  }

  ghost predicate RoundStatuses(b: Snapshot, f: Facts, start: set<string>, roots: seq<Object>, answered: seq<bool>,
                                statuses: seq<ObjectStatus>)
    requires |roots| == |answered|
  {
    |statuses| <= |roots| && forall i :: 0 <= i < |statuses| ==> StatusOk(b, f, start, roots, answered, i, statuses[i])
  }

  /** Whatever version of a root is analyzed, from there on owner references have no cycle. */
  ghost predicate RootsGrounded(b: Snapshot, f: Facts, roots: seq<Object>, ground: set<Object>, rank: Object -> nat) {
    && Grounded(b, f, Elems(roots), ground, rank)
    && forall root :: root in roots ==> RootGrounded(b, Elems(roots), ground, root)
  }

  /** One round of the status poller over a fixed snapshot: reset, then evaluate every root in turn. Each
      status is that of the snapshot's tree below the version of the root analyzed, as long as the backend
      has answered and every query was served: which is told from the snapshot and the roots up to there.
      If that holds to the end, so is what the evaluator is left with. Whatever is answered, every status
      is at least as bad as what is below it. */
  method PollRound(e: Evaluator, f: Facts, roots: seq<Object>, answered: seq<bool>,
                   ghost rank: Object -> nat, ghost ground: set<Object>)
    returns (statuses: seq<ObjectStatus>)
    requires e.Valid() && RootsNamed(e.cluster, roots) && |answered| == |roots|
    requires RootsGrounded(e.cluster, f, roots, ground, rank)
    modifies e
    ensures var start := Blanked(Marked(e.cluster, old(e.history)));
            && e.Valid() && |statuses| == |roots|
            && RoundStatuses(e.cluster, f, start, roots, answered, statuses)
            && (GoodUpTo(e.cluster, f, start, roots, answered, |roots|) ==>
                  SituationOf(e.cluster, e.history) == Before(e.cluster, f, start, roots, |roots|))
  {
    ghost var start := Blanked(Marked(e.cluster, e.history));
    e.Reset();
    FreshStart(e, f, start);
    hide Before, RootsNamed, GoodUpTo, RootsGrounded, RoundStatuses, Ready;
    NothingYet(e.cluster, f, start, roots, answered);
    statuses := PollRoots(e, f, roots, answered, rank, ground, start);
  }

  lemma NothingYet(b: Snapshot, f: Facts, start: set<string>, roots: seq<Object>, answered: seq<bool>)
    requires |roots| == |answered|
    ensures Before(b, f, start, roots, 0) == Initial(start) && RoundStatuses(b, f, start, roots, answered, [])
    ensures GoodUpTo(b, f, start, roots, answered, 0) ==> KindsKept(f)
  {
  }

  lemma OneMore(b: Snapshot, f: Facts, start: set<string>, roots: seq<Object>, answered: seq<bool>, i: nat)
    requires i < |roots| == |answered|
    ensures Before(b, f, start, roots, i + 1) == AfterRoot(b, f, Before(b, f, start, roots, i), roots[i])
    ensures GoodUpTo(b, f, start, roots, answered, i + 1) <==>
            GoodUpTo(b, f, start, roots, answered, i) && GoodAt(b, f, start, roots, answered, i)
  {
    BeforeNext(b, f, start, roots, i);
    hide GoodAt, KindsKept, AfterRoot, Before;
  }

  lemma BeforeNext(b: Snapshot, f: Facts, start: set<string>, roots: seq<Object>, i: nat)
    requires i < |roots|
    ensures Before(b, f, start, roots, i + 1) == AfterRoot(b, f, Before(b, f, start, roots, i), roots[i])
  {
    hide AfterRoot;
  }

  lemma OneMoreStatus(b: Snapshot, f: Facts, start: set<string>, roots: seq<Object>, answered: seq<bool>,
                      statuses: seq<ObjectStatus>, t: ObjectStatus)
    requires |roots| == |answered| && |statuses| < |roots|
    requires RoundStatuses(b, f, start, roots, answered, statuses)
    requires StatusOk(b, f, start, roots, answered, |statuses|, t)
    ensures RoundStatuses(b, f, start, roots, answered, statuses + [t])
  {
    hide StatusOk;
  }

  method PollRoots(e: Evaluator, f: Facts, roots: seq<Object>, answered: seq<bool>,
                   ghost rank: Object -> nat, ghost ground: set<Object>, ghost start: set<string>)
    returns (statuses: seq<ObjectStatus>)
    requires e.Valid() && RootsNamed(e.cluster, roots) && |answered| == |roots|
    requires RootsGrounded(e.cluster, f, roots, ground, rank) && Inserted(e.cluster, e.history) == {}
    requires GoodUpTo(e.cluster, f, start, roots, answered, 0) ==> Standing(e, f, Before(e.cluster, f, start, roots, 0))
    requires RoundStatuses(e.cluster, f, start, roots, answered, [])
    modifies e
    ensures e.Valid() && |statuses| == |roots| && RoundStatuses(e.cluster, f, start, roots, answered, statuses)
    ensures GoodUpTo(e.cluster, f, start, roots, answered, |roots|) ==>
              SituationOf(e.cluster, e.history) == Before(e.cluster, f, start, roots, |roots|)
  {
    hide Before, RootServed, RootStatus, AfterRoot, RootNamed, RootsNamed, GoodUpTo, RoundStatuses;
    hide Grounded, RootGrounded, Analyze.Monotone, Ready, Inserted;
    ghost var b := e.cluster;
    statuses := [];
    for i := 0 to |roots|
      invariant e.Valid() && Inserted(b, e.history) <= Elems(roots) && |statuses| == i
      invariant GoodUpTo(b, f, start, roots, answered, i) ==> Standing(e, f, Before(b, f, start, roots, i))
      invariant RoundStatuses(b, f, start, roots, answered, statuses)
    {
      hide Standing;
      RootIsNamed(b, f, start, roots, i);
      RootIsReal(b, roots, i);
      OneMore(b, f, start, roots, answered, i);
      ghost var good := GoodUpTo(b, f, start, roots, answered, i + 1);
      var t := PollRoot(e, f, roots[i], answered[i], rank, Before(b, f, start, roots, i), good, Elems(roots), ground);
      OneMoreStatus(b, f, start, roots, answered, statuses, t);
      statuses := statuses + [t];
    }
  }

  lemma RootIsReal(b: Snapshot, roots: seq<Object>, i: nat)
    requires RootsNamed(b, roots) && i < |roots|
    ensures roots[i] in roots && roots[i] in Elems(roots) && roots[i].ns != NAMESPACE_ALL
  {
    assert roots[i] in roots;
  }

  // ----- what follows -----

  /** When a root is analyzed in the snapshot's version, exactly: unless an earlier root of its UID was
      cached in an outdated one. */
  lemma VersionIsCurrentIff(b: Snapshot, f: Facts, start: set<string>, roots: seq<Object>, i: nat, h: History)
    requires ValidSnapshot(b) && i < |roots| && SituationOf(b, h) == Before(b, f, start, roots, i)
    requires Version(b, Before(b, f, start, roots, i), roots[i]).Some?
    ensures Version(b, Before(b, f, start, roots, i), roots[i]).value in b.objects <==>
            !exists k :: 0 <= k < i && roots[k] in Before(b, f, start, roots, i).inserted
                         && roots[k].uid == roots[i].uid && roots[k] !in b.objects
  {
    InsertedAreRoots(b, f, start, roots, i);
    CachedIsBackedOrInserted(b, h);
    CachedUidsUnique(b, h);
  }

  /** Two rounds over one snapshot, each with its own roots in its own order, agree on every root that
      both analyze in the same version. */
  lemma RoundsAgree(b: Snapshot, f: Facts, s: Situation, root: Object, t: ObjectStatus,
                    s': Situation, root': Object, t': ObjectStatus)
    requires RootStatus(b, f, s, root, t) && RootStatus(b, f, s', root', t')
    requires Version(b, s, root).Some? && Version(b, s, root) == Version(b, s', root')
    ensures t.st == t'.st
  {
    SameVerdict(b, f, Version(b, s, root).value, t, t');
  }

  /** From the evaluator to the screen: whatever any round finds unhealthy, served or not and at any
      depth below any root, gets its line under every print option, as often as it occurs. */
  lemma RoundNothingHidden(b: Snapshot, f: Facts, start: set<string>, roots: seq<Object>, answered: seq<bool>,
                           statuses: seq<ObjectStatus>, p: TreePrint.PrintOptions, x: ObjectStatus)
    requires |roots| == |answered| && RoundStatuses(b, f, start, roots, answered, statuses)
    requires TreePrint.Unhealthy(x.st)
    ensures TreePrint.ShownRoots(p, statuses, x) == TreePrint.Occurs(statuses, x)
  {
    forall i | 0 <= i < |statuses| ensures Analyze.Monotone(statuses[i]) {
      assert StatusOk(b, f, start, roots, answered, i, statuses[i]);
    }
    TreePrint.NothingUnhealthyHidden(p, statuses, x);
  }

  // ----- a pod and a service -----

  lemma ServiceReach(b: Snapshot, f: Facts, service: Object)
    requires service.ns != NAMESPACE_ALL && service.kind == GK_SERVICE
    ensures forall c :: c in Children(b, f, service) ==>
              c.kind == GK_POD && c.ns == service.ns && c in b.objects && SubQuery(f, c).None?
    ensures Reach(b, f, {service}) <= {service} + Children(b, f, service)
    ensures service in Reach(b, f, {service})
  {
    forall c | c in Children(b, f, service) ensures c.kind == GK_POD && SubQuery(f, c).None? {
      assert Match(OneKind(GK_POD), c.kind);
    }
    assert forall c :: c in Children(b, f, service) ==> Children(b, f, c) == {};
    ReachIsLeast(b, f, {service}, {service} + Children(b, f, service));
  }

  lemma PodReach(b: Snapshot, f: Facts, pod: Object)
    requires pod.kind == GK_POD
    ensures Reach(b, f, {pod}) == {pod} && SubQuery(f, pod).None?
  {
    ReachIsLeast(b, f, {pod}, {pod});
  }

  /** The service's own evaluation after at most some pods: exact. */
  lemma ServiceServedIff(b: Snapshot, f: Facts, s: Situation, service: Object)
    requires service.ns != NAMESPACE_ALL && service.kind == GK_SERVICE
    ensures (forall o :: o in Reach(b, f, {service}) ==> Served(b, f, s, o)) <==>
            && (HasKind(s.inserted, service.ns, GK_POD) ==> Children(b, f, service) <= s.cached)
            && (forall x :: x in s.inserted && Picks(SubQuery(f, service).value, x) ==> x in b.objects)
  {
    ServiceReach(b, f, service);
    assert Children(b, f, service) == {} || HandlerOf(service.kind).ByService?;
  }

  lemma TwoRoots(b: Snapshot, f: Facts, start: set<string>, first: Object, second: Object)
    ensures var s := Initial(start);
            && Before(b, f, start, [first, second], 1) == AfterRoot(b, f, s, first)
            && (RoundServed(b, f, start, [first, second]) <==>
                RootServed(b, f, s, first) && RootServed(b, f, AfterRoot(b, f, s, first), second))
  {
    var s, roots := Initial(start), [first, second];
    assert Before(b, f, start, roots, 0) == s && Before(b, f, start, roots, 1) == AfterRoot(b, f, s, first);
    hide RootServed, AfterRoot, Before;
    assert roots[0] == first && roots[1] == second;
  }

  /** The first root of a round is a miss. */
  lemma FirstRoot(b: Snapshot, start: set<string>, root: Object)
    requires Get(b, root).Some?
    ensures var s := Initial(start);
            && Version(b, s, root) == Get(b, root)
            && AfterEval(b, s, root).cached == AfterEval(b, s, root).inserted == {root}
            && AfterEval(b, s, root).hidden == (if root.ns in start then {} else {root})
  {
  }

  lemma ServicePicks(f: Facts, service: Object, x: Object)
    requires service.ns != NAMESPACE_ALL && service.kind == GK_SERVICE
    ensures SubQuery(f, service).Some?
    ensures Picks(SubQuery(f, service).value, x) <==>
            && x.ns == service.ns && x.kind == GK_POD
            && f.selector(service).Selector? && f.selector(service).matches(x.labels)
    ensures Asks(f, service, x) <==> x.ns == service.ns && x.kind == GK_POD
  {
  }

  lemma ServiceFirst(b: Snapshot, f: Facts, start: set<string>, service: Object)
    requires ValidSnapshot(b) && service in b.objects && service.kind == GK_SERVICE
    ensures RootServed(b, f, Initial(start), service)
    ensures var cached := AfterRoot(b, f, Initial(start), service).cached;
            && cached <= b.objects
            && forall pod :: pod in b.objects && pod.kind == GK_POD && pod.ns == service.ns ==> pod in cached
  {
    var s := Initial(start);
    GetIsUnique(b, service, service);
    FirstRoot(b, start, service);
    ServiceServedIff(b, f, AfterEval(b, s, service), service);
    ServiceReach(b, f, service);
    hide Children, SubQuery, Reach, AfterEval, Served, Asks, Picks, Get, Version;
    forall x ensures Picks(SubQuery(f, service).value, x) ==> x.kind == GK_POD {
      ServicePicks(f, service, x);
    }
    forall pod: Object | pod.kind == GK_POD && pod.ns == service.ns
      ensures Asks(f, service, pod) && !HasKind({service}, pod.ns, pod.kind)
    {
      ServicePicks(f, service, pod);
    }
  }

  /** A service, and then any pod of its namespace, selected or not: always right, the pod being cached
      in the snapshot's version by then. */
  lemma ServiceThenPod(b: Snapshot, f: Facts, start: set<string>, service: Object, pod: Object)
    requires ValidSnapshot(b) && service in b.objects && service.kind == GK_SERVICE
    requires pod in b.objects && pod.kind == GK_POD && pod.ns == service.ns
    ensures RoundServed(b, f, start, [service, pod])
    ensures Version(b, Before(b, f, start, [service, pod], 1), pod) == Some(pod)
  {
    ServiceFirst(b, f, start, service);
    TwoRoots(b, f, start, service, pod);
    PodReach(b, f, pod);
    hide AfterRoot, Before, RoundServed, Reach, SubQuery, Get;
  }

  lemma PodFirst(b: Snapshot, f: Facts, start: set<string>, pod: Object)
    requires pod.kind == GK_POD && Get(b, pod).Some?
    ensures var s := Initial(start);
            && RootServed(b, f, s, pod)
            && AfterRoot(b, f, s, pod).cached == AfterRoot(b, f, s, pod).inserted == {pod}
            && AfterRoot(b, f, s, pod).hidden == (if pod.ns in start then {} else {pod})
  {
    var v := Get(b, pod).value;
    FirstRoot(b, start, pod);
    PodReach(b, f, v);
    hide Get, Version, AfterEval, Reach, SubQuery;
    assert forall c :: !Asks(f, v, c);
  }

  lemma ServiceSelects(b: Snapshot, f: Facts, service: Object, inserted: set<Object>, pod: Object)
    requires service.ns != NAMESPACE_ALL && service.kind == GK_SERVICE && pod.kind == GK_POD && pod.ns == service.ns
    requires inserted == {pod, service}
    ensures SubQuery(f, service).Some? && HasKind(inserted, service.ns, GK_POD)
    ensures (forall x :: x in inserted && Picks(SubQuery(f, service).value, x) ==> x in b.objects) <==>
            (f.selector(service).Selector? && f.selector(service).matches(pod.labels) ==> pod in b.objects)
    ensures Children(b, f, service) <= inserted <==> Children(b, f, service) <= {pod}
  {
    ServicePicks(f, service, service);
    ServicePicks(f, service, pod);
    ServiceReach(b, f, service);
    hide Picks, SubQuery, Children, Reach;
  }

  lemma SecondRoot(b: Snapshot, s: Situation, first: Object, second: Object)
    requires ValidSnapshot(b) && second in b.objects && first.uid != second.uid
    requires s.cached == s.inserted == {first}
    ensures Version(b, s, second) == Some(second)
    ensures AfterEval(b, s, second).cached == AfterEval(b, s, second).inserted == {first, second}
  {
    GetIsUnique(b, second, second);
    hide Get;
  }

  /** A pod, and then a service of its namespace: right if and only if the service selects no other pod
      than that one in its current version, and not the version given if that is outdated. */
  lemma PodThenServiceIff(b: Snapshot, f: Facts, start: set<string>, pod: Object, service: Object)
    requires ValidSnapshot(b) && service in b.objects && service.kind == GK_SERVICE
    requires pod.kind == GK_POD && pod.ns == service.ns && pod.uid != service.uid && Get(b, pod).Some?
    ensures RoundServed(b, f, start, [pod, service]) <==>
            && Children(b, f, service) <= {pod}
            && (f.selector(service).Selector? && f.selector(service).matches(pod.labels) ==> pod in b.objects)
  {
    var s := AfterRoot(b, f, Initial(start), pod);
    TwoRoots(b, f, start, pod, service);
    PodFirst(b, f, start, pod);
    SecondRoot(b, s, pod, service);
    ServiceServedIff(b, f, AfterEval(b, s, service), service);
    ServiceSelects(b, f, service, {pod, service}, pod);
    hide AfterRoot, AfterEval, Version, Get, Children, SubQuery, Reach, RoundServed;
    hide Before, Served, Picks, HandlerOf, HasKind;
  }

  // ----- a pod and its owner -----

  /** Is there anything in the namespace that the owner's query would load, beside what Eval cached? */
  ghost predicate SomethingElse(b: Snapshot, f: Facts, pod: Object, owner: Object) {
    exists c :: c in b.objects && c.ns == pod.ns && c.kind !in f.ignored && c.kind != pod.kind && c.kind != owner.kind
  }

  lemma OwnedPod(b: Snapshot, f: Facts, owner: Object, pod: Object)
    requires HandlerOf(owner.kind).ByGeneric? && owner.ns != NAMESPACE_ALL
    ensures SubQuery(f, owner).Some?
    ensures Picks(SubQuery(f, owner).value, pod) <==>
            pod.ns == owner.ns && pod.kind !in f.ignored && owner.uid in pod.owners
    ensures forall c :: c in Children(b, f, owner) <==>
              c in b.objects && c.ns == owner.ns && c.kind !in f.ignored && owner.uid in c.owners
  {
  }

  lemma OwnerFinds(b: Snapshot, f: Facts, s: Situation, pod: Object, owner: Object)
    requires HandlerOf(owner.kind).ByGeneric? && pod.ns == owner.ns && s.cached == {pod, owner}
    ensures Found(b, f, s, owner, pod) <==> pod !in s.hidden || SomethingElse(b, f, pod, owner)
  {
    forall c | c in b.objects && c.ns == pod.ns
      ensures HasKind(s.cached, c.ns, c.kind) <==> c.kind == pod.kind || c.kind == owner.kind
    {
      assert pod in s.cached && owner in s.cached;
    }
  }

  lemma OwnerServedIff(b: Snapshot, f: Facts, s: Situation, pod: Object, owner: Object)
    requires pod in b.objects && owner in b.objects && pod.ns == owner.ns != NAMESPACE_ALL
    requires pod.kind == GK_POD && HandlerOf(owner.kind).ByGeneric?
    requires pod in Children(b, f, owner) && forall c :: c in Children(b, f, owner) ==> c.kind == GK_POD
    requires s.cached == s.inserted == {pod, owner}
    ensures Served(b, f, s, owner) <==>
            Children(b, f, owner) == {pod} && (pod !in s.hidden || SomethingElse(b, f, pod, owner))
  {
    OwnedPod(b, f, owner, pod);
    OwnedPod(b, f, owner, owner);
    OwnerFinds(b, f, s, pod, owner);
    assert owner.kind != GK_POD;
    hide SubQuery, Children, Found, SomethingElse, Picks;
    assert HasKind(s.inserted, pod.ns, GK_POD);
    assert forall c :: c in Children(b, f, owner) ==> c.ns == owner.ns;
  }

  lemma OwnerReach(b: Snapshot, f: Facts, owner: Object)
    requires forall c :: c in Children(b, f, owner) ==> c.kind == GK_POD
    ensures owner in Reach(b, f, {owner})
    ensures forall o :: o in Reach(b, f, {owner}) && o != owner ==> SubQuery(f, o).None?
  {
    forall c | c in Children(b, f, owner) ensures SubQuery(f, c).None? && Children(b, f, c) == {} {
      PodReach(b, f, c);
    }
    ReachIsLeast(b, f, {owner}, {owner} + Children(b, f, owner));
  }

  /** A pod, and then the object that owns it and other pods at most: right if and only if there is no
      other, and something of a third kind is there for the owner's query to load, or the namespace was
      left marked by the round before. With nothing else to load, the query does not find the pod. */
  lemma PodThenOwnerIff(b: Snapshot, f: Facts, start: set<string>, pod: Object, owner: Object)
    requires ValidSnapshot(b) && pod in b.objects && owner in b.objects && pod.ns == owner.ns
    requires pod.kind == GK_POD && HandlerOf(owner.kind).ByGeneric?
    requires pod in Children(b, f, owner) && forall c :: c in Children(b, f, owner) ==> c.kind == GK_POD
    ensures RoundServed(b, f, start, [pod, owner]) <==>
            && Children(b, f, owner) == {pod}
            && (pod.ns in start || SomethingElse(b, f, pod, owner))
  {
    var s := AfterRoot(b, f, Initial(start), pod);
    assert pod.uid != owner.uid by { assert owner.kind != GK_POD; }
    GetIsUnique(b, pod, pod);
    TwoRoots(b, f, start, pod, owner);
    PodFirst(b, f, start, pod);
    SecondRoot(b, s, pod, owner);
    HiddenBefore(b, s, pod, owner);
    OwnerServedIff(b, f, AfterEval(b, s, owner), pod, owner);
    OwnerReach(b, f, owner);
    hide AfterRoot, AfterEval, Version, Get, Children, SubQuery, Reach, RoundServed, Before, SomethingElse;
    assert forall o :: SubQuery(f, o).None? ==> Served(b, f, AfterEval(b, s, owner), o);
  }

  lemma HiddenBefore(b: Snapshot, s: Situation, pod: Object, owner: Object)
    requires pod != owner
    ensures pod in AfterEval(b, s, owner).hidden <==> pod in s.hidden
  {
  }
}
