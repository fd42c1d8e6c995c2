/**
 One round of the monitor: a reset, and then for every target a query for its kinds over all namespaces
 and the evaluation of what it returns. No single object is ever given to Eval here.
 */
module Monitor {
  import opened Base
  import opened Matcher
  import opened Cluster
  import opened History
  import opened Evaluator
  import opened Status
  import opened SnapshotTree
  import opened EvalTree
  import opened Dedup
  import Analyze

  datatype Target = Target(name: string, kinds: seq<GroupKind>)

  function TargetQuery(target: Target): QuerySpec {
    KindQuery(GroupKindMatcher(false, target.kinds, []), NAMESPACE_ALL)
  }

  /** The objects of a target's kinds in the snapshot. */
  ghost function Watched(b: Snapshot, target: Target): set<Object> {
    NaiveAnswer(b, TargetQuery(target))
  }

  lemma WatchedMeans(b: Snapshot, target: Target, c: Object)
    ensures c in Watched(b, target) <==>
            c in b.objects && exists k :: 0 <= k < |target.kinds| && target.kinds[k] == c.kind
  {
    KindQueryMeans(GroupKindMatcher(false, target.kinds, []), NAMESPACE_ALL, c);
  }

  /** The statuses of a target: one for each watched object, in any order, each the snapshot's tree. */
  ghost predicate Covers(b: Snapshot, f: Facts, objs: set<Object>, statuses: seq<ObjectStatus>) {
    exists order :: Enumerates(order, objs) && AllReflect(b, f, order, statuses)
  }

  ghost predicate AllReflect(b: Snapshot, f: Facts, order: seq<Object>, statuses: seq<ObjectStatus>) {
    |statuses| == |order| && forall k :: 0 <= k < |statuses| ==> Reflects(b, f, order[k], statuses[k])
  }

  /** Between two targets: nothing was ever given to Eval; and if all went well so far, no load failed and
      no query over all namespaces has asked for everything. */
  ghost predicate Clean(e: Evaluator, f: Facts, good: bool)
    reads e
  {
    && e.Valid() && Inserted(e.cluster, e.history) == {}
    && (good ==> KindsKept(f) && Ready(e.cluster, f, e.history) && !Acc(e.history, NAMESPACE_ALL).includeAll)
  }

  lemma TargetAnswer(b: Snapshot, f: Facts, h: History, target: Target)
    requires ValidSnapshot(b) && Ready(b, f, h) && Inserted(b, h) == {} && !Acc(h, NAMESPACE_ALL).includeAll
    ensures QueryResult(b, h, TargetQuery(target), true) == Watched(b, target)
    ensures var h' := Asked(h, TargetQuery(target), true);
            Ready(b, f, h') && Inserted(b, h') == {} && !Acc(h', NAMESPACE_ALL).includeAll
  {
    var q := TargetQuery(target);
    QueryAnswer(b, h, q, true);
    UndisturbedAnswersNaivelyIff(b, h, q);
    ReadyAfterLoad(b, f, h, NAMESPACE_ALL, q.Kinds());
  }

  ghost function JourneyFrom(b: Snapshot, f: Facts, h: History, o: Object, good: bool, ground: set<Object>): Journey {
    Journey(SituationOf(b, h), o.ns, Reach(b, f, {o}), good, {}, ground)
  }

  /** Where Eval has brought in nothing, every query of every analyzer is answered as by the snapshot. */
  lemma AlwaysServed(e: Evaluator, f: Facts, o: Object, good: bool, ground: set<Object>)
    requires Clean(e, f, good) && o.ns != NAMESPACE_ALL
    ensures var j := JourneyFrom(e.cluster, f, e.history, o, good, ground);
            Underway(e, f, j, {}) && o in j.scope
  {
    var b, h := e.cluster, e.history;
    var j := JourneyFrom(b, f, h, o, good, ground);
    ReachClosed(b, f, {o});
    ReachStaysInNamespace(b, f, o);
    CachedIsBackedOrInserted(b, h);
    hide Reach, Ready, Cached, Inserted, Hidden, Marked;
    assert Wanted(b, f, j.s, {}) == {} && Namespaces({}) == {};
    assert Explored(b, f, j.s, {}) == j.s;
  }

  lemma StillClean(e: Evaluator, f: Facts, j: Journey, asked: set<Object>)
    requires Underway(e, f, j, asked) && j.given == {} && (j.served ==> !j.s.wide.includeAll)
    ensures Clean(e, f, j.served)
  {
  }

  method AnalyzeWatched(e: Evaluator, f: Facts, o: Object, answered: bool,
                        ghost rank: Object -> nat, ghost ground: set<Object>, ghost good: bool)
    returns (t: ObjectStatus)
    requires Clean(e, f, good) && o.ns != NAMESPACE_ALL && (good ==> answered)
    requires o in ground && Grounded(e.cluster, f, {}, ground, rank)
    modifies e
    ensures Clean(e, f, good) && Analyze.Monotone(t) && (good ==> Reflects(e.cluster, f, o, t))
  {
    ghost var j := JourneyFrom(e.cluster, f, e.history, o, good, ground);
    AlwaysServed(e, f, o, good, ground);
    assert good ==> !j.s.wide.includeAll;
    hide Reach, Grounded, Unfolds, Analyze.Analyzed, Clean, Underway;
    ghost var r, asked;
    t, r, asked := AnalyzeObject(e, f, o, answered, rank, j, {});
    StillClean(e, f, j, asked);
    Analyze.AnalyzedMonotone(r);
    assert good ==> Reflects(e.cluster, f, o, t);
  }

  /** Without an answer from the backend, what is cached already is what comes. */
  method LoadWatched(e: Evaluator, f: Facts, target: Target, answered: bool, ghost good: bool)
    returns (objs: seq<Object>)
    requires Clean(e, f, good) && (good ==> answered)
    modifies e
    ensures Clean(e, f, good) && Elems(objs) <= Watched(e.cluster, target)
    ensures good ==> Enumerates(objs, Watched(e.cluster, target))
  {
    var ok: bool := *;
    AnswerIsKnown(e.cluster, e.history, TargetQuery(target), answered || ok);
    if good {
      TargetAnswer(e.cluster, f, e.history, target);
    }
    PickedIsWatched(e.cluster, target);
    hide Ready, Inserted, Acc, QueryResult, Watched, Asked, Picks;
    objs := e.Load(TargetQuery(target), answered || ok);
  }

  lemma PickedIsWatched(b: Snapshot, target: Target)
    ensures forall c :: c in b.objects && Picks(TargetQuery(target), c) ==> c in Watched(b, target)
  {
  }

  method AnalyzeAll(e: Evaluator, f: Facts, objs: seq<Object>, answered: bool,
                    ghost rank: Object -> nat, ghost ground: set<Object>, ghost good: bool)
    returns (statuses: seq<ObjectStatus>)
    requires Clean(e, f, good) && (good ==> answered) && Grounded(e.cluster, f, {}, ground, rank)
    requires forall i :: 0 <= i < |objs| ==> objs[i] in ground && objs[i].ns != NAMESPACE_ALL
    modifies e
    ensures Clean(e, f, good) && AllMonotone(statuses) && (good ==> AllReflect(e.cluster, f, objs, statuses))
  {
    hide Clean, Reflects, Grounded, Analyze.Monotone;
    statuses := [];
    for k := 0 to |objs|
      invariant Clean(e, f, good) && AllMonotone(statuses) && |statuses| == k
      invariant good ==> forall i :: 0 <= i < k ==> Reflects(e.cluster, f, objs[i], statuses[i])
    {
      var t := AnalyzeWatched(e, f, objs[k], answered, rank, ground, good);
      statuses := statuses + [t];
    }
  }

  ghost predicate AllMonotone(statuses: seq<ObjectStatus>) {
    forall i :: 0 <= i < |statuses| ==> Analyze.Monotone(statuses[i])
  }

  method AnalyzeTarget(e: Evaluator, f: Facts, target: Target, answered: bool,
                       ghost rank: Object -> nat, ghost ground: set<Object>, ghost good: bool)
    returns (statuses: seq<ObjectStatus>)
    requires Clean(e, f, good) && (good ==> answered)
    requires Watched(e.cluster, target) <= ground && Grounded(e.cluster, f, {}, ground, rank)
    modifies e
    ensures Clean(e, f, good) && AllMonotone(statuses)
    ensures good ==> Covers(e.cluster, f, Watched(e.cluster, target), statuses)
  {
    CleanIsValid(e, f, good);
    WatchedIsBacked(e.cluster, target);
    hide Clean, Watched, AllReflect, Grounded, AllMonotone, ValidSnapshot;
    var objs := LoadWatched(e, f, target, answered, good);
    forall i | 0 <= i < |objs| ensures objs[i] in Watched(e.cluster, target) {
      assert objs[i] in Elems(objs);
    }
    statuses := AnalyzeAll(e, f, objs, answered, rank, ground, good);
  }

  lemma CleanIsValid(e: Evaluator, f: Facts, good: bool)
    requires Clean(e, f, good)
    ensures e.Valid() && ValidSnapshot(e.cluster)
  {
  }

  lemma WatchedIsBacked(b: Snapshot, target: Target)
    requires ValidSnapshot(b)
    ensures Watched(b, target) <= b.objects && forall o :: o in Watched(b, target) ==> o.ns != NAMESPACE_ALL
  {
  }

  ghost predicate GoodUpTo(f: Facts, answered: seq<bool>, i: nat)
    requires i <= |answered|
  {
    KindsKept(f) && forall k :: 0 <= k < i ==> answered[k]
  }

  ghost predicate TargetOk(b: Snapshot, f: Facts, target: Target, good: bool, shown: TargetStatuses) {
    && shown.target == target.name
    && AllMonotone(shown.statuses)
    && (good ==> Covers(b, f, Watched(b, target), shown.statuses))
  }

  ghost predicate RoundCovers(b: Snapshot, f: Facts, targets: seq<Target>, answered: seq<bool>,
                              update: seq<TargetStatuses>)
    requires |targets| == |answered|
  {
    && |update| <= |targets|
    && forall i :: 0 <= i < |update| ==> TargetOk(b, f, targets[i], GoodUpTo(f, answered, i + 1), update[i])
  }

  /** One round of the monitor over a fixed snapshot, for any targets: for each of them, as long as the
      backend has answered, exactly the objects of its kinds, each once, each with the snapshot's tree
      below it. */
  method MonitorRound(e: Evaluator, f: Facts, targets: seq<Target>, answered: seq<bool>,
                      ghost rank: Object -> nat, ghost ground: set<Object>)
    returns (update: seq<TargetStatuses>)
    requires e.Valid() && |targets| == |answered| && Grounded(e.cluster, f, {}, ground, rank)
    requires forall i :: 0 <= i < |targets| ==> Watched(e.cluster, targets[i]) <= ground
    modifies e
    ensures e.Valid() && |update| == |targets| && RoundCovers(e.cluster, f, targets, answered, update)
  {
    e.Reset();
    CleanStart(e, f, GoodUpTo(f, answered, 0));
    hide Clean, Watched, Grounded, Covers, RoundCovers, GoodUpTo, AllMonotone;
    NothingCovered(e.cluster, f, targets, answered);
    update := [];
    for i := 0 to |targets|
      invariant Clean(e, f, GoodUpTo(f, answered, i)) && |update| == i
      invariant RoundCovers(e.cluster, f, targets, answered, update)
    {
      OneMoreAnswer(e, f, answered, i);
      var statuses := AnalyzeTarget(e, f, targets[i], answered[i], rank, ground, GoodUpTo(f, answered, i + 1));
      OneMoreCovered(e.cluster, f, targets, answered, update, TargetStatuses(targets[i].name, statuses));
      update := update + [TargetStatuses(targets[i].name, statuses)];
    }
    CleanIsValid(e, f, GoodUpTo(f, answered, |targets|));
  }

  lemma CleanStart(e: Evaluator, f: Facts, good: bool)
    requires e.Valid() && e.history.Start? && (good ==> KindsKept(f))
    ensures Clean(e, f, good)
  {
  }

  lemma OneMoreAnswer(e: Evaluator, f: Facts, answered: seq<bool>, i: nat)
    requires i < |answered| && Clean(e, f, GoodUpTo(f, answered, i))
    ensures GoodUpTo(f, answered, i + 1) ==> answered[i]
    ensures Clean(e, f, GoodUpTo(f, answered, i + 1))
  {
  }

  lemma NothingCovered(b: Snapshot, f: Facts, targets: seq<Target>, answered: seq<bool>)
    requires |targets| == |answered|
    ensures RoundCovers(b, f, targets, answered, []) && (GoodUpTo(f, answered, 0) ==> KindsKept(f))
  {
  }

  lemma OneMoreCovered(b: Snapshot, f: Facts, targets: seq<Target>, answered: seq<bool>, update: seq<TargetStatuses>,
                       shown: TargetStatuses)
    requires |update| < |targets| == |answered| && RoundCovers(b, f, targets, answered, update)
    requires TargetOk(b, f, targets[|update|], GoodUpTo(f, answered, |update| + 1), shown)
    ensures RoundCovers(b, f, targets, answered, update + [shown])
  {
    hide TargetOk;
  }

  // ----- such a round survives deduplication -----

  lemma {:induction false} ContainerShape(cs: seq<Analyze.Container>)
    ensures forall t :: t in Analyze.ContainerStatuses(cs) ==> t.subject.uid == "" && t.subs == []
  {
    if cs == [] {
    } else {
      ContainerShape(cs[..|cs| - 1]);
    }
  }

  /** A sub-object in a tree is a container, or a tree of the snapshot itself. */
  ghost predicate PartOk(b: Snapshot, f: Facts, t: ObjectStatus) {
    (t.subject.uid == "" && t.subs == []) || exists c :: c in b.objects && Reflects(b, f, c, t)
  }

  lemma PodPart(b: Snapshot, f: Facts, c: Object)
    requires c in b.objects && HandlerOf(c.kind).ByPod?
    ensures PartOk(b, f, Analyze.PodStatus(PodOf(f, c)))
  {
    assert Unfolds(b, f, c, Analyze.PodResource(PodOf(f, c)));
    assert Analyze.Analyzed(Analyze.PodResource(PodOf(f, c))) == Analyze.PodStatus(PodOf(f, c));
  }

  lemma PodParts(b: Snapshot, f: Facts, o: Object, pods: seq<Analyze.Pod>)
    requires ShowsPods(b, f, o, pods) && (HandlerOf(o.kind).ByReplicaSet? || HandlerOf(o.kind).ByService?)
    ensures forall t :: t in Analyze.PodStatuses(pods) ==> PartOk(b, f, t)
  {
    var objs: seq<Object> :| Enumerates(objs, Children(b, f, o)) && pods == Pods(f, objs);
    forall i | 0 <= i < |objs| ensures PartOk(b, f, Analyze.PodStatus(PodOf(f, objs[i]))) {
      assert objs[i] in Elems(objs);
      assert Match(OneKind(GK_POD), objs[i].kind);
      PodPart(b, f, objs[i]);
    }
  }

  lemma SetParts(b: Snapshot, f: Facts, o: Object, sets: seq<Analyze.ReplicaSet>)
    requires ShowsSets(b, f, o, sets) && HandlerOf(o.kind).ByDeployment?
    ensures forall t :: t in Analyze.LiveSets(sets) ==> PartOk(b, f, t)
  {
    hide Analyze.ReplicaSetStatus, IsReplicaSet, Analyze.LiveSets;
    var objs: seq<Object> :| Enumerates(objs, Children(b, f, o)) && AreReplicaSets(b, f, objs, sets);
    forall t | t in Analyze.LiveSets(sets) ensures PartOk(b, f, t) {
      LiveSetsMembers(sets, t);
      var rs :| rs in sets && Analyze.ReplicaSetStatus(rs) == t;
      var k :| 0 <= k < |sets| && sets[k] == rs;
      assert objs[k] in Elems(objs);
      assert Match(OneKind(GK_REPLICA_SET), objs[k].kind);
      assert Unfolds(b, f, objs[k], Analyze.ReplicaSetResource(rs));
      assert Analyze.Analyzed(Analyze.ReplicaSetResource(rs)) == t;
    }
  }

  lemma ChildrenAreBacked(b: Snapshot, f: Facts, o: Object)
    ensures Children(b, f, o) <= b.objects
  {
  }

  lemma OwnedParts(b: Snapshot, f: Facts, o: Object, r: Analyze.Resource) returns (objs: seq<Object>)
    requires HandlerOf(o.kind).ByGeneric? && Unfolds(b, f, o, r)
    ensures r.Generic? && Enumerates(objs, Children(b, f, o)) && |objs| == |r.owned|
    ensures forall i :: 0 <= i < |objs| ==> Unfolds(b, f, objs[i], r.owned[i])
  {
    hide Children, Enumerates;
    objs :| Enumerates(objs, Children(b, f, o)) && |objs| == |r.owned|
            && forall i :: 0 <= i < |objs| ==> Unfolds(b, f, objs[i], r.owned[i]);
  }

  lemma GenericParts(b: Snapshot, f: Facts, o: Object, r: Analyze.Resource)
    requires HandlerOf(o.kind).ByGeneric? && r.Generic? && Unfolds(b, f, o, r)
    ensures forall t :: t in Analyze.AnalyzedAll(r.owned) ==> PartOk(b, f, t)
  {
    hide Analyze.Analyzed, Analyze.AnalyzedAll, Unfolds, Children;
    var objs := OwnedParts(b, f, o, r);
    AnalyzedAllFacts(r.owned);
    ChildrenAreBacked(b, f, o);
    forall i | 0 <= i < |objs| ensures PartOk(b, f, Analyze.AnalyzedAll(r.owned)[i]) {
      assert objs[i] in Elems(objs);
      assert Reflects(b, f, objs[i], Analyze.AnalyzedAll(r.owned)[i]);
    }
  }

  lemma PartsOk(b: Snapshot, f: Facts, o: Object, t: ObjectStatus)
    requires Reflects(b, f, o, t)
    ensures t.subject == SubjectOf(o) && forall s :: s in t.subs ==> PartOk(b, f, s)
  {
    var r :| Unfolds(b, f, o, r) && t == Analyze.Analyzed(r);
    hide PartOk, Analyze.LiveSets, Analyze.Settled, ShowsPods, ShowsSets;
    match HandlerOf(o.kind)
    case ByPod => if f.pod(o).Some? { ContainerParts(b, f, f.pod(o).value.containers); }
    case ByReplicaSet => PodParts(b, f, o, r.rs.pods);
    case ByDeployment => SetParts(b, f, o, r.sets);
    case ByService => PodParts(b, f, o, r.pods);
    case ByGreen =>
    case ByGeneric => GenericParts(b, f, o, r); GenericStatus(r);
  }

  lemma ContainerParts(b: Snapshot, f: Facts, cs: seq<Analyze.Container>)
    ensures forall t :: t in Analyze.ContainerStatuses(cs) ==> PartOk(b, f, t)
  {
    ContainerShape(cs);
  }

  /** Every named node of a snapshot's tree is itself the snapshot's tree below an object of it. */
  lemma {:induction false} NodesReflect(b: Snapshot, f: Facts, o: Object, t: ObjectStatus, d: ObjectStatus)
    requires Reflects(b, f, o, t) && d in Nodes(t.subs) && d.subject.uid != ""
    ensures exists c :: c in b.objects && Reflects(b, f, c, d)
    decreases t
  {
    PartsOk(b, f, o, t);
    hide Reflects;
    var s := RootAbove(t.subs, d);
    if d == s {
    } else {
      assert s.subs != [] by {
        assert d in Nodes(s.subs);
      }
      var c :| c in b.objects && Reflects(b, f, c, s);
      NodesReflect(b, f, c, s, d);
    }
  }

  ghost predicate Named(b: Snapshot) {
    forall o :: o in b.objects ==> o.uid != ""
  }

  lemma RecursAlike(b: Snapshot, f: Facts, o: Object, r: ObjectStatus, o': Object, top: ObjectStatus, d: ObjectStatus)
    requires ValidSnapshot(b) && Named(b) && o in b.objects
    requires Reflects(b, f, o, r) && Reflects(b, f, o', top)
    requires d in Nodes(top.subs) && d.subject.uid == r.subject.uid
    ensures Uids([r]) == Uids([d]) && Height(r) == Height(d)
  {
    PartsOk(b, f, o, r);
    NodesReflect(b, f, o', top, d);
    hide Reflects, Uids, Height, PartOk, Nodes;
    var c :| c in b.objects && Reflects(b, f, c, d);
    PartsOk(b, f, c, d);
    assert c.uid == o.uid;
    SameVerdict(b, f, o, r, d);
  }

  /** A forest of the snapshot's trees is consistent: wherever an object recurs, the same hangs there. */
  lemma ForestIsConsistent(b: Snapshot, f: Facts, roots: seq<ObjectStatus>)
    requires ValidSnapshot(b) && Named(b)
    requires forall r :: r in roots ==> exists o :: o in b.objects && Reflects(b, f, o, r)
    ensures Consistent(roots)
  {
    hide Reflects, ValidSnapshot;
    forall r, top, d | r in roots && top in roots && d in Nodes(top.subs) && d.subject.uid == r.subject.uid
      ensures Uids([r]) <= Uids([d]) && Height(r) <= Height(d)
    {
      hide Nodes, Uids, Height;
      var o :| o in b.objects && Reflects(b, f, o, r);
      var o' :| o' in b.objects && Reflects(b, f, o', top);
      RecursAlike(b, f, o, r, o', top, d);
    }
  }

  lemma {:induction false} RootsReflect(b: Snapshot, f: Facts, targets: seq<Target>, answered: seq<bool>,
                                        update: seq<TargetStatuses>, r: ObjectStatus)
    requires |targets| == |answered| && RoundCovers(b, f, targets, answered, update)
    requires GoodUpTo(f, answered, |answered|) && r in Roots(update)
    ensures exists o :: o in b.objects && Reflects(b, f, o, r)
    decreases |update|
  {
    hide Reflects, AllMonotone;
    var n := |update| - 1;
    if r in Roots(update[..n]) {
      RootsReflect(b, f, targets, answered, update[..n], r);
    } else {
      assert TargetOk(b, f, targets[n], GoodUpTo(f, answered, n + 1), update[n]);
      var order :| Enumerates(order, Watched(b, targets[n])) && AllReflect(b, f, order, update[n].statuses);
      var k :| 0 <= k < |update[n].statuses| && update[n].statuses[k] == r;
      assert order[k] in Elems(order);
    }
  }

  /** From the snapshot to the deduplicated display: of everything an answered round shows, for any
      targets, no object disappears with the duplicates. */
  lemma RoundSurvivesDedup(b: Snapshot, f: Facts, targets: seq<Target>, answered: seq<bool>,
                           update: seq<TargetStatuses>)
    requires ValidSnapshot(b) && Named(b)
    requires |targets| == |answered| && RoundCovers(b, f, targets, answered, update)
    requires GoodUpTo(f, answered, |answered|)
    ensures Uids(Roots(Deduped(update))) == Uids(Roots(update))
  {
    forall r | r in Roots(update) ensures exists o :: o in b.objects && Reflects(b, f, o, r) {
      RootsReflect(b, f, targets, answered, update, r);
    }
    ForestIsConsistent(b, f, Roots(update));
    DedupLosesNoObject(Roots(update));
    RootsKept(update, Deduped(update), SeenBelow(Roots(update)));
  }
}
