/**
 The snapshot as a tree: which analyzer handles an object, what it asks for as sub-objects, and the
 status tree that results if every query gets what the snapshot holds. No evaluator, no cache.
 */
module SnapshotTree {
  import opened Base
  import opened Matcher
  import opened Cluster
  import opened Evaluator
  import opened Status
  import Analyze

  const GK_POD := GroupKind("", "Pod")
  const GK_REPLICA_SET := GroupKind("apps", "ReplicaSet")
  const GK_DEPLOYMENT := GroupKind("apps", "Deployment")
  const GK_SERVICE := GroupKind("", "Service")
  const GK_NAMESPACE := GroupKind("", "Namespace")

  datatype Handler = ByPod | ByReplicaSet | ByDeployment | ByService | ByGreen | ByGeneric

  /** The analyzer that supports a kind. */
  function HandlerOf(gk: GroupKind): Handler {
    if gk == GK_POD then ByPod
    else if gk == GK_REPLICA_SET then ByReplicaSet
    else if gk == GK_DEPLOYMENT then ByDeployment
    else if gk == GK_SERVICE then ByService
    else if gk == GK_NAMESPACE then ByGreen
    else ByGeneric
  }

  // The ignored kinds, and what the objects say of themselves; what cannot be read is None.
  datatype Facts = Facts(
    ignored: seq<GroupKind>,
    selector: Object -> Selector,
    conds: Object -> Option<seq<Condition>>,
    pod: Object -> Option<Analyze.PodInfo>,
    replicas: Object -> Option<int>,
    counts: Object -> Option<Analyze.ReplicaCounts>,
    hasStatus: Object -> bool,
    generation: Object -> seq<Condition>
  )

  function SubjectOf(o: Object): Subject {
    Subject(o.uid, o.ns, o.kind.kind, o.name)
  }

  function PodOf(f: Facts, o: Object): Analyze.Pod {
    Analyze.Pod(SubjectOf(o), f.conds(o), f.pod(o))
  }

  function Pods(f: Facts, objs: seq<Object>): seq<Analyze.Pod> {
    seq(|objs|, i requires 0 <= i < |objs| => PodOf(f, objs[i]))
  }

  function OneKind(gk: GroupKind): GroupKindMatcher {
    GroupKindMatcher(false, [gk], [])
  }

  /** How the analyzer of an object asks for its sub-objects. */
  function SubQuery(f: Facts, o: Object): Option<QuerySpec> {
    match HandlerOf(o.kind)
    case ByPod => None
    case ByReplicaSet => Some(LabelQuery(o, OneKind(GK_POD), f.selector(o)))
    case ByDeployment => Some(LabelQuery(o, OneKind(GK_REPLICA_SET), f.selector(o)))
    case ByService => Some(LabelQuery(o, OneKind(GK_POD), f.selector(o)))
    case ByGreen => None
    case ByGeneric => Some(OwnerQuery(o, GroupKindMatcher(true, [], f.ignored), None))
  }

  /** The sub-objects of an object in the snapshot. */
  ghost function Children(b: Snapshot, f: Facts, o: Object): set<Object> {
    if SubQuery(f, o).None? then {} else NaiveAnswer(b, SubQuery(f, o).value)
  }

  // ----- what the sub-objects are, in the fields of an object -----

  ghost predicate SelectedBy(f: Facts, o: Object, c: Object) {
    f.selector(o).Selector? && f.selector(o).matches(c.labels)
  }

  /** A replica set and a service have the pods of their namespace that their own selector matches. */
  lemma SelectedPods(b: Snapshot, f: Facts, o: Object, c: Object)
    requires o.ns != "*all*" && (o.kind == GroupKind("apps", "ReplicaSet") || o.kind == GroupKind("", "Service"))
    ensures c in Children(b, f, o) <==>
            c in b.objects && c.ns == o.ns && c.kind == GroupKind("", "Pod") && SelectedBy(f, o, c)
  {
    LabelQueryMeans(o, OneKind(GK_POD), f.selector(o), c);
    OneKindMeans(GK_POD, c.kind);
  }

  /** A deployment has the replica sets of its namespace that its selector matches. */
  lemma SelectedSets(b: Snapshot, f: Facts, o: Object, c: Object)
    requires o.ns != "*all*" && o.kind == GroupKind("apps", "Deployment")
    ensures c in Children(b, f, o) <==>
            c in b.objects && c.ns == o.ns && c.kind == GroupKind("apps", "ReplicaSet") && SelectedBy(f, o, c)
  {
    LabelQueryMeans(o, OneKind(GK_REPLICA_SET), f.selector(o), c);
    OneKindMeans(GK_REPLICA_SET, c.kind);
  }

  lemma OneKindMeans(gk: GroupKind, k: GroupKind)
    ensures Match(OneKind(gk), k) <==> k == gk
  {
  }

  predicate HasOwnAnalyzer(gk: GroupKind) {
    || gk == GroupKind("", "Pod") || gk == GroupKind("apps", "ReplicaSet") || gk == GroupKind("apps", "Deployment")
    || gk == GroupKind("", "Service") || gk == GroupKind("", "Namespace")
  }

  /** Pods and namespaces have no sub-objects; everything else what it owns in its namespace, but for the
      ignored kinds. */
  lemma OwnedObjects(b: Snapshot, f: Facts, o: Object, c: Object)
    requires o.ns != "*all*"
    ensures o.kind == GroupKind("", "Pod") || o.kind == GroupKind("", "Namespace") ==> c !in Children(b, f, o)
    ensures !HasOwnAnalyzer(o.kind) ==>
              (c in Children(b, f, o) <==>
               && c in b.objects && c.ns == o.ns && c.kind !in f.ignored
               && exists k :: 0 <= k < |c.owners| && c.owners[k] == o.uid)
  {
    OwnerQueryMeans(o, GroupKindMatcher(true, [], f.ignored), None, c);
  }

  // ----- the snapshot unfolded below an object -----

  ghost predicate Enumerates(objs: seq<Object>, s: set<Object>) {
    NoDup(objs) && Elems(objs) == s
  }

  ghost predicate ShowsPods(b: Snapshot, f: Facts, o: Object, pods: seq<Analyze.Pod>) {
    exists objs :: Enumerates(objs, Children(b, f, o)) && pods == Pods(f, objs)
  }

  ghost predicate IsReplicaSet(b: Snapshot, f: Facts, o: Object, rs: Analyze.ReplicaSet) {
    && rs.subject == SubjectOf(o) && rs.conds == f.conds(o)
    && rs.specReplicas == f.replicas(o) && rs.counts == f.counts(o)
    && ShowsPods(b, f, o, rs.pods)
  }

  ghost predicate AreReplicaSets(b: Snapshot, f: Facts, objs: seq<Object>, sets: seq<Analyze.ReplicaSet>) {
    |sets| == |objs| && forall i :: 0 <= i < |objs| ==> IsReplicaSet(b, f, objs[i], sets[i])
  }

  ghost predicate ShowsSets(b: Snapshot, f: Facts, o: Object, sets: seq<Analyze.ReplicaSet>) {
    exists objs :: Enumerates(objs, Children(b, f, o)) && AreReplicaSets(b, f, objs, sets)
  }

  /** Is the resource tree the snapshot below the object, every sub-object once, in some order? */
  ghost predicate Unfolds(b: Snapshot, f: Facts, o: Object, r: Analyze.Resource)
    decreases r
  {
    match HandlerOf(o.kind)
    case ByPod => r == Analyze.PodResource(PodOf(f, o))
    case ByReplicaSet => r.ReplicaSetResource? && IsReplicaSet(b, f, o, r.rs)
    case ByDeployment =>
      r.Deployment? && r.subject == SubjectOf(o) && r.conds == f.conds(o) && ShowsSets(b, f, o, r.sets)
    case ByService => r.Service? && r.subject == SubjectOf(o) && ShowsPods(b, f, o, r.pods)
    case ByGreen => r == Analyze.AlwaysGreen(SubjectOf(o))
    case ByGeneric =>
      && r.Generic? && r.subject == SubjectOf(o) && r.hasStatus == f.hasStatus(o)
      && r.generation == f.generation(o) && r.conds == f.conds(o)
      && exists objs :: Enumerates(objs, Children(b, f, o)) && |objs| == |r.owned|
                        && forall i :: 0 <= i < |objs| ==> Unfolds(b, f, objs[i], r.owned[i])
  }

  /** A status tree that shows the object and everything below it as the snapshot has it. */
  ghost predicate Reflects(b: Snapshot, f: Facts, o: Object, t: ObjectStatus) {
    exists r :: Unfolds(b, f, o, r) && t == Analyze.Analyzed(r)
  }

  // ----- what is reached from some objects -----

  ghost predicate ClosedOver(b: Snapshot, f: Facts, seeds: set<Object>, s: set<Object>) {
    seeds <= s && forall o :: o in s ==> Children(b, f, o) <= s
  }

  /** The objects and everything below them. */
  ghost function Reach(b: Snapshot, f: Facts, seeds: set<Object>): set<Object> {
    set x | x in b.objects + seeds && forall s :: ClosedOver(b, f, seeds, s) ==> x in s
  }

  lemma ReachClosed(b: Snapshot, f: Facts, seeds: set<Object>)
    ensures ClosedOver(b, f, seeds, Reach(b, f, seeds))
  {
    forall o, c | o in Reach(b, f, seeds) && c in Children(b, f, o) ensures c in Reach(b, f, seeds) {
      forall s | ClosedOver(b, f, seeds, s) ensures c in s {
        assert o in s;
      }
    }
  }

  lemma ReachIsLeast(b: Snapshot, f: Facts, seeds: set<Object>, s: set<Object>)
    requires ClosedOver(b, f, seeds, s)
    ensures Reach(b, f, seeds) <= s
  {
  }

  /** Sub-objects are looked for in the object's own namespace, so nothing leads out of it. */
  lemma ReachStaysInNamespace(b: Snapshot, f: Facts, o: Object)
    requires o.ns != NAMESPACE_ALL
    ensures forall x :: x in Reach(b, f, {o}) ==> x.ns == o.ns
  {
    var s := set x | x in b.objects + {o} && x.ns == o.ns;
    assert ClosedOver(b, f, {o}, s);
  }

  // ----- one verdict -----

  lemma {:induction false} AnalyzedAllFacts(rs: seq<Analyze.Resource>)
    ensures |Analyze.AnalyzedAll(rs)| == |rs|
    ensures forall i :: 0 <= i < |rs| ==> Analyze.AnalyzedAll(rs)[i] == Analyze.Analyzed(rs[i])
  {
    hide Analyze.Analyzed;
    if rs == [] {
    } else {
      AnalyzedAllFacts(rs[..|rs| - 1]);
    }
  }

  /** What counts of a tree whatever the order of the sub-objects: its status, whom it shows, its height. */
  datatype Digest = Digest(st: Status, uids: set<string>, height: nat)

  ghost function DigestOf(t: ObjectStatus): Digest {
    Digest(t.st, Uids([t]), Height(t))
  }

  ghost function Digests(ts: seq<ObjectStatus>): seq<Digest> {
    seq(|ts|, i requires 0 <= i < |ts| => DigestOf(ts[i]))
  }

  /** Two enumerations of the same objects with the same digest for each give the same digests. */
  lemma SameDigests(objs: seq<Object>, ds: seq<Digest>, objs': seq<Object>, ds': seq<Digest>)
    requires |objs| == |ds| && |objs'| == |ds'| && Elems(objs) <= Elems(objs')
    requires forall i, j :: 0 <= i < |objs| && 0 <= j < |objs'| && objs[i] == objs'[j] ==> ds[i] == ds'[j]
    ensures Elems(ds) <= Elems(ds')
  {
    forall d | d in Elems(ds) ensures d in Elems(ds') {
      var i :| 0 <= i < |ds| && ds[i] == d;
      assert objs[i] in Elems(objs');
      var j :| 0 <= j < |objs'| && objs'[j] == objs[i];
      assert ds'[j] == d;
    }
  }

  lemma {:induction false} DigestMembers(ts: seq<ObjectStatus>)
    ensures forall u :: u in Uids(ts) <==> exists i :: 0 <= i < |ts| && u in Uids([ts[i]])
    ensures forall i :: 0 <= i < |ts| ==> Height(ts[i]) <= HeightAll(ts)
    ensures ts != [] ==> exists i :: 0 <= i < |ts| && Height(ts[i]) == HeightAll(ts)
  {
    if ts == [] {
    } else {
      DigestMembers(ts[1..]);
      UidsFirst(ts);
      HeightFirst(ts);
    }
  }

  lemma UidsFirst(ts: seq<ObjectStatus>)
    requires ts != []
    ensures Uids(ts) == Uids([ts[0]]) + Uids(ts[1..])
  {
    NodesConcat([ts[0]], ts[1..]);
    assert ts == [ts[0]] + ts[1..];
  }

  lemma HeightFirst(ts: seq<ObjectStatus>)
    requires ts != []
    ensures HeightAll(ts) == if Height(ts[0]) > HeightAll(ts[1..]) then Height(ts[0]) else HeightAll(ts[1..])
  {
  }

  /** Fewer digests, less of everything. */
  lemma DigestsWithin(ts: seq<ObjectStatus>, ts': seq<ObjectStatus>)
    requires Elems(Digests(ts)) <= Elems(Digests(ts'))
    ensures Elems(Analyze.SubStatuses(ts)) <= Elems(Analyze.SubStatuses(ts'))
    ensures Uids(ts) <= Uids(ts') && HeightAll(ts) <= HeightAll(ts')
    ensures ts != [] ==> ts' != []
  {
    DigestMembers(ts);
    DigestMembers(ts');
    hide Uids, Height, HeightAll;
    forall i | 0 <= i < |ts| ensures exists j :: 0 <= j < |ts'| && DigestOf(ts'[j]) == DigestOf(ts[i]) {
      assert Digests(ts)[i] in Elems(Digests(ts'));
    }
    forall st | st in Elems(Analyze.SubStatuses(ts)) ensures st in Elems(Analyze.SubStatuses(ts')) {
      var i :| 0 <= i < |ts| && ts[i].st == st;
      var j :| 0 <= j < |ts'| && DigestOf(ts'[j]) == DigestOf(ts[i]);
      assert Analyze.SubStatuses(ts')[j] == st;
    }
    NoHeight();
  }

  lemma NoHeight()
    ensures HeightAll([]) == 0
  {
  }

  ghost predicate SameParts(ts: seq<ObjectStatus>, ts': seq<ObjectStatus>) {
    Elems(Digests(ts)) == Elems(Digests(ts'))
  }

  lemma DigestOfParts(t: ObjectStatus)
    ensures DigestOf(t).uids == {t.subject.uid} + Uids(t.subs) && DigestOf(t).height == 1 + HeightAll(t.subs)
  {
    assert Nodes([t]) == {t} + Nodes(t.subs) + Nodes([]);
  }

  /** Aggregation over the same conditions and alike sub-objects. */
  lemma SameAggregate(subject: Subject, subs: seq<ObjectStatus>, subs': seq<ObjectStatus>, conds: seq<Condition>)
    requires SameParts(subs, subs')
    ensures DigestOf(Analyze.Aggregated(subject, subs, conds)) == DigestOf(Analyze.Aggregated(subject, subs', conds))
  {
    hide Analyze.JoinAll, Uids, HeightAll;
    DigestsWithin(subs, subs');
    DigestsWithin(subs', subs);
    DigestOfParts(Analyze.Aggregated(subject, subs, conds));
    DigestOfParts(Analyze.Aggregated(subject, subs', conds));
    hide DigestOf;
    ElemsConcat(Analyze.CondStatuses(conds), Analyze.SubStatuses(subs));
    ElemsConcat(Analyze.CondStatuses(conds), Analyze.SubStatuses(subs'));
    Analyze.AggregateOrderIndependent(Analyze.CondStatuses(conds) + Analyze.SubStatuses(subs),
                                      Analyze.CondStatuses(conds) + Analyze.SubStatuses(subs'));
  }

  lemma LiveSetsSnoc(init: seq<Analyze.ReplicaSet>, last: Analyze.ReplicaSet)
    ensures Analyze.LiveSets(init + [last]) ==
            Analyze.LiveSets(init) + if last.specReplicas == Some(0) then [] else [Analyze.ReplicaSetStatus(last)]
  {
    hide Analyze.ReplicaSetStatus;
    assert (init + [last])[..|init|] == init;
  }

  lemma {:induction false} LiveSetsMembers(sets: seq<Analyze.ReplicaSet>, t: ObjectStatus)
    ensures t in Analyze.LiveSets(sets) <==>
            exists rs :: rs in sets && rs.specReplicas != Some(0) && Analyze.ReplicaSetStatus(rs) == t
  {
    hide Analyze.ReplicaSetStatus;
    if sets == [] {
    } else {
      hide Analyze.LiveSets;
      var init, last := sets[..|sets| - 1], sets[|sets| - 1];
      assert sets == init + [last];
      LiveSetsMembers(init, t);
      LiveSetsSnoc(init, last);
    }
  }

  lemma AllDoneIff(subs: seq<ObjectStatus>)
    ensures Analyze.AllDone(subs) <==> Elems(Analyze.SubStatuses(subs)) == {Analyze.FINE}
  {
    var sts := Analyze.SubStatuses(subs);
    assert forall i :: 0 <= i < |subs| ==> sts[i] == subs[i].st && sts[i] in Elems(sts);
    if |subs| > 0 {
      assert subs[0].st in Elems(sts);
    }
  }

  lemma SamePods(b: Snapshot, f: Facts, o: Object, pods: seq<Analyze.Pod>, pods': seq<Analyze.Pod>)
    requires ShowsPods(b, f, o, pods) && ShowsPods(b, f, o, pods')
    ensures SameParts(Analyze.PodStatuses(pods), Analyze.PodStatuses(pods'))
  {
    hide Analyze.PodStatus, DigestOf;
    var objs :| Enumerates(objs, Children(b, f, o)) && pods == Pods(f, objs);
    var objs' :| Enumerates(objs', Children(b, f, o)) && pods' == Pods(f, objs');
    var ds, ds' := Digests(Analyze.PodStatuses(pods)), Digests(Analyze.PodStatuses(pods'));
    SameDigests(objs, ds, objs', ds');
    SameDigests(objs', ds', objs, ds);
  }

  lemma SameReplicaSet(b: Snapshot, f: Facts, o: Object, rs: Analyze.ReplicaSet, rs': Analyze.ReplicaSet)
    requires IsReplicaSet(b, f, o, rs) && IsReplicaSet(b, f, o, rs')
    ensures DigestOf(Analyze.ReplicaSetStatus(rs)) == DigestOf(Analyze.ReplicaSetStatus(rs'))
    ensures rs.specReplicas == rs'.specReplicas
  {
    SamePods(b, f, o, rs.pods, rs'.pods);
    hide DigestOf, SameParts;
    if rs.conds.Some? && rs.counts.Some? {
      SameAggregate(rs.subject, Analyze.PodStatuses(rs.pods), Analyze.PodStatuses(rs'.pods),
                    rs.conds.value + Analyze.ReplicaSynthetic(rs.specReplicas, rs.counts.value));
    }
  }

  lemma LiveSetsWithin(b: Snapshot, f: Facts, o: Object, sets: seq<Analyze.ReplicaSet>, sets': seq<Analyze.ReplicaSet>)
    requires ShowsSets(b, f, o, sets) && ShowsSets(b, f, o, sets')
    ensures Elems(Digests(Analyze.LiveSets(sets))) <= Elems(Digests(Analyze.LiveSets(sets')))
  {
    hide Analyze.ReplicaSetStatus, Analyze.LiveSets, IsReplicaSet, Children, DigestOf;
    var objs :| Enumerates(objs, Children(b, f, o)) && AreReplicaSets(b, f, objs, sets);
    var objs' :| Enumerates(objs', Children(b, f, o)) && AreReplicaSets(b, f, objs', sets');
    var live, live' := Analyze.LiveSets(sets), Analyze.LiveSets(sets');
    forall d | d in Elems(Digests(live)) ensures d in Elems(Digests(live')) {
      var i :| 0 <= i < |live| && DigestOf(live[i]) == d;
      LiveSetsMembers(sets, live[i]);
      var rs :| rs in sets && rs.specReplicas != Some(0) && Analyze.ReplicaSetStatus(rs) == live[i];
      var k :| 0 <= k < |sets| && sets[k] == rs;
      assert objs[k] in Elems(objs');
      var j :| 0 <= j < |objs'| && objs'[j] == objs[k];
      SameReplicaSet(b, f, objs[k], sets[k], sets'[j]);
      LiveSetsMembers(sets', Analyze.ReplicaSetStatus(sets'[j]));
      var n :| 0 <= n < |live'| && live'[n] == Analyze.ReplicaSetStatus(sets'[j]);
      assert Digests(live')[n] == d;
    }
  }

  lemma SameDeployment(b: Snapshot, f: Facts, o: Object, r: Analyze.Resource, r': Analyze.Resource)
    requires HandlerOf(o.kind).ByDeployment? && Unfolds(b, f, o, r) && Unfolds(b, f, o, r')
    ensures DigestOf(Analyze.Analyzed(r)) == DigestOf(Analyze.Analyzed(r'))
  {
    hide ShowsSets, Analyze.LiveSets, DigestOf, Analyze.Aggregated, Analyze.AllDone;
    var live, live' := Analyze.LiveSets(r.sets), Analyze.LiveSets(r'.sets);
    LiveSetsWithin(b, f, o, r.sets, r'.sets);
    LiveSetsWithin(b, f, o, r'.sets, r.sets);
    if r.conds.Some? {
      DigestsWithin(live, live');
      DigestsWithin(live', live);
      AllDoneIff(live);
      AllDoneIff(live');
      SameAggregate(r.subject, live, live', Analyze.Settled(r.conds.value, live));
    }
  }

  lemma GenericStatus(r: Analyze.Resource)
    requires r.Generic?
    ensures |Analyze.AnalyzedAll(r.owned)| == |r.owned|
    ensures Analyze.Analyzed(r) ==
            if !r.hasStatus && |r.owned| == 0 then ObjectStatus(r.subject, Analyze.FINE, [], [])
            else if r.conds.None? then Analyze.UnknownStatus(r.subject)
            else Analyze.Aggregated(r.subject, Analyze.AnalyzedAll(r.owned), r.generation + r.conds.value)
  {
    AnalyzedAllFacts(r.owned);
  }

  lemma SameGeneric(objs: seq<Object>, objs': seq<Object>, r: Analyze.Resource, r': Analyze.Resource)
    requires r.Generic? && r'.Generic? && r' == r.(owned := r'.owned)
    requires |objs| == |r.owned| && |objs'| == |r'.owned| && Elems(objs) == Elems(objs')
    requires forall i, j :: 0 <= i < |objs| && 0 <= j < |objs'| && objs[i] == objs'[j] ==>
               DigestOf(Analyze.Analyzed(r.owned[i])) == DigestOf(Analyze.Analyzed(r'.owned[j]))
    ensures DigestOf(Analyze.Analyzed(r)) == DigestOf(Analyze.Analyzed(r'))
  {
    hide Analyze.Analyzed, Analyze.AnalyzedAll, Analyze.Aggregated, DigestOf;
    AnalyzedAllFacts(r.owned);
    AnalyzedAllFacts(r'.owned);
    GenericStatus(r);
    GenericStatus(r');
    var subs, subs' := Analyze.AnalyzedAll(r.owned), Analyze.AnalyzedAll(r'.owned);
    SameDigests(objs, Digests(subs), objs', Digests(subs'));
    SameDigests(objs', Digests(subs'), objs, Digests(subs));
    assert |objs| == 0 <==> |objs'| == 0 by {
      if |objs| > 0 { assert objs[0] in Elems(objs'); }
      if |objs'| > 0 { assert objs'[0] in Elems(objs); }
    }
    if r.conds.Some? {
      SameAggregate(r.subject, subs, subs', r.generation + r.conds.value);
    }
  }

  /** However the sub-objects were ordered at every level, the object gets the same status, and its tree
      shows the same objects and is as high. */
  lemma {:induction false} OneVerdict(b: Snapshot, f: Facts, o: Object, r: Analyze.Resource, r': Analyze.Resource)
    requires Unfolds(b, f, o, r) && Unfolds(b, f, o, r')
    ensures DigestOf(Analyze.Analyzed(r)) == DigestOf(Analyze.Analyzed(r'))
    decreases r
  {
    hide DigestOf, Analyze.PodStatus, Analyze.ReplicaSetStatus, Analyze.Aggregated, ShowsPods, ShowsSets, IsReplicaSet;
    match HandlerOf(o.kind)
    case ByPod =>
    case ByReplicaSet => SameReplicaSet(b, f, o, r.rs, r'.rs);
    case ByDeployment => SameDeployment(b, f, o, r, r');
    case ByService =>
      SamePods(b, f, o, r.pods, r'.pods);
      SameAggregate(r.subject, Analyze.PodStatuses(r.pods), Analyze.PodStatuses(r'.pods), []);
    case ByGreen =>
    case ByGeneric =>
      var objs :| Enumerates(objs, Children(b, f, o)) && |objs| == |r.owned|
                  && forall i :: 0 <= i < |objs| ==> Unfolds(b, f, objs[i], r.owned[i]);
      var objs' :| Enumerates(objs', Children(b, f, o)) && |objs'| == |r'.owned|
                   && forall i :: 0 <= i < |objs'| ==> Unfolds(b, f, objs'[i], r'.owned[i]);
      forall i, j | 0 <= i < |objs| && 0 <= j < |objs'| && objs[i] == objs'[j]
        ensures DigestOf(Analyze.Analyzed(r.owned[i])) == DigestOf(Analyze.Analyzed(r'.owned[j]))
      {
        OneVerdict(b, f, objs[i], r.owned[i], r'.owned[j]);
      }
      SameGeneric(objs, objs', r, r');
  }

  /** Two evaluations of an object over the same snapshot agree on result and progress and on the objects
      shown, however their evaluators got where they were and in whatever order they met the sub-objects;
      and no parent looks better than its children. */
  lemma SameVerdict(b: Snapshot, f: Facts, o: Object, t: ObjectStatus, t': ObjectStatus)
    requires Reflects(b, f, o, t) && Reflects(b, f, o, t')
    ensures t.st == t'.st && Uids([t]) == Uids([t']) && Height(t) == Height(t') && Analyze.Monotone(t)
  {
    var r :| Unfolds(b, f, o, r) && t == Analyze.Analyzed(r);
    var r' :| Unfolds(b, f, o, r') && t' == Analyze.Analyzed(r');
    OneVerdict(b, f, o, r, r');
    Analyze.AnalyzedMonotone(r);
  }

  // ----- every sub-object is shown -----

  /** Can the analyzer of the object judge it, so that it reports its sub-objects? */
  predicate Readable(f: Facts, o: Object) {
    match HandlerOf(o.kind)
    case ByReplicaSet => f.conds(o).Some? && f.counts(o).Some?
    case ByDeployment => f.conds(o).Some?
    case ByGeneric => f.conds(o).Some?
    case _ => true
  }

  ghost predicate ShownAmong(b: Snapshot, f: Facts, c: Object, subs: seq<ObjectStatus>) {
    exists s :: s in subs && s.subject == Subject(c.uid, c.ns, c.kind.kind, c.name) && Reflects(b, f, c, s)
  }

  lemma SubjectShown(b: Snapshot, f: Facts, o: Object, t: ObjectStatus)
    requires Reflects(b, f, o, t)
    ensures t.subject == Subject(o.uid, o.ns, o.kind.kind, o.name)
  {
    hide Analyze.LiveSets, Analyze.Settled, Analyze.JoinAll, Analyze.PodSynthetic, Analyze.ContainerStatuses;
    hide Analyze.ReplicaSynthetic, Analyze.PodStatuses, Analyze.AnalyzedAll, Analyze.Completed, Children;
    var r :| Unfolds(b, f, o, r) && t == Analyze.Analyzed(r);
  }

  lemma PodReflected(b: Snapshot, f: Facts, o: Object)
    requires HandlerOf(o.kind).ByPod?
    ensures Reflects(b, f, o, Analyze.PodStatus(PodOf(f, o)))
  {
    hide Analyze.PodStatus, PodOf;
    var r := Analyze.PodResource(PodOf(f, o));
    assert Unfolds(b, f, o, r) && Analyze.Analyzed(r) == Analyze.PodStatus(PodOf(f, o));
  }

  lemma PodsShown(b: Snapshot, f: Facts, o: Object, pods: seq<Analyze.Pod>, c: Object)
    requires ShowsPods(b, f, o, pods) && c in Children(b, f, o) && HandlerOf(c.kind).ByPod?
    ensures ShownAmong(b, f, c, Analyze.PodStatuses(pods))
  {
    var objs: seq<Object> :| Enumerates(objs, Children(b, f, o)) && pods == Pods(f, objs);
    assert c in Elems(objs);
    var k :| 0 <= k < |objs| && objs[k] == c;
    PodReflected(b, f, c);
    assert Analyze.PodStatuses(pods)[k] == Analyze.PodStatus(PodOf(f, c));
    SubjectShown(b, f, c, Analyze.PodStatuses(pods)[k]);
  }

  lemma SetsShown(b: Snapshot, f: Facts, o: Object, sets: seq<Analyze.ReplicaSet>, c: Object)
    requires ShowsSets(b, f, o, sets) && c in Children(b, f, o) && HandlerOf(c.kind).ByReplicaSet?
    requires f.replicas(c) != Some(0)
    ensures ShownAmong(b, f, c, Analyze.LiveSets(sets))
  {
    hide Analyze.LiveSets, Analyze.ReplicaSetStatus, Children;
    var objs: seq<Object> :| Enumerates(objs, Children(b, f, o)) && AreReplicaSets(b, f, objs, sets);
    assert c in Elems(objs);
    var k :| 0 <= k < |objs| && objs[k] == c;
    var r := Analyze.ReplicaSetResource(sets[k]);
    assert Unfolds(b, f, c, r) && Analyze.Analyzed(r) == Analyze.ReplicaSetStatus(sets[k]);
    LiveSetsMembers(sets, Analyze.ReplicaSetStatus(sets[k]));
    SubjectShown(b, f, c, Analyze.ReplicaSetStatus(sets[k]));
  }

  lemma OwnedShown(b: Snapshot, f: Facts, o: Object, r: Analyze.Resource, c: Object)
    requires HandlerOf(o.kind).ByGeneric? && Unfolds(b, f, o, r) && c in Children(b, f, o)
    ensures ShownAmong(b, f, c, Analyze.AnalyzedAll(r.owned))
  {
    hide Analyze.Analyzed, Analyze.AnalyzedAll, Children;
    var objs :| Enumerates(objs, Children(b, f, o)) && |objs| == |r.owned|
                && forall i :: 0 <= i < |objs| ==> Unfolds(b, f, objs[i], r.owned[i]);
    assert c in Elems(objs);
    var k :| 0 <= k < |objs| && objs[k] == c;
    AnalyzedAllFacts(r.owned);
    assert Reflects(b, f, c, Analyze.AnalyzedAll(r.owned)[k]);
    SubjectShown(b, f, c, Analyze.AnalyzedAll(r.owned)[k]);
  }

  /** A readable object shows every one of its sub-objects, with the snapshot's tree below it, but for the
      replica sets of a deployment that are scaled down to zero; and is at least as bad as each. */
  lemma EveryChildShown(b: Snapshot, f: Facts, o: Object, t: ObjectStatus, c: Object)
    requires Reflects(b, f, o, t) && Readable(f, o) && c in Children(b, f, o)
    requires HandlerOf(o.kind).ByDeployment? ==> f.replicas(c) != Some(0)
    ensures ShownAmong(b, f, c, t.subs)
    ensures forall s :: Reflects(b, f, c, s) ==> AtMost(s.st, t.st)
  {
    var r :| Unfolds(b, f, o, r) && t == Analyze.Analyzed(r);
    match HandlerOf(o.kind) {
      case ByPod =>
      case ByGreen =>
      case ByReplicaSet => OneKindMeans(GK_POD, c.kind); PodsShown(b, f, o, r.rs.pods, c);
      case ByService => OneKindMeans(GK_POD, c.kind); PodsShown(b, f, o, r.pods, c);
      case ByDeployment => OneKindMeans(GK_REPLICA_SET, c.kind); SetsShown(b, f, o, r.sets, c);
      case ByGeneric => OwnedShown(b, f, o, r, c); GenericSubs(b, f, o, r, c);
    }
    AtLeastAsBad(b, f, o, t, c);
  }

  lemma GenericSubs(b: Snapshot, f: Facts, o: Object, r: Analyze.Resource, c: Object)
    requires HandlerOf(o.kind).ByGeneric? && r.Generic? && r.conds.Some?
    requires ShownAmong(b, f, c, Analyze.AnalyzedAll(r.owned))
    ensures Analyze.Analyzed(r).subs == Analyze.AnalyzedAll(r.owned)
  {
    GenericStatus(r);
  }

  lemma AtLeastAsBad(b: Snapshot, f: Facts, o: Object, t: ObjectStatus, c: Object)
    requires Reflects(b, f, o, t) && ShownAmong(b, f, c, t.subs)
    ensures forall s :: Reflects(b, f, c, s) ==> AtMost(s.st, t.st)
  {
    hide Reflects;
    SameVerdict(b, f, o, t, t);
    var shown :| shown in t.subs && Reflects(b, f, c, shown);
    forall s | Reflects(b, f, c, s) ensures s.st == shown.st {
      SameVerdict(b, f, c, s, shown);
    }
  }

  /** So a replica set or service shows, and is an Error with, every broken pod that its selector matches. */
  lemma BrokenPodShows(b: Snapshot, f: Facts, o: Object, t: ObjectStatus, pod: Object)
    requires Reflects(b, f, o, t) && Readable(f, o) && o.ns != "*all*"
    requires o.kind == GroupKind("apps", "ReplicaSet") || o.kind == GroupKind("", "Service")
    requires pod in b.objects && pod.ns == o.ns && pod.kind == GroupKind("", "Pod") && SelectedBy(f, o, pod)
    requires Analyze.PodStatus(PodOf(f, pod)).st.result == Error
    ensures t.st.result == Error
  {
    SelectedPods(b, f, o, pod);
    EveryChildShown(b, f, o, t, pod);
    PodReflected(b, f, pod);
    hide Reflects, Children, Analyze.PodStatus;
  }

  /** What a pod is judged by: its own conditions and fields. */
  lemma PodTree(b: Snapshot, f: Facts, o: Object, t: ObjectStatus)
    requires o.kind == GroupKind("", "Pod")
    ensures Reflects(b, f, o, t) <==>
            t == Analyze.PodStatus(Analyze.Pod(Subject(o.uid, o.ns, "Pod", o.name), f.conds(o), f.pod(o)))
  {
    var r := Analyze.PodResource(PodOf(f, o));
    assert Unfolds(b, f, o, r) && Analyze.Analyzed(r) == Analyze.PodStatus(PodOf(f, o));
  }

  /** Which analyzer a kind has. */
  lemma HandlersMean(gk: GroupKind)
    ensures HandlerOf(gk).ByPod? <==> gk == GroupKind("", "Pod")
    ensures HandlerOf(gk).ByReplicaSet? <==> gk == GroupKind("apps", "ReplicaSet")
    ensures HandlerOf(gk).ByDeployment? <==> gk == GroupKind("apps", "Deployment")
    ensures HandlerOf(gk).ByService? <==> gk == GroupKind("", "Service")
    ensures HandlerOf(gk).ByGreen? <==> gk == GroupKind("", "Namespace")
  {
  }

  /** What a readable object is judged by, beside its sub-objects. */
  lemma ConditionsShown(b: Snapshot, f: Facts, o: Object, t: ObjectStatus)
    requires Reflects(b, f, o, t) && Readable(f, o)
    ensures match HandlerOf(o.kind)
            case ByPod => true
            case ByReplicaSet =>
              t.conditions == f.conds(o).value + Analyze.ReplicaSynthetic(f.replicas(o), f.counts(o).value)
            case ByDeployment => t.conditions == Analyze.Settled(f.conds(o).value, t.subs)
            case ByService => t.conditions == []
            case ByGreen => t.st == Status(Ok, false) && t.subs == []
            case ByGeneric =>
              if !f.hasStatus(o) && t.subs == [] then t.st == Status(Ok, false)
              else t.conditions == f.generation(o) + f.conds(o).value
  {
    hide HandlerOf, ShowsPods, ShowsSets, Analyze.LiveSets, Analyze.AnalyzedAll, Analyze.JoinAll, Analyze.Settled;
    hide Children, Analyze.ReplicaSynthetic, Analyze.PodStatus;
    var r :| Unfolds(b, f, o, r) && t == Analyze.Analyzed(r);
    if HandlerOf(o.kind).ByGeneric? {
      GenericStatus(r);
    }
  }

  // ----- the verdict as one join -----

  /** What an object that the generic analyzer handles adds to the verdict itself. */
  function Contribution(r: Analyze.Resource): Status
    requires r.Generic?
  {
    if !r.hasStatus && r.owned == [] then Analyze.FINE
    else if r.conds.None? then Analyze.NOTHING
    else Analyze.JoinAll(Analyze.CondStatuses(r.generation + r.conds.value))
  }

  /** The contributions of an object and of everything below it; an object whose conditions cannot be
      read is reported without its sub-objects, and the other analyzers contribute their verdict. */
  ghost function Contributions(r: Analyze.Resource): set<Status>
    decreases r
  {
    if !r.Generic? then {Analyze.Analyzed(r).st}
    else
      {Contribution(r)}
      + if r.conds.None? then {}
        else set i, s | 0 <= i < |r.owned| && s in Contributions(r.owned[i]) :: s
  }

  /** However deep the owner references go, the status is the join of all contributions. */
  lemma {:induction false} VerdictIsJoin(r: Analyze.Resource)
    ensures Analyze.IsJoin(Contributions(r), Analyze.Analyzed(r).st)
    decreases r
  {
    if !r.Generic? {
    } else {
      AnalyzedAllFacts(r.owned);
      if (!r.hasStatus && r.owned == []) || r.conds.None? {
        assert Contributions(r) == {Contribution(r)};
      } else {
        forall i | 0 <= i < |r.owned|
          ensures Analyze.IsJoin(Contributions(r.owned[i]), Analyze.Analyzed(r.owned[i]).st)
        {
          VerdictIsJoin(r.owned[i]);
        }
        GenericIsJoin(r);
      }
    }
  }

  lemma ContributionsBelow(r: Analyze.Resource, s: Status)
    requires r.Generic? && r.conds.Some? && !(!r.hasStatus && r.owned == [])
    ensures s in Contributions(r) <==>
            || s == Analyze.JoinAll(Analyze.CondStatuses(r.generation + r.conds.value))
            || exists i :: 0 <= i < |r.owned| && s in Contributions(r.owned[i])
  {
    hide Analyze.JoinAll, Analyze.CondStatuses;
  }

  lemma GenericIsJoin(r: Analyze.Resource)
    requires r.Generic? && r.conds.Some? && !(!r.hasStatus && r.owned == [])
    requires forall i :: 0 <= i < |r.owned| ==>
               Analyze.IsJoin(Contributions(r.owned[i]), Analyze.Analyzed(r.owned[i]).st)
    ensures Analyze.IsJoin(Contributions(r), Analyze.Analyzed(r).st)
  {
    hide Analyze.Analyzed, Analyze.AnalyzedAll, Contributions, Analyze.IsJoin, Analyze.JoinAll;
    var conds := Analyze.CondStatuses(r.generation + r.conds.value);
    var parts := seq(|r.owned|, i requires 0 <= i < |r.owned| => Contributions(r.owned[i]));
    var all := Contributions(r);
    forall s ensures s in all <==> s == Analyze.JoinAll(conds) || exists i :: 0 <= i < |parts| && s in parts[i] {
      ContributionsBelow(r, s);
      assert forall i :: 0 <= i < |parts| ==> (s in parts[i] <==> s in Contributions(r.owned[i]));
    }
    AnalyzedAllFacts(r.owned);
    GenericStatus(r);
    var joins := Analyze.SubStatuses(Analyze.AnalyzedAll(r.owned));
    JoinOfJoins(conds, parts, joins, all);
  }

  /** A join of joins is the join of everything joined. */
  lemma JoinOfJoins(conds: seq<Status>, parts: seq<set<Status>>, joins: seq<Status>, all: set<Status>)
    requires |parts| == |joins|
    requires forall k :: 0 <= k < |parts| ==> Analyze.IsJoin(parts[k], joins[k]) && parts[k] <= all
    requires Analyze.JoinAll(conds) in all
    requires forall s :: s in all ==> s == Analyze.JoinAll(conds) || exists k :: 0 <= k < |parts| && s in parts[k]
    ensures Analyze.IsJoin(all, Analyze.JoinAll(conds + joins))
  {
    hide Analyze.JoinAll;
    var sts := conds + joins;
    var j := Analyze.JoinAll(sts);
    Analyze.JoinAllIsJoin(sts);
    Analyze.JoinAllIsJoin(conds);
    assert forall s :: s in conds ==> s in sts;
    Analyze.JoinIsLeast(Elems(conds), Analyze.JoinAll(conds), j);
    forall s | s in all ensures AtMost(s, j) {
      if s != Analyze.JoinAll(conds) {
        var k :| 0 <= k < |parts| && s in parts[k];
        assert sts[|conds| + k] == joins[k] && joins[k] in Elems(sts);
        assert AtMost(s, joins[k]) && AtMost(joins[k], j);
      }
    }
    forall s | s in sts
      ensures s.result == Unknown || exists x :: x in all && Rank(x.result) >= Rank(s.result)
      ensures s.progressing ==> exists x :: x in all && x.progressing
    {
      if s in conds {
        assert s in Elems(conds) && AtMost(s, Analyze.JoinAll(conds));
      } else {
        var k :| 0 <= k < |joins| && joins[k] == s;
        assert Analyze.IsJoin(parts[k], s) && parts[k] <= all;
      }
    }
    Attained(all, sts, j);
  }

  lemma Attained(all: set<Status>, sts: seq<Status>, j: Status)
    requires Analyze.IsJoin(Elems(sts), j)
    requires forall s :: s in all ==> AtMost(s, j)
    requires forall s :: s in sts ==> s.result == Unknown || exists x :: x in all && Rank(x.result) >= Rank(s.result)
    requires forall s :: s in sts ==> (s.progressing ==> exists x :: x in all && x.progressing)
    ensures Analyze.IsJoin(all, j)
  {
    if j.result != Unknown {
      var s :| s in Elems(sts) && s.result == j.result;
      var x :| x in all && Rank(x.result) >= Rank(s.result);
      assert AtMost(x, j);
    }
    if j.progressing {
      var s :| s in Elems(sts) && s.progressing;
    }
  }
}
