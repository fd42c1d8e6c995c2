/**
 The analyzers: from conditions and sub-objects to the status of an object. What the queries of an
 analyzer return is unfolded into a resource tree, so that whole status trees can be spoken about.
 */
module Analyze {
  import opened Base
  import opened Status

  // ----- aggregation -----

  const NOTHING := Status(Unknown, false)
  const FINE := Status(Ok, false)
  const BROKEN := Status(Error, false)

  function Join(a: Status, b: Status): Status {
    Status(Worse(a.result, b.result), a.progressing || b.progressing)
  }

  function JoinAll(sts: seq<Status>): Status {
    if sts == [] then NOTHING else Join(JoinAll(sts[..|sts| - 1]), sts[|sts| - 1])
  }

  function CondStatuses(conds: seq<Condition>): seq<Status> {
    seq(|conds|, i requires 0 <= i < |conds| => conds[i].st)
  }

  function SubStatuses(subs: seq<ObjectStatus>): seq<Status> {
    seq(|subs|, i requires 0 <= i < |subs| => subs[i].st)
  }

  function Aggregated(subject: Subject, subs: seq<ObjectStatus>, conds: seq<Condition>): ObjectStatus {
    ObjectStatus(subject, JoinAll(CondStatuses(conds) + SubStatuses(subs)), subs, conds)
  }

  /** The least status that is at least each of the given ones; Unknown is the least result. */
  ghost predicate IsJoin(sts: set<Status>, j: Status) {
    && (forall s :: s in sts ==> AtMost(s, j))
    && (j.result == Unknown || exists s :: s in sts && s.result == j.result)
    && (j.progressing ==> exists s :: s in sts && s.progressing)
  }

  lemma JoinIsLeast(sts: set<Status>, j: Status, k: Status)
    requires IsJoin(sts, j) && forall s :: s in sts ==> AtMost(s, k)
    ensures AtMost(j, k)
  {
  }

  /** There is only one, so no order of the inputs can matter. */
  lemma JoinUnique(sts: set<Status>, j: Status, k: Status)
    requires IsJoin(sts, j) && IsJoin(sts, k)
    ensures j == k
  {
    JoinIsLeast(sts, j, k);
    JoinIsLeast(sts, k, j);
  }

  lemma {:induction false} JoinAllIsJoin(sts: seq<Status>)
    ensures IsJoin(Elems(sts), JoinAll(sts))
  {
    if sts == [] {
    } else {
      var init, last := sts[..|sts| - 1], sts[|sts| - 1];
      JoinAllIsJoin(init);
      assert sts == init + [last];
      assert Elems(sts) == Elems(init) + {last};
      assert last in Elems(sts);
    }
  }

  /** AggregateResult over any order of conditions and sub-objects gives the same status. */
  lemma AggregateOrderIndependent(sts: seq<Status>, sts': seq<Status>)
    requires Elems(sts) == Elems(sts')
    ensures JoinAll(sts) == JoinAll(sts')
  {
    JoinAllIsJoin(sts);
    JoinAllIsJoin(sts');
    JoinUnique(Elems(sts), JoinAll(sts), JoinAll(sts'));
  }

  lemma JoinNothing()
    ensures JoinAll([]) == NOTHING
  {
  }

  lemma JoinAllSnoc(sts: seq<Status>, i: nat)
    requires i < |sts|
    ensures JoinAll(sts[..i + 1]) == Join(JoinAll(sts[..i]), sts[i])
  {
    assert sts[..i + 1][..i] == sts[..i];
  }

  method AggregateResult(subject: Subject, subs: seq<ObjectStatus>, conds: seq<Condition>) returns (r: ObjectStatus)
    ensures r == Aggregated(subject, subs, conds)
  {
    hide JoinAll;
    var res, progressing := Unknown, false;
    JoinNothing();
    var all := CondStatuses(conds) + SubStatuses(subs);
    for i := 0 to |conds|
      invariant Status(res, progressing) == JoinAll(all[..i])
    {
      var st := conds[i].st;
      JoinAllSnoc(all, i);
      if Rank(st.result) > Rank(res) {
        res := st.result;
      }
      if st.progressing {
        progressing := true;
      }
    }
    for i := 0 to |subs|
      invariant Status(res, progressing) == JoinAll(all[..|conds| + i])
    {
      var st := subs[i].st;
      JoinAllSnoc(all, |conds| + i);
      if Rank(st.result) > Rank(res) {
        res := st.result;
      }
      if st.progressing {
        progressing := true;
      }
    }
    assert all[..|conds| + |subs|] == all;
    return ObjectStatus(subject, Status(res, progressing), subs, conds);
  }

  // ----- containers -----

  datatype Container = Container(
    name: string,
    waiting: bool,
    stalled: bool,            // last terminated longer ago than the progressing timeout
    running: bool,
    ready: bool,
    exitCode: Option<int>     // terminated, with this exit code
  )

  predicate ExitedFine(c: Container) {
    c.exitCode == Some(0)
  }

  /** The condition a container is reported by, if any: the last matching rule wins, so a termination
      outranks unreadiness, which outranks running, which outranks waiting. */
  function ContainerCondition(c: Container): Option<Condition> {
    if c.exitCode.Some? then Some(Condition("Terminated", if ExitedFine(c) then FINE else BROKEN))
    else if !c.ready then Some(Condition("Ready", BROKEN))
    else if c.running then Some(Condition("Running", FINE))
    else if c.waiting then Some(Condition("Waiting", Status(Error, !c.stalled)))
    else None
  }

  function ContainerSubject(c: Container): Subject {
    Subject("", "", "Container", c.name)
  }

  method AnalyzeContainer(c: Container) returns (r: Option<ObjectStatus>)
    ensures r == match ContainerCondition(c)
                 case None => None
                 case Some(cond) => Some(Aggregated(ContainerSubject(c), [], [cond]))
  {
    var cond: Option<Condition> := None;
    if c.waiting {
      var progressing := true;
      if c.stalled {
        progressing := false;
      }
      cond := Some(Condition("Waiting", Status(Error, progressing)));
    }
    if c.running {
      cond := Some(Condition("Running", FINE));
    }
    if !c.ready {
      cond := Some(Condition("Ready", BROKEN));
    }
    if c.exitCode.Some? {
      if c.exitCode.value == 0 {
        cond := Some(Condition("Terminated", FINE));
      } else {
        cond := Some(Condition("Terminated", BROKEN));
      }
    }
    if cond.None? {
      return None;
    }
    var st := AggregateResult(ContainerSubject(c), [], [cond.value]);
    return Some(st);
  }

  /** A container shows as progressing only while it waits, recently restarted, and yet counts as
      ready: the unreadiness rule otherwise overwrites the waiting one, and its progress with it. */
  lemma ContainerProgressingIff(c: Container)
    ensures ContainerCondition(c).Some? && ContainerCondition(c).value.st.progressing <==>
            c.waiting && !c.stalled && c.ready && !c.running && c.exitCode.None?
  {
  }

  function ContainerStatuses(cs: seq<Container>): seq<ObjectStatus> {
    if cs == [] then []
    else
      var last := cs[|cs| - 1];
      ContainerStatuses(cs[..|cs| - 1])
      + match ContainerCondition(last)
        case None => []
        case Some(cond) => [Aggregated(ContainerSubject(last), [], [cond])]
  }

  method AnalyzePodContainers(cs: seq<Container>) returns (ret: seq<ObjectStatus>)
    ensures ret == ContainerStatuses(cs)
  {
    ret := [];
    for i := 0 to |cs|
      invariant ret == ContainerStatuses(cs[..i])
    {
      assert cs[..i + 1][..i] == cs[..i];
      var st := AnalyzeContainer(cs[i]);
      if st.Some? {
        ret := ret + [st.value];
      }
    }
    assert cs[..|cs|] == cs;
  }

  // ----- pods -----

  datatype Phase = Succeeded | Failed | OtherPhase

  datatype PodInfo = PodInfo(phase: Phase, containers: seq<Container>)

  // A pod whose conditions or fields cannot be read has None there.
  datatype Pod = Pod(subject: Subject, conds: Option<seq<Condition>>, info: Option<PodInfo>)

  predicate AllExitedFine(cs: seq<Container>) {
    forall i :: 0 <= i < |cs| ==> ExitedFine(cs[i])
  }

  predicate SomeExitedBadly(cs: seq<Container>) {
    exists i :: 0 <= i < |cs| && cs[i].exitCode.Some? && !ExitedFine(cs[i])
  }

  function PodSynthetic(p: PodInfo): seq<Condition> {
    match p.phase
    case Succeeded => [Condition("Succeeded", if SomeExitedBadly(p.containers) then BROKEN else FINE)]
    case Failed =>
      if AllExitedFine(p.containers) && p.containers != [] then [Condition("Completed", FINE)]
      else [Condition("Failed", BROKEN)]
    case OtherPhase => []
  }

  method PodSyntheticConditions(p: PodInfo) returns (conds: seq<Condition>)
    ensures conds == PodSynthetic(p)
  {
    conds := [];
    match p.phase
    case Succeeded =>
      var allSuccess := true;
      for i := 0 to |p.containers|
        invariant allSuccess && !SomeExitedBadly(p.containers[..i])
      {
        assert p.containers[..i + 1] == p.containers[..i] + [p.containers[i]];
        if p.containers[i].exitCode.Some? && p.containers[i].exitCode.value != 0 {
          allSuccess := false;
          break;
        }
      }
      assert p.containers[..|p.containers|] == p.containers;
      if allSuccess {
        conds := conds + [Condition("Succeeded", FINE)];
      } else {
        conds := conds + [Condition("Succeeded", BROKEN)];
      }
    case Failed =>
      var allSuccess := CheckAllExitedFine(p.containers);
      if allSuccess && |p.containers| > 0 {
        conds := conds + [Condition("Completed", FINE)];
      } else {
        conds := conds + [Condition("Failed", BROKEN)];
      }
    case OtherPhase =>
  }

  method CheckAllExitedFine(cs: seq<Container>) returns (allSuccess: bool)
    ensures allSuccess == AllExitedFine(cs)
  {
    allSuccess := true;
    for i := 0 to |cs|
      invariant allSuccess && AllExitedFine(cs[..i])
    {
      assert cs[..i + 1] == cs[..i] + [cs[i]];
      if cs[i].exitCode.None? || cs[i].exitCode.value != 0 {
        allSuccess := false;
        break;
      }
    }
    assert cs[..|cs|] == cs;
  }

  function UnknownStatus(subject: Subject): ObjectStatus {
    ObjectStatus(subject, NOTHING, [], [])
  }

  predicate Completed(p: PodInfo) {
    p.phase != OtherPhase && p.containers != [] && AllExitedFine(p.containers)
  }

  /** The status of a pod: aggregated, except that a completed pod's result is Ok. */
  function PodStatus(p: Pod): ObjectStatus {
    if p.conds.None? || p.info.None? then UnknownStatus(p.subject)
    else
      var conds := p.conds.value + PodSynthetic(p.info.value);
      var r := Aggregated(p.subject, ContainerStatuses(p.info.value.containers), conds);
      if Completed(p.info.value) then r.(st := Status(Ok, r.st.progressing)) else r
  }

  method AnalyzePod(p: Pod) returns (result: ObjectStatus)
    ensures result == PodStatus(p)
  {
    if p.conds.None? {
      return UnknownStatus(p.subject);
    }
    if p.info.None? {
      return UnknownStatus(p.subject);
    }
    var synthetic := PodSyntheticConditions(p.info.value);
    var containers := AnalyzePodContainers(p.info.value.containers);
    result := AggregateResult(p.subject, containers, p.conds.value + synthetic);
    if p.info.value.phase == Succeeded || p.info.value.phase == Failed {
      var hasContainers := |p.info.value.containers| > 0;
      var allSuccess := CheckAllExitedFine(p.info.value.containers);
      if allSuccess && hasContainers {
        result := result.(st := Status(Ok, result.st.progressing));
      }
    }
  }

  lemma StatusIn(sts: seq<Status>, s: Status)
    requires s in sts
    ensures AtMost(s, JoinAll(sts))
  {
    JoinAllIsJoin(sts);
    assert s in Elems(sts);
  }

  /** A readable pod in phase Failed is Ok exactly if it has containers and all of them exited with
      code zero, and otherwise Error, whatever conditions it reports. */
  lemma FailedPodDecided(p: Pod)
    requires p.conds.Some? && p.info.Some? && p.info.value.phase == Failed
    ensures PodStatus(p).st.result ==
            if p.info.value.containers != [] && AllExitedFine(p.info.value.containers) then Ok else Error
  {
    if !Completed(p.info.value) {
      var conds := p.conds.value + PodSynthetic(p.info.value);
      var sts := CondStatuses(conds) + SubStatuses(ContainerStatuses(p.info.value.containers));
      assert sts[|p.conds.value|] == BROKEN;
      StatusIn(sts, BROKEN);
    }
  }

  /** A readable pod in phase Succeeded with a container that exited badly is an Error all the same. */
  lemma SucceededPodWithFailure(p: Pod)
    requires p.conds.Some? && p.info.Some? && p.info.value.phase == Succeeded
    requires SomeExitedBadly(p.info.value.containers)
    ensures PodStatus(p).st.result == Error
  {
    var conds := p.conds.value + PodSynthetic(p.info.value);
    var sts := CondStatuses(conds) + SubStatuses(ContainerStatuses(p.info.value.containers));
    assert sts[|p.conds.value|] == BROKEN;
    StatusIn(sts, BROKEN);
    var cs := p.info.value.containers;
    var i :| 0 <= i < |cs| && cs[i].exitCode.Some? && !ExitedFine(cs[i]);
    assert !AllExitedFine(cs);
  }

  // ----- replica sets, deployments, services, everything else -----

  datatype ReplicaCounts = ReplicaCounts(labeled: int, available: int, ready: int, current: int)

  datatype ReplicaSet = ReplicaSet(
    subject: Subject,
    pods: seq<Pod>,
    conds: Option<seq<Condition>>,
    specReplicas: Option<int>,
    counts: Option<ReplicaCounts>
  )

  function ReplicaSynthetic(spec: Option<int>, c: ReplicaCounts): seq<Condition> {
    var replicas := if spec.Some? then spec.value else 1;
    (if replicas > c.labeled then [Condition("ReplicasLabeled", BROKEN)] else [])
    + (if replicas > c.available then [Condition("ReplicasAvailable", BROKEN)] else [])
    + (if replicas > c.ready then [Condition("ReplicasReady", BROKEN)]
       else if replicas == c.ready then [Condition("ReplicasReady", FINE)] else [])
    + (if c.current > replicas then [Condition("TerminatedReplicas", BROKEN)] else [])
  }

  function PodStatuses(pods: seq<Pod>): seq<ObjectStatus> {
    seq(|pods|, i requires 0 <= i < |pods| => PodStatus(pods[i]))
  }

  function ReplicaSetStatus(rs: ReplicaSet): ObjectStatus {
    if rs.conds.None? || rs.counts.None? then UnknownStatus(rs.subject)
    else
      var conds := rs.conds.value + ReplicaSynthetic(rs.specReplicas, rs.counts.value);
      Aggregated(rs.subject, PodStatuses(rs.pods), conds)
  }

  /** ReplicaSets scaled down to nothing are dropped. */
  function LiveSets(sets: seq<ReplicaSet>): seq<ObjectStatus> {
    if sets == [] then []
    else
      var last := sets[|sets| - 1];
      LiveSets(sets[..|sets| - 1]) + if last.specReplicas == Some(0) then [] else [ReplicaSetStatus(last)]
  }

  predicate AllDone(subs: seq<ObjectStatus>) {
    |subs| > 0 && forall i :: 0 <= i < |subs| ==> subs[i].st == FINE
  }

  function FirstOfType(conds: seq<Condition>, t: string): (i: nat)
    ensures i <= |conds|
    ensures i < |conds| ==> conds[i].condType == t
    ensures forall k :: 0 <= k < i ==> conds[k].condType != t
  {
    if conds == [] || conds[0].condType == t then 0 else FirstOfType(conds[1..], t) + 1
  }

  /** The conditions of a deployment once its replica sets are known to be settled. */
  function Settled(conds: seq<Condition>, subs: seq<ObjectStatus>): seq<Condition> {
    var i := FirstOfType(conds, "Progressing");
    if i < |conds| && AllDone(subs) then conds[i := Condition(conds[i].condType, FINE)] else conds
  }

  datatype Resource =
    | PodResource(pod: Pod)
    | ReplicaSetResource(rs: ReplicaSet)
    | Deployment(subject: Subject, sets: seq<ReplicaSet>, conds: Option<seq<Condition>>)
    | Service(subject: Subject, pods: seq<Pod>)
    | Generic(subject: Subject, hasStatus: bool, owned: seq<Resource>, generation: seq<Condition>,
              conds: Option<seq<Condition>>)
    | AlwaysGreen(subject: Subject)

  function Analyzed(r: Resource): ObjectStatus
    decreases r
  {
    match r
    case PodResource(p) => PodStatus(p)
    case ReplicaSetResource(rs) => ReplicaSetStatus(rs)
    case Deployment(subject, sets, conds) =>
      if conds.None? then UnknownStatus(subject)
      else Aggregated(subject, LiveSets(sets), Settled(conds.value, LiveSets(sets)))
    case Service(subject, pods) => Aggregated(subject, PodStatuses(pods), [])
    case Generic(subject, hasStatus, owned, generation, conds) =>
      var subs := AnalyzedAll(owned);
      if !hasStatus && subs == [] then ObjectStatus(subject, FINE, subs, [])
      else if conds.None? then UnknownStatus(subject)
      else Aggregated(subject, subs, generation + conds.value)
    case AlwaysGreen(subject) => ObjectStatus(subject, FINE, [], [])
  }

  function AnalyzedAll(rs: seq<Resource>): seq<ObjectStatus>
    decreases rs
  {
    if rs == [] then [] else AnalyzedAll(rs[..|rs| - 1]) + [Analyzed(rs[|rs| - 1])]
  }

  // ----- no parent looks better than its children -----

  predicate Monotone(t: ObjectStatus)
    decreases t
  {
    forall i :: 0 <= i < |t.subs| ==> AtMost(t.subs[i].st, t.st) && Monotone(t.subs[i])
  }

  lemma AggregatedMonotone(subject: Subject, subs: seq<ObjectStatus>, conds: seq<Condition>)
    requires forall i :: 0 <= i < |subs| ==> Monotone(subs[i])
    ensures Monotone(Aggregated(subject, subs, conds))
  {
    var sts := CondStatuses(conds) + SubStatuses(subs);
    forall i | 0 <= i < |subs| ensures AtMost(subs[i].st, JoinAll(sts)) {
      assert sts[|conds| + i] == subs[i].st;
      StatusIn(sts, subs[i].st);
    }
  }

  lemma {:induction false} ContainersFacts(cs: seq<Container>)
    ensures forall i :: 0 <= i < |ContainerStatuses(cs)| ==> Monotone(ContainerStatuses(cs)[i])
    ensures AllExitedFine(cs) ==> forall i :: 0 <= i < |ContainerStatuses(cs)| ==> ContainerStatuses(cs)[i].st == FINE
  {
    if cs == [] {
    } else {
      var init, last := cs[..|cs| - 1], cs[|cs| - 1];
      ContainersFacts(init);
      match ContainerCondition(last)
      case None =>
      case Some(cond) =>
        OneCondition(ContainerSubject(last), cond);
    }
  }

  lemma OneCondition(subject: Subject, cond: Condition)
    ensures Aggregated(subject, [], [cond]).st == cond.st && Monotone(Aggregated(subject, [], [cond]))
  {
    var sts := CondStatuses([cond]) + SubStatuses([]);
    assert sts == [cond.st] && sts[..0] == [];
    assert JoinAll([]) == NOTHING;
  }

  /** The override for completed pods included. */
  lemma PodMonotone(p: Pod)
    ensures Monotone(PodStatus(p))
  {
    if p.conds.Some? && p.info.Some? {
      ContainersFacts(p.info.value.containers);
      AggregatedMonotone(p.subject, ContainerStatuses(p.info.value.containers),
                         p.conds.value + PodSynthetic(p.info.value));
    }
  }

  lemma ReplicaSetMonotone(rs: ReplicaSet)
    ensures Monotone(ReplicaSetStatus(rs))
  {
    if rs.conds.Some? && rs.counts.Some? {
      forall i | 0 <= i < |rs.pods| ensures Monotone(PodStatus(rs.pods[i])) {
        PodMonotone(rs.pods[i]);
      }
      AggregatedMonotone(rs.subject, PodStatuses(rs.pods),
                         rs.conds.value + ReplicaSynthetic(rs.specReplicas, rs.counts.value));
    }
  }

  lemma {:induction false} LiveSetsMonotone(sets: seq<ReplicaSet>)
    ensures forall i :: 0 <= i < |LiveSets(sets)| ==> Monotone(LiveSets(sets)[i])
  {
    if sets == [] {
    } else {
      LiveSetsMonotone(sets[..|sets| - 1]);
      ReplicaSetMonotone(sets[|sets| - 1]);
    }
  }

  /** In every tree any of the analyzers builds, a parent's result is at least its children's, and it
      is progressing if a child is. */
  lemma {:induction false} AnalyzedMonotone(r: Resource)
    ensures Monotone(Analyzed(r))
    decreases r
  {
    match r
    case PodResource(p) => PodMonotone(p);
    case ReplicaSetResource(rs) => ReplicaSetMonotone(rs);
    case Deployment(subject, sets, conds) =>
      LiveSetsMonotone(sets);
      if conds.Some? {
        AggregatedMonotone(subject, LiveSets(sets), Settled(conds.value, LiveSets(sets)));
      }
    case Service(subject, pods) =>
      forall i | 0 <= i < |pods| ensures Monotone(PodStatus(pods[i])) {
        PodMonotone(pods[i]);
      }
      AggregatedMonotone(subject, PodStatuses(pods), []);
    case Generic(subject, hasStatus, owned, generation, conds) =>
      AnalyzedAllMonotone(owned);
      if conds.Some? {
        AggregatedMonotone(subject, AnalyzedAll(owned), generation + conds.value);
      }
    case AlwaysGreen(_) =>
  }

  lemma {:induction false} AnalyzedAllMonotone(rs: seq<Resource>)
    ensures forall i :: 0 <= i < |AnalyzedAll(rs)| ==> Monotone(AnalyzedAll(rs)[i])
    decreases rs
  {
    if rs == [] {
    } else {
      AnalyzedAllMonotone(rs[..|rs| - 1]);
      AnalyzedMonotone(rs[|rs| - 1]);
    }
  }

  // ----- the verdicts, in the fields of what is judged -----

  ghost predicate SomeResult(sts: seq<Status>, r: Result) {
    exists i :: 0 <= i < |sts| && sts[i].result == r
  }

  ghost predicate SomeProgress(sts: seq<Status>) {
    exists i :: 0 <= i < |sts| && sts[i].progressing
  }

  /** The result of an aggregation, by what there is among the inputs: Error before Warning before Ok, and
      Unknown if there is nothing else. */
  ghost function Verdict(errors: bool, warnings: bool, oks: bool): Result {
    if errors then Error else if warnings then Warning else if oks then Ok else Unknown
  }

  lemma JoinAllMeans(sts: seq<Status>)
    ensures JoinAll(sts).result == Verdict(SomeResult(sts, Error), SomeResult(sts, Warning), SomeResult(sts, Ok))
    ensures JoinAll(sts).progressing <==> SomeProgress(sts)
  {
    JoinAllIsJoin(sts);
    var j := JoinAll(sts);
    forall i | 0 <= i < |sts| ensures AtMost(sts[i], j) {
      assert sts[i] in Elems(sts);
    }
  }

  lemma AggregatedMeans(subject: Subject, subs: seq<ObjectStatus>, conds: seq<Condition>)
    ensures var cs, ss := CondStatuses(conds), SubStatuses(subs);
            var t := Aggregated(subject, subs, conds);
            && t.subject == subject && t.subs == subs && t.conditions == conds
            && t.st.result == Verdict(SomeResult(cs, Error) || SomeResult(ss, Error),
                                      SomeResult(cs, Warning) || SomeResult(ss, Warning),
                                      SomeResult(cs, Ok) || SomeResult(ss, Ok))
            && (t.st.progressing <==> SomeProgress(cs) || SomeProgress(ss))
  {
    var cs, ss := CondStatuses(conds), SubStatuses(subs);
    JoinAllMeans(cs + ss);
    SomeConcat(cs, ss);
  }

  lemma SomeConcat(a: seq<Status>, b: seq<Status>)
    ensures forall r :: SomeResult(a + b, r) <==> SomeResult(a, r) || SomeResult(b, r)
    ensures SomeProgress(a + b) <==> SomeProgress(a) || SomeProgress(b)
  {
    assert forall i :: 0 <= i < |a| ==> (a + b)[i] == a[i];
    assert forall i :: 0 <= i < |b| ==> (a + b)[|a| + i] == b[i];
    assert forall i :: |a| <= i < |a + b| ==> (a + b)[i] == b[i - |a|];
  }

  // ----- containers -----

  /** A container is broken if it exited with an error, or if it has not exited and is unready, or waits
      and does not run. */
  predicate Broken(c: Container) {
    if c.exitCode.Some? then c.exitCode.value != 0 else !c.ready || (c.waiting && !c.running)
  }

  predicate Fine(c: Container) {
    if c.exitCode.Some? then c.exitCode.value == 0 else c.ready && c.running
  }

  /** It shows as waiting for its turn, and as progressing unless it last stopped too long ago. */
  predicate Restarting(c: Container) {
    c.exitCode.None? && c.ready && !c.running && c.waiting && !c.stalled
  }

  /** Exactly the containers that are neither broken nor fine are not shown at all. */
  lemma ContainerMeans(c: Container)
    ensures ContainerCondition(c).None? <==> !Broken(c) && !Fine(c)
    ensures ContainerCondition(c).Some? ==>
              && (ContainerCondition(c).value.st.result == Error <==> Broken(c))
              && (ContainerCondition(c).value.st.result == Ok <==> Fine(c))
              && (ContainerCondition(c).value.st.progressing <==> Restarting(c))
    ensures ContainerCondition(c).Some? ==>
              ContainerCondition(c).value.condType ==
              if c.exitCode.Some? then "Terminated" else if !c.ready then "Ready"
              else if c.running then "Running" else "Waiting"
  {
  }

  ghost predicate SomeBroken(cs: seq<Container>) {
    exists i :: 0 <= i < |cs| && Broken(cs[i])
  }

  ghost predicate SomeFine(cs: seq<Container>) {
    exists i :: 0 <= i < |cs| && Fine(cs[i])
  }

  ghost predicate SomeRestarting(cs: seq<Container>) {
    exists i :: 0 <= i < |cs| && Restarting(cs[i])
  }

  lemma OneMoreContainer(init: seq<Container>, last: Container)
    ensures SomeBroken(init + [last]) <==> SomeBroken(init) || Broken(last)
    ensures SomeFine(init + [last]) <==> SomeFine(init) || Fine(last)
    ensures SomeRestarting(init + [last]) <==> SomeRestarting(init) || Restarting(last)
  {
    hide Broken, Fine, Restarting;
    var cs := init + [last];
    assert cs[|init|] == last && forall i :: 0 <= i < |init| ==> cs[i] == init[i];
  }

  function ShownContainer(c: Container): seq<ObjectStatus> {
    match ContainerCondition(c)
    case None => []
    case Some(cond) => [Aggregated(ContainerSubject(c), [], [cond])]
  }

  lemma ShownContainerMeans(c: Container)
    ensures var ss := SubStatuses(ShownContainer(c));
            && (SomeResult(ss, Error) <==> Broken(c)) && (SomeResult(ss, Ok) <==> Fine(c))
            && !SomeResult(ss, Warning) && (SomeProgress(ss) <==> Restarting(c))
    ensures forall t :: t in ShownContainer(c) ==> t.subject == Subject("", "", "Container", c.name) && t.subs == []
  {
    ContainerMeans(c);
    match ContainerCondition(c)
    case None => assert ShownContainer(c) == [];
    case Some(cond) =>
      OneCondition(ContainerSubject(c), cond);
      OneStatus(true, cond.st);
      assert SubStatuses(ShownContainer(c)) == [cond.st];
  }

  lemma OneStatus(there: bool, st: Status)
    ensures var sts := if there then [st] else [];
            && (forall r :: SomeResult(sts, r) <==> there && st.result == r)
            && (SomeProgress(sts) <==> there && st.progressing)
  {
    var sts := if there then [st] else [];
    assert there ==> sts[0] == st;
  }

  lemma {:induction false} ContainersMean(cs: seq<Container>)
    ensures var ss := SubStatuses(ContainerStatuses(cs));
            && (SomeResult(ss, Error) <==> SomeBroken(cs)) && (SomeResult(ss, Ok) <==> SomeFine(cs))
            && !SomeResult(ss, Warning) && (SomeProgress(ss) <==> SomeRestarting(cs))
    ensures forall t :: t in ContainerStatuses(cs) ==> t.subject.kind == "Container" && t.subs == []
  {
    if cs == [] {
    } else {
      var init, last := cs[..|cs| - 1], cs[|cs| - 1];
      ContainersMean(init);
      assert cs == init + [last];
      OneMoreContainer(init, last);
      ShownContainerMeans(last);
      assert ContainerStatuses(cs) == ContainerStatuses(init) + ShownContainer(last);
      SubStatusesConcat(ContainerStatuses(init), ShownContainer(last));
      SomeConcat(SubStatuses(ContainerStatuses(init)), SubStatuses(ShownContainer(last)));
      hide SomeResult, SomeProgress, SomeBroken, SomeFine, SomeRestarting, ContainerStatuses, ShownContainer;
    }
  }

  /** Container by container, in their order. */
  lemma {:induction false} ContainersInOrder(a: seq<Container>, b: seq<Container>)
    ensures ContainerStatuses(a + b) == ContainerStatuses(a) + ContainerStatuses(b)
    ensures forall c :: ContainerStatuses([c]) == ShownContainer(c)
  {
    forall c ensures ContainerStatuses([c]) == ShownContainer(c) {
      assert [c][..0] == [] && ContainerStatuses([]) == [];
    }
    if b == [] {
      assert a + b == a;
    } else {
      ContainersInOrder(a, b[..|b| - 1]);
      assert (a + b)[..|a + b| - 1] == a + b[..|b| - 1];
    }
  }

  lemma SubStatusesConcat(a: seq<ObjectStatus>, b: seq<ObjectStatus>)
    ensures SubStatuses(a + b) == SubStatuses(a) + SubStatuses(b)
  {
  }

  lemma CondStatusesConcat(a: seq<Condition>, b: seq<Condition>)
    ensures CondStatuses(a + b) == CondStatuses(a) + CondStatuses(b)
  {
  }

  // ----- pods -----

  ghost predicate AllExited0(p: PodInfo) {
    p.containers != [] && forall i :: 0 <= i < |p.containers| ==> p.containers[i].exitCode == Some(0)
  }

  ghost predicate ExitedWithError(p: PodInfo) {
    exists i :: 0 <= i < |p.containers| && p.containers[i].exitCode.Some? && p.containers[i].exitCode.value != 0
  }

  /** Does the phase of a pod alone speak for or against it? */
  lemma PhaseMeans(p: PodInfo)
    ensures var sts := CondStatuses(PodSynthetic(p));
            && (SomeResult(sts, Error) <==>
                (p.phase == Failed && !AllExited0(p)) || (p.phase == Succeeded && ExitedWithError(p)))
            && (SomeResult(sts, Ok) <==>
                (p.phase == Failed && AllExited0(p)) || (p.phase == Succeeded && !ExitedWithError(p)))
            && !SomeResult(sts, Warning) && !SomeProgress(sts)
  {
    var sts := CondStatuses(PodSynthetic(p));
    assert AllExited0(p) <==> p.containers != [] && AllExitedFine(p.containers);
    assert ExitedWithError(p) <==> SomeExitedBadly(p.containers);
    assert |sts| == if p.phase == OtherPhase then 0 else 1;
    assert |sts| > 0 ==> sts[0] == PodSynthetic(p)[0].st;
  }

  ghost predicate PodBroken(conds: seq<Status>, p: PodInfo) {
    || SomeResult(conds, Error)
    || (p.phase == Failed && !AllExited0(p))
    || (p.phase == Succeeded && ExitedWithError(p))
    || SomeBroken(p.containers)
  }

  ghost predicate PodHasGood(conds: seq<Status>, p: PodInfo) {
    || SomeResult(conds, Ok)
    || (p.phase == Failed && AllExited0(p))
    || (p.phase == Succeeded && !ExitedWithError(p))
    || SomeFine(p.containers)
  }

  /** The verdict on every readable pod, in any phase: a completed one is Ok, whatever its conditions say;
      any other an Error if a condition, its phase or a container speaks against it. */
  lemma PodVerdict(p: Pod)
    requires p.conds.Some? && p.info.Some?
    ensures var conds, info := CondStatuses(p.conds.value), p.info.value;
            && PodStatus(p).st.result ==
               (if info.phase != OtherPhase && AllExited0(info) then Ok
                else Verdict(PodBroken(conds, info), SomeResult(conds, Warning), PodHasGood(conds, info)))
            && (PodStatus(p).st.progressing <==>
                SomeProgress(conds) || SomeRestarting(info.containers))
  {
    var conds, info := p.conds.value, p.info.value;
    CompletedMeans(info);
    AggregatedMeans(p.subject, ContainerStatuses(info.containers), conds + PodSynthetic(info));
    ContainersMean(info.containers);
    PhaseMeans(info);
    CondStatusesConcat(conds, PodSynthetic(info));
    SomeConcat(CondStatuses(conds), CondStatuses(PodSynthetic(info)));
    hide SomeResult, SomeProgress, SomeBroken, SomeFine, SomeRestarting, Aggregated, PodSynthetic, Completed;
    hide AllExited0, ExitedWithError, CondStatuses, SubStatuses, ContainerStatuses;
  }

  lemma CompletedMeans(p: PodInfo)
    ensures Completed(p) <==> p.phase != OtherPhase && AllExited0(p)
  {
  }

  /** A pod that cannot be read is Unknown, and reported without its containers. */
  lemma UnreadablePod(p: Pod)
    requires p.conds.None? || p.info.None?
    ensures PodStatus(p) == ObjectStatus(p.subject, Status(Unknown, false), [], [])
  {
  }

  /** In particular: a pod that runs, with every container running and ready and no condition against it,
      is Ok and settled. */
  lemma HealthyPod(p: Pod)
    requires p.conds.Some? && p.info.Some? && p.info.value.phase == OtherPhase && p.info.value.containers != []
    requires forall i :: 0 <= i < |p.info.value.containers| ==>
               var c := p.info.value.containers[i]; c.exitCode.None? && c.running && c.ready
    requires forall i :: 0 <= i < |p.conds.value| ==> p.conds.value[i].st == Status(Ok, false)
    ensures PodStatus(p).st == Status(Ok, false)
  {
    PodVerdict(p);
    assert Fine(p.info.value.containers[0]);
  }

  // ----- replica sets -----

  /** Are there fewer replicas than asked for that are labeled, available or ready, or more than asked for? */
  predicate OffCount(spec: Option<int>, c: ReplicaCounts) {
    var replicas := if spec.Some? then spec.value else 1;
    c.labeled < replicas || c.available < replicas || c.ready < replicas || replicas < c.current
  }

  lemma ReplicasMean(spec: Option<int>, c: ReplicaCounts)
    ensures var sts := CondStatuses(ReplicaSynthetic(spec, c));
            && (SomeResult(sts, Error) <==> OffCount(spec, c))
            && (SomeResult(sts, Ok) <==> c.ready == if spec.Some? then spec.value else 1)
            && !SomeResult(sts, Warning) && !SomeProgress(sts)
  {
    var replicas := if spec.Some? then spec.value else 1;
    var l, a, r, e, o := ReplicaParts(spec, c);
    SomeOfFive(l, a, r, e, o);
    hide ReplicaSynthetic, CondStatuses, SomeResult, SomeProgress;
  }

  /** Each count speaks for itself. */
  lemma ReplicaParts(spec: Option<int>, c: ReplicaCounts)
    returns (l: seq<Condition>, a: seq<Condition>, r: seq<Condition>, e: seq<Condition>, o: seq<Condition>)
    ensures ReplicaSynthetic(spec, c) == l + a + r + e + o
    ensures var replicas := if spec.Some? then spec.value else 1;
            && Says(l, c.labeled < replicas, Error) && Says(a, c.available < replicas, Error)
            && Says(r, c.ready < replicas, Error) && Says(e, c.ready == replicas, Ok)
            && Says(o, replicas < c.current, Error)
  {
    var replicas := if spec.Some? then spec.value else 1;
    l := OneIf(replicas > c.labeled, "ReplicasLabeled", BROKEN);
    a := OneIf(replicas > c.available, "ReplicasAvailable", BROKEN);
    r := OneIf(replicas > c.ready, "ReplicasReady", BROKEN);
    e := OneIf(replicas == c.ready, "ReplicasReady", FINE);
    o := OneIf(c.current > replicas, "TerminatedReplicas", BROKEN);
    assert ReplicaSynthetic(spec, c) == l + a + r + e + o;
    hide ReplicaSynthetic, Says, OneIf;
    OneIfMeans(replicas > c.labeled, "ReplicasLabeled", BROKEN);
    OneIfMeans(replicas > c.available, "ReplicasAvailable", BROKEN);
    OneIfMeans(replicas > c.ready, "ReplicasReady", BROKEN);
    OneIfMeans(replicas == c.ready, "ReplicasReady", FINE);
    OneIfMeans(c.current > replicas, "TerminatedReplicas", BROKEN);
  }

  /** Conditions that speak with one result if they speak at all, and never of progress. */
  ghost predicate Says(conds: seq<Condition>, there: bool, result: Result) {
    && (forall r :: SomeResult(CondStatuses(conds), r) <==> there && r == result)
    && !SomeProgress(CondStatuses(conds))
  }

  lemma SomeOfFive(l: seq<Condition>, a: seq<Condition>, r: seq<Condition>, e: seq<Condition>, o: seq<Condition>)
    ensures var sts := CondStatuses(l + a + r + e + o);
            && (forall x :: SomeResult(sts, x) <==>
                  || SomeResult(CondStatuses(l), x) || SomeResult(CondStatuses(a), x) || SomeResult(CondStatuses(r), x)
                  || SomeResult(CondStatuses(e), x) || SomeResult(CondStatuses(o), x))
            && (SomeProgress(sts) <==>
                  || SomeProgress(CondStatuses(l)) || SomeProgress(CondStatuses(a)) || SomeProgress(CondStatuses(r))
                  || SomeProgress(CondStatuses(e)) || SomeProgress(CondStatuses(o)))
  {
    hide SomeResult, SomeProgress, CondStatuses;
    SomeCondConcat(l, a);
    SomeCondConcat(l + a, r);
    SomeCondConcat(l + a + r, e);
    SomeCondConcat(l + a + r + e, o);
  }

  function OneIf(there: bool, condType: string, st: Status): seq<Condition> {
    if there then [Condition(condType, st)] else []
  }

  lemma OneIfMeans(there: bool, condType: string, st: Status)
    requires !st.progressing
    ensures Says(OneIf(there, condType, st), there, st.result)
  {
    OneStatus(there, st);
    assert CondStatuses(OneIf(there, condType, st)) == if there then [st] else [];
  }

  lemma SomeCondConcat(a: seq<Condition>, b: seq<Condition>)
    ensures var sts := CondStatuses(a + b);
            && (forall r :: SomeResult(sts, r) <==> SomeResult(CondStatuses(a), r) || SomeResult(CondStatuses(b), r))
            && (SomeProgress(sts) <==> SomeProgress(CondStatuses(a)) || SomeProgress(CondStatuses(b)))
  {
    CondStatusesConcat(a, b);
    SomeConcat(CondStatuses(a), CondStatuses(b));
  }

  /** The verdict on every readable replica set: its conditions, its counts and its pods. */
  lemma ReplicaSetVerdict(rs: ReplicaSet)
    requires rs.conds.Some? && rs.counts.Some?
    ensures var cs, ss := CondStatuses(rs.conds.value), SubStatuses(ReplicaSetStatus(rs).subs);
            var t := ReplicaSetStatus(rs);
            && |t.subs| == |rs.pods| && (forall i :: 0 <= i < |rs.pods| ==> t.subs[i] == PodStatus(rs.pods[i]))
            && t.st.result ==
               Verdict(SomeResult(cs, Error) || SomeResult(ss, Error) || OffCount(rs.specReplicas, rs.counts.value),
                       SomeResult(cs, Warning) || SomeResult(ss, Warning),
                       SomeResult(cs, Ok) || SomeResult(ss, Ok)
                       || rs.counts.value.ready == if rs.specReplicas.Some? then rs.specReplicas.value else 1)
            && (t.st.progressing <==> SomeProgress(cs) || SomeProgress(ss))
  {
    var conds, synthetic := rs.conds.value, ReplicaSynthetic(rs.specReplicas, rs.counts.value);
    AggregatedMeans(rs.subject, PodStatuses(rs.pods), conds + synthetic);
    ReplicasMean(rs.specReplicas, rs.counts.value);
    CondStatusesConcat(conds, synthetic);
    SomeConcat(CondStatuses(conds), CondStatuses(synthetic));
    hide SomeResult, SomeProgress, Aggregated, OffCount, ReplicaSynthetic, CondStatuses, SubStatuses, PodStatus;
  }

  // ----- the other resources -----

  /** A service is judged by its pods alone, and an always green resource by nothing. */
  lemma ServiceVerdict(subject: Subject, pods: seq<Pod>)
    ensures var t := Analyzed(Service(subject, pods));
            && |t.subs| == |pods| && (forall i :: 0 <= i < |pods| ==> t.subs[i] == PodStatus(pods[i]))
            && t.st.result == Verdict(SomeResult(SubStatuses(t.subs), Error), SomeResult(SubStatuses(t.subs), Warning),
                                      SomeResult(SubStatuses(t.subs), Ok))
            && (t.st.progressing <==> SomeProgress(SubStatuses(t.subs)))
    ensures Analyzed(AlwaysGreen(subject)) == ObjectStatus(subject, Status(Ok, false), [], [])
  {
    AggregatedMeans(subject, PodStatuses(pods), []);
  }

  /** Anything else is judged by its conditions, its generation and what it owns; it is Ok without a status
      and owned objects, and Unknown, without what it owns, if its conditions cannot be read. */
  lemma GenericVerdict(r: Resource)
    requires r.Generic?
    ensures var t, subs := Analyzed(r), AnalyzedAll(r.owned);
            if !r.hasStatus && subs == [] then t == ObjectStatus(r.subject, Status(Ok, false), [], [])
            else if r.conds.None? then t == ObjectStatus(r.subject, Status(Unknown, false), [], [])
            else
              var cs, ss := CondStatuses(r.generation + r.conds.value), SubStatuses(subs);
              && t.subs == subs
              && t.st.result == Verdict(SomeResult(cs, Error) || SomeResult(ss, Error),
                                        SomeResult(cs, Warning) || SomeResult(ss, Warning),
                                        SomeResult(cs, Ok) || SomeResult(ss, Ok))
              && (t.st.progressing <==> SomeProgress(cs) || SomeProgress(ss))
  {
    if r.conds.Some? {
      AggregatedMeans(r.subject, AnalyzedAll(r.owned), r.generation + r.conds.value);
    }
  }

  /** A replica set that cannot be read is Unknown and shows no pod. */
  lemma UnreadableReplicaSet(rs: ReplicaSet)
    requires rs.conds.None? || rs.counts.None?
    ensures ReplicaSetStatus(rs) == ObjectStatus(rs.subject, Status(Unknown, false), [], [])
  {
  }
}
