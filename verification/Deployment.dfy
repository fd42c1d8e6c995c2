/**
 The deployment analyzer with its conditions as the program holds them: copies of a condition share
 one status cell, and the analyzer settles the Progressing condition by writing through such a copy.
 */
module Deployment {
  import opened Base
  import opened Status
  import opened Analyze

  datatype RawCondition = RawCondition(condType: string, value: string, reason: string)

  // None: the analyzer does not apply to the condition.
  type ConditionAnalyzer = RawCondition -> Option<Status>

  class StatusCell {
    var result: Result
    var progressing: bool

    constructor (st: Status)
      ensures result == st.result && progressing == st.progressing
    {
      result, progressing := st.result, st.progressing;
    }
  }

  // Passed around by value; the cell is shared.
  datatype ConditionStatus = ConditionStatus(condition: RawCondition, cell: StatusCell)

  ghost function Cells(conds: seq<ConditionStatus>): set<StatusCell> {
    set c | c in conds :: c.cell
  }

  ghost predicate DistinctCells(conds: seq<ConditionStatus>) {
    forall i, j :: 0 <= i < j < |conds| ==> conds[i].cell != conds[j].cell
  }

  ghost function Read(c: ConditionStatus): Condition
    reads c.cell
  {
    Condition(c.condition.condType, Status(c.cell.result, c.cell.progressing))
  }

  ghost function ReadAll(conds: seq<ConditionStatus>): (r: seq<Condition>)
    reads Cells(conds)
    ensures |r| == |conds| && forall i :: 0 <= i < |conds| ==> r[i] == Read(conds[i])
  {
    if conds == [] then []
    else
      assert forall c :: c in conds[..|conds| - 1] ==> c in conds;
      ReadAll(conds[..|conds| - 1]) + [Read(conds[|conds| - 1])]
  }

  // ----- analyzing conditions -----

  function FirstMatch(c: RawCondition, analyzers: seq<ConditionAnalyzer>): Status {
    if analyzers == [] then NOTHING
    else if analyzers[0](c).Some? then analyzers[0](c).value
    else FirstMatch(c, analyzers[1..])
  }

  function Judged(raws: seq<RawCondition>, analyzers: seq<ConditionAnalyzer>): seq<Condition> {
    seq(|raws|, i requires 0 <= i < |raws| => Condition(raws[i].condType, FirstMatch(raws[i], analyzers)))
  }

  method JudgeCondition(raw: RawCondition, analyzers: seq<ConditionAnalyzer>) returns (st: Status)
    ensures st == FirstMatch(raw, analyzers)
  {
    var cs: Option<Status> := None;
    for k := 0 to |analyzers|
      invariant cs.None? && FirstMatch(raw, analyzers) == FirstMatch(raw, analyzers[k..])
    {
      assert analyzers[k..][1..] == analyzers[k + 1..];
      cs := analyzers[k](raw);
      if cs.Some? {
        break;
      }
    }
    st := if cs.None? then NOTHING else cs.value;
  }

  /** Each condition gets the verdict of the first analyzer that applies, Unknown if none does, in a
      cell of its own. */
  method AnalyzeConditions(raws: seq<RawCondition>, analyzers: seq<ConditionAnalyzer>)
    returns (ret: seq<ConditionStatus>)
    ensures DistinctCells(ret) && forall c :: c in ret ==> fresh(c.cell)
    ensures ReadAll(ret) == Judged(raws, analyzers)
  {
    ret := [];
    for i := 0 to |raws|
      invariant |ret| == i && DistinctCells(ret)
      invariant forall j :: 0 <= j < i ==> fresh(ret[j].cell) && allocated(ret[j].cell)
      invariant forall j :: 0 <= j < i ==> Read(ret[j]) == Judged(raws, analyzers)[j]
    {
      var st := JudgeCondition(raws[i], analyzers);
      var cell := new StatusCell(st);
      ret := ret + [ConditionStatus(raws[i], cell)];
    }
  }

  /** A copy of the first condition of the type: its own record, the shared cell. */
  method GetCondition(conds: seq<ConditionStatus>, condType: string) returns (r: Option<ConditionStatus>)
    ensures var i := FirstOfType(ReadAll(conds), condType);
            r == if i < |conds| then Some(conds[i]) else None
  {
    for k := 0 to |conds|
      invariant forall j :: 0 <= j < k ==> conds[j].condition.condType != condType
    {
      if conds[k].condition.condType == condType {
        return Some(conds[k]);
      }
    }
    return None;
  }

  // ----- the deployment -----

  function DeploymentCondition(c: RawCondition): Option<Status> {
    if c.condType == "Progressing" && c.reason == "ProgressDeadlineExceeded" then Some(BROKEN)
    else if c.condType == "Available" && c.value == "False" then Some(BROKEN)
    else None
  }

  method CheckAllDone(subs: seq<ObjectStatus>) returns (allDone: bool)
    ensures allDone == AllDone(subs)
  {
    allDone := |subs| > 0;
    for i := 0 to |subs|
      invariant allDone == (|subs| > 0) && forall k :: 0 <= k < i ==> subs[k].st == FINE
    {
      if subs[i].st.result != Ok || subs[i].st.progressing {
        allDone := false;
        break;
      }
    }
  }

  /** The write through the copy settles exactly the first Progressing condition. */
  method SettleProgressing(conds: seq<ConditionStatus>, subs: seq<ObjectStatus>)
    requires DistinctCells(conds)
    modifies Cells(conds)
    ensures ReadAll(conds) == Settled(old(ReadAll(conds)), subs)
    ensures forall i :: 0 <= i < |conds| && i != FirstOfType(old(ReadAll(conds)), "Progressing") ==>
              unchanged(conds[i].cell)
  {
    hide FirstOfType, ReadAll, AllDone;
    ghost var before := ReadAll(conds);
    ghost var first := FirstOfType(before, "Progressing");
    var progressingCond := GetCondition(conds, "Progressing");
    if progressingCond.Some? {
      var allDone := CheckAllDone(subs);
      if allDone {
        assert progressingCond.value == conds[first] && progressingCond.value in conds;
        progressingCond.value.cell.progressing := false;
        progressingCond.value.cell.result := Ok;
        forall i | 0 <= i < |conds| ensures Read(conds[i]) == Settled(before, subs)[i] {
          assert i != first ==> conds[i].cell != conds[first].cell;
        }
        assert ReadAll(conds) == Settled(before, subs);
      }
    }
  }

  method LiveReplicaSets(sets: seq<ReplicaSet>) returns (subs: seq<ObjectStatus>)
    ensures subs == LiveSets(sets)
  {
    subs := [];
    for i := 0 to |sets|
      invariant subs == LiveSets(sets[..i])
    {
      assert sets[..i + 1][..i] == sets[..i];
      if !(sets[i].specReplicas.Some? && sets[i].specReplicas.value == 0) {
        subs := subs + [ReplicaSetStatus(sets[i])];
      }
    }
    assert sets[..|sets|] == sets;
  }

  method AggregateCells(subject: Subject, subs: seq<ObjectStatus>, conds: seq<ConditionStatus>)
    returns (r: ObjectStatus)
    ensures r == Aggregated(subject, subs, ReadAll(conds))
  {
    var values: seq<Condition> := [];
    for i := 0 to |conds|
      invariant |values| == i && forall k :: 0 <= k < i ==> values[k] == Read(conds[k])
    {
      var c := conds[i];
      values := values + [Condition(c.condition.condType, Status(c.cell.result, c.cell.progressing))];
    }
    r := AggregateResult(subject, subs, values);
    assert values == ReadAll(conds);
  }

  /** The heap version computes the status of the resource tree's deployment. */
  method AnalyzeDeployment(subject: Subject, sets: seq<ReplicaSet>, raws: Option<seq<RawCondition>>,
                           defaults: seq<ConditionAnalyzer>)
    returns (r: ObjectStatus)
    ensures r == Analyzed(Analyze.Deployment(subject, sets,
                            if raws.None? then None else Some(Judged(raws.value, [DeploymentCondition] + defaults))))
  {
    var subs := LiveReplicaSets(sets);
    if raws.None? {
      return UnknownStatus(subject);
    }
    var conds := AnalyzeConditions(raws.value, [DeploymentCondition] + defaults);
    SettleProgressing(conds, subs);
    r := AggregateCells(subject, subs, conds);
  }

  // ----- what settling means for the deployment -----

  function Without(conds: seq<Condition>, i: nat): seq<Condition>
    requires i < |conds|
  {
    conds[..i] + conds[i + 1..]
  }

  /** With every live replica set Ok and settled, the deployment is Ok joined with its other conditions:
      whatever the first Progressing condition said no longer matters. */
  lemma SettledDeployment(subject: Subject, sets: seq<ReplicaSet>, conds: seq<Condition>)
    requires AllDone(LiveSets(sets)) && FirstOfType(conds, "Progressing") < |conds|
    ensures Analyzed(Analyze.Deployment(subject, sets, Some(conds))).st
         == Join(FINE, JoinAll(CondStatuses(Without(conds, FirstOfType(conds, "Progressing")))))
  {
    hide LiveSets, FirstOfType, JoinAll;
    var i, subs := FirstOfType(conds, "Progressing"), LiveSets(sets);
    var rest := CondStatuses(Without(conds, i));
    var settled := conds[i := Condition(conds[i].condType, FINE)];
    SettledStatuses(conds, i, subs);
    AggregateOrderIndependent(CondStatuses(settled) + SubStatuses(subs), rest + [FINE]);
    JoinAllSnoc(rest + [FINE], |rest|);
    assert (rest + [FINE])[..|rest|] == rest && (rest + [FINE])[..|rest| + 1] == rest + [FINE];
  }

  lemma SettledStatuses(conds: seq<Condition>, i: nat, subs: seq<ObjectStatus>)
    requires i < |conds| && AllDone(subs)
    ensures Elems(CondStatuses(conds[i := Condition(conds[i].condType, FINE)]) + SubStatuses(subs))
         == Elems(CondStatuses(Without(conds, i)) + [FINE])
  {
    var settled := conds[i := Condition(conds[i].condType, FINE)];
    var all, others := CondStatuses(settled) + SubStatuses(subs), CondStatuses(Without(conds, i)) + [FINE];
    forall k | 0 <= k < |all| ensures all[k] in others {
      var k' := if k < i then k else if i < k < |conds| then k - 1 else |conds| - 1;
      assert others[k'] == all[k];
    }
    forall k | 0 <= k < |others| ensures others[k] in all {
      var k' := if k < i then k else if k < |conds| - 1 then k + 1 else i;
      assert all[k'] == others[k];
    }
  }

  /** The replica sets of a deployment count as done if there is one, and all are Ok and settled. */
  ghost predicate Done(subs: seq<ObjectStatus>) {
    subs != [] && forall i :: 0 <= i < |subs| ==> subs[i].st.result == Ok && !subs[i].st.progressing
  }

  ghost predicate HasProgressing(conds: seq<Condition>) {
    exists i :: 0 <= i < |conds| && conds[i].condType == "Progressing"
  }

  /** Otherwise every condition counts as it is judged, the Progressing one included; and a deployment
      whose conditions cannot be read is Unknown. */
  lemma UnsettledDeployment(subject: Subject, sets: seq<ReplicaSet>, conds: seq<Condition>)
    requires !Done(LiveSets(sets)) || !HasProgressing(conds)
    ensures Analyzed(Analyze.Deployment(subject, sets, Some(conds))) == Aggregated(subject, LiveSets(sets), conds)
    ensures Analyzed(Analyze.Deployment(subject, sets, None)) == ObjectStatus(subject, Status(Unknown, false), [], [])
  {
    assert AllDone(LiveSets(sets)) ==> Done(LiveSets(sets));
  }

  lemma DoneIsAllDone(sets: seq<ReplicaSet>, conds: seq<Condition>)
    ensures Done(LiveSets(sets)) <==> AllDone(LiveSets(sets))
    ensures HasProgressing(conds) <==> FirstOfType(conds, "Progressing") < |conds|
  {
    var i := FirstOfType(conds, "Progressing");
    assert i < |conds| ==> conds[i].condType == "Progressing";
  }

  /** The verdict on every readable deployment. */
  lemma DeploymentVerdict(subject: Subject, sets: seq<ReplicaSet>, conds: seq<Condition>)
    ensures var t := Analyzed(Analyze.Deployment(subject, sets, Some(conds)));
            && t.subs == LiveSets(sets)
            && t.st == if Done(LiveSets(sets)) && HasProgressing(conds)
                       then Join(Status(Ok, false),
                                 JoinAll(CondStatuses(Without(conds, FirstOfType(conds, "Progressing")))))
                       else JoinAll(CondStatuses(conds) + SubStatuses(LiveSets(sets)))
  {
    DoneIsAllDone(sets, conds);
    if Done(LiveSets(sets)) && HasProgressing(conds) {
      SettledDeployment(subject, sets, conds);
    } else {
      UnsettledDeployment(subject, sets, conds);
    }
  }

  // ----- what the condition analyzers say -----

  /** A deployment's own analyzer condemns a missed progress deadline and unavailability, and leaves every
      other condition to the next. */
  lemma DeploymentConditionMeans(c: RawCondition)
    ensures DeploymentCondition(c) ==
            if (c.condType == "Progressing" && c.reason == "ProgressDeadlineExceeded")
               || (c.condType == "Available" && c.value == "False")
            then Some(Status(Error, false)) else None
  {
  }

  /** The first analyzer that says anything decides; if none does the condition is Unknown. */
  lemma {:induction false} FirstMatchMeans(c: RawCondition, analyzers: seq<ConditionAnalyzer>, k: nat)
    requires k <= |analyzers| && forall i :: 0 <= i < k ==> analyzers[i](c).None?
    requires k < |analyzers| ==> analyzers[k](c).Some?
    ensures FirstMatch(c, analyzers) == if k < |analyzers| then analyzers[k](c).value else Status(Unknown, false)
  {
    if k == 0 {
    } else {
      FirstMatchMeans(c, analyzers[1..], k - 1);
    }
  }

  /** So nothing overrules the deployment's own analyzer. */
  lemma DeadlineExceeded(c: RawCondition, defaults: seq<ConditionAnalyzer>)
    requires c.condType == "Progressing" && c.reason == "ProgressDeadlineExceeded"
    ensures Judged([c], [DeploymentCondition] + defaults) == [Condition("Progressing", Status(Error, false))]
  {
    FirstMatchMeans(c, [DeploymentCondition] + defaults, 0);
  }

  lemma UnreadableDeployment(subject: Subject, sets: seq<ReplicaSet>)
    ensures Analyzed(Analyze.Deployment(subject, sets, None)) == ObjectStatus(subject, Status(Unknown, false), [], [])
  {
  }

  /** Every condition is judged, under its own type and in its place. */
  lemma JudgedMeans(raws: seq<RawCondition>, analyzers: seq<ConditionAnalyzer>, i: nat)
    requires i < |raws|
    ensures |Judged(raws, analyzers)| == |raws|
    ensures Judged(raws, analyzers)[i].condType == raws[i].condType
    ensures Judged(raws, analyzers)[i].st == FirstMatch(raws[i], analyzers)
  {
  }
}
