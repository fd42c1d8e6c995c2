/**
 The parallel bulk listing as a protocol: one goroutine per resource, an unbuffered channel, a
 collector goroutine, a wait group, and the caller that closes the channel and waits for the
 collector. A step is one goroutine's move, or the rendezvous of a sender with the collector.
 */
module BulkList {
  import opened Base

  // How listing one resource ends.
  datatype Outcome<T> = Listed(items: seq<T>) | Failed

  datatype Worker = Unborn | Listing | Sending | Finishing | Finished
  datatype Caller = Spawning(next: nat) | Waiting | Closing | Awaiting | Returned
  datatype Collector<T> = Receiving | Holding(items: seq<T>) | Ended

  datatype State<T> = State(
    workers: seq<Worker>,
    caller: Caller,
    collector: Collector<T>,
    wg: int,                  // wait group counter
    closed: bool,             // results channel closed
    done: bool,               // done channel closed
    out: seq<T>,
    err: Option<nat>,         // index of the worker whose error is held
    panicked: bool
  )

  datatype Step =
    | Spawn | SpawnsDone | WaitReturns | Close | Return      // the caller
    | List(w: nat) | Send(w: nat) | Done(w: nat)             // worker w
    | Append | End                                           // the collector

  /** With no resources the function returns at once, having started nothing. */
  function Init<T>(o: seq<Outcome<T>>): State<T> {
    if o == [] then State([], Returned, Ended, 0, true, true, [], None, false)
    else State(seq(|o|, _ => Unborn), Spawning(0), Receiving, 0, false, false, [], None, false)
  }

  predicate Enabled<T(==)>(o: seq<Outcome<T>>, s: State<T>, t: Step)
    requires |s.workers| == |o|
  {
    match t
    case Spawn => s.caller.Spawning? && s.caller.next < |o|
    case SpawnsDone => s.caller.Spawning? && s.caller.next >= |o|
    case WaitReturns => s.caller.Waiting? && s.wg == 0
    case Close => s.caller.Closing?
    case Return => s.caller.Awaiting? && s.done
    case List(w) => w < |o| && s.workers[w].Listing?
    case Send(w) => w < |o| && s.workers[w].Sending? && (s.closed || s.collector.Receiving?)
    case Done(w) => w < |o| && s.workers[w].Finishing?
    case Append => s.collector.Holding?
    case End => s.collector.Receiving? && s.closed
  }

  function Apply<T(==)>(o: seq<Outcome<T>>, s: State<T>, t: Step): State<T>
    requires |s.workers| == |o| && Enabled(o, s, t)
  {
    match t
    case Spawn =>
      s.(wg := s.wg + 1, caller := Spawning(s.caller.next + 1), workers := s.workers[s.caller.next := Listing])
    case SpawnsDone => s.(caller := Waiting)
    case WaitReturns => s.(caller := Closing)
    case Close => s.(caller := Awaiting, closed := true, panicked := s.panicked || s.closed)
    case Return => s.(caller := Returned)
    case List(w) =>
      if o[w].Failed? then s.(err := Some(w), workers := s.workers[w := Finishing])
      else s.(workers := s.workers[w := Sending])
    case Send(w) =>
      if s.closed then s.(panicked := true)
      else s.(workers := s.workers[w := Finishing],
              collector := if o[w].Listed? then Holding(o[w].items) else s.collector)
    case Done(w) => s.(wg := s.wg - 1, workers := s.workers[w := Finished], panicked := s.panicked || s.wg <= 0)
    case Append => s.(out := s.out + s.collector.items, collector := Receiving)
    case End => s.(collector := Ended, done := true)
  }

  // ----- runs -----

  datatype Run = Begin | Then(before: Run, step: Step)

  ghost predicate Legal<T>(o: seq<Outcome<T>>, r: Run) {
    match r
    case Begin => true
    case Then(q, t) => Legal(o, q) && |At(o, q).workers| == |o| && Enabled(o, At(o, q), t)
  }

  /** The state a run ends in; a step that is not enabled changes nothing. */
  ghost function At<T>(o: seq<Outcome<T>>, r: Run): State<T> {
    match r
    case Begin => Init(o)
    case Then(q, t) =>
      var s := At(o, q);
      if |s.workers| == |o| && Enabled(o, s, t) then Apply(o, s, t) else s
  }

  function Length(r: Run): nat {
    match r
    case Begin => 0
    case Then(q, _) => Length(q) + 1
  }

  // ----- the invariant -----

  predicate Active(w: Worker) {
    w.Listing? || w.Sending? || w.Finishing?
  }

  predicate Past(w: Worker) {
    w.Finishing? || w.Finished?
  }

  /** How many of the first k workers are between their start and their end. */
  function ActiveCount(ws: seq<Worker>, k: nat): nat
    requires k <= |ws|
  {
    if k == 0 then 0 else ActiveCount(ws, k - 1) + if Active(ws[k - 1]) then 1 else 0
  }

  ghost function Contribution<T>(oc: Outcome<T>, w: Worker): multiset<T> {
    if oc.Listed? && Past(w) then multiset(oc.items) else multiset{}
  }

  /** What the first k workers have handed over so far. */
  ghost function Delivered<T>(o: seq<Outcome<T>>, ws: seq<Worker>, k: nat): multiset<T>
    requires k <= |o| == |ws|
  {
    if k == 0 then multiset{} else Delivered(o, ws, k - 1) + Contribution(o[k - 1], ws[k - 1])
  }

  ghost function Held<T>(c: Collector<T>): multiset<T> {
    if c.Holding? then multiset(c.items) else multiset{}
  }

  ghost predicate Control<T>(o: seq<Outcome<T>>, s: State<T>) {
    && |s.workers| == |o|
    && !s.panicked
    && s.wg == ActiveCount(s.workers, |o|)
    && (s.caller.Spawning? ==> s.caller.next <= |o|)
    && (forall i :: 0 <= i < |o| ==> (s.workers[i].Unborn? <==> s.caller.Spawning? && s.caller.next <= i))
    && (s.caller.Closing? || s.closed ==> s.wg == 0)
    && (s.closed <==> s.caller.Awaiting? || s.caller.Returned?)
    && (s.done <==> s.collector.Ended?)
    && (s.done ==> s.closed)
    && (s.caller.Returned? ==> s.done)
  }

  ghost predicate Conserved<T>(o: seq<Outcome<T>>, s: State<T>)
    requires |s.workers| == |o|
  {
    && (forall i :: 0 <= i < |o| && s.workers[i].Sending? ==> o[i].Listed?)
    && multiset(s.out) + Held(s.collector) == Delivered(o, s.workers, |o|)
  }

  ghost predicate ErrorHeld<T>(o: seq<Outcome<T>>, s: State<T>)
    requires |s.workers| == |o|
  {
    && (s.err.Some? ==> s.err.value < |o| && o[s.err.value].Failed? && Past(s.workers[s.err.value]))
    && (s.err.None? ==> forall i :: 0 <= i < |o| && o[i].Failed? ==> !Past(s.workers[i]))
  }

  ghost predicate Invariant<T>(o: seq<Outcome<T>>, s: State<T>) {
    Control(o, s) && Conserved(o, s) && ErrorHeld(o, s)
  }

  lemma {:induction false} CountUpdate(ws: seq<Worker>, i: nat, w: Worker, k: nat)
    requires i < |ws| && k <= |ws|
    ensures ActiveCount(ws[i := w], k) ==
            ActiveCount(ws, k) + if i >= k || Active(ws[i]) == Active(w) then 0 else if Active(w) then 1 else -1
    ensures i < k && Active(ws[i]) ==> ActiveCount(ws, k) > 0
  {
    if k == 0 {
    } else {
      CountUpdate(ws, i, w, k - 1);
    }
  }

  lemma {:induction false} DeliveredSame<T>(o: seq<Outcome<T>>, ws: seq<Worker>, ws': seq<Worker>, k: nat)
    requires k <= |o| == |ws| == |ws'|
    requires forall j :: 0 <= j < k ==> Past(ws[j]) == Past(ws'[j])
    ensures Delivered(o, ws', k) == Delivered(o, ws, k)
  {
    if k == 0 {
    } else {
      DeliveredSame(o, ws, ws', k - 1);
      assert Past(ws[k - 1]) == Past(ws'[k - 1]);
    }
  }

  lemma Swap<T>(d: multiset<T>, x: multiset<T>, c: multiset<T>)
    ensures d + x + c == d + c + x
  {
  }

  lemma DeliveredLast<T>(o: seq<Outcome<T>>, ws: seq<Worker>, ws': seq<Worker>, k: nat)
    requires 0 < k <= |o| == |ws| == |ws'| && !Past(ws[k - 1])
    requires forall j :: 0 <= j < k - 1 ==> Past(ws[j]) == Past(ws'[j])
    ensures Delivered(o, ws', k) == Delivered(o, ws, k) + Contribution(o[k - 1], ws'[k - 1])
  {
    DeliveredSame(o, ws, ws', k - 1);
    var d := Delivered(o, ws, k - 1);
    assert d + multiset{} == d;
    assert Delivered(o, ws, k) == d;
  }

  lemma {:induction false} DeliveredMore<T>(o: seq<Outcome<T>>, ws: seq<Worker>, ws': seq<Worker>, i: nat, k: nat)
    requires i < k <= |o| == |ws| == |ws'| && !Past(ws[i])
    requires forall j :: 0 <= j < k && j != i ==> Past(ws[j]) == Past(ws'[j])
    ensures Delivered(o, ws', k) == Delivered(o, ws, k) + Contribution(o[i], ws'[i])
  {
    if i == k - 1 {
      DeliveredLast(o, ws, ws', k);
    } else {
      DeliveredMore(o, ws, ws', i, k - 1);
      Swap(Delivered(o, ws, k - 1), Contribution(o[i], ws'[i]), Contribution(o[k - 1], ws[k - 1]));
      assert Past(ws[k - 1]) == Past(ws'[k - 1]);
    }
  }

  lemma {:induction false} NothingYet<T>(o: seq<Outcome<T>>, ws: seq<Worker>, k: nat)
    requires k <= |o| == |ws| && forall i :: 0 <= i < |ws| ==> ws[i].Unborn?
    ensures ActiveCount(ws, k) == 0 && Delivered(o, ws, k) == multiset{}
  {
    if k == 0 {
    } else {
      NothingYet(o, ws, k - 1);
    }
  }

  /** A zero counter means no worker is between its start and its end. */
  lemma {:induction false} NoneActive(ws: seq<Worker>, k: nat)
    requires k <= |ws|
    ensures ActiveCount(ws, k) == 0 <==> forall i :: 0 <= i < k ==> !Active(ws[i])
  {
    if k == 0 {
    } else {
      NoneActive(ws, k - 1);
    }
  }

  lemma InvariantInit<T>(o: seq<Outcome<T>>)
    ensures Invariant(o, Init(o))
  {
    NothingYet(o, Init(o).workers, |o|);
  }

  /** The worker a step moves, and where to. */
  function Moved<T>(o: seq<Outcome<T>>, s: State<T>, t: Step): Option<(nat, Worker)> {
    match t
    case Spawn => if s.caller.Spawning? then Some((s.caller.next, Listing)) else None
    case List(w) => Some((w, if w < |o| && o[w].Failed? then Finishing else Sending))
    case Send(w) => Some((w, Finishing))
    case Done(w) => Some((w, Finished))
    case _ => None
  }

  lemma ControlStep<T>(o: seq<Outcome<T>>, s: State<T>, t: Step)
    requires Control(o, s) && Enabled(o, s, t)
    ensures Control(o, Apply(o, s, t))
    ensures t.Send? ==> !s.closed
  {
    var m := Moved(o, s, t);
    if m.Some? {
      CountUpdate(s.workers, m.value.0, m.value.1, |o|);
    }
  }

  lemma AppendKeeps<T>(o: seq<Outcome<T>>, s: State<T>)
    requires |s.workers| == |o| && Enabled(o, s, Append) && Conserved(o, s)
    ensures Conserved(o, Apply(o, s, Append))
  {
    assert multiset(s.out + s.collector.items) == multiset(s.out) + multiset(s.collector.items);
  }

  lemma SendKeeps<T>(o: seq<Outcome<T>>, s: State<T>, w: nat)
    requires |s.workers| == |o| && Enabled(o, s, Send(w)) && Conserved(o, s) && !s.closed
    ensures Conserved(o, Apply(o, s, Send(w)))
  {
    DeliveredMore(o, s.workers, Apply(o, s, Send(w)).workers, w, |o|);
    assert Contribution(o[w], Finishing) == Held(Apply(o, s, Send(w)).collector);
  }

  lemma FailureKeeps<T>(o: seq<Outcome<T>>, s: State<T>, w: nat)
    requires |s.workers| == |o| && Enabled(o, s, List(w)) && Conserved(o, s) && o[w].Failed?
    ensures Conserved(o, Apply(o, s, List(w)))
  {
    var s' := Apply(o, s, List(w));
    DeliveredMore(o, s.workers, s'.workers, w, |o|);
    hide Delivered;
    var d := Delivered(o, s.workers, |o|);
    assert d + multiset{} == d;
  }

  lemma MoveKeeps<T>(o: seq<Outcome<T>>, s: State<T>, t: Step)
    requires |s.workers| == |o| && Enabled(o, s, t) && Conserved(o, s)
    requires t.List? || t.Done? || t.Spawn?
    requires t.Spawn? ==> s.workers[s.caller.next].Unborn?
    ensures Conserved(o, Apply(o, s, t))
  {
    hide Delivered;
    if t.List? && o[t.w].Failed? {
      FailureKeeps(o, s, t.w);
    } else {
      DeliveredSame(o, s.workers, Apply(o, s, t).workers, |o|);
    }
  }

  lemma ConservedStep<T>(o: seq<Outcome<T>>, s: State<T>, t: Step)
    requires |s.workers| == |o| && Enabled(o, s, t) && Conserved(o, s)
    requires t.Send? ==> !s.closed
    requires t.Spawn? ==> s.workers[s.caller.next].Unborn?
    ensures Conserved(o, Apply(o, s, t))
  {
    match t
    case Append => AppendKeeps(o, s);
    case Send(w) => SendKeeps(o, s, w);
    case List(_) => MoveKeeps(o, s, t);
    case Done(_) => MoveKeeps(o, s, t);
    case Spawn => MoveKeeps(o, s, t);
    case _ =>
  }

  lemma ErrorHeldStep<T>(o: seq<Outcome<T>>, s: State<T>, t: Step)
    requires Control(o, s) && Enabled(o, s, t) && Conserved(o, s) && ErrorHeld(o, s)
    ensures ErrorHeld(o, Apply(o, s, t))
  {
  }

  lemma InvariantStep<T>(o: seq<Outcome<T>>, s: State<T>, t: Step)
    requires Invariant(o, s) && Enabled(o, s, t)
    ensures Invariant(o, Apply(o, s, t))
  {
    ControlStep(o, s, t);
    ConservedStep(o, s, t);
    ErrorHeldStep(o, s, t);
  }

  lemma {:induction false} InvariantRun<T>(o: seq<Outcome<T>>, r: Run)
    requires Legal(o, r)
    ensures Invariant(o, At(o, r))
  {
    match r
    case Begin => InvariantInit(o);
    case Then(q, t) =>
      InvariantRun(o, q);
      InvariantStep(o, At(o, q), t);
  }

  // ----- safety -----

  /** In every interleaving: no send on the closed channel, no second close, no negative wait group;
      and the sends and the close can never even become ready together. */
  lemma NeverPanics<T>(o: seq<Outcome<T>>, r: Run)
    requires Legal(o, r)
    ensures !At(o, r).panicked
    ensures At(o, r).closed ==> forall w :: 0 <= w < |o| ==> At(o, r).workers[w].Finished?
  {
    InvariantRun(o, r);
    NoneActive(At(o, r).workers, |o|);
  }

  /** No interleaving gets stuck before the function has returned. */
  lemma NoDeadlock<T>(o: seq<Outcome<T>>, r: Run) returns (t: Step)
    requires Legal(o, r) && !At(o, r).caller.Returned?
    ensures Legal(o, Then(r, t))
  {
    InvariantRun(o, r);
    var s := At(o, r);
    NoneActive(s.workers, |o|);
    match s.caller
    case Spawning(k) => t := if k < |o| then Spawn else SpawnsDone;
    case Closing => t := Close;
    case Awaiting => t := if s.done then Return else if s.collector.Holding? then Append else End;
    case Waiting =>
      if s.wg == 0 {
        t := WaitReturns;
      } else {
        var w: nat :| w < |o| && Active(s.workers[w]);
        t := if s.workers[w].Listing? then List(w)
             else if s.workers[w].Finishing? then Done(w)
             else if s.collector.Holding? then Append
             else Send(w);
      }
  }

  // ----- termination -----

  function WorkerRank(w: Worker): nat {
    match w
    case Unborn => 4
    case Listing => 3
    case Sending => 2
    case Finishing => 1
    case Finished => 0
  }

  function RankSum(ws: seq<Worker>, k: nat): nat
    requires k <= |ws|
  {
    if k == 0 then 0 else RankSum(ws, k - 1) + WorkerRank(ws[k - 1])
  }

  function Measure<T>(s: State<T>): int {
    2 * RankSum(s.workers, |s.workers|)
    + (match s.caller
       case Spawning(k) => |s.workers| - k + 4
       case Waiting => 3
       case Closing => 2
       case Awaiting => 1
       case Returned => 0)
    + (match s.collector
       case Holding(_) => 2
       case Receiving => 1
       case Ended => 0)
  }

  lemma {:induction false} RankUpdate(ws: seq<Worker>, i: nat, w: Worker, k: nat)
    requires i < |ws| && k <= |ws|
    ensures RankSum(ws[i := w], k) == RankSum(ws, k) + if i < k then WorkerRank(w) - WorkerRank(ws[i]) else 0
  {
    if k == 0 {
    } else {
      RankUpdate(ws, i, w, k - 1);
    }
  }

  lemma {:induction false} UnbornRank(ws: seq<Worker>, k: nat)
    requires k <= |ws| && forall i :: 0 <= i < |ws| ==> ws[i].Unborn?
    ensures RankSum(ws, k) == 4 * k
  {
    if k == 0 {
    } else {
      UnbornRank(ws, k - 1);
    }
  }

  lemma StepDecreases<T>(o: seq<Outcome<T>>, s: State<T>, t: Step)
    requires Control(o, s) && Conserved(o, s) && Enabled(o, s, t)
    ensures 0 <= Measure(Apply(o, s, t)) < Measure(s)
  {
    ControlStep(o, s, t);
    var m := Moved(o, s, t);
    if m.Some? {
      RankUpdate(s.workers, m.value.0, m.value.1, |o|);
    }
  }

  /** Every run is finite: at most nine steps a resource and five more. Together with NoDeadlock,
      every maximal run returns. */
  lemma {:induction false} RunsTerminate<T>(o: seq<Outcome<T>>, r: Run)
    requires Legal(o, r)
    ensures Length(r) + Measure(At(o, r)) <= 9 * |o| + 5
    ensures 0 <= Measure(At(o, r))
  {
    match r
    case Begin => UnbornRank(Init(o).workers, |o|);
    case Then(q, t) =>
      RunsTerminate(o, q);
      InvariantRun(o, q);
      StepDecreases(o, At(o, q), t);
  }

  // ----- the result -----

  ghost function AllItems<T>(o: seq<Outcome<T>>, k: nat): multiset<T>
    requires k <= |o|
  {
    if k == 0 then multiset{}
    else AllItems(o, k - 1) + if o[k - 1].Listed? then multiset(o[k - 1].items) else multiset{}
  }

  lemma {:induction false} AllFinishedDelivered<T>(o: seq<Outcome<T>>, ws: seq<Worker>, k: nat)
    requires k <= |o| == |ws| && forall i :: 0 <= i < |ws| ==> ws[i].Finished?
    ensures Delivered(o, ws, k) == AllItems(o, k)
  {
    if k == 0 {
    } else {
      AllFinishedDelivered(o, ws, k - 1);
    }
  }

  /** The error a run holds: that of the last listing that failed, not of the first. */
  ghost function LastFailure<T>(o: seq<Outcome<T>>, r: Run): Option<nat> {
    match r
    case Begin => None
    case Then(q, t) => if t.List? && t.w < |o| && o[t.w].Failed? then Some(t.w) else LastFailure(o, q)
  }

  lemma ErrorStep<T>(o: seq<Outcome<T>>, s: State<T>, t: Step)
    requires |s.workers| == |o| && Enabled(o, s, t)
    ensures Apply(o, s, t).err == if t.List? && o[t.w].Failed? then Some(t.w) else s.err
  {
  }

  lemma {:induction false} ErrorIsLastFailure<T>(o: seq<Outcome<T>>, r: Run)
    requires Legal(o, r)
    ensures At(o, r).err == LastFailure(o, r)
  {
    match r
    case Begin =>
    case Then(q, t) =>
      ErrorIsLastFailure(o, q);
      ErrorStep(o, At(o, q), t);
  }

  /** The error the comment promises: that of the first listing that failed. */
  ghost function FirstFailure<T>(o: seq<Outcome<T>>, r: Run): Option<nat> {
    match r
    case Begin => None
    case Then(q, t) =>
      if FirstFailure(o, q).None? && t.List? && t.w < |o| && o[t.w].Failed? then Some(t.w) else FirstFailure(o, q)
  }

  ghost predicate AtMostOneFails<T>(o: seq<Outcome<T>>) {
    forall i, j :: 0 <= i < j < |o| ==> !(o[i].Failed? && o[j].Failed?)
  }

  lemma {:induction false} OneFailureIsFirst<T>(o: seq<Outcome<T>>, r: Run)
    requires AtMostOneFails(o)
    ensures FirstFailure(o, r) == LastFailure(o, r)
    ensures LastFailure(o, r).Some? ==> LastFailure(o, r).value < |o| && o[LastFailure(o, r).value].Failed?
  {
    match r
    case Begin =>
    case Then(q, _) => OneFailureIsFirst(o, q);
  }

  /** The run that has started the first k workers and done nothing else. */
  function SpawnRun(k: nat): Run {
    if k == 0 then Begin else Then(SpawnRun(k - 1), Spawn)
  }

  lemma {:induction false} SpawnRunFacts<T>(o: seq<Outcome<T>>, k: nat)
    requires k <= |o| && o != []
    ensures Legal(o, SpawnRun(k)) && FirstFailure(o, SpawnRun(k)).None?
    ensures |At(o, SpawnRun(k)).workers| == |o| && At(o, SpawnRun(k)).caller == Spawning(k)
    ensures forall i :: 0 <= i < k ==> At(o, SpawnRun(k)).workers[i].Listing?
  {
    if k == 0 {
      assert SpawnRun(k) == Begin;
    } else {
      SpawnRunFacts(o, k - 1);
    }
  }

  /** The first failure was that of worker i, and another one has overwritten it for good. */
  ghost predicate Overwritten<T>(o: seq<Outcome<T>>, r: Run, i: nat) {
    var s := At(o, r);
    && Legal(o, r) && FirstFailure(o, r) == Some(i)
    && i < |o| == |s.workers| && Past(s.workers[i])
    && s.err.Some? && s.err.value != i
  }

  lemma OverwrittenStep<T>(o: seq<Outcome<T>>, r: Run, i: nat, t: Step)
    requires Overwritten(o, r, i) && Legal(o, Then(r, t))
    ensures Overwritten(o, Then(r, t), i)
  {
    InvariantRun(o, r);
  }

  /** Every run that far goes on to a return. */
  lemma {:induction false} ReturnsOverwritten<T>(o: seq<Outcome<T>>, r: Run, i: nat) returns (r': Run)
    requires Overwritten(o, r, i)
    ensures Overwritten(o, r', i) && At(o, r').caller.Returned?
    decreases Measure(At(o, r))
  {
    if At(o, r).caller.Returned? {
      r' := r;
    } else {
      var t := NoDeadlock(o, r);
      OverwrittenStep(o, r, i, t);
      InvariantRun(o, r);
      StepDecreases(o, At(o, r), t);
      r' := ReturnsOverwritten(o, Then(r, t), i);
    }
  }

  /** With two lists that fail, some interleaving returns another error than the first one. */
  lemma TwoFailuresOverwrite<T>(o: seq<Outcome<T>>, i: nat, j: nat) returns (r: Run)
    requires i < j < |o| && o[i].Failed? && o[j].Failed?
    ensures Legal(o, r) && At(o, r).caller.Returned? && At(o, r).err != FirstFailure(o, r)
  {
    var started := SpawnRun(j + 1);
    SpawnRunFacts(o, j + 1);
    var failedOnce := Then(started, List(i));
    var failedTwice := Then(failedOnce, List(j));
    assert At(o, started).workers[i].Listing? && At(o, started).workers[j].Listing?;
    assert Legal(o, failedOnce) && At(o, failedOnce).workers[j].Listing?;
    assert Legal(o, failedTwice);
    r := ReturnsOverwritten(o, failedTwice, i);
  }

  /** When the call returns the first error in every interleaving, as its comment promises, exactly:
      if and only if no two of the lists fail. */
  lemma FirstErrorReturnedIff<T>(o: seq<Outcome<T>>)
    ensures (forall r :: Legal(o, r) && At(o, r).caller.Returned? ==> At(o, r).err == FirstFailure(o, r))
       <==> AtMostOneFails(o)
  {
    if AtMostOneFails(o) {
      forall r | Legal(o, r) && At(o, r).caller.Returned? ensures At(o, r).err == FirstFailure(o, r) {
        OneFailureIsFirst(o, r);
        ErrorIsLastFailure(o, r);
      }
    } else {
      var i, j :| 0 <= i < j < |o| && o[i].Failed? && o[j].Failed?;
      var r := TwoFailuresOverwrite(o, i, j);
    }
  }

  /** However the goroutines interleave, a returned call has collected every successful list exactly
      once, and reports an error exactly if some list failed: the one that failed last. */
  lemma ReturnedResult<T>(o: seq<Outcome<T>>, r: Run)
    requires Legal(o, r) && At(o, r).caller.Returned?
    ensures multiset(At(o, r).out) == AllItems(o, |o|)
    ensures At(o, r).err.Some? <==> exists i :: 0 <= i < |o| && o[i].Failed?
    ensures At(o, r).err == LastFailure(o, r)
  {
    InvariantRun(o, r);
    NoneActive(At(o, r).workers, |o|);
    AllFinishedDelivered(o, At(o, r).workers, |o|);
    ErrorIsLastFailure(o, r);
  }

  lemma {:induction false} AllItemsMember<T>(o: seq<Outcome<T>>, k: nat, x: T)
    requires k <= |o|
    ensures x in AllItems(o, k) <==> exists i :: 0 <= i < k && o[i].Listed? && x in o[i].items
  {
    if k == 0 {
    } else {
      AllItemsMember(o, k - 1, x);
      assert o[k - 1].Listed? ==> (x in o[k - 1].items <==> x in multiset(o[k - 1].items));
    }
  }

  /** Which objects a returned call holds: those of the successful lists, in whatever interleaving. */
  lemma ReturnedMembers<T>(o: seq<Outcome<T>>, r: Run, x: T)
    requires Legal(o, r) && At(o, r).caller.Returned?
    ensures x in At(o, r).out <==> exists i :: 0 <= i < |o| && o[i].Listed? && x in o[i].items
  {
    ReturnedResult(o, r);
    AllItemsMember(o, |o|, x);
    assert x in At(o, r).out <==> x in multiset(At(o, r).out);
  }
}
