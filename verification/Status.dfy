/**
 Health statuses and the tree of object statuses that analyzers build.
 */
module Status {

  // In increasing order: aggregation takes the largest.
  datatype Result = Unknown | Ok | Warning | Error

  function Rank(r: Result): nat {
    match r
    case Unknown => 0
    case Ok => 1
    case Warning => 2
    case Error => 3
  }

  function Worse(a: Result, b: Result): Result {
    if Rank(b) > Rank(a) then b else a
  }

  datatype Status = Status(result: Result, progressing: bool)

  predicate AtMost(a: Status, b: Status) {
    Rank(a.result) <= Rank(b.result) && (a.progressing ==> b.progressing)
  }

  datatype Subject = Subject(uid: string, ns: string, kind: string, name: string)

  datatype Condition = Condition(condType: string, st: Status)

  datatype ObjectStatus = ObjectStatus(
    subject: Subject,
    st: Status,
    subs: seq<ObjectStatus>,
    conditions: seq<Condition>
  )

  // ----- trees -----

  function Size(t: ObjectStatus): nat
    decreases t
  {
    1 + SizeAll(t.subs)
  }

  function SizeAll(ts: seq<ObjectStatus>): nat
    decreases ts
  {
    if ts == [] then 0 else Size(ts[0]) + SizeAll(ts[1..])
  }

  function Height(t: ObjectStatus): nat
    decreases t
  {
    1 + HeightAll(t.subs)
  }

  function HeightAll(ts: seq<ObjectStatus>): nat
    decreases ts
  {
    if ts == [] then 0
    else if Height(ts[0]) > HeightAll(ts[1..]) then Height(ts[0])
    else HeightAll(ts[1..])
  }

  /** All nodes of a forest, the roots included. */
  ghost function Nodes(ts: seq<ObjectStatus>): set<ObjectStatus>
    decreases ts
  {
    if ts == [] then {} else {ts[0]} + Nodes(ts[0].subs) + Nodes(ts[1..])
  }

  ghost function Uids(ts: seq<ObjectStatus>): set<string> {
    set d | d in Nodes(ts) :: d.subject.uid
  }

  lemma {:induction false} NodesConcat(a: seq<ObjectStatus>, b: seq<ObjectStatus>)
    ensures Nodes(a + b) == Nodes(a) + Nodes(b)
    ensures SizeAll(a + b) == SizeAll(a) + SizeAll(b)
  {
    if a == [] {
      assert a + b == b;
    } else {
      assert (a + b)[1..] == a[1..] + b;
      NodesConcat(a[1..], b);
    }
  }

  lemma {:induction false} NodeOfRoot(ts: seq<ObjectStatus>, t: ObjectStatus)
    requires t in ts
    ensures t in Nodes(ts) && Nodes(t.subs) <= Nodes(ts) && Size(t) <= SizeAll(ts) && Height(t) <= HeightAll(ts)
  {
    if t == ts[0] {
    } else {
      NodeOfRoot(ts[1..], t);
    }
  }

  /** A node's own subtree is part of the forest, and neither larger nor higher. */
  lemma {:induction false} NodeBelow(ts: seq<ObjectStatus>, d: ObjectStatus)
    requires d in Nodes(ts)
    ensures Nodes(d.subs) <= Nodes(ts) && Size(d) <= SizeAll(ts) && Height(d) <= HeightAll(ts)
    decreases ts
  {
    if d == ts[0] {
    } else if d in Nodes(ts[0].subs) {
      NodeBelow(ts[0].subs, d);
    } else {
      NodeBelow(ts[1..], d);
    }
  }

  /** Every node hangs under, or is, one of the roots. */
  lemma {:induction false} RootAbove(ts: seq<ObjectStatus>, d: ObjectStatus) returns (t: ObjectStatus)
    requires d in Nodes(ts)
    ensures t in ts && (d == t || d in Nodes(t.subs))
  {
    if d == ts[0] || d in Nodes(ts[0].subs) {
      t := ts[0];
    } else {
      t := RootAbove(ts[1..], d);
    }
  }
}
