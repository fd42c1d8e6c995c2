/**
 Deduplication of the monitor's targets: a root that also shows up below some root is dropped.
 */
module Dedup {
  import opened Base
  import opened Status

  datatype TargetStatuses = TargetStatuses(target: string, statuses: seq<ObjectStatus>)

  // ----- the UIDs below an object -----

  lemma UidsConcat(a: seq<ObjectStatus>, b: seq<ObjectStatus>)
    ensures Uids(a + b) == Uids(a) + Uids(b)
    ensures SizeAll(a + b) == SizeAll(a) + SizeAll(b)
  {
    NodesConcat(a, b);
  }

  lemma PopFront(ts: seq<ObjectStatus>, i: nat)
    requires i < |ts|
    ensures Uids(ts[i..]) == {ts[i].subject.uid} + Uids(ts[i].subs) + Uids(ts[i + 1..])
    ensures SizeAll(ts[i..]) == 1 + SizeAll(ts[i].subs) + SizeAll(ts[i + 1..])
  {
    assert ts[i..][1..] == ts[i + 1..];
    assert Nodes(ts[i..]) == {ts[i]} + Nodes(ts[i].subs) + Nodes(ts[i + 1..]);
  }

  lemma NoUids()
    ensures Uids([]) == {} && SizeAll([]) == 0
  {
  }

  lemma NoElems()
    ensures Elems<string>([]) == {}
  {
  }

  lemma OneElem(id: string)
    ensures Elems([id]) == {id}
  {
  }

  /** Level by level, the UID of every object below the given one, as many as there are objects. */
  method SubObjectsIDs(obj: ObjectStatus) returns (ids: seq<string>)
    ensures Elems(ids) == Uids(obj.subs) && |ids| == SizeAll(obj.subs)
  {
    hide Uids, SizeAll, Elems;
    ids := [];
    var frontier := obj.subs;
    NoUids();
    NoElems();
    while |frontier| > 0
      invariant Elems(ids) + Uids(frontier) == Uids(obj.subs)
      invariant |ids| + SizeAll(frontier) == SizeAll(obj.subs)
      decreases SizeAll(frontier)
    {
      var next: seq<ObjectStatus> := [];
      assert frontier[0..] == frontier;
      for i := 0 to |frontier|
        invariant Elems(ids) + Uids(next) + Uids(frontier[i..]) == Uids(obj.subs)
        invariant |ids| + SizeAll(next) + SizeAll(frontier[i..]) == SizeAll(obj.subs)
        invariant SizeAll(next) + SizeAll(frontier[i..]) + i == SizeAll(frontier)
      {
        var sub := frontier[i];
        PopFront(frontier, i);
        UidsConcat(next, sub.subs);
        ElemsConcat(ids, [sub.subject.uid]);
        OneElem(sub.subject.uid);
        ids := ids + [sub.subject.uid];
        next := next + sub.subs;
      }
      assert frontier[|frontier|..] == [];
      frontier := next;
    }
    assert frontier == [];
  }

  // ----- dedup -----

  function Roots(update: seq<TargetStatuses>): seq<ObjectStatus> {
    if update == [] then [] else Roots(update[..|update| - 1]) + update[|update| - 1].statuses
  }

  /** The UIDs of everything that occurs strictly below some root. */
  ghost function SeenBelow(roots: seq<ObjectStatus>): set<string> {
    set r, d | r in roots && d in Nodes(r.subs) :: d.subject.uid
  }

  function Keep(statuses: seq<ObjectStatus>, seen: set<string>): seq<ObjectStatus> {
    if statuses == [] then []
    else
      var last := statuses[|statuses| - 1];
      Keep(statuses[..|statuses| - 1], seen) + if last.subject.uid !in seen then [last] else []
  }

  /** The roots that remain, over all targets. */
  ghost function Kept(roots: seq<ObjectStatus>): seq<ObjectStatus> {
    Keep(roots, SeenBelow(roots))
  }

  /** Every target stays, with the roots that occur below no root, in their order. */
  ghost function Deduped(update: seq<TargetStatuses>): seq<TargetStatuses> {
    seq(|update|, i requires 0 <= i < |update| =>
      TargetStatuses(update[i].target, Keep(update[i].statuses, SeenBelow(Roots(update)))))
  }

  /** Every target keeps its name and its place; of its roots stay exactly those that occur, by their UID,
      below no root of any target, in their order. */
  lemma DedupedMeans(update: seq<TargetStatuses>, i: nat)
    requires i < |update|
    ensures |Deduped(update)| == |update| && Deduped(update)[i].target == update[i].target
    ensures forall r :: r in Deduped(update)[i].statuses <==>
                        && r in update[i].statuses
                        && !exists top, d :: top in Roots(update) && d in Nodes(top.subs)
                                             && d.subject.uid == r.subject.uid
    ensures KeptInOrder(update[i].statuses, Deduped(update)[i].statuses)
  {
    KeepFacts(update[i].statuses, SeenBelow(Roots(update)));
    KeepsOrder(update[i].statuses, SeenBelow(Roots(update)));
  }

  /** Left over from a sequence, in its order. */
  ghost predicate KeptInOrder(all: seq<ObjectStatus>, left: seq<ObjectStatus>) {
    if left == [] then true
    else
      var n, m := |all| - 1, |left| - 1;
      all != [] && ((all[n] == left[m] && KeptInOrder(all[..n], left[..m])) || KeptInOrder(all[..n], left))
  }

  lemma {:induction false} KeepsOrder(all: seq<ObjectStatus>, seen: set<string>)
    ensures KeptInOrder(all, Keep(all, seen))
  {
    if all == [] {
    } else {
      var init, last := all[..|all| - 1], all[|all| - 1];
      KeepsOrder(init, seen);
      var kept := Keep(all, seen);
      if last.subject.uid !in seen {
        assert kept[..|kept| - 1] == Keep(init, seen);
      } else {
        assert kept == Keep(init, seen);
      }
    }
  }

  /** Over all targets together that is the deduplicated forest. */
  method Dedup(update: seq<TargetStatuses>) returns (out: seq<TargetStatuses>)
    ensures out == Deduped(update)
    ensures Roots(out) == Kept(Roots(update))
  {
    var seen := CollectSeen(update);
    out := [];
    for i := 0 to |update|
      invariant out == Deduped(update)[..i]
    {
      var statuses: seq<ObjectStatus> := [];
      var all := update[i].statuses;
      for j := 0 to |all|
        invariant statuses == Keep(all[..j], seen)
      {
        assert all[..j + 1][..j] == all[..j];
        if all[j].subject.uid !in seen {
          statuses := statuses + [all[j]];
        }
      }
      assert all[..|all|] == all;
      out := out + [TargetStatuses(update[i].target, statuses)];
    }
    RootsKept(update, out, seen);
  }

  lemma {:induction false} KeepConcat(a: seq<ObjectStatus>, b: seq<ObjectStatus>, seen: set<string>)
    ensures Keep(a + b, seen) == Keep(a, seen) + Keep(b, seen)
  {
    if b == [] {
      assert a + b == a;
    } else {
      KeepConcat(a, b[..|b| - 1], seen);
      assert (a + b)[..|a + b| - 1] == a + b[..|b| - 1];
    }
  }

  lemma {:induction false} RootsKept(update: seq<TargetStatuses>, out: seq<TargetStatuses>, seen: set<string>)
    requires |out| == |update| && forall i :: 0 <= i < |update| ==> out[i].statuses == Keep(update[i].statuses, seen)
    ensures Roots(out) == Keep(Roots(update), seen)
  {
    if update == [] {
    } else {
      var n := |update| - 1;
      RootsKept(update[..n], out[..n], seen);
      KeepConcat(Roots(update[..n]), update[n].statuses, seen);
    }
  }

  method CollectSeen(update: seq<TargetStatuses>) returns (seen: set<string>)
    ensures seen == SeenBelow(Roots(update))
  {
    hide SeenBelow;
    seen := {};
    NothingSeen();
    for i := 0 to |update|
      invariant seen == SeenBelow(Roots(update[..i]))
    {
      assert update[..i + 1][..i] == update[..i];
      seen := AddSeen(update[i].statuses, seen, Roots(update[..i]));
    }
    assert update[..|update|] == update;
  }

  method AddSeen(statuses: seq<ObjectStatus>, seen: set<string>, ghost before: seq<ObjectStatus>)
    returns (seen': set<string>)
    requires seen == SeenBelow(before)
    ensures seen' == SeenBelow(before + statuses)
  {
    hide SeenBelow;
    seen' := seen;
    assert before + statuses[..0] == before;
    for j := 0 to |statuses|
      invariant seen' == SeenBelow(before + statuses[..j])
    {
      var ids := SubObjectsIDs(statuses[j]);
      SeenBelowSnoc(before + statuses[..j], statuses[j]);
      assert before + statuses[..j + 1] == before + statuses[..j] + [statuses[j]];
      seen' := seen' + set id | id in ids;
    }
    assert statuses[..|statuses|] == statuses;
  }

  lemma NothingSeen()
    ensures SeenBelow([]) == {}
  {
  }

  lemma SeenBelowSnoc(roots: seq<ObjectStatus>, r: ObjectStatus)
    ensures SeenBelow(roots + [r]) == SeenBelow(roots) + Uids(r.subs)
  {
    assert forall x :: x in roots + [r] <==> x in roots || x == r;
  }

  // ----- what it keeps -----

  lemma {:induction false} KeepFacts(statuses: seq<ObjectStatus>, seen: set<string>)
    ensures forall r :: r in Keep(statuses, seen) <==> r in statuses && r.subject.uid !in seen
  {
    if statuses == [] {
    } else {
      var init := statuses[..|statuses| - 1];
      assert statuses == init + [statuses[|statuses| - 1]];
      KeepFacts(init, seen);
    }
  }

  /** No kept root occurs strictly below any root of the input. */
  lemma NoKeptRootBelow(roots: seq<ObjectStatus>, k: ObjectStatus, r: ObjectStatus, d: ObjectStatus)
    requires k in Kept(roots) && r in roots && d in Nodes(r.subs)
    ensures d.subject.uid != k.subject.uid
  {
    KeepFacts(roots, SeenBelow(roots));
    assert d.subject.uid in SeenBelow(roots);
  }

  /** Filtering a second time with fewer seen UIDs drops nothing more. */
  lemma {:induction false} KeepAgain(statuses: seq<ObjectStatus>, seen: set<string>, seen': set<string>)
    requires seen' <= seen
    ensures Keep(Keep(statuses, seen), seen') == Keep(statuses, seen)
  {
    if statuses == [] {
    } else {
      var init, last := statuses[..|statuses| - 1], statuses[|statuses| - 1];
      KeepAgain(init, seen, seen');
      var kept := Keep(statuses, seen);
      if last.subject.uid !in seen {
        assert kept[..|kept| - 1] == Keep(init, seen);
      } else {
        assert kept == Keep(init, seen);
      }
    }
  }

  /** Deduplicating the targets that come out changes nothing, whatever the trees look like. */
  lemma DedupIdempotent(update: seq<TargetStatuses>)
    ensures Deduped(Deduped(update)) == Deduped(update)
  {
    var roots, out := Roots(update), Deduped(update);
    var seen := SeenBelow(roots);
    RootsKept(update, out, seen);
    KeepFacts(roots, seen);
    assert SeenBelow(Roots(out)) <= seen by {
      forall u | u in SeenBelow(Roots(out)) ensures u in seen {
        var r, d :| r in Roots(out) && d in Nodes(r.subs) && d.subject.uid == u;
        assert r in roots;
      }
    }
    forall i | 0 <= i < |update| ensures Deduped(out)[i] == out[i] {
      KeepAgain(update[i].statuses, seen, SeenBelow(Roots(out)));
    }
  }

  // ----- what it loses -----

  /** Wherever a root's UID occurs below a root, at least the root's own objects hang there,
      in a tree at least as high. */
  ghost predicate Consistent(roots: seq<ObjectStatus>) {
    forall r, top, d :: r in roots && top in roots && d in Nodes(top.subs) && d.subject.uid == r.subject.uid ==>
                          Uids([r]) <= Uids([d]) && Height(r) <= Height(d)
  }

  /** A chain of ever higher trees leads from a dropped root to a kept one that still shows its objects. */
  lemma {:induction false} StillShown(roots: seq<ObjectStatus>, r: ObjectStatus, u: string) returns (k: ObjectStatus)
    requires Consistent(roots) && r in roots && u in Uids([r])
    ensures k in Kept(roots) && u in Uids([k])
    decreases HeightAll(roots) - Height(r)
  {
    KeepFacts(roots, SeenBelow(roots));
    if r.subject.uid !in SeenBelow(roots) {
      k := r;
    } else {
      var top, d :| top in roots && d in Nodes(top.subs) && d.subject.uid == r.subject.uid;
      NodeBelow(top.subs, d);
      UidsOfNode(top, d);
      NodeOfRoot(roots, top);
      k := StillShown(roots, top, u);
    }
  }

  lemma UidsOfNode(t: ObjectStatus, d: ObjectStatus)
    requires d in Nodes(t.subs)
    ensures Uids([d]) <= Uids([t])
  {
    NodeBelow(t.subs, d);
    assert Nodes([d]) == {d} + Nodes(d.subs);
    assert Nodes([t]) == {t} + Nodes(t.subs);
  }

  /** No object disappears from the monitor, however roots repeat each other's objects. */
  lemma DedupLosesNoObject(roots: seq<ObjectStatus>)
    requires Consistent(roots)
    ensures Uids(Kept(roots)) == Uids(roots)
  {
    KeepFacts(roots, SeenBelow(roots));
    forall u | u in Uids(roots) ensures u in Uids(Kept(roots)) {
      var d :| d in Nodes(roots) && d.subject.uid == u;
      var r := RootAbove(roots, d);
      assert Nodes([r]) == {r} + Nodes(r.subs);
      assert u in Uids([r]);
      var k := StillShown(roots, r, u);
      var d' :| d' in Nodes([k]) && d'.subject.uid == u;
      assert Nodes([k]) == {k} + Nodes(k.subs);
      NodeOfRoot(Kept(roots), k);
    }
    forall u | u in Uids(Kept(roots)) ensures u in Uids(roots) {
      var d :| d in Nodes(Kept(roots)) && d.subject.uid == u;
      var r := RootAbove(Kept(roots), d);
      NodeOfRoot(roots, r);
    }
  }

  /** Without that, two roots that each show the other can make each other, and everything, vanish. */
  lemma DedupCanLoseAll(a: Subject, b: Subject, st: Status)
    requires a.uid != b.uid
    ensures var roots := [ObjectStatus(a, st, [ObjectStatus(b, st, [], [])], []),
                          ObjectStatus(b, st, [ObjectStatus(a, st, [], [])], [])];
            Kept(roots) == []
  {
    var leafA, leafB := ObjectStatus(a, st, [], []), ObjectStatus(b, st, [], []);
    var rootA, rootB := ObjectStatus(a, st, [leafB], []), ObjectStatus(b, st, [leafA], []);
    var roots := [rootA, rootB];
    KeepFacts(roots, SeenBelow(roots));
    assert leafB in Nodes(rootA.subs) && leafA in Nodes(rootB.subs);
    assert rootA in roots && rootB in roots;
    assert a.uid in SeenBelow(roots) && b.uid in SeenBelow(roots);
    FirstIsMember(Kept(roots));
  }

  lemma FirstIsMember<T>(s: seq<T>)
    ensures s != [] ==> s[0] in s
  {
  }
}
