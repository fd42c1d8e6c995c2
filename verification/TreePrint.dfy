/**
 Which objects of a status forest get their line printed, and in which order.
 */
module TreePrint {
  import opened Status
  import Analyze

  datatype PrintOptions = PrintOptions(errorsOnly: bool, showOk: bool)

  /** Warning, Error, or still progressing. */
  predicate Unhealthy(st: Status) {
    Rank(st.result) > Rank(Ok) || st.progressing
  }

  predicate ShouldPrintDetails(o: PrintOptions, t: ObjectStatus) {
    if o.errorsOnly then Unhealthy(t.st) else if o.showOk then true else Unhealthy(t.st)
  }

  // ----- sorting siblings by name -----

  function FullName(t: ObjectStatus): string {
    t.subject.ns + " " + t.subject.kind + " " + t.subject.name
  }

  predicate NotAfter(a: string, b: string) {
    a == [] || (b != [] && (a[0] < b[0] || (a[0] == b[0] && NotAfter(a[1..], b[1..]))))
  }

  lemma {:induction false} NotAfterTotal(a: string, b: string)
    ensures NotAfter(a, b) || NotAfter(b, a)
  {
    if a == [] || b == [] {
    } else {
      NotAfterTotal(a[1..], b[1..]);
    }
  }

  lemma {:induction false} NotAfterTransitive(a: string, b: string, c: string)
    requires NotAfter(a, b) && NotAfter(b, c)
    ensures NotAfter(a, c)
  {
    if a == [] || b == [] || c == [] || !(a[0] == b[0] == c[0]) {
    } else {
      NotAfterTransitive(a[1..], b[1..], c[1..]);
    }
  }

  ghost predicate Sorted(ts: seq<ObjectStatus>) {
    forall i, j :: 0 <= i < j < |ts| ==> NotAfter(FullName(ts[i]), FullName(ts[j]))
  }

  ghost predicate Least(ts: seq<ObjectStatus>, k: int) {
    0 <= k < |ts| && forall i :: 0 <= i < |ts| ==> NotAfter(FullName(ts[k]), FullName(ts[i]))
  }

  method FindLeast(ts: seq<ObjectStatus>) returns (k: nat)
    requires ts != []
    ensures Least(ts, k)
  {
    hide FullName;
    k := 0;
    NotAfterTotal(FullName(ts[0]), FullName(ts[0]));
    for i := 1 to |ts|
      invariant k < i && forall j :: 0 <= j < i ==> NotAfter(FullName(ts[k]), FullName(ts[j]))
    {
      NotAfterTotal(FullName(ts[k]), FullName(ts[i]));
      NotAfterTotal(FullName(ts[i]), FullName(ts[i]));
      if !NotAfter(FullName(ts[k]), FullName(ts[i])) {
        forall j | 0 <= j < i ensures NotAfter(FullName(ts[i]), FullName(ts[j])) {
          NotAfterTransitive(FullName(ts[i]), FullName(ts[k]), FullName(ts[j]));
        }
        k := i;
      }
    }
  }

  function Removed(ts: seq<ObjectStatus>, k: nat): seq<ObjectStatus>
    requires k < |ts|
  {
    ts[..k] + ts[k + 1..]
  }

  lemma RemovedBag(ts: seq<ObjectStatus>, k: nat)
    requires k < |ts|
    ensures multiset(ts) == multiset(Removed(ts, k)) + multiset{ts[k]}
  {
    assert ts == ts[..k] + [ts[k]] + ts[k + 1..];
    assert multiset(ts) == multiset(ts[..k]) + multiset{ts[k]} + multiset(ts[k + 1..]);
  }

  method SortObjects(ts: seq<ObjectStatus>) returns (sorted: seq<ObjectStatus>)
    ensures multiset(sorted) == multiset(ts) && Sorted(sorted)
  {
    sorted := [];
    var rest := ts;
    while rest != []
      invariant multiset(sorted) + multiset(rest) == multiset(ts)
      invariant Sorted(sorted)
      invariant forall i, j :: 0 <= i < |sorted| && 0 <= j < |rest| ==> NotAfter(FullName(sorted[i]), FullName(rest[j]))
      decreases |rest|
    {
      hide FullName, NotAfter;
      var k := FindLeast(rest);
      RemovedBag(rest, k);
      sorted := sorted + [rest[k]];
      rest := Removed(rest, k);
    }
  }

  // ----- what is printed -----

  /** How often x gets its line in the part of the forest that is descended into. */
  ghost function Shown(o: PrintOptions, ts: seq<ObjectStatus>, x: ObjectStatus): nat
    decreases ts
  {
    if ts == [] then 0
    else
      var t := ts[0];
      (if t == x then 1 else 0) + (if ShouldPrintDetails(o, t) then Shown(o, t.subs, x) else 0) + Shown(o, ts[1..], x)
  }

  /** How often x occurs in the forest. */
  ghost function Occurs(ts: seq<ObjectStatus>, x: ObjectStatus): nat
    decreases ts
  {
    if ts == [] then 0 else (if ts[0] == x then 1 else 0) + Occurs(ts[0].subs, x) + Occurs(ts[1..], x)
  }

  ghost function ShownOne(o: PrintOptions, t: ObjectStatus, x: ObjectStatus): nat {
    (if t == x then 1 else 0) + if ShouldPrintDetails(o, t) then Shown(o, t.subs, x) else 0
  }

  lemma {:induction false} ShownConcat(o: PrintOptions, a: seq<ObjectStatus>, b: seq<ObjectStatus>, x: ObjectStatus)
    ensures Shown(o, a + b, x) == Shown(o, a, x) + Shown(o, b, x)
  {
    if a == [] {
      assert a + b == b;
    } else {
      ShownConcat(o, a[1..], b, x);
      assert (a + b)[1..] == a[1..] + b;
    }
  }

  lemma ShownRemoved(o: PrintOptions, ts: seq<ObjectStatus>, k: nat, x: ObjectStatus)
    requires k < |ts|
    ensures Shown(o, ts, x) == Shown(o, Removed(ts, k), x) + ShownOne(o, ts[k], x)
  {
    assert ts == ts[..k] + ts[k..];
    ShownConcat(o, ts[..k], ts[k..], x);
    assert ts[k..][1..] == ts[k + 1..];
    ShownConcat(o, ts[..k], ts[k + 1..], x);
  }

  lemma CancelBag<T>(a: multiset<T>, b: multiset<T>, c: multiset<T>)
    requires a + c == b + c
    ensures a == b
  {
    assert a == (a + c) - c;
    assert b == (b + c) - c;
  }

  /** Sorting siblings does not change what is shown. */
  lemma {:induction false} ShownPermuted(o: PrintOptions, ts: seq<ObjectStatus>, ts': seq<ObjectStatus>,
                                         x: ObjectStatus)
    requires multiset(ts) == multiset(ts')
    ensures Shown(o, ts, x) == Shown(o, ts', x)
    decreases |ts|
  {
    if ts == [] {
      assert |multiset(ts')| == 0;
    } else {
      assert ts[0] in multiset(ts');
      var k :| 0 <= k < |ts'| && ts'[k] == ts[0];
      RemovedBag(ts', k);
      RemovedBag(ts, 0);
      assert Removed(ts, 0) == ts[1..];
      CancelBag(multiset(ts[1..]), multiset(Removed(ts', k)), multiset{ts[0]});
      ShownPermuted(o, ts[1..], Removed(ts', k), x);
      ShownRemoved(o, ts', k, x);
      ShownRemoved(o, ts, 0, x);
    }
  }

  lemma ShownSnoc(o: PrintOptions, ts: seq<ObjectStatus>, i: nat, x: ObjectStatus)
    requires i < |ts|
    ensures Shown(o, ts[..i + 1], x) == Shown(o, ts[..i], x) + ShownOne(o, ts[i], x)
  {
    ShownRemoved(o, ts[..i + 1], i, x);
    assert Removed(ts[..i + 1], i) == ts[..i];
  }

  /** A printed part of the tree: an object that got its line, and what was printed below it. */
  datatype Layout = Layout(node: ObjectStatus, below: seq<Layout>)

  ghost function Tops(ls: seq<Layout>): seq<ObjectStatus> {
    seq(|ls|, i requires 0 <= i < |ls| => ls[i].node)
  }

  /** Each object followed by everything printed below it, then its next sibling. */
  ghost function Preorder(ls: seq<Layout>): seq<ObjectStatus>
    decreases ls
  {
    if ls == [] then []
    else
      var last := ls[|ls| - 1];
      Preorder(ls[..|ls| - 1]) + [last.node] + Preorder(last.below)
  }

  /** All the siblings in the order of their names, and so on down. */
  ghost predicate Arranged(o: PrintOptions, ts: seq<ObjectStatus>, ls: seq<Layout>)
    decreases ls, 1
  {
    && multiset(Tops(ls)) == multiset(ts)
    && Sorted(Tops(ls))
    && forall i :: 0 <= i < |ls| ==> BelowArranged(o, ls[i])
  }

  /** Below an object come all its sub-objects if its details are to be printed, and nothing if not. */
  ghost predicate BelowArranged(o: PrintOptions, l: Layout)
    decreases l, 0
  {
    if ShouldPrintDetails(o, l.node) then Arranged(o, l.node.subs, l.below) else l.below == []
  }

  lemma PreorderBag(a: seq<ObjectStatus>, t: ObjectStatus, b: seq<ObjectStatus>, x: ObjectStatus)
    ensures multiset(a + [t] + b)[x] == multiset(a)[x] + (if t == x then 1 else 0) + multiset(b)[x]
  {
    assert multiset(a + [t] + b) == multiset(a) + multiset{t} + multiset(b);
  }

  /** The arrangement decides the order of the lines; which lines there are is decided by the options. */
  lemma {:induction false} PreorderShown(o: PrintOptions, ls: seq<Layout>, x: ObjectStatus)
    requires forall i :: 0 <= i < |ls| ==> BelowArranged(o, ls[i])
    ensures multiset(Preorder(ls))[x] == Shown(o, Tops(ls), x)
    decreases ls
  {
    if ls == [] {
      assert Preorder(ls) == [];
    } else {
      var init, last := ls[..|ls| - 1], ls[|ls| - 1];
      PreorderShown(o, init, x);
      PreorderBag(Preorder(init), last.node, Preorder(last.below), x);
      ShownSnoc(o, Tops(ls), |init|, x);
      assert Tops(ls)[..|init|] == Tops(init) && Tops(ls)[..|ls|] == Tops(ls);
      assert BelowArranged(o, last);
      if ShouldPrintDetails(o, last.node) {
        assert Arranged(o, last.node.subs, last.below);
        assert forall i :: 0 <= i < |last.below| ==> BelowArranged(o, last.below[i]);
        PreorderShown(o, last.below, x);
        ShownPermuted(o, Tops(last.below), last.node.subs, x);
      }
    }
  }

  lemma PreorderSnoc(ls: seq<Layout>, l: Layout)
    ensures Preorder(ls + [l]) == Preorder(ls) + [l.node] + Preorder(l.below)
    ensures Tops(ls + [l]) == Tops(ls) + [l.node]
  {
    assert (ls + [l])[..|ls|] == ls;
  }

  /** Siblings in order of their names, each followed by its own sub-objects if its details are shown. */
  ghost predicate IsPrintout(o: PrintOptions, objects: seq<ObjectStatus>, printed: seq<ObjectStatus>) {
    exists layout :: Arranged(o, objects, layout) && printed == Preorder(layout)
  }

  method PrintSubTree(o: PrintOptions, objects: seq<ObjectStatus>) returns (printed: seq<ObjectStatus>)
    ensures IsPrintout(o, objects, printed)
  {
    ghost var layout;
    printed, layout := PrintLevel(o, objects);
  }

  method PrintLevel(o: PrintOptions, objects: seq<ObjectStatus>)
    returns (printed: seq<ObjectStatus>, ghost layout: seq<Layout>)
    ensures Arranged(o, objects, layout) && printed == Preorder(layout)
    decreases SizeAll(objects), 1
  {
    var sorted := SortObjects(objects);
    assert forall t :: t in sorted ==> t in multiset(sorted);
    printed, layout := PrintSorted(o, objects, sorted);
  }

  lemma RootIsLarger(ts: seq<ObjectStatus>, t: ObjectStatus)
    requires t in ts
    ensures SizeAll(t.subs) < SizeAll(ts)
  {
    NodeOfRoot(ts, t);
  }

  method PrintSorted(o: PrintOptions, ghost objects: seq<ObjectStatus>, sorted: seq<ObjectStatus>)
    returns (printed: seq<ObjectStatus>, ghost layout: seq<Layout>)
    requires forall t :: t in sorted ==> t in objects
    ensures Tops(layout) == sorted && printed == Preorder(layout)
    ensures forall l :: l in layout ==> BelowArranged(o, l)
    decreases SizeAll(objects), 0
  {
    printed, layout := [], [];
    for j := 0 to |sorted|
      invariant Tops(layout) == sorted[..j] && printed == Preorder(layout)
      invariant forall l :: l in layout ==> BelowArranged(o, l)
    {
      hide Preorder, Arranged, BelowArranged, SizeAll, ShouldPrintDetails, Tops;
      var obj := sorted[j];
      assert obj in sorted;
      RootIsLarger(objects, obj);
      var below, l := PrintBelow(o, obj);
      PreorderSnoc(layout, l);
      assert sorted[..j + 1] == sorted[..j] + [obj];
      printed, layout := printed + [obj] + below, layout + [l];
    }
    assert sorted[..|sorted|] == sorted;
  }

  method PrintBelow(o: PrintOptions, obj: ObjectStatus) returns (below: seq<ObjectStatus>, ghost l: Layout)
    ensures l.node == obj && BelowArranged(o, l) && below == Preorder(l.below)
    decreases SizeAll(obj.subs), 2
  {
    below, l := [], Layout(obj, []);
    if ShouldPrintDetails(o, obj) {
      ghost var ls;
      below, ls := PrintLevel(o, obj.subs);
      l := Layout(obj, ls);
    }
  }

  // ----- roots -----

  predicate Skipped(o: PrintOptions, t: ObjectStatus) {
    o.errorsOnly && t.st.result == Ok && !t.st.progressing
  }

  function Unskipped(o: PrintOptions, roots: seq<ObjectStatus>): seq<ObjectStatus> {
    if roots == [] then []
    else
      var last := roots[|roots| - 1];
      Unskipped(o, roots[..|roots| - 1]) + if Skipped(o, last) then [] else [last]
  }

  /** How often x gets its line when the forest is printed. */
  ghost function ShownRoots(o: PrintOptions, roots: seq<ObjectStatus>, x: ObjectStatus): nat {
    Shown(o, Unskipped(o, roots), x)
  }

  /** The roots in the order of their names, but for those skipped. */
  ghost predicate RootsArranged(o: PrintOptions, objects: seq<ObjectStatus>, order: seq<ObjectStatus>,
                                ls: seq<Layout>) {
    && multiset(order) == multiset(objects) && Sorted(order)
    && Tops(ls) == Unskipped(o, order)
    && forall i :: 0 <= i < |ls| ==> BelowArranged(o, ls[i])
  }

  /** The printed forest: the roots in order, each followed by its own subtree. */
  ghost predicate IsForestPrintout(o: PrintOptions, objects: seq<ObjectStatus>, printed: seq<ObjectStatus>) {
    exists order, layout :: RootsArranged(o, objects, order, layout) && printed == Preorder(layout)
  }

  /** On monotone forests every unhealthy object gets its line as often as it occurs. */
  lemma PrintoutShowsUnhealthy(o: PrintOptions, objects: seq<ObjectStatus>, printed: seq<ObjectStatus>, x: ObjectStatus)
    requires IsForestPrintout(o, objects, printed) && Unhealthy(x.st)
    requires forall i :: 0 <= i < |objects| ==> Analyze.Monotone(objects[i])
    ensures multiset(printed)[x] == Occurs(objects, x)
  {
    var order, layout :| RootsArranged(o, objects, order, layout) && printed == Preorder(layout);
    PreorderShown(o, layout, x);
    UnhealthyOfPermuted(o, objects, order, x);
  }

  method PrintStatuses(o: PrintOptions, objects: seq<ObjectStatus>) returns (printed: seq<ObjectStatus>)
    ensures IsForestPrintout(o, objects, printed)
    ensures (forall i :: 0 <= i < |objects| ==> Analyze.Monotone(objects[i])) ==>
              forall x: ObjectStatus :: Unhealthy(x.st) ==> multiset(printed)[x] == Occurs(objects, x)
  {
    var sorted := SortObjects(objects);
    ghost var layout: seq<Layout> := [];
    printed := [];
    for j := 0 to |sorted|
      invariant Tops(layout) == Unskipped(o, sorted[..j]) && printed == Preorder(layout)
      invariant forall i :: 0 <= i < |layout| ==> BelowArranged(o, layout[i])
    {
      hide Preorder, Arranged, BelowArranged;
      var obj := sorted[j];
      assert sorted[..j + 1][..j] == sorted[..j];
      if Skipped(o, obj) {
        continue;
      }
      var below, l := PrintBelow(o, obj);
      PreorderSnoc(layout, l);
      printed, layout := printed + [obj] + below, layout + [l];
    }
    assert sorted[..|sorted|] == sorted;
    assert RootsArranged(o, objects, sorted, layout);
    if forall i :: 0 <= i < |objects| ==> Analyze.Monotone(objects[i]) {
      forall x: ObjectStatus | Unhealthy(x.st) ensures multiset(printed)[x] == Occurs(objects, x) {
        PrintoutShowsUnhealthy(o, objects, printed, x);
      }
    }
  }

  lemma UnhealthyOfPermuted(o: PrintOptions, objects: seq<ObjectStatus>, sorted: seq<ObjectStatus>, x: ObjectStatus)
    requires multiset(objects) == multiset(sorted) && Unhealthy(x.st)
    requires forall i :: 0 <= i < |objects| ==> Analyze.Monotone(objects[i])
    ensures ShownRoots(o, sorted, x) == Occurs(objects, x)
  {
    forall i | 0 <= i < |sorted| ensures Analyze.Monotone(sorted[i]) {
      assert sorted[i] in multiset(objects);
    }
    NothingUnhealthyHidden(o, sorted, x);
    var everything := PrintOptions(false, true);
    ShownPermuted(everything, objects, sorted, x);
    ShowOkShowsAll(objects, x);
    ShowOkShowsAll(sorted, x);
  }

  lemma {:induction false} ShowOkShowsAll(ts: seq<ObjectStatus>, x: ObjectStatus)
    ensures Shown(PrintOptions(false, true), ts, x) == Occurs(ts, x)
    decreases ts
  {
    if ts == [] {
    } else {
      ShowOkShowsAll(ts[0].subs, x);
      ShowOkShowsAll(ts[1..], x);
    }
  }

  // ----- nothing unhealthy is hidden -----

  /** Below a healthy node of a monotone tree everything is healthy. */
  lemma {:induction false} NoUnhealthyBelow(ts: seq<ObjectStatus>, st: Status, x: ObjectStatus)
    requires !Unhealthy(st) && Unhealthy(x.st)
    requires forall i :: 0 <= i < |ts| ==> AtMost(ts[i].st, st) && Analyze.Monotone(ts[i])
    ensures Occurs(ts, x) == 0
    decreases ts
  {
    if ts == [] {
    } else {
      assert AtMost(ts[0].st, st);
      NoUnhealthyBelow(ts[0].subs, ts[0].st, x);
      NoUnhealthyBelow(ts[1..], st, x);
    }
  }

  lemma {:induction false} UnhealthyShown(o: PrintOptions, ts: seq<ObjectStatus>, x: ObjectStatus)
    requires Unhealthy(x.st) && forall i :: 0 <= i < |ts| ==> Analyze.Monotone(ts[i])
    ensures Shown(o, ts, x) == Occurs(ts, x)
    decreases ts
  {
    if ts == [] {
    } else {
      UnhealthyShown(o, ts[0].subs, x);
      UnhealthyShown(o, ts[1..], x);
      if !ShouldPrintDetails(o, ts[0]) {
        NoUnhealthyBelow(ts[0].subs, ts[0].st, x);
      }
    }
  }

  lemma {:induction false} OccursConcat(a: seq<ObjectStatus>, b: seq<ObjectStatus>, x: ObjectStatus)
    ensures Occurs(a + b, x) == Occurs(a, x) + Occurs(b, x)
  {
    if a == [] {
      assert a + b == b;
    } else {
      OccursConcat(a[1..], b, x);
      assert (a + b)[1..] == a[1..] + b;
    }
  }

  /** Under every combination of print options, every Warning, Error or progressing object of the
      forest gets its line exactly as often as it occurs in it. */
  lemma {:induction false} NothingUnhealthyHidden(o: PrintOptions, roots: seq<ObjectStatus>, x: ObjectStatus)
    requires Unhealthy(x.st) && forall i :: 0 <= i < |roots| ==> Analyze.Monotone(roots[i])
    ensures ShownRoots(o, roots, x) == Occurs(roots, x)
  {
    if roots == [] {
      assert Unskipped(o, roots) == [];
    } else {
      var init, last := roots[..|roots| - 1], roots[|roots| - 1];
      NothingUnhealthyHidden(o, init, x);
      assert roots == init + [last];
      OccursConcat(init, [last], x);
      ShownConcat(o, Unskipped(o, init), if Skipped(o, last) then [] else [last], x);
      UnhealthyShown(o, [last], x);
      if Skipped(o, last) {
        assert Occurs([last], x) == (if last == x then 1 else 0) + Occurs(last.subs, x) + Occurs([], x);
        NoUnhealthyBelow(last.subs, last.st, x);
      }
    }
  }

  /** For the trees the analyzers build: every unhealthy object any of them found is printed. */
  lemma AnalyzedNothingHidden(o: PrintOptions, resources: seq<Analyze.Resource>, x: ObjectStatus)
    requires Unhealthy(x.st)
    ensures ShownRoots(o, Analyze.AnalyzedAll(resources), x) == Occurs(Analyze.AnalyzedAll(resources), x)
  {
    Analyze.AnalyzedAllMonotone(resources);
    NothingUnhealthyHidden(o, Analyze.AnalyzedAll(resources), x);
  }

  // ----- errors only -----

  /** An unhealthy object with a healthy child. */
  ghost predicate Exposes(d: ObjectStatus) {
    Unhealthy(d.st) && exists i :: 0 <= i < |d.subs| && d.subs[i].st == Analyze.FINE
  }

  ghost predicate NoneExposes(ts: seq<ObjectStatus>) {
    forall d :: d in Nodes(ts) ==> !Exposes(d)
  }

  ghost predicate NoneFine(ts: seq<ObjectStatus>) {
    forall i :: 0 <= i < |ts| ==> ts[i].st != Analyze.FINE
  }

  ghost predicate FineHidden(o: PrintOptions, ts: seq<ObjectStatus>) {
    forall x: ObjectStatus :: x.st == Analyze.FINE ==> Shown(o, ts, x) == 0
  }

  lemma {:induction false} HealthyBelow(ts: seq<ObjectStatus>, st: Status)
    requires !Unhealthy(st) && forall i :: 0 <= i < |ts| ==> AtMost(ts[i].st, st) && Analyze.Monotone(ts[i])
    ensures NoneExposes(ts)
    decreases ts
  {
    if ts == [] {
    } else {
      assert AtMost(ts[0].st, st);
      HealthyBelow(ts[0].subs, ts[0].st);
      HealthyBelow(ts[1..], st);
    }
  }

  lemma FineHiddenStep(o: PrintOptions, ts: seq<ObjectStatus>)
    requires o.errorsOnly && ts != []
    ensures FineHidden(o, ts) <==>
            && ts[0].st != Analyze.FINE
            && (Unhealthy(ts[0].st) ==> FineHidden(o, ts[0].subs))
            && FineHidden(o, ts[1..])
  {
    var t := ts[0];
    assert forall x :: Shown(o, ts, x) ==
                       (if t == x then 1 else 0) + (if Unhealthy(t.st) then Shown(o, t.subs, x) else 0)
                       + Shown(o, ts[1..], x);
    if t.st == Analyze.FINE {
      assert Shown(o, ts, t) > 0;
    }
    if FineHidden(o, ts) {
      forall x: ObjectStatus | x.st == Analyze.FINE
        ensures Shown(o, ts[1..], x) == 0 && (Unhealthy(t.st) ==> Shown(o, t.subs, x) == 0)
      {
        assert Shown(o, ts, x) == 0;
      }
    }
  }

  lemma {:induction false} FineHiddenIff(o: PrintOptions, ts: seq<ObjectStatus>)
    requires o.errorsOnly && forall i :: 0 <= i < |ts| ==> Analyze.Monotone(ts[i])
    ensures FineHidden(o, ts) <==> NoneFine(ts) && NoneExposes(ts)
    decreases ts
  {
    if ts == [] {
    } else {
      var t, rest := ts[0], ts[1..];
      FineHiddenStep(o, ts);
      FineHiddenIff(o, t.subs);
      FineHiddenIff(o, rest);
      assert NoneFine(ts) <==> t.st != Analyze.FINE && NoneFine(rest) by {
        assert ts == [t] + rest;
      }
      assert NoneExposes(ts) <==> !Exposes(t) && NoneExposes(t.subs) && NoneExposes(rest) by {
        assert Nodes(ts) == {t} + Nodes(t.subs) + Nodes(rest);
      }
      if !Unhealthy(t.st) {
        HealthyBelow(t.subs, t.st);
      }
    }
  }

  lemma NoneExposesConcat(a: seq<ObjectStatus>, b: seq<ObjectStatus>)
    ensures NoneExposes(a + b) <==> NoneExposes(a) && NoneExposes(b)
  {
    NodesConcat(a, b);
  }

  lemma {:induction false} UnskippedFacts(o: PrintOptions, roots: seq<ObjectStatus>)
    requires o.errorsOnly && forall i :: 0 <= i < |roots| ==> Analyze.Monotone(roots[i])
    ensures var left := Unskipped(o, roots);
            && NoneFine(left) && (forall i :: 0 <= i < |left| ==> Analyze.Monotone(left[i]))
            && (NoneExposes(left) <==> NoneExposes(roots))
  {
    hide NoneExposes, Analyze.Monotone;
    if roots == [] {
    } else {
      var init, last := roots[..|roots| - 1], roots[|roots| - 1];
      UnskippedFacts(o, init);
      assert roots == init + [last];
      NoneExposesConcat(init, [last]);
      NoneExposesConcat(Unskipped(o, init), [last]);
      if Skipped(o, last) {
        HealthyBelow([last], last.st);
        assert Unskipped(o, roots) == Unskipped(o, init);
      }
    }
  }

  /** The errors-only mode is documented to hide healthy resources completely. It drops healthy roots,
      but descends into an unhealthy object with all its children: for any forest of monotone trees no
      healthy object is printed if and only if no unhealthy object has a healthy child. */
  lemma ErrorsOnlyHidesHealthyIff(o: PrintOptions, roots: seq<ObjectStatus>)
    requires o.errorsOnly && forall i :: 0 <= i < |roots| ==> Analyze.Monotone(roots[i])
    ensures (forall x: ObjectStatus :: x.st == Analyze.FINE ==> ShownRoots(o, roots, x) == 0) <==>
            !exists d :: d in Nodes(roots) && Exposes(d)
  {
    UnskippedFacts(o, roots);
    FineHiddenIff(o, Unskipped(o, roots));
    assert FineHidden(o, Unskipped(o, roots)) <==>
           forall x: ObjectStatus :: x.st == Analyze.FINE ==> ShownRoots(o, roots, x) == 0;
  }

  /** A failed deployment with one healthy and one broken part: errors-only prints the healthy one. */
  lemma ErrorsOnlyShowsHealthyWitness(a: Subject, b: Subject, c: Subject)
    ensures var fine, broken := ObjectStatus(a, Analyze.FINE, [], []), ObjectStatus(b, Analyze.BROKEN, [], []);
            var root := ObjectStatus(c, Analyze.BROKEN, [fine, broken], []);
            Analyze.Monotone(root) && ShownRoots(PrintOptions(true, false), [root], fine) == 1
  {
    var o := PrintOptions(true, false);
    var fine, broken := ObjectStatus(a, Analyze.FINE, [], []), ObjectStatus(b, Analyze.BROKEN, [], []);
    var root := ObjectStatus(c, Analyze.BROKEN, [fine, broken], []);
    assert [root][..0] == [] && Unskipped(o, []) == [];
    assert Unskipped(o, [root]) == [root];
    assert root.subs[1..] == [broken] && [broken][1..] == [] && [root][1..] == [];
    assert Shown(o, [], fine) == 0;
    assert Shown(o, [broken], fine) == 0;
    assert Shown(o, root.subs, fine) == 1;
  }

  // ----- what the options mean for the lines printed -----

  lemma UnhealthyMeans(st: Status)
    ensures Unhealthy(st) <==> st.result == Warning || st.result == Error || st.progressing
  {
  }

  lemma {:induction false} UnskippedMeans(o: PrintOptions, roots: seq<ObjectStatus>)
    ensures !o.errorsOnly ==> Unskipped(o, roots) == roots
    ensures forall x :: multiset(Unskipped(o, roots))[x] ==
                        if o.errorsOnly && x.st == Status(Ok, false) then 0 else multiset(roots)[x]
  {
    if roots == [] {
    } else {
      var init, last := roots[..|roots| - 1], roots[|roots| - 1];
      UnskippedMeans(o, init);
      assert roots == init + [last];
      assert multiset(roots) == multiset(init) + multiset{last};
      assert Unskipped(o, roots) == Unskipped(o, init) + if Skipped(o, last) then [] else [last];
      assert multiset(Unskipped(o, roots)) ==
             multiset(Unskipped(o, init)) + if Skipped(o, last) then multiset{} else multiset{last};
    }
  }

  /** Root by root, in their order. */
  lemma UnskippedInOrder(o: PrintOptions, init: seq<ObjectStatus>, last: ObjectStatus)
    ensures Unskipped(o, []) == []
    ensures Unskipped(o, init + [last]) ==
            Unskipped(o, init) + if o.errorsOnly && last.st == Status(Ok, false) then [] else [last]
  {
    assert (init + [last])[..|init|] == init;
  }

  lemma PrintoutCounts(o: PrintOptions, objects: seq<ObjectStatus>, printed: seq<ObjectStatus>, x: ObjectStatus)
    requires IsForestPrintout(o, objects, printed) && !o.errorsOnly
    ensures multiset(printed)[x] == Shown(o, objects, x)
  {
    var order, layout :| RootsArranged(o, objects, order, layout) && printed == Preorder(layout);
    PreorderShown(o, layout, x);
    UnskippedMeans(o, order);
    ShownPermuted(o, order, objects, x);
  }

  lemma {:induction false} RootsAreShown(o: PrintOptions, ts: seq<ObjectStatus>, x: ObjectStatus)
    ensures Shown(o, ts, x) >= multiset(ts)[x]
    decreases |ts|
  {
    if ts == [] {
    } else {
      RootsAreShown(o, ts[1..], x);
      assert ts == [ts[0]] + ts[1..];
      assert multiset(ts) == multiset{ts[0]} + multiset(ts[1..]);
    }
  }

  /** Without errors-only every root has its line, healthy or not, in any forest. */
  lemma EveryRootPrinted(o: PrintOptions, objects: seq<ObjectStatus>, printed: seq<ObjectStatus>)
    requires IsForestPrintout(o, objects, printed) && !o.errorsOnly
    ensures forall x :: multiset(printed)[x] >= multiset(objects)[x]
  {
    forall x ensures multiset(printed)[x] >= multiset(objects)[x] {
      PrintoutCounts(o, objects, printed, x);
      RootsAreShown(o, objects, x);
    }
  }

  /** With show-ok everything is printed, as often as it occurs, in any forest. */
  lemma ShowOkPrintsAll(objects: seq<ObjectStatus>, printed: seq<ObjectStatus>, x: ObjectStatus)
    requires IsForestPrintout(PrintOptions(false, true), objects, printed)
    ensures multiset(printed)[x] == Occurs(objects, x)
  {
    PrintoutCounts(PrintOptions(false, true), objects, printed, x);
    ShowOkShowsAll(objects, x);
  }

  /** What is left of a forest if nothing is shown below its healthy objects. */
  function Pruned(ts: seq<ObjectStatus>): seq<ObjectStatus>
    decreases ts
  {
    if ts == [] then []
    else
      var t := ts[0];
      var calm := (t.st.result == Ok || t.st.result == Unknown) && !t.st.progressing;
      [t.(subs := if calm then [] else Pruned(t.subs))] + Pruned(ts[1..])
  }

  /** With the default options an object has as many lines below the unhealthy ones as there are; nothing
      is printed below a healthy one. Counted by what a line shows: who, and how it is. */
  lemma {:induction false} DefaultShowsPruned(ts: seq<ObjectStatus>, subject: Subject, st: Status)
    ensures LinesOf(PrintOptions(false, false), ts, subject, st) ==
            LinesOf(PrintOptions(false, true), Pruned(ts), subject, st)
    decreases ts
  {
    if ts == [] {
    } else {
      DefaultShowsPruned(ts[0].subs, subject, st);
      DefaultShowsPruned(ts[1..], subject, st);
      assert Pruned(ts)[0].st == ts[0].st && Pruned(ts)[1..] == Pruned(ts[1..]);
    }
  }

  ghost function LinesOf(o: PrintOptions, ts: seq<ObjectStatus>, subject: Subject, st: Status): nat
    decreases ts
  {
    if ts == [] then 0
    else
      (if ts[0].subject == subject && ts[0].st == st then 1 else 0)
      + (if ShouldPrintDetails(o, ts[0]) then LinesOf(o, ts[0].subs, subject, st) else 0)
      + LinesOf(o, ts[1..], subject, st)
  }

  /** So a forest of healthy roots is printed as its roots and nothing else. */
  lemma HealthyRootsAlone(objects: seq<ObjectStatus>, printed: seq<ObjectStatus>)
    requires IsForestPrintout(PrintOptions(false, false), objects, printed)
    requires forall i :: 0 <= i < |objects| ==>
               (objects[i].st.result == Ok || objects[i].st.result == Unknown) && !objects[i].st.progressing
    ensures multiset(printed) == multiset(objects)
  {
    forall x ensures multiset(printed)[x] == multiset(objects)[x] {
      PrintoutCounts(PrintOptions(false, false), objects, printed, x);
      HealthyAlone(objects, x);
    }
  }

  lemma {:induction false} HealthyAlone(ts: seq<ObjectStatus>, x: ObjectStatus)
    requires forall i :: 0 <= i < |ts| ==> !Unhealthy(ts[i].st)
    ensures Shown(PrintOptions(false, false), ts, x) == multiset(ts)[x]
    decreases |ts|
  {
    if ts == [] {
    } else {
      HealthyAlone(ts[1..], x);
      assert ts == [ts[0]] + ts[1..];
      assert multiset(ts) == multiset{ts[0]} + multiset(ts[1..]);
    }
  }

  /** Occurring is being a node. */
  lemma {:induction false} OccursIff(ts: seq<ObjectStatus>, x: ObjectStatus)
    ensures Occurs(ts, x) > 0 <==> x in Nodes(ts)
    decreases ts
  {
    if ts == [] {
    } else {
      OccursIff(ts[0].subs, x);
      OccursIff(ts[1..], x);
    }
  }

  /** The order of the lines: a root, then all below it, then the next. */
  lemma {:induction false} PreorderFront(ls: seq<Layout>)
    requires ls != []
    ensures Preorder(ls) == [ls[0].node] + Preorder(ls[0].below) + Preorder(ls[1..])
    decreases |ls|
  {
    hide Preorder, Tops;
    PreorderEmpty();
    var init, last := ls[..|ls| - 1], ls[|ls| - 1];
    assert ls == init + [last];
    PreorderSnoc(init, last);
    if |ls| == 1 {
      assert init == [] && ls[1..] == [];
    } else {
      PreorderFront(init);
      PreorderSnoc(init[1..], last);
      assert ls[1..] == init[1..] + [last] && init[0] == ls[0];
    }
  }

  lemma PreorderEmpty()
    ensures Preorder([]) == []
  {
  }

  // ----- the order of the names -----

  lemma {:induction false} CommonStart(p: string, a: string, b: string)
    ensures NotAfter(p + a, p + b) <==> NotAfter(a, b)
  {
    if p == [] {
      assert p + a == a && p + b == b;
    } else {
      CommonStart(p[1..], a, b);
      assert (p + a)[1..] == p[1..] + a && (p + b)[1..] == p[1..] + b;
    }
  }

  /** Two names are ordered by the first character in which they differ; a name comes before any that
      goes on where it ends. */
  lemma FirstDifference(p: string, x: char, a: string, y: char, b: string)
    requires x < y
    ensures NotAfter(p + [x] + a, p + [y] + b) && !NotAfter(p + [y] + b, p + [x] + a)
    ensures NotAfter(p, p + [x] + a) && !NotAfter(p + [x] + a, p)
  {
    CommonStart(p, [x] + a, [y] + b);
    CommonStart(p, [y] + b, [x] + a);
    CommonStart(p, [], [x] + a);
    CommonStart(p, [x] + a, []);
    assert p + ([x] + a) == p + [x] + a && p + ([y] + b) == p + [y] + b && p + [] == p;
  }

  /** Siblings of one namespace and kind are ordered by name; of one namespace, by kind first. */
  lemma OrderedByName(t: ObjectStatus, u: ObjectStatus)
    requires t.subject.ns == u.subject.ns
    ensures t.subject.kind == u.subject.kind ==>
              (NotAfter(FullName(t), FullName(u)) <==> NotAfter(t.subject.name, u.subject.name))
    ensures NotAfter(FullName(t), FullName(u)) <==>
            NotAfter(t.subject.kind + " " + t.subject.name, u.subject.kind + " " + u.subject.name)
  {
    var ns, kt, ku := t.subject.ns + " ", t.subject.kind + " " + t.subject.name, u.subject.kind + " " + u.subject.name;
    assert FullName(t) == ns + kt && FullName(u) == ns + ku;
    CommonStart(ns, kt, ku);
    if t.subject.kind == u.subject.kind {
      CommonStart(t.subject.kind + " ", t.subject.name, u.subject.name);
    }
  }

  /** And the namespace decides before anything else. */
  lemma OrderedByNamespace(t: ObjectStatus, u: ObjectStatus, p: string, x: char, a: string, y: char, b: string)
    requires t.subject.ns == p + [x] + a && u.subject.ns == p + [y] + b && x < y
    ensures NotAfter(FullName(t), FullName(u)) && !NotAfter(FullName(u), FullName(t))
  {
    var rt := a + " " + t.subject.kind + " " + t.subject.name;
    var ru := b + " " + u.subject.kind + " " + u.subject.name;
    assert FullName(t) == p + [x] + rt && FullName(u) == p + [y] + ru;
    FirstDifference(p, x, rt, y, ru);
  }
}
