/**
 What the evaluator's cache holds, said as a function of the operations performed since the last
 reset: no index, no owner table, only which objects of the snapshot have come in and why. The
 class in Evaluator.dfy is proved to hold exactly this; here it is compared with the naive query.
 */
module History {
  import opened Base
  import opened Matcher
  import opened Cluster

  datatype Event =
    | Loaded(ns: string, matcher: GroupKindMatcher, ok: bool)  // Load; ok: how a backend call, if made, ends
    | Evaluated(obj: Object, found: bool)                      // Eval of one object; found: how its Get ends
    | Refreshed                                                // an owner query brings the owner table up to date

  // It starts with the namespaces that a reset leaves marked for the owner table.
  datatype History = Start(marked: set<string>) | After(before: History, last: Event)

  ghost function Events(h: History): set<Event> {
    match h
    case Start(_) => {}
    case After(g, e) => Events(g) + {e}
  }

  function Continue(h: History, later: History): History {
    match later
    case Start(_) => h
    case After(g, e) => After(Continue(h, g), e)
  }

  /** The matcher accumulated for a namespace. A failed load has already widened it. */
  function Acc(h: History, ns: string): GroupKindMatcher {
    match h
    case Start(_) => NO_KINDS
    case After(g, Loaded(n, m, _)) => if n == ns then UpdateMatcher(Acc(g, ns), m).0 else Acc(g, ns)
    case After(g, _) => Acc(g, ns)
  }

  ghost predicate HasUid(s: set<Object>, uid: string) {
    exists c :: c in s && c.uid == uid
  }

  ghost predicate HasKind(s: set<Object>, ns: string, gk: GroupKind) {
    exists c :: c in s && c.ns == ns && c.kind == gk
  }

  /** What a load adds: an object whose UID is known is not replaced, and in a real namespace a kind
      of which anything is cached is taken to be loaded. */
  ghost function Fetched(b: Snapshot, s: set<Object>, ns: string, m: GroupKindMatcher): set<Object> {
    set o | o in b.objects && InNs(o, ns) && Match(m, o.kind)
            && !HasUid(s, o.uid) && (ns == NAMESPACE_ALL || !HasKind(s, ns, o.kind))
  }

  ghost function Cached(b: Snapshot, h: History): set<Object> {
    match h
    case Start(_) => {}
    case After(g, Loaded(ns, m, ok)) =>
      var (acc, changed) := UpdateMatcher(Acc(g, ns), m);
      Cached(b, g) + if changed && ok then Fetched(b, Cached(b, g), ns, acc) else {}
    case After(g, Evaluated(obj, found)) =>
      Cached(b, g) + if found && !HasUid(Cached(b, g), obj.uid) then {obj} else {}
    case After(g, Refreshed) => Cached(b, g)
  }

  /** The cached objects that came in through Eval; a hit or a failed Get brings nothing in. */
  ghost function Inserted(b: Snapshot, h: History): set<Object> {
    match h
    case Start(_) => {}
    case After(g, Evaluated(obj, found)) =>
      Inserted(b, g) + if found && !HasUid(Cached(b, g), obj.uid) then {obj} else {}
    case After(g, _) => Inserted(b, g)
  }

  /** The namespaces of some objects. */
  ghost function Namespaces(s: set<Object>): set<string> {
    set c | c in s :: c.ns
  }

  /** The namespaces that the next owner query will look at: those a load has added to since the last. */
  ghost function Marked(b: Snapshot, h: History): set<string> {
    match h
    case Start(marked) => marked
    case After(g, Loaded(_, _, _)) => Marked(b, g) + Namespaces(Cached(b, h) - Cached(b, g))
    case After(g, Evaluated(_, _)) => Marked(b, g)
    case After(g, Refreshed) => {}
  }

  /** The cached objects that no owner query finds: what Eval brought in is not marked, and stays
      unknown to the owner table until a load adds something to its namespace. */
  ghost function Hidden(b: Snapshot, h: History): set<Object> {
    match h
    case Start(_) => {}
    case After(g, Loaded(_, _, _)) =>
      set x | x in Hidden(b, g) && x.ns !in Namespaces(Cached(b, h) - Cached(b, g))
    case After(g, Evaluated(obj, found)) =>
      Hidden(b, g) + if found && !HasUid(Cached(b, g), obj.uid) && obj.ns !in Marked(b, g) then {obj} else {}
    case After(g, Refreshed) => Hidden(b, g)
  }

  ghost function Answer(s: set<Object>, ns: string, m: GroupKindMatcher): set<Object> {
    set c | c in s && InNs(c, ns) && Match(m, c.kind)
  }

  /** The naive query: ask the snapshot directly. */
  ghost function Naive(b: Snapshot, ns: string, m: GroupKindMatcher): set<Object> {
    Answer(b.objects, ns, m)
  }

  // ----- hypotheses about a history -----

  /** Every load that went to the backend succeeded. */
  ghost predicate NoLoadFailed(h: History) {
    match h
    case Start(_) => true
    case After(g, Loaded(ns, m, ok)) => NoLoadFailed(g) && (UpdateMatcher(Acc(g, ns), m).1 ==> ok)
    case After(g, _) => NoLoadFailed(g)
  }

  /** An object given to Eval may be an older revision, but a UID names one object of one kind. */
  ghost predicate Genuine(b: Snapshot, h: History) {
    forall x, o :: x in Inserted(b, h) && o in b.objects && o.uid == x.uid ==> o.ns == x.ns && o.kind == x.kind
  }

  ghost predicate Untouched(b: Snapshot, h: History, ns: string, gk: GroupKind) {
    !HasKind(Inserted(b, h), ns, gk)
  }

  // ----- invariants of every history -----

  lemma {:induction false} AccWellFormed(h: History, ns: string)
    ensures WellFormed(Acc(h, ns))
  {
    match h
    case Start(_) =>
    case After(g, _) => AccWellFormed(g, ns);
  }

  lemma {:induction false} CachedUidsUnique(b: Snapshot, h: History)
    requires ValidSnapshot(b)
    ensures forall c, d :: c in Cached(b, h) && d in Cached(b, h) && c.uid == d.uid ==> c == d
  {
    match h
    case Start(_) =>
    case After(g, _) => CachedUidsUnique(b, g);
  }

  lemma {:induction false} CachedIsBackedOrInserted(b: Snapshot, h: History)
    ensures Hidden(b, h) <= Inserted(b, h) <= Cached(b, h) <= b.objects + Inserted(b, h)
    ensures forall x :: x in Inserted(b, h) ==> Evaluated(x, true) in Events(h)
  {
    match h
    case Start(_) =>
    case After(g, _) => CachedIsBackedOrInserted(b, g);
  }

  /** A kind of which Eval brought nothing in is cached in a namespace entirely or not at all, even
      when loads fail: this is why skipping cached kinds is sound. */
  lemma {:induction false} KindClosed(b: Snapshot, h: History, o: Object)
    requires ValidSnapshot(b) && Genuine(b, h)
    requires o in b.objects && Untouched(b, h, o.ns, o.kind)
    ensures HasKind(Cached(b, h), o.ns, o.kind) || HasUid(Cached(b, h), o.uid) ==> o in Cached(b, h)
  {
    match h
    case Start(_) =>
    case After(g, e) =>
      assert Inserted(b, g) <= Inserted(b, h);
      KindClosed(b, g, o);
      if e.Evaluated? && e.found && !HasUid(Cached(b, g), e.obj.uid) {
        assert e.obj in Inserted(b, h);
      }
  }

  /** After loads that all succeeded, everything the accumulated matcher asks for is there. */
  lemma {:induction false} MatchedIsCached(b: Snapshot, h: History, ns: string, o: Object)
    requires ValidSnapshot(b) && Genuine(b, h) && NoLoadFailed(h)
    requires o in b.objects && Untouched(b, h, o.ns, o.kind)
    requires InNs(o, ns) && Match(Acc(h, ns), o.kind)
    ensures o in Cached(b, h)
  {
    match h
    case Start(_) =>
    case After(g, e) =>
      assert Inserted(b, g) <= Inserted(b, h);
      KindClosed(b, g, o);
      if Match(Acc(g, ns), o.kind) {
        MatchedIsCached(b, g, ns, o);
      }
  }

  // ----- the cached query against the naive one -----

  /** Would the query, if it is answered, bring the object in? Only what the caller can tell before:
      the matcher changes, the kind is not lost to an exclusion, and it does not look loaded. */
  ghost predicate Brought(b: Snapshot, h: History, ns: string, m: GroupKindMatcher, o: Object) {
    && UpdateMatcher(Acc(h, ns), m).1
    && !LostByMerge(Acc(h, ns), m, o.kind)
    && (ns == NAMESPACE_ALL || !HasKind(Cached(b, h), ns, o.kind))
  }

  /** When an object that a query asks for is cached afterwards, exactly, for every history. */
  lemma ComesInIff(b: Snapshot, h: History, ns: string, m: GroupKindMatcher, ok: bool, o: Object)
    requires ValidSnapshot(b) && WellFormed(m) && o in Naive(b, ns, m)
    ensures var h' := After(h, Loaded(ns, m, ok));
            && (HasUid(Cached(b, h'), o.uid) <==> HasUid(Cached(b, h), o.uid) || (ok && Brought(b, h, ns, m, o)))
            && (o in Cached(b, h') <==>
                o in Cached(b, h) || (ok && Brought(b, h, ns, m, o) && !HasUid(Cached(b, h), o.uid)))
  {
    var h' := After(h, Loaded(ns, m, ok));
    AccWellFormed(h, ns);
    MergeMatchesUnionMinusLost(Acc(h, ns), m, o.kind);
    UnchangedMatchesTheSame(Acc(h, ns), m, o.kind);
    if ok && Brought(b, h, ns, m, o) && !HasUid(Cached(b, h), o.uid) {
      assert o in Cached(b, h');
    }
  }

  /** Whatever was asked before, in whatever mix of namespaces, whether loads failed and whatever Eval
      brought in: a query gets exactly the naive answer if and only if every object of it is cached or
      brought in now, and none of the cached objects it matches is an outdated version. Both can be
      told before the call. */
  lemma CachedQueryRefinesNaive(b: Snapshot, h: History, ns: string, m: GroupKindMatcher, ok: bool)
    requires ValidSnapshot(b) && WellFormed(m)
    ensures Naive(b, ns, m) <= Answer(Cached(b, After(h, Loaded(ns, m, ok))), ns, m) <==>
            forall o :: o in Naive(b, ns, m) ==>
              o in Cached(b, h) || (ok && Brought(b, h, ns, m, o) && !HasUid(Cached(b, h), o.uid))
    ensures Answer(Cached(b, After(h, Loaded(ns, m, ok))), ns, m) == Naive(b, ns, m) <==>
            && (forall o :: o in Naive(b, ns, m) ==>
                  o in Cached(b, h) || (ok && Brought(b, h, ns, m, o) && !HasUid(Cached(b, h), o.uid)))
            && Answer(Cached(b, h), ns, m) <= b.objects
  {
    var after := Cached(b, After(h, Loaded(ns, m, ok)));
    forall o | o in Naive(b, ns, m)
      ensures o in after <==> o in Cached(b, h) || (ok && Brought(b, h, ns, m, o) && !HasUid(Cached(b, h), o.uid))
    {
      ComesInIff(b, h, ns, m, ok, o);
    }
    assert forall c :: c in Answer(after, ns, m) ==> c in Answer(Cached(b, h), ns, m) || c in b.objects;
    assert forall o :: o in Naive(b, ns, m) ==> (o in after <==> o in Answer(after, ns, m));
    assert forall c :: c in Answer(Cached(b, h), ns, m) ==> c in Answer(after, ns, m);
  }

  /** Did Eval bring in nothing that the query matches? */
  ghost predicate Undisturbed(b: Snapshot, h: History, ns: string, m: GroupKindMatcher) {
    Genuine(b, h) && forall x :: x in Inserted(b, h) ==> !(InNs(x, ns) && Match(m, x.kind))
  }

  /** Without failed loads and hand-picked objects in its way, a query gets no object that the naive
      query would not get, and exactly the naive answer if and only if every kind it lists that an
      earlier include-all query of that namespace excludes happens to be cached already. */
  lemma UndisturbedQueryIsNaiveIff(b: Snapshot, h: History, ns: string, m: GroupKindMatcher)
    requires ValidSnapshot(b) && NoLoadFailed(h) && WellFormed(m) && Undisturbed(b, h, ns, m)
    ensures var after := Cached(b, After(h, Loaded(ns, m, true)));
            && Answer(after, ns, m) <= Naive(b, ns, m)
            && (Answer(after, ns, m) == Naive(b, ns, m) <==>
                forall o :: o in Naive(b, ns, m) && LostByMerge(Acc(h, ns), m, o.kind) ==> o in Cached(b, h))
  {
    var h' := After(h, Loaded(ns, m, true));
    CachedIsBackedOrInserted(b, h');
    AccWellFormed(h, ns);
    CachedQueryRefinesNaive(b, h, ns, m, true);
    forall o | o in Naive(b, ns, m) && !LostByMerge(Acc(h, ns), m, o.kind)
      ensures o in Cached(b, h) || (Brought(b, h, ns, m, o) && !HasUid(Cached(b, h), o.uid))
    {
      MergeMatchesUnionMinusLost(Acc(h, ns), m, o.kind);
      UnchangedMatchesTheSame(Acc(h, ns), m, o.kind);
      assert Untouched(b, h', o.ns, o.kind);
      MatchedIsCached(b, h', ns, o);
      ComesInIff(b, h, ns, m, true, o);
    }
  }

  /** A query that asks for everything is never affected: the caller's history does not matter. */
  lemma IncludeAllQueryIsNaive(b: Snapshot, h: History, ns: string, m: GroupKindMatcher)
    requires ValidSnapshot(b) && NoLoadFailed(h) && WellFormed(m) && m.includeAll && Undisturbed(b, h, ns, m)
    ensures Answer(Cached(b, After(h, Loaded(ns, m, true))), ns, m) == Naive(b, ns, m)
  {
    UndisturbedQueryIsNaiveIff(b, h, ns, m);
  }

  ghost predicate MatchedNow(h: History, o: Object) {
    Match(Acc(h, o.ns), o.kind) || Match(Acc(h, NAMESPACE_ALL), o.kind)
  }

  ghost predicate EverMatched(h: History, o: Object) {
    MatchedNow(h, o) || (h.After? && EverMatched(h.before, o))
  }

  /** Which objects successful loads have brought in, exactly: those whose kind some accumulated
      matcher, of their own namespace or of all namespaces, matched at some point. */
  lemma {:induction false} CoverageExact(b: Snapshot, h: History, o: Object)
    requires ValidSnapshot(b) && NoLoadFailed(h) && Genuine(b, h)
    requires o in b.objects && Untouched(b, h, o.ns, o.kind)
    ensures o in Cached(b, h) <==> EverMatched(h, o)
  {
    match h
    case Start(_) =>
    case After(g, e) =>
      assert Inserted(b, g) <= Inserted(b, h);
      CoverageExact(b, g, o);
      if Match(Acc(h, o.ns), o.kind) {
        MatchedIsCached(b, h, o.ns, o);
      }
      if Match(Acc(h, NAMESPACE_ALL), o.kind) {
        MatchedIsCached(b, h, NAMESPACE_ALL, o);
      }
      if e.Evaluated? && e.found && !HasUid(Cached(b, g), e.obj.uid) {
        assert e.obj in Inserted(b, h);
      }
  }

  // ----- the gaps -----

  /** Something of the kind is cached in the object's namespace, but the object itself is not. */
  ghost predicate Overlooked(b: Snapshot, h: History, o: Object) {
    !HasUid(Cached(b, h), o.uid) && HasKind(Cached(b, h), o.ns, o.kind)
  }

  /** Does a run hold an all-namespaces query that goes to the backend, is answered, and by then asks
      for the kind? A question about matchers only. */
  ghost predicate WidelyLoaded(h: History, later: History, gk: GroupKind) {
    match later
    case Start(_) => false
    case After(g, e) =>
      || WidelyLoaded(h, g, gk)
      || (e.Loaded? && e.ns == NAMESPACE_ALL && e.ok
          && UpdateMatcher(Acc(Continue(h, g), NAMESPACE_ALL), e.matcher).1
          && Match(Acc(Continue(h, later), NAMESPACE_ALL), gk))
  }

  ghost predicate GivenToEval(later: History, uid: string) {
    exists e :: e in Events(later) && e.Evaluated? && e.found && e.obj.uid == uid
  }

  /** The kind of an object cached by Eval counts as loaded. Over every further run, whatever its mix
      of queries, failures and evaluations, an uncached sibling comes in if and only if it is itself
      given to Eval or an all-namespaces load that asks for its kind succeeds. */
  lemma {:induction false} SiblingComesInIff(b: Snapshot, h: History, later: History, o: Object)
    requires ValidSnapshot(b) && o in b.objects && Overlooked(b, h, o)
    ensures HasUid(Cached(b, Continue(h, later)), o.uid) <==>
            GivenToEval(later, o.uid) || WidelyLoaded(h, later, o.kind)
    ensures HasKind(Cached(b, Continue(h, later)), o.ns, o.kind)
  {
    match later
    case Start(_) =>
    case After(g, e) =>
      SiblingComesInIff(b, h, g, o);
      SiblingStep(b, Continue(h, g), e, o);
      assert GivenToEval(later, o.uid) <==> GivenToEval(g, o.uid) || (e.Evaluated? && e.found && e.obj.uid == o.uid);
  }

  lemma SiblingStep(b: Snapshot, h: History, e: Event, o: Object)
    requires ValidSnapshot(b) && o in b.objects && HasKind(Cached(b, h), o.ns, o.kind)
    ensures HasKind(Cached(b, After(h, e)), o.ns, o.kind)
    ensures HasUid(Cached(b, After(h, e)), o.uid) <==>
            || HasUid(Cached(b, h), o.uid)
            || (e.Evaluated? && e.found && e.obj.uid == o.uid)
            || (e.Loaded? && e.ns == NAMESPACE_ALL && e.ok && UpdateMatcher(Acc(h, NAMESPACE_ALL), e.matcher).1
                && Match(Acc(After(h, e), NAMESPACE_ALL), o.kind))
  {
    var s := Cached(b, h);
    var c :| c in s && c.ns == o.ns && c.kind == o.kind;
    assert c in Cached(b, After(h, e));
    if !e.Loaded? {
      if e.Evaluated? && e.found && !HasUid(s, e.obj.uid) {
        assert e.obj in Cached(b, After(h, e));
      }
    } else {
      var acc := UpdateMatcher(Acc(h, e.ns), e.matcher).0;
      assert HasUid(Fetched(b, s, e.ns, acc), o.uid) <==> o in Fetched(b, s, e.ns, acc);
    }
  }

  /** So the siblings stay out through every run of loads in real namespaces, successful or not. */
  lemma EvaluatedKindStaysPartial(b: Snapshot, h: History, later: History, o: Object)
    requires ValidSnapshot(b) && o in b.objects && Overlooked(b, h, o)
    requires forall e :: e in Events(later) && e.Loaded? ==> e.ns != NAMESPACE_ALL
    requires !GivenToEval(later, o.uid)
    ensures Overlooked(b, Continue(h, later), o)
  {
    SiblingComesInIff(b, h, later, o);
    NotWidelyLoaded(h, later, o.kind);
  }

  lemma {:induction false} NotWidelyLoaded(h: History, later: History, gk: GroupKind)
    requires forall e :: e in Events(later) && e.Loaded? ==> e.ns != NAMESPACE_ALL
    ensures !WidelyLoaded(h, later, gk)
  {
    match later
    case Start(_) =>
    case After(g, e) =>
      assert e in Events(later);
      NotWidelyLoaded(h, g, gk);
  }

  /** Evaluating one object of a namespace and then asking for its kind hides its sibling. */
  lemma EvaluatedSiblingWitness(b: Snapshot, marked: set<string>, o: Object, sibling: Object, m: GroupKindMatcher)
    requires ValidSnapshot(b) && o in b.objects && sibling in b.objects
    requires o != sibling && o.ns == sibling.ns && o.kind == sibling.kind && Match(m, o.kind)
    ensures var h := After(After(Start(marked), Evaluated(o, true)), Loaded(o.ns, m, true));
            sibling in Naive(b, o.ns, m) && sibling !in Answer(Cached(b, h), o.ns, m)
  {
    var h := After(Start(marked), Evaluated(o, true));
    assert Cached(b, Start(marked)) == {};
    assert Cached(b, h) == {o};
    assert o in Cached(b, h) && o.ns == sibling.ns && o.kind == sibling.kind;
    assert HasKind(Cached(b, h), sibling.ns, sibling.kind);
    var later := After(Start({}), Loaded(o.ns, m, true));
    assert Events(later) == {Loaded(o.ns, m, true)};
    EvaluatedKindStaysPartial(b, h, later, sibling);
    assert Continue(h, later) == After(Continue(h, Start({})), Loaded(o.ns, m, true));
  }

  /** A failed load has widened the matcher all the same. Asking the same again, this time with an
      answer, brings in what the first attempt missed if and only if neither the query nor the
      namespace by then includes everything; for every history and every object asked for. */
  lemma FailedLoadRepairedIff(b: Snapshot, h: History, ns: string, m: GroupKindMatcher, o: Object)
    requires ValidSnapshot(b) && WellFormed(m) && o in Naive(b, ns, m)
    requires !HasUid(Cached(b, h), o.uid) && Brought(b, h, ns, m, o)
    ensures var failed := After(h, Loaded(ns, m, false));
            && HasUid(Cached(b, After(h, Loaded(ns, m, true))), o.uid)
            && !HasUid(Cached(b, failed), o.uid)
            && (HasUid(Cached(b, After(failed, Loaded(ns, m, true))), o.uid) <==>
                !Acc(h, ns).includeAll && !m.includeAll)
  {
    var failed := After(h, Loaded(ns, m, false));
    AccWellFormed(h, ns);
    ComesInIff(b, h, ns, m, true, o);
    ComesInIff(b, failed, ns, m, true, o);
    RetryReloadsIff(Acc(h, ns), m);
    assert Cached(b, failed) == Cached(b, h);
  }

  /** Queries that do not change their namespace's matcher leave the whole state as it is. */
  lemma {:induction false} UnchangedQueriesKeepState(b: Snapshot, h: History, later: History)
    requires forall e :: e in Events(later) ==> e.Loaded? && !UpdateMatcher(Acc(h, e.ns), e.matcher).1
    ensures Cached(b, Continue(h, later)) == Cached(b, h)
    ensures forall ns :: Acc(Continue(h, later), ns) == Acc(h, ns)
  {
    match later
    case Start(_) =>
    case After(g, e) =>
      assert e in Events(later);
      UnchangedQueriesKeepState(b, h, g);
  }

  /** After a failed load that leaves the namespace including everything, every run of explicit-kind
      queries, and of include-all queries that keep its exclusions, works on what was cached before,
      although each of its own backend calls would have succeeded. */
  lemma FailedLoadIsForgotten(b: Snapshot, h: History, ns: string, m: GroupKindMatcher, later: History)
    requires var acc := Acc(After(h, Loaded(ns, m, false)), ns);
             && acc.includeAll
             && forall e :: e in Events(later) ==>
                  e.Loaded? && e.ns == ns && KeepsExclusions(acc.excludedKinds, e.matcher)
    ensures Cached(b, Continue(After(h, Loaded(ns, m, false)), later)) == Cached(b, h)
  {
    var failed := After(h, Loaded(ns, m, false));
    AccWellFormed(failed, ns);
    forall e | e in Events(later) ensures !UpdateMatcher(Acc(failed, e.ns), e.matcher).1 {
      ChangeIff(Acc(failed, ns), e.matcher);
    }
    UnchangedQueriesKeepState(b, failed, later);
  }

  /** And so for good: once a namespace includes everything but the program's own ignored kinds, none of
      the program's queries ever makes up for the failed load. */
  lemma OwnQueriesForget(b: Snapshot, h: History, ns: string, m: GroupKindMatcher, ignored: seq<GroupKind>,
                         later: History)
    requires var acc := Acc(After(h, Loaded(ns, m, false)), ns); acc.includeAll && acc.excludedKinds == ignored
    requires forall e :: e in Events(later) ==>
               e.Loaded? && e.ns == ns && (e.matcher.includeAll ==> e.matcher.excludedKinds == ignored)
    ensures Cached(b, Continue(After(h, Loaded(ns, m, false)), later)) == Cached(b, h)
  {
    IntersectFacts(ignored, ignored);
    FailedLoadIsForgotten(b, h, ns, m, later);
  }
}
