/**
 Recursive evaluation: an analyzer asks the evaluator for the sub-objects of an object, by label or
 by owner, and evaluates those in turn, in whatever order the cache hands them out. All analyzers
 share one evaluator, so the query of one works on what the queries of the others left behind.
 */
module EvalTree {
  import opened Base
  import opened Matcher
  import opened Cluster
  import opened History
  import opened Evaluator
  import opened Status
  import opened SnapshotTree
  import Analyze

  // ----- which queries are answered as the snapshot would -----

  /** What the evaluator holds: the cached objects, those of them that Eval brought in, those of these
      that no owner query finds, the namespaces the next owner query looks at, and the matcher of queries
      over all namespaces. */
  datatype Situation = Situation(
    cached: set<Object>,
    inserted: set<Object>,
    hidden: set<Object>,
    marked: set<string>,
    wide: GroupKindMatcher
  )

  ghost function SituationOf(b: Snapshot, h: History): Situation {
    Situation(Cached(b, h), Inserted(b, h), Hidden(b, h), Marked(b, h), Acc(h, NAMESPACE_ALL))
  }

  /** Nothing cached, right after a reset that left some namespaces marked. */
  ghost function Initial(start: set<string>): Situation {
    Situation({}, {}, {}, start, NO_KINDS)
  }

  /** Is an object of the kind and namespace that the analyzer of another one asks for? */
  predicate Asks(f: Facts, o: Object, c: Object) {
    SubQuery(f, o).Some? && InNs(c, SubQuery(f, o).value.Namespace()) && Match(SubQuery(f, o).value.Kinds(), c.kind)
  }

  /** What the queries of some objects bring in: whatever they ask for of which no kind looks loaded. */
  ghost function Wanted(b: Snapshot, f: Facts, s: Situation, asked: set<Object>): set<Object> {
    set c | c in b.objects && !HasKind(s.cached, c.ns, c.kind) && exists o :: o in asked && Asks(f, o, c)
  }

  /** Does the query of an object find another one that Eval brought in? Its owner query does not as
      long as nothing has been loaded into the namespace since; its own load may be the first. */
  ghost predicate Found(b: Snapshot, f: Facts, s: Situation, o: Object, x: Object) {
    HandlerOf(o.kind).ByGeneric? && x in s.hidden ==>
      exists c :: c in b.objects && c.ns == x.ns && c.kind !in f.ignored && !HasKind(s.cached, c.ns, c.kind)
  }

  /** When the query of an object is answered as by the snapshot: of a kind that looks loaded because
      of Eval, every sub-object is cached, and of what Eval brought in exactly the sub-objects are
      found, in their current version. */
  ghost predicate Served(b: Snapshot, f: Facts, s: Situation, o: Object) {
    SubQuery(f, o).Some? ==>
      && (forall c :: c in Children(b, f, o) && HasKind(s.inserted, c.ns, c.kind) ==> c in s.cached)
      && (forall x :: x in s.inserted && Picks(SubQuery(f, o).value, x) ==> (x in b.objects <==> Found(b, f, s, o, x)))
  }

  // ----- exploring what is below an object -----

  ghost predicate ExcludesIgnored(h: History, ignored: seq<GroupKind>) {
    forall ns, gk :: gk in Acc(h, ns).excludedKinds ==> gk in ignored
  }

  /** No load failed, and only ignored kinds were ever excluded. */
  ghost predicate Ready(b: Snapshot, f: Facts, h: History) {
    NoLoadFailed(h) && Genuine(b, h) && ExcludesIgnored(h, f.ignored)
  }

  /** The kinds that analyzers ask for by name are not ignored. */
  predicate KindsKept(f: Facts) {
    GK_POD !in f.ignored && GK_REPLICA_SET !in f.ignored
  }

  ghost predicate Refreshing(asked: set<Object>) {
    exists o :: o in asked && HandlerOf(o.kind).ByGeneric?
  }

  ghost predicate InNamespace(asked: set<Object>, ns: string) {
    ns != NAMESPACE_ALL && forall o :: o in asked ==> o.ns == ns
  }

  /** What the evaluator holds once the queries of the asked objects of one namespace have been made,
      in any order, after the situation s. */
  ghost function Explored(b: Snapshot, f: Facts, s: Situation, asked: set<Object>): Situation {
    var wanted := Wanted(b, f, s, asked);
    Situation(
      s.cached + wanted,
      s.inserted,
      set x | x in s.hidden && x.ns !in Namespaces(wanted),
      if Refreshing(asked) then {} else s.marked + Namespaces(wanted),
      s.wide)
  }

  ghost predicate Exploring(b: Snapshot, f: Facts, s: Situation, ns: string, asked: set<Object>, h: History) {
    && s.hidden <= s.inserted <= s.cached
    && Ready(b, f, h) && InNamespace(asked, ns)
    && SituationOf(b, h) == Explored(b, f, s, asked)
  }

  lemma ReadyAfterLoad(b: Snapshot, f: Facts, h: History, ns: string, m: GroupKindMatcher)
    requires Ready(b, f, h) && forall gk :: gk in m.excludedKinds ==> gk in f.ignored
    ensures Ready(b, f, After(h, Loaded(ns, m, true))) && Inserted(b, After(h, Loaded(ns, m, true))) == Inserted(b, h)
  {
    var h' := After(h, Loaded(ns, m, true));
    IntersectFacts(Acc(h, ns).excludedKinds, m.excludedKinds);
    assert Inserted(b, h') == Inserted(b, h);
  }

  /** What an analyzer asks for is never lost to what another one excluded. */
  lemma SubQueryNotLost(f: Facts, h: History, o: Object, gk: GroupKind)
    requires SubQuery(f, o).Some? && KindsKept(f) && ExcludesIgnored(h, f.ignored)
    ensures var q := SubQuery(f, o).value;
            var acc := Acc(After(h, Loaded(q.Namespace(), q.Kinds(), true)), q.Namespace());
            && (Match(q.Kinds(), gk) ==> Match(acc, gk))
            && (Match(acc, gk) ==> Match(Acc(h, q.Namespace()), gk) || Match(q.Kinds(), gk))
  {
    var q := SubQuery(f, o).value;
    AccWellFormed(h, q.Namespace());
    SubQueryKinds(f, o, gk);
    hide SubQuery;
    MergeMatchesUnionMinusLost(Acc(h, q.Namespace()), q.Kinds(), gk);
    UnchangedMatchesTheSame(Acc(h, q.Namespace()), q.Kinds(), gk);
  }

  lemma SubQueryKinds(f: Facts, o: Object, gk: GroupKind)
    requires SubQuery(f, o).Some? && KindsKept(f)
    ensures var q := SubQuery(f, o).value;
            && WellFormed(q.Kinds()) && q.Namespace() == o.ns && !q.PodLogQuery?
            && (q.OwnerQuery? <==> HandlerOf(o.kind).ByGeneric?)
            && (forall k :: k in q.Kinds().excludedKinds ==> k in f.ignored)
            && (Match(q.Kinds(), gk) ==> gk !in f.ignored)
            && (q.OwnerQuery? ==> (Match(q.Kinds(), gk) <==> gk !in f.ignored))
  {
  }

  lemma OnlyAskedComesIn(b: Snapshot, f: Facts, s: Situation, ns: string, asked: set<Object>, h: History,
                         o: Object, c: Object)
    requires ValidSnapshot(b) && KindsKept(f) && Exploring(b, f, s, ns, asked, h)
    requires o.ns == ns && SubQuery(f, o).Some?
    requires c !in Cached(b, h) && c in Cached(b, After(h, Loaded(ns, SubQuery(f, o).value.Kinds(), true)))
    ensures c in b.objects && Asks(f, o, c) && !HasKind(s.cached, c.ns, c.kind)
  {
    SubQueryKinds(f, o, c.kind);
    SubQueryNotLost(f, h, o, c.kind);
    hide SubQuery, Match, UpdateMatcher, LostByMerge, SituationOf, Explored;
    NotSettled(b, f, s, ns, asked, h, c);
  }

  lemma AskedComesIn(b: Snapshot, f: Facts, s: Situation, ns: string, asked: set<Object>, h: History,
                     o: Object, c: Object)
    requires ValidSnapshot(b) && KindsKept(f) && Exploring(b, f, s, ns, asked, h)
    requires o.ns == ns && SubQuery(f, o).Some?
    requires c in b.objects && Asks(f, o, c) && !HasKind(s.cached, c.ns, c.kind)
    ensures c in Cached(b, After(h, Loaded(ns, SubQuery(f, o).value.Kinds(), true)))
  {
    var kinds := SubQuery(f, o).value.Kinds();
    SubQueryKinds(f, o, c.kind);
    SubQueryNotLost(f, h, o, c.kind);
    ReadyAfterLoad(b, f, h, ns, kinds);
    assert Untouched(b, After(h, Loaded(ns, kinds, true)), c.ns, c.kind);
    hide SubQuery, Match, UpdateMatcher, Cached;
    MatchedIsCached(b, After(h, Loaded(ns, kinds, true)), ns, c);
  }

  /** One query of an object: exactly what it asks for comes in, unless the kind looks loaded. */
  lemma LoadedForQuery(b: Snapshot, f: Facts, s: Situation, ns: string, asked: set<Object>, h: History, o: Object)
    requires ValidSnapshot(b) && KindsKept(f) && Exploring(b, f, s, ns, asked, h)
    requires o.ns == ns && SubQuery(f, o).Some?
    ensures Cached(b, After(h, Loaded(ns, SubQuery(f, o).value.Kinds(), true))) ==
            s.cached + Wanted(b, f, s, asked + {o})
  {
    var h' := After(h, Loaded(ns, SubQuery(f, o).value.Kinds(), true));
    WantedGrows(b, f, s, asked, o);
    assert Cached(b, h) <= Cached(b, h');
    assert Cached(b, h) == s.cached + Wanted(b, f, s, asked);
    hide Cached, SubQuery, Exploring;
    forall c | c in Cached(b, h') ensures c in s.cached + Wanted(b, f, s, asked + {o}) {
      if c !in Cached(b, h) {
        OnlyAskedComesIn(b, f, s, ns, asked, h, o, c);
      }
    }
    forall c | c in s.cached + Wanted(b, f, s, asked + {o}) ensures c in Cached(b, h') {
      if c !in Cached(b, h) {
        AskedComesIn(b, f, s, ns, asked, h, o, c);
      }
    }
  }

  lemma WantedGrows(b: Snapshot, f: Facts, s: Situation, asked: set<Object>, o: Object)
    ensures Wanted(b, f, s, asked) <= Wanted(b, f, s, asked + {o})
    ensures forall c :: c in Wanted(b, f, s, asked + {o}) ==> c in Wanted(b, f, s, asked) || Asks(f, o, c)
  {
  }

  /** What a load of the namespace fetches was not matched before: all of that is settled. */
  lemma NotSettled(b: Snapshot, f: Facts, s: Situation, ns: string, asked: set<Object>, h: History, c: Object)
    requires ValidSnapshot(b) && Exploring(b, f, s, ns, asked, h)
    requires c in b.objects && c.ns == ns && !HasUid(Cached(b, h), c.uid) && !HasKind(Cached(b, h), ns, c.kind)
    ensures !Match(Acc(h, ns), c.kind) && !HasKind(s.cached, c.ns, c.kind)
  {
    if Match(Acc(h, ns), c.kind) {
      assert Untouched(b, h, c.ns, c.kind);
      MatchedIsCached(b, h, ns, c);
    }
  }

  lemma WantedWithin(b: Snapshot, f: Facts, s: Situation, asked: set<Object>, o: Object)
    requires KindsKept(f) && Refreshing(asked) && InNamespace(asked + {o}, o.ns)
    ensures Wanted(b, f, s, asked + {o}) == Wanted(b, f, s, asked)
  {
    var g :| g in asked && HandlerOf(g.kind).ByGeneric?;
    forall c | c in Wanted(b, f, s, asked + {o}) ensures c in Wanted(b, f, s, asked) {
      WantedGrows(b, f, s, asked, o);
      if Asks(f, o, c) {
        SubQueryKinds(f, o, c.kind);
        SubQueryKinds(f, g, c.kind);
        assert Asks(f, g, c);
      }
    }
    WantedGrows(b, f, s, asked, o);
  }

  lemma WantedNotCached(b: Snapshot, f: Facts, s: Situation, asked: set<Object>)
    ensures s.cached !! Wanted(b, f, s, asked)
  {
  }

  /** The situation after the load of a query; a refresh, if one follows, only unmarks. */
  lemma LoadStep(b: Snapshot, f: Facts, s: Situation, ns: string, asked: set<Object>, h: History, o: Object)
    requires ValidSnapshot(b) && KindsKept(f) && Exploring(b, f, s, ns, asked, h)
    requires o.ns == ns && SubQuery(f, o).Some?
    ensures var h' := After(h, Loaded(ns, SubQuery(f, o).value.Kinds(), true));
            var wanted := Wanted(b, f, s, asked + {o});
            && Ready(b, f, h') && Cached(b, h') == s.cached + wanted && Inserted(b, h') == s.inserted
            && Hidden(b, h') == (set x | x in s.hidden && x.ns !in Namespaces(wanted))
            && Acc(h', NAMESPACE_ALL) == s.wide
            && Marked(b, h') == if Refreshing(asked) then {} else s.marked + Namespaces(wanted)
  {
    hide SubQuery, Cached, Hidden, Marked, Inserted, Wanted, Ready, Namespaces;
    var kinds := SubQuery(f, o).value.Kinds();
    SubQueryKinds(f, o, o.kind);
    LoadedForQuery(b, f, s, ns, asked, h, o);
    ReadyAfterLoad(b, f, h, ns, kinds);
    LoadMarks(b, h, ns, kinds);
    WantedGrows(b, f, s, asked, o);
    var before, after := Wanted(b, f, s, asked), Wanted(b, f, s, asked + {o});
    WantedNotCached(b, f, s, asked + {o});
    NamespacesGrow(s.cached, before, after);
    if Refreshing(asked) {
      WantedWithin(b, f, s, asked, o);
      NoNamespaces(s.cached, before);
    }
  }

  lemma NoNamespaces(cached: set<Object>, wanted: set<Object>)
    ensures Namespaces((cached + wanted) - (cached + wanted)) == {}
  {
  }

  /** One query of an object, whatever was asked before: the next situation. */
  lemma AskStep(b: Snapshot, f: Facts, s: Situation, ns: string, asked: set<Object>, h: History, o: Object)
    requires ValidSnapshot(b) && KindsKept(f) && Exploring(b, f, s, ns, asked, h)
    requires o.ns == ns && SubQuery(f, o).Some?
    ensures Exploring(b, f, s, ns, asked + {o}, Asked(h, SubQuery(f, o).value, true))
  {
    hide SubQuery, Cached, Hidden, Marked, Inserted, Wanted, Ready, Namespaces, Acc;
    var h' := After(h, Loaded(ns, SubQuery(f, o).value.Kinds(), true));
    SubQueryKinds(f, o, o.kind);
    LoadStep(b, f, s, ns, asked, h, o);
    RefreshedState(b, h');
    ReadyAfterRefresh(b, f, h');
    assert Refreshing(asked + {o}) <==> Refreshing(asked) || HandlerOf(o.kind).ByGeneric?;
  }

  lemma ReadyAfterRefresh(b: Snapshot, f: Facts, h: History)
    requires Ready(b, f, h)
    ensures Ready(b, f, After(h, Refreshed)) && Inserted(b, After(h, Refreshed)) == Inserted(b, h)
  {
    assert forall ns :: Acc(After(h, Refreshed), ns) == Acc(h, ns);
  }

  lemma LoadMarks(b: Snapshot, h: History, ns: string, m: GroupKindMatcher)
    ensures var h' := After(h, Loaded(ns, m, true));
            var added := Namespaces(Cached(b, h') - Cached(b, h));
            && Marked(b, h') == Marked(b, h) + added
            && Hidden(b, h') == set x | x in Hidden(b, h) && x.ns !in added
  {
  }

  lemma NamespacesGrow(cached: set<Object>, before: set<Object>, after: set<Object>)
    requires before <= after && cached !! after
    ensures Namespaces(after) == Namespaces(before) + Namespaces((cached + after) - (cached + before))
  {
  }

  lemma ChildCachedIff(b: Snapshot, f: Facts, s: Situation, ns: string, asked: set<Object>, h: History,
                       o: Object, c: Object)
    requires ValidSnapshot(b) && Exploring(b, f, s, ns, asked, h)
    requires c in b.objects && c.ns == ns && Asks(f, o, c)
    ensures c in s.cached + Wanted(b, f, s, asked + {o}) <==> (HasKind(s.inserted, ns, c.kind) ==> c in s.cached)
  {
    if c !in s.cached && !HasKind(s.inserted, ns, c.kind) && HasKind(s.cached, ns, c.kind) {
      assert Cached(b, h) == s.cached + Wanted(b, f, s, asked);
      KindClosed(b, h, c);
    }
  }

  lemma FoundIff(b: Snapshot, f: Facts, s: Situation, asked: set<Object>, o: Object, x: Object)
    requires KindsKept(f) && SubQuery(f, o).Some? && InNamespace(asked + {o}, o.ns) && x.ns == o.ns
    ensures Found(b, f, s, o, x) <==>
            !(HandlerOf(o.kind).ByGeneric? && x in s.hidden && x.ns !in Namespaces(Wanted(b, f, s, asked + {o})))
  {
    var wanted := Wanted(b, f, s, asked + {o});
    if HandlerOf(o.kind).ByGeneric? && x in s.hidden {
      if c :| c in b.objects && c.ns == x.ns && c.kind !in f.ignored && !HasKind(s.cached, c.ns, c.kind) {
        SubQueryKinds(f, o, c.kind);
        assert Asks(f, o, c) && c in wanted;
      }
      if x.ns in Namespaces(wanted) {
        var c :| c in wanted && c.ns == x.ns;
        var o' :| o' in asked + {o} && Asks(f, o', c);
        SubQueryKinds(f, o', c.kind);
      }
    }
  }

  lemma AnswerParts(b: Snapshot, f: Facts, s: Situation, o: Object, cached: set<Object>, hidden: set<Object>)
    requires SubQuery(f, o).Some? && hidden <= s.inserted <= cached <= b.objects + s.inserted
    requires forall c :: c in Children(b, f, o) ==>
               (c in cached <==> (HasKind(s.inserted, c.ns, c.kind) ==> c in s.cached))
    requires var q := SubQuery(f, o).value;
             forall x :: x in s.inserted && Picks(q, x) ==> (Found(b, f, s, o, x) <==> !(q.OwnerQuery? && x in hidden))
    ensures var q := SubQuery(f, o).value;
            (set c | c in cached && Picks(q, c) && (q.OwnerQuery? ==> c !in hidden)) == Children(b, f, o) <==>
            Served(b, f, s, o)
  {
    var q := SubQuery(f, o).value;
    var answer := set c | c in cached && Picks(q, c) && (q.OwnerQuery? ==> c !in hidden);
    assert forall c :: c in Children(b, f, o) <==> c in b.objects && Picks(q, c);
    hide Children, SubQuery, Found, HasKind;
    if Served(b, f, s, o) {
      assert forall c :: c in Children(b, f, o) ==> c in answer;
      assert forall c :: c in answer ==> c in b.objects;
    }
    if answer == Children(b, f, o) {
      forall x | x in s.inserted && Picks(q, x) ensures x in b.objects <==> Found(b, f, s, o, x) {
        assert x in answer <==> Found(b, f, s, o, x);
      }
      forall c | c in Children(b, f, o) && HasKind(s.inserted, c.ns, c.kind) ensures c in s.cached {
        assert c in answer;
      }
    }
  }

  /** Whether the query of an object is answered as by the snapshot can be told before the exploration
      starts, whenever the query comes in it: if and only if the object is served. */
  lemma AnsweredIffServed(b: Snapshot, f: Facts, s: Situation, ns: string, asked: set<Object>, h: History, o: Object)
    requires ValidSnapshot(b) && KindsKept(f) && Exploring(b, f, s, ns, asked, h)
    requires o.ns == ns && SubQuery(f, o).Some?
    ensures QueryResult(b, h, SubQuery(f, o).value, true) == Children(b, f, o) <==> Served(b, f, s, o)
  {
    var q := SubQuery(f, o).value;
    var h' := Asked(h, q, true);
    SubQueryKinds(f, o, o.kind);
    AskStep(b, f, s, ns, asked, h, o);
    assert SituationOf(b, h') == Explored(b, f, s, asked + {o});
    CachedIsBackedOrInserted(b, h');
    hide Served, Found, Exploring, HasKind, Cached, Hidden, Inserted;
    forall c | c in Children(b, f, o)
      ensures c in Cached(b, h') <==> (HasKind(s.inserted, c.ns, c.kind) ==> c in s.cached)
    {
      ChildCachedIff(b, f, s, ns, asked, h, o, c);
    }
    forall x | x in s.inserted && Picks(q, x) ensures Found(b, f, s, o, x) <==> !(q.OwnerQuery? && x in Hidden(b, h')) {
      FoundIff(b, f, s, asked, o, x);
    }
    AnswerParts(b, f, s, o, Cached(b, h'), Hidden(b, h'));
  }

  // ----- the analyzers -----

  /** An exploration: where it starts, the namespace and the objects it stays within, and whether every
      query of it is answered as by the snapshot. Whatever comes back, it is of the snapshot or was given
      to Eval, and does not lead out of the ground. */
  datatype Journey = Journey(
    s: Situation,
    ns: string,
    scope: set<Object>,
    served: bool,
    given: set<Object>,
    ground: set<Object>
  )

  ghost predicate AllServed(b: Snapshot, f: Facts, j: Journey) {
    ClosedOver(b, f, {}, j.scope) && InNamespace(j.scope, j.ns) && forall o :: o in j.scope ==> Served(b, f, j.s, o)
  }

  /** No owner references that can be followed on the ground have a cycle. */
  ghost predicate Grounded(b: Snapshot, f: Facts, given: set<Object>, ground: set<Object>, rank: Object -> nat) {
    forall o, c :: o in ground && c in b.objects + given && SubQuery(f, o).Some? && Picks(SubQuery(f, o).value, c) ==>
      c in ground && (HandlerOf(o.kind).ByGeneric? ==> rank(c) < rank(o))
  }

  ghost predicate Underway(e: Evaluator, f: Facts, j: Journey, asked: set<Object>)
    reads e
  {
    && e.Valid() && Inserted(e.cluster, e.history) <= j.given
    && (j.served ==>
          KindsKept(f) && AllServed(e.cluster, f, j) && Exploring(e.cluster, f, j.s, j.ns, asked, e.history))
  }

  /** What has been explored by now comes with everything below it; and nothing is outside the scope. */
  ghost predicate Visited(b: Snapshot, f: Facts, j: Journey, asked: set<Object>, asked': set<Object>) {
    j.served ==>
      && asked <= asked' <= asked + j.scope
      && forall x :: x in asked' && x !in asked ==> Children(b, f, x) <= asked'
  }

  lemma NothingVisited(b: Snapshot, f: Facts, j: Journey, asked: set<Object>)
    ensures Visited(b, f, j, asked, asked)
  {
  }

  lemma VisitedMore(b: Snapshot, f: Facts, j: Journey, asked: set<Object>, asked': set<Object>, asked'': set<Object>)
    requires Visited(b, f, j, asked, asked') && Visited(b, f, j, asked', asked'')
    ensures Visited(b, f, j, asked, asked'') && (j.served ==> asked' <= asked'')
  {
  }

  lemma AnswerIsKnown(b: Snapshot, h: History, q: QuerySpec, ok: bool)
    ensures Inserted(b, Asked(h, q, ok)) == Inserted(b, h)
    ensures QueryResult(b, h, q, ok) <= b.objects + Inserted(b, h)
    ensures forall c :: c in QueryResult(b, h, q, ok) ==> Picks(q, c)
  {
    CachedIsBackedOrInserted(b, Asked(h, q, ok));
  }

  lemma SubQueryIsNoLog(f: Facts, o: Object)
    ensures SubQuery(f, o).Some? ==> !SubQuery(f, o).value.PodLogQuery?
  {
  }

  /** Asking the evaluator for the sub-objects of an object. Where the backend is not known to answer, the
      call ends one way or the other. */
  method LoadChildren(e: Evaluator, f: Facts, o: Object, answered: bool, ghost j: Journey, ghost asked: set<Object>)
    returns (objs: seq<Object>)
    requires Underway(e, f, j, asked) && SubQuery(f, o).Some? && (j.served ==> answered && o in j.scope)
    modifies e
    ensures Underway(e, f, j, asked + {o})
    ensures forall c :: c in Elems(objs) ==> c in e.cluster.objects + j.given && Picks(SubQuery(f, o).value, c)
    ensures j.served ==> Enumerates(objs, Children(e.cluster, f, o)) && Children(e.cluster, f, o) <= j.scope
  {
    var ok: bool := *;
    SubQueryIsNoLog(f, o);
    AnswerIsKnown(e.cluster, e.history, SubQuery(f, o).value, answered || ok);
    if j.served {
      SubQueryKinds(f, o, o.kind);
      AskStep(e.cluster, f, j.s, j.ns, asked, e.history, o);
      AnsweredIffServed(e.cluster, f, j.s, j.ns, asked, e.history, o);
    }
    hide Exploring, SubQuery, Served, Children, QueryResult, Asked;
    objs := e.Load(SubQuery(f, o).value, answered || ok);
  }

  /** Objects without sub-objects count as explored at once. */
  lemma LeavesStep(b: Snapshot, f: Facts, j: Journey, asked: set<Object>, h: History, leaves: set<Object>)
    requires Exploring(b, f, j.s, j.ns, asked, h) && InNamespace(leaves, j.ns)
    requires forall x :: x in leaves ==> SubQuery(f, x).None?
    ensures Exploring(b, f, j.s, j.ns, asked + leaves, h)
  {
    assert Wanted(b, f, j.s, asked + leaves) == Wanted(b, f, j.s, asked);
    assert Refreshing(asked + leaves) <==> Refreshing(asked);
  }

  lemma LogStep(b: Snapshot, f: Facts, j: Journey, asked: set<Object>, h: History, q: QuerySpec)
    requires Exploring(b, f, j.s, j.ns, asked, h) && q.PodLogQuery?
    ensures Exploring(b, f, j.s, j.ns, asked, Asked(h, q, true))
  {
    AccWellFormed(h, q.Namespace());
    PodLogQueryNeverReloads(Acc(h, q.Namespace()));
    ReadyAfterLoad(b, f, h, q.Namespace(), NO_KINDS);
    LoadMarks(b, h, q.Namespace(), NO_KINDS);
    var h' := Asked(h, q, true);
    assert Cached(b, h') == Cached(b, h) && Namespaces(Cached(b, h') - Cached(b, h)) == {};
    assert SituationOf(b, h') == SituationOf(b, h);
  }

  /** The logs of every container that is in trouble; they are shown, and judge nothing. */
  method LoadLogs(e: Evaluator, f: Facts, o: Object, cs: seq<Analyze.Container>,
                  ghost j: Journey, ghost asked: set<Object>)
    requires Underway(e, f, j, asked)
    modifies e
    ensures Underway(e, f, j, asked)
  {
    for i := 0 to |cs|
      invariant Underway(e, f, j, asked)
    {
      hide Exploring, AllServed;
      var cond := Analyze.ContainerCondition(cs[i]);
      if cond.Some? && Rank(cond.value.st.result) > Rank(Ok) {
        var q := PodLogQuery(o, cs[i].name);
        AnswerIsKnown(e.cluster, e.history, q, true);
        if j.served {
          LogStep(e.cluster, f, j, asked, e.history, q);
        }
        var _ := e.Load(q, true);
      }
    }
  }

  method AnalyzePod(e: Evaluator, f: Facts, o: Object, ghost j: Journey, ghost asked: set<Object>)
    returns (t: ObjectStatus)
    requires Underway(e, f, j, asked)
    modifies e
    ensures Underway(e, f, j, asked)
    ensures t == Analyze.PodStatus(PodOf(f, o))
  {
    hide Underway, Analyze.PodStatus;
    if f.conds(o).Some? && f.pod(o).Some? {
      LoadLogs(e, f, o, f.pod(o).value.containers, j, asked);
    }
    t := Analyze.AnalyzePod(PodOf(f, o));
  }

  method AnalyzePods(e: Evaluator, f: Facts, objs: seq<Object>, ghost j: Journey, ghost asked: set<Object>)
    returns (ts: seq<ObjectStatus>)
    requires Underway(e, f, j, asked)
    modifies e
    ensures Underway(e, f, j, asked)
    ensures ts == Analyze.PodStatuses(Pods(f, objs))
  {
    hide Underway, Analyze.PodStatus;
    ts := [];
    for i := 0 to |objs|
      invariant Underway(e, f, j, asked)
      invariant ts == Analyze.PodStatuses(Pods(f, objs))[..i]
    {
      var t := AnalyzePod(e, f, objs[i], j, asked);
      ts := ts + [t];
    }
  }

  lemma ChildPodsVisited(b: Snapshot, f: Facts, j: Journey, asked: set<Object>, h: History, o: Object)
    requires Exploring(b, f, j.s, j.ns, asked + {o}, h) && o in j.scope && Children(b, f, o) <= j.scope
    requires InNamespace(j.scope, j.ns) && (HandlerOf(o.kind).ByReplicaSet? || HandlerOf(o.kind).ByService?)
    ensures var asked' := asked + {o} + Children(b, f, o);
            Exploring(b, f, j.s, j.ns, asked', h) && Visited(b, f, j, asked, asked')
  {
    forall c | c in Children(b, f, o) ensures SubQuery(f, c).None? {
      assert c.kind == GK_POD;
    }
    LeavesStep(b, f, j, asked + {o}, h, Children(b, f, o));
  }

  /** The sub-objects of an object that are all pods, analyzed. */
  method AnalyzeChildPods(e: Evaluator, f: Facts, o: Object, answered: bool, ghost j: Journey, ghost asked: set<Object>)
    returns (ts: seq<ObjectStatus>, ghost pods: seq<Analyze.Pod>, ghost asked': set<Object>)
    requires Underway(e, f, j, asked) && (j.served ==> answered && o in j.scope)
    requires HandlerOf(o.kind).ByReplicaSet? || HandlerOf(o.kind).ByService?
    modifies e
    ensures Underway(e, f, j, asked') && Visited(e.cluster, f, j, asked, asked')
    ensures ts == Analyze.PodStatuses(pods) && (j.served ==> o in asked' && ShowsPods(e.cluster, f, o, pods))
  {
    hide Exploring, Served, Analyze.PodStatus;
    var objs := LoadChildren(e, f, o, answered, j, asked);
    ts := AnalyzePods(e, f, objs, j, asked + {o});
    pods := Pods(f, objs);
    asked' := asked + {o} + Children(e.cluster, f, o);
    if j.served {
      ChildPodsVisited(e.cluster, f, j, asked, e.history, o);
    }
  }

  method AnalyzeReplicaSet(e: Evaluator, f: Facts, o: Object, answered: bool,
                           ghost j: Journey, ghost asked: set<Object>)
    returns (t: ObjectStatus, ghost rs: Analyze.ReplicaSet, ghost asked': set<Object>)
    requires Underway(e, f, j, asked) && (j.served ==> answered && o in j.scope) && HandlerOf(o.kind).ByReplicaSet?
    modifies e
    ensures Underway(e, f, j, asked') && Visited(e.cluster, f, j, asked, asked')
    ensures rs.specReplicas == f.replicas(o) && t == Analyze.ReplicaSetStatus(rs)
    ensures j.served ==> o in asked' && IsReplicaSet(e.cluster, f, o, rs)
  {
    hide Underway, Visited, ShowsPods, Analyze.PodStatuses;
    var ts;
    ghost var pods;
    ts, pods, asked' := AnalyzeChildPods(e, f, o, answered, j, asked);
    rs := Analyze.ReplicaSet(SubjectOf(o), pods, f.conds(o), f.replicas(o), f.counts(o));
    if f.conds(o).None? || f.counts(o).None? {
      t := Analyze.UnknownStatus(SubjectOf(o));
    } else {
      var synthetic := Analyze.ReplicaSynthetic(f.replicas(o), f.counts(o).value);
      t := Analyze.AggregateResult(SubjectOf(o), ts, f.conds(o).value + synthetic);
    }
  }

  /** The replica sets of a deployment, analyzed, without those scaled down to zero. */
  method AnalyzeLiveSets(e: Evaluator, f: Facts, objs: seq<Object>, answered: bool,
                         ghost j: Journey, ghost asked: set<Object>)
    returns (live: seq<ObjectStatus>, ghost sets: seq<Analyze.ReplicaSet>, ghost asked': set<Object>)
    requires Underway(e, f, j, asked) && (j.served ==> answered && Elems(objs) <= j.scope)
    requires forall x :: x in Elems(objs) ==> HandlerOf(x.kind).ByReplicaSet?
    modifies e
    ensures Underway(e, f, j, asked') && Visited(e.cluster, f, j, asked, asked') && live == Analyze.LiveSets(sets)
    ensures j.served ==> Elems(objs) <= asked' && AreReplicaSets(e.cluster, f, objs, sets)
  {
    hide Underway, IsReplicaSet, Analyze.ReplicaSetStatus, Children, Visited;
    NothingVisited(e.cluster, f, j, asked);
    live, sets, asked' := [], [], asked;
    for i := 0 to |objs|
      invariant Underway(e, f, j, asked') && Visited(e.cluster, f, j, asked, asked')
      invariant live == Analyze.LiveSets(sets)
      invariant j.served ==> AreReplicaSets(e.cluster, f, objs[..i], sets)
      invariant j.served ==> forall k :: 0 <= k < i ==> objs[k] in asked'
    {
      hide HandlerOf, Analyze.LiveSets;
      assert objs[i] in Elems(objs);
      var t;
      ghost var rs, more;
      t, rs, more := AnalyzeReplicaSet(e, f, objs[i], answered, j, asked');
      VisitedMore(e.cluster, f, j, asked, asked', more);
      asked' := more;
      LiveSetsSnoc(sets, rs);
      sets := sets + [rs];
      if f.replicas(objs[i]) != Some(0) {
        live := live + [t];
      }
    }
    assert objs[..|objs|] == objs;
  }

  lemma ParentVisited(b: Snapshot, f: Facts, j: Journey, asked: set<Object>, asked': set<Object>, o: Object)
    requires Visited(b, f, j, asked + {o}, asked') && (j.served ==> o in j.scope && Children(b, f, o) <= asked')
    ensures Visited(b, f, j, asked, asked') && (j.served ==> o in asked')
  {
  }

  method AnalyzeDeployment(e: Evaluator, f: Facts, o: Object, answered: bool,
                           ghost j: Journey, ghost asked: set<Object>)
    returns (t: ObjectStatus, ghost r: Analyze.Resource, ghost asked': set<Object>)
    requires Underway(e, f, j, asked) && (j.served ==> answered && o in j.scope) && HandlerOf(o.kind).ByDeployment?
    modifies e
    ensures Underway(e, f, j, asked') && Visited(e.cluster, f, j, asked, asked') && t == Analyze.Analyzed(r)
    ensures j.served ==> o in asked' && Unfolds(e.cluster, f, o, r)
  {
    hide Underway, Visited, AreReplicaSets, Analyze.LiveSets, Analyze.Settled;
    var objs := LoadChildren(e, f, o, answered, j, asked);
    assert forall x :: x in Elems(objs) ==> x.kind == GK_REPLICA_SET;
    var live;
    ghost var sets;
    live, sets, asked' := AnalyzeLiveSets(e, f, objs, answered, j, asked + {o});
    assert j.served ==> ShowsSets(e.cluster, f, o, sets);
    ParentVisited(e.cluster, f, j, asked, asked', o);
    r := Analyze.Deployment(SubjectOf(o), sets, f.conds(o));
    if f.conds(o).None? {
      t := Analyze.UnknownStatus(SubjectOf(o));
    } else {
      t := Analyze.AggregateResult(SubjectOf(o), live, Analyze.Settled(f.conds(o).value, live));
    }
  }

  method AnalyzeService(e: Evaluator, f: Facts, o: Object, answered: bool, ghost j: Journey, ghost asked: set<Object>)
    returns (t: ObjectStatus, ghost r: Analyze.Resource, ghost asked': set<Object>)
    requires Underway(e, f, j, asked) && (j.served ==> answered && o in j.scope) && HandlerOf(o.kind).ByService?
    modifies e
    ensures Underway(e, f, j, asked') && Visited(e.cluster, f, j, asked, asked') && t == Analyze.Analyzed(r)
    ensures j.served ==> o in asked' && Unfolds(e.cluster, f, o, r)
  {
    hide Underway, Visited, ShowsPods, Analyze.PodStatuses;
    var ts;
    ghost var pods;
    ts, pods, asked' := AnalyzeChildPods(e, f, o, answered, j, asked);
    r := Analyze.Service(SubjectOf(o), pods);
    t := Analyze.AggregateResult(SubjectOf(o), ts, []);
  }

  lemma LeafVisited(e: Evaluator, f: Facts, j: Journey, asked: set<Object>, o: Object)
    requires Underway(e, f, j, asked) && (j.served ==> o in j.scope) && SubQuery(f, o).None?
    ensures Underway(e, f, j, asked + {o}) && Visited(e.cluster, f, j, asked, asked + {o})
  {
    if j.served {
      LeavesStep(e.cluster, f, j, asked, e.history, {o});
    }
  }

  /** Evaluates an object and everything below it, each object by the analyzer of its kind. It ends
      because the owner references have no cycle. If every query on the way is answered as by the
      snapshot, what it builds is the snapshot's tree; and whatever the queries are answered, it is a tree
      that an analyzer builds. */
  method AnalyzeObject(e: Evaluator, f: Facts, o: Object, answered: bool,
                       ghost rank: Object -> nat, ghost j: Journey, ghost asked: set<Object>)
    returns (t: ObjectStatus, ghost r: Analyze.Resource, ghost asked': set<Object>)
    requires Underway(e, f, j, asked) && (j.served ==> answered && o in j.scope)
    requires o in j.ground && Grounded(e.cluster, f, j.given, j.ground, rank)
    modifies e
    ensures Underway(e, f, j, asked') && Visited(e.cluster, f, j, asked, asked') && t == Analyze.Analyzed(r)
    ensures j.served ==> o in asked' && Unfolds(e.cluster, f, o, r)
    decreases rank(o), 1
  {
    hide Underway, Visited, Children, Grounded, Analyze.PodStatus, Analyze.ReplicaSetStatus, IsReplicaSet;
    match HandlerOf(o.kind)
    case ByPod =>
      t := AnalyzePod(e, f, o, j, asked);
      LeafVisited(e, f, j, asked, o);
      r, asked' := Analyze.PodResource(PodOf(f, o)), asked + {o};
    case ByReplicaSet =>
      ghost var rs;
      t, rs, asked' := AnalyzeReplicaSet(e, f, o, answered, j, asked);
      r := Analyze.ReplicaSetResource(rs);
    case ByDeployment => t, r, asked' := AnalyzeDeployment(e, f, o, answered, j, asked);
    case ByService => t, r, asked' := AnalyzeService(e, f, o, answered, j, asked);
    case ByGreen =>
      t := ObjectStatus(SubjectOf(o), Analyze.FINE, [], []);
      LeafVisited(e, f, j, asked, o);
      r, asked' := Analyze.AlwaysGreen(SubjectOf(o)), asked + {o};
    case ByGeneric => t, r, asked' := AnalyzeGeneric(e, f, o, answered, rank, j, asked);
  }

  lemma OnTheGround(b: Snapshot, f: Facts, j: Journey, rank: Object -> nat, o: Object, objs: seq<Object>)
    requires o in j.ground && Grounded(b, f, j.given, j.ground, rank) && HandlerOf(o.kind).ByGeneric?
    requires forall c :: c in Elems(objs) ==> c in b.objects + j.given && Picks(SubQuery(f, o).value, c)
    ensures forall i :: 0 <= i < |objs| ==> objs[i] in j.ground && rank(objs[i]) < rank(o)
  {
    assert forall i :: 0 <= i < |objs| ==> objs[i] in Elems(objs);
  }

  method AnalyzeGeneric(e: Evaluator, f: Facts, o: Object, answered: bool,
                        ghost rank: Object -> nat, ghost j: Journey, ghost asked: set<Object>)
    returns (t: ObjectStatus, ghost r: Analyze.Resource, ghost asked': set<Object>)
    requires Underway(e, f, j, asked) && (j.served ==> answered && o in j.scope)
    requires o in j.ground && Grounded(e.cluster, f, j.given, j.ground, rank) && HandlerOf(o.kind).ByGeneric?
    modifies e
    ensures Underway(e, f, j, asked') && Visited(e.cluster, f, j, asked, asked') && t == Analyze.Analyzed(r)
    ensures j.served ==> o in asked' && Unfolds(e.cluster, f, o, r)
    decreases rank(o), 0
  {
    hide Underway, Visited, Children, Unfolds, Grounded, SubQuery, Analyze.Analyzed;
    var objs := LoadOwned(e, f, o, answered, rank, j, asked);
    var subs: seq<ObjectStatus> := [];
    ghost var owned: seq<Analyze.Resource> := [];
    asked' := asked + {o};
    NothingVisited(e.cluster, f, j, asked');
    for i := 0 to |objs|
      invariant Underway(e, f, j, asked') && Visited(e.cluster, f, j, asked + {o}, asked')
      invariant |owned| == i && subs == Analyze.AnalyzedAll(owned)
      invariant j.served ==>
                  forall k :: 0 <= k < i ==> Unfolds(e.cluster, f, objs[k], owned[k]) && objs[k] in asked'
    {
      assert objs[i] in Elems(objs);
      var sub;
      ghost var part, more;
      sub, part, more := AnalyzeObject(e, f, objs[i], answered, rank, j, asked');
      VisitedMore(e.cluster, f, j, asked + {o}, asked', more);
      asked' := more;
      assert (owned + [part])[..|owned|] == owned;
      subs, owned := subs + [sub], owned + [part];
    }
    assert j.served ==> forall c :: c in Elems(objs) ==> c in asked';
    ParentVisited(e.cluster, f, j, asked, asked', o);
    t, r := JudgeGeneric(f, o, subs, owned);
    if j.served {
      GenericUnfolds(e.cluster, f, o, objs, r);
    }
  }

  method LoadOwned(e: Evaluator, f: Facts, o: Object, answered: bool,
                   ghost rank: Object -> nat, ghost j: Journey, ghost asked: set<Object>)
    returns (objs: seq<Object>)
    requires Underway(e, f, j, asked) && (j.served ==> answered && o in j.scope)
    requires o in j.ground && Grounded(e.cluster, f, j.given, j.ground, rank) && HandlerOf(o.kind).ByGeneric?
    modifies e
    ensures Underway(e, f, j, asked + {o})
    ensures forall i :: 0 <= i < |objs| ==> objs[i] in j.ground && rank(objs[i]) < rank(o)
    ensures j.served ==> Enumerates(objs, Children(e.cluster, f, o)) && Children(e.cluster, f, o) <= j.scope
  {
    hide Underway, Grounded;
    objs := LoadChildren(e, f, o, answered, j, asked);
    OnTheGround(e.cluster, f, j, rank, o, objs);
  }

  method JudgeGeneric(f: Facts, o: Object, subs: seq<ObjectStatus>, ghost owned: seq<Analyze.Resource>)
    returns (t: ObjectStatus, ghost r: Analyze.Resource)
    requires subs == Analyze.AnalyzedAll(owned)
    ensures r == Analyze.Generic(SubjectOf(o), f.hasStatus(o), owned, f.generation(o), f.conds(o))
    ensures t == Analyze.Analyzed(r)
  {
    r := Analyze.Generic(SubjectOf(o), f.hasStatus(o), owned, f.generation(o), f.conds(o));
    GenericStatus(r);
    hide Analyze.Analyzed, Analyze.AnalyzedAll;
    if !f.hasStatus(o) && |subs| == 0 {
      return ObjectStatus(SubjectOf(o), Analyze.FINE, subs, []), r;
    }
    if f.conds(o).None? {
      return Analyze.UnknownStatus(SubjectOf(o)), r;
    }
    t := Analyze.AggregateResult(SubjectOf(o), subs, f.generation(o) + f.conds(o).value);
  }

  lemma GenericUnfolds(b: Snapshot, f: Facts, o: Object, objs: seq<Object>, r: Analyze.Resource)
    requires HandlerOf(o.kind).ByGeneric? && r.Generic? && Enumerates(objs, Children(b, f, o)) && |r.owned| == |objs|
    requires r == Analyze.Generic(SubjectOf(o), f.hasStatus(o), r.owned, f.generation(o), f.conds(o))
    requires forall k :: 0 <= k < |objs| ==> Unfolds(b, f, objs[k], r.owned[k])
    ensures Unfolds(b, f, o, r)
  {
  }
}
