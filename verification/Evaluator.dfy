/**
 The evaluator: a lazily filled cache over the cluster, answering queries from its indexes.
 */
module Evaluator {
  import opened Base
  import opened Matcher
  import opened Cluster
  import opened History
  import opened EvalIndex

  datatype Selector = NoSelector | Selector(matches: map<string, string> -> bool)

  datatype QuerySpec =
    | KindQuery(gk: GroupKindMatcher, ns: string)
    | OwnerQuery(obj: Object, gk: GroupKindMatcher, namespaceOverride: Option<string>)
    | LabelQuery(obj: Object, gk: GroupKindMatcher, selector: Selector)
    | RefQuery(obj: Object, refKind: GroupKind, refUid: string, refName: string)
    | PodLogQuery(obj: Object, container: string)
  {
    function Namespace(): string {
      match this
      case KindQuery(_, ns) => ns
      case OwnerQuery(o, _, override) => if override.Some? then override.value else o.ns
      case LabelQuery(o, _, _) => o.ns
      case RefQuery(o, _, _, _) => o.ns
      case PodLogQuery(o, _) => o.ns
    }

    function Kinds(): GroupKindMatcher {
      match this
      case KindQuery(m, _) => m
      case OwnerQuery(_, m, _) => m
      case LabelQuery(_, m, _) => m
      case RefQuery(_, kind, _, _) => GroupKindMatcher(false, [kind], [])
      case PodLogQuery(_, _) => NO_KINDS
    }

    /** What the query asks of an object beyond its namespace and kind. */
    predicate Selects(c: Object) {
      match this
      case KindQuery(_, _) => true
      case OwnerQuery(o, _, _) => o.uid in c.owners
      case LabelQuery(_, _, sel) => sel.Selector? && sel.matches(c.labels)
      case RefQuery(_, _, uid, name) => c.uid == uid || c.name == name
      case PodLogQuery(_, _) => false
    }
  }

  function LogObject(container: string): Object {
    Object("", "", GroupKind("kube-health.io", "Log"), container, [], map[], "")
  }

  ghost function HiddenUids(b: Snapshot, h: History): set<string> {
    set x | x in Hidden(b, h) :: x.uid
  }

  /** What a reset leaves: it blanks the marked namespaces but keeps their number. */
  ghost function Blanked(marked: set<string>): set<string> {
    if marked == {} then {} else {NAMESPACE_NONE}
  }

  /** The history after a query; one by owner refreshes the owner table once its load is done. */
  ghost function Asked(h: History, q: QuerySpec, ok: bool): History {
    var g := After(h, Loaded(q.Namespace(), q.Kinds(), ok));
    if q.OwnerQuery? then After(g, Refreshed) else g
  }

  /** What a query picks out of the objects it is given. */
  predicate Picks(q: QuerySpec, c: Object) {
    InNs(c, q.Namespace()) && Match(q.Kinds(), c.kind) && q.Selects(c)
  }

  /** The answer to a query, said by the history alone. */
  ghost function QueryResult(b: Snapshot, h: History, q: QuerySpec, ok: bool): set<Object> {
    var h' := Asked(h, q, ok);
    set c | c in Cached(b, h') && Picks(q, c) && (q.OwnerQuery? ==> c !in Hidden(b, h'))
  }

  /** The owned candidates, in the order of the candidates. */
  function OwnedBy(candidates: seq<Object>, owner: string, unindexed: set<string>): seq<Object> {
    if candidates == [] then []
    else
      var last := candidates[|candidates| - 1];
      OwnedBy(candidates[..|candidates| - 1], owner, unindexed)
      + if owner in last.owners && last.uid !in unindexed then [last] else []
  }

  function KeepIf(candidates: seq<Object>, q: QuerySpec): seq<Object> {
    if candidates == [] then []
    else
      var last := candidates[|candidates| - 1];
      KeepIf(candidates[..|candidates| - 1], q) + if q.Selects(last) then [last] else []
  }

  lemma {:induction false} OwnedByFacts(candidates: seq<Object>, owner: string, unindexed: set<string>)
    requires NoDup(candidates)
    ensures NoDup(OwnedBy(candidates, owner, unindexed))
    ensures forall c :: c in OwnedBy(candidates, owner, unindexed) <==>
                        c in candidates && owner in c.owners && c.uid !in unindexed
  {
    if candidates == [] {
    } else {
      OwnedByFacts(candidates[..|candidates| - 1], owner, unindexed);
      assert candidates == candidates[..|candidates| - 1] + [candidates[|candidates| - 1]];
    }
  }

  lemma {:induction false} KeepIfFacts(candidates: seq<Object>, q: QuerySpec)
    requires NoDup(candidates)
    ensures NoDup(KeepIf(candidates, q))
    ensures forall c :: c in KeepIf(candidates, q) <==> c in candidates && q.Selects(c)
  {
    if candidates == [] {
    } else {
      KeepIfFacts(candidates[..|candidates| - 1], q);
      assert candidates == candidates[..|candidates| - 1] + [candidates[|candidates| - 1]];
    }
  }

  /** Candidate by candidate, in their order. */
  lemma KeptInOrder(init: seq<Object>, last: Object, owner: string, unindexed: set<string>, q: QuerySpec)
    ensures OwnedBy([], owner, unindexed) == [] == KeepIf([], q)
    ensures OwnedBy(init + [last], owner, unindexed) ==
            OwnedBy(init, owner, unindexed) + if owner in last.owners && last.uid !in unindexed then [last] else []
    ensures KeepIf(init + [last], q) == KeepIf(init, q) + if q.Selects(last) then [last] else []
  {
    assert (init + [last])[..|init|] == init;
  }

  method KeepChildren(candidates: seq<Object>, childUIDs: set<string>, ghost owner: string,
                      ghost unindexed: set<string>)
    returns (ret: seq<Object>)
    requires forall c :: c in candidates ==> (c.uid in childUIDs <==> owner in c.owners && c.uid !in unindexed)
    ensures ret == OwnedBy(candidates, owner, unindexed)
  {
    ret := [];
    for i := 0 to |candidates|
      invariant ret == OwnedBy(candidates[..i], owner, unindexed)
    {
      assert candidates[i] in candidates && candidates[..i + 1][..i] == candidates[..i];
      if candidates[i].uid in childUIDs {
        ret := ret + [candidates[i]];
      }
    }
    assert candidates[..|candidates|] == candidates;
  }

  method KeepSelected(candidates: seq<Object>, q: QuerySpec) returns (ret: seq<Object>)
    ensures ret == KeepIf(candidates, q)
  {
    ret := [];
    for i := 0 to |candidates|
      invariant ret == KeepIf(candidates[..i], q)
    {
      assert candidates[..i + 1][..i] == candidates[..i];
      if q.Selects(candidates[i]) {
        ret := ret + [candidates[i]];
      }
    }
    assert candidates[..|candidates|] == candidates;
  }

  class Evaluator {
    const cluster: Snapshot

    var cache: Store
    var nsCache: Index
    var ownership: Ownership
    var refreshNs: seq<string>

    ghost var history: History      // operations since the last Reset
    ghost var indexed: set<string>     // UIDs whose owner references are in the owner table

    ghost function Unseen(): set<string>
      reads this
    {
      Unindexed(cache, indexed, refreshNs)
    }

    /** The structural part of the invariant: what every internal step keeps. */
    ghost predicate Structured()
      reads this
    {
      && ValidSnapshot(cluster)
      && Coherent(cache, nsCache)
      && KindsComplete(cluster, cache, AllBucketKinds(nsCache))
      && OwnersAgree(cache, ownership, indexed)
      && NAMESPACE_ALL !in refreshNs
    }

    /** Holds between any two operations: the indexes agree with each other, and they hold exactly
        what the history since the last reset accounts for. */
    ghost predicate Valid()
      reads this
    {
      && Structured()
      && Accounted(cluster, history, cache, nsCache)
      && (forall ns :: ns in refreshNs <==> ns in Marked(cluster, history))
      && Unseen() == HiddenUids(cluster, history)
    }

    constructor (snapshot: Snapshot)
      requires ValidSnapshot(snapshot)
      ensures Valid() && history == Start({}) && cluster == snapshot
    {
      cluster := snapshot;
      cache, nsCache, ownership, refreshNs := map[], map[], map[], [];
      history, indexed := Start({}), {};
    }

    /** clear() on the slice of marked namespaces blanks its entries and keeps its length. */
    method Reset()
      requires Valid()
      modifies this
      ensures Valid() && history == Start(Blanked(Marked(cluster, old(history))))
      ensures cache == map[] && nsCache == map[] && ownership == map[]
      ensures |refreshNs| == old(|refreshNs|) && forall ns :: ns in refreshNs ==> ns == NAMESPACE_NONE
    {
      ghost var blanked := Blanked(Marked(cluster, history));
      assert refreshNs == [] <==> Marked(cluster, history) == {} by {
        if refreshNs != [] { assert refreshNs[0] in refreshNs; }
      }
      cache, nsCache, ownership := map[], map[], map[];
      refreshNs := seq(|refreshNs|, _ => NAMESPACE_NONE);
      assert refreshNs != [] ==> refreshNs[0] == NAMESPACE_NONE && refreshNs[0] in refreshNs;
      history, indexed := Start(blanked), {};
    }

    method GetNsCache(ns: string) returns (n: NsCache)
      modifies this`nsCache
      ensures nsCache == Touch(old(nsCache), ns) && n == nsCache[ns]
    {
      if ns !in nsCache {
        nsCache := nsCache[ns := NEW_NS_CACHE];
      }
      n := nsCache[ns];
    }

    /** Filter is the plain scan of the UID map: nothing missed, nothing twice, in one namespace
        or in all of them. */
    method Filter(ns: string, m: GroupKindMatcher) returns (ret: seq<Object>)
      requires Coherent(cache, nsCache)
      modifies this`nsCache
      ensures nsCache == if ns == NAMESPACE_ALL then old(nsCache) else Touch(old(nsCache), ns)
      ensures NoDup(ret) && Elems(ret) == Answer(cache.Values, ns, m)
      decreases ns == NAMESPACE_ALL
    {
      ret := [];
      ghost var done: set<string> := {};
      if ns == NAMESPACE_ALL {
        var todo := nsCache.Keys;
        while todo != {}
          invariant nsCache == old(nsCache) && todo !! done && todo + done == nsCache.Keys
          invariant NoDup(ret)
          invariant Elems(ret) == set c | c in cache.Values && c.ns in done && Match(m, c.kind)
          decreases todo
        {
          var n :| n in todo;
          todo := todo - {n};
          if n != NAMESPACE_ALL {
            var part := Filter(n, m);
            NoDupConcat(ret, part);
            ElemsConcat(ret, part);
            ret := ret + part;
          }
          done := done + {n};
          assert forall c :: c in cache.Values ==> c.ns != NAMESPACE_ALL;
        }
        forall c | c in cache.Values ensures c.ns in done {
          var u :| u in cache && cache[u] == c;
          assert InBucket(cache[u], nsCache);
        }
      } else {
        TouchKeeps(cache, nsCache, ns);
        var n := GetNsCache(ns);
        var todo := n.objects.Keys;
        ghost var kinds: set<GroupKind> := {};
        while todo != {}
          invariant nsCache == Touch(old(nsCache), ns) && todo !! kinds && todo + kinds == n.objects.Keys
          invariant NoDup(ret)
          invariant Elems(ret) == set c | c in cache.Values && c.ns == ns && c.kind in kinds && Match(m, c.kind)
          decreases todo
        {
          var gk :| gk in todo;
          todo := todo - {gk};
          if Match(m, gk) {
            BucketExact(cache, nsCache, ns, gk);
            assert BucketOk(cache, ns, gk, n.objects[gk]);
            NoDupConcat(ret, n.objects[gk]);
            ElemsConcat(ret, n.objects[gk]);
            ret := ret + n.objects[gk];
          }
          kinds := kinds + {gk};
        }
        forall c | c in cache.Values && c.ns == ns ensures c.kind in kinds {
          BucketIff(cache, nsCache, ns, c.kind);
        }
      }
    }

    method UpdateCache(obj: Object) returns (added: bool)
      requires Coherent(cache, nsCache) && obj.ns != NAMESPACE_ALL
      modifies this`cache, this`nsCache
      ensures added == (obj.uid !in old(cache)) && cache == Insert(old(cache), obj)
      ensures Coherent(cache, nsCache)
      ensures forall n :: MatcherOf(nsCache, n) == MatcherOf(old(nsCache), n)
      ensures AllBucketKinds(nsCache) == AllBucketKinds(old(nsCache))
      ensures old(nsCache.Keys) <= nsCache.Keys
    {
      if obj.uid in cache {
        return false;
      }
      PutKeeps(cache, nsCache, obj);
      cache := cache[obj.uid := obj];
      var n := GetNsCache(obj.ns);
      nsCache := nsCache[obj.ns := Append(n, obj)];
      added := true;
    }

    method LoadedKinds(n: NsCache) returns (gks: seq<GroupKind>)
      ensures Elems(gks) == n.objects.Keys
    {
      gks := [];
      var todo := n.objects.Keys;
      while todo != {}
        invariant todo <= n.objects.Keys && Elems(gks) == n.objects.Keys - todo
      {
        var gk :| gk in todo;
        todo := todo - {gk};
        ElemsConcat(gks, [gk]);
        gks := gks + [gk];
      }
    }

    /** A successful load adds exactly what the history says it fetches, and marks the namespaces of
        everything it added. A failed one leaves the cache alone. */
    method LoadNamespace(ns: string, ok: bool)
      requires Structured()
      modifies this`cache, this`nsCache, this`refreshNs
      ensures Structured()
      ensures forall n :: MatcherOf(nsCache, n) == MatcherOf(old(nsCache), n)
      ensures Extends(old(cache), cache)
      ensures cache.Values == old(cache.Values) +
                (if ok then Fetched(cluster, old(cache.Values), ns, MatcherOf(old(nsCache), ns)) else {})
      ensures forall n :: n in refreshNs <==> n in old(refreshNs) || n in NewNamespaces(old(cache), cache)
    {
      TouchKeeps(cache, nsCache, ns);
      var n := GetNsCache(ns);
      var gksLoaded := LoadedKinds(n);
      if !ok {
        return;
      }
      var objs := ListWithMatcher(cluster, ns, n.matcher, gksLoaded);
      var touchedNs := InsertObjects(ns, objs);
      FetchedIsSelected(cluster, old(cache), Touch(old(nsCache), ns), ns, n.matcher, gksLoaded);
      if ns == NAMESPACE_ALL {
        AllLoadCompletes(cluster, old(cache), cache, n.matcher, gksLoaded);
      }
      MarkForRefresh(touchedNs);
      ExtendKeepsOwners(old(cache), cache, ownership, indexed);
    }

    method InsertObjects(ns: string, objs: seq<Object>) returns (touchedNs: set<string>)
      requires ValidSnapshot(cluster) && Coherent(cache, nsCache) && ns in nsCache
      requires Elems(objs) <= cluster.objects
      modifies this`cache, this`nsCache
      ensures Coherent(cache, nsCache)
      ensures forall n :: MatcherOf(nsCache, n) == MatcherOf(old(nsCache), n)
      ensures Extends(old(cache), cache)
      ensures cache.Values == old(cache.Values) + set x | x in Elems(objs) && x.uid !in old(cache)
      ensures touchedNs == NewNamespaces(old(cache), cache) && NAMESPACE_ALL !in touchedNs
      ensures AllBucketKinds(nsCache) <= AllBucketKinds(old(nsCache)) +
                (if ns == NAMESPACE_ALL then set o | o in objs :: o.kind else {})
    {
      touchedNs := {};
      ghost var kinds := if ns == NAMESPACE_ALL then set o | o in objs :: o.kind else {};
      for i := 0 to |objs|
        invariant Coherent(cache, nsCache) && ns in nsCache
        invariant cache == InsertAll(old(cache), objs[..i])
        invariant forall n :: MatcherOf(nsCache, n) == MatcherOf(old(nsCache), n)
        invariant old(cache.Keys) <= cache.Keys
        invariant touchedNs == NewNamespaces(old(cache), cache) && NAMESPACE_ALL !in touchedNs
        invariant AllBucketKinds(nsCache) <= AllBucketKinds(old(nsCache)) + kinds
      {
        hide NewNamespaces, Coherent;
        var obj := objs[i];
        assert obj in Elems(objs);
        assert objs[..i + 1][..i] == objs[..i];
        ghost var before := cache;
        var added := InsertObject(ns, obj);
        NewNamespacesStep(old(cache), before, obj);
        if added {
          touchedNs := touchedNs + {obj.ns};
        }
      }
      assert objs[..|objs|] == objs;
      assert forall o :: o in objs ==> o in Elems(objs);
      InsertAllFacts(old(cache), objs);
    }

    method InsertObject(ns: string, obj: Object) returns (added: bool)
      requires Coherent(cache, nsCache) && obj.ns != NAMESPACE_ALL && ns in nsCache
      modifies this`cache, this`nsCache
      ensures added == (obj.uid !in old(cache)) && cache == Insert(old(cache), obj)
      ensures Coherent(cache, nsCache) && ns in nsCache
      ensures forall n :: MatcherOf(nsCache, n) == MatcherOf(old(nsCache), n)
      ensures AllBucketKinds(nsCache) <= AllBucketKinds(old(nsCache)) + (if ns == NAMESPACE_ALL then {obj.kind} else {})
    {
      added := UpdateCache(obj);
      if added && ns == NAMESPACE_ALL {
        PutAllKeeps(cache, nsCache, obj);
        nsCache := nsCache[ns := Append(nsCache[ns], obj)];
      }
    }

    method MarkForRefresh(touchedNs: set<string>)
      modifies this`refreshNs
      ensures forall n :: n in refreshNs <==> n in old(refreshNs) || n in touchedNs
    {
      var todo := touchedNs;
      while todo != {}
        invariant todo <= touchedNs
        invariant forall n :: n in refreshNs <==> n in old(refreshNs) || n in touchedNs - todo
      {
        var ns :| ns in todo;
        todo := todo - {ns};
        if ns !in refreshNs {
          refreshNs := refreshNs + [ns];
        }
      }
    }

    method GetAll(n: NsCache) returns (ret: seq<Object>)
      ensures Elems(ret) == set gk, o | gk in n.objects && o in n.objects[gk] :: o
    {
      ret := [];
      var todo := n.objects.Keys;
      ghost var done: set<GroupKind> := {};
      while todo != {}
        invariant todo !! done && todo + done == n.objects.Keys
        invariant Elems(ret) == set gk, o | gk in done && o in n.objects[gk] :: o
        decreases todo
      {
        var gk :| gk in todo;
        todo := todo - {gk};
        ElemsConcat(ret, n.objects[gk]);
        ret := ret + n.objects[gk];
        done := done + {gk};
      }
      assert done == n.objects.Keys;
    }

    method RecordOwners(obj: Object)
      modifies this`ownership
      ensures forall p, c :: Edge(ownership, p, c) <==>
                             Edge(old(ownership), p, c) || (c == obj.uid && p in obj.owners)
    {
      for j := 0 to |obj.owners|
        invariant forall p, c :: Edge(ownership, p, c) <==>
                                 Edge(old(ownership), p, c) || (c == obj.uid && p in obj.owners[..j])
      {
        var p := obj.owners[j];
        assert obj.owners[..j + 1] == obj.owners[..j] + [p];
        ownership := AddEdge(ownership, p, obj.uid);
      }
      assert obj.owners[..|obj.owners|] == obj.owners;
    }

    method IndexObjects(objs: seq<Object>)
      requires OwnersAgree(cache, ownership, indexed)
      requires forall o :: o in objs ==> o.uid in cache && cache[o.uid] == o
      modifies this`ownership, this`indexed
      ensures OwnersAgree(cache, ownership, indexed)
      ensures indexed == old(indexed) + set o | o in objs :: o.uid
    {
      for i := 0 to |objs|
        invariant OwnersAgree(cache, ownership, indexed)
        invariant indexed == old(indexed) + set o | o in objs[..i] :: o.uid
      {
        assert objs[..i + 1] == objs[..i] + [objs[i]];
        ghost var before := ownership;
        RecordOwners(objs[i]);
        indexed := indexed + {objs[i].uid};
      }
      assert objs[..|objs|] == objs;
    }

    method RefreshNamespace(ns: string)
      requires Structured() && ns != NAMESPACE_ALL
      modifies this`nsCache, this`ownership, this`indexed
      ensures Structured() && nsCache == Touch(old(nsCache), ns)
      ensures indexed == old(indexed) + set u | u in cache && cache[u].ns == ns
    {
      TouchKeeps(cache, nsCache, ns);
      var n := GetNsCache(ns);
      var objs := GetAll(n);
      forall o | o in objs ensures o.uid in cache && cache[o.uid] == o && o.ns == ns {
        assert o in Elems(objs);
        var gk :| gk in n.objects && o in n.objects[gk];
        assert BucketOk(cache, ns, gk, n.objects[gk]);
      }
      IndexObjects(objs);
      forall u | u in cache && cache[u].ns == ns ensures u in indexed {
        assert InBucket(cache[u], nsCache);
        assert cache[u] in Elems(objs);
      }
    }

    method RefreshOwnership()
      requires Structured()
      modifies this`nsCache, this`ownership, this`refreshNs, this`indexed
      ensures Structured() && refreshNs == []
      ensures forall n :: MatcherOf(nsCache, n) == MatcherOf(old(nsCache), n)
      ensures indexed == old(indexed) + set u | u in cache && cache[u].ns in old(refreshNs)
      ensures Unseen() == old(Unseen())
    {
      for i := 0 to |refreshNs|
        invariant Structured() && refreshNs == old(refreshNs)
        invariant forall n :: MatcherOf(nsCache, n) == MatcherOf(old(nsCache), n)
        invariant indexed == old(indexed) + set u | u in cache && cache[u].ns in refreshNs[..i]
      {
        assert refreshNs[i] in refreshNs;
        assert refreshNs[..i + 1] == refreshNs[..i] + [refreshNs[i]];
        TouchKeeps(cache, nsCache, refreshNs[i]);
        RefreshNamespace(refreshNs[i]);
      }
      assert refreshNs[..|refreshNs|] == refreshNs;
      refreshNs := [];
    }

    /** Exactly the owned candidates, in order, except those no load ever indexed. */
    method FilterOwnedBy(owner: Object, candidates: seq<Object>) returns (ret: seq<Object>)
      requires Structured() && forall c :: c in candidates ==> c in cache.Values
      modifies this`nsCache, this`ownership, this`refreshNs, this`indexed
      ensures Structured() && Unseen() == old(Unseen()) && refreshNs == []
      ensures forall n :: MatcherOf(nsCache, n) == MatcherOf(old(nsCache), n)
      ensures ret == OwnedBy(candidates, owner.uid, Unseen())
    {
      RefreshOwnership();
      var childUIDs := if owner.uid in ownership then ownership[owner.uid] else {};
      forall c | c in candidates
        ensures c.uid in childUIDs <==> owner.uid in c.owners && c.uid !in Unseen()
      {
        assert c in cache.Values && c.uid in cache;
        assert c.uid in childUIDs <==> Edge(ownership, owner.uid, c.uid);
      }
      ret := KeepChildren(candidates, childUIDs, owner.uid, Unseen());
    }

    method EvalQuerySpec(q: QuerySpec) returns (ret: seq<Object>)
      requires Structured()
      modifies this`nsCache, this`ownership, this`refreshNs, this`indexed
      ensures Structured() && Unseen() == old(Unseen())
      ensures forall n :: MatcherOf(nsCache, n) == MatcherOf(old(nsCache), n)
      ensures refreshNs == if q.OwnerQuery? then [] else old(refreshNs)
      ensures q.PodLogQuery? ==> ret == [LogObject(q.container)]
      ensures !q.PodLogQuery? ==>
                && NoDup(ret)
                && Elems(ret) == set c | c in cache.Values && Picks(q, c) && (q.OwnerQuery? ==> c.uid !in Unseen())
    {
      if q.PodLogQuery? {
        return [LogObject(q.container)];
      }
      TouchKeeps(cache, nsCache, q.Namespace());
      var candidates := Filter(q.Namespace(), q.Kinds());
      assert forall c :: c in candidates <==> c in Elems(candidates);
      if q.OwnerQuery? {
        ret := FilterOwnedBy(q.obj, candidates);
        OwnedByFacts(candidates, q.obj.uid, Unseen());
      } else if q.KindQuery? {
        ret := candidates;
      } else {
        ret := [];
        if q.LabelQuery? && q.selector.NoSelector? {
          return;
        }
        ret := KeepSelected(candidates, q);
        KeepIfFacts(candidates, q);
      }
    }

    /** One query. `ok` says how the backend call ends if the query needs one; its error is dropped. */
    method Load(q: QuerySpec, ok: bool) returns (objects: seq<Object>)
      requires Valid()
      modifies this
      ensures Valid() && history == Asked(old(history), q, ok)
      ensures q.PodLogQuery? ==> objects == [LogObject(q.container)] && cache == old(cache)
      ensures !q.PodLogQuery? ==> NoDup(objects) && Elems(objects) == QueryResult(cluster, old(history), q, ok)
    {
      hide Cached, Hidden, Marked, Acc, Coherent, OwnersAgree, KindsComplete;
      Preload(q.Namespace(), q.Kinds(), ok);
      if q.PodLogQuery? {
        AccWellFormed(old(history), q.Namespace());
        PodLogQueryNeverReloads(Acc(old(history), q.Namespace()));
      }
      ghost var loaded := history;
      objects := EvalQuerySpec(q);
      if q.OwnerQuery? {
        RefreshedState(cluster, loaded);
        history := After(loaded, Refreshed);
      }
      HiddenByUid(cluster, history);
    }

    /** The first half of Load: widen the namespace's matcher and, if that changed it, load. */
    method Preload(ns: string, kinds: GroupKindMatcher, ok: bool)
      requires Valid()
      modifies this
      ensures Valid() && history == After(old(history), Loaded(ns, kinds, ok))
      ensures !UpdateMatcher(Acc(old(history), ns), kinds).1 ==> cache == old(cache)
    {
      ghost var e := Loaded(ns, kinds, ok);
      var changed := WidenMatcher(ns, kinds);
      if changed {
        LoadNamespace(ns, ok);
      }
      PreloadAccounted(cluster, history, e, old(cache), old(nsCache), cache, nsCache);
      UnindexedAfterLoad(cluster, history, e, old(cache), cache, indexed, old(refreshNs), refreshNs);
      history := After(history, e);
    }

    method WidenMatcher(ns: string, kinds: GroupKindMatcher) returns (changed: bool)
      requires Structured()
      modifies this`nsCache
      ensures Structured()
      ensures changed == UpdateMatcher(MatcherOf(old(nsCache), ns), kinds).1
      ensures forall n :: MatcherOf(nsCache, n) ==
                (if n == ns then UpdateMatcher(MatcherOf(old(nsCache), ns), kinds).0 else MatcherOf(old(nsCache), n))
    {
      TouchKeeps(cache, nsCache, ns);
      var n := GetNsCache(ns);
      var matcher := Merge(n.matcher, kinds);
      changed := !Equal(matcher, n.matcher);
      if changed {
        SetMatcherKeeps(cache, nsCache, ns, matcher);
        nsCache := nsCache[ns := n.(matcher := matcher)];
      }
    }

    /** Eval of one object: which version the analyzer gets. `get` is what the backend would return.
        A miss caches the object the caller passed in, not the refreshed one it analyses. */
    method EvalObject(obj: Object, get: Option<Object>) returns (analyzed: Option<Object>)
      requires Valid() && obj.ns != NAMESPACE_ALL
      modifies this
      ensures Valid() && history == After(old(history), Evaluated(obj, get.Some?))
      ensures obj.uid in old(cache) ==> analyzed == Some(old(cache)[obj.uid]) && cache == old(cache)
      ensures obj.uid !in old(cache) && get.None? ==> analyzed == None && cache == old(cache)
      ensures obj.uid !in old(cache) && get.Some? ==> analyzed == get && cache == old(cache)[obj.uid := obj]
    {
      hide Coherent, Acc, OwnersAgree, KindsComplete, Hidden, Marked;
      if obj.uid in cache || get.None? {
        assert obj.uid in cache ==> cache[obj.uid].uid == obj.uid by { CoherentKeys(cache, nsCache); }
        EvalAccounted(cluster, history, Evaluated(obj, get.Some?), cache, nsCache);
        history := After(history, Evaluated(obj, get.Some?));
        analyzed := if obj.uid in cache then Some(cache[obj.uid]) else None;
      } else {
        CacheGiven(obj);
        analyzed := get;
      }
    }

    /** The miss: the object passed in is cached, and nothing marks its namespace for a refresh. */
    method CacheGiven(obj: Object)
      requires Valid() && obj.ns != NAMESPACE_ALL && obj.uid !in cache
      modifies this`cache, this`nsCache, this`history
      ensures Valid() && history == After(old(history), Evaluated(obj, true))
      ensures cache == old(cache)[obj.uid := obj]
    {
      hide Coherent, Acc, Cached, Hidden, Marked, HiddenUids;
      CoherentKeys(cache, nsCache);
      var _ := UpdateCache(obj);
      EvalAccounted'(cluster, history, Evaluated(obj, true), old(cache), old(nsCache), nsCache);
      ExtendKeepsOwners(old(cache), cache, ownership, indexed);
      assert Unseen() == old(Unseen()) + if obj.ns in refreshNs then {} else {obj.uid};
      history := After(history, Evaluated(obj, true));
    }
  }

  lemma CoherentKeys(store: Store, index: Index)
    requires Coherent(store, index)
    ensures KeyedByUid(store)
  {
  }

  lemma EvalAccounted(b: Snapshot, h: History, e: Event, store: Store, index: Index)
    requires e.Evaluated? && Accounted(b, h, store, index)
    requires e.obj.uid in store ==> store[e.obj.uid].uid == e.obj.uid
    requires e.obj.uid in store || !e.found
    ensures Accounted(b, After(h, e), store, index)
    ensures Hidden(b, After(h, e)) == Hidden(b, h) && Marked(b, After(h, e)) == Marked(b, h)
  {
    if e.obj.uid in store {
      assert store[e.obj.uid] in store.Values;
    }
  }

  lemma EvalAccounted'(b: Snapshot, h: History, e: Event, store: Store, index: Index, index': Index)
    requires e.Evaluated? && e.found && Accounted(b, h, store, index) && KeyedByUid(store) && e.obj.uid !in store
    requires forall n :: MatcherOf(index', n) == MatcherOf(index, n)
    ensures Accounted(b, After(h, e), Insert(store, e.obj), index')
    ensures Marked(b, After(h, e)) == Marked(b, h)
    ensures HiddenUids(b, After(h, e)) == HiddenUids(b, h) + if e.obj.ns in Marked(b, h) then {} else {e.obj.uid}
  {
    InsertStep(store, store, {}, e.obj);
    assert (set x | x in {} + {e.obj} && x.uid !in store) == {e.obj};
    assert Hidden(b, After(h, e)) == Hidden(b, h) + if e.obj.ns in Marked(b, h) then {} else {e.obj};
  }

  lemma SetMatcherKeeps(store: Store, index: Index, ns: string, m: GroupKindMatcher)
    requires Coherent(store, index) && ns in index
    ensures var index' := index[ns := index[ns].(matcher := m)];
            && Coherent(store, index')
            && AllBucketKinds(index') == AllBucketKinds(index)
            && forall n :: MatcherOf(index', n) == if n == ns then m else MatcherOf(index, n)
  {
    var index' := index[ns := index[ns].(matcher := m)];
    forall u | u in store ensures InBucket(store[u], index') {
      assert InBucket(store[u], index);
    }
  }

  lemma NewNamespacesAreNew(b: Snapshot, h: History, h': History, store: Store, store': Store)
    requires store.Values == Cached(b, h) && store'.Values == Cached(b, h')
    requires KeyedByUid(store') && Extends(store, store')
    ensures NewNamespaces(store, store') == Namespaces(Cached(b, h') - Cached(b, h))
  {
    forall u | u in store' && u !in store ensures store'[u] in store'.Values && store'[u] !in store.Values {
      forall v | v in store ensures store[v] != store'[u] {
        assert store'[v] == store[v];
      }
    }
    forall c | c in store'.Values && c !in store.Values ensures c.ns in NewNamespaces(store, store') {
      var u :| u in store' && store'[u] == c;
      assert forall v :: v in store ==> store[v] in store.Values && store'[v] == store[v];
      assert u !in store;
    }
  }

  lemma UnindexedAfterLoad(b: Snapshot, h: History, e: Event, store: Store, store': Store, indexed: set<string>,
                           refreshNs: seq<string>, refreshNs': seq<string>)
    requires e.Loaded? && store.Values == Cached(b, h) && store'.Values == Cached(b, After(h, e))
    requires KeyedByUid(store') && Extends(store, store') && indexed <= store.Keys
    requires forall n :: n in refreshNs' <==> n in refreshNs || n in NewNamespaces(store, store')
    requires forall n :: n in refreshNs <==> n in Marked(b, h)
    requires Unindexed(store, indexed, refreshNs) == HiddenUids(b, h)
    ensures forall n :: n in refreshNs' <==> n in Marked(b, After(h, e))
    ensures Unindexed(store', indexed, refreshNs') == HiddenUids(b, After(h, e))
  {
    var added := Namespaces(Cached(b, After(h, e)) - Cached(b, h));
    NewNamespacesAreNew(b, h, After(h, e), store, store');
    CachedIsBackedOrInserted(b, h);
    forall x | x in Hidden(b, h) ensures x.uid in store && store[x.uid] == x {
      var u :| u in store && store[u] == x;
      assert store'[u].uid == u;
    }
    assert forall u :: u in Unindexed(store', indexed, refreshNs') <==>
                       u in Unindexed(store, indexed, refreshNs) && store[u].ns !in added;
    assert forall u :: u in HiddenUids(b, h) ==> u in store && store[u] in Hidden(b, h);
    assert forall u :: u in HiddenUids(b, After(h, e)) <==> u in HiddenUids(b, h) && store[u].ns !in added;
  }

  lemma RefreshedState(b: Snapshot, h: History)
    ensures Cached(b, After(h, Refreshed)) == Cached(b, h) && Hidden(b, After(h, Refreshed)) == Hidden(b, h)
    ensures Marked(b, After(h, Refreshed)) == {} && forall ns :: Acc(After(h, Refreshed), ns) == Acc(h, ns)
  {
  }

  lemma HiddenByUid(b: Snapshot, h: History)
    requires ValidSnapshot(b)
    ensures forall c :: c in Cached(b, h) ==> (c.uid in HiddenUids(b, h) <==> c in Hidden(b, h))
  {
    CachedUidsUnique(b, h);
    CachedIsBackedOrInserted(b, h);
  }

  ghost predicate Accounted(b: Snapshot, h: History, store: Store, index: Index) {
    && (forall ns :: MatcherOf(index, ns) == Acc(h, ns))
    && store.Values == Cached(b, h)
  }

  lemma PreloadAccounted(b: Snapshot, h: History, e: Event, store: Store, index: Index, store': Store, index': Index)
    requires e.Loaded? && Accounted(b, h, store, index)
    requires var (acc, changed) := UpdateMatcher(MatcherOf(index, e.ns), e.matcher);
             && (forall n :: MatcherOf(index', n) == if n == e.ns then acc else MatcherOf(index, n))
             && store'.Values == store.Values + if changed && e.ok then Fetched(b, store.Values, e.ns, acc) else {}
    ensures Accounted(b, After(h, e), store', index')
  {
  }

  /** Skipping the kinds that have a bucket is, given a coherent index, skipping nothing that is not
      already cached or ruled out by the history. */
  lemma FetchedIsSelected(b: Snapshot, store: Store, index: Index, ns: string, m: GroupKindMatcher,
                          skip: seq<GroupKind>)
    requires ValidSnapshot(b) && Coherent(store, index) && ns in index
    requires Elems(skip) == index[ns].objects.Keys
    requires KindsComplete(b, store, AllBucketKinds(index))
    ensures Fetched(b, store.Values, ns, m) == set x | x in Selected(b, ns, m, skip) && x.uid !in store
  {
    forall o | o in b.objects && InNs(o, ns) && Match(m, o.kind)
      ensures o in Fetched(b, store.Values, ns, m) <==> o.kind !in skip && o.uid !in store
    {
      assert HasUid(store.Values, o.uid) <==> o.uid in store by {
        if o.uid in store { assert store[o.uid] in store.Values; }
      }
      assert o.kind in skip <==> o.kind in Elems(skip);
      if ns != NAMESPACE_ALL {
        BucketIff(store, index, ns, o.kind);
      }
    }
  }

  lemma AllLoadCompletes(b: Snapshot, before: Store, store: Store, m: GroupKindMatcher, skip: seq<GroupKind>)
    requires KeyedByUid(store) && Extends(before, store)
    requires store.Values == before.Values + set x | x in Selected(b, NAMESPACE_ALL, m, skip) && x.uid !in before
    requires KindsComplete(b, before, Elems(skip))
    ensures KindsComplete(b, store, Elems(skip) + set o | o in Selected(b, NAMESPACE_ALL, m, skip) :: o.kind)
  {
    forall o | o in b.objects && o.kind in Elems(skip) + set x | x in Selected(b, NAMESPACE_ALL, m, skip) :: x.kind
      ensures o.uid in store
    {
      if o.kind !in Elems(skip) {
        assert o in Selected(b, NAMESPACE_ALL, m, skip);
        if o.uid !in before {
          assert o in store.Values;
        }
      }
    }
  }

  // ----- whole runs -----

  /** Is the kind one that an earlier include-all query of the namespace shut out? */
  predicate ShutOut(h: History, q: QuerySpec, gk: GroupKind) {
    LostByMerge(Acc(h, q.Namespace()), q.Kinds(), gk)
  }

  ghost function NaiveAnswer(b: Snapshot, q: QuerySpec): set<Object> {
    set o | o in Naive(b, q.Namespace(), q.Kinds()) && q.Selects(o)
  }

  /** When a query gets the naive answer: everything it selects is cached, or brought in now, and is
      not hidden from the owner table; and no outdated version is cached that it would select. */
  ghost predicate AnswersNaively(b: Snapshot, h: History, q: QuerySpec, ok: bool) {
    var ns, m := q.Namespace(), q.Kinds();
    var hidden := if q.OwnerQuery? then Hidden(b, After(h, Loaded(ns, m, ok))) else {};
    && (forall o :: o in NaiveAnswer(b, q) ==>
          && (o in Cached(b, h) || (ok && Brought(b, h, ns, m, o) && !HasUid(Cached(b, h), o.uid)))
          && o !in hidden)
    && (forall c :: c in Cached(b, h) && Picks(q, c) && c !in hidden ==> c in b.objects)
  }

  /** The answer repeats nothing and is the naive one exactly if the state before the call allows it. */
  ghost predicate Faithful(b: Snapshot, h: History, q: QuerySpec, ok: bool, answer: seq<Object>) {
    if q.PodLogQuery? then answer == [LogObject(q.container)]
    else NoDup(answer) && (Elems(answer) == NaiveAnswer(b, q) <==> AnswersNaively(b, h, q, ok))
  }

  lemma QueryAnswer(b: Snapshot, h: History, q: QuerySpec, ok: bool)
    requires ValidSnapshot(b) && WellFormed(q.Kinds())
    ensures QueryResult(b, h, q, ok) == NaiveAnswer(b, q) <==> AnswersNaively(b, h, q, ok)
  {
    var ns, m := q.Namespace(), q.Kinds();
    var h' := After(h, Loaded(ns, m, ok));
    forall o | o in Naive(b, ns, m)
      ensures o in Cached(b, h') <==>
              o in Cached(b, h) || (ok && Brought(b, h, ns, m, o) && !HasUid(Cached(b, h), o.uid))
    {
      ComesInIff(b, h, ns, m, ok, o);
    }
    assert Cached(b, h) <= Cached(b, h') && Cached(b, h') <= Cached(b, h) + b.objects;
    AnswerIff(b, h, q, ok);
  }

  lemma AnswerIff(b: Snapshot, h: History, q: QuerySpec, ok: bool)
    requires Cached(b, h) <= Cached(b, After(h, Loaded(q.Namespace(), q.Kinds(), ok))) <= Cached(b, h) + b.objects
    requires forall o :: o in Naive(b, q.Namespace(), q.Kinds()) ==>
               (o in Cached(b, After(h, Loaded(q.Namespace(), q.Kinds(), ok))) <==>
                || o in Cached(b, h)
                || (ok && Brought(b, h, q.Namespace(), q.Kinds(), o) && !HasUid(Cached(b, h), o.uid)))
    ensures QueryResult(b, h, q, ok) == NaiveAnswer(b, q) <==> AnswersNaively(b, h, q, ok)
  {
    var g := After(h, Loaded(q.Namespace(), q.Kinds(), ok));
    RefreshedState(b, g);
    hide Cached, HasUid, Brought, Hidden;
    var after := Cached(b, g);
    assert Cached(b, Asked(h, q, ok)) == after;
    assert q.OwnerQuery? ==> Hidden(b, Asked(h, q, ok)) == Hidden(b, g);
    if AnswersNaively(b, h, q, ok) {
      forall o | o in NaiveAnswer(b, q) ensures o in QueryResult(b, h, q, ok) {
        assert o in after;
      }
    }
    if QueryResult(b, h, q, ok) == NaiveAnswer(b, q) {
      forall o | o in NaiveAnswer(b, q) ensures o in after && (q.OwnerQuery? ==> o !in Hidden(b, g)) {
        assert o in QueryResult(b, h, q, ok);
      }
      forall c | c in Cached(b, h) && Picks(q, c) && (q.OwnerQuery? ==> c !in Hidden(b, g)) ensures c in b.objects {
        assert c in QueryResult(b, h, q, ok);
      }
    }
  }

  /** After loads that succeeded, with nothing that Eval brought in among what the query matches, the
      answer is naive if and only if every selected object of a shut-out kind is cached already. */
  lemma UndisturbedAnswersNaivelyIff(b: Snapshot, h: History, q: QuerySpec)
    requires ValidSnapshot(b) && NoLoadFailed(h) && WellFormed(q.Kinds())
    requires Undisturbed(b, h, q.Namespace(), q.Kinds())
    ensures AnswersNaively(b, h, q, true) <==>
            forall o :: o in NaiveAnswer(b, q) && ShutOut(h, q, o.kind) ==> o in Cached(b, h)
  {
    var ns, m := q.Namespace(), q.Kinds();
    var h' := After(h, Loaded(ns, m, true));
    CachedIsBackedOrInserted(b, h);
    CachedIsBackedOrInserted(b, h');
    AccWellFormed(h, ns);
    assert Inserted(b, h') == Inserted(b, h);
    forall o | o in NaiveAnswer(b, q)
      ensures o !in Hidden(b, h')
      ensures !ShutOut(h, q, o.kind) ==> o in Cached(b, h) || (Brought(b, h, ns, m, o) && !HasUid(Cached(b, h), o.uid))
    {
      assert Untouched(b, h', o.ns, o.kind);
      ComesInIff(b, h, ns, m, true, o);
      MergeMatchesUnionMinusLost(Acc(h, ns), m, o.kind);
      UnchangedMatchesTheSame(Acc(h, ns), m, o.kind);
      if !ShutOut(h, q, o.kind) {
        MatchedIsCached(b, h', ns, o);
      }
    }
  }

  // ----- what the queries ask for, in the fields of an object -----

  predicate Lies(c: Object, ns: string) {
    ns == "*all*" || c.ns == ns
  }

  lemma KindQueryMeans(m: GroupKindMatcher, ns: string, c: Object)
    ensures Picks(KindQuery(m, ns), c) <==> Lies(c, ns) && Match(m, c.kind)
  {
  }

  /** By owner: in the owner's namespace, unless another one is asked for. */
  lemma OwnerQueryMeans(o: Object, m: GroupKindMatcher, override: Option<string>, c: Object)
    ensures Picks(OwnerQuery(o, m, override), c) <==>
            && Lies(c, if override.Some? then override.value else o.ns)
            && Match(m, c.kind)
            && exists k :: 0 <= k < |c.owners| && c.owners[k] == o.uid
  {
  }

  lemma LabelQueryMeans(o: Object, m: GroupKindMatcher, sel: Selector, c: Object)
    ensures Picks(LabelQuery(o, m, sel), c) <==>
            Lies(c, o.ns) && Match(m, c.kind) && sel.Selector? && sel.matches(c.labels)
  {
  }

  lemma RefQueryMeans(o: Object, kind: GroupKind, uid: string, name: string, c: Object)
    ensures Picks(RefQuery(o, kind, uid, name), c) <==>
            Lies(c, o.ns) && c.kind == kind && (c.uid == uid || c.name == name)
  {
    assert Match(GroupKindMatcher(false, [kind], []), c.kind) <==> c.kind == kind;
  }

  /** The logs of a pod are one made-up object, and no object of the cluster. */
  lemma PodLogQueryMeans(o: Object, container: string, c: Object)
    ensures !Picks(PodLogQuery(o, container), c) && LogObject(container).name == container
    ensures LogObject(container).kind == GroupKind("kube-health.io", "Log")
  {
  }

  ghost predicate Referable(b: Snapshot) {
    ValidSnapshot(b) && forall o :: o in b.objects ==> o.uid != "" && o.name != ""
  }

  /** A reference by name alone is to the one object of that kind, namespace and name. */
  lemma RefByName(b: Snapshot, o: Object, c: Object)
    requires Referable(b) && c in b.objects && o.ns == c.ns
    ensures NaiveAnswer(b, RefQuery(o, c.kind, "", c.name)) == {c}
  {
    forall d | d in b.objects ensures d in NaiveAnswer(b, RefQuery(o, c.kind, "", c.name)) <==> d == c {
      RefQueryMeans(o, c.kind, "", c.name, d);
      assert d.ns == c.ns && d.kind == c.kind && d.name == c.name ==> SameName(d, c);
    }
  }

  /** A reference by UID alone is to the one object of that UID. */
  lemma RefByUid(b: Snapshot, o: Object, c: Object)
    requires Referable(b) && c in b.objects && o.ns == c.ns
    ensures NaiveAnswer(b, RefQuery(o, c.kind, c.uid, "")) == {c}
  {
    forall d | d in b.objects ensures d in NaiveAnswer(b, RefQuery(o, c.kind, c.uid, "")) <==> d == c {
      RefQueryMeans(o, c.kind, c.uid, "", d);
    }
  }

  /** A reference whose UID and name go to different objects finds both; one that goes nowhere, none. */
  lemma RefByBoth(b: Snapshot, o: Object, c: Object, d: Object)
    requires Referable(b) && c in b.objects && d in b.objects && o.ns == c.ns == d.ns && c.kind == d.kind
    ensures NaiveAnswer(b, RefQuery(o, c.kind, c.uid, d.name)) == {c, d}
  {
    forall x | x in b.objects ensures x in NaiveAnswer(b, RefQuery(o, c.kind, c.uid, d.name)) <==> x == c || x == d {
      RefQueryMeans(o, c.kind, c.uid, d.name, x);
      assert x.ns == d.ns && x.kind == d.kind && x.name == d.name ==> SameName(x, d);
    }
  }

  lemma RefToNothing(b: Snapshot, o: Object, kind: GroupKind, uid: string, name: string)
    requires ValidSnapshot(b) && o.ns != "*all*"
    requires forall c :: c in b.objects && c.ns == o.ns && c.kind == kind ==> c.uid != uid && c.name != name
    ensures NaiveAnswer(b, RefQuery(o, kind, uid, name)) == {}
  {
    forall c | c in b.objects ensures c !in NaiveAnswer(b, RefQuery(o, kind, uid, name)) {
      RefQueryMeans(o, kind, uid, name, c);
    }
  }

  /** An answer of Load is one of the history: cached, picked, and known to the owner table if asked by owner. */
  lemma ResultMeans(b: Snapshot, h: History, q: QuerySpec, ok: bool, c: Object)
    ensures c in QueryResult(b, h, q, ok) <==>
            c in Cached(b, Asked(h, q, ok)) && Picks(q, c) && (q.OwnerQuery? ==> c !in Hidden(b, Asked(h, q, ok)))
    ensures c in NaiveAnswer(b, q) <==> c in b.objects && Picks(q, c)
  {
  }

  datatype Operation =
    | Query(q: QuerySpec, ok: bool)
    | Single(obj: Object, get: Option<Object>)
    | Restart

  datatype Reply = Objects(objs: seq<Object>) | Version(obj: Option<Object>) | Cleared

  predicate Acceptable(op: Operation) {
    match op
    case Query(q, _) => WellFormed(q.Kinds())
    case Single(obj, _) => obj.ns != NAMESPACE_ALL
    case Restart => true
  }

  ghost function Next(b: Snapshot, h: History, op: Operation): History {
    match op
    case Query(q, ok) => Asked(h, q, ok)
    case Single(obj, get) => After(h, Evaluated(obj, get.Some?))
    case Restart => Start(Blanked(Marked(b, h)))
  }

  /** A single object: the cached version if there is one, and otherwise what the backend returned. */
  ghost predicate Expected(b: Snapshot, h: History, op: Operation, reply: Reply) {
    match op
    case Query(q, ok) => reply.Objects? && Faithful(b, h, q, ok, reply.objs)
    case Single(obj, get) =>
      reply.Version? &&
      if HasUid(Cached(b, h), obj.uid)
      then reply.obj.Some? && reply.obj.value in Cached(b, h) && reply.obj.value.uid == obj.uid
      else reply.obj == get
    case Restart => reply.Cleared?
  }

  ghost predicate AllExpected(b: Snapshot, h: History, ops: seq<Operation>, replies: seq<Reply>)
    requires |replies| == |ops|
    decreases |ops|
  {
    ops != [] ==>
      Expected(b, h, ops[0], replies[0]) && AllExpected(b, Next(b, h, ops[0]), ops[1..], replies[1..])
  }

  method RunOperation(e: Evaluator, op: Operation) returns (reply: Reply)
    requires e.Valid() && Acceptable(op)
    modifies e
    ensures e.Valid() && e.history == Next(e.cluster, old(e.history), op)
    ensures Expected(e.cluster, old(e.history), op, reply)
  {
    ghost var h := e.history;
    match op
    case Query(q, ok) =>
      var objs := e.Load(q, ok);
      QueryAnswer(e.cluster, h, q, ok);
      reply := Objects(objs);
    case Single(obj, get) =>
      CachedVersion(e.cluster, h, e.cache, e.nsCache, obj.uid);
      var version := e.EvalObject(obj, get);
      reply := Version(version);
    case Restart =>
      e.Reset();
      reply := Cleared;
  }

  lemma CachedVersion(b: Snapshot, h: History, store: Store, index: Index, uid: string)
    requires Accounted(b, h, store, index) && Coherent(store, index)
    ensures HasUid(Cached(b, h), uid) <==> uid in store
    ensures uid in store ==> store[uid] in Cached(b, h) && store[uid].uid == uid
  {
    if uid in store {
      assert store[uid] in store.Values;
    }
  }

  /** Any run of queries in any mix of namespaces, answered or failing, of single evaluations and of
      resets, from any state: each reply is what the history up to then accounts for. */
  method RunOperations(e: Evaluator, ops: seq<Operation>) returns (replies: seq<Reply>)
    requires e.Valid() && forall op :: op in ops ==> Acceptable(op)
    modifies e
    ensures e.Valid() && |replies| == |ops|
    ensures AllExpected(e.cluster, old(e.history), ops, replies)
    decreases |ops|
  {
    if ops == [] {
      return [];
    }
    hide Expected, Acceptable;
    var reply := RunOperation(e, ops[0]);
    var rest := RunOperations(e, ops[1..]);
    replies := [reply] + rest;
  }
}
