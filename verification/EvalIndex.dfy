/**
 The evaluator's three structures as values: the UID map, the per-namespace per-kind index and the
 owner table, with the invariants that tie them together and the steps that keep them.
 */
module EvalIndex {
  import opened Base
  import opened Matcher
  import opened Cluster

  datatype NsCache = NsCache(objects: map<GroupKind, seq<Object>>, matcher: GroupKindMatcher)

  type Store = map<string, Object>
  type Index = map<string, NsCache>
  type Ownership = map<string, set<string>>

  const NEW_NS_CACHE := NsCache(map[], NO_KINDS)

  /** getNsCache creates the entry it does not find. */
  function Touch(index: Index, ns: string): Index {
    if ns in index then index else index[ns := NEW_NS_CACHE]
  }

  function MatcherOf(index: Index, ns: string): GroupKindMatcher {
    if ns in index then index[ns].matcher else NO_KINDS
  }

  function Append(n: NsCache, o: Object): NsCache {
    n.(objects := n.objects[o.kind := (if o.kind in n.objects then n.objects[o.kind] else []) + [o]])
  }

  function Put(index: Index, ns: string, o: Object): Index {
    var touched := Touch(index, ns);
    touched[ns := Append(touched[ns], o)]
  }

  // ----- the UID map and the index -----

  ghost predicate BucketOk(store: Store, ns: string, gk: GroupKind, bucket: seq<Object>) {
    && bucket != []
    && NoDup(bucket)
    && forall o :: o in bucket ==> o.ns == ns && o.kind == gk && o.uid in store && store[o.uid] == o
  }

  ghost predicate InBucket(o: Object, index: Index) {
    o.ns in index && o.kind in index[o.ns].objects && o in index[o.ns].objects[o.kind]
  }

  /** Each cached object is in its home bucket, and every bucket entry is the cached object, once. */
  ghost predicate Coherent(store: Store, index: Index) {
    && (forall u :: u in store ==> store[u].uid == u && store[u].ns != NAMESPACE_ALL && InBucket(store[u], index))
    && (forall ns, gk :: ns in index && ns != NAMESPACE_ALL && gk in index[ns].objects ==>
                           BucketOk(store, ns, gk, index[ns].objects[gk]))
  }

  ghost function AllBucketKinds(index: Index): set<GroupKind> {
    if NAMESPACE_ALL in index then index[NAMESPACE_ALL].objects.Keys else {}
  }

  /** A kind recorded under the all-namespaces placeholder is cached everywhere. */
  ghost predicate KindsComplete(b: Snapshot, store: Store, kinds: set<GroupKind>) {
    forall o :: o in b.objects && o.kind in kinds ==> o.uid in store
  }

  lemma TouchKeeps(store: Store, index: Index, ns: string)
    requires Coherent(store, index)
    ensures Coherent(store, Touch(index, ns))
    ensures forall n :: MatcherOf(Touch(index, ns), n) == MatcherOf(index, n)
    ensures AllBucketKinds(Touch(index, ns)) == AllBucketKinds(index)
  {
  }

  /** The home bucket of a new object afterwards: what it held, then the object. */
  lemma PutBucket(store: Store, before: seq<Object>, o: Object)
    requires before == [] || BucketOk(store, o.ns, o.kind, before)
    requires o.uid !in store
    ensures BucketOk(store[o.uid := o], o.ns, o.kind, before + [o])
  {
    forall x | x in before ensures x.uid in store && x != o {
    }
  }

  lemma OtherBucket(store: Store, o: Object, ns: string, gk: GroupKind, bucket: seq<Object>)
    requires BucketOk(store, ns, gk, bucket) && o.uid !in store
    ensures BucketOk(store[o.uid := o], ns, gk, bucket)
  {
  }

  lemma PutBuckets(store: Store, index: Index, o: Object, ns: string, gk: GroupKind)
    requires Coherent(store, index) && o.uid !in store && o.ns != NAMESPACE_ALL
    requires var index' := Put(index, o.ns, o); ns in index' && ns != NAMESPACE_ALL && gk in index'[ns].objects
    ensures BucketOk(store[o.uid := o], ns, gk, Put(index, o.ns, o)[ns].objects[gk])
  {
    TouchKeeps(store, index, o.ns);
    var n := Touch(index, o.ns)[o.ns];
    hide BucketOk;
    if ns == o.ns && gk == o.kind {
      PutBucket(store, if gk in n.objects then n.objects[gk] else [], o);
    } else {
      OtherBucket(store, o, ns, gk, Put(index, o.ns, o)[ns].objects[gk]);
    }
  }

  lemma PutMembers(store: Store, index: Index, o: Object, x: Object)
    requires x == o || InBucket(x, index)
    ensures InBucket(x, Put(index, o.ns, o))
  {
    var n := Touch(index, o.ns)[o.ns];
    var before := if o.kind in n.objects then n.objects[o.kind] else [];
    assert (before + [o])[|before|] == o;
  }

  lemma PutKeeps(store: Store, index: Index, o: Object)
    requires Coherent(store, index) && o.uid !in store && o.ns != NAMESPACE_ALL
    ensures Coherent(store[o.uid := o], Put(index, o.ns, o))
    ensures forall n :: MatcherOf(Put(index, o.ns, o), n) == MatcherOf(index, n)
    ensures AllBucketKinds(Put(index, o.ns, o)) == AllBucketKinds(index)
  {
    var store', index' := store[o.uid := o], Put(index, o.ns, o);
    forall ns, gk | ns in index' && ns != NAMESPACE_ALL && gk in index'[ns].objects
      ensures BucketOk(store', ns, gk, index'[ns].objects[gk])
    {
      PutBuckets(store, index, o, ns, gk);
    }
    forall u | u in store' ensures InBucket(store'[u], index') {
      PutMembers(store, index, o, store'[u]);
    }
    hide BucketOk, InBucket;
  }

  lemma PutAllKeeps(store: Store, index: Index, o: Object)
    requires Coherent(store, index) && NAMESPACE_ALL in index
    ensures Coherent(store, Put(index, NAMESPACE_ALL, o))
    ensures forall n :: MatcherOf(Put(index, NAMESPACE_ALL, o), n) == MatcherOf(index, n)
    ensures AllBucketKinds(Put(index, NAMESPACE_ALL, o)) == AllBucketKinds(index) + {o.kind}
  {
    var index' := Put(index, NAMESPACE_ALL, o);
    forall u | u in store ensures InBucket(store[u], index') {
      assert InBucket(store[u], index);
    }
  }

  /** A bucket is the plain scan of the UID map for its namespace and kind. */
  lemma BucketExact(store: Store, index: Index, ns: string, gk: GroupKind)
    requires Coherent(store, index) && ns in index && ns != NAMESPACE_ALL && gk in index[ns].objects
    ensures Elems(index[ns].objects[gk]) == set c | c in store.Values && c.ns == ns && c.kind == gk
  {
    var bucket := index[ns].objects[gk];
    assert BucketOk(store, ns, gk, bucket);
    forall c | c in store.Values && c.ns == ns && c.kind == gk ensures c in bucket {
      var u :| u in store && store[u] == c;
      assert InBucket(store[u], index);
    }
  }

  /** In a real namespace a kind has a bucket exactly if an object of it is cached. */
  lemma BucketIff(store: Store, index: Index, ns: string, gk: GroupKind)
    requires Coherent(store, index) && ns in index && ns != NAMESPACE_ALL
    ensures gk in index[ns].objects <==> exists c :: c in store.Values && c.ns == ns && c.kind == gk
  {
    if gk in index[ns].objects {
      BucketExact(store, index, ns, gk);
      assert BucketOk(store, ns, gk, index[ns].objects[gk]);
      assert index[ns].objects[gk][0] in Elems(index[ns].objects[gk]);
    }
    if c :| c in store.Values && c.ns == ns && c.kind == gk {
      var u :| u in store && store[u] == c;
      assert InBucket(store[u], index);
    }
  }

  lemma NoDupConcat<T>(s: seq<T>, t: seq<T>)
    requires NoDup(s) && NoDup(t) && Elems(s) !! Elems(t)
    ensures NoDup(s + t)
  {
    forall i, j | 0 <= i < j < |s + t| ensures (s + t)[i] != (s + t)[j] {
      if i < |s| <= j {
        assert s[i] in Elems(s) && t[j - |s|] in Elems(t);
      }
    }
  }

  // ----- inserting what a load returned -----

  function Insert(store: Store, o: Object): Store {
    if o.uid in store then store else store[o.uid := o]
  }

  ghost predicate Extends(store: Store, store': Store) {
    store.Keys <= store'.Keys && forall u :: u in store ==> store'[u] == store[u]
  }

  /** The namespaces of what the second map has more than the first. */
  ghost function NewNamespaces(store: Store, store': Store): set<string> {
    set u | u in store' && u !in store :: store'[u].ns
  }

  lemma NewNamespacesStep(before: Store, store: Store, o: Object)
    requires before.Keys <= store.Keys
    ensures NewNamespaces(before, Insert(store, o)) ==
            NewNamespaces(before, store) + if o.uid in store then {} else {o.ns}
    ensures store.Keys <= Insert(store, o).Keys
  {
    var store' := Insert(store, o);
    if o.uid !in store {
      assert forall u :: u in store' && u !in before <==> u == o.uid || (u in store && u !in before);
      assert forall u :: u in store ==> store'[u] == store[u];
      assert store'[o.uid] == o;
    }
  }

  ghost predicate KeyedByUid(store: Store) {
    forall u :: u in store ==> store[u].uid == u
  }

  /** One object of a load: the UID map afterwards is the old one plus the objects that were new. */
  lemma InsertStep(before: Store, store: Store, seen: set<Object>, o: Object)
    requires KeyedByUid(store) && Extends(before, store)
    requires forall x :: x in seen && x.uid == o.uid ==> x == o
    requires store.Values == before.Values + set x | x in seen && x.uid !in before
    ensures KeyedByUid(Insert(store, o)) && Extends(before, Insert(store, o))
    ensures Insert(store, o).Values == before.Values + set x | x in seen + {o} && x.uid !in before
  {
    var store' := Insert(store, o);
    var added := set x | x in seen + {o} && x.uid !in before;
    if o.uid in store {
      assert store[o.uid] in store.Values;
      if o.uid !in before {
        forall u | u in before ensures before[u].uid == u {
          assert store[u] == before[u];
        }
        assert store[o.uid] == o;
      }
      assert store'.Values == before.Values + added;
    } else {
      assert store'.Values == store.Values + {o} by {
        assert store'[o.uid] == o;
        forall v | v in store.Values ensures v in store'.Values {
          var u :| u in store && store[u] == v;
          assert store'[u] == v;
        }
      }
      assert store'.Values == before.Values + added;
    }
  }

  function InsertAll(store: Store, objs: seq<Object>): Store {
    if objs == [] then store else Insert(InsertAll(store, objs[..|objs| - 1]), objs[|objs| - 1])
  }

  lemma {:induction false} InsertAllFacts(store: Store, objs: seq<Object>)
    requires KeyedByUid(store)
    requires forall x, y :: x in objs && y in objs && x.uid == y.uid ==> x == y
    ensures KeyedByUid(InsertAll(store, objs)) && Extends(store, InsertAll(store, objs))
    ensures InsertAll(store, objs).Values == store.Values + set x | x in Elems(objs) && x.uid !in store
  {
    if objs == [] {
    } else {
      var init, o := objs[..|objs| - 1], objs[|objs| - 1];
      assert objs == init + [o];
      assert Elems(objs) == Elems(init) + {o};
      InsertAllFacts(store, init);
      InsertStep(store, InsertAll(store, init), Elems(init), o);
    }
  }

  // ----- the owner table -----

  predicate Edge(ownership: Ownership, owner: string, child: string) {
    owner in ownership && child in ownership[owner]
  }

  /** The recorded edges are exactly the owner references of the indexed objects. */
  ghost predicate OwnersAgree(store: Store, ownership: Ownership, indexed: set<string>) {
    && indexed <= store.Keys
    && forall p, c :: Edge(ownership, p, c) <==> c in indexed && p in store[c].owners
  }

  /** Objects that no refresh is going to look at: neither indexed nor in a marked namespace. */
  ghost function Unindexed(store: Store, indexed: set<string>, refreshNs: seq<string>): set<string> {
    set u | u in store && u !in indexed && store[u].ns !in refreshNs
  }

  function AddEdge(ownership: Ownership, p: string, c: string): Ownership {
    ownership[p := (if p in ownership then ownership[p] else {}) + {c}]
  }

  lemma ExtendKeepsOwners(store: Store, store': Store, ownership: Ownership, indexed: set<string>)
    requires OwnersAgree(store, ownership, indexed) && Extends(store, store')
    ensures OwnersAgree(store', ownership, indexed)
  {
  }
}
