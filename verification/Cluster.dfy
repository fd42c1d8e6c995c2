/**
 The cluster as the evaluator sees it: a fixed snapshot of objects behind a table of served
 resources, and the bulk listing that a matcher and a list of skipped kinds select from it.
 */
module Cluster {
  import opened Base
  import opened Matcher
  import BulkList

  const NAMESPACE_ALL := "*all*"
  const NAMESPACE_NONE := ""

  // Two versions of an object differ in their revision, even where only its status has changed.
  datatype Object = Object(
    uid: string,
    ns: string,
    kind: GroupKind,
    name: string,
    owners: seq<string>,
    labels: map<string, string>,
    revision: string
  )

  /** Asking in a real namespace is asking for its objects, under either placeholder for all of them. */
  lemma ListingMeans(b: Snapshot, kind: GroupKind, ns: string, o: Object)
    ensures o in Listing(b, kind, ns) <==> o in b.objects && o.kind == kind && (ns == "" || ns == "*all*" || o.ns == ns)
    ensures InNs(o, ns) <==> ns == "*all*" || o.ns == ns
  {
  }

  datatype GroupResource = GroupResource(group: string, resource: string)
  datatype ResourceInfo = ResourceInfo(kind: GroupKind, namespaced: bool)
  type Resources = map<GroupResource, ResourceInfo>

  datatype Snapshot = Snapshot(resources: Resources, objects: set<Object>)

  predicate InNs(o: Object, ns: string) {
    ns == NAMESPACE_ALL || o.ns == ns
  }

  /** Do the two bear the same name? An object that was deleted and created again does, under a new UID. */
  predicate SameName(o: Object, p: Object) {
    o.kind == p.kind && o.ns == p.ns && o.name == p.name
  }

  /** UIDs identify objects, as do kind, namespace and name; every object is served by some resource, a
      kind is namespaced exactly if its objects carry a namespace, and the all-namespaces placeholder is
      no real namespace. */
  ghost predicate ValidSnapshot(b: Snapshot) {
    && (forall o, p :: o in b.objects && p in b.objects && o.uid == p.uid ==> o == p)
    && (forall o, p :: o in b.objects && p in b.objects && SameName(o, p) ==> o == p)
    && (forall o :: o in b.objects ==> o.ns != NAMESPACE_ALL)
    && (forall o :: o in b.objects ==> exists gr :: gr in b.resources && b.resources[gr].kind == o.kind)
    && (forall o, gr :: o in b.objects && gr in b.resources && b.resources[gr].kind == o.kind ==>
          (b.resources[gr].namespaced <==> o.ns != NAMESPACE_NONE))
  }

  /** What a load is meant to bring: matched, in scope, and not of a skipped kind. */
  ghost function Selected(b: Snapshot, ns: string, m: GroupKindMatcher, skip: seq<GroupKind>): set<Object> {
    set o | o in b.objects && InNs(o, ns) && Match(m, o.kind) && o.kind !in skip
  }

  method FilterResources(resources: Resources, includeAll: bool,
                         includedGks: seq<GroupKind>, excludedGks: seq<GroupKind>) returns (filtered: Resources)
    ensures filtered == map gr | gr in resources
                                 && Match(GroupKindMatcher(includeAll, includedGks, excludedGks), resources[gr].kind)
                            :: resources[gr]
  {
    ghost var m := GroupKindMatcher(includeAll, includedGks, excludedGks);
    filtered := map[];
    var todo := resources.Keys;
    while todo != {}
      invariant todo <= resources.Keys
      invariant filtered == map gr | gr in resources && gr !in todo
                                     && Match(m, resources[gr].kind)
                                :: resources[gr]
    {
      var gr :| gr in todo;
      todo := todo - {gr};
      if |includedGks| > 0 {
        if resources[gr].kind in includedGks {
          filtered := filtered[gr := resources[gr]];
        }
        continue;
      }
      if !includeAll {
        continue;
      }
      if |excludedGks| > 0 {
        if resources[gr].kind !in excludedGks {
          filtered := filtered[gr := resources[gr]];
        }
        continue;
      }
      filtered := filtered[gr := resources[gr]];
    }
  }

  function NamespacedResources(resources: Resources): Resources {
    map gr | gr in resources && resources[gr].namespaced :: resources[gr]
  }

  function NonNamespacedResources(resources: Resources): Resources {
    map gr | gr in resources && !resources[gr].namespaced :: resources[gr]
  }

  method CompileGroupKindMatcher(b: Snapshot, m: GroupKindMatcher, ns: string) returns (resources: Resources)
    ensures forall gr :: gr in resources <==>
                           && gr in b.resources && Match(m, b.resources[gr].kind)
                           && (ns == NAMESPACE_ALL || (b.resources[gr].namespaced <==> ns != NAMESPACE_NONE))
    ensures forall gr :: gr in resources ==> resources[gr] == b.resources[gr]
  {
    var scoped := if ns == NAMESPACE_ALL then b.resources
                  else if ns == NAMESPACE_NONE then NonNamespacedResources(b.resources)
                  else NamespacedResources(b.resources);
    resources := FilterResources(scoped, m.includeAll, m.includedKinds, m.excludedKinds);
  }

  /** What listing one resource returns: a placeholder namespace lists the whole cluster. */
  ghost function Listing(b: Snapshot, kind: GroupKind, ns: string): set<Object> {
    set o | o in b.objects && o.kind == kind && (ns == NAMESPACE_NONE || InNs(o, ns))
  }

  method List(b: Snapshot, kind: GroupKind, ns: string) returns (objs: seq<Object>)
    ensures NoDup(objs) && Elems(objs) == Listing(b, kind, ns)
  {
    objs := [];
    var todo := set o | o in b.objects && o.kind == kind && (ns == NAMESPACE_NONE || InNs(o, ns));
    while todo != {}
      invariant todo <= Listing(b, kind, ns)
      invariant NoDup(objs) && Elems(objs) == Listing(b, kind, ns) - todo
    {
      var o :| o in todo;
      assert o !in Elems(objs);
      todo := todo - {o};
      ElemsConcat(objs, [o]);
      objs := objs + [o];
    }
  }

  /** The resources are listed in no particular order, and an object served by two resources
      comes twice; which objects come is exactly what was asked for. */
  method ListWithMatcher(b: Snapshot, ns: string, m: GroupKindMatcher, skip: seq<GroupKind>) returns (objs: seq<Object>)
    requires ValidSnapshot(b)
    ensures Elems(objs) == Selected(b, ns, m, skip)
  {
    var resources := CompileGroupKindMatcher(b, m, ns);
    if |skip| > 0 {
      resources := FilterResources(resources, true, [], skip);
    }
    objs := [];
    var todo := resources.Keys;
    ghost var listed: set<GroupResource> := {};
    while todo != {}
      invariant todo !! listed && todo + listed == resources.Keys
      invariant Elems(objs) == set o, gr | gr in listed && o in Listing(b, resources[gr].kind, ns) :: o
      decreases todo
    {
      var gr :| gr in todo;
      todo := todo - {gr};
      var res := List(b, resources[gr].kind, ns);
      ElemsConcat(objs, res);
      objs := objs + res;
      listed := listed + {gr};
    }
    assert listed == resources.Keys;
    forall o | o in Selected(b, ns, m, skip) ensures o in Elems(objs) {
      var gr :| gr in b.resources && b.resources[gr].kind == o.kind;
      assert gr in resources && o in Listing(b, resources[gr].kind, ns);
    }
  }

  /** Listing the resources in parallel brings the same objects: any interleaving of the bulk lister
      over lists that all succeed returns without error exactly what the listing one by one does. */
  lemma ConcurrentListing(b: Snapshot, ns: string, kinds: seq<GroupKind>, o: seq<BulkList.Outcome<Object>>,
                          r: BulkList.Run)
    requires |o| == |kinds|
    requires forall i :: 0 <= i < |o| ==> o[i].Listed? && Elems(o[i].items) == Listing(b, kinds[i], ns)
    requires BulkList.Legal(o, r) && BulkList.At(o, r).caller.Returned?
    ensures BulkList.At(o, r).err.None?
    ensures Elems(BulkList.At(o, r).out) == set i, x | 0 <= i < |kinds| && x in Listing(b, kinds[i], ns) :: x
  {
    BulkList.ReturnedResult(o, r);
    forall x ensures x in BulkList.At(o, r).out <==> exists i :: 0 <= i < |kinds| && x in Listing(b, kinds[i], ns) {
      BulkList.ReturnedMembers(o, r, x);
      forall i | 0 <= i < |o| ensures x in o[i].items <==> x in Listing(b, kinds[i], ns) {
        assert x in o[i].items <==> x in Elems(o[i].items);
      }
    }
  }
}
