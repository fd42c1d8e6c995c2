# kube-health: a verified model

kube-health loads Kubernetes objects lazily into an indexed cache, folds their conditions and
sub-objects into status trees, and prints, deduplicates or waits on those trees. This project models
those parts in Dafny and proves what they guarantee, over every input, every run of queries and every
interleaving of goroutines. Where the code does not do what its comments say, the model follows the
code, a lemma exhibits the difference, and the exact condition under which the promise holds is proved.

`dafny verify dfyconfig.toml` checks the whole project.

| file | models |
|---|---|
| Base.dfy | sequences, options and text helpers shared by the rest |
| Matcher.dfy | kind matchers: merging, equality, accumulation, when a namespace is reloaded |
| Cluster.dfy | the snapshot behind the loader, resource filtering, listing with a matcher |
| History.dfy | the cache as a function of the operations since the last reset, against the naive query |
| EvalIndex.dfy, Evaluator.dfy | the evaluator class: UID map, namespace and kind index, owner table |
| SnapshotTree.dfy | the snapshot unfolded below an object, and its one verdict |
| EvalTree.dfy | recursive evaluation driven through the evaluator, and which queries are answered rightly |
| Poll.dfy, Monitor.dfy | a round of the status poller; a round of the monitor |
| BulkList.dfy | the parallel bulk lister as a step relation |
| Status.dfy, Analyze.dfy, Deployment.dfy | status trees, the analyzers, the shared status cell of a condition |
| TreePrint.dfy, Dedup.dfy | which objects are printed; deduplication of forests |
| Wrap.dfy, Pad.dfy, Row.dfy | line wrapping; padding and column layout; a row from contents to lines |
| Wait.dfy, Screen.dfy | the poll, print and wait protocol; repainting the terminal |

The main results:

- **A cached query is the naive query.** `Evaluator.Evaluator` keeps, under every mix of `Load`, `Eval`
  and `Reset`, an index that agrees with its UID map, an owner table that agrees with the owner
  references, and a cache that is exactly `History.Cached` of the operations performed.
  `History.CachedQueryRefinesNaive` then says, for every history, when a query gets exactly what the
  snapshot holds, and `Evaluator.RunOperations` carries that through every run of operations.
- **The gaps are exact**, each in both directions. Merging matchers is the union exactly if no listed
  kind is excluded by the include-all side (`Matcher.MergeIsUnionIff`); siblings of an object cached by
  `Eval` come in exactly through an `Eval` of their own or an all-namespaces load
  (`History.SiblingComesInIff`); a failed load is repaired by asking again exactly while kinds are
  listed one by one (`History.FailedLoadRepairedIff`); two include-all queries in turn reload for ever
  exactly if they repeat differently what both exclude (`Matcher.InTurnReloads`); `Equal` can be turned round exactly for lists
  without repetitions (`Matcher.EqualSymmetricIff`); the first error of a bulk listing is returned
  exactly if no two lists fail (`BulkList.FirstErrorReturnedIff`); errors-only hides healthy objects
  exactly if no unhealthy one has a healthy child (`TreePrint.ErrorsOnlyHidesHealthyIff`).
- **A polling round is determined by the snapshot.** `Poll.PollRound` drives one evaluator through the
  Deployment, ReplicaSet, Pod, Service and generic analyzers of every root, whose label and owner
  queries work on each other's leftovers, and arrives at the snapshot's status tree
  (`SnapshotTree.Reflects`), which fixes the verdict (`SnapshotTree.OneVerdict`). What the evaluator
  holds before each root is told from the snapshot (`Poll.Before`), and so is whether a query will be
  answered rightly, in both directions (`EvalTree.AnsweredIffServed`, `Poll.RootServedIff`). Versions
  given may be outdated, objects gone or created again, roots repeated or below one another.
  A root's status needs only what came up to it; and whatever the backend answers, no status is better
  than what is below it.
- **A monitor round** asks nothing of its targets: as long as the backend answers, owner references have
  no cycle and no kind that analyzers ask for by name is ignored, it shows exactly the snapshot, and no
  object is lost in deduplication (`Monitor.MonitorRound`, `Monitor.RoundSurvivesDedup`).
- **Bulk listing** never panics, never deadlocks, always ends, and returns every successful list once
  (`BulkList.NeverPanics`, `NoDeadlock`, `RunsTerminate`, `ReturnedResult`).
- **No unhealthy object is hidden** by any analyzer and any print option
  (`Analyze.AnalyzedMonotone`, `TreePrint.NothingUnhealthyHidden`, `Poll.RoundNothingHidden`), and lines
  come in sorted pre-order (`TreePrint.PrintStatuses`).
- **Every verdict is exact**: of pods, replica sets, deployments, services and everything else, from
  their fields (`Analyze.PodVerdict`, `Analyze.ReplicaSetVerdict`, `Deployment.DeploymentVerdict`,
  `Analyze.GenericVerdict`), and no sub-object is left out (`SnapshotTree.EveryChildShown`).
- **Wrapping** breaks at the last gap that fits, in exactly one way, stays within the width and the line
  limit and keeps the text, except that exactly a prefix length of characters is repeated after a forced
  first line (`Wrap.WriteLineWrapped`, `Wrap.BreaksUnique`, `Wrap.ContentPreservedIff`); and a wrapped row is no wider than the terminal
  (`Row.PrintWrappedRow`).
- **Waiting**: the exit code left by every interleaving is characterised (`Wait.ExitCodeOfRun`).

Outcomes that the environment decides are inputs: whether a backend call succeeds (`ok`, `found`,
`Outcome`), the statuses each polling round finds, whether a waiting container is past the
progressing timeout. Go's map iteration order is modelled by an arbitrary choice (`:|`).

## Model

| member | source | states |
|---|---|---|
| Matcher.Intersect2Loop | pkg/eval/query.go:160-174 | the map-and-append loop keeps exactly the elements of the second list that occur in the first, in order and with repetitions |
| Matcher.IntersectInOrder | pkg/eval/query.go:160-174 | element by element of the second list, in its order |
| Matcher.MergeMatchesUnionMinusLost | pkg/eval/query.go:71-99 | merged matchers match the union of what the two match, minus the kinds one side lists and the include-all side excludes |
| Matcher.MergeIsUnionIff | pkg/eval/query.go:69-92 | the union that the comment promises holds for every kind if and only if no listed kind is excluded by the include-all side |
| Matcher.MergeCommutative | pkg/eval/query.go:71-99 | order of merging does not change what is matched |
| Matcher.MergeAssociative | pkg/eval/query.go:71-99 | grouping of merging does not change what is matched |
| Matcher.MergeIdempotent | pkg/eval/query.go:71-99 | merging a matcher with itself matches the same |
| Matcher.AccumulatedMatch | pkg/eval/eval.go:348-357 | closed form of what the matcher accumulated over any run of queries matches |
| Matcher.AccumulatedDependsOnlyOnSet | pkg/eval/eval.go:348-357 | the accumulated matcher depends only on which queries were seen, not on order or repetition |
| Matcher.UnchangedMatchesTheSame | pkg/eval/eval.go:349-357 | when updateMatcher reports no change the merged matcher would match nothing else |
| Matcher.EqualMeans | pkg/eval/query.go:101-124 | what Equal means for any two matchers: flag and lengths agree and everything the second lists the first lists too |
| Matcher.EqualNotSymmetric | pkg/eval/query.go:101-124 | Equal holds one way and fails the other on lists with repetitions |
| Matcher.EqualSymmetricIff | pkg/eval/query.go:101-124 | whatever is found equal to a matcher is so in the other direction as well if and only if neither of its lists repeats a kind |
| Matcher.EqualIsSetEquality | pkg/eval/query.go:101-124 | on lists without repetitions Equal is equality of flag and of both listed sets, in both directions |
| Matcher.ChangeIff | pkg/eval/eval.go:349-357 | for an include-all matcher and any lists, when a query is a change: exactly if it drops an exclusion or lists the same exclusions with other repetitions |
| Matcher.ChangeShrinksExclusions | pkg/eval/eval.go:349-357 | where kinds that both exclude are listed equally often, a change is exactly a dropped exclusion, and the exclusion set then strictly shrinks |
| Matcher.BoundedReloading | pkg/eval/eval.go:190-193 | any run of queries that list what they exclude in common equally often, be it once or more, reloads an include-all namespace at most as often as it has excluded kinds; explicit-kind queries never |
| Matcher.NoDupSameCounts | pkg/eval/query.go:101-124 | lists without repetitions are among those |
| Matcher.OwnQueriesNeverReload | pkg/analyze/generic.go:51-59 | the program excludes one list of ignored kinds, repetitions and all: once a namespace includes everything but these, no run of its queries reloads it |
| Matcher.InTurnReloads | pkg/eval/eval.go:190-193 | where the bound ends, exactly: two include-all queries in turn reload every time if and only if they spend different numbers of entries on what both exclude, and otherwise at most once |
| Matcher.UnboundedReloading | pkg/eval/query.go:101-124 | excluding a kind once and twice in turn reloads for ever |
| Matcher.PodLogQueryNeverReloads | pkg/eval/query.go:360-363 | a pod log query never triggers a load |
| Matcher.RepeatedListReloads | pkg/eval/eval.go:349-357 | while kinds are listed one by one, every non-empty query counts as a change |
| Matcher.RetryReloadsIff | pkg/eval/eval.go:349-357 | asking the same query again goes to the backend again if and only if namespace and query still list their kinds one by one |
| Cluster.FilterResources | pkg/eval/realloader.go:277-305 | the filtered table is exactly the resources whose kind the matcher matches |
| Cluster.CompileGroupKindMatcher | pkg/eval/realloader.go:262-275 | scoped to cluster-wide, namespaced or all resources by the namespace given, then matched |
| Cluster.List | pkg/eval/realloader.go:369-400 | the objects of one kind in the namespace, or everywhere for the placeholders, each once |
| Cluster.ListingMeans | pkg/eval/realloader.go:369-380 | under the name of a namespace its objects of the kind, under either placeholder all of them |
| Cluster.ListWithMatcher | pkg/eval/realloader.go:250-260 | exactly the objects in scope that match and are not of a skipped kind |
| Cluster.ConcurrentListing | pkg/eval/realloader.go:310-349 | every interleaving of the bulk lister over succeeding lists returns, without error, exactly the objects of listing one by one |
| History.KindClosed | pkg/eval/eval.go:216-258 | a kind of which Eval brought nothing in is cached in a namespace entirely or not at all, failed loads included |
| History.MatchedIsCached | pkg/eval/eval.go:190-258 | after successful loads everything the accumulated matcher asks for is cached |
| History.ComesInIff | pkg/eval/eval.go:190-258 | for every history, failed loads and single evaluations included: an object asked for is cached afterwards if and only if it was before, or the query changes the matcher, keeps the kind, finds it unloaded and is answered |
| History.CachedQueryRefinesNaive | pkg/eval/eval.go:190-258 | for every history a query misses nothing if and only if every object of it is cached or comes in now; it gets exactly what the snapshot holds if and only if, besides, no outdated version is among what it matches |
| History.UndisturbedQueryIsNaiveIff | pkg/eval/eval.go:190-258 | with no failed load and nothing hand-picked among what it matches, a query returns nothing the snapshot would not, and exactly the naive answer if and only if the kinds it lost to an earlier exclusion are cached already |
| History.IncludeAllQueryIsNaive | pkg/eval/eval.go:190-258 | such a query that includes everything gets the naive answer whatever was excluded before |
| History.CoverageExact | pkg/eval/eval.go:190-258 | which objects successful loads have brought in: exactly those some accumulated matcher of their namespace or of all namespaces matched at some point |
| History.CachedIsBackedOrInserted | pkg/eval/eval.go:154-171 | every cached object is of the snapshot or was brought in by Eval, and those were given to it |
| History.CachedUidsUnique | pkg/eval/eval.go:274-281 | no UID is cached twice |
| History.SiblingComesInIff | pkg/eval/eval.go:163-168 | over every run, an uncached sibling of a cached object comes in if and only if it is itself given to Eval or an all-namespaces load that asks for its kind succeeds |
| History.EvaluatedKindStaysPartial | pkg/eval/eval.go:163-168 | so it stays out through every run of namespaced loads |
| History.EvaluatedSiblingWitness | pkg/eval/eval.go:219-225 | evaluating one object and asking for its kind hides its sibling |
| History.UnchangedQueriesKeepState | pkg/eval/eval.go:190-193 | queries that do not change the matcher leave cache and matchers as they are |
| History.FailedLoadRepairedIff | pkg/eval/eval.go:191-193 | for every history, repeating a query whose load failed brings in what it missed if and only if neither namespace nor query includes everything |
| History.FailedLoadIsForgotten | pkg/eval/eval.go:191-193 | after a failed load that leaves the namespace including everything, every run of queries that keeps its exclusions, whatever they repeat, works on what was cached before |
| History.OwnQueriesForget | pkg/eval/eval.go:191-193 | so once a namespace includes everything but the program's ignored kinds, none of its queries makes up for the failed load |
| EvalIndex.PutKeeps | pkg/eval/eval.go:274-281 | adding an uncached object to the UID map and its home bucket keeps index and map coherent |
| EvalIndex.BucketExact | pkg/eval/eval.go:327-331 | a bucket is the plain scan of the UID map for its namespace and kind |
| EvalIndex.BucketIff | pkg/eval/eval.go:219-222 | a kind looks loaded in a namespace exactly if an object of it is cached there |
| EvalIndex.InsertAllFacts | pkg/eval/eval.go:235-247 | inserting a load result adds exactly the objects whose UID was unknown and replaces nothing |
| Evaluator.Evaluator.constructor | pkg/eval/eval.go:68-86 | a new evaluator satisfies the invariant with an empty history and no namespace marked |
| Evaluator.Evaluator.Reset | pkg/eval/eval.go:126-131 | everything is cleared, and the marked namespaces are blanked in place, keeping their number: the next history starts with the blank one marked if any was |
| Evaluator.Evaluator.Filter | pkg/eval/eval.go:108-124 | equals the plain scan of the UID map, nothing missed and nothing twice, for one namespace or all |
| Evaluator.Evaluator.UpdateCache | pkg/eval/eval.go:274-281 | inserts only an unknown UID and keeps the index coherent |
| Evaluator.Evaluator.LoadNamespace | pkg/eval/eval.go:216-258 | a successful load adds exactly what the history says it fetches and marks exactly the namespaces it added to; a failed one adds nothing |
| Evaluator.Evaluator.WidenMatcher | pkg/eval/eval.go:349-357 | stores and reports the widened matcher of one namespace and no other |
| Evaluator.Evaluator.RefreshOwnership | pkg/eval/eval.go:298-310 | every cached object of a marked namespace has all its edges recorded, and no other edge appears |
| Evaluator.Evaluator.FilterOwnedBy | pkg/eval/eval.go:283-296 | exactly the owned candidates in order, except objects that no load ever indexed |
| Evaluator.Evaluator.EvalQuerySpec | pkg/eval/query.go:191-353 | each kind of query returns the cached objects of its namespace and kinds that it selects, each once |
| Evaluator.Evaluator.Load | pkg/eval/eval.go:190-197 | keeps the invariant, extends the history, and returns exactly what the history alone determines, owner table included, each object once |
| Evaluator.Evaluator.EvalObject | pkg/eval/eval.go:154-171 | a hit analyses the cached version; a miss analyses the refreshed one but caches the one passed in |
| Evaluator.Evaluator.CacheGiven | pkg/eval/eval.go:161-168 | a miss caches the version passed in, keeps the invariant, and marks nothing for a refresh |
| Evaluator.OwnedByFacts | pkg/eval/eval.go:287-294 | the kept candidates are exactly the owned and indexed ones, without repetition |
| Evaluator.KeptInOrder | pkg/eval/eval.go:287-294 | owned and selected candidates stay in the order of the candidates |
| Evaluator.FetchedIsSelected | pkg/eval/eval.go:217-227 | skipping the kinds that have a bucket leaves out exactly what is cached or ruled out already |
| Evaluator.KindQueryMeans | pkg/eval/query.go:178-193 | a query by kind picks the objects of its namespace, or of all, whose kind it matches |
| Evaluator.OwnerQueryMeans | pkg/eval/query.go:195-218 | a query by owner picks what names the UID of the owner, in the owner's namespace or in the one given instead |
| Evaluator.LabelQueryMeans | pkg/eval/query.go:236-264 | a query by label picks in the object's namespace what the selector matches, and nothing without a selector |
| Evaluator.RefQueryMeans | pkg/eval/query.go:321-353 | a reference picks, in the object's namespace and of the kind referred to, what has the UID or has the name |
| Evaluator.RefByName | pkg/eval/query.go:338-353 | a reference by name alone has exactly the one object of that kind, namespace and name as its naive answer |
| Evaluator.RefByUid | pkg/eval/query.go:338-353 | a reference by UID alone has exactly the one object of that UID |
| Evaluator.RefByBoth | pkg/eval/query.go:338-353 | a reference whose UID and name go to different objects has exactly these two |
| Evaluator.RefToNothing | pkg/eval/query.go:338-353 | a reference to nothing has no answer |
| Evaluator.PodLogQueryMeans | pkg/eval/query.go:355-389 | a pod log query picks no object of the cluster, and its one made-up object bears the container's name |
| Evaluator.ResultMeans | pkg/eval/eval.go:190-197 | what Load returns: cached, picked, and known to the owner table if asked by owner |
| Evaluator.RunOperations | pkg/eval/eval.go:126-197 | any run of queries, answered or failing, of single evaluations and of resets, from any state: every reply is duplicate free and what the history up to then accounts for |
| Evaluator.QueryAnswer | pkg/eval/eval.go:190-197 | the answer is the naive one if and only if the state before the call allows it, for every kind of query and every history |
| Evaluator.UndisturbedAnswersNaivelyIff | pkg/eval/eval.go:190-197 | with no failed load and nothing hand-picked in its way, that is so if and only if every selected object of a shut-out kind is cached already |
| EvalTree.AskStep | pkg/eval/eval.go:190-258 | what the evaluator holds after one more query of an analyzer, whatever was asked before and in whatever order: cache, what Eval brought in, what the owner table misses, marked namespaces |
| EvalTree.AnsweredIffServed | pkg/eval/eval.go:190-258 | a query of an analyzer is answered as by the snapshot, whenever it comes in an exploration, if and only if what the evaluator held before the exploration serves it |
| EvalTree.LoadChildren | pkg/analyze/generic.go:26-27 | with the backend answering and the query served, exactly the sub-objects of the snapshot, each once; in any case only objects the query picks |
| EvalTree.AnalyzePod | pkg/analyze/pod.go:30-72 | a pod's status, its log queries leaving the evaluator as ready as before |
| EvalTree.AnalyzeReplicaSet | pkg/analyze/replicaset.go:27-54 | built from exactly its sub-objects in the snapshot, which are the pods that its selector matches |
| EvalTree.AnalyzeLiveSets | pkg/analyze/deployment.go:25-41 | the statuses of exactly the given replica sets that are not scaled down to zero |
| EvalTree.AnalyzeDeployment | pkg/analyze/deployment.go:25-64 | built from exactly the replica sets of the snapshot that the selector matches |
| EvalTree.AnalyzeService | pkg/analyze/service.go:27-36 | built from exactly the pods of the snapshot that the selector matches |
| EvalTree.AnalyzeGeneric | pkg/analyze/generic.go:26-49 | built from exactly the owned objects of the snapshot, each analyzed by the analyzer of its kind |
| EvalTree.AnalyzeObject | pkg/eval/eval.go:260-272 | recursive evaluation ends when ownership is acyclic, and builds the snapshot's tree below the object if every query on the way is answered as by the snapshot; whatever is answered, a tree that an analyzer builds |
| SnapshotTree.HandlersMean | pkg/eval/eval.go:199-207 | which analyzer a kind has |
| SnapshotTree.SelectedPods | pkg/analyze/replicaset.go:27-29 | the sub-objects of a replica set or service: exactly the pods of its namespace that its own selector matches |
| SnapshotTree.SelectedSets | pkg/analyze/deployment.go:26-27 | the sub-objects of a deployment: exactly the replica sets of its namespace that its own selector matches |
| SnapshotTree.OwnedObjects | pkg/analyze/generic.go:51-59 | the sub-objects of anything else: exactly what names it as owner in its namespace, but for the ignored kinds; none for pods and namespaces |
| SnapshotTree.EveryChildShown | pkg/analyze/analyze.go:116-133 | a readable object shows every sub-object that is not a replica set scaled down to zero, with the snapshot's tree below it, and is at least as bad |
| SnapshotTree.BrokenPodShows | pkg/analyze/replicaset.go:27-54 | a broken pod that the selector matches makes a readable replica set or service an Error |
| SnapshotTree.ConditionsShown | pkg/analyze/generic.go:40-48 | which conditions an object of each analyzer is judged by, beside its sub-objects |
| SnapshotTree.PodTree | pkg/analyze/pod.go:30-72 | a pod is judged by its own conditions and fields |
| SnapshotTree.OneVerdict | pkg/eval/eval.go:108-124 | however the sub-objects are ordered at every level, an object has one status, and its tree shows the same objects at the same height: scaled-down filter, settled condition and completed-pod override included |
| SnapshotTree.SameVerdict | pkg/eval/eval.go:260-272 | two evaluations over one snapshot agree on result, progress and objects shown, and no parent looks better than its children |
| SnapshotTree.VerdictIsJoin | pkg/analyze/generic.go:26-49 | however deep the owner references go, the status is the join of the contributions of everything below |
| SnapshotTree.JoinOfJoins | pkg/analyze/analyze.go:116-124 | joining the statuses of sub-objects is joining everything that went into them |
| Poll.EvalStep | pkg/eval/eval.go:154-171 | Eval caches the version given under the UID given, if the object of that kind, namespace and name exists and the UID is not cached; nothing else changes |
| Poll.GetMeans | pkg/eval/realloader.go:402-411 | a single object is got by its kind, namespace and name |
| Poll.EvalRoot | pkg/eval/eval.go:154-171 | with the backend answering, the analyzer gets the cached version of the UID, else what the loader finds by kind, namespace and name, created again under a new UID or not; nothing exactly if neither exists |
| Poll.PollRoot | pkg/eval/eval.go:154-171 | the evaluation of one root leaves exactly what is told from the snapshot, and yields the snapshot's tree below the version analyzed |
| Poll.RootServedIff | pkg/eval/eval.go:190-258 | the condition on a root holds if and only if every query of its evaluation, put first, gets what the snapshot holds |
| Poll.PollRound | pkg/eval/poll.go:53-65 | in every round each root has the status of the snapshot's tree below the version analyzed, or Unknown if it is gone, as long as up to there the backend answered and every query was served, which is told from the snapshot, the roots and the namespaces left marked; what the evaluator is left with at the end; and in any case no status better than what is below it |
| Poll.VersionIsCurrentIff | pkg/eval/eval.go:159-168 | a root is analyzed in the snapshot's version unless an earlier root of its UID was cached in an outdated one |
| Poll.RoundsAgree | pkg/eval/poll.go:53-65 | two rounds with different roots and orders agree on every root both analyze in the same version |
| Poll.RoundNothingHidden | pkg/print/tree.go:217-261 | whatever any round finds unhealthy, served or not, is printed under every print option as often as it occurs |
| Poll.ServiceThenPod | pkg/eval/eval.go:216-258 | a service and then any pod of its namespace, selected or not: the round is served, the pod being cached by then |
| Poll.PodThenServiceIff | pkg/eval/eval.go:163-168 | a pod and then a service of its namespace: the round is served if and only if the service selects no other pod than that one in its current version |
| Poll.PodThenOwnerIff | pkg/eval/eval.go:249-255 | a pod and then the object that owns it: the round is served if and only if it owns no other and its query has something of a third kind to load, or the namespace was left marked; with nothing else to load it does not find the pod |
| Monitor.MonitorRound | pkg/monitor/poll.go:69-104 | for any targets, as long as the backend answers: exactly the objects of each target's kinds, each once, each with the snapshot's tree below it |
| Monitor.WatchedMeans | pkg/monitor/poll.go:78-84 | what a target watches: exactly the objects of its kinds, in all namespaces |
| Monitor.NodesReflect | pkg/analyze/generic.go:26-49 | every named node of such a tree is itself the snapshot's tree below an object |
| Monitor.ForestIsConsistent | pkg/monitor/poll.go:69-104 | wherever an object recurs in forests of the snapshot's trees, the same hangs there |
| Monitor.RoundSurvivesDedup | cmd/monitor/monitor.go:168-196 | of everything an answered round shows no object disappears with the duplicates, if every object has a UID |
| BulkList.InvariantStep | pkg/eval/realloader.go:310-349 | every step of every goroutine keeps the protocol's invariant |
| BulkList.NeverPanics | pkg/eval/realloader.go:339-344 | in every interleaving nothing sends on the closed channel, closes it twice or drives the wait group negative |
| BulkList.NoDeadlock | pkg/eval/realloader.go:319-345 | in every state reached before returning some step can be taken |
| BulkList.RunsTerminate | pkg/eval/realloader.go:310-349 | every run has at most nine steps a resource and five more |
| BulkList.ReturnedResult | pkg/eval/realloader.go:310-349 | the output is the multiset union of the successful lists, and an error is returned exactly if a list failed |
| BulkList.ReturnedMembers | pkg/eval/realloader.go:318-324 | the objects returned are exactly those of the successful lists |
| BulkList.ErrorIsLastFailure | pkg/eval/realloader.go:326-333 | the error held is always that of the last failure |
| BulkList.FirstErrorReturnedIff | pkg/eval/realloader.go:307-338 | every interleaving returns the first error, as the comment promises, if and only if at most one list fails |
| BulkList.TwoFailuresOverwrite | pkg/eval/realloader.go:326-333 | for any two failing lists, a complete run that returns another error than the first |
| Analyze.AggregateResult | pkg/analyze/analyze.go:100-134 | the loops compute the join of all condition and sub-object statuses |
| Analyze.JoinAllIsJoin | pkg/analyze/analyze.go:100-134 | that join is the least status at least as bad as each input |
| Analyze.JoinUnique | pkg/analyze/analyze.go:100-134 | there is only one such status |
| Analyze.AggregateOrderIndependent | pkg/analyze/analyze.go:105-123 | any order and repetition of the inputs gives the same status |
| Analyze.JoinAllMeans | pkg/status/status.go:11-29 | the result by what there is among the inputs: Error before Warning before Ok before Unknown; progressing if one is |
| Analyze.AnalyzeContainer | pkg/analyze/pod.go:130-189 | the step by step overwriting is the priority order terminated, unready, running, waiting |
| Analyze.ContainerProgressingIff | pkg/analyze/pod.go:141-166 | exactly when a container is reported as progressing |
| Analyze.ContainerMeans | pkg/analyze/pod.go:130-189 | from the fields of a container: when it is an Error, when Ok, when progressing, when not shown, and by which condition |
| Analyze.ContainersMean | pkg/analyze/pod.go:115-126 | the containers' part in the verdict on a pod |
| Analyze.ContainersInOrder | pkg/analyze/pod.go:115-126 | container by container, in their order |
| Analyze.AnalyzePodContainers | pkg/analyze/pod.go:115-126 | one sub-object for each container that has a condition, in order |
| Analyze.PodSyntheticConditions | pkg/analyze/pod.go:74-113 | the synthetic condition of a succeeded or failed pod, from its containers' exit codes |
| Analyze.AnalyzePod | pkg/analyze/pod.go:30-72 | aggregation, then Ok for a completed pod whose containers all exited with zero; Unknown if unreadable |
| Analyze.FailedPodDecided | pkg/analyze/pod.go:30-113 | a readable pod in phase Failed is Ok exactly if it has containers and all exited with zero, and Error otherwise |
| Analyze.PodVerdict | pkg/analyze/pod.go:30-113 | the exact result and progress of every readable pod in any phase, from its conditions, its phase and its containers' fields |
| Analyze.UnreadablePod | pkg/analyze/pod.go:30-40 | a pod that cannot be read is Unknown and shows no container |
| Analyze.HealthyPod | pkg/analyze/pod.go:48-71 | a running pod with every container running and ready and no condition against it is Ok and settled |
| Analyze.ReplicaSetVerdict | pkg/analyze/replicaset.go:27-99 | the exact result and progress of every readable replica set, from its conditions, counts and pods |
| Analyze.UnreadableReplicaSet | pkg/analyze/replicaset.go:31-50 | a replica set that cannot be read is Unknown and shows no pod |
| Analyze.ServiceVerdict | pkg/analyze/service.go:27-36 | a service is judged by its pods alone, and an always green resource by nothing |
| Analyze.GenericVerdict | pkg/analyze/generic.go:26-49 | the exact verdict on anything else, without a status and owned objects, unreadable, or aggregated |
| Analyze.SucceededPodWithFailure | pkg/analyze/pod.go:78-94 | a pod in phase Succeeded with a badly exited container is an Error |
| Analyze.PodMonotone | pkg/analyze/pod.go:48-71 | no pod looks better than its containers, the completed-pod override included |
| Analyze.AnalyzedMonotone | pkg/analyze/analyze.go:100-134 | in every tree the analyzers build a parent is at least as bad as its children and progressing if one is |
| Deployment.JudgeCondition | pkg/analyze/analyze.go:63-69 | the first condition analyzer that applies decides, Unknown if none does |
| Deployment.AnalyzeConditions | pkg/analyze/analyze.go:60-78 | every condition gets its verdict in a status cell of its own |
| Deployment.GetCondition | pkg/status/status.go:106-115 | a copy of the first condition of the type, sharing its cell |
| Deployment.SettleProgressing | pkg/analyze/deployment.go:43-57 | the write through the copy changes exactly the first Progressing condition, and only if every live replica set is Ok and settled |
| Deployment.LiveReplicaSets | pkg/analyze/deployment.go:37-41 | exactly the replica sets not scaled down to zero remain |
| Deployment.AnalyzeDeployment | pkg/analyze/deployment.go:25-64 | the version with shared cells computes the status of the deployment in the resource tree |
| Deployment.SettledDeployment | pkg/analyze/deployment.go:43-63 | with all live replica sets settled the result is Ok joined with the other conditions |
| Deployment.DeploymentVerdict | pkg/analyze/deployment.go:43-63 | the exact status of every readable deployment: settled if every live replica set is done and a Progressing condition is there, and otherwise the join of all its conditions and live sets |
| Deployment.UnreadableDeployment | pkg/analyze/deployment.go:59-61 | a deployment that cannot be read is Unknown and shows no replica set |
| Deployment.JudgedMeans | pkg/analyze/analyze.go:60-78 | every condition is judged under its own type and in its place |
| Deployment.DeploymentConditionMeans | pkg/analyze/deployment.go:66-83 | exactly a missed progress deadline and unavailability are condemned |
| Deployment.FirstMatchMeans | pkg/analyze/analyze.go:60-78 | the first analyzer that says anything decides, and without one the condition is Unknown |
| TreePrint.SortObjects | pkg/print/tree.go:393-400 | a permutation sorted by namespace, kind and name |
| TreePrint.OrderedByNamespace | pkg/print/tree.go:393-400 | the first difference between two namespaces decides their order |
| TreePrint.OrderedByName | pkg/print/tree.go:393-400 | within a namespace kind decides before name, and within a kind the name |
| TreePrint.FirstDifference | pkg/print/tree.go:397-399 | of two names the one with the smaller first differing character comes first, and a name before any that goes on where it ends |
| TreePrint.PrintSubTree | pkg/print/tree.go:355-384 | the lines in pre-order: siblings sorted at every level, each followed by its own sub-objects exactly if its details are to be shown |
| TreePrint.PreorderShown | pkg/print/tree.go:355-384 | in any such arrangement an object has as many lines as the options decide, whatever the order |
| TreePrint.PreorderFront | pkg/print/tree.go:355-384 | an object's line, then all below it, then its next sibling |
| TreePrint.PrintStatuses | pkg/print/tree.go:217-242 | the sorted roots without the skipped ones, each followed by its subtree in pre-order; on monotone forests every unhealthy object as often as it occurs |
| TreePrint.EveryRootPrinted | pkg/print/tree.go:217-242 | without errors-only every root has its line, healthy or not, in any forest |
| TreePrint.UnskippedInOrder | pkg/print/tree.go:223-228 | exactly the Ok and settled roots are skipped, and only under errors-only, root by root in their order |
| TreePrint.ShowOkPrintsAll | pkg/print/tree.go:245-254 | with show-ok everything is printed, as often as it occurs, in any forest |
| TreePrint.HealthyRootsAlone | pkg/print/tree.go:245-254 | by default a forest of healthy roots is printed as its roots and nothing else |
| TreePrint.DefaultShowsPruned | pkg/print/tree.go:245-254 | by default the lines are those of the forest with everything below healthy objects taken away |
| TreePrint.PrintoutShowsUnhealthy | pkg/print/tree.go:217-261 | in every printout of a monotone forest each unhealthy object has as many lines as it occurs |
| TreePrint.ShownPermuted | pkg/print/tree.go:356 | sorting siblings in place does not change what is shown |
| TreePrint.NoUnhealthyBelow | pkg/print/tree.go:245-254 | nothing unhealthy hangs below a node whose details are hidden |
| TreePrint.NothingUnhealthyHidden | pkg/print/tree.go:217-261 | under every print option each Warning, Error or progressing object is printed exactly as often as it occurs |
| TreePrint.AnalyzedNothingHidden | pkg/print/tree.go:217-261 | the same for every forest the analyzers build |
| TreePrint.ErrorsOnlyHidesHealthyIff | pkg/print/tree.go:217-254 | for every monotone forest, errors-only keeps healthy objects off the display, as documented, if and only if no unhealthy object in it has a healthy child |
| TreePrint.ErrorsOnlyShowsHealthyWitness | pkg/print/tree.go:245-254 | a broken object with a healthy child, which errors-only prints |
| Dedup.SubObjectsIDs | cmd/monitor/monitor.go:209-223 | the level-order loop ends and yields the UID of every object below, one for each |
| Dedup.Dedup | cmd/monitor/monitor.go:168-196 | every target stays, in order, with exactly the roots that occur below no root |
| Dedup.DedupedMeans | cmd/monitor/monitor.go:168-196 | target by target: its name, and exactly the roots whose UID occurs below no root of any target, in their order |
| Dedup.NoKeptRootBelow | cmd/monitor/monitor.go:183-187 | no kept root occurs strictly below any input root |
| Dedup.DedupIdempotent | cmd/monitor/monitor.go:168-196 | deduplicating the targets that come out changes nothing, for any forest |
| Dedup.StillShown | cmd/monitor/monitor.go:168-196 | from a dropped root a chain of strictly higher trees leads to a kept one that shows its objects |
| Dedup.DedupLosesNoObject | cmd/monitor/monitor.go:168-196 | if a repeated root carries at least its own objects, in a tree at least as high, wherever it recurs, exactly the UIDs of the input forest remain |
| Dedup.DedupCanLoseAll | cmd/monitor/monitor.go:168-196 | without that, two roots that show each other both vanish |
| Wrap.GapsAreOk | pkg/print/wrap.go:12 | the break points are the maximal runs of white space, in order and apart |
| Wrap.LineWriter.WriteLine | pkg/print/wrap.go:40-60 | one line with its prefix, cut with an ellipsis if it is the last allowed and text remains; the width shrinks after the first |
| Wrap.WriteLineWrapped | pkg/print/wrap.go:29-94 | terminates in bounds; every line starts where the last left off, behind the gap it ended at, and ends at the last gap within the width, or at the width if there is none; no line wider than asked, no more lines than allowed; the whole text comes out, or the last line ends in the ellipsis and an initial part of it does |
| Wrap.BreaksUnique | pkg/print/wrap.go:62-93 | that rule leaves no choice where lines break |
| Wrap.WrappedUnique | pkg/print/wrap.go:29-94 | nor a choice of what comes out |
| Wrap.PrefixedLines | pkg/print/wrap.go:52-59 | every line but the first begins with the prefix, and then shows its part of the text |
| Wrap.WrapExample | pkg/print/wrap.go:62-93 | three words at width eight: broken at the gap that fits, then the last lines of the text |
| Wrap.CutBody | pkg/print/wrap.go:45-49 | a line that is cut ends in three dots and still fits |
| Wrap.GapsAreAll | pkg/print/wrap.go:12 | the break points are all the gaps that begin anywhere in the text, each up to its end |
| Wrap.ContentPreservedIff | pkg/print/wrap.go:75-82 | the non-space text is kept exactly unless the first line is a forced break, and then exactly a prefix length of it comes twice |
| Pad.LexConcat | pkg/print/tree.go:19 | no colour sequence forms across a boundary whose right side cannot carry one on |
| Pad.PadStringKeepControl | pkg/print/wrap.go:98-130 | exactly the requested number of visible characters, the longest fitting part, every colour sequence in order |
| Pad.ControlEndMeans | pkg/print/tree.go:19 | an escape, a bracket, digits and an m are a colour sequence |
| Pad.ControlOnly | pkg/print/tree.go:19 | and nothing else is |
| Pad.FitMeans | pkg/print/wrap.go:98-130 | fitted text keeps its characters as far as they go and goes on with blanks |
| Pad.OffsetMeans | pkg/print/tree.go:343 | a column starts where the widths before it, and two blanks after each, end |
| Pad.CellTextMeans | pkg/print/tree.go:326-340 | the head prefix goes before the first line of the first column, the tail prefix before its others |
| Pad.PrintLine | pkg/print/tree.go:326-346 | every column starts at its offset whatever the colours, and shows its text fitted |
| Pad.PrintRow | pkg/print/tree.go:311-349 | as many physical lines as the tallest cell, with the same column offsets in each |
| Row.WrapLines | pkg/print/wrap.go:16-27 | every scanned line is wrapped on its own, and no line of the result is longer than the width |
| Row.SplitUnsplit | pkg/print/tree.go:312-315 | splitting a cell into lines loses nothing |
| Row.TrimMeans | pkg/print/tree.go:304 | trimming takes all white space off both ends and nothing else |
| Row.ScanLinesMeans | pkg/print/wrap.go:20-24 | the lines scanned are the parts between line feeds without their carriage returns, but for an empty last one |
| Row.TerminatedMeans | pkg/print/wrap.go:52-59 | every line ends with one line feed |
| Row.LastWidthMeans | pkg/print/tree.go:297-302 | the last column gets what is left of the terminal, but never less than its own width |
| Row.PrintWrappedRow | pkg/print/tree.go:290-350 | from contents to physical lines: columns aligned in each, and none wider than the terminal less the separator if the other columns leave the last one its own width |
| Wait.Command.SetExitCode | cmd/health.go:299-323 | the loops compute the worst result plus eight if something progresses |
| Wait.ExitCodeDecodes | cmd/health.go:299-323 | the low bits are 3 if anything is Unknown, else 2 if anything is an Error, else 1 if anything is a Warning, else 0; eight is set exactly if something progresses |
| Wait.ExitCodeOrderIndependent | cmd/health.go:299-323 | the order of the objects does not matter |
| Wait.Command.WaitFunction | cmd/health.go:250-297 | sets the exit code and cancels exactly if the frame ends the waiting under the flags |
| Wait.FinishesMeans | cmd/health.go:250-297 | which frames end the waiting under each flag, from the statuses in them |
| Wait.StopsWhenDone | cmd/health.go:256-259 | once such a frame has been handled the process can stop, whatever the poller was doing |
| Wait.InvariantStep | pkg/eval/poll.go:35-65 | every step of poller and printer keeps the exit code that of the last handled frame that ended the waiting |
| Wait.NoDeadlock | pkg/print/periodic.go:48-65 | some step is possible until the printer has stopped |
| Wait.ExitCodeOfRun | cmd/health.go:250-323 | the exit code of every stopped run: a delivered settled frame (0, 1 or 2) under wait-progress, 0 under wait-ok, the last frame without a flag, none under wait-forever |
| Screen.PeriodicPrinter.ResetScreen | pkg/print/periodic.go:67-80 | exactly the previous frame is erased and the cursor stands where it began |
| Screen.PeriodicPrinter.Write | pkg/print/periodic.go:29-36 | the text is passed on and its line feeds are counted |
| Screen.PeriodicPrinter.Update | pkg/print/periodic.go:48-65 | the screen is the earlier content, the visible part of the new frame and blanks, however the frame is split into writes, colour sequences included; after an error the last frame stays |
| Screen.ShowsFrame | pkg/print/periodic.go:55-58 | writing a frame whose visible characters fit shows exactly these, and it has as many line feeds as lines |
| Screen.ControlIgnored | pkg/print/tree.go:19 | a colour sequence moves neither screen nor cursor |
| Screen.ErasedLine | pkg/print/periodic.go:67-80 | one move up and erase removes exactly the last line of the frame |
| Screen.RunUpdates | pkg/print/periodic.go:48-65 | after any run of updates the screen is the original content, then exactly the latest frame, then blanks |

## Left out

- The cluster client: discovery, REST mapping, pagination, pod logs and single-object loading by name or label; a snapshot stands for the cluster.
- Decoding of unstructured objects and label selectors: objects are records, a selector is an arbitrary predicate on labels.
- Flag parsing, configuration files, the HTTP server and the Prometheus export.
- The string and regular expression condition matchers of pkg/analyze/common.go: analyzed conditions, and the default condition analyzers, are arbitrary.
- The Node, PVC, Route, OLM, MCO and ClusterOperator analyzers, the kubectl printer and the fake loader: short mappings that would add only easy members.
- Wall-clock time: the timeout of a waiting container and the polling timer are choices of the environment.
- The namespace caches are values in a map rather than objects of their own, so the alias held across an insertion is modelled by reading the map again; the needsRefill flag, which nothing reads, is not modelled.
- Two goroutines writing the shared error variable at once: each write is one step.
- The register of analyzers and its cache: the handlers of the modelled kinds are fixed.
- A message text, a reason or an error value carried along with a status.
- Wrap.WriteLineWrapped: asks for a width that leaves every line room for a character, and a line that may be cut room for the ellipsis; with less the source may slice out of bounds or not end. Text is one byte a character.
- Poll.PollRound: a kind whose analyzer is not modelled counts as generic; from the first root on with a query that is not served, or a call that fails, only what holds of any answers is stated, and the kinds the analyzers ask for by name must not be ignored.
- Monitor.MonitorRound: the same kinds must not be ignored, and from the first call that fails on only what holds of any answers is stated.
- Cluster.ListWithMatcher: a snapshot holds each UID once; an object served under two groups counts as one, and objects without a UID, as some aggregated interfaces serve them, are not modelled.
- Row.WrapLines: the longest line a scanner accepts is not modelled, and white space is what separates words; a vertical tab or a non-breaking space around a text stays.
- TreePrint.PrintStatuses: the tree prefixes and the condition rows are not modelled.
- Screen.PeriodicPrinter.Update: an escape character in a frame starts a colour sequence, and errors go to another stream than the terminal.
