# Verification model of ClusterResourceQuota

A ClusterResourceQuota (CRQ) limits the resources used by a group of namespaces together. The program has four
parts that share its state, and this project models each of them and proves what they guarantee:

- the **status admission**: every status update of a ResourceQuota (RQ) labelled for a CRQ is checked against the
  cluster-wide limits. Usages come from a cache of records shared by reference and guarded by a lock per entry; the CRQ
  status is written under optimistic concurrency before the usage is committed to the cache, with at most five
  attempts (`UsageTotals`, `StatusAdmission`, `RetryAnswers`, `AdmissionProtocol` and the modules about its runs);
- the **cache** those usages live in, rebuilt from listings (`UsageSnapshot`, `UsageRecords`, `QuotaCache`);
- the **controller**, which distributes the CRQ to its namespaces and aggregates the same usages a second time
  (`NamespaceSelection`, `Reconciler`);
- the **remove webhook**, which keeps an RQ in its group (`RemoveAdmission`);

and besides the NodeSelector scope of pods (`PodScopes`) and the rendering of refused amounts (`PrettyPrint`).

## How the program is modelled

- *Quantities* are `int`, resource lists are maps from names. `Add`, `Subtract`, `LessThanOrEqual` and `Mask` are those
  of k8s.io/apiserver, which is not part of this model: sums and differences have the union of the key sets, a
  missing key counts as zero, subtraction does not clamp, and only keys present on both sides are compared.
- *The API server* is a log of all versions of a CRQ; the index is the resource version and the last version is current.
  A read may return any version, so it may be stale. A status update succeeds exactly when its version is current,
  and an update that returns an error is taken to have written nothing.
- *Objects the program updates in place* are classes: the usage records, the cache entries, the cache, the fetched CRQ.
  Each method is proved against a function on values, and the properties are proved about that function.
- *Map iteration order* is an arbitrary choice at every step of a loop. *The clock* is a parameter.
- *Interleavings.* `AdmissionProtocol` is a state machine whose steps are the points at which another call, another writer
  or a rebuild can come in between: looking up the entry, taking its lock, reading, checking, writing, committing,
  unlocking. Each step is atomic, and so are summing up an entry (a part of checking) and a whole rebuild: a rebuild may
  come between any two steps, but a sum never sees a half-merged entry. A run is any sequence of enabled steps; what is
  assumed of the other parties is a `Discipline`: `Anything`, `AtomicSync`, `AdmissionsOnly`, `Bounded`, or one of the
  last without one of its assumptions, `LateShrinks` and `LateRebuilds`. Stored usages, one RQ per namespace, change by
  admitted updates that are stored, and by RQs that join with no usage or leave. The machine computes with the same
  functions (`IncrementalTotal`, `NewStatus`, `SnapshotOf`, `LessThanOrEqual`) as the methods. It has a run for all that
  `StatusAdmission.Handle` does (`SequentialCalls.RequestIsARun`), and `Serialisability.AdmissionsAreSerial` states each
  of its commits as one call of the function `Attempt` that `StatusAdmission.Validate` is proved to compute.

Three results about where the code and its intent differ:

- *Freshness.* The comment at clusterresourcequota-cache.go:62-63 says that usages younger than ten seconds are spared by a
  rebuild. They are not: a skipped record stays among the slots copied in afterwards. `UsageRecords.ClusterResourceQuotaCache.Merge`
  states what freshness does decide: whether the record's object is overwritten in place or replaced.
  `QuotaCache.ResourceQuotaCache.Sync` says of every fresh slot of the cache it rebuilds exactly when its usage survives,
  and `QuotaCache.ResourceQuotaCache.LoseFreshUsage` rebuilds any cache so that a fresh usage in it is lost.
- *Atomic rebuilds.* A rebuild holds only the cache's lock and an admission only the entry's
  (clusterresourcequota-cache.go:65, 138), so nothing in the code keeps them apart. The safety results hold for every
  interleaving of steps with rebuilds; serialisability and the whole-run bound take as an assumption, `AtomicSync`, that no
  rebuild comes between a call's lookup and its unlock. Without it, `CommittedTotals.CommittedTotalIff` says of every
  commit in every run exactly when the total it wrote is right, `CommittedTotals.TwoCallsInside` lets two calls into the
  closure for one CRQ at once, and `RebuildRaces.RebuildDuringCall` says for every listing what a rebuild between a
  call's check and its write leaves: when nothing is listed, the call commits to an entry the cache has dropped and its
  usage is lost.
- *The whole-run bound.* The API server stores an RQ's new usage only after the admission has answered, and the stored
  usages can exceed the limits in two ways. If usage that one namespace frees is given to another before the first update
  is stored, `BrokenBounds.LateStoreBreaksBound` builds such a run from every start at which one of two namespaces uses
  more of a limited resource than is left of it. If the cache is rebuilt from what is stored before an admitted update
  is, it forgets that update, as the freshness guard was to prevent, and gives the same room away again:
  `BrokenBounds.EarlyRebuildBreaksBound` builds such a run from every start at which anything is left.
  What exactly decides depends on the admitted requests and on what is stored, not on the cache: of every run whatever,
  `LateStores.AnyStoreOrderIff` says exactly when no order of storing the admitted updates exceeds a limit,
  `LateStores.WriteIsSafeIff` what a call would have to check before its write for that, and
  `LateStores.RunIsWithinIff` which runs are safe throughout.

The assumptions of the bound itself, `WholeRunBound.StoredUsagesStayWithinLimits`, are those of `BoundedStart` and
`Bounded`:

- at the start no call is under way, the cache holds what is stored, nothing stored is negative, and every limited
  resource is within its limit;
- the CRQ exists at every version, and its limits are neither lowered nor extended to new resources;
- requests are checked, and their usages are not negative;
- an update for an RQ is admitted only once the last one for it is stored;
- a rebuild comes only when no call is between its lookup and its unlock, and lists exactly what is stored;
- a rebuild comes only when no admitted update is still to be stored;
- when an update commits, no admitted update still to be stored frees anything; any number of growing ones may be on
  their way.

## Model

| member | source | states |
|---|---|---|
| UsageTotals.SumIsOrderIndependent | clusterresourcequota-statusadmission.go:94-97 | the summing loop gives the same list, key set included, for every order in which the cache map is visited |
| UsageTotals.IncrementalEqualsRecomputed | clusterresourcequota-statusadmission.go:94-103 | the old total plus the difference of one namespace agrees on every resource with the sum recomputed after its entry is replaced; its keys are all old ones and the new ones |
| UsageTotals.SameVerdictIffNoNegativeLeftover | clusterresourcequota-statusadmission.go:102-113 | checking the incremental total exceeds the limits on the same keys as checking the recomputed one, if and only if no leftover key has a negative limit |
| UsageTotals.SameVerdictForNonNegativeHard | clusterresourcequota-statusadmission.go:102-113 | so both checks always agree when the limits are not negative |
| UsageTotals.DownwardClosedIff | clusterresourcequota-statusadmission.go:98-115 | using less never turns an admitted request into a refused one, if and only if no limited resource the cache does not count yet has a negative limit |
| UsageTotals.NoPositiveDeltaIsAdmitted | clusterresourcequota-statusadmission.go:98-115 | from a total within the limits a request that raises nothing is admitted |
| UsageSnapshot.SnapshotHoldsLastListed | clusterresourcequota-cache.go:69-82 | a slot exists exactly when a labelled RQ is listed for it, and holds the last one listed |
| UsageSnapshot.SnapshotEntriesAreNotEmpty | clusterresourcequota-cache.go:84-89 | a CRQ for which nothing is listed has no entry |
| UsageSnapshot.SparesFreshIff | clusterresourcequota-cache.go:60-63 | what a listing makes of a cache's content spares every fresh usage, as promised, exactly when for each of them some RQ is listed in its slot and the last one reports the same usage |
| UsageRecords.ClusterResourceQuotaCache.Merge | clusterresourcequota-cache.go:90-109 | a merged entry has exactly the updated slots and usages, whatever the clock says; a stale record keeps its object, any other slot gets the new object |
| UsageRecords.ClusterResourceQuotaCache.MergeSlots | clusterresourcequota-cache.go:91-107 | the merge loop leaves the slots that are both existing and updated, in their old objects; those used in place hold the update, and exactly those are taken out of the group |
| UsageRecords.ClusterResourceQuotaCache.Put | clusterresourcequota-statusadmission.go:123 | a commit puts a new record in one slot and leaves every other slot with its object |
| QuotaCache.ResourceQuotaCache.GroupByLabel | clusterresourcequota-cache.go:69-82 | grouping makes new records that hold exactly the listing's snapshot, each in the slot it is for |
| QuotaCache.ResourceQuotaCache.MergeExisting | clusterresourcequota-cache.go:83-111 | entries without a group are dropped, all others are the same objects holding their group's usages, and exactly the groups without an entry are left |
| QuotaCache.ResourceQuotaCache.Sync | clusterresourcequota-cache.go:64-118 | the cache then holds exactly the listing's snapshot, surviving entries are the same objects, the others are new, and every record is in its own slot; a fresh usage survives if and only if the last RQ listed for its slot reports it too |
| QuotaCache.ResourceQuotaCache.LoseFreshUsage | clusterresourcequota-cache.go:98-109 | for every cache that holds a fresh usage a listing, and the rebuild from it, which loses that usage, against the documented promise |
| QuotaCache.SlotsShareNothing | clusterresourcequota-cache.go:105 | in a valid cache distinct slots hold distinct records and distinct names distinct entries |
| QuotaCache.ResourceQuotaCache.GetOrCreate | clusterresourcequota-cache.go:121-130 | the entry under the name, a new empty one if there was none, and no other change |
| StatusAdmission.SumUsages | clusterresourcequota-statusadmission.go:94-97 | the loop over the cache computes the total defined independently of any order |
| StatusAdmission.FetchedQuota.UpdateStatusUsed | clusterresourcequota-statusadmission.go:128-138 | the total is replaced and the usage set in the first item with the name, or appended |
| StatusAdmission.Validate | clusterresourcequota-statusadmission.go:84-126 | one attempt against an arbitrary API server does to versions and cached usages what `Attempt` says |
| StatusAdmission.Handle | clusterresourcequota-statusadmission.go:39-75 | an unlabelled RQ is allowed without any effect; a labelled one is answered, written and committed as `RetryOnConflict` says, and no other entry is touched |
| StatusAdmission.AllOrNothing | clusterresourcequota-statusadmission.go:57-75 | at most five attempts; either one status write on top of the current version, within its limits, and one commit, with the answer allowed, or no write and no commit |
| StatusAdmission.AllowedWritesOrMissing | clusterresourcequota-statusadmission.go:87-92 | an allowed request wrote nothing if and only if its last read found no CRQ |
| RetryAnswers.AttemptEnds | clusterresourcequota-statusadmission.go:84-126 | each end of one attempt, and exactly what the server did and how the sums of the usages are to the limits when it comes to it; a conflict exactly when the request passed and its update reached the server on a version no longer current |
| RetryAnswers.RefusalsName | clusterresourcequota-statusadmission.go:107-113 | a refusal names exactly the resources whose sums exceed their limits, with the difference asked for, the sum used and the limit |
| RetryAnswers.AnswersFirstWithoutConflict | clusterresourcequota-statusadmission.go:57-75 | exactly the attempts that end in conflicts are followed by another; the answer is that to the first one that does not: allowed when it wrote or found no CRQ, forbidden above the limits, an error when the read or the update failed; and an error when all conflict |
| ProtocolSafety.WritesAreWithinCurrentLimits | clusterresourcequota-statusadmission.go:84-126 | in every interleaving, rebuilds included, every status a checked admission wrote is within the limits of the version it replaced, and differs from it in nothing but the usages |
| ProtocolSafety.CallsWriteAndCommitOnceOrNever | clusterresourcequota-statusadmission.go:57-75 | in every interleaving a call makes at most five attempts, one write and one commit; refused and failed calls, and those that found no CRQ, neither wrote nor committed to any entry, admitted ones did each exactly once |
| ProtocolSafety.LocksExclude | clusterresourcequota-cache.go:137-141 | no two calls are inside the closure on the same entry |
| Serialisability.AdmissionsAreSerial | clusterresourcequota-statusadmission.go:85-124 | the cache is that of the admissions run one at a time in commit order, each commit is what its request does when run alone on what the earlier ones left, and versions were written in that order |
| Serialisability.UnlockSeesItsTotal | clusterresourcequota-statusadmission.go:116-124 | when a call unlocks, the cached usages sum up to the total it wrote |
| Serialisability.OneCallInside | clusterresourcequota-cache.go:137-141 | when no rebuild comes between a call's lookup and its unlock, no two calls are inside the closure for one CRQ |
| StatusConservation.UpsertAsMap | clusterresourcequota-statusadmission.go:130-137 | read as a map, the updated list is the old one with the namespace's usage replaced |
| StatusConservation.StatusMirrorsCache | clusterresourcequota-statusadmission.go:116-138 | over any interleaving of admissions the list of namespaces stays unique and equal to the cached usages, and the total written is the pointwise sum of the list |
| WholeRunBound.StoredUsagesStayWithinLimits | clusterresourcequota-statusadmission.go:94-124 | in every state of every run that meets the assumptions listed above, the usages the API server stores sum up to at most the limit on every limited resource |
| LateStores.AnyStoreOrderIff | clusterresourcequota-statusadmission.go:106-123 | in every state of every run: every way of storing the admitted updates still to be stored keeps the limits, if and only if the largest among the stored usage of an RQ and what its updates still to be stored ask for sum up to at most the limits |
| LateStores.WriteIsSafeIff | clusterresourcequota-statusadmission.go:106-123 | in every run, once a call wrote and committed, every way of storing the admitted updates keeps the limits, if and only if that sum with its request added was within the limits before the write |
| LateStores.RunIsWithinIff | clusterresourcequota-statusadmission.go:94-124 | any run at all is safe at all times, whatever the order of storing, if and only if it starts within the limits and each admission, joining or leaving RQ and change of the limits left that sum within them |
| LateStores.BoundedRunsLeaveRoom | clusterresourcequota-statusadmission.go:94-124 | the runs of the whole-run bound are among the safe ones |
| BrokenBounds.LateStoreBreaksBound | clusterresourcequota-statusadmission.go:106-123 | from every start at which one of two namespaces uses more than is left, a run of two admissions in which the stored usages exceed the limit, although it meets all assumptions but the one on updates that free something |
| BrokenBounds.EarlyRebuildBreaksBound | clusterresourcequota-cache.go:98-109 | from every start at which something is left of a limited resource, a run of two growing admissions with a rebuild from the stored usages in between in which the stored usages exceed the limit, although it meets all assumptions but the one on updates still to be stored at a rebuild |
| RebuildRaces.RebuildDuringCall | clusterresourcequota-cache.go:64-89 | a call with a rebuild between its check and its write still writes and commits, whatever is listed; when its CRQ is no longer listed, the cache is left without its usage; otherwise its total is that of the cache if and only if the rebuild left the sums of all other namespaces as they were |
| CommittedTotals.CommittedTotalIff | clusterresourcequota-statusadmission.go:94-124 | in every interleaving, a commit's total is the sum of the entry it goes to if and only if all other namespaces there have the sums they had at the call's last check, which they have unless the entry was rebuilt since |
| CommittedTotals.TwoCallsInside | clusterresourcequota-cache.go:121-141 | from every state with the entry's lock free, a run in which a rebuild between a lookup and a lock lets two calls into the closure for one CRQ |
| SoloCalls.SoloCallIsAdmitted | clusterresourcequota-statusadmission.go:84-126 | from any state with the lock free, an uninterrupted call within the current limits is admitted, with exactly its write and its commit |
| SoloCalls.SoloCallIsRefused | clusterresourcequota-statusadmission.go:106-115 | and one above them is refused and leaves no trace |
| SequentialCalls.RequestIsARun | clusterresourcequota-statusadmission.go:57-126 | from any state with the entry's lock free, whatever the server and others do during the five attempts of a request, the protocol has a run with just that, which ends with the answer, the versions and the cached usages of `RetryOnConflict` |
| NamespaceSelection.SelectedNamespaces | clusterresourcequota-controller.go:155-171 | the listed namespaces that match, in order; nothing for a failed listing or an invalid selector |
| NamespaceSelection.OnNamespaceChange | clusterresourcequota-controller.go:58-80 | the names of the CRQs whose valid selector matches, in order |
| NamespaceSelection.MatchingInOrder | clusterresourcequota-controller.go:164-169 | the namespaces selected are those at exactly the matching positions of the listing, in its order and each once |
| NamespaceSelection.EnqueuedInOrder | clusterresourcequota-controller.go:67-79 | and the names enqueued those at exactly the positions of the CRQs that select the namespace |
| NamespaceSelection.SelectsIff | clusterresourcequota-controller.go:69-73 | a nil selector selects nothing, one with an ill-formed part neither, any other exactly the namespaces that carry all its labels and fulfil all its expressions |
| NamespaceSelection.SelectionFailsIff | clusterresourcequota-controller.go:155-163 | a selection fails exactly when the listing does or the selector has an ill-formed part |
| NamespaceSelection.TriggerIffSelected | clusterresourcequota-controller.go:58-80 | a CRQ is enqueued for a listed namespace exactly when that namespace is among those it selects, invalid selectors included |
| Reconciler.ReconciledQuota.SyncResourceQuota | clusterresourcequota-controller.go:103-153 | the loop computes the quotas, the status and the failure flag of `SyncAll` |
| Reconciler.Reconcile | clusterresourcequota-controller.go:82-101 | a reconcile does to versions and quotas what `ReconcileOnce` says |
| Reconciler.SyncKeeps | clusterresourcequota-controller.go:119-148 | distributing changes no RQ's reported usage, deletes nothing, and touches no RQ of another name or of a namespace not selected |
| Reconciler.SyncSumsUp | clusterresourcequota-controller.go:111-151 | the aggregated total is the sum of the list, lists every limited resource, and comes with the limits of the spec |
| Reconciler.CompleteOrNothing | clusterresourcequota-controller.go:82-153 | the status is written only when every selected namespace has its RQ with the CRQ's spec and label; it then lists them all with the usages their RQs report and sums them up |
| Reconciler.WritesExactlyWhen | clusterresourcequota-controller.go:82-153 | and it is written exactly when the read was current, the CRQ is not being deleted, selection and update did not fail and no selected namespace failed |
| Reconciler.ReportsSuccessIff | clusterresourcequota-controller.go:82-101 | success is reported exactly when the CRQ was gone or going or the status was written, so everything else is run again |
| Reconciler.DistributesAnyway | clusterresourcequota-controller.go:103-148 | no RQ is touched without a CRQ or a selection; otherwise every selected namespace that does not fail gets its RQ, with the CRQ's spec and labels and its own status kept, whether others fail or not |
| Reconciler.SecondReconcileChangesNothing | clusterresourcequota-controller.go:82-153 | a second reconcile over unchanged inputs changes no RQ and writes back the object it read |
| Reconciler.AggregationsAgree | clusterresourcequota-controller.go:111-151 | with the cache mirroring one RQ per selected namespace, the controller's and the admission's totals agree on every resource |
| Reconciler.ListingMirrors | clusterresourcequota-cache.go:69-82 | a rebuild makes the cache that mirror when the RQs listed with the label are exactly those of the selected namespaces |
| RemoveAdmission.MembersStayIff | clusterresourcequota-removeadmission.go:41-107 | over any requests and lifetimes an RQ keeps its label and stays, if and only if no request about it came without the old object and took the label away or deleted it, and none deleted it on a read that its CRQ is gone or going |
| RemoveAdmission.UpdateTakesEffectIff | clusterresourcequota-removeadmission.go:41-70 | an update takes effect exactly when the old object was not seen, has no label, or the update keeps it |
| RemoveAdmission.DeletionTakesEffectIff | clusterresourcequota-removeadmission.go:74-107 | a deletion exactly when the old object was not seen, has no label, or its CRQ was read as missing or going |
| RemoveAdmission.MembersStay | clusterresourcequota-removeadmission.go:41-107 | while a CRQ exists and is not being deleted, an RQ that carries its label keeps it and is not removed, when requests carry the old object and the CRQ is read as it is |
| RemoveAdmission.MembersLeaveOnlyWithTheirGroup | clusterresourcequota-removeadmission.go:41-107 | over any lifetimes, an RQ that lost a label was deleted at a moment when its CRQ was gone or going; no update does it |
| PodScopes.InIsDecidedByFirst | resourcequota-evaluator.go:133-143 | the first value that matches or does not parse decides In: true, or an error; without one it is false |
| PodScopes.OperatorsAreComplements | resourcequota-evaluator.go:118-162 | for every pod and value list In and NotIn fail together and are otherwise opposite, Exists and DoesNotExist are opposite, and In is true exactly when a value matches after an all-parsable, non-matching prefix |
| PodScopes.OtherAnswers | resourcequota-evaluator.go:118-162 | Exists is true exactly for a pod with some node selector, DoesNotExist for one with none; an unsupported operator is an error; other objects and other scopes do not match |
| PrettyPrint.ListingIsUnique | clusterresourcequota-statusadmission.go:140-148 | there is only one ascending listing of a set of names |
| PrettyPrint.LeqByFirstDifference | clusterresourcequota-statusadmission.go:148 | the order is decided by the smaller character at the first difference, a string that ends there coming first |
| PrettyPrint.PrettyPrint | clusterresourcequota-statusadmission.go:142-155 | whatever the map order, the text is the rendering of that one listing: every key once, in ascending order |
| PrettyPrint.RenderJoins | clusterresourcequota-statusadmission.go:149-154 | the rendering is `key=amount` for each key of the listing, in its order, joined |
| PrettyPrint.JoinSplits | clusterresourcequota-statusadmission.go:154 | joining puts one comma between any two parts and nothing else |

## Left out

- Decoding of requests, HTTP details beyond allowed, forbidden and error, logging, and the timing and jitter of the backoff.
- Who counts as a user whose updates are not checked: one boolean per request.
- `manager.go`, `cmd/`, `helper.go`, `resourcequota.go`, `resourcequota-adaptor.go`, the generated clients and deep copies.
- `Matches`, `UsageStats` and `MatchingScopes` of the pod evaluator: their meaning lies in evaluators that are not part of this model.
- Parsing of label selectors in scope values: an arbitrary partial function. The syntax rules of selector keys and values: an arbitrary predicate.
- Owner references, annotations and garbage collection; creating or updating an RQ is an upsert that may fail without effect.
- The sharing of the CRQ's label map with the RQ it is assigned to: labels are values.
- The wording of a refusal: the amounts it names are in `StatusAdmission.Exceeds`, and `PrettyPrint` renders such lists.
- The lock fields: the methods are single calls, and the locks are the `holder` of `AdmissionProtocol`.
- The order of the exceeded names: `Exceeded` is a set, which is all that masking uses.
- WholeRunBound.StoredUsagesStayWithinLimits: takes the assumptions listed under "How the program is modelled"; the code does not enforce them, and a limit can of course be set below what is used.
- Serialisability.AdmissionsAreSerial: assumes that no rebuild comes between a call's lookup and its unlock, which the code does not enforce.
- RemoveAdmission.MembersStay: assumes that requests carry the old object and that the CRQ is read as it is or not at all; `RemoveAdmission.MembersStayIff` does without.
- A rebuild that merges an entry while a call sums it up: both are single steps.
