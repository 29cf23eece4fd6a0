/** The controller that distributes a ClusterResourceQuota to its namespaces and aggregates their usages. */
module Reconciler {
  import opened Options
  import opened ResourceLists
  import opened UsageTotals
  import opened QuotaObjects
  import opened UsageSnapshot
  import opened StatusAdmission
  import opened AdmissionProtocol
  import opened StatusConservation
  import opened NamespaceSelection

  type Quotas = map<QuotaKey, ResourceQuota>

  function KeyIn(crq: ClusterResourceQuota, ns: string): QuotaKey {
    (ns, crq.name)
  }

  /** What CreateOrUpdate leaves in a namespace: the quota's labels and spec are those of the
      ClusterResourceQuota, and its status stays as it was, or empty when it is new. */
  function Distributed(crq: ClusterResourceQuota, ns: string, quotas: Quotas): ResourceQuota {
    var key := KeyIn(crq, ns);
    var rq := if key in quotas then quotas[key]
              else ResourceQuota(ns, crq.name, map[], QuotaSpec(map[], []), map[], map[]);
    rq.(labels := crq.labels[LABEL_CLUSTER_RESOURCE_QUOTA := crq.name], spec := crq.spec)
  }

  function Zeros(hard: ResourceList): ResourceList {
    map k | k in hard :: 0
  }

  /** The outcome of distributing to some namespaces: the quotas, the aggregated status, and whether any failed. */
  datatype Synced = Synced(quotas: Quotas, status: CrqStatus, failed: bool)

  function SyncAll(crq: ClusterResourceQuota, matched: seq<Namespace>, quotas: Quotas, failing: set<string>): Synced {
    if matched == [] then Synced(quotas, CrqStatus(crq.spec.hard, Zeros(crq.spec.hard), []), false)
    else
      var before, ns := SyncAll(crq, matched[..|matched| - 1], quotas, failing), matched[|matched| - 1].name;
      if ns in failing then before.(failed := true)
      else
        var rq := Distributed(crq, ns, before.quotas);
        Synced(before.quotas[KeyIn(crq, ns) := rq],
               CrqStatus(crq.spec.hard, Add(before.status.used, rq.used),
                         before.status.namespaces + [NamespaceUsage(ns, rq.used)]),
               before.failed)
  }

  class Cluster {
    var quotas: Quotas

    /** Creates or updates the quota of one namespace; a failed call writes nothing. */
    method CreateOrUpdate(crq: ClusterResourceQuota, ns: string, fails: bool) returns (rq: Option<ResourceQuota>)
      modifies this
      ensures rq == if fails then None else Some(Distributed(crq, ns, old(quotas)))
      ensures quotas == if fails then old(quotas) else old(quotas)[KeyIn(crq, ns) := Distributed(crq, ns, old(quotas))]
    {
      if fails {
        return None;
      }
      var distributed := Distributed(crq, ns, quotas);
      quotas := quotas[KeyIn(crq, ns) := distributed];
      return Some(distributed);
    }
  }

  /** The fetched ClusterResourceQuota, whose status the sync assigns. */
  class ReconciledQuota {
    const crq: ClusterResourceQuota
    var status: CrqStatus

    constructor (crq: ClusterResourceQuota)
      ensures this.crq == crq && status == crq.status
    {
      this.crq, status := crq, crq.status;
    }

    /** The loop over the selected namespaces; a failing one is skipped and remembered. */
    method SyncResourceQuota(cluster: Cluster, matched: seq<Namespace>, failing: set<string>) returns (failed: bool)
      modifies this, cluster
      ensures Synced(cluster.quotas, status, failed) == SyncAll(crq, matched, old(cluster.quotas), failing)
    {
      var totalUsage := Zeros(crq.spec.hard);
      var namespaceUsage: seq<NamespaceUsage> := [];
      failed := false;
      for i := 0 to |matched|
        invariant Synced(cluster.quotas, CrqStatus(crq.spec.hard, totalUsage, namespaceUsage), failed)
               == SyncAll(crq, matched[..i], old(cluster.quotas), failing)
      {
        assert matched[..i + 1][..i] == matched[..i];
        var rq := cluster.CreateOrUpdate(crq, matched[i].name, matched[i].name in failing);
        if rq.None? {
          failed := true;
          continue;
        }
        totalUsage := Add(totalUsage, rq.value.used);
        namespaceUsage := namespaceUsage + [NamespaceUsage(matched[i].name, rq.value.used)];
      }
      assert matched[..|matched|] == matched;
      status := CrqStatus(crq.spec.hard, totalUsage, namespaceUsage);
    }
  }

  // ----- Reconcile -----

  /** What the API server does during a reconcile: how old the read is, the namespace listing, the namespaces
      whose quota cannot be written, what others write meanwhile, and whether the status update fails. */
  datatype Conditions = Conditions(read: Reading, listing: Option<seq<Namespace>>, failing: set<string>,
                                   between: seq<Option<ClusterResourceQuota>>, updateFails: bool)

  datatype Reconciled = Reconciled(ok: bool, log: Log, quotas: Quotas)

  /** The outcome of a reconcile on values. */
  ghost function ReconcileOnce(legal: Syntax, log: Log, quotas: Quotas, c: Conditions): Reconciled {
    var log': Log := log + c.between;
    if c.read.ReadFails? then Reconciled(false, log', quotas)
    else
      var v := VersionRead(log, c.read.age);
      if log[v].None? || log[v].value.deleting then Reconciled(true, log', quotas)
      else
        var crq := log[v].value;
        var matched := Selected(legal, crq, c.listing);
        if matched.None? then Reconciled(false, log', quotas)
        else
          var synced := SyncAll(crq, matched.value, quotas, c.failing);
          if synced.failed || c.updateFails || v != |log'| - 1 then Reconciled(false, log', synced.quotas)
          else Reconciled(true, log' + [Some(crq.(status := synced.status))], synced.quotas)
  }

  method Reconcile(legal: Syntax, store: CrqStore, cluster: Cluster, c: Conditions) returns (ok: bool)
    modifies store, cluster
    ensures Reconciled(ok, store.log, cluster.quotas) == ReconcileOnce(legal, old(store.log), old(cluster.quotas), c)
  {
    var v := if c.read.ReadFails? then 0 else VersionRead(store.log, c.read.age);
    var read := store.log[v];
    store.WrittenByOthers(c.between);
    if c.read.ReadFails? {
      ok := false;
    } else if read.None? || read.value.deleting {
      ok := true;
    } else {
      var matched := SelectedNamespaces(legal, read.value, c.listing);
      if matched.None? {
        ok := false;
      } else {
        var crq := new ReconciledQuota(read.value);
        var failed := crq.SyncResourceQuota(cluster, matched.value, c.failing);
        ok := false;
        if !failed {
          var result := store.UpdateStatus(v, crq.status, c.updateFails);
          ok := result.Updated?;
        }
      }
    }
  }

  // ----- Complete or nothing -----

  function UsedIn(quotas: Quotas, key: QuotaKey): ResourceList {
    if key in quotas then quotas[key].used else map[]
  }

  ghost predicate Untouched(before: Quotas, after: Quotas, key: QuotaKey) {
    (key in after <==> key in before) && (key in before ==> after[key] == before[key])
  }

  /** Reconciling never changes what a quota reports as used, and never touches a quota of another name, of a
      namespace that is not selected or of one that fails; in particular it deletes nothing. */
  lemma {:induction false} SyncKeeps(crq: ClusterResourceQuota, matched: seq<Namespace>, quotas: Quotas,
                                     failing: set<string>, key: QuotaKey)
    ensures var after := SyncAll(crq, matched, quotas, failing).quotas;
            && UsedIn(after, key) == UsedIn(quotas, key)
            && (key in quotas ==> key in after)
            && (key.1 != crq.name || key.0 in failing || (forall ns | ns in matched :: ns.name != key.0) ==>
                  Untouched(quotas, after, key))
  {
    if matched != [] {
      var front := matched[..|matched| - 1];
      SyncKeeps(crq, front, quotas, failing, key);
      assert matched == front + [matched[|matched| - 1]];
    }
  }

  lemma {:induction false} SyncFails(crq: ClusterResourceQuota, matched: seq<Namespace>, quotas: Quotas,
                                     failing: set<string>)
    ensures SyncAll(crq, matched, quotas, failing).failed <==> exists ns :: ns in matched && ns.name in failing
  {
    if matched != [] {
      var front, last := matched[..|matched| - 1], matched[|matched| - 1];
      SyncFails(crq, front, quotas, failing);
      assert matched == front + [last];
    }
  }

  /** The quota of the ClusterResourceQuota's name carries its spec, its labels and the label that names it. */
  ghost predicate IsDistributed(crq: ClusterResourceQuota, ns: string, quotas: Quotas) {
    var key := (ns, crq.name);
    && key in quotas && quotas[key].spec == crq.spec && MembershipOf(quotas[key].labels) == crq.name
    && quotas[key].labels.Keys == crq.labels.Keys + {LABEL_CLUSTER_RESOURCE_QUOTA}
    && forall l | l in crq.labels && l != LABEL_CLUSTER_RESOURCE_QUOTA :: quotas[key].labels[l] == crq.labels[l]
  }

  /** A quota keeps its place and its status; a new one is made for its place, with an empty status. */
  ghost predicate IsKept(before: Quotas, after: Quotas, key: QuotaKey) {
    key in after &&
    if key in before then
      && after[key].namespace == before[key].namespace && after[key].name == before[key].name
      && after[key].hard == before[key].hard && after[key].used == before[key].used
    else
      && after[key].namespace == key.0 && after[key].name == key.1
      && after[key].hard == map[] && after[key].used == map[]
  }

  /** A quota there was keeps its place and its status, and one that is made has its place and an empty status. */
  lemma {:induction false} SyncKept(crq: ClusterResourceQuota, matched: seq<Namespace>, quotas: Quotas,
                                    failing: set<string>, key: QuotaKey)
    ensures var after := SyncAll(crq, matched, quotas, failing).quotas;
            if key in after then IsKept(quotas, after, key) else key !in quotas
  {
    if matched != [] {
      SyncKept(crq, matched[..|matched| - 1], quotas, failing, key);
    }
  }

  lemma {:induction false} SyncDistributes(crq: ClusterResourceQuota, matched: seq<Namespace>, quotas: Quotas,
                                           failing: set<string>, i: nat)
    requires i < |matched| && matched[i].name !in failing
    ensures IsDistributed(crq, matched[i].name, SyncAll(crq, matched, quotas, failing).quotas)
    ensures IsKept(quotas, SyncAll(crq, matched, quotas, failing).quotas, (matched[i].name, crq.name))
  {
    var front, key := matched[..|matched| - 1], (matched[i].name, crq.name);
    if matched[i].name != matched[|matched| - 1].name {
      SyncDistributes(crq, front, quotas, failing, i);
    } else {
      SyncKept(crq, front, quotas, failing, key);
    }
  }

  /** The list names the namespaces in order, with the usages their quotas report. */
  lemma {:induction false} SyncLists(crq: ClusterResourceQuota, matched: seq<Namespace>, quotas: Quotas,
                                     failing: set<string>)
    requires !SyncAll(crq, matched, quotas, failing).failed
    ensures var items := SyncAll(crq, matched, quotas, failing).status.namespaces;
            && |items| == |matched|
            && forall i | 0 <= i < |matched| ::
                 items[i] == NamespaceUsage(matched[i].name, UsedIn(quotas, KeyIn(crq, matched[i].name)))
  {
    if matched != [] {
      var front, last := matched[..|matched| - 1], matched[|matched| - 1];
      SyncLists(crq, front, quotas, failing);
      SyncKeeps(crq, front, quotas, failing, KeyIn(crq, last.name));
    }
  }

  lemma {:induction false} ListSumExtend(items: seq<NamespaceUsage>, item: NamespaceUsage, k: string)
    ensures ListSumAt(items + [item], k) == ListSumAt(items, k) + Get(item.used, k)
  {
    if items != [] {
      ListSumExtend(items[1..], item, k);
      assert (items + [item])[1..] == items[1..] + [item];
    } else {
      assert (items + [item])[1..] == [];
    }
  }

  /** The aggregated total is the sum of the list on every resource, has every limited resource as a key, and is
      reported with the limits of the spec. */
  lemma {:induction false} SyncSumsUp(crq: ClusterResourceQuota, matched: seq<Namespace>, quotas: Quotas,
                                      failing: set<string>)
    ensures var status := SyncAll(crq, matched, quotas, failing).status;
            && status.hard == crq.spec.hard
            && crq.spec.hard.Keys <= status.used.Keys
            && SumsUp(status)
  {
    if matched != [] {
      var front, last := matched[..|matched| - 1], matched[|matched| - 1];
      SyncSumsUp(crq, front, quotas, failing);
      var before, after := SyncAll(crq, front, quotas, failing).status, SyncAll(crq, matched, quotas, failing).status;
      if last.name !in failing {
        var item := after.namespaces[|after.namespaces| - 1];
        assert after.namespaces == before.namespaces + [item];
        forall k ensures Get(after.used, k) == ListSumAt(after.namespaces, k) {
          ListSumExtend(before.namespaces, item, k);
        }
      }
    }
  }

  /** A reconcile writes the status only when every selected namespace has its quota, with the spec and label of
      the ClusterResourceQuota; the status then has the limits of the spec, lists the selected namespaces with
      the usages their quotas report, and sums them up. Otherwise the versions are those others wrote. */
  lemma CompleteOrNothing(legal: Syntax, log: Log, quotas: Quotas, c: Conditions)
    ensures var r := ReconcileOnce(legal, log, quotas, c);
            r.log == log + c.between ||
            (&& r.ok && |r.log| == |log + c.between| + 1 && r.log[..|log| + |c.between|] == log + c.between
             && log[|log| - 1].Some? && c.between == []
             && var crq := log[|log| - 1].value;
             && var written := r.log[|r.log| - 1];
             && written.Some? && written.value == crq.(status := written.value.status)
             && var matched := Selected(legal, crq, c.listing);
             && matched.Some?
             && var status := written.value.status;
             && status.hard == crq.spec.hard && SumsUp(status)
             && |status.namespaces| == |matched.value|
             && forall i | 0 <= i < |matched.value| ::
                  && IsDistributed(crq, matched.value[i].name, r.quotas)
                  && status.namespaces[i] == NamespaceUsage(matched.value[i].name,
                                                            UsedIn(r.quotas, KeyIn(crq, matched.value[i].name))))
  {
    var r := ReconcileOnce(legal, log, quotas, c);
    if r.log != log + c.between {
      var crq := log[|log| - 1].value;
      var matched := Selected(legal, crq, c.listing).value;
      SyncFails(crq, matched, quotas, c.failing);
      SyncLists(crq, matched, quotas, c.failing);
      SyncSumsUp(crq, matched, quotas, c.failing);
      forall i | 0 <= i < |matched|
        ensures IsDistributed(crq, matched[i].name, r.quotas)
        ensures UsedIn(r.quotas, KeyIn(crq, matched[i].name)) == UsedIn(quotas, KeyIn(crq, matched[i].name))
      {
        SyncDistributes(crq, matched, quotas, c.failing, i);
        SyncKeeps(crq, matched, quotas, c.failing, KeyIn(crq, matched[i].name));
      }
    }
  }

  /** Success is reported exactly when there was nothing to do, the ClusterResourceQuota being gone or going, or the
      status was written; so a failed read, selection, namespace or update is run again. */
  lemma ReportsSuccessIff(legal: Syntax, log: Log, quotas: Quotas, c: Conditions)
    ensures ReconcileOnce(legal, log, quotas, c).ok
       <==> (&& c.read.VersionsOld?
             && var read := log[VersionRead(log, c.read.age)];
             && (read.None? || read.value.deleting
                 || |ReconcileOnce(legal, log, quotas, c).log| > |log| + |c.between|))
  {
  }

  /** No quota is touched when the ClusterResourceQuota is not read, gone or going, or the selection fails; otherwise
      every selected namespace that does not fail gets its quota, whether the others fail or not, and whether the
      status is written or not. */
  lemma DistributesAnyway(legal: Syntax, log: Log, quotas: Quotas, c: Conditions)
    ensures var after := ReconcileOnce(legal, log, quotas, c).quotas;
            var read := if c.read.ReadFails? then None else log[VersionRead(log, c.read.age)];
            if read.None? || read.value.deleting || Selected(legal, read.value, c.listing).None? then
              after == quotas
            else
              forall ns | ns in Selected(legal, read.value, c.listing).value ::
                if ns.name in c.failing then Untouched(quotas, after, (ns.name, read.value.name))
                else IsDistributed(read.value, ns.name, after) && IsKept(quotas, after, (ns.name, read.value.name))
  {
    var read := if c.read.ReadFails? then None else log[VersionRead(log, c.read.age)];
    if read.Some? && !read.value.deleting && Selected(legal, read.value, c.listing).Some? {
      var matched := Selected(legal, read.value, c.listing).value;
      forall ns | ns in matched && ns.name !in c.failing
        ensures IsDistributed(read.value, ns.name, SyncAll(read.value, matched, quotas, c.failing).quotas)
        ensures IsKept(quotas, SyncAll(read.value, matched, quotas, c.failing).quotas, (ns.name, read.value.name))
      {
        var i :| 0 <= i < |matched| && matched[i] == ns;
        SyncDistributes(read.value, matched, quotas, c.failing, i);
      }
      forall ns | ns in matched && ns.name in c.failing
        ensures Untouched(quotas, SyncAll(read.value, matched, quotas, c.failing).quotas, (ns.name, read.value.name))
      {
        SyncKeeps(read.value, matched, quotas, c.failing, (ns.name, read.value.name));
      }
    }
  }

  /** And it does write the status whenever it read the current version, nothing failed and no selected
      namespace's quota failed. */
  lemma WritesExactlyWhen(legal: Syntax, log: Log, quotas: Quotas, c: Conditions)
    ensures |ReconcileOnce(legal, log, quotas, c).log| > |log| + |c.between|
       <==> (&& c.read.VersionsOld? && !c.updateFails
             && var v := VersionRead(log, c.read.age);
             && v == |log| + |c.between| - 1
             && log[v].Some? && !log[v].value.deleting
             && var matched := Selected(legal, log[v].value, c.listing);
             && matched.Some? && forall ns | ns in matched.value :: ns.name !in c.failing)
  {
    if c.read.VersionsOld? {
      var read := log[VersionRead(log, c.read.age)];
      if read.Some? && Selected(legal, read.value, c.listing).Some? {
        SyncFails(read.value, Selected(legal, read.value, c.listing).value, quotas, c.failing);
      }
    }
  }

  // ----- Idempotence -----

  /** Once every namespace has its quota, distributing again to any of them changes no quota. */
  ghost predicate Settled(crq: ClusterResourceQuota, matched: seq<Namespace>, quotas: Quotas) {
    forall i | 0 <= i < |matched| ::
      && KeyIn(crq, matched[i].name) in quotas
      && Distributed(crq, matched[i].name, quotas) == quotas[KeyIn(crq, matched[i].name)]
  }

  lemma {:induction false} SyncSettles(crq: ClusterResourceQuota, matched: seq<Namespace>, quotas: Quotas,
                                       failing: set<string>)
    requires !SyncAll(crq, matched, quotas, failing).failed
    ensures Settled(crq, matched, SyncAll(crq, matched, quotas, failing).quotas)
  {
    if matched != [] {
      SyncSettles(crq, matched[..|matched| - 1], quotas, failing);
    }
  }

  lemma {:induction false} SettledStays(crq: ClusterResourceQuota, matched: seq<Namespace>, quotas: Quotas,
                                        failing: set<string>)
    requires Settled(crq, matched, quotas)
    ensures SyncAll(crq, matched, quotas, failing).quotas == quotas
  {
    if matched != [] {
      var front, last := matched[..|matched| - 1], matched[|matched| - 1];
      assert forall i | 0 <= i < |front| :: front[i] == matched[i];
      SettledStays(crq, front, quotas, failing);
      assert KeyIn(crq, matched[|matched| - 1].name) in quotas;
      var key := KeyIn(crq, last.name);
      assert quotas[key := quotas[key]] == quotas;
    }
  }

  lemma {:induction false} SameUsedSameStatus(crq: ClusterResourceQuota, crq': ClusterResourceQuota,
                                              matched: seq<Namespace>, quotas: Quotas, quotas': Quotas,
                                              failing: set<string>)
    requires crq' == crq.(status := crq'.status)
    requires forall key :: UsedIn(quotas', key) == UsedIn(quotas, key)
    ensures SyncAll(crq', matched, quotas', failing).status == SyncAll(crq, matched, quotas, failing).status
    ensures SyncAll(crq', matched, quotas', failing).failed == SyncAll(crq, matched, quotas, failing).failed
  {
    if matched != [] {
      var front, ns := matched[..|matched| - 1], matched[|matched| - 1].name;
      SameUsedSameStatus(crq, crq', front, quotas, quotas', failing);
      SyncKeeps(crq, front, quotas, failing, KeyIn(crq, ns));
      SyncKeeps(crq', front, quotas', failing, KeyIn(crq, ns));
    }
  }

  /** A second reconcile right after a successful one, of the same listing, changes no quota and writes back the
      very object it read. */
  lemma SecondReconcileChangesNothing(legal: Syntax, log: Log, quotas: Quotas, c: Conditions)
    requires c.read == VersionsOld(0) && c.between == []
    requires ReconcileOnce(legal, log, quotas, c).ok && |ReconcileOnce(legal, log, quotas, c).log| == |log| + 1
    ensures var first := ReconcileOnce(legal, log, quotas, c);
            var second := ReconcileOnce(legal, first.log, first.quotas, c);
            && second.ok && second.quotas == first.quotas
            && second.log == first.log + [first.log[|first.log| - 1]]
  {
    var first := ReconcileOnce(legal, log, quotas, c);
    assert log + [] == log && first.log + [] == first.log;
    var crq, crq' := log[|log| - 1].value, first.log[|first.log| - 1].value;
    var matched := Selected(legal, crq, c.listing).value;
    SyncSettles(crq, matched, quotas, c.failing);
    forall key ensures UsedIn(first.quotas, key) == UsedIn(quotas, key) {
      SyncKeeps(crq, matched, quotas, c.failing, key);
    }
    SameUsedSameStatus(crq, crq', matched, quotas, first.quotas, c.failing);
    assert Settled(crq', matched, first.quotas) by {
      forall i | 0 <= i < |matched|
        ensures KeyIn(crq', matched[i].name) in first.quotas
        ensures Distributed(crq', matched[i].name, first.quotas) == first.quotas[KeyIn(crq', matched[i].name)]
      {
        assert Distributed(crq', matched[i].name, first.quotas) == Distributed(crq, matched[i].name, first.quotas);
        assert KeyIn(crq', matched[i].name) == KeyIn(crq, matched[i].name);
      }
    }
    SettledStays(crq', matched, first.quotas, c.failing);
  }

  // ----- The two aggregations -----

  /** The cache holds exactly the usages the quotas of the selected namespaces report. */
  ghost predicate CacheMirrors(usages: Usages, crq: ClusterResourceQuota, matched: seq<Namespace>, quotas: Quotas) {
    && (forall n :: n in usages <==> exists i :: 0 <= i < |matched| && matched[i].name == n)
    && forall i | 0 <= i < |matched| ::
         UsageOf(usages, matched[i].name) == UsedIn(quotas, KeyIn(crq, matched[i].name))
  }

  /** With one quota per selected namespace and the cache mirroring their statuses, the controller's total and the
      admission's total agree on every resource; the controller's lists every limited resource besides. */
  lemma AggregationsAgree(legal: Syntax, crq: ClusterResourceQuota, listing: seq<Namespace>, quotas: Quotas,
                          failing: set<string>, usages: Usages)
    requires DistinctNames(listing) && Selected(legal, crq, Some(listing)).Some?
    requires var matched := Selected(legal, crq, Some(listing)).value;
             !SyncAll(crq, matched, quotas, failing).failed && CacheMirrors(usages, crq, matched, quotas)
    ensures var matched := Selected(legal, crq, Some(listing)).value;
            var status := SyncAll(crq, matched, quotas, failing).status;
            && Agree(status.used, Total(usages))
            && crq.spec.hard.Keys <= status.used.Keys
            && AsMap(status.namespaces) == usages
  {
    var matched := Selected(legal, crq, Some(listing)).value;
    var status := SyncAll(crq, matched, quotas, failing).status;
    SelectedAreDistinct(AsSelector(legal, crq.namespaceSelector).value, listing);
    SyncLists(crq, matched, quotas, failing);
    SyncSumsUp(crq, matched, quotas, failing);
    ListIsMap(status.namespaces, usages);
    forall k ensures Get(status.used, k) == Get(Total(usages), k) {
      ListSumIsSum(status.namespaces, k);
      TotalAt(usages, k);
    }
  }

  function ListedUsages(listing: seq<ResourceQuota>, name: string): Usages {
    var listed := Listed(listing, name);
    if listed.Some? then listed.value else map[]
  }

  /** Rebuilding the cache from a listing makes it the mirror the two aggregations need, when the quotas listed
      with the ClusterResourceQuota's label are exactly those of its selected namespaces. */
  lemma ListingMirrors(crq: ClusterResourceQuota, matched: seq<Namespace>, quotas: Quotas, listing: seq<ResourceQuota>)
    requires crq.name != ""
    requires forall i | 0 <= i < |matched| ::
               && KeyIn(crq, matched[i].name) in quotas
               && var rq := quotas[KeyIn(crq, matched[i].name)];
               && rq in listing && rq.namespace == matched[i].name && MembershipOf(rq.labels) == crq.name
    requires forall rq | rq in listing && MembershipOf(rq.labels) == crq.name ::
               exists i :: 0 <= i < |matched| && matched[i].name == rq.namespace
                           && quotas[KeyIn(crq, matched[i].name)] == rq
    ensures CacheMirrors(ListedUsages(listing, crq.name), crq, matched, quotas)
  {
    var usages := ListedUsages(listing, crq.name);
    forall n ensures n in usages <==> exists i :: 0 <= i < |matched| && matched[i].name == n {
      var j := ListedAt(listing, crq.name, n);
      if n in usages {
        assert listing[j] in listing;
      }
      if i :| 0 <= i < |matched| && matched[i].name == n {
        var m :| 0 <= m < |listing| && listing[m] == quotas[KeyIn(crq, matched[i].name)];
        assert IsMember(listing[m], crq.name, n);
      }
    }
    forall i | 0 <= i < |matched|
      ensures UsageOf(usages, matched[i].name) == UsedIn(quotas, KeyIn(crq, matched[i].name))
    {
      var j := ListedAt(listing, crq.name, matched[i].name);
      var i' :| 0 <= i' < |matched| && matched[i'].name == listing[j].namespace
             && quotas[KeyIn(crq, matched[i'].name)] == listing[j];
      assert KeyIn(crq, matched[i'].name) == KeyIn(crq, matched[i].name);
    }
  }

  /** The quota a listing shows last for a namespace, if any. */
  lemma ListedAt(listing: seq<ResourceQuota>, name: string, n: string) returns (j: int)
    requires name != ""
    ensures j < |listing| && (n in ListedUsages(listing, name) <==> 0 <= j)
    ensures 0 <= j ==> IsMember(listing[j], name, n) && ListedUsages(listing, name)[n] == listing[j].used
    ensures j < 0 ==> forall i | 0 <= i < |listing| :: !IsMember(listing[i], name, n)
  {
    SnapshotHoldsLastListed(listing, 0, name, n);
    if j' :| LastListed(listing, name, n, j') {
      j := j';
    } else {
      j := -1;
      LastExists(listing, name, n);
    }
  }

  lemma {:induction false} LastExists(listing: seq<ResourceQuota>, name: string, n: string)
    requires forall j :: !LastListed(listing, name, n, j)
    ensures forall i | 0 <= i < |listing| :: !IsMember(listing[i], name, n)
  {
    if listing != [] {
      var last := |listing| - 1;
      assert !LastListed(listing, name, n, last);
      var front := listing[..last];
      forall j ensures !LastListed(front, name, n, j) {
        if LastListed(front, name, n, j) {
          assert forall i | j < i < |listing| :: i < last ==> listing[i] == front[i];
          assert LastListed(listing, name, n, j);
        }
      }
      LastExists(front, name, n);
      assert forall i | 0 <= i < last :: listing[i] == front[i];
    }
  }

  /** A list without duplicates whose items are the entries of a map is that map. */
  lemma {:induction false} ListIsMap(items: seq<NamespaceUsage>, usages: Usages)
    requires UniqueNames(items)
    requires forall n :: n in usages <==> exists i :: 0 <= i < |items| && items[i].name == n
    requires forall i | 0 <= i < |items| :: UsageOf(usages, items[i].name) == items[i].used
    ensures AsMap(items) == usages
  {
    forall n ensures n in AsMap(items) <==> n in usages {
      NamesInMap(items, n);
    }
    forall i | 0 <= i < |items| ensures UsageOf(AsMap(items), items[i].name) == items[i].used {
      ItemInMap(items, i);
    }
  }

  lemma {:induction false} ItemInMap(items: seq<NamespaceUsage>, i: nat)
    requires UniqueNames(items) && i < |items|
    ensures items[i].name in AsMap(items) && AsMap(items)[items[i].name] == items[i].used
  {
    if i > 0 {
      ItemInMap(items[1..], i - 1);
    }
  }
}
