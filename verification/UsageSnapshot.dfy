/** What a listing of quotas says the usage cache should hold. */
module UsageSnapshot {
  import opened ResourceLists
  import opened QuotaObjects

  /** In nanoseconds. */
  const SECOND := 1_000_000_000

  datatype ResourceUsageInfo = ResourceUsageInfo(hard: ResourceList, used: ResourceList, lastUpdate: int) {
    /** Younger than ten seconds at the time `clock`. */
    predicate IsFresh(clock: int) {
      lastUpdate + 10 * SECOND > clock
    }
  }

  /** ClusterResourceQuota name -> namespace -> record. */
  type Snapshot = map<string, map<string, ResourceUsageInfo>>

  function Slots<T>(m: map<string, map<string, T>>, crq: string): map<string, T> {
    if crq in m then m[crq] else map[]
  }

  function InfoOf(rq: ResourceQuota, now: int): ResourceUsageInfo {
    ResourceUsageInfo(rq.hard, rq.used, now)
  }

  /** The listing as a snapshot; a later quota replaces an earlier one in the same slot. */
  function SnapshotOf(quotas: seq<ResourceQuota>, now: int): Snapshot {
    if quotas == [] then map[]
    else
      var before, rq := SnapshotOf(quotas[..|quotas| - 1], now), quotas[|quotas| - 1];
      var crq := MembershipOf(rq.labels);
      if crq == "" then before
      else before[crq := Slots(before, crq)[rq.namespace := InfoOf(rq, now)]]
  }

  ghost predicate IsMember(rq: ResourceQuota, crq: string, ns: string) {
    crq != "" && LABEL_CLUSTER_RESOURCE_QUOTA in rq.labels && rq.labels[LABEL_CLUSTER_RESOURCE_QUOTA] == crq
    && rq.namespace == ns
  }

  /** Quota `i` is the last one listed for the slot. */
  ghost predicate LastListed(quotas: seq<ResourceQuota>, crq: string, ns: string, i: int) {
    0 <= i < |quotas| && IsMember(quotas[i], crq, ns)
    && forall j | i < j < |quotas| :: !IsMember(quotas[j], crq, ns)
  }

  /** A slot exists exactly when some labelled quota is listed for it, and it holds the last of them;
      a ClusterResourceQuota without slots has no entry. */
  lemma {:induction false} SnapshotHoldsLastListed(quotas: seq<ResourceQuota>, now: int, crq: string, ns: string)
    ensures ns in Slots(SnapshotOf(quotas, now), crq) <==> exists i :: LastListed(quotas, crq, ns, i)
    ensures forall i | LastListed(quotas, crq, ns, i) ::
              ns in Slots(SnapshotOf(quotas, now), crq)
              && SnapshotOf(quotas, now)[crq][ns] == ResourceUsageInfo(quotas[i].hard, quotas[i].used, now)
  {
    if quotas != [] {
      var front, rq := quotas[..|quotas| - 1], quotas[|quotas| - 1];
      SnapshotHoldsLastListed(front, now, crq, ns);
      if IsMember(rq, crq, ns) {
        assert LastListed(quotas, crq, ns, |quotas| - 1);
      } else {
        forall i ensures LastListed(quotas, crq, ns, i) <==> LastListed(front, crq, ns, i) {
          if LastListed(front, crq, ns, i) {
            forall j | i < j < |quotas| ensures !IsMember(quotas[j], crq, ns) {
              if j < |front| {
                assert quotas[j] == front[j];
              }
            }
          }
          if LastListed(quotas, crq, ns, i) {
            assert forall j | i < j < |front| :: front[j] == quotas[j];
          }
        }
      }
    }
  }

  lemma {:induction false} SnapshotEntriesAreNotEmpty(quotas: seq<ResourceQuota>, now: int, crq: string)
    requires crq in SnapshotOf(quotas, now)
    ensures SnapshotOf(quotas, now)[crq] != map[]
  {
    if quotas != [] {
      var front, rq := quotas[..|quotas| - 1], quotas[|quotas| - 1];
      if MembershipOf(rq.labels) == crq && crq != "" {
        assert rq.namespace in SnapshotOf(quotas, now)[crq];
      } else {
        SnapshotEntriesAreNotEmpty(front, now, crq);
      }
    }
  }

  // ----- Freshness -----

  ghost predicate IsFreshSlot(snapshot: Snapshot, crq: string, ns: string, clock: string -> string -> int) {
    ns in Slots(snapshot, crq) && snapshot[crq][ns].IsFresh(clock(crq)(ns))
  }

  predicate KeepsUsage(before: Snapshot, after: Snapshot, crq: string, ns: string)
    requires ns in Slots(before, crq)
  {
    ns in Slots(after, crq) && after[crq][ns].used == before[crq][ns].used
  }

  /** The promise: what is fresh is spared. */
  ghost predicate SparesFresh(before: Snapshot, after: Snapshot, clock: string -> string -> int) {
    forall crq, ns | IsFreshSlot(before, crq, ns, clock) :: KeepsUsage(before, after, crq, ns)
  }

  /** Some quota is listed for the slot, and the last one reports this usage. */
  ghost predicate IsListedWith(quotas: seq<ResourceQuota>, crq: string, ns: string, used: ResourceList) {
    exists i :: LastListed(quotas, crq, ns, i) && quotas[i].used == used
  }

  ghost predicate ListsFresh(before: Snapshot, quotas: seq<ResourceQuota>, clock: string -> string -> int) {
    forall crq, ns | IsFreshSlot(before, crq, ns, clock) :: IsListedWith(quotas, crq, ns, before[crq][ns].used)
  }

  lemma SlotKeepsUsageIff(before: Snapshot, quotas: seq<ResourceQuota>, now: int, crq: string, ns: string)
    requires ns in Slots(before, crq)
    ensures KeepsUsage(before, SnapshotOf(quotas, now), crq, ns)
       <==> IsListedWith(quotas, crq, ns, before[crq][ns].used)
  {
    SnapshotHoldsLastListed(quotas, now, crq, ns);
    if KeepsUsage(before, SnapshotOf(quotas, now), crq, ns) {
      var i :| LastListed(quotas, crq, ns, i);
      assert quotas[i].used == before[crq][ns].used;
    }
  }

  /** The listing spares what is fresh exactly when it reports the same itself. */
  lemma SparesFreshIff(before: Snapshot, quotas: seq<ResourceQuota>, now: int, clock: string -> string -> int)
    ensures SparesFresh(before, SnapshotOf(quotas, now), clock) <==> ListsFresh(before, quotas, clock)
  {
    forall crq, ns | IsFreshSlot(before, crq, ns, clock)
      ensures KeepsUsage(before, SnapshotOf(quotas, now), crq, ns)
         <==> IsListedWith(quotas, crq, ns, before[crq][ns].used)
    {
      SlotKeepsUsageIff(before, quotas, now, crq, ns);
    }
  }

  /** A quota in the slot that reports another usage. */
  function Contradicting(crq: string, ns: string, used: ResourceList): ResourceQuota {
    ResourceQuota(ns, crq, map[LABEL_CLUSTER_RESOURCE_QUOTA := crq], QuotaSpec(map[], []), map[],
                  used["cpu" := Get(used, "cpu") + 1])
  }

  lemma ContradictingLoses(before: Snapshot, crq: string, ns: string, now: int)
    requires ns in Slots(before, crq)
    ensures var listing := [Contradicting(crq, ns, before[crq][ns].used)];
            !KeepsUsage(before, SnapshotOf(listing, now), crq, ns)
  {
    var used := before[crq][ns].used;
    var listing := [Contradicting(crq, ns, used)];
    assert Get(listing[0].used, "cpu") != Get(used, "cpu");
    SlotKeepsUsageIff(before, listing, now, crq, ns);
  }
}
