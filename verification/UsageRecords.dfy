/** One entry of the admission's cache: the usage records of the namespaces of one ClusterResourceQuota.
    Records are shared by reference, so the merge is proved on the heap: which object sits in which
    slot is part of the result, as well as what the object holds. */
module UsageRecords {
  import opened MapMerge
  import opened UsageSnapshot

  /** The place a pointer to a ResourceUsageInfo points to; assigning through the pointer replaces `info`. */
  class UsageRecord {
    var info: ResourceUsageInfo
    /** The slot the record was made for; records never move to another one. */
    ghost const crq: string
    ghost const ns: string

    constructor (ghost crq: string, ghost ns: string, info: ResourceUsageInfo)
      ensures this.info == info && this.crq == crq && this.ns == ns
    {
      this.info, this.crq, this.ns := info, crq, ns;
    }
  }

  type Records = map<string, UsageRecord>

  type Infos = map<string, ResourceUsageInfo>

  /** The records, all of them in `repr`, hold the usages `infos`. Each sits in the slot it was made for, so no two
      slots share a record. */
  ghost predicate Hold(records: Records, infos: Infos, repr: set<UsageRecord>)
    reads repr
  {
    && records.Keys == infos.Keys
    && forall n | n in records :: records[n] in repr && records[n].ns == n && records[n].info == infos[n]
  }

  /** Records for slots of `crq`; their `repr` has only records made for it. */
  ghost predicate Group(records: Records, crq: string, infos: Infos, repr: set<UsageRecord>)
    reads repr
  {
    Hold(records, infos, repr) && forall r | r in repr :: r.crq == crq
  }

  lemma GroupWith(records: Records, crq: string, infos: Infos, repr: set<UsageRecord>, n: string, record: UsageRecord)
    requires Group(records, crq, infos, repr) && record.crq == crq && record.ns == n
    ensures Group(records[n := record], crq, infos[n := record.info], repr + {record})
  {
  }

  /** The slots whose usage is not fresh when the clock looks at them. */
  ghost function Stale(infos: Infos, clock: string -> int): set<string> {
    set n | n in infos && !infos[n].IsFresh(clock(n))
  }

  class ClusterResourceQuotaCache {
    var quotas: Records
    /** The ClusterResourceQuota the entry was made for. */
    ghost const crq: string
    /** What the entry's slots hold. */
    ghost var infos: Infos
    /** The records the entry's slots have ever held. */
    ghost var repr: set<UsageRecord>

    constructor (ghost crq: string)
      ensures Valid() && quotas == map[] && infos == map[] && repr == {} && this.crq == crq
    {
      quotas, infos, repr := map[], map[], {};
      this.crq := crq;
    }

    ghost predicate Valid()
      reads this, repr
    {
      Group(quotas, crq, infos, repr)
    }

    /** Adds the given slots, replacing those in the same namespaces. */
    method CopyIn(updated: Records, ghost target: Infos, ghost spare: set<UsageRecord>)
      requires Valid() && Group(updated, crq, target, spare)
      modifies this
      ensures Valid()
      ensures quotas == old(quotas) + updated
      ensures infos == old(infos) + target
      ensures repr == old(repr) + spare
    {
      quotas, infos, repr := quotas + updated, infos + target, repr + spare;
    }

    /** Commits one namespace's usage: a new record in its slot, every other slot as it was. */
    method Put(ns: string, info: ResourceUsageInfo)
      requires Valid()
      modifies this
      ensures Valid()
      ensures infos == old(infos)[ns := info]
      ensures ns in quotas && fresh(quotas[ns]) && quotas == old(quotas)[ns := quotas[ns]]
    {
      var record := new UsageRecord(crq, ns, info);
      quotas, infos, repr := quotas[ns := record], infos[ns := info], repr + {record};
    }

    /** One slot of the entry: dropped when nothing is listed for it, skipped while its record is fresh,
        otherwise overwritten in place and taken out of the update. */
    method MergeSlot(n: string, updated: Records, clock: int) returns (remaining: Records)
      requires n in quotas
      requires n in updated ==> updated[n] != quotas[n]
      modifies this`quotas, quotas[n]
      ensures quotas == if n in updated then old(quotas) else old(quotas) - {n}
      ensures remaining == if old(quotas[n].info.IsFresh(clock)) then updated else updated - {n}
      ensures old(quotas[n]).info
           == old(if n in updated && !quotas[n].info.IsFresh(clock) then updated[n].info else quotas[n].info)
    {
      remaining := updated;
      if n !in updated {
        quotas := quotas - {n};
      } else if quotas[n].info.IsFresh(clock) {
        // Left alone here, yet still among the slots copied in later.
      } else {
        quotas[n].info := updated[n].info;
        remaining := updated - {n};
      }
    }

    /** The merge of one surviving entry. Whatever the clock says about each record, the entry ends up with
        exactly the updated slots and what they hold; being fresh, for ten seconds, only decides whether a record's
        object is overwritten in place or replaced. */
    method Merge(updated: Records, clock: string -> int, ghost target: Infos, ghost spare: set<UsageRecord>)
      requires Valid() && Group(updated, crq, target, spare) && spare !! repr
      modifies this, repr
      ensures Valid()
      ensures infos == target && repr == old(repr) + spare
      ensures forall n | n in updated ::
                quotas[n] == if n in old(infos) && clock(n) - old(infos)[n].lastUpdate >= 10_000_000_000
                             then old(quotas[n]) else updated[n]
    {
      var remaining := MergeSlots(updated, clock, target, spare);
      quotas, infos, repr := quotas + remaining, target, repr + spare;
    }

    /** The merge loop once the `visited` ones of the `existing` slots were merged: the others hold what they held,
        those overwritten hold their target, and `remaining` are the updated slots not used so far. */
    ghost predicate Merging(existing: Records, visited: set<string>, updated: Records, remaining: Records,
                            target: Infos, stale: set<string>)
      reads this, repr
    {
      && remaining.Keys == Remaining(updated.Keys, visited, stale)
      && quotas.Keys == Kept(existing.Keys, visited, updated.Keys)
      && (forall n | n in remaining :: remaining[n] == updated[n])
      && (forall n | n in quotas :: quotas[n] == existing[n])
      && forall n | n in existing ::
           && existing[n] in repr && existing[n].ns == n
           && (n !in visited ==> n in infos && existing[n].info == infos[n])
           && (n in visited && n in stale && n in updated ==> n in target && existing[n].info == target[n])
    }

    /** One turn of the merge loop. */
    method MergeNext(ghost existing: Records, ghost visited: set<string>, n: string, ghost updated: Records,
                     group: Records, clock: string -> int, ghost target: Infos, ghost spare: set<UsageRecord>)
      returns (remaining: Records)
      requires Merging(existing, visited, updated, group, target, Stale(infos, clock))
      requires Hold(updated, target, spare) && spare !! repr
      requires n in existing && n !in visited
      modifies this`quotas, repr
      ensures Merging(existing, visited + {n}, updated, remaining, target, Stale(infos, clock))
    {
      ghost var stale := Stale(infos, clock);
      assert (n in group <==> n in updated) && n in quotas && (n in stale <==> !quotas[n].info.IsFresh(clock(n)));
      remaining := MergeSlot(n, group, clock(n));
      assert remaining.Keys == Remaining(updated.Keys, visited + {n}, stale)
          && quotas.Keys == Kept(existing.Keys, visited + {n}, updated.Keys) by {
        MergeStep(existing.Keys, updated.Keys, visited, stale, n);
      }
    }

    /** The merge loop over the slots of an entry; `remaining` are the updated slots not used in it. */
    method MergeSlots(updated: Records, clock: string -> int, ghost target: Infos, ghost spare: set<UsageRecord>)
      returns (remaining: Records)
      requires Hold(quotas, infos, repr) && Hold(updated, target, spare) && spare !! repr
      modifies this`quotas, repr
      ensures quotas.Keys == old(quotas).Keys * updated.Keys
      ensures remaining.Keys == updated.Keys - Stale(infos, clock)
      ensures forall n | n in quotas :: quotas[n] == old(quotas[n])
      ensures forall n | n in remaining :: remaining[n] == updated[n]
      ensures forall n | n in quotas && n !in remaining :: quotas[n].info == target[n]
    {
      ghost var existing, stale := quotas, Stale(infos, clock);
      ghost var visited: set<string> := {};
      remaining := updated;
      var todo := quotas.Keys;
      while todo != {}
        invariant visited !! todo && visited + todo == existing.Keys
        invariant Merging(existing, visited, updated, remaining, target, stale)
        decreases todo
      {
        var n :| n in todo;
        remaining := MergeNext(existing, visited, n, updated, remaining, clock, target, spare);
        todo, visited := todo - {n}, visited + {n};
      }
      assert visited == existing.Keys;
      MergeCompletes(existing.Keys, updated.Keys, stale);
    }
  }
}
