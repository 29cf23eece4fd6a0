/** The admission's cache: one entry per ClusterResourceQuota, rebuilt from listings by `Sync`. */
module QuotaCache {
  import opened MapMerge
  import opened QuotaObjects
  import opened UsageSnapshot
  import opened UsageRecords

  type Entries = map<string, ClusterResourceQuotaCache>

  /** Every entry sits under the name it was made for and holds only its own records, all of them in `owned`;
      so no two names share an entry and no two slots share a record. */
  ghost predicate AllValid(entries: Entries, owned: set<UsageRecord>)
    reads entries.Values, owned
  {
    forall c | c in entries :: IsEntryOf(entries[c], c, owned)
  }

  ghost predicate IsEntryOf(entry: ClusterResourceQuotaCache, c: string, owned: set<UsageRecord>)
    reads entry, owned
  {
    entry.crq == c && entry.repr <= owned && entry.Valid()
  }

  /** Each group holds its target in records of its own `spare` set, apart from the `owned` ones. */
  ghost predicate Grouped(grouped: map<string, Records>, target: Snapshot, spare: map<string, set<UsageRecord>>,
                          owned: set<UsageRecord>)
    requires grouped.Keys <= target.Keys && grouped.Keys <= spare.Keys
    reads set c, r | c in spare && r in spare[c] :: r
  {
    forall c | c in grouped :: Group(grouped[c], c, target[c], spare[c]) && spare[c] !! owned
  }

  /** Taking one more group out of those already taken. */
  lemma TakenOut(grouped: map<string, Records>, visited: set<string>, c: string)
    ensures grouped - visited - {c} == grouped - (visited + {c})
  {
  }

  class ResourceQuotaCache {
    var quotacache: Entries
    /** The records the cache has ever held. */
    ghost var owned: set<UsageRecord>

    constructor ()
      ensures Valid() && quotacache == map[]
    {
      quotacache, owned := map[], {};
    }

    ghost predicate Valid()
      reads this, quotacache.Values, owned
    {
      AllValid(quotacache, owned)
    }

    /** The cache holds exactly the slots of `snapshot`, with what it says they hold. */
    ghost predicate Holds(snapshot: Snapshot)
      reads this, quotacache.Values
    {
      quotacache.Keys == snapshot.Keys && forall c | c in quotacache :: quotacache[c].infos == snapshot[c]
    }

    /** What the cache holds; in a valid one, what its records hold. */
    ghost function View(): Snapshot
      reads this, quotacache.Values
    {
      map c | c in quotacache :: quotacache[c].infos
    }

    /** Merging an existing entry takes its group out and leaves every other entry alone. */
    method MergeEntry(existing: Entries, c: string, grouped: map<string, Records>, clock: string -> int,
                      ghost target: Snapshot, ghost spare: map<string, set<UsageRecord>>)
      returns (rest: map<string, Records>)
      requires AllValid(existing, owned) && c in existing && c in grouped
      requires grouped.Keys <= target.Keys && grouped.Keys <= spare.Keys && Grouped(grouped, target, spare, owned)
      modifies this`owned, existing[c], existing[c].repr
      ensures owned == old(owned) + spare[c] && AllValid(existing, owned)
      ensures rest == grouped - {c} && Grouped(rest, target, spare, owned)
      ensures existing[c].infos == target[c]
    {
      existing[c].Merge(grouped[c], clock, target[c], spare[c]);
      forall d | d in existing && d != c ensures IsEntryOf(existing[d], d, owned) {
        assert existing[d] != existing[c] && old(IsEntryOf(existing[d], d, owned));
      }
      rest := grouped - {c};
      forall d | d in rest ensures Group(rest[d], d, target[d], spare[d]) && spare[d] !! owned + spare[c] {
        assert old(Group(grouped[d], d, target[d], spare[d]) && Group(grouped[c], c, target[c], spare[c]));
        assert forall r | r in spare[d] :: r.crq == d;
        assert forall r | r in spare[c] :: r.crq == c;
      }
      owned := owned + spare[c];
    }

    /** One existing entry: dropped when nothing is listed for it, otherwise merged. */
    method VisitEntry(existing: Entries, c: string, grouped: map<string, Records>, clock: string -> int,
                      ghost target: Snapshot, ghost spare: map<string, set<UsageRecord>>)
      returns (rest: map<string, Records>)
      requires AllValid(existing, owned) && c in existing
      requires grouped.Keys <= target.Keys && grouped.Keys <= spare.Keys && Grouped(grouped, target, spare, owned)
      modifies this, existing[c], existing[c].repr
      ensures AllValid(existing, owned)
      ensures rest == grouped - {c} && Grouped(rest, target, spare, owned)
      ensures quotacache == if c in grouped then old(quotacache) else old(quotacache) - {c}
      ensures c in grouped ==> existing[c].infos == target[c]
      ensures forall d | d in existing && d != c ::
                existing[d].infos == old(existing[d].infos) && existing[d].repr == old(existing[d].repr)
    {
      if c in grouped {
        rest := MergeEntry(existing, c, grouped, clock, target, spare);
      } else {
        quotacache := quotacache - {c};
        rest := grouped;
      }
    }

    /** The loop over the existing entries once the `visited` ones were merged: those without a group are dropped, the
        others are the same objects holding their group's usages, and `rest` are the groups not taken out so far. */
    ghost predicate Merging(existing: Entries, visited: set<string>, grouped: map<string, Records>,
                            rest: map<string, Records>, target: Snapshot, spare: map<string, set<UsageRecord>>)
      requires grouped.Keys <= target.Keys && grouped.Keys <= spare.Keys
      reads this, existing.Values, owned, set c, r | c in spare && r in spare[c] :: r
    {
      && quotacache.Keys == Kept(existing.Keys, visited, grouped.Keys)
      && rest == grouped - visited
      && (forall c | c in quotacache :: quotacache[c] == existing[c])
      && AllValid(existing, owned) && Grouped(rest, target, spare, owned)
      && forall c | c in visited && c in grouped && c in existing :: existing[c].infos == target[c]
    }

    /** One turn of the loop. */
    method MergeNext(existing: Entries, ghost visited: set<string>, c: string, ghost grouped: map<string, Records>,
                     groups: map<string, Records>, clock: string -> int,
                     ghost target: Snapshot, ghost spare: map<string, set<UsageRecord>>)
      returns (rest: map<string, Records>)
      requires grouped.Keys <= target.Keys && grouped.Keys <= spare.Keys
      requires c in existing && c !in visited && Merging(existing, visited, grouped, groups, target, spare)
      modifies this, existing[c], existing[c].repr
      ensures Merging(existing, visited + {c}, grouped, rest, target, spare)
      ensures forall d | d in existing && d != c :: existing[d].repr == old(existing[d].repr)
    {
      assert (c in groups <==> c in grouped) && c in quotacache;
      rest := VisitEntry(existing, c, groups, clock, target, spare);
      assert quotacache.Keys == Kept(existing.Keys, visited + {c}, grouped.Keys) by {
        MergeStep(existing.Keys, grouped.Keys, visited, existing.Keys, c);
      }
      assert rest == grouped - (visited + {c}) by { TakenOut(grouped, visited, c); }
    }

    /** The loop over the existing entries. */
    method MergeExisting(grouped: map<string, Records>, clock: string -> string -> int,
                         ghost target: Snapshot, ghost spare: map<string, set<UsageRecord>>)
      returns (rest: map<string, Records>)
      requires Valid()
      requires grouped.Keys <= target.Keys && grouped.Keys <= spare.Keys && Grouped(grouped, target, spare, owned)
      modifies this, quotacache.Values, owned
      ensures Valid()
      ensures quotacache.Keys == old(quotacache).Keys * grouped.Keys
      ensures rest == grouped - old(quotacache).Keys && Grouped(rest, target, spare, owned)
      ensures forall c | c in quotacache :: quotacache[c] == old(quotacache[c]) && quotacache[c].infos == target[c]
    {
      ghost var visited: set<string> := {};
      rest := grouped;
      var existing, todo := quotacache, quotacache.Keys;
      while todo != {}
        invariant visited !! todo && visited + todo == existing.Keys
        invariant Merging(existing, visited, grouped, rest, target, spare)
        invariant forall c | c in todo :: existing[c].repr == old(existing[c].repr)
        decreases todo
      {
        var c :| c in todo;
        rest := MergeNext(existing, visited, c, grouped, rest, clock(c), target, spare);
        todo, visited := todo - {c}, visited + {c};
      }
      assert visited == existing.Keys;
      MergeCompletes(existing.Keys, grouped.Keys, existing.Keys);
    }

    /** One labelled quota: a new record in the slot it is listed for. */
    static method AddListed(grouped: map<string, Records>, ghost spare: map<string, set<UsageRecord>>,
                            ghost before: Snapshot, crq: string, ns: string, usage: ResourceUsageInfo,
                            ghost taken: set<UsageRecord>)
      returns (grouped': map<string, Records>, ghost spare': map<string, set<UsageRecord>>)
      requires grouped.Keys == spare.Keys == before.Keys && Grouped(grouped, before, spare, taken)
      ensures grouped'.Keys == spare'.Keys == before.Keys + {crq}
      ensures Grouped(grouped', before[crq := Slots(before, crq)[ns := usage]], spare', taken)
      ensures forall c | c in spare' :: fresh(spare'[c] - if c in spare then spare[c] else {})
    {
      var group := Slots(grouped, crq);
      ghost var records := if crq in spare then spare[crq] else {};
      var info := new UsageRecord(crq, ns, usage);
      GroupWith(group, crq, Slots(before, crq), records, ns, info);
      grouped' := grouped[crq := group[ns := info]];
      spare' := spare[crq := records + {info}];
    }

    /** The grouping loop: a new record for every labelled quota, the last one listed for a slot winning. */
    static method GroupByLabel(quotas: seq<ResourceQuota>, now: int, ghost taken: set<UsageRecord>)
      returns (grouped: map<string, Records>, ghost spare: map<string, set<UsageRecord>>)
      ensures grouped.Keys == spare.Keys == SnapshotOf(quotas, now).Keys
      ensures Grouped(grouped, SnapshotOf(quotas, now), spare, taken)
      ensures forall c | c in spare :: fresh(spare[c])
    {
      grouped, spare := map[], map[];
      for i := 0 to |quotas|
        invariant grouped.Keys == spare.Keys == SnapshotOf(quotas[..i], now).Keys
        invariant Grouped(grouped, SnapshotOf(quotas[..i], now), spare, taken)
        invariant forall c | c in spare :: fresh(spare[c])
      {
        var rq := quotas[i];
        assert quotas[..i + 1][..i] == quotas[..i];
        var crq := MembershipOf(rq.labels);
        if crq == "" {
          continue;
        }
        ghost var before := SnapshotOf(quotas[..i], now);
        grouped, spare := AddListed(grouped, spare, before, crq, rq.namespace, InfoOf(rq, now), taken);
      }
      assert quotas[..|quotas|] == quotas;
    }

    /** A new entry for `c` holding the records of its group. */
    method AddEntry(c: string, group: Records, ghost target: Infos, ghost spare: set<UsageRecord>)
      requires Valid() && Group(group, c, target, spare)
      modifies this
      ensures Valid() && owned == old(owned) + spare
      ensures c in quotacache && quotacache == old(quotacache)[c := quotacache[c]]
      ensures fresh(quotacache[c]) && quotacache[c].infos == target
    {
      var crqcache := new ClusterResourceQuotaCache(c);
      crqcache.CopyIn(group, target, spare);
      quotacache := quotacache[c := crqcache];
      owned := owned + spare;
      forall d | d in quotacache && d != c
        ensures IsEntryOf(quotacache[d], d, owned)
      {
        assert quotacache[d] == old(quotacache[d]) && old(IsEntryOf(quotacache[d], d, owned));
      }
    }

    /** The loop over the groups without an entry: each gets a new entry holding the group's records. */
    method AddNew(grouped: map<string, Records>, ghost target: Snapshot, ghost spare: map<string, set<UsageRecord>>)
      requires Valid()
      requires grouped.Keys <= target.Keys && grouped.Keys <= spare.Keys && Grouped(grouped, target, spare, owned)
      requires grouped.Keys !! quotacache.Keys
      modifies this
      ensures Valid()
      ensures quotacache.Keys == old(quotacache).Keys + grouped.Keys
      ensures forall c | c in old(quotacache) ::
                quotacache[c] == old(quotacache[c]) && quotacache[c].infos == old(quotacache[c].infos)
      ensures forall c | c in grouped :: fresh(quotacache[c]) && quotacache[c].infos == target[c]
    {
      ghost var added: set<string> := {};
      var todo := grouped.Keys;
      while todo != {}
        invariant added !! todo && added + todo == grouped.Keys
        invariant Valid()
        invariant quotacache.Keys == old(quotacache).Keys + added
        invariant forall c | c in old(quotacache) :: quotacache[c] == old(quotacache[c])
        invariant forall c | c in added :: fresh(quotacache[c]) && quotacache[c].infos == target[c]
        decreases todo
      {
        var c :| c in todo;
        AddEntry(c, grouped[c], target[c], spare[c]);
        todo, added := todo - {c}, added + {c};
      }
    }

    /** Merges the groups with entries and adds entries for the others. */
    method Rebuild(grouped: map<string, Records>, clock: string -> string -> int,
                   ghost target: Snapshot, ghost spare: map<string, set<UsageRecord>>)
      requires Valid()
      requires grouped.Keys == target.Keys == spare.Keys && Grouped(grouped, target, spare, owned)
      modifies this, quotacache.Values, owned
      ensures Valid() && Holds(target)
      ensures forall c | c in quotacache ::
                if c in old(quotacache) then quotacache[c] == old(quotacache[c]) else fresh(quotacache[c])
    {
      var rest := MergeExisting(grouped, clock, target, spare);
      AddNew(rest, target, spare);
    }

    /** Rebuilds the cache from a listing taken at time `now`; `clock(c)(n)` is the time at which the
        freshness of slot `n` of `c` is looked at. Whatever the clock says, the cache then holds exactly
        the listing's snapshot. An entry something is still listed for stays the same object. So, against the
        promise, a fresh usage is spared exactly when the last quota listed for its slot reports it as well. */
    method Sync(quotas: seq<ResourceQuota>, now: int, clock: string -> string -> int)
      requires Valid()
      modifies this, quotacache.Values, owned
      ensures Valid()
      ensures Holds(SnapshotOf(quotas, now))
      ensures forall c | c in quotacache ::
                if c in old(quotacache) then quotacache[c] == old(quotacache[c]) else fresh(quotacache[c])
      ensures forall c, n | IsFreshSlot(old(View()), c, n, clock) ::
                KeepsUsage(old(View()), View(), c, n) <==> IsListedWith(quotas, c, n, old(View())[c][n].used)
      ensures SparesFresh(old(View()), View(), clock) <==> ListsFresh(old(View()), quotas, clock)
    {
      ghost var before := View();
      var grouped, spare := GroupByLabel(quotas, now, owned);
      Rebuild(grouped, clock, SnapshotOf(quotas, now), spare);
      assert View() == SnapshotOf(quotas, now);
      forall c, n | IsFreshSlot(before, c, n, clock)
        ensures KeepsUsage(before, View(), c, n) <==> IsListedWith(quotas, c, n, before[c][n].used)
      {
        SlotKeepsUsageIff(before, quotas, now, c, n);
      }
      SparesFreshIff(before, quotas, now, clock);
    }

    /** Every fresh usage in a cache is lost by the rebuild from some listing: one with a quota in its slot that
        reports another. */
    method LoseFreshUsage(c: string, n: string, now: int, clock: string -> string -> int)
      returns (listing: seq<ResourceQuota>)
      requires Valid() && IsFreshSlot(View(), c, n, clock)
      modifies this, quotacache.Values, owned
      ensures Valid() && Holds(SnapshotOf(listing, now))
      ensures !KeepsUsage(old(View()), View(), c, n)
    {
      ghost var before := View();
      listing := [Contradicting(c, n, quotacache[c].quotas[n].info.used)];
      Sync(listing, now, clock);
      ContradictingLoses(before, c, n, now);
      SlotKeepsUsageIff(before, listing, now, c, n);
    }

    /** The entry for `name`, created empty when there is none. Nothing else changes. */
    method GetOrCreate(name: string) returns (val: ClusterResourceQuotaCache)
      requires Valid()
      modifies this`quotacache
      ensures Valid()
      ensures quotacache == old(quotacache)[name := val]
      ensures if name in old(quotacache) then val == old(quotacache[name]) else fresh(val) && val.infos == map[]
    {
      if name in quotacache {
        val := quotacache[name];
      } else {
        val := new ClusterResourceQuotaCache(name);
        quotacache := quotacache[name := val];
      }
    }
  }

  /** In a valid cache distinct slots hold distinct records and distinct names distinct entries, so overwriting
      a record in place changes exactly one slot. */
  lemma SlotsShareNothing(cache: ResourceQuotaCache, c: string, n: string, d: string, m: string)
    requires cache.Valid()
    requires c in cache.quotacache && n in cache.quotacache[c].quotas
    requires d in cache.quotacache && m in cache.quotacache[d].quotas
    ensures cache.quotacache[c].quotas[n] == cache.quotacache[d].quotas[m] <==> c == d && n == m
    ensures cache.quotacache[c] == cache.quotacache[d] <==> c == d
  {
  }
}
