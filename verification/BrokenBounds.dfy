/** Why the whole-run bound needs its last two assumptions: runs that exceed a limit although all the others hold. In
    one, usage that an update frees is given away before that update is stored; in the other, a rebuild of the cache
    makes it forget an update that is not stored yet. */
module BrokenBounds {
  import opened Options
  import opened ResourceLists
  import opened UsageTotals
  import opened QuotaObjects
  import opened UsageSnapshot
  import opened StatusAdmission
  import opened AdmissionProtocol
  import opened PendingUpdates
  import opened WholeRunBound
  import opened SoloCalls
  import opened RebuildRaces

  // ----- Admissions in disciplined runs -----

  /** The lock is free, the cache holds `usages`, and the current limits are `hard`, none of them negative. */
  ghost predicate Stands(s: State, usages: Usages, hard: ResourceList) {
    Ready(s) && s.entries[s.current.value] == usages && Limits(s.log) == hard && NonNegative(hard)
  }

  ghost predicate SumsWithin(usages: Usages, hard: ResourceList) {
    forall k | k in hard :: SumAt(usages, k) <= hard[k]
  }

  lemma AllowedWhenSumsWithin(s: State, req: Request, usages: Usages, hard: ResourceList)
    requires Stands(s, usages, hard) && SumsWithin(usages[req.ns := req.used], hard)
    ensures Allows(s, req)
  {
    var total := IncrementalTotal(usages, req.ns, req.used);
    forall k | k in hard && k in total ensures total[k] <= hard[k] {
      IncrementalAt(usages, req.ns, req.used, k);
    }
  }

  lemma AdmittedStands(s: State, id: nat, req: Request, total: ResourceList, usages: Usages, hard: ResourceList)
    requires Stands(s, usages, hard)
    ensures var s' := Admitted(s, id, req, 1, total);
            && Stands(s', usages[req.ns := req.used], hard)
            && s'.calls == s.calls[id := Call(req, 1, Done(Allowed, Some(|s.log|)))] && s'.pending == s.pending + {id}
            && |s'.log| == |s.log| + 1 && s'.entries.Keys == s.entries.Keys && s'.persisted == s.persisted
            && s'.name == s.name
  {
  }

  /** No update for the namespace is still to be stored, and, unless that is what is given up, none that is frees
      anything. */
  ghost predicate MayCommit(d: Discipline, s: State, ns: string, usages: Usages) {
    forall other | other in s.pending && other in s.calls ::
      && s.calls[other].req.ns != ns
      && (d.LateRebuilds? ==>
            Below(UsageOf(s.persisted, s.calls[other].req.ns), UsageOf(usages, s.calls[other].req.ns)))
  }

  lemma CommitPermitted(d: Discipline, s: State, id: nat, req: Request, total: ResourceList, usages: Usages)
    requires d.LateShrinks? || d.LateRebuilds?
    requires Ready(s) && s.entries[s.current.value] == usages && MayCommit(d, s, req.ns, usages) && id !in s.pending
    ensures Permits(d, AfterWrite(s, id, req, 1, s.current.value, total), CommitUsage(id))
  {
  }

  /** One more admission, when it leaves the cache within the limits. */
  lemma OneAdmission(d: Discipline, start: State, run: seq<Action>, s: State, id: nat, req: Request, made: nat,
                     v: nat, usages: Usages, hard: ResourceList) returns (s': State)
    requires d.LateShrinks? || d.LateRebuilds?
    requires Reaches(d, start, run, s) && v == |s.log| - 1
    requires Stands(s, usages, hard) && SumsWithin(usages[req.ns := req.used], hard)
    requires id !in s.calls && id !in s.pending && made !in s.entries && !req.bypass && NonNegative(req.used)
    requires MayCommit(d, s, req.ns, usages)
    ensures Reaches(d, start, Solo(run, id, req, made, v), s')
    ensures Stands(s', usages[req.ns := req.used], hard)
    ensures s'.calls == s.calls[id := Call(req, 1, Done(Allowed, Some(|s.log|)))] && s'.pending == s.pending + {id}
    ensures |s'.log| == |s.log| + 1 && made !in s'.entries && s'.persisted == s.persisted && s'.name == s.name
  {
    var total := SoloTotal(s, req);
    AllowedWhenSumsWithin(s, req, usages, hard);
    CommitPermitted(d, s, id, req, total, usages);
    SoloCallIsAdmitted(d, start, run, s, id, req, made);
    AdmittedStands(s, id, req, total, usages, hard);
    s' := Admitted(s, id, req, 1, total);
  }

  lemma StartStands(start: State, n: string)
    requires BoundedStart(start) && n in start.persisted
    ensures Stands(start, start.persisted, Limits(start.log))
  {
    StartIsBound(start);
  }

  // ----- Giving freed usage away too early -----

  /** Namespace `b` takes over all that `a` uses of resource `k`. */
  function TakingOver(usages: Usages, a: string, b: string, k: string): ResourceList {
    UsageOf(usages, b)[k := Get(UsageOf(usages, b), k) + Get(UsageOf(usages, a), k)]
  }

  lemma FreeAndTakeSums(usages: Usages, a: string, b: string, k: string, k': string)
    requires a != b && a in usages && NonNegative(usages[a])
    ensures SumAt(usages[a := map[]], k') <= SumAt(usages, k')
    ensures SumAt(usages[a := map[]][b := TakingOver(usages, a, b, k)], k') <= SumAt(usages, k')
    ensures SumAt(usages[b := TakingOver(usages, a, b, k)], k) == SumAt(usages, k) + Get(usages[a], k)
  {
    var taken := TakingOver(usages, a, b, k);
    SumAtUpdate(usages, a, map[], k');
    SumAtUpdate(usages[a := map[]], b, taken, k');
    SumAtUpdate(usages, b, taken, k);
    assert UsageOf(usages[a := map[]], b) == UsageOf(usages, b);
  }

  /** A run with two admissions: `a` frees everything, `b` takes it over, and b's update is stored first. */
  function FreeAndTake(usages: Usages, a: string, b: string, k: string, made: nat, v: nat): seq<Action> {
    Solo(Solo([], 1, Request(a, map[], false), made, v),
         2, Request(b, TakingOver(usages, a, b, k), false), made, v + 1) + [Persist(2)]
  }

  lemma FreeThenTake(start: State, a: string, b: string, k: string, made: nat, take: Request) returns (end: State)
    requires BoundedStart(start) && made !in start.entries
    requires a != b && a in start.persisted && b in start.persisted && k in Limits(start.log)
    requires take == Request(b, TakingOver(start.persisted, a, b, k), false)
    ensures var run := Solo([], 1, Request(a, map[], false), made, |start.log| - 1);
            Reaches(LateShrinks, start, Solo(run, 2, take, made, |start.log|), end)
    ensures 2 in end.pending && 2 in end.calls && end.calls[2].phase.Done? && end.calls[2].req == take
    ensures end.persisted == start.persisted && Limits(end.log) == Limits(start.log)
  {
    StartStands(start, a);
    var usages, hard := start.persisted, Limits(start.log);
    var free := Request(a, map[], false);
    forall k' | k' in hard
      ensures SumAt(usages[a := map[]], k') <= hard[k'] && SumAt(usages[a := map[]][b := take.used], k') <= hard[k']
    {
      FreeAndTakeSums(usages, a, b, k, k');
    }
    end := OneAdmission(LateShrinks, start, [], start, 1, free, made, |start.log| - 1, usages, hard);
    end := OneAdmission(LateShrinks, start, Solo([], 1, free, made, |start.log| - 1), end, 2, take, made,
                        |start.log|, usages[a := map[]], hard);
  }

  /** Without the assumption that freed usage is stored before it is given away again, the bound fails from every
      start at which what one of two namespaces uses of a limited resource is more than what is left of it. */
  lemma LateStoreBreaksBound(start: State, a: string, b: string, k: string, made: nat)
    requires BoundedStart(start) && made !in start.entries
    requires a != b && a in start.persisted && b in start.persisted && k in Limits(start.log)
    requires Get(start.persisted[a], k) > Limits(start.log)[k] - SumAt(start.persisted, k)
    ensures var run := FreeAndTake(start.persisted, a, b, k, made, |start.log| - 1);
            && IsRun(LateShrinks, start, run)
            && var end := After(LateShrinks, start, run);
            && Limits(end.log) == Limits(start.log)
            && SumAt(end.persisted, k) > Limits(start.log)[k]
  {
    var usages, v := start.persisted, |start.log| - 1;
    var take := Request(b, TakingOver(usages, a, b, k), false);
    var end := FreeThenTake(start, a, b, k, made, take);
    var run := Solo(Solo([], 1, Request(a, map[], false), made, v), 2, take, made, v + 1);
    Extend(LateShrinks, start, run, end, Persist(2));
    FreeAndTakeSums(usages, a, b, k, k);
  }

  // ----- Rebuilding too early -----

  function Listing(name: string, n: string, used: ResourceList): ResourceQuota {
    ResourceQuota(n, name, map[LABEL_CLUSTER_RESOURCE_QUOTA := name], QuotaSpec(map[], []), map[], used)
  }

  lemma OneMoreListed(rest: seq<ResourceQuota>, name: string, n: string, used: ResourceList)
    requires name != ""
    ensures var before, after := SnapshotOf(rest, 0), SnapshotOf(rest + [Listing(name, n, used)], 0);
            && name in after && UsedOf(Slots(after, name)) == UsedOf(Slots(before, name))[n := used]
  {
    assert (rest + [Listing(name, n, used)])[..|rest|] == rest;
  }

  /** A listing that shows the usages. */
  lemma {:induction false} SomeListing(usages: Usages, name: string) returns (listing: seq<ResourceQuota>)
    requires name != ""
    ensures UsedOf(Slots(SnapshotOf(listing, 0), name)) == usages
    ensures name in SnapshotOf(listing, 0) <==> usages != map[]
    decreases |usages|
  {
    if usages == map[] {
      listing := [];
    } else {
      var n :| n in usages;
      var rest := SomeListing(usages - {n}, name);
      listing := rest + [Listing(name, n, usages[n])];
      OneMoreListed(rest, name, n, usages[n]);
      assert (usages - {n})[n := usages[n]] == usages;
    }
  }

  /** Namespace `n` uses `room` more of resource `k`. */
  function Growing(usages: Usages, n: string, k: string, room: int): Request {
    Request(n, UsageOf(usages, n)[k := Get(UsageOf(usages, n), k) + room], false)
  }

  lemma GrowthSums(usages: Usages, n: string, k: string, room: int, k': string)
    ensures SumAt(usages[n := Growing(usages, n, k, room).used], k') == SumAt(usages, k') + if k' == k then room else 0
  {
    SumAtUpdate(usages, n, Growing(usages, n, k, room).used, k');
  }

  /** What is left of resource `k` by what is stored. */
  ghost function Room(s: State, k: string): int
    requires k in Limits(s.log)
  {
    Limits(s.log)[k] - SumAt(s.persisted, k)
  }

  lemma GrowthWithin(start: State, n: string, k: string)
    requires BoundedStart(start) && n in start.persisted && k in Limits(start.log) && Room(start, k) > 0
    ensures var grown := Growing(start.persisted, n, k, Room(start, k));
            NonNegative(grown.used) && SumsWithin(start.persisted[n := grown.used], Limits(start.log))
  {
    var usages, hard := start.persisted, Limits(start.log);
    forall k' | k' in hard ensures SumAt(usages[n := Growing(usages, n, k, Room(start, k)).used], k') <= hard[k'] {
      GrowthSums(usages, n, k, Room(start, k), k');
    }
  }

  lemma TwiceGrown(usages: Usages, a: string, b: string, k: string, room: int)
    requires a != b
    ensures SumAt(usages[a := Growing(usages, a, k, room).used][b := Growing(usages, b, k, room).used], k)
         == SumAt(usages, k) + room + room
  {
    var grown := usages[a := Growing(usages, a, k, room).used];
    GrowthSums(usages, a, k, room, k);
    assert Growing(usages, b, k, room) == Growing(grown, b, k, room);
    GrowthSums(grown, b, k, room, k);
  }

  /** A run in which `a` takes all that is left of a resource, the cache is rebuilt from what is stored, and `b` takes
      it again, before both updates are stored. */
  function TakeTwice(first: Request, second: Request, listing: seq<ResourceQuota>, made: nat, v: nat): seq<Action> {
    Solo(Solo([], 1, first, made, v) + [Sync(listing, made)], 2, second, made, v + 1) + [Persist(1)] + [Persist(2)]
  }

  lemma RebuildForgets(start: State, run: seq<Action>, s: State, usages: Usages, cached: Usages, hard: ResourceList,
                       listing: seq<ResourceQuota>, made: nat) returns (end: State)
    requires Reaches(LateRebuilds, start, run, s) && Quiet(s) && Stands(s, cached, hard) && made !in s.entries
    requires s.persisted == usages != map[] && Listed(listing, s.name) == Some(usages)
    ensures Reaches(LateRebuilds, start, run + [Sync(listing, made)], end) && Stands(end, usages, hard)
    ensures end.calls == s.calls && end.pending == s.pending && end.persisted == s.persisted && end.log == s.log
    ensures made !in end.entries
  {
    RebuildStep(s, listing, made);
    Extend(LateRebuilds, start, run, s, Sync(listing, made));
    end := Rebuilt(s, Some(usages));
  }

  /** After the first admission and the rebuild the cache holds what is stored, and the update is still to be stored. */
  lemma TakenOnce(start: State, first: Request, listing: seq<ResourceQuota>, made: nat) returns (end: State)
    requires BoundedStart(start) && made !in start.entries && Listed(listing, start.name) == Some(start.persisted)
    requires first.ns in start.persisted && !first.bypass && NonNegative(first.used)
    requires SumsWithin(start.persisted[first.ns := first.used], Limits(start.log))
    ensures Reaches(LateRebuilds, start, Solo([], 1, first, made, |start.log| - 1) + [Sync(listing, made)], end)
    ensures Stands(end, start.persisted, Limits(start.log)) && made !in end.entries
    ensures end.calls == map[1 := Call(first, 1, Done(Allowed, Some(|start.log|)))] && end.pending == {1}
    ensures end.persisted == start.persisted && |end.log| == |start.log| + 1
  {
    var usages, hard, v := start.persisted, Limits(start.log), |start.log| - 1;
    StartStands(start, first.ns);
    end := OneAdmission(LateRebuilds, start, [], start, 1, first, made, v, usages, hard);
    end := RebuildForgets(start, Solo([], 1, first, made, v), end, usages, usages[first.ns := first.used], hard,
                          listing, made);
  }

  lemma StoreBoth(start: State, run: seq<Action>, s: State, first: Request, second: Request) returns (end: State)
    requires Reaches(LateRebuilds, start, run, s) && s.pending == {1, 2}
    requires 1 in s.calls && s.calls[1].phase.Done? && s.calls[1].req == first && first.ns in s.persisted
    requires 2 in s.calls && s.calls[2].phase.Done? && s.calls[2].req == second && second.ns in s.persisted
    ensures Reaches(LateRebuilds, start, run + [Persist(1)] + [Persist(2)], end)
    ensures end.persisted == s.persisted[first.ns := first.used][second.ns := second.used] && end.log == s.log
  {
    Extend(LateRebuilds, start, run, s, Persist(1));
    Extend(LateRebuilds, start, run + [Persist(1)], Apply(s, Persist(1)), Persist(2));
    end := Apply(Apply(s, Persist(1)), Persist(2));
  }

  lemma TakenTwice(start: State, first: Request, second: Request, listing: seq<ResourceQuota>, made: nat)
    returns (run: seq<Action>, end: State)
    requires BoundedStart(start) && made !in start.entries && Listed(listing, start.name) == Some(start.persisted)
    requires first.ns != second.ns && first.ns in start.persisted && second.ns in start.persisted
    requires !first.bypass && !second.bypass && NonNegative(first.used) && NonNegative(second.used)
    requires SumsWithin(start.persisted[first.ns := first.used], Limits(start.log))
    requires SumsWithin(start.persisted[second.ns := second.used], Limits(start.log))
    ensures run == TakeTwice(first, second, listing, made, |start.log| - 1)
    ensures Reaches(LateRebuilds, start, run, end)
    ensures end.persisted == start.persisted[first.ns := first.used][second.ns := second.used]
    ensures Limits(end.log) == Limits(start.log)
  {
    var usages, hard, v := start.persisted, Limits(start.log), |start.log| - 1;
    run := Solo([], 1, first, made, v) + [Sync(listing, made)];
    end := TakenOnce(start, first, listing, made);
    end := OneAdmission(LateRebuilds, start, run, end, 2, second, made, v + 1, usages, hard);
    run := Solo(run, 2, second, made, v + 1);
    end := StoreBoth(start, run, end, first, second);
    run := run + [Persist(1)] + [Persist(2)];
  }

  /** Without the assumption that no rebuild happens while an admitted update is still to be stored, the bound fails
      from every start at which two quotas are stored and something is left of a limited resource, although no update
      frees anything: what the rebuild loses is the fresh record of the first admission. */
  lemma EarlyRebuildBreaksBound(start: State, a: string, b: string, k: string, made: nat)
    returns (first: Request, second: Request, listing: seq<ResourceQuota>, run: seq<Action>, end: State)
    requires BoundedStart(start) && made !in start.entries && start.name != ""
    requires a != b && a in start.persisted && b in start.persisted && k in Limits(start.log) && Room(start, k) > 0
    ensures first == Growing(start.persisted, a, k, Room(start, k))
    ensures second == Growing(start.persisted, b, k, Room(start, k))
    ensures Listed(listing, start.name) == Some(start.persisted)
    ensures run == TakeTwice(first, second, listing, made, |start.log| - 1) && Reaches(LateRebuilds, start, run, end)
    ensures Limits(end.log) == Limits(start.log)
    ensures SumAt(end.persisted, k) == Limits(start.log)[k] + Room(start, k)
  {
    var usages := start.persisted;
    first, second := Growing(usages, a, k, Room(start, k)), Growing(usages, b, k, Room(start, k));
    listing := SomeListing(usages, start.name);
    GrowthWithin(start, a, k);
    GrowthWithin(start, b, k);
    run, end := TakenTwice(start, first, second, listing, made);
    TwiceGrown(usages, a, b, k, Room(start, k));
  }
}
