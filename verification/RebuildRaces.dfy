/** Why serialisability needs rebuilds to stay out of the calls' way, which the two locks do not see to: what a
    rebuild between a call's check and its write does, exactly. */
module RebuildRaces {
  import opened Options
  import opened ResourceLists
  import opened UsageTotals
  import opened QuotaObjects
  import opened UsageSnapshot
  import opened StatusAdmission
  import opened AdmissionProtocol
  import opened SoloCalls

  /** The state after a rebuild from a listing that shows `listed`: the current entry holds that, and is out of the
      cache when nothing is listed. */
  function Rebuilt(s: State, listed: Option<Usages>): State
    requires s.current.Some?
  {
    if listed.Some? then s.(entries := s.entries[s.current.value := listed.value], base := listed.value, commits := [])
    else s.(current := None, base := map[], commits := [])
  }

  /** A rebuild takes no notice of the entry's lock, nor of the calls. */
  lemma RebuildStep(s: State, listing: seq<ResourceQuota>, made: nat)
    requires s.current.Some? && made !in s.entries
    ensures Enabled(s, Sync(listing, made)) && Apply(s, Sync(listing, made)) == Rebuilt(s, Listed(listing, s.name))
  {
  }

  ghost predicate SameSums(a: Usages, b: Usages) {
    forall k :: SumAt(a, k) == SumAt(b, k)
  }

  /** The total a call formed from the usages it checked is that of other usages exactly when those have the sums the
      checked ones have once its own is replaced. */
  lemma TotalsAgreeIff(checked: Usages, ns: string, used: ResourceList, others: Usages)
    ensures Agree(IncrementalTotal(checked, ns, used), Total(others)) <==> SameSums(checked[ns := used], others)
  {
    var inc, full := IncrementalTotal(checked, ns, used), Total(others);
    forall k ensures Get(inc, k) == Get(full, k) <==> SumAt(checked[ns := used], k) == SumAt(others, k) {
      IncrementalAt(checked, ns, used, k);
      TotalAt(others, k);
    }
    if Agree(inc, full) {
      forall k ensures SumAt(checked[ns := used], k) == SumAt(others, k) {
        assert Get(inc, k) == Get(full, k);
      }
    }
  }

  /** With the same usage put in on both sides, only the other namespaces make a difference. */
  lemma SameSumsOfOthers(a: Usages, b: Usages, ns: string, used: ResourceList)
    ensures SameSums(a[ns := used], b[ns := used]) <==> SameSums(a - {ns}, b - {ns})
  {
    forall k ensures SumAt(a[ns := used], k) - SumAt(a - {ns}, k) == SumAt(b[ns := used], k) - SumAt(b - {ns}, k) {
      SumAtSplit(a[ns := used], ns, k);
      SumAtSplit(b[ns := used], ns, k);
      assert a[ns := used] - {ns} == a - {ns} && b[ns := used] - {ns} == b - {ns};
    }
    if SameSums(a[ns := used], b[ns := used]) {
      forall k ensures SumAt(a - {ns}, k) == SumAt(b - {ns}, k) {
        assert SumAt(a[ns := used], k) == SumAt(b[ns := used], k);
      }
    } else {
      var k :| SumAt(a[ns := used], k) != SumAt(b[ns := used], k);
      assert SumAt(a - {ns}, k) != SumAt(b - {ns}, k);
    }
  }

  /** The steps of a call with a rebuild between its check and its write, up to its commit. */
  function Raced(run: seq<Action>, id: nat, req: Request, made: nat, version: nat,
                 listing: seq<ResourceQuota>): seq<Action>
  {
    ToRead(run, id, req, made, version) + [Check(id)] + [Sync(listing, made)] + [Write(id)] + [CommitUsage(id)]
  }

  /** What the cache holds once the call is through. */
  function Left(listed: Option<Usages>, req: Request): Usages {
    if listed.Some? then listed.value[req.ns := req.used] else map[]
  }

  lemma CommitLeaves(s: State, id: nat, req: Request, total: ResourceList, listed: Option<Usages>)
    requires Ready(s)
    ensures var e, v := s.current.value, |s.log|;
            var end := AfterCommit(Rebuilt(s, listed), id, req, 1, e, total);
            && end.calls == s.calls[id := Call(req, 1, Committed(e, v, total))]
            && |end.log| == v + 1 && end.log[v].Some? && end.log[v].value.status.used == total
            && CurrentUsages(end) == Left(listed, req)
            && end.commits == (if listed.Some? then [Commit(id, req, v, total)] else [])
  {
  }

  lemma RebuildReaches(start: State, run: seq<Action>, s: State, id: nat, req: Request, phase: Phase,
                       listing: seq<ResourceQuota>, made: nat)
    requires s.current.Some? && made !in s.entries
    requires Reaches(Anything, start, run, Underway(s, id, req, phase))
    ensures Reaches(Anything, start, run + [Sync(listing, made)],
                    Underway(Rebuilt(s, Listed(listing, s.name)), id, req, phase))
  {
    RebuildStep(Underway(s, id, req, phase), listing, made);
    Extend(Anything, start, run, Underway(s, id, req, phase), Sync(listing, made));
  }

  lemma RacedCallCommits(start: State, run: seq<Action>, s: State, id: nat, req: Request, total: ResourceList,
                         listing: seq<ResourceQuota>, made: nat)
    requires Ready(s) && made !in s.entries
    requires Reaches(Anything, start, run, Underway(s, id, req, Checked(s.current.value, |s.log| - 1, total)))
    ensures Reaches(Anything, start, run + [Sync(listing, made)] + [Write(id)] + [CommitUsage(id)],
                    AfterCommit(Rebuilt(s, Listed(listing, s.name)), id, req, 1, s.current.value, total))
  {
    var e, rebuilt := s.current.value, Rebuilt(s, Listed(listing, s.name));
    RebuildReaches(start, run, s, id, req, Checked(e, |s.log| - 1, total), listing, made);
    CheckedCallCommits(Anything, start, run + [Sync(listing, made)], rebuilt, id, req, e, total);
  }

  lemma TotalAfterRace(checked: Usages, req: Request, listed: Option<Usages>)
    ensures Agree(IncrementalTotal(checked, req.ns, req.used), Total(Left(listed, req)))
       <==> match listed
            case Some(usages) => SameSums(checked - {req.ns}, usages - {req.ns})
            case None => SameSums(checked[req.ns := req.used], map[])
  {
    TotalsAgreeIff(checked, req.ns, req.used, Left(listed, req));
    if listed.Some? {
      SameSumsOfOthers(checked, listed.value, req.ns, req.used);
    }
  }

  /** With a rebuild in between, the call still writes its total and commits. When something is listed, its usage
      is in the cache, and its total is that of the cached usages exactly when the rebuild left the sums of all
      other namespaces as they were. When nothing is, it commits to an entry the cache has dropped: the usage it was
      admitted for is lost, and its total is that of the empty cache exactly when all usages summed up to zero. */
  lemma RebuildDuringCall(start: State, run: seq<Action>, s: State, id: nat, req: Request, made: nat,
                          listing: seq<ResourceQuota>) returns (end: State)
    requires Reaches(Anything, start, run, s)
    requires Allows(s, req) && id !in s.calls && made !in s.entries
    ensures Reaches(Anything, start, Raced(run, id, req, made, |s.log| - 1, listing), end)
    ensures var e, v, total := s.current.value, |s.log|, SoloTotal(s, req);
            && end.calls == s.calls[id := Call(req, 1, Committed(e, v, total))]
            && |end.log| == v + 1 && end.log[v].Some? && end.log[v].value.status.used == total
    ensures var checked, total := s.entries[s.current.value], SoloTotal(s, req);
            match Listed(listing, s.name)
            case Some(usages) =>
              && CurrentUsages(end) == usages[req.ns := req.used] && |end.commits| == 1
              && (Agree(total, Total(CurrentUsages(end))) <==> SameSums(checked - {req.ns}, usages - {req.ns}))
            case None =>
              && end.current == None && CurrentUsages(end) == map[] && end.commits == []
              && (Agree(total, Total(CurrentUsages(end))) <==> SameSums(checked[req.ns := req.used], map[]))
  {
    var e, total := s.current.value, SoloTotal(s, req);
    end := AfterCommit(Rebuilt(s, Listed(listing, s.name)), id, req, 1, e, total);
    SoloCallChecks(Anything, start, run, s, id, req, made);
    RacedCallCommits(start, ToRead(run, id, req, made, |s.log| - 1) + [Check(id)], s, id, req, total, listing, made);
    CommitLeaves(s, id, req, total, Listed(listing, s.name));
    TotalAfterRace(s.entries[e], req, Listed(listing, s.name));
  }
}
