/** The cluster-wide bound: in every disciplined run the usages the API server stores sum up to at most the limits. */
module WholeRunBound {
  import opened Options
  import opened ResourceLists
  import opened UsageTotals
  import opened QuotaObjects
  import opened StatusAdmission
  import opened AdmissionProtocol
  import opened ProtocolSafety
  import opened Serialisability
  import opened PendingUpdates

  // ----- The larger of what is cached and what is stored -----

  function Max(x: int, y: int): int {
    if x >= y then x else y
  }

  /** Resource by resource the larger of two amounts. */
  function Larger(a: ResourceList, b: ResourceList): ResourceList {
    map k | k in a.Keys + b.Keys :: Max(Get(a, k), Get(b, k))
  }

  /** Namespace by namespace the larger of two usages. */
  function Upper(cached: Usages, stored: Usages): Usages {
    map n | n in cached.Keys + stored.Keys :: Larger(UsageOf(cached, n), UsageOf(stored, n))
  }

  lemma UpperAt(cached: Usages, stored: Usages, n: string, k: string)
    ensures Get(UsageOf(Upper(cached, stored), n), k) == Max(Get(UsageOf(cached, n), k), Get(UsageOf(stored, n), k))
  {
  }

  /** The upper usages stay within the limits. */
  ghost predicate Within(cached: Usages, stored: Usages, hard: ResourceList) {
    forall k | k in hard :: SumAt(Upper(cached, stored), k) <= hard[k]
  }

  lemma UpperMonotone(cached: Usages, stored: Usages, cached': Usages, stored': Usages, k: string)
    requires forall n :: Max(Get(UsageOf(cached', n), k), Get(UsageOf(stored', n), k))
                      <= Max(Get(UsageOf(cached, n), k), Get(UsageOf(stored, n), k))
    ensures SumAt(Upper(cached', stored'), k) <= SumAt(Upper(cached, stored), k)
  {
    forall n ensures Get(UsageOf(Upper(cached', stored'), n), k) <= Get(UsageOf(Upper(cached, stored), n), k) {
      UpperAt(cached, stored, n, k);
      UpperAt(cached', stored', n, k);
    }
    SumAtMonotone(Upper(cached', stored'), Upper(cached, stored), k);
  }

  lemma StoredWithin(cached: Usages, stored: Usages, hard: ResourceList, k: string)
    requires Within(cached, stored, hard) && k in hard
    ensures SumAt(stored, k) <= hard[k]
  {
    forall n ensures Get(UsageOf(stored, n), k) <= Get(UsageOf(Upper(cached, stored), n), k) {
      UpperAt(cached, stored, n, k);
    }
    SumAtMonotone(stored, Upper(cached, stored), k);
  }

  // ----- The invariant -----

  /** On every limited resource; a resource the total does not list counts as zero. */
  ghost predicate TotalWithin(total: ResourceList, hard: ResourceList) {
    forall k | k in hard :: Get(total, k) <= hard[k]
  }

  ghost predicate WrittenWithin(calls: map<nat, Call>, hard: ResourceList) {
    forall id | id in calls && calls[id].phase.Written? :: TotalWithin(calls[id].phase.total, hard)
  }

  /** What is stored is at most what is cached except where an update is still to be stored. */
  ghost predicate StoredOk(awaiting: set<string>, usages: Usages, stored: Usages) {
    forall n | n !in awaiting :: Below(UsageOf(stored, n), UsageOf(usages, n))
  }

  ghost predicate Bound(s: State) {
    && NonNegative(Limits(s.log))
    && WrittenWithin(s.calls, Limits(s.log))
    && StoredOk(Awaiting(s.pending, s.calls), CurrentUsages(s), s.persisted)
    && Within(CurrentUsages(s), s.persisted, Limits(s.log))
  }

  // ----- Each step keeps it -----

  lemma WithinLimitsKept(cached: Usages, stored: Usages, hard: ResourceList, hard': ResourceList)
    requires Within(cached, stored, hard) && LimitsKept(hard, hard')
    ensures Within(cached, stored, hard')
  {
  }

  /** A checked total is within all limits, because those it does not list are not negative. */
  lemma StepKeepsWritten(s: State, a: Action)
    requires Orderly(s) && PhasesOk(s.log, s.entries, s.calls) && CanAct(Bounded, s, a)
    requires NonNegative(Limits(s.log)) && WrittenWithin(s.calls, Limits(s.log))
    ensures WrittenWithin(NextCalls(s, a), Limits(NextLog(s, a)))
  {
    StepKeepsLog(s, a);
    if a.Write? {
      var Call(req, _, Checked(e, v, total)) := s.calls[a.id];
      var hard := s.log[v].value.status.hard;
      assert PhaseOk(s.log, s.entries, s.calls[a.id]);
      forall k | k in hard ensures Get(total, k) <= hard[k] {
        assert k !in Exceeded(total, hard);
      }
    }
  }

  /** Where the new usage is at least what is stored, the upper usages are now those of the cache, whose total
      was checked. */
  lemma GrowthKeepsSum(cached: Usages, stored: Usages, limit: int, ns: string, used: ResourceList, k: string)
    requires Get(IncrementalTotal(cached, ns, used), k) <= limit
    requires forall n | n != ns :: Below(UsageOf(stored, n), UsageOf(cached, n))
    requires Get(UsageOf(stored, ns), k) <= Get(used, k)
    ensures SumAt(Upper(cached[ns := used], stored), k) <= limit
  {
    var cached' := cached[ns := used];
    forall n ensures Get(UsageOf(Upper(cached', stored), n), k) <= Get(UsageOf(cached', n), k) {
      UpperAt(cached', stored, n, k);
      if n != ns {
        assert UsageOf(cached', n) == UsageOf(cached, n);
        assert Get(UsageOf(stored, n), k) <= Get(UsageOf(cached, n), k);
      }
    }
    SumAtMonotone(Upper(cached', stored), cached', k);
    IncrementalAt(cached, ns, used, k);
  }

  /** Where it is less, what is stored still counts, and it did before. */
  lemma ShrinkKeepsSum(cached: Usages, stored: Usages, ns: string, used: ResourceList, k: string)
    requires Get(used, k) <= Get(UsageOf(stored, ns), k)
    ensures SumAt(Upper(cached[ns := used], stored), k) <= SumAt(Upper(cached, stored), k)
  {
    forall n ensures Max(Get(UsageOf(cached[ns := used], n), k), Get(UsageOf(stored, n), k))
                  <= Max(Get(UsageOf(cached, n), k), Get(UsageOf(stored, n), k))
    {
      assert n != ns ==> UsageOf(cached[ns := used], n) == UsageOf(cached, n);
    }
    UpperMonotone(cached, stored, cached[ns := used], stored, k);
  }

  lemma CommitKeepsWithin(cached: Usages, stored: Usages, hard: ResourceList, ns: string, used: ResourceList)
    requires Within(cached, stored, hard)
    requires TotalWithin(IncrementalTotal(cached, ns, used), hard)
    requires forall n | n != ns :: Below(UsageOf(stored, n), UsageOf(cached, n))
    ensures Within(cached[ns := used], stored, hard)
  {
    forall k | k in hard ensures SumAt(Upper(cached[ns := used], stored), k) <= hard[k] {
      if Get(UsageOf(stored, ns), k) <= Get(used, k) {
        GrowthKeepsSum(cached, stored, hard[k], ns, used, k);
      } else {
        ShrinkKeepsSum(cached, stored, ns, used, k);
      }
    }
  }

  lemma CommitKeepsBound(s: State, a: Action)
    requires OneEntry(s) && Orderly(s) && Bound(s) && CanAct(Bounded, s, a) && a.CommitUsage?
    requires Knows(s, a.id, s.calls[a.id])
    ensures Bound(Apply(s, a))
  {
    var Call(req, _, Written(e, v, total)) := s.calls[a.id];
    var cached := CurrentUsages(s);
    assert s.current == Some(e) && cached == s.entries[e];
    forall n | n != req.ns ensures Below(UsageOf(s.persisted, n), UsageOf(cached, n)) {
      if n in Awaiting(s.pending, s.calls) {
        var id :| id in s.pending && id in s.calls && s.calls[id].req.ns == n;
      }
    }
    CommitKeepsWithin(cached, s.persisted, Limits(s.log), req.ns, req.used);
    CommitKeepsPending(s, a);
  }

  lemma StoreOneKeepsWithin(cached: Usages, stored: Usages, awaiting: set<string>, ns: string, hard: ResourceList)
    requires StoredOk(awaiting, cached, stored) && Within(cached, stored, hard)
    requires NonNegative(UsageOf(cached, ns))
    ensures var stored' := StoreOne(cached, stored, ns);
            StoredOk(awaiting - {ns}, cached, stored') && Within(cached, stored', hard)
  {
    var stored' := StoreOne(cached, stored, ns);
    forall k | k in hard ensures SumAt(Upper(cached, stored'), k) <= hard[k] {
      UpperMonotone(cached, stored, cached, stored', k);
    }
  }

  lemma PersistKeepsBound(s: State, a: Action)
    requires Orderly(s) && Bound(s) && CanAct(Bounded, s, a) && a.Persist?
    ensures Bound(Apply(s, a))
  {
    PersistStoresOne(s, a.id);
    assert UsageOf(CurrentUsages(s), s.calls[a.id].req.ns) == s.calls[a.id].req.used;
    StoreOneKeepsWithin(CurrentUsages(s), s.persisted, Awaiting(s.pending, s.calls), s.calls[a.id].req.ns,
                        Limits(s.log));
  }

  lemma ShrinkingKeepsWithin(cached: Usages, stored: Usages, stored': Usages, hard: ResourceList)
    requires Within(cached, stored, hard)
    requires forall n :: Below(UsageOf(stored', n), UsageOf(stored, n))
    ensures Within(cached, stored', hard)
  {
    forall k | k in hard ensures SumAt(Upper(cached, stored'), k) <= hard[k] {
      forall n ensures Get(UsageOf(stored', n), k) <= Get(UsageOf(stored, n), k) {
        assert Below(UsageOf(stored', n), UsageOf(stored, n));
      }
      UpperMonotone(cached, stored, cached, stored', k);
    }
  }

  lemma MembershipKeepsBound(s: State, a: Action)
    requires Orderly(s) && Bound(s) && Enabled(s, a) && (a.Join? || a.Leave?)
    ensures Bound(Apply(s, a))
  {
    var awaiting, cached, stored := Awaiting(s.pending, s.calls), CurrentUsages(s), NextPersisted(s, a);
    assert CurrentUsages(Apply(s, a)) == cached;
    ShrinkingKeepsWithin(cached, s.persisted, stored, Limits(s.log));
    forall n | n !in awaiting ensures Below(UsageOf(stored, n), UsageOf(cached, n)) {
      assert Below(UsageOf(stored, n), UsageOf(s.persisted, n)) && Below(UsageOf(s.persisted, n), UsageOf(cached, n));
    }
  }

  lemma RebuiltIsWithin(cached: Usages, stored: Usages, hard: ResourceList)
    requires Within(cached, stored, hard)
    ensures Within(stored, stored, hard)
  {
    forall k | k in hard ensures SumAt(Upper(stored, stored), k) <= hard[k] {
      UpperMonotone(cached, stored, stored, stored, k);
    }
  }

  lemma SyncKeepsBound(s: State, a: Action)
    requires Bound(s) && CanAct(Bounded, s, a) && a.Sync?
    ensures Bound(Apply(s, a))
  {
    assert CurrentUsages(Apply(s, a)) == s.persisted;
    RebuiltIsWithin(CurrentUsages(s), s.persisted, Limits(s.log));
  }

  lemma StutterKeepsBound(s: State, a: Action)
    requires Safe(s) && Orderly(s) && Bound(s) && CanAct(Bounded, s, a) && Stutters(s, a)
    ensures Bound(Apply(s, a))
  {
    StepKeepsLog(s, a);
    StepKeepsWritten(s, a);
    StutterKeepsUsages(s, a);
    StutterKeepsPending(s, a, CurrentUsages(s));
    WithinLimitsKept(CurrentUsages(s), s.persisted, Limits(s.log), Limits(NextLog(s, a)));
  }

  lemma StepKeepsBound(s: State, a: Action)
    requires Safe(s) && Serial(s) && Orderly(s) && Bound(s) && CanAct(Bounded, s, a)
    ensures Bound(Apply(s, a))
  {
    if a.CommitUsage? {
      assert Knows(s, a.id, s.calls[a.id]);
      CommitKeepsBound(s, a);
    } else if a.Persist? {
      PersistKeepsBound(s, a);
    } else if a.Join? || a.Leave? {
      MembershipKeepsBound(s, a);
    } else if a.Sync? {
      SyncKeepsBound(s, a);
    } else {
      StutterKeepsBound(s, a);
    }
  }

  // ----- The bound -----

  /** The cache is what is stored, nothing stored is negative, and on every limited resource it sums up to at
      most the limit. */
  ghost predicate BoundedStart(s: State) {
    && OrderlyStart(s)
    && CurrentUsages(s) == s.persisted
    && forall k | k in Limits(s.log) :: SumAt(s.persisted, k) <= Limits(s.log)[k]
  }

  lemma StartIsBound(s: State)
    requires BoundedStart(s)
    ensures Bound(s)
  {
    forall k | k in Limits(s.log)
      ensures 0 <= Limits(s.log)[k] && SumAt(Upper(s.persisted, s.persisted), k) <= Limits(s.log)[k]
    {
      SumAtMonotone(map[], s.persisted, k);
      forall n ensures Get(UsageOf(Upper(s.persisted, s.persisted), n), k) <= Get(UsageOf(s.persisted, n), k) {
        UpperAt(s.persisted, s.persisted, n, k);
      }
      SumAtMonotone(Upper(s.persisted, s.persisted), s.persisted, k);
    }
  }

  lemma {:induction false} BoundThroughout(s: State, actions: seq<Action>)
    requires BoundedStart(s) && IsRun(Bounded, s, actions)
    ensures Bound(After(Bounded, s, actions))
    decreases |actions|
  {
    if actions == [] {
      StartIsBound(s);
    } else {
      var front, a := actions[..|actions| - 1], actions[|actions| - 1];
      BoundThroughout(s, front);
      OrderlyThroughout(s, front);
      StepKeepsBound(After(Bounded, s, front), a);
    }
  }

  /** In every state of every disciplined run, whatever the interleaving, the stored usages sum up to at most the
      limit on every limited resource. */
  lemma StoredUsagesStayWithinLimits(s: State, actions: seq<Action>, k: string)
    requires BoundedStart(s) && IsRun(Bounded, s, actions)
    requires k in Limits(After(Bounded, s, actions).log)
    ensures SumAt(After(Bounded, s, actions).persisted, k) <= Limits(After(Bounded, s, actions).log)[k]
  {
    BoundThroughout(s, actions);
    var end := After(Bounded, s, actions);
    StoredWithin(CurrentUsages(end), end.persisted, Limits(end.log), k);
  }
}
