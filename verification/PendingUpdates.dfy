/** The admitted updates the API server has still to store: what is known of them in every disciplined run. */
module PendingUpdates {
  import opened Options
  import opened ResourceLists
  import opened UsageTotals
  import opened QuotaObjects
  import opened StatusAdmission
  import opened AdmissionProtocol
  import opened ProtocolSafety
  import opened Serialisability

  function Limits(log: Log): ResourceList {
    var last := log[|log| - 1];
    if last.Some? then last.value.status.hard else map[]
  }

  /** The ClusterResourceQuota was there at every version. */
  ghost predicate LogPresent(log: Log) {
    forall v | 0 <= v < |log| :: log[v].Some?
  }

  ghost predicate RequestsOk(calls: map<nat, Call>) {
    forall id | id in calls :: !calls[id].req.bypass && NonNegative(calls[id].req.used)
  }

  /** Calls still to be stored have committed, are for different namespaces, and are what the cache holds. */
  ghost predicate PendingOk(pending: set<nat>, calls: map<nat, Call>, usages: Usages) {
    && (forall id | id in pending :: id in calls && calls[id].phase.HasCommitted()
                                     && UsageOf(usages, calls[id].req.ns) == calls[id].req.used)
    && forall id, other | id in pending && other in pending && id in calls && other in calls
                          && calls[id].req.ns == calls[other].req.ns :: id == other
  }

  ghost predicate NoneNegative(usages: Usages) {
    forall n | n in usages :: NonNegative(usages[n])
  }

  /** The namespaces with an update still to be stored. */
  function Awaiting(pending: set<nat>, calls: map<nat, Call>): set<string> {
    set id | id in pending && id in calls :: calls[id].req.ns
  }

  ghost predicate Orderly(s: State) {
    && LogPresent(s.log)
    && RequestsOk(s.calls)
    && NoneNegative(s.persisted)
    && PendingOk(s.pending, s.calls, CurrentUsages(s))
  }

  // ----- Each step keeps it -----

  lemma StepKeepsRequests(s: State, a: Action)
    requires RequestsOk(s.calls) && CanAct(Bounded, s, a)
    ensures RequestsOk(NextCalls(s, a))
  {
  }

  lemma StepKeepsLog(s: State, a: Action)
    requires LogPresent(s.log) && CanAct(Bounded, s, a)
    ensures LogPresent(NextLog(s, a)) && LimitsKept(Limits(s.log), Limits(NextLog(s, a)))
  {
  }

  /** The steps that change neither the cache, nor what is stored, nor what is still to be stored. */
  predicate Stutters(s: State, a: Action) {
    !a.CommitUsage? && !a.Sync? && !a.Persist? && !a.Join? && !a.Leave?
  }

  lemma StutterKeepsUsages(s: State, a: Action)
    requires Enabled(s, a) && Stutters(s, a) && LogPresent(s.log)
    requires s.current.Some? ==> s.current.value in s.entries
    ensures CurrentUsages(Apply(s, a)) == CurrentUsages(s)
    ensures NextPersisted(s, a) == s.persisted && NextPending(s, a) == s.pending
  {
  }

  lemma CommittedCallStays(s: State, a: Action, id: nat)
    requires Enabled(s, a) && id in s.calls && s.calls[id].phase.HasCommitted()
    ensures id in NextCalls(s, a) && NextCalls(s, a)[id].req == s.calls[id].req
    ensures NextCalls(s, a)[id].phase.HasCommitted()
  {
  }

  lemma SameAwaiting(pending: set<nat>, calls: map<nat, Call>, calls': map<nat, Call>)
    requires forall id | id in pending :: id in calls && id in calls' && calls'[id].req == calls[id].req
    ensures Awaiting(pending, calls') == Awaiting(pending, calls)
  {
  }

  lemma StutterKeepsPending(s: State, a: Action, usages: Usages)
    requires Enabled(s, a) && PendingOk(s.pending, s.calls, usages)
    ensures PendingOk(s.pending, NextCalls(s, a), usages)
    ensures Awaiting(s.pending, NextCalls(s, a)) == Awaiting(s.pending, s.calls)
  {
    var calls := NextCalls(s, a);
    forall id | id in s.pending
      ensures id in calls && calls[id].req == s.calls[id].req && calls[id].phase.HasCommitted()
    {
      CommittedCallStays(s, a, id);
    }
    SameAwaiting(s.pending, s.calls, calls);
  }

  lemma CommitAwaits(pending: set<nat>, calls: map<nat, Call>, usages: Usages, id: nat, c: Call)
    requires PendingOk(pending, calls, usages) && id in calls && calls[id].phase.Written?
    requires c.phase.Committed? && c.req == calls[id].req && c.req.ns !in Awaiting(pending, calls)
    ensures PendingOk(pending + {id}, calls[id := c], usages[c.req.ns := c.req.used])
    ensures Awaiting(pending + {id}, calls[id := c]) == Awaiting(pending, calls) + {c.req.ns}
  {
    assert forall other | other in pending :: calls[other].req.ns in Awaiting(pending, calls);
    SameAwaiting(pending, calls, calls[id := c]);
    assert Awaiting(pending + {id}, calls[id := c]) == Awaiting(pending, calls[id := c]) + {c.req.ns};
  }

  lemma PersistSettles(pending: set<nat>, calls: map<nat, Call>, usages: Usages, id: nat)
    requires PendingOk(pending, calls, usages) && id in pending
    ensures PendingOk(pending - {id}, calls, usages)
    ensures Awaiting(pending - {id}, calls) == Awaiting(pending, calls) - {calls[id].req.ns}
  {
  }

  lemma CommitIsNew(s: State, a: Action)
    requires CanAct(Bounded, s, a) && a.CommitUsage?
    ensures s.calls[a.id].req.ns !in Awaiting(s.pending, s.calls)
  {
  }

  lemma CommitKeepsPending(s: State, a: Action)
    requires OneEntry(s) && CanAct(Bounded, s, a) && a.CommitUsage?
    requires PendingOk(s.pending, s.calls, CurrentUsages(s))
    ensures var s', req := Apply(s, a), s.calls[a.id].req;
            && CurrentUsages(s') == CurrentUsages(s)[req.ns := req.used]
            && PendingOk(s'.pending, s'.calls, CurrentUsages(s'))
            && Awaiting(s'.pending, s'.calls) == Awaiting(s.pending, s.calls) + {req.ns}
  {
    assert s.current == Some(s.calls[a.id].phase.entry);
    CommitIsNew(s, a);
    CommitAwaits(s.pending, s.calls, CurrentUsages(s), a.id, NextCalls(s, a)[a.id]);
  }

  lemma StepKeepsNoneNegative(s: State, a: Action)
    requires RequestsOk(s.calls) && NoneNegative(s.persisted) && Enabled(s, a)
    ensures NoneNegative(NextPersisted(s, a))
  {
  }

  lemma StepKeepsPending(s: State, a: Action)
    requires OneEntry(s) && LogPresent(s.log) && CanAct(Bounded, s, a)
    requires s.current.Some? ==> s.current.value in s.entries
    requires PendingOk(s.pending, s.calls, CurrentUsages(s))
    ensures PendingOk(NextPending(s, a), NextCalls(s, a), CurrentUsages(Apply(s, a)))
  {
    if a.CommitUsage? {
      CommitKeepsPending(s, a);
    } else if a.Persist? {
      PersistSettles(s.pending, s.calls, CurrentUsages(s), a.id);
    } else if Stutters(s, a) {
      StutterKeepsUsages(s, a);
      StutterKeepsPending(s, a, CurrentUsages(s));
    }
  }

  lemma StepKeepsOrderly(s: State, a: Action)
    requires OneEntry(s) && Orderly(s) && CanAct(Bounded, s, a)
    requires s.current.Some? ==> s.current.value in s.entries
    ensures Orderly(Apply(s, a))
  {
    StepKeepsRequests(s, a);
    StepKeepsLog(s, a);
    StepKeepsNoneNegative(s, a);
    StepKeepsPending(s, a);
  }

  /** What is stored once the update of `ns`, which the cache holds, was. */
  function StoreOne(cached: Usages, stored: Usages, ns: string): Usages {
    if ns in stored then stored[ns := UsageOf(cached, ns)] else stored
  }

  lemma PersistStoresOne(s: State, id: nat)
    requires Orderly(s) && Enabled(s, Persist(id))
    ensures var s', ns := Apply(s, Persist(id)), s.calls[id].req.ns;
            && Orderly(s') && ns in Awaiting(s.pending, s.calls)
            && CurrentUsages(s') == CurrentUsages(s) && s'.log == s.log && s'.pending == s.pending - {id}
            && s'.persisted == StoreOne(CurrentUsages(s), s.persisted, ns)
            && Awaiting(s'.pending, s'.calls) == Awaiting(s.pending, s.calls) - {ns}
  {
    PersistSettles(s.pending, s.calls, CurrentUsages(s), id);
  }

  // ----- In every run -----

  /** A start from which disciplined runs are orderly: the ClusterResourceQuota is there, and no usage the API server
      stores is negative. */
  ghost predicate OrderlyStart(s: State) {
    Initial(s) && LogPresent(s.log) && NoneNegative(s.persisted)
  }

  lemma {:induction false} OrderlyThroughout(s: State, actions: seq<Action>)
    requires OrderlyStart(s) && IsRun(Bounded, s, actions)
    ensures var end := After(Bounded, s, actions);
            Safe(end) && Serial(end) && Orderly(end)
    decreases |actions|
  {
    SerialThroughout(Bounded, s, actions);
    if actions != [] {
      var front, a := actions[..|actions| - 1], actions[|actions| - 1];
      OrderlyThroughout(s, front);
      StepKeepsOrderly(After(Bounded, s, front), a);
    }
  }
}
