/** What holds in every interleaving, with rebuilds of the cache at any moment: locks exclude, every status an
    admission writes is within the limits current when it is written, and a call that is refused or fails
    never wrote anything. */
module ProtocolSafety {
  import opened Options
  import opened ResourceLists
  import opened UsageTotals
  import opened QuotaObjects
  import opened StatusAdmission
  import opened AdmissionProtocol

  /** Version `v` was written for `req` on top of version `v - 1`, within the limits there unless checks were
      bypassed for the request; nothing but the status differs. */
  ghost predicate WrittenFor(log: Log, v: nat, req: Request) {
    && 0 < v < |log| && log[v - 1].Some? && log[v].Some?
    && var prior := log[v - 1].value;
    && var used := log[v].value.status.used;
    && log[v].value == prior.(status := NewStatus(prior.status, req.ns, req.used, used))
    && (req.bypass || LessThanOrEqual(used, prior.status.hard))
  }

  ghost predicate WritesOk(log: Log, writers: map<nat, nat>, calls: map<nat, Call>) {
    forall v | v in writers :: writers[v] in calls && WrittenFor(log, v, calls[writers[v]].req)
  }

  ghost predicate LocksOk(holder: map<nat, nat>, calls: map<nat, Call>) {
    && (forall e | e in holder :: holder[e] in calls && calls[holder[e]].phase.Lock() == Some(e))
    && forall id | id in calls && calls[id].phase.Lock().Some? ::
         calls[id].phase.Lock().value in holder && holder[calls[id].phase.Lock().value] == id
  }

  /** A call's writes so far are exactly those its phase tells of. */
  ghost predicate Accounted(writers: map<nat, nat>, calls: map<nat, Call>) {
    && (forall v | v in writers :: writers[v] in calls && calls[writers[v]].phase.Version() == Some(v))
    && forall id | id in calls && calls[id].phase.Version().Some? ::
         calls[id].phase.Version().value in writers && writers[calls[id].phase.Version().value] == id
  }

  /** The calls that committed, each once, are those past their commit. */
  ghost predicate LandedOk(landed: seq<nat>, calls: map<nat, Call>) {
    && (forall i | 0 <= i < |landed| :: landed[i] in calls && calls[landed[i]].phase.HasCommitted())
    && (forall i, j | 0 <= i < j < |landed| :: landed[i] != landed[j])
    && forall id | id in calls && calls[id].phase.HasCommitted() :: id in landed
  }

  ghost predicate PhaseOk(log: Log, entries: map<nat, Usages>, c: Call) {
    && 1 <= c.attempt <= MAX_ATTEMPTS
    && (c.phase.HasPointer() ==> c.phase.entry in entries)
    && match c.phase
       case Fetched(_, v) => v < |log| && log[v].Some?
       case Checked(_, v, total) =>
         v < |log| && log[v].Some? && (c.req.bypass || LessThanOrEqual(total, log[v].value.status.hard))
       case Written(_, v, total) => v < |log| && log[v].Some? && log[v].value.status.used == total
       case Committed(_, v, total) => v < |log| && log[v].Some? && log[v].value.status.used == total
       case Done(response, admitted) => admitted.Some? ==> response == Allowed
       case _ => true
  }

  ghost predicate PhasesOk(log: Log, entries: map<nat, Usages>, calls: map<nat, Call>) {
    forall id | id in calls :: PhaseOk(log, entries, calls[id])
  }

  ghost predicate Safe(s: State) {
    && WritesOk(s.log, s.writers, s.calls)
    && LocksOk(s.holder, s.calls)
    && Accounted(s.writers, s.calls)
    && LandedOk(s.landed, s.calls)
    && PhasesOk(s.log, s.entries, s.calls)
    && (s.current.Some? ==> s.current.value in s.entries)
  }

  lemma LogGrows(s: State, a: Action)
    requires Enabled(s, a)
    ensures |s.log| <= |NextLog(s, a)| && NextLog(s, a)[..|s.log|] == s.log
  {
  }

  lemma RequestsStay(s: State, a: Action, id: nat)
    requires Enabled(s, a) && id in s.calls
    ensures id in NextCalls(s, a) && NextCalls(s, a)[id].req == s.calls[id].req
  {
  }

  lemma StepKeepsWrites(s: State, a: Action)
    requires Safe(s) && Enabled(s, a)
    ensures WritesOk(NextLog(s, a), NextWriters(s, a), NextCalls(s, a))
  {
    var log, writers, calls := NextLog(s, a), NextWriters(s, a), NextCalls(s, a);
    LogGrows(s, a);
    forall v | v in writers ensures writers[v] in calls && WrittenFor(log, v, calls[writers[v]].req) {
      RequestsStay(s, a, writers[v]);
      if v in s.writers {
        assert v < |s.log| && log[v] == s.log[v] && log[v - 1] == s.log[v - 1];
      } else {
        assert a.Write? && PhaseOk(s.log, s.entries, s.calls[a.id]);
      }
    }
  }

  lemma PhaseChangeKeepsLocks(holder: map<nat, nat>, calls: map<nat, Call>, id: nat, c: Call)
    requires LocksOk(holder, calls) && id in calls
    requires c.phase.Lock().None? || c.phase.Lock() == calls[id].phase.Lock()
          || (calls[id].phase.Lock().None? && c.phase.Lock().value !in holder)
    ensures LocksOk(Relock(holder, id, calls[id].phase.Lock(), c.phase.Lock()), calls[id := c])
  {
  }

  lemma StepKeepsLocks(s: State, a: Action)
    requires Safe(s) && Enabled(s, a)
    ensures LocksOk(NextHolder(s, a), NextCalls(s, a))
  {
    if IsCallStep(a) {
      PhaseChangeKeepsLocks(s.holder, s.calls, a.id, NextCalls(s, a)[a.id]);
    }
  }

  lemma NextVersion(s: State, a: Action)
    requires Enabled(s, a) && IsCallStep(a)
    requires PhaseOk(s.log, s.entries, s.calls[a.id])
    ensures NextPhase(s, a).Version() == if a.Write? then Some(|s.log|) else s.calls[a.id].phase.Version()
  {
  }

  lemma PhaseChangeKeepsAccounts(writers: map<nat, nat>, calls: map<nat, Call>, id: nat, c: Call)
    requires Accounted(writers, calls) && id in calls
    requires c.phase.Version() == calls[id].phase.Version()
    ensures Accounted(writers, calls[id := c])
  {
  }

  lemma NewVersionKeepsAccounts(writers: map<nat, nat>, calls: map<nat, Call>, id: nat, c: Call, v: nat)
    requires Accounted(writers, calls) && id in calls && v !in writers
    requires calls[id].phase.Version().None? && c.phase.Version() == Some(v)
    ensures Accounted(writers[v := id], calls[id := c])
  {
  }

  lemma StepKeepsAccounts(s: State, a: Action)
    requires Safe(s) && Enabled(s, a)
    ensures Accounted(NextWriters(s, a), NextCalls(s, a))
  {
    if IsCallStep(a) {
      NextVersion(s, a);
      var c := NextCalls(s, a)[a.id];
      if a.Write? {
        assert |s.log| in s.writers ==> WrittenFor(s.log, |s.log|, s.calls[s.writers[|s.log|]].req);
        NewVersionKeepsAccounts(s.writers, s.calls, a.id, c, |s.log|);
      } else {
        PhaseChangeKeepsAccounts(s.writers, s.calls, a.id, c);
      }
    }
  }

  lemma PhaseChangeKeepsLanded(landed: seq<nat>, calls: map<nat, Call>, id: nat, c: Call)
    requires LandedOk(landed, calls)
    requires c.phase.HasCommitted() <==> id in calls && calls[id].phase.HasCommitted()
    ensures LandedOk(landed, calls[id := c])
  {
  }

  lemma CommitLands(landed: seq<nat>, calls: map<nat, Call>, id: nat, c: Call)
    requires LandedOk(landed, calls) && id in calls && !calls[id].phase.HasCommitted() && c.phase.HasCommitted()
    ensures LandedOk(landed + [id], calls[id := c])
  {
    assert forall i | 0 <= i < |landed| :: landed[i] != id;
  }

  lemma StepKeepsLanded(s: State, a: Action)
    requires LandedOk(s.landed, s.calls) && Enabled(s, a)
    requires IsCallStep(a) ==> PhaseOk(s.log, s.entries, s.calls[a.id])
    ensures LandedOk(NextLanded(s, a), NextCalls(s, a))
  {
    if a.CommitUsage? {
      CommitLands(s.landed, s.calls, a.id, NextCalls(s, a)[a.id]);
    } else if a.Start? || IsCallStep(a) {
      PhaseChangeKeepsLanded(s.landed, s.calls, a.id, NextCalls(s, a)[a.id]);
    }
  }

  lemma NextPhaseOk(s: State, a: Action)
    requires Enabled(s, a) && IsCallStep(a) && PhaseOk(s.log, s.entries, s.calls[a.id])
    requires s.current.Some? ==> s.current.value in s.entries
    ensures PhaseOk(NextLog(s, a), NextEntries(s, a), NextCalls(s, a)[a.id])
  {
  }

  lemma PhaseStaysOk(log: Log, log': Log, entries: map<nat, Usages>, entries': map<nat, Usages>, c: Call)
    requires PhaseOk(log, entries, c)
    requires |log| <= |log'| && log'[..|log|] == log && entries.Keys <= entries'.Keys
    ensures PhaseOk(log', entries', c)
  {
    assert forall v | 0 <= v < |log| :: log'[v] == log[v];
  }

  lemma StepKeepsCurrent(s: State, a: Action)
    requires Enabled(s, a) && (s.current.Some? ==> s.current.value in s.entries)
    ensures s.entries.Keys <= NextEntries(s, a).Keys
    ensures NextCurrent(s, a).Some? ==> NextCurrent(s, a).value in NextEntries(s, a)
  {
  }

  lemma StepKeepsPhases(s: State, a: Action)
    requires PhasesOk(s.log, s.entries, s.calls) && Enabled(s, a)
    requires s.current.Some? ==> s.current.value in s.entries
    ensures PhasesOk(NextLog(s, a), NextEntries(s, a), NextCalls(s, a))
  {
    var calls := NextCalls(s, a);
    StepKeepsCurrent(s, a);
    LogGrows(s, a);
    forall id | id in calls ensures PhaseOk(NextLog(s, a), NextEntries(s, a), calls[id]) {
      if IsCallStep(a) && id == a.id {
        NextPhaseOk(s, a);
      } else if id in s.calls && calls[id] == s.calls[id] {
        PhaseStaysOk(s.log, NextLog(s, a), s.entries, NextEntries(s, a), calls[id]);
      }
    }
  }

  lemma StepIsSafe(s: State, a: Action)
    requires Safe(s) && Enabled(s, a)
    ensures Safe(Apply(s, a))
  {
    StepKeepsWrites(s, a);
    StepKeepsLocks(s, a);
    StepKeepsAccounts(s, a);
    assert IsCallStep(a) ==> PhaseOk(s.log, s.entries, s.calls[a.id]);
    StepKeepsLanded(s, a);
    StepKeepsPhases(s, a);
    StepKeepsCurrent(s, a);
  }

  lemma {:induction false} SafeThroughout(d: Discipline, s: State, actions: seq<Action>)
    requires Initial(s) && IsRun(d, s, actions)
    ensures Safe(After(d, s, actions))
    decreases |actions|
  {
    if actions != [] {
      var front, a := actions[..|actions| - 1], actions[|actions| - 1];
      SafeThroughout(d, s, front);
      StepIsSafe(After(d, s, front), a);
    }
  }

  // ----- The guarantees -----

  /** In every interleaving, every status a checked admission wrote is within the limits that were current at
      the moment of the write: the immediately preceding version's. */
  lemma WritesAreWithinCurrentLimits(s: State, actions: seq<Action>, v: nat)
    requires Initial(s) && IsRun(Anything, s, actions)
    requires v in After(Anything, s, actions).writers
    ensures var end := After(Anything, s, actions);
            && end.writers[v] in end.calls
            && WrittenFor(end.log, v, end.calls[end.writers[v]].req)
  {
    SafeThroughout(Anything, s, actions);
  }

  /** In every interleaving, a call makes at most five attempts, writes the status at most once and commits
      at most once; one that ended refused or failed, or found no ClusterResourceQuota, did neither, and one that
      ended admitted did each exactly once. */
  lemma CallsWriteAndCommitOnceOrNever(s: State, actions: seq<Action>, id: nat)
    requires Initial(s) && IsRun(Anything, s, actions)
    requires id in After(Anything, s, actions).calls
    ensures var end := After(Anything, s, actions);
            && var c := end.calls[id];
            && 1 <= c.attempt <= 5
            && (forall v, w | v in end.writers && w in end.writers && end.writers[v] == end.writers[w] == id :: v == w)
            && (forall i, j | 0 <= i < |end.landed| && 0 <= j < |end.landed| && end.landed[i] == end.landed[j] == id ::
                  i == j)
            && (c.phase.Done? && c.phase.response != Allowed ==> c.phase.admitted.None?)
            && (c.phase.Done? && c.phase.admitted.None? ==>
                  id !in end.landed && forall v | v in end.writers :: end.writers[v] != id)
            && (c.phase.Done? && c.phase.admitted.Some? ==>
                  id in end.landed && c.phase.admitted.value in end.writers
                  && end.writers[c.phase.admitted.value] == id)
  {
    SafeThroughout(Anything, s, actions);
    var end := After(Anything, s, actions);
    assert PhaseOk(end.log, end.entries, end.calls[id]);
  }

  /** No two calls are inside the closure on the same entry. */
  lemma LocksExclude(s: State, actions: seq<Action>, id: nat, id': nat, e: nat)
    requires Initial(s) && IsRun(Anything, s, actions)
    requires id in After(Anything, s, actions).calls && After(Anything, s, actions).calls[id].phase.Lock() == Some(e)
    requires id' in After(Anything, s, actions).calls && After(Anything, s, actions).calls[id'].phase.Lock() == Some(e)
    ensures id == id'
  {
    SafeThroughout(Anything, s, actions);
  }
}
