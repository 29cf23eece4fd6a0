/** With rebuilds kept out of the calls' way, the entry's lock makes the calls serial: the cache holds what running
    the admissions one at a time, in commit order, gives, and each of them did what it does when run alone. */
module Serialisability {
  import opened Options
  import opened ResourceLists
  import opened UsageTotals
  import opened StatusAdmission
  import opened AdmissionProtocol
  import opened ProtocolSafety

  /** The usages after the commits, one after the other. */
  function Replay(base: Usages, commits: seq<Commit>): Usages {
    if commits == [] then base
    else
      var last := commits[|commits| - 1];
      Replay(base, commits[..|commits| - 1])[last.req.ns := last.req.used]
  }

  /** A turn in which nobody interferes and the read is current. */
  const ALONE: Turn := Turn([], VersionsOld(0), [], false)

  /** Run alone on these usages and the versions before its own, the commit's request is accepted, writes
      exactly the version the commit is for, and leaves the usages with its own replaced. */
  ghost predicate IsSerialStep(log: Log, usages: Usages, c: Commit) {
    && 0 < c.version < |log|
    && Attempt(usages, log[..c.version], c.req, ALONE)
    == Attempted(Accepted(c.total), log[..c.version + 1], usages[c.req.ns := c.req.used])
  }

  ghost predicate CommitsAreSerial(log: Log, base: Usages, commits: seq<Commit>) {
    && (forall j | 0 <= j < |commits| :: IsSerialStep(log, Replay(base, commits[..j]), commits[j]))
    && forall i, j | 0 <= i < j < |commits| :: commits[i].version < commits[j].version
  }

  /** What a call that is inside the closure knows about the entry. */
  ghost predicate Knows(s: State, id: nat, c: Call) {
    match c.phase
    case Checked(e, _, total) => e in s.entries && total == IncrementalTotal(s.entries[e], c.req.ns, c.req.used)
    case Written(e, v, total) =>
      && e in s.entries && total == IncrementalTotal(s.entries[e], c.req.ns, c.req.used)
      && forall j | 0 <= j < |s.commits| :: s.commits[j].version < v
    case Committed(e, v, total) =>
      |s.commits| > 0 && s.commits[|s.commits| - 1] == Commit(id, c.req, v, total)
    case _ => true
  }

  ghost predicate OneEntry(s: State) {
    forall id | id in s.calls && s.calls[id].phase.HasPointer() :: s.current == Some(s.calls[id].phase.entry)
  }

  ghost predicate Replayed(s: State) {
    s.current.Some? ==> s.current.value in s.entries && s.entries[s.current.value] == Replay(s.base, s.commits)
  }

  ghost predicate Serial(s: State) {
    && OneEntry(s)
    && Replayed(s)
    && CommitsAreSerial(s.log, s.base, s.commits)
    && forall id | id in s.calls :: Knows(s, id, s.calls[id])
  }

  lemma ReplayExtend(base: Usages, commits: seq<Commit>, c: Commit)
    ensures Replay(base, commits + [c]) == Replay(base, commits)[c.req.ns := c.req.used]
  {
    assert (commits + [c])[..|commits|] == commits;
  }

  lemma StepKeepsOneEntry(s: State, a: Action)
    requires OneEntry(s) && Enabled(s, a) && (a.Sync? ==> Quiet(s))
    ensures OneEntry(Apply(s, a))
  {
    if IsCallStep(a) {
      assert s.calls[a.id].phase.HasPointer() ==> s.current == Some(s.calls[a.id].phase.entry);
    }
  }

  lemma StepKeepsReplayed(s: State, a: Action)
    requires OneEntry(s) && Replayed(s) && Enabled(s, a)
    ensures Replayed(Apply(s, a))
  {
    if a.CommitUsage? {
      var Call(req, _, phase) := s.calls[a.id];
      ReplayExtend(s.base, s.commits, Commit(a.id, req, phase.wrote, phase.total));
    }
  }

  /** Run alone, a request within the limits is accepted. */
  lemma AttemptAlone(prior: Log, usages: Usages, req: Request)
    requires prior[|prior| - 1].Some?
    requires req.bypass
          || LessThanOrEqual(IncrementalTotal(usages, req.ns, req.used), prior[|prior| - 1].value.status.hard)
    ensures var crq := prior[|prior| - 1].value;
            var total := IncrementalTotal(usages, req.ns, req.used);
            var written := crq.(status := NewStatus(crq.status, req.ns, req.used, total));
            Attempt(usages, prior, req, ALONE)
            == Attempted(Accepted(total), prior + [Some(written)], usages[req.ns := req.used])
  {
    assert prior + [] == prior;
  }

  lemma SerialStepTotal(log: Log, usages: Usages, c: Commit)
    requires IsSerialStep(log, usages, c)
    ensures c.total == IncrementalTotal(usages, c.req.ns, c.req.used)
  {
  }

  lemma WrittenForIsSerial(log: Log, v: nat, id: nat, req: Request, usages: Usages)
    requires WrittenFor(log, v, req)
    requires log[v].value.status.used == IncrementalTotal(usages, req.ns, req.used)
    ensures IsSerialStep(log, usages, Commit(id, req, v, log[v].value.status.used))
  {
    var prior: Log := log[..v];
    AttemptAlone(prior, usages, req);
    assert log[..v + 1] == prior + [log[v]];
  }

  /** The version a call wrote is what its request writes when run alone on the entry it holds. */
  lemma WrittenAlone(s: State, id: nat)
    requires Safe(s) && Serial(s) && id in s.calls && s.calls[id].phase.Written?
    ensures var Call(req, _, Written(e, v, total)) := s.calls[id];
            e in s.entries && IsSerialStep(s.log, s.entries[e], Commit(id, req, v, total))
  {
    var Call(req, _, Written(e, v, total)) := s.calls[id];
    assert Knows(s, id, s.calls[id]) && PhaseOk(s.log, s.entries, s.calls[id]);
    assert s.calls[id].phase.Version() == Some(v);
    WrittenForIsSerial(s.log, v, id, req, s.entries[e]);
  }

  lemma SerialStepStays(log: Log, log': Log, usages: Usages, c: Commit)
    requires IsSerialStep(log, usages, c) && |log| <= |log'| && log'[..|log|] == log
    ensures IsSerialStep(log', usages, c)
  {
    assert log'[..c.version] == log[..c.version] && log'[..c.version + 1] == log[..c.version + 1];
  }

  lemma SerialStays(log: Log, log': Log, base: Usages, commits: seq<Commit>)
    requires CommitsAreSerial(log, base, commits) && |log| <= |log'| && log'[..|log|] == log
    ensures CommitsAreSerial(log', base, commits)
  {
    forall j | 0 <= j < |commits| ensures IsSerialStep(log', Replay(base, commits[..j]), commits[j]) {
      SerialStepStays(log, log', Replay(base, commits[..j]), commits[j]);
    }
  }

  lemma SerialExtend(log: Log, base: Usages, commits: seq<Commit>, c: Commit)
    requires CommitsAreSerial(log, base, commits) && IsSerialStep(log, Replay(base, commits), c)
    requires forall j | 0 <= j < |commits| :: commits[j].version < c.version
    ensures CommitsAreSerial(log, base, commits + [c])
  {
    assert (commits + [c])[..|commits|] == commits;
    assert forall j | 0 <= j < |commits| :: (commits + [c])[..j] == commits[..j];
  }

  lemma StepKeepsCommitsSerial(s: State, a: Action)
    requires Safe(s) && Serial(s) && Enabled(s, a)
    ensures CommitsAreSerial(NextLog(s, a), NextBase(s, a), NextCommits(s, a))
  {
    LogGrows(s, a);
    SerialStays(s.log, NextLog(s, a), s.base, s.commits);
    if a.CommitUsage? {
      var Call(req, _, phase) := s.calls[a.id];
      assert Knows(s, a.id, s.calls[a.id]);
      WrittenAlone(s, a.id);
      SerialExtend(s.log, s.base, s.commits, Commit(a.id, req, phase.wrote, phase.total));
    }
  }

  lemma ActorKnows(s: State, a: Action)
    requires OneEntry(s) && CommitsAreSerial(s.log, s.base, s.commits) && Enabled(s, a) && IsCallStep(a)
    requires Knows(s, a.id, s.calls[a.id]) && PhaseOk(s.log, s.entries, s.calls[a.id])
    ensures Knows(Apply(s, a), a.id, NextCalls(s, a)[a.id])
  {
    if a.Write? {
      forall j | 0 <= j < |s.commits| ensures s.commits[j].version < |s.log| {
        assert IsSerialStep(s.log, Replay(s.base, s.commits[..j]), s.commits[j]);
      }
    }
  }

  /** With a single entry in use, at most one call is inside the closure. */
  lemma OneHolder(s: State, id: nat, other: nat)
    requires LocksOk(s.holder, s.calls) && OneEntry(s)
    requires id in s.calls && s.calls[id].phase.Lock().Some?
    requires other in s.calls && s.calls[other].phase.Lock().Some?
    ensures id == other
  {
    assert s.calls[id].phase.Lock() == s.current == s.calls[other].phase.Lock();
  }

  lemma OnlyHolderCommits(s: State, a: Action, id: nat)
    requires LocksOk(s.holder, s.calls) && OneEntry(s) && Enabled(s, a) && (a.Sync? ==> Quiet(s))
    requires id in s.calls && s.calls[id].phase.Lock().Some?
    requires !(IsCallStep(a) && a.id == id)
    ensures NextEntries(s, a) == s.entries && NextCommits(s, a) == s.commits
  {
    forall other | other in s.calls && s.calls[other].phase.Lock().Some? ensures other == id {
      OneHolder(s, id, other);
    }
  }

  /** Nothing a call knows changes by the step of another: only the lock's holder commits. */
  lemma OthersKnow(s: State, a: Action, id: nat)
    requires LocksOk(s.holder, s.calls) && OneEntry(s) && Enabled(s, a) && (a.Sync? ==> Quiet(s))
    requires id in s.calls && Knows(s, id, s.calls[id])
    requires !(IsCallStep(a) && a.id == id)
    ensures Knows(Apply(s, a), id, s.calls[id])
  {
    if s.calls[id].phase.Lock().Some? {
      OnlyHolderCommits(s, a, id);
    }
  }

  lemma StepIsSerial(s: State, a: Action)
    requires Safe(s) && Serial(s) && Enabled(s, a) && (a.Sync? ==> Quiet(s))
    ensures Serial(Apply(s, a))
  {
    StepKeepsOneEntry(s, a);
    StepKeepsReplayed(s, a);
    StepKeepsCommitsSerial(s, a);
    var s' := Apply(s, a);
    forall id | id in s'.calls ensures Knows(s', id, s'.calls[id]) {
      if IsCallStep(a) && id == a.id {
        assert Knows(s, id, s.calls[id]) && PhaseOk(s.log, s.entries, s.calls[id]);
        ActorKnows(s, a);
      } else if id in s.calls && s'.calls[id] == s.calls[id] {
        OthersKnow(s, a, id);
      }
    }
  }

  /** Every discipline but Anything keeps rebuilds out of the calls' way. */
  lemma {:induction false} SerialThroughout(d: Discipline, s: State, actions: seq<Action>)
    requires d != Anything && Initial(s) && IsRun(d, s, actions)
    ensures Safe(After(d, s, actions)) && Serial(After(d, s, actions))
    decreases |actions|
  {
    SafeThroughout(d, s, actions);
    if actions != [] {
      var front, a := actions[..|actions| - 1], actions[|actions| - 1];
      SerialThroughout(d, s, front);
      StepIsSerial(After(d, s, front), a);
    }
  }

  /** Every rebuild in the run finds all calls before their lookup or after their unlock. */
  ghost predicate RebuildsAreQuiet(s: State, actions: seq<Action>)
    requires IsRun(Anything, s, actions)
    decreases |actions|
  {
    actions != [] ==>
      var front, a := actions[..|actions| - 1], actions[|actions| - 1];
      && RebuildsAreQuiet(s, front)
      && (a.Sync? ==> var calls := After(Anything, s, front).calls;
                      forall id | id in calls :: calls[id].phase.Waiting? || calls[id].phase.Done?)
  }

  /** The runs with atomic rebuilds are exactly those. */
  lemma {:induction false} AtomicRunIff(s: State, actions: seq<Action>)
    ensures IsRun(AtomicSync, s, actions) <==> IsRun(Anything, s, actions) && RebuildsAreQuiet(s, actions)
    ensures IsRun(AtomicSync, s, actions) ==> After(AtomicSync, s, actions) == After(Anything, s, actions)
    decreases |actions|
  {
    if actions != [] {
      AtomicRunIff(s, actions[..|actions| - 1]);
    }
  }

  // ----- The guarantees -----

  /** Whatever the interleaving, the cache is that of the admissions run one at a time in commit order since the
      last rebuild; each commit is what its request does when run alone on what the earlier ones left, and the
      versions were written in that order. */
  lemma AdmissionsAreSerial(s: State, actions: seq<Action>)
    requires Initial(s) && IsRun(AtomicSync, s, actions)
    ensures var end := After(AtomicSync, s, actions);
            && (end.current.Some? ==>
                  && end.current.value in end.entries
                  && end.entries[end.current.value] == Replay(end.base, end.commits))
            && CommitsAreSerial(end.log, end.base, end.commits)
  {
    SerialThroughout(AtomicSync, s, actions);
  }

  /** With rebuilds kept out of the calls' way, no two calls are inside the closure at all, whatever their entries. */
  lemma OneCallInside(s: State, actions: seq<Action>, id: nat, other: nat)
    requires Initial(s) && IsRun(AtomicSync, s, actions)
    requires var calls := After(AtomicSync, s, actions).calls;
             id in calls && calls[id].phase.Lock().Some? && other in calls && calls[other].phase.Lock().Some?
    ensures id == other
  {
    SerialThroughout(AtomicSync, s, actions);
    OneHolder(After(AtomicSync, s, actions), id, other);
  }

  lemma CommittedTotal(s: State, id: nat)
    requires Safe(s) && Serial(s) && id in s.calls && s.calls[id].phase.Committed?
    ensures var Committed(e, v, total) := s.calls[id].phase;
            && e in s.entries && v < |s.log| && s.log[v].Some? && s.log[v].value.status.used == total
            && Agree(total, Total(s.entries[e]))
  {
    var Call(req, _, Committed(e, v, total)) := s.calls[id];
    assert Knows(s, id, s.calls[id]) && PhaseOk(s.log, s.entries, s.calls[id]);
    var last := |s.commits| - 1;
    var before := Replay(s.base, s.commits[..last]);
    SerialStepTotal(s.log, before, s.commits[last]);
    IncrementalEqualsRecomputed(before, req.ns, req.used);
  }

  /** When a call unlocks, the cached usages of its entry sum up to the total it wrote to the status. */
  lemma UnlockSeesItsTotal(s: State, actions: seq<Action>, id: nat)
    requires Initial(s) && IsRun(AtomicSync, s, actions)
    requires Enabled(After(AtomicSync, s, actions), Unlock(id))
    ensures var end := After(AtomicSync, s, actions);
            var Committed(e, v, total) := end.calls[id].phase;
            && e in end.entries && v < |end.log| && end.log[v].Some?
            && end.log[v].value.status.used == total
            && Agree(total, Total(end.entries[e]))
  {
    SerialThroughout(AtomicSync, s, actions);
    CommittedTotal(After(AtomicSync, s, actions), id);
  }
}
