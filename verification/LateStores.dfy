/** What decides whether the usages the API server stores stay within the limits, in every run whatever: exactly when no
    order of storing the admitted updates exceeds a limit, what a call would have to check before its write, and which
    runs are safe throughout. What the cache holds makes no difference to that, only the admitted requests do. */
module LateStores {
  import opened Options
  import opened ResourceLists
  import opened UsageTotals
  import opened QuotaObjects
  import opened StatusAdmission
  import opened AdmissionProtocol
  import opened ProtocolSafety
  import opened PendingUpdates
  import opened WholeRunBound
  import opened SoloCalls

  // ----- What is stored at worst -----

  ghost function MaxOf(amounts: set<int>): (m: int)
    requires exists x :: x in amounts
    ensures m in amounts && forall x | x in amounts :: x <= m
  {
    var x :| x in amounts;
    var others := amounts - {x};
    assert amounts == {x} + others;
    if exists y :: y in others then Max(x, MaxOf(others)) else x
  }

  /** The amounts of resource `k` in the admitted updates for namespace `n` still to be stored. */
  function Amounts(pending: set<nat>, calls: map<nat, Call>, n: string, k: string): set<int> {
    set id | id in pending && id in calls && calls[id].req.ns == n :: Get(calls[id].req.used, k)
  }

  /** The most of `k` that can be stored for `n`: what is, or what one of those updates asks for. */
  ghost function WorstOf(pending: set<nat>, calls: map<nat, Call>, stored: Usages, n: string, k: string): int {
    if n in stored then MaxOf({Get(stored[n], k)} + Amounts(pending, calls, n, k)) else 0
  }

  ghost function Worst(pending: set<nat>, calls: map<nat, Call>, stored: Usages, k: string): Usages {
    map n | n in stored :: map[k := WorstOf(pending, calls, stored, n, k)]
  }

  /** The most of `k` that can be stored altogether. */
  ghost function WorstSum(pending: set<nat>, calls: map<nat, Call>, stored: Usages, k: string): int {
    SumAt(Worst(pending, calls, stored, k), k)
  }

  ghost predicate RoomFor(pending: set<nat>, calls: map<nat, Call>, stored: Usages, hard: ResourceList) {
    forall k | k in hard :: WorstSum(pending, calls, stored, k) <= hard[k]
  }

  /** The worst that can be stored is within the limits. */
  ghost predicate HasRoom(s: State) {
    RoomFor(s.pending, s.calls, s.persisted, Limits(s.log))
  }

  lemma WorstAt(pending: set<nat>, calls: map<nat, Call>, stored: Usages, n: string, k: string)
    ensures Get(UsageOf(Worst(pending, calls, stored, k), n), k) == WorstOf(pending, calls, stored, n, k)
  {
  }

  lemma WorstMonotone(pending: set<nat>, calls: map<nat, Call>, stored: Usages,
                      pending': set<nat>, calls': map<nat, Call>, stored': Usages, k: string)
    requires forall n :: WorstOf(pending', calls', stored', n, k) <= WorstOf(pending, calls, stored, n, k)
    ensures WorstSum(pending', calls', stored', k) <= WorstSum(pending, calls, stored, k)
  {
    var worst, worst' := Worst(pending, calls, stored, k), Worst(pending', calls', stored', k);
    forall n ensures Get(UsageOf(worst', n), k) <= Get(UsageOf(worst, n), k) {
      WorstAt(pending, calls, stored, n, k);
      WorstAt(pending', calls', stored', n, k);
    }
    SumAtMonotone(worst', worst, k);
  }

  lemma StoredBelowWorst(pending: set<nat>, calls: map<nat, Call>, stored: Usages, k: string)
    ensures SumAt(stored, k) <= WorstSum(pending, calls, stored, k)
  {
    var worst := Worst(pending, calls, stored, k);
    forall n ensures Get(UsageOf(stored, n), k) <= Get(UsageOf(worst, n), k) {
      WorstAt(pending, calls, stored, n, k);
    }
    SumAtMonotone(stored, worst, k);
  }

  ghost predicate Raises(calls: map<nat, Call>, stored: Usages, id: nat, k: string) {
    id in calls && calls[id].req.ns in stored && Get(calls[id].req.used, k) > Get(stored[calls[id].req.ns], k)
  }

  /** Where nothing still to be stored raises `k`, the worst is what is stored. */
  lemma NothingRaises(pending: set<nat>, calls: map<nat, Call>, stored: Usages, k: string)
    requires forall id | id in pending :: !Raises(calls, stored, id, k)
    ensures WorstSum(pending, calls, stored, k) <= SumAt(stored, k)
  {
    var worst := Worst(pending, calls, stored, k);
    forall n ensures Get(UsageOf(worst, n), k) <= Get(UsageOf(stored, n), k) {
      WorstAt(pending, calls, stored, n, k);
    }
    SumAtMonotone(worst, stored, k);
  }

  /** Where something does, some update asks for the most for its namespace. */
  lemma SomeTop(pending: set<nat>, calls: map<nat, Call>, stored: Usages, id: nat, k: string) returns (top: nat)
    requires id in pending && Raises(calls, stored, id, k)
    ensures top in pending && top in calls && calls[top].req.ns == calls[id].req.ns
    ensures Get(calls[top].req.used, k) == WorstOf(pending, calls, stored, calls[top].req.ns, k)
  {
    var n := calls[id].req.ns;
    assert Get(calls[id].req.used, k) in Amounts(pending, calls, n, k);
    top :| top in pending && top in calls && calls[top].req.ns == n
           && Get(calls[top].req.used, k) == WorstOf(pending, calls, stored, n, k);
  }

  /** What is stored once the request's update was. */
  function StoreUpdate(stored: Usages, req: Request): Usages {
    if req.ns in stored then stored[req.ns := req.used] else stored
  }

  lemma StoreUpdateAt(pending: set<nat>, calls: map<nat, Call>, stored: Usages, id: nat, n: string, k: string)
    requires id in pending && id in calls
    ensures var worst := WorstOf(pending, calls, stored, n, k);
            var worst' := WorstOf(pending - {id}, calls, StoreUpdate(stored, calls[id].req), n, k);
            && worst' <= worst
            && (n != calls[id].req.ns || Get(calls[id].req.used, k) == worst ==> worst' == worst)
  {
    var ns, stored' := calls[id].req.ns, StoreUpdate(stored, calls[id].req);
    assert Amounts(pending - {id}, calls, n, k) <= Amounts(pending, calls, n, k);
    if n == ns {
      assert Get(calls[id].req.used, k) in Amounts(pending, calls, n, k);
    } else {
      forall x | x in Amounts(pending, calls, n, k) ensures x in Amounts(pending - {id}, calls, n, k) {
        var other :| other in pending && other in calls && calls[other].req.ns == n
                     && x == Get(calls[other].req.used, k);
      }
      assert Amounts(pending - {id}, calls, n, k) == Amounts(pending, calls, n, k);
    }
  }

  /** Storing an update never makes the worst worse, and leaves it as it is when it asks for the most. */
  lemma StoreUpdateKeepsWorst(pending: set<nat>, calls: map<nat, Call>, stored: Usages, id: nat, k: string)
    requires id in pending && id in calls
    ensures var req := calls[id].req;
            var worst := WorstSum(pending, calls, stored, k);
            var worst' := WorstSum(pending - {id}, calls, StoreUpdate(stored, req), k);
            && worst' <= worst
            && (Get(req.used, k) == WorstOf(pending, calls, stored, req.ns, k) ==> worst' == worst)
  {
    var stored' := StoreUpdate(stored, calls[id].req);
    forall n
      ensures WorstOf(pending - {id}, calls, stored', n, k) <= WorstOf(pending, calls, stored, n, k)
      ensures n != calls[id].req.ns || Get(calls[id].req.used, k) == WorstOf(pending, calls, stored, n, k) ==>
                WorstOf(pending - {id}, calls, stored', n, k) == WorstOf(pending, calls, stored, n, k)
    {
      StoreUpdateAt(pending, calls, stored, id, n, k);
    }
    WorstMonotone(pending, calls, stored, pending - {id}, calls, stored', k);
    if Get(calls[id].req.used, k) == WorstOf(pending, calls, stored, calls[id].req.ns, k) {
      WorstMonotone(pending - {id}, calls, stored', pending, calls, stored, k);
    }
  }

  // ----- Calls still to be stored -----

  /** Updates still to be stored are those of calls that were answered, or committed and will be. */
  ghost predicate PendingAdmitted(s: State) {
    forall id | id in s.pending :: id in s.calls && (s.calls[id].phase.HasCommitted() || s.calls[id].phase.Done?)
  }

  lemma StepKeepsAdmitted(s: State, a: Action)
    requires PendingAdmitted(s) && Enabled(s, a)
    ensures PendingAdmitted(Apply(s, a))
    ensures forall id | id in s.pending :: NextCalls(s, a)[id].req == s.calls[id].req
  {
  }

  lemma {:induction false} AdmittedThroughout(start: State, run: seq<Action>)
    requires Initial(start) && IsRun(Anything, start, run)
    ensures PendingAdmitted(After(Anything, start, run))
    decreases |run|
  {
    if run != [] {
      var front, a := run[..|run| - 1], run[|run| - 1];
      AdmittedThroughout(start, front);
      StepKeepsAdmitted(After(Anything, start, front), a);
    }
  }

  /** The worst depends on the calls only by the requests still to be stored. */
  lemma SameWorst(pending: set<nat>, calls: map<nat, Call>, calls': map<nat, Call>, stored: Usages, k: string)
    requires forall id | id in pending :: id in calls && id in calls' && calls'[id].req == calls[id].req
    ensures WorstSum(pending, calls', stored, k) == WorstSum(pending, calls, stored, k)
  {
    forall n ensures Amounts(pending, calls', n, k) == Amounts(pending, calls, n, k) {
    }
    assert Worst(pending, calls', stored, k) == Worst(pending, calls, stored, k);
  }

  lemma SameRequests(pending: set<nat>, calls: map<nat, Call>, calls': map<nat, Call>, stored: Usages,
                     hard: ResourceList)
    requires forall id | id in pending :: id in calls && id in calls' && calls'[id].req == calls[id].req
    ensures RoomFor(pending, calls', stored, hard) <==> RoomFor(pending, calls, stored, hard)
  {
    forall k ensures WorstSum(pending, calls', stored, k) == WorstSum(pending, calls, stored, k) {
      SameWorst(pending, calls, calls', stored, k);
    }
  }

  // ----- Which steps keep room -----

  /** There is room for the call's update as well. */
  ghost predicate HasRoomFor(s: State, id: nat) {
    RoomFor(s.pending + {id}, s.calls, s.persisted, Limits(s.log))
  }

  /** The step leaves room. An admission does when there was room for its update; a quota that joins, for which an
      earlier update may still be on its way, when there is room for that; the other steps that matter are quotas that
      leave, and new limits. */
  ghost predicate LeavesRoom(s: State, a: Action)
    requires Enabled(s, a)
  {
    match a
    case CommitUsage(id) => HasRoomFor(s, id)
    case Read(id, v) => s.log[v].None? ==> HasRoomFor(s, id)
    case Join(ns) => RoomFor(s.pending, s.calls, s.persisted[ns := map[]], Limits(s.log))
    case Leave(ns) => RoomFor(s.pending, s.calls, s.persisted - {ns}, Limits(s.log))
    case WriteByOthers(obj) => RoomFor(s.pending, s.calls, s.persisted, Limits(s.log + [obj]))
    case _ => true
  }

  /** A quota that stores nothing negative always leaves room. */
  lemma LeavingLeavesRoom(s: State, ns: string)
    requires HasRoom(s) && Enabled(s, Leave(ns)) && NonNegative(s.persisted[ns])
    ensures LeavesRoom(s, Leave(ns))
  {
    forall k | k in Limits(s.log) ensures WorstSum(s.pending, s.calls, s.persisted - {ns}, k) <= Limits(s.log)[k] {
      WorstMonotone(s.pending, s.calls, s.persisted, s.pending, s.calls, s.persisted - {ns}, k);
    }
  }

  lemma PersistKeepsRoom(s: State, id: nat)
    requires HasRoom(s) && Enabled(s, Persist(id))
    ensures HasRoom(Apply(s, Persist(id)))
  {
    var s' := Apply(s, Persist(id));
    assert s'.persisted == StoreUpdate(s.persisted, s.calls[id].req);
    forall k | k in Limits(s.log) ensures WorstSum(s'.pending, s'.calls, s'.persisted, k) <= Limits(s.log)[k] {
      StoreUpdateKeepsWorst(s.pending, s.calls, s.persisted, id, k);
    }
  }

  lemma LimitsAfter(s: State, a: Action)
    requires Enabled(s, a)
    ensures Limits(NextLog(s, a)) == if a.WriteByOthers? then Limits(s.log + [a.obj]) else Limits(s.log)
  {
  }

  /** From a state with room, every step other than storing an update leads to one exactly when it leaves room. */
  lemma OtherStepHasRoomIff(s: State, a: Action)
    requires PendingAdmitted(s) && HasRoom(s) && Enabled(s, a) && !a.Persist?
    ensures HasRoom(Apply(s, a)) <==> LeavesRoom(s, a)
  {
    var s' := Apply(s, a);
    StepKeepsAdmitted(s, a);
    LimitsAfter(s, a);
    assert forall id | id in s'.pending :: id in s.calls && id in s'.calls && s'.calls[id].req == s.calls[id].req;
    SameRequests(s'.pending, s.calls, s'.calls, s'.persisted, Limits(s'.log));
  }

  lemma StepHasRoomIff(s: State, a: Action)
    requires PendingAdmitted(s) && HasRoom(s) && Enabled(s, a)
    ensures HasRoom(Apply(s, a)) <==> LeavesRoom(s, a)
  {
    if a.Persist? {
      PersistKeepsRoom(s, a.id);
    } else {
      OtherStepHasRoomIff(s, a);
    }
  }

  // ----- Any order of storing -----

  /** Nothing but answering calls that committed, and storing what was admitted. */
  predicate Settles(actions: seq<Action>) {
    forall i | 0 <= i < |actions| :: actions[i].Unlock? || actions[i].Persist?
  }

  ghost predicate StoredWithinLimits(s: State) {
    forall k | k in Limits(s.log) :: SumAt(s.persisted, k) <= Limits(s.log)[k]
  }

  /** In whatever order the admitted updates are stored, and however many of them, the limits hold. */
  ghost predicate AnyStoreOrderIsWithin(s: State) {
    forall more | Settles(more) && IsRun(Anything, s, more) :: StoredWithinLimits(After(Anything, s, more))
  }

  lemma {:induction false} Continue(d: Discipline, start: State, run: seq<Action>, s: State, more: seq<Action>)
    requires Reaches(d, start, run, s) && IsRun(d, s, more)
    ensures Reaches(d, start, run + more, After(d, s, more))
    decreases |more|
  {
    if more == [] {
      assert run + more == run;
    } else {
      var front, a := more[..|more| - 1], more[|more| - 1];
      Continue(d, start, run, s, front);
      Extend(d, start, run + front, After(d, s, front), a);
      assert run + more == run + front + [a];
    }
  }

  lemma RoomIsWithinLimits(s: State)
    requires HasRoom(s)
    ensures StoredWithinLimits(s)
  {
    forall k | k in Limits(s.log) ensures SumAt(s.persisted, k) <= Limits(s.log)[k] {
      StoredBelowWorst(s.pending, s.calls, s.persisted, k);
    }
  }

  lemma {:induction false} SettlingKeepsRoom(s: State, more: seq<Action>)
    requires PendingAdmitted(s) && HasRoom(s) && Settles(more) && IsRun(Anything, s, more)
    ensures PendingAdmitted(After(Anything, s, more)) && HasRoom(After(Anything, s, more))
    decreases |more|
  {
    if more != [] {
      var front, a := more[..|more| - 1], more[|more| - 1];
      SettlingKeepsRoom(s, front);
      StepKeepsAdmitted(After(Anything, s, front), a);
      StepHasRoomIff(After(Anything, s, front), a);
    }
  }

  /** A call still to be stored is answered, if it is not yet. */
  lemma AnswerOne(s: State, id: nat) returns (more: seq<Action>, end: State)
    requires PendingAdmitted(s) && id in s.pending
    ensures Settles(more) && Reaches(Anything, s, more, end) && PendingAdmitted(end) && Enabled(end, Persist(id))
    ensures end.log == s.log && end.pending == s.pending && end.persisted == s.persisted
    ensures forall other | other in s.pending :: end.calls[other].req == s.calls[other].req
  {
    more, end := [], s;
    if s.calls[id].phase.Committed? {
      Extend(Anything, s, [], s, Unlock(id));
      StepKeepsAdmitted(s, Unlock(id));
      more, end := [] + [Unlock(id)], Apply(s, Unlock(id));
    }
  }

  /** And then its update is stored. */
  lemma SettleOne(s: State, id: nat) returns (more: seq<Action>, end: State)
    requires PendingAdmitted(s) && id in s.pending
    ensures Settles(more) && Reaches(Anything, s, more, end) && PendingAdmitted(end)
    ensures end.log == s.log && end.pending == s.pending - {id}
    ensures end.persisted == StoreUpdate(s.persisted, s.calls[id].req)
    ensures forall other | other in s.pending :: other in end.calls && end.calls[other].req == s.calls[other].req
  {
    more, end := AnswerOne(s, id);
    Extend(Anything, s, more, end, Persist(id));
    StepKeepsAdmitted(end, Persist(id));
    more, end := more + [Persist(id)], Apply(end, Persist(id));
  }

  /** Storing an update that asks for the most of resource `k` leaves the worst for it as it is. */
  lemma StoreTop(s: State, id: nat, k: string) returns (more: seq<Action>, end: State)
    requires PendingAdmitted(s) && id in s.pending && Raises(s.calls, s.persisted, id, k)
    ensures Settles(more) && Reaches(Anything, s, more, end) && PendingAdmitted(end)
    ensures end.log == s.log && |end.pending| < |s.pending|
    ensures WorstSum(end.pending, end.calls, end.persisted, k) == WorstSum(s.pending, s.calls, s.persisted, k)
  {
    var top := SomeTop(s.pending, s.calls, s.persisted, id, k);
    more, end := SettleOne(s, top);
    StoreUpdateKeepsWorst(s.pending, s.calls, s.persisted, top, k);
    SameWorst(end.pending, s.calls, end.calls, end.persisted, k);
  }

  /** Storing just the updates that ask for the most of resource `k` reaches the worst for it. */
  lemma {:induction false} SomeOrderReachesWorst(s: State, k: string) returns (more: seq<Action>, end: State)
    requires PendingAdmitted(s)
    ensures Settles(more) && Reaches(Anything, s, more, end) && end.log == s.log
    ensures WorstSum(s.pending, s.calls, s.persisted, k) <= SumAt(end.persisted, k)
    decreases |s.pending|
  {
    if id :| id in s.pending && Raises(s.calls, s.persisted, id, k) {
      var first, mid := StoreTop(s, id, k);
      more, end := SomeOrderReachesWorst(mid, k);
      Continue(Anything, s, first, mid, more);
      more := first + more;
    } else {
      NothingRaises(s.pending, s.calls, s.persisted, k);
      more, end := [], s;
    }
  }

  lemma StateIsWithinIff(s: State)
    requires PendingAdmitted(s)
    ensures AnyStoreOrderIsWithin(s) <==> HasRoom(s)
  {
    if HasRoom(s) {
      forall more | Settles(more) && IsRun(Anything, s, more) ensures StoredWithinLimits(After(Anything, s, more)) {
        SettlingKeepsRoom(s, more);
        RoomIsWithinLimits(After(Anything, s, more));
      }
    } else {
      var k :| k in Limits(s.log) && WorstSum(s.pending, s.calls, s.persisted, k) > Limits(s.log)[k];
      var more, end := SomeOrderReachesWorst(s, k);
      assert !StoredWithinLimits(After(Anything, s, more));
    }
  }

  /** In every state of every run: whatever the order in which the API server stores the admitted updates, the stored
      usages stay within the limits, exactly when the largest amounts among what is stored for a quota and what the
      updates for it that are still to be stored ask for sum up to at most the limits. */
  lemma AnyStoreOrderIff(start: State, run: seq<Action>)
    requires Initial(start) && IsRun(Anything, start, run)
    ensures AnyStoreOrderIsWithin(After(Anything, start, run)) <==> HasRoom(After(Anything, start, run))
  {
    AdmittedThroughout(start, run);
    StateIsWithinIff(After(Anything, start, run));
  }

  // ----- What a call would have to check -----

  lemma WriteThenCommit(s: State, id: nat)
    requires Enabled(s, Write(id)) && s.calls[id].phase.entry in s.entries && PendingAdmitted(s)
    ensures var written := Apply(s, Write(id));
            && Enabled(written, CommitUsage(id)) && PendingAdmitted(Apply(written, CommitUsage(id)))
            && (HasRoom(Apply(written, CommitUsage(id))) <==> HasRoomFor(s, id))
  {
    var written := Apply(s, Write(id));
    var end := Apply(written, CommitUsage(id));
    StepKeepsAdmitted(s, Write(id));
    StepKeepsAdmitted(written, CommitUsage(id));
    LimitsAfter(s, Write(id));
    assert end.pending == s.pending + {id} && end.persisted == s.persisted && end.log == written.log;
    SameRequests(end.pending, s.calls, end.calls, s.persisted, Limits(s.log));
  }

  /** What decides is known before the write: once a call wrote and committed, no order of storing the admitted updates
      exceeds a limit exactly when there was room for its update before. */
  lemma WriteIsSafeIff(start: State, run: seq<Action>, id: nat)
    requires Initial(start) && IsRun(Anything, start, run)
    requires Enabled(After(Anything, start, run), Write(id))
    ensures var run' := run + [Write(id)] + [CommitUsage(id)];
            && IsRun(Anything, start, run')
            && (AnyStoreOrderIsWithin(After(Anything, start, run')) <==> HasRoomFor(After(Anything, start, run), id))
  {
    var s := After(Anything, start, run);
    SafeThroughout(Anything, start, run);
    assert PhaseOk(s.log, s.entries, s.calls[id]);
    AdmittedThroughout(start, run);
    WriteThenCommit(s, id);
    Extend(Anything, start, run, s, Write(id));
    Extend(Anything, start, run + [Write(id)], Apply(s, Write(id)), CommitUsage(id));
    StateIsWithinIff(Apply(Apply(s, Write(id)), CommitUsage(id)));
  }

  // ----- Which runs are safe -----

  ghost predicate EachLeavesRoom(start: State, run: seq<Action>)
    requires IsRun(Anything, start, run)
    decreases |run|
  {
    run != [] ==>
      var front := run[..|run| - 1];
      EachLeavesRoom(start, front) && LeavesRoom(After(Anything, start, front), run[|run| - 1])
  }

  /** In every state of the run, no order of storing the admitted updates exceeds a limit. */
  ghost predicate WithinThroughout(start: State, run: seq<Action>)
    requires IsRun(Anything, start, run)
    decreases |run|
  {
    AnyStoreOrderIsWithin(After(Anything, start, run)) && (run != [] ==> WithinThroughout(start, run[..|run| - 1]))
  }

  lemma StartHasRoomIff(start: State)
    requires Initial(start)
    ensures HasRoom(start) <==> StoredWithinLimits(start)
  {
    forall k ensures WorstSum({}, start.calls, start.persisted, k) == SumAt(start.persisted, k) {
      NothingRaises({}, start.calls, start.persisted, k);
      StoredBelowWorst({}, start.calls, start.persisted, k);
    }
  }

  /** Any run at all is safe throughout, in whatever order the admitted updates are stored at any moment of it, exactly
      when it starts within the limits and each of its steps leaves room. */
  lemma {:induction false} RunIsWithinIff(start: State, run: seq<Action>)
    requires Initial(start) && IsRun(Anything, start, run)
    ensures WithinThroughout(start, run) <==> StoredWithinLimits(start) && EachLeavesRoom(start, run)
    decreases |run|
  {
    AnyStoreOrderIff(start, run);
    if run == [] {
      StartHasRoomIff(start);
    } else {
      var front, a := run[..|run| - 1], run[|run| - 1];
      RunIsWithinIff(start, front);
      AdmittedThroughout(start, front);
      AnyStoreOrderIff(start, front);
      if HasRoom(After(Anything, start, front)) {
        StepHasRoomIff(After(Anything, start, front), a);
      }
    }
  }

  // ----- Disciplined runs are safe -----

  lemma {:induction false} IsAnyRun(d: Discipline, start: State, run: seq<Action>)
    requires IsRun(d, start, run)
    ensures IsRun(Anything, start, run) && After(Anything, start, run) == After(d, start, run)
    decreases |run|
  {
    if run != [] {
      IsAnyRun(d, start, run[..|run| - 1]);
    }
  }

  lemma BoundHasRoom(s: State)
    requires Orderly(s) && Bound(s)
    ensures HasRoom(s)
  {
    forall k | k in Limits(s.log) ensures WorstSum(s.pending, s.calls, s.persisted, k) <= Limits(s.log)[k] {
      UpperCoversWorst(s.pending, s.calls, CurrentUsages(s), s.persisted, k);
    }
  }

  lemma UpperCoversWorst(pending: set<nat>, calls: map<nat, Call>, cached: Usages, stored: Usages, k: string)
    requires PendingOk(pending, calls, cached)
    ensures WorstSum(pending, calls, stored, k) <= SumAt(Upper(cached, stored), k)
  {
    var worst, upper := Worst(pending, calls, stored, k), Upper(cached, stored);
    forall n ensures Get(UsageOf(worst, n), k) <= Get(UsageOf(upper, n), k) {
      WorstAt(pending, calls, stored, n, k);
      UpperAt(cached, stored, n, k);
    }
    SumAtMonotone(worst, upper, k);
  }

  /** The runs of the whole-run bound are among the safe ones: each of their steps leaves room. */
  lemma {:induction false} BoundedRunsLeaveRoom(start: State, run: seq<Action>)
    requires BoundedStart(start) && IsRun(Bounded, start, run)
    ensures IsRun(Anything, start, run) && WithinThroughout(start, run) && EachLeavesRoom(start, run)
    decreases |run|
  {
    IsAnyRun(Bounded, start, run);
    BoundThroughout(start, run);
    OrderlyThroughout(start, run);
    BoundHasRoom(After(Bounded, start, run));
    AnyStoreOrderIff(start, run);
    if run != [] {
      BoundedRunsLeaveRoom(start, run[..|run| - 1]);
    }
    RunIsWithinIff(start, run);
  }
}
