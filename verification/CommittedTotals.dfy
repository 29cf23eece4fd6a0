/** What the total a call writes is worth when rebuilds may come between any two of its steps, as the two locks let
    them: exactly when it is the sum of the entry the call commits to. */
module CommittedTotals {
  import opened Options
  import opened ResourceLists
  import opened UsageTotals
  import opened StatusAdmission
  import opened AdmissionProtocol
  import opened ProtocolSafety
  import opened SoloCalls
  import opened RebuildRaces

  /** The step rebuilds the entry `e`. */
  predicate Rebuilds(s: State, a: Action, e: nat) {
    a.Sync? && Remade(s, a).Some? && Remade(s, a).value.0 == e
  }

  /** The entry `e` was rebuilt by a step after the first `n + 1` ones. */
  ghost predicate RebuiltSince(start: State, run: seq<Action>, n: nat, e: nat)
    requires IsRun(Anything, start, run)
    decreases |run|
  {
    |run| > n + 1
    && var front, a := run[..|run| - 1], run[|run| - 1];
       RebuiltSince(start, front, n, e) || Rebuilds(After(Anything, start, front), a, e)
  }

  /** The call has its total, and has not committed yet. */
  ghost predicate HasTotal(s: State, id: nat) {
    id in s.calls && (s.calls[id].phase.Checked? || s.calls[id].phase.Written?)
  }

  /** What a call with a total did at its check. */
  ghost predicate CheckedIn(s0: State, s: State, id: nat) {
    && HasTotal(s, id) && Enabled(s0, Check(id)) && s0.calls[id].req == s.calls[id].req
    && var Call(req, _, phase) := s.calls[id];
    && s0.calls[id].phase.entry == phase.entry && phase.entry in s.entries
    && phase.total == IncrementalTotal(s0.entries[phase.entry], req.ns, req.used)
  }

  lemma CheckGivesTotal(s: State, id: nat)
    requires Enabled(s, Check(id)) && HasTotal(Apply(s, Check(id)), id)
    ensures CheckedIn(s, Apply(s, Check(id)), id)
    ensures NextEntries(s, Check(id)) == s.entries
  {
  }

  /** A step that leads to a state in which the call has its total, and is not its check, is taken in such a state. */
  lemma TotalWasThere(s: State, a: Action, id: nat)
    requires Enabled(s, a) && HasTotal(Apply(s, a), id) && a != Check(id)
    ensures HasTotal(s, id)
    ensures NextCalls(s, a)[id].req == s.calls[id].req
    ensures NextCalls(s, a)[id].phase.entry == s.calls[id].phase.entry
    ensures NextCalls(s, a)[id].phase.total == s.calls[id].phase.total
  {
  }

  /** While the call holds its entry's lock, only a rebuild changes the entry. */
  lemma OnlyRebuildsChange(s: State, a: Action, id: nat)
    requires LocksOk(s.holder, s.calls) && Enabled(s, a) && HasTotal(s, id) && HasTotal(Apply(s, a), id)
    requires s.calls[id].phase.entry in s.entries
    ensures var e := s.calls[id].phase.entry;
            e in NextEntries(s, a) && (Rebuilds(s, a, e) || NextEntries(s, a)[e] == s.entries[e])
  {
    assert s.calls[id].phase.Lock() == Some(s.calls[id].phase.entry);
    assert a.CommitUsage? ==> s.calls[a.id].phase.Lock() == Some(s.calls[a.id].phase.entry);
  }

  /** Every total stems from the last check of its call, and the entry is still as it was then unless it was rebuilt. */
  lemma {:induction false} TotalStemsFrom(start: State, run: seq<Action>, id: nat) returns (n: nat)
    requires Initial(start) && IsRun(Anything, start, run) && HasTotal(After(Anything, start, run), id)
    ensures n < |run| && run[n] == Check(id) && IsRun(Anything, start, run[..n])
    ensures var s0, s := After(Anything, start, run[..n]), After(Anything, start, run);
            && CheckedIn(s0, s, id)
            && var e := s.calls[id].phase.entry;
            && (RebuiltSince(start, run, n, e) || s.entries[e] == s0.entries[e])
    decreases |run|
  {
    var front, a := run[..|run| - 1], run[|run| - 1];
    var mid := After(Anything, start, front);
    if a == Check(id) {
      n := |run| - 1;
      CheckGivesTotal(mid, id);
    } else {
      TotalWasThere(mid, a, id);
      n := TotalStemsFrom(start, front, id);
      assert front[..n] == run[..n];
      SafeThroughout(Anything, start, front);
      OnlyRebuildsChange(mid, a, id);
    }
  }

  /** In every run, a call that commits checked its entry last at some step `n`. The total it wrote agrees with the sum
      of the entry it commits to exactly when the usages of all other namespaces there have the sums they had at that
      check; and they do unless the entry was rebuilt since. */
  lemma CommittedTotalIff(start: State, run: seq<Action>, id: nat) returns (n: nat)
    requires Initial(start) && IsRun(Anything, start, run)
    requires Enabled(After(Anything, start, run), CommitUsage(id))
    ensures n < |run| && run[n] == Check(id) && IsRun(Anything, start, run[..n])
    ensures var s0, s := After(Anything, start, run[..n]), After(Anything, start, run);
            var Call(req, _, Written(e, _, total)) := s.calls[id];
            && e in s0.entries && e in NextEntries(s, CommitUsage(id))
            && (Agree(total, Total(NextEntries(s, CommitUsage(id))[e])) <==>
                  SameSums(s0.entries[e] - {req.ns}, s.entries[e] - {req.ns}))
            && (!RebuiltSince(start, run, n, e) ==> s.entries[e] == s0.entries[e])
  {
    n := TotalStemsFrom(start, run, id);
    var s0, s := After(Anything, start, run[..n]), After(Anything, start, run);
    var Call(req, _, Written(e, _, total)) := s.calls[id];
    TotalsAgreeIff(s0.entries[e], req.ns, req.used, s.entries[e][req.ns := req.used]);
    SameSumsOfOthers(s0.entries[e], s.entries[e], req.ns, req.used);
  }

  // ----- Two calls inside -----

  /** A call looks its entry up, a rebuild drops the entry, another call gets a new one, and both take their locks. */
  function TwoLocks(run: seq<Action>, id: nat, req: Request, other: nat, req': Request, made: nat): seq<Action> {
    run + [Start(id, req)] + [Lookup(id, made)] + [Sync([], made)]
        + [Start(other, req')] + [Lookup(other, made)] + [Lock(id)] + [Lock(other)]
  }

  lemma DropFound(start: State, run: seq<Action>, s: State, id: nat, req: Request, made: nat)
    requires Reaches(Anything, start, run, s) && s.current.Some? && FreeEntry(s, s.current.value)
    requires id !in s.calls && made !in s.entries
    ensures Reaches(Anything, start, run + [Start(id, req)] + [Lookup(id, made)] + [Sync([], made)],
                    Underway(Rebuilt(s, None), id, req, Found(s.current.value)))
  {
    Extend(Anything, start, run, s, Start(id, req));
    assert Apply(s, Start(id, req)) == Underway(s, id, req, Waiting);
    Advance(Anything, start, run + [Start(id, req)], s, id, req, Waiting, Lookup(id, made));
    RebuildReaches(start, run + [Start(id, req)] + [Lookup(id, made)], s, id, req, Found(s.current.value), [], made);
  }

  lemma LockBoth(start: State, run: seq<Action>, s: State, id: nat, other: nat, req': Request, made: nat, e: nat)
    returns (end: State)
    requires Reaches(Anything, start, run, s) && s.current == None && made !in s.entries && made !in s.holder
    requires id in s.calls && s.calls[id].phase == Found(e) && other !in s.calls
    requires e in s.entries && e !in s.holder
    ensures Reaches(Anything, start,
                    run + [Start(other, req')] + [Lookup(other, made)] + [Lock(id)] + [Lock(other)], end)
    ensures id in end.calls && end.calls[id] == s.calls[id].(phase := Holding(e))
    ensures other in end.calls && end.calls[other] == Call(req', 1, Holding(made)) && made != e
  {
    Extend(Anything, start, run, s, Start(other, req'));
    var s1 := Apply(s, Start(other, req'));
    Extend(Anything, start, run + [Start(other, req')], s1, Lookup(other, made));
    var s2 := Apply(s1, Lookup(other, made));
    Extend(Anything, start, run + [Start(other, req')] + [Lookup(other, made)], s2, Lock(id));
    var s3 := Apply(s2, Lock(id));
    Extend(Anything, start, run + [Start(other, req')] + [Lookup(other, made)] + [Lock(id)], s3, Lock(other));
    end := Apply(s3, Lock(other));
  }

  /** A rebuild between a call's lookup and its lock lets two calls into the closure for the same
      ClusterResourceQuota at once, each on an entry of its own. */
  lemma TwoCallsInside(start: State, run: seq<Action>, s: State, id: nat, req: Request, other: nat, req': Request,
                       made: nat) returns (end: State)
    requires Reaches(Anything, start, run, s) && s.current.Some? && FreeEntry(s, s.current.value)
    requires id != other && id !in s.calls && other !in s.calls && made !in s.entries && made !in s.holder
    ensures Reaches(Anything, start, TwoLocks(run, id, req, other, req', made), end)
    ensures id in end.calls && end.calls[id] == Call(req, 1, Holding(s.current.value))
    ensures other in end.calls && end.calls[other] == Call(req', 1, Holding(made)) && made != s.current.value
  {
    DropFound(start, run, s, id, req, made);
    end := LockBoth(start, run + [Start(id, req)] + [Lookup(id, made)] + [Sync([], made)],
                    Underway(Rebuilt(s, None), id, req, Found(s.current.value)),
                    id, other, req', made, s.current.value);
  }
}
