/** The steps of the protocol against the attempts of the webhook: whatever the server and the other writers do during a
    request's attempts, the protocol has a run in which the call does exactly that, and ends with the same answer, the
    same versions and the same cached usages. */
module SequentialCalls {
  import opened Options
  import opened ResourceLists
  import opened UsageTotals
  import opened QuotaObjects
  import opened StatusAdmission
  import opened AdmissionProtocol
  import opened SoloCalls

  /** A step of the call other than its write and its commit changes the call, and what is still to be stored. */
  lemma CallStep(s: State, id: nat, c: Call, a: Action)
    requires s.current.Some? && FreeEntry(s, s.current.value)
    requires c.phase.HasPointer() ==> c.phase.entry == s.current.value
    requires IsCallStep(a) && a.id == id && !a.Write? && !a.CommitUsage? && Enabled(With(s, id, c), a)
    ensures var t := With(s, id, c);
            Apply(t, a) == With(s.(pending := NextPending(t, a)), id, NextCalls(t, a)[id])
  {
    NothingElseMoves(With(s, id, c), a);
    LockStep(s, id, c, a);
  }

  lemma NothingElseMoves(t: State, a: Action)
    requires Enabled(t, a) && IsCallStep(a) && !a.Write? && !a.CommitUsage? && t.current.Some?
    ensures NextLog(t, a) == t.log && NextWriters(t, a) == t.writers && NextEntries(t, a) == t.entries
    ensures NextCurrent(t, a) == t.current && NextBase(t, a) == t.base && NextCommits(t, a) == t.commits
    ensures NextLanded(t, a) == t.landed && NextPersisted(t, a) == t.persisted
  {
  }

  lemma LockStep(s: State, id: nat, c: Call, a: Action)
    requires s.current.Some? && FreeEntry(s, s.current.value)
    requires c.phase.HasPointer() ==> c.phase.entry == s.current.value
    requires IsCallStep(a) && a.id == id && Enabled(With(s, id, c), a)
    ensures var t := With(s, id, c);
            && NextHolder(t, a) == With(s, id, NextCalls(t, a)[id]).holder
            && NextCalls(t, a) == s.calls[id := NextCalls(t, a)[id]]
  {
    LockMoves(s.holder, s.current.value, id, c.phase.Lock(), NextPhase(With(s, id, c), a).Lock());
  }

  lemma LockMoves(holder: map<nat, nat>, e: nat, id: nat, from: Option<nat>, to: Option<nat>)
    requires e !in holder && (from.Some? ==> from.value == e) && (to.Some? ==> to.value == e)
    ensures Relock(if from.Some? then holder[e := id] else holder, id, from, to)
         == if to.Some? then holder[e := id] else holder
  {
  }

  lemma Take(start: State, run: seq<Action>, s: State, id: nat, c: Call, a: Action) returns (s': State, c': Call)
    requires Reaches(Anything, start, run, With(s, id, c)) && s.current.Some? && FreeEntry(s, s.current.value)
    requires c.phase.HasPointer() ==> c.phase.entry == s.current.value
    requires IsCallStep(a) && a.id == id && !a.Write? && !a.CommitUsage? && Enabled(With(s, id, c), a)
    ensures Reaches(Anything, start, run + [a], With(s', id, c'))
    ensures s' == s.(pending := s'.pending) && c' == NextCalls(With(s, id, c), a)[id]
  {
    CallStep(s, id, c, a);
    Extend(Anything, start, run, With(s, id, c), a);
    s', c' := s.(pending := NextPending(With(s, id, c), a)), NextCalls(With(s, id, c), a)[id];
  }

  /** Others write in between; the call does not notice. */
  lemma {:induction false} OthersWrite(start: State, run: seq<Action>, s: State, id: nat, c: Call,
                                       changes: seq<Option<ClusterResourceQuota>>) returns (run': seq<Action>)
    requires Reaches(Anything, start, run, With(s, id, c))
    ensures Reaches(Anything, start, run', With(s.(log := s.log + changes), id, c))
    decreases |changes|
  {
    if changes == [] {
      run' := run;
      assert s.log + changes == s.log;
    } else {
      var front, last := changes[..|changes| - 1], changes[|changes| - 1];
      run' := OthersWrite(start, run, s, id, c, front);
      var mid := With(s.(log := s.log + front), id, c);
      Extend(Anything, start, run', mid, WriteByOthers(last));
      run' := run' + [WriteByOthers(last)];
      assert s.log + changes == s.log + front + [last];
    }
  }

  /** What becomes of the call by an attempt. */
  ghost function AfterAttempt(req: Request, attempt: nat, a: Attempted): Call {
    if a.outcome.Conflict? && attempt < 5 then Call(req, attempt + 1, Waiting)
    else Call(req, attempt, Done(ResponseTo(a.outcome), if a.outcome.Accepted? then Some(|a.log| - 1) else None))
  }

  /** The state after the attempt: the entry has its usages, the versions are its versions, and the lock is free. */
  ghost predicate IsAfter(s: State, s': State, id: nat, req: Request, attempt: nat, a: Attempted) {
    && s.current.Some? && s.current.value in s.entries
    && s'.log == a.log && s'.entries == s.entries[s.current.value := a.usages]
    && s'.current == s.current && s'.holder == s.holder
    && s'.calls == s.calls[id := AfterAttempt(req, attempt, a)]
  }

  /** The write, the commit and the unlock of a call whose total was checked against the current version. */
  lemma WriteThrough(start: State, run: seq<Action>, s: State, id: nat, req: Request, attempt: nat, total: ResourceList)
    returns (run': seq<Action>, s': State)
    requires s.current.Some? && FreeEntry(s, s.current.value) && s.log[|s.log| - 1].Some?
    requires var c := Call(req, attempt, Checked(s.current.value, |s.log| - 1, total));
             Reaches(Anything, start, run, With(s, id, c))
    ensures Reaches(Anything, start, run', s')
    ensures var e, crq := s.current.value, s.log[|s.log| - 1].value;
            && s'.log == s.log + [Some(crq.(status := NewStatus(crq.status, req.ns, req.used, total)))]
            && s'.entries == s.entries[e := s.entries[e][req.ns := req.used]]
            && s'.current == s.current && s'.holder == s.holder
            && s'.calls == s.calls[id := Call(req, attempt, Done(Allowed, Some(|s.log|)))]
  {
    var e := s.current.value;
    WriteStep(s, id, req, attempt, e, total);
    CommitStep(s, id, req, attempt, e, total);
    UnlockStep(s, id, req, attempt, total);
    Extend(Anything, start, run, With(s, id, Call(req, attempt, Checked(e, |s.log| - 1, total))), Write(id));
    Extend(Anything, start, run + [Write(id)], AfterWrite(s, id, req, attempt, e, total), CommitUsage(id));
    run' := run + [Write(id)] + [CommitUsage(id)];
    Extend(Anything, start, run', AfterCommit(s, id, req, attempt, e, total), Unlock(id));
    run', s' := run' + [Unlock(id)], Admitted(s, id, req, attempt, total);
  }

  /** The call waits for its next attempt, and nobody holds the lock of its entry. */
  ghost predicate Awaits(s: State, id: nat, req: Request, attempt: nat) {
    s.current.Some? && FreeEntry(s, s.current.value) && id in s.calls && s.calls[id] == Call(req, attempt, Waiting)
  }

  /** Up to the read: looking up the entry, taking its lock, and what others write before. */
  lemma ToHolding(start: State, run: seq<Action>, s: State, id: nat, req: Request, attempt: nat, made: nat,
                  before: seq<Option<ClusterResourceQuota>>) returns (run': seq<Action>, s': State)
    requires Reaches(Anything, start, run, s) && Awaits(s, id, req, attempt) && made !in s.entries
    ensures Reaches(Anything, start, run', With(s', id, Call(req, attempt, Holding(s.current.value))))
    ensures s' == s.(log := s.log + before, pending := s'.pending)
  {
    var c := Call(req, attempt, Waiting);
    assert s.calls[id := c] == s.calls;
    assert With(s, id, c) == s;
    s', c := Take(start, run, s, id, c, Lookup(id, made));
    run' := run + [Lookup(id, made)];
    s', c := Take(start, run', s', id, c, Lock(id));
    run' := OthersWrite(start, run' + [Lock(id)], s', id, c, before);
    s' := s'.(log := s'.log + before);
  }

  /** The phase the check leads to, or an early end, for a call that reads these versions. */
  ghost function Verdict(e: nat, usages: Usages, versions: Log, req: Request, turn: Turn): Phase {
    if turn.read.ReadFails? then Done(Errored, None)
    else
      var v, total := VersionRead(versions, turn.read.age), IncrementalTotal(usages, req.ns, req.used);
      if versions[v].None? then Done(Allowed, None)
      else if !req.bypass && !LessThanOrEqual(total, versions[v].value.status.hard) then Done(Forbidden, None)
      else Checked(e, v, total)
  }

  /** And what the attempt comes to from there. */
  lemma AttemptAfter(e: nat, usages: Usages, log: Log, req: Request, turn: Turn)
    ensures var a, now: Log := Attempt(usages, log, req, turn), log + turn.before + turn.between;
            match Verdict(e, usages, log + turn.before, req, turn)
            case Done(response, _) =>
              !a.outcome.Conflict? && !a.outcome.Accepted? && ResponseTo(a.outcome) == response
              && a.log == now && a.usages == usages
            case Checked(_, v, total) =>
              && v < |now| && now[v] == (log + turn.before)[v]
              && var last := now[|now| - 1];
              && if !turn.updateFails && last.Some? && v == |now| - 1 then
                   && a.outcome == Accepted(total) && a.usages == usages[req.ns := req.used]
                   && var status := NewStatus(last.value.status, req.ns, req.used, total);
                   && a.log == now + [Some(last.value.(status := status))]
                 else
                   && a.outcome == (if turn.updateFails || last.None? then UpdateError else Conflict)
                   && a.usages == usages && a.log == now
            case _ => false
  {
  }

  /** From the lock to the read, and what others write after it. */
  lemma ReadFirst(start: State, run: seq<Action>, s: State, id: nat, req: Request, attempt: nat, turn: Turn)
    returns (run': seq<Action>, s': State, c': Call)
    requires s.current.Some? && FreeEntry(s, s.current.value)
    requires Reaches(Anything, start, run, With(s, id, Call(req, attempt, Holding(s.current.value))))
    ensures Reaches(Anything, start, run', With(s', id, c'))
    ensures s' == s.(log := s.log + turn.between, pending := s'.pending)
    ensures c' == Call(req, attempt,
                       if turn.read.ReadFails? then Done(Errored, None)
                       else if s.log[VersionRead(s.log, turn.read.age)].None? then Done(Allowed, None)
                       else Fetched(s.current.value, VersionRead(s.log, turn.read.age)))
  {
    var c := Call(req, attempt, Holding(s.current.value));
    var a := if turn.read.ReadFails? then FailRead(id) else Read(id, VersionRead(s.log, turn.read.age));
    s', c' := Take(start, run, s, id, c, a);
    run' := OthersWrite(start, run + [a], s', id, c', turn.between);
    s' := s'.(log := s'.log + turn.between);
  }

  /** And to the check or to an early end. */
  lemma ReadAndCheck(start: State, run: seq<Action>, s: State, id: nat, req: Request, attempt: nat, turn: Turn)
    returns (run': seq<Action>, s': State, c': Call)
    requires s.current.Some? && FreeEntry(s, s.current.value)
    requires Reaches(Anything, start, run, With(s, id, Call(req, attempt, Holding(s.current.value))))
    ensures Reaches(Anything, start, run', With(s', id, c'))
    ensures s' == s.(log := s.log + turn.between, pending := s'.pending)
    ensures c' == Call(req, attempt, Verdict(s.current.value, s.entries[s.current.value], s.log, req, turn))
  {
    var s1, c;
    run', s1, c := ReadFirst(start, run, s, id, req, attempt, turn);
    s', c' := s1, c;
    if c.phase.Fetched? {
      assert s1.log[c.phase.version] == s.log[c.phase.version];
      s', c' := Take(start, run', s1, id, c, Check(id));
      run' := run' + [Check(id)];
    }
  }

  ghost predicate IsAfterUpdate(s: State, s': State, id: nat, req: Request, attempt: nat, v: nat, total: ResourceList,
                                fails: bool)
    requires s.current.Some? && s.current.value in s.entries
  {
    var e, last := s.current.value, s.log[|s.log| - 1];
    && s'.current == s.current && s'.holder == s.holder
    && if !fails && last.Some? && v == |s.log| - 1 then
         && s'.log == s.log + [Some(last.value.(status := NewStatus(last.value.status, req.ns, req.used, total)))]
         && s'.entries == s.entries[e := s.entries[e][req.ns := req.used]]
         && s'.calls == s.calls[id := Call(req, attempt, Done(Allowed, Some(|s.log|)))]
       else
         && s'.log == s.log && s'.entries == s.entries
         && s'.calls == s.calls[id :=
              if fails || last.None? || attempt >= 5 then Call(req, attempt, Done(Errored, None))
              else Call(req, attempt + 1, Waiting)]
  }

  lemma UpdateEndsAttempt(s: State, s1: State, s': State, id: nat, req: Request, attempt: nat, turn: Turn,
                          v: nat, total: ResourceList)
    requires s.current.Some? && s.current.value in s.entries && attempt <= 5
    requires Verdict(s.current.value, s.entries[s.current.value], s.log + turn.before, req, turn)
          == Checked(s.current.value, v, total)
    requires s1 == s.(log := s.log + turn.before + turn.between, pending := s1.pending)
    requires IsAfterUpdate(s1, s', id, req, attempt, v, total, turn.updateFails)
    ensures IsAfter(s, s', id, req, attempt, Attempt(s.entries[s.current.value], s.log, req, turn))
  {
    AttemptAfter(s.current.value, s.entries[s.current.value], s.log, req, turn);
    assert s.entries[s.current.value := s.entries[s.current.value]] == s.entries;
  }

  lemma VerdictEndsAttempt(s: State, s1: State, id: nat, req: Request, attempt: nat, turn: Turn, c: Call)
    requires s.current.Some? && s.current.value in s.entries
    requires c.phase.Done?
          && c == Call(req, attempt,
                       Verdict(s.current.value, s.entries[s.current.value], s.log + turn.before, req, turn))
    requires s1 == s.(log := s.log + turn.before + turn.between, pending := s1.pending)
    ensures IsAfter(s, With(s1, id, c), id, req, attempt, Attempt(s.entries[s.current.value], s.log, req, turn))
  {
    AttemptAfter(s.current.value, s.entries[s.current.value], s.log, req, turn);
    assert s.entries[s.current.value := s.entries[s.current.value]] == s.entries;
  }

  lemma NoWrite(start: State, run: seq<Action>, s: State, id: nat, req: Request, attempt: nat, v: nat,
                total: ResourceList, fails: bool) returns (run': seq<Action>, s': State)
    requires s.current.Some? && FreeEntry(s, s.current.value) && v < |s.log|
    requires fails || s.log[|s.log| - 1].None? || v != |s.log| - 1
    requires Reaches(Anything, start, run, With(s, id, Call(req, attempt, Checked(s.current.value, v, total))))
    ensures Reaches(Anything, start, run', s') && IsAfterUpdate(s, s', id, req, attempt, v, total, fails)
  {
    var a := if fails || s.log[|s.log| - 1].None? then FailWrite(id) else ConflictingWrite(id);
    var s1, c1 := Take(start, run, s, id, Call(req, attempt, Checked(s.current.value, v, total)), a);
    run', s' := run + [a], With(s1, id, c1);
  }

  /** From the check to the end of the attempt. */
  lemma UpdateAndEnd(start: State, run: seq<Action>, s: State, id: nat, req: Request, attempt: nat, v: nat,
                     total: ResourceList, fails: bool) returns (run': seq<Action>, s': State)
    requires s.current.Some? && FreeEntry(s, s.current.value) && v < |s.log|
    requires Reaches(Anything, start, run, With(s, id, Call(req, attempt, Checked(s.current.value, v, total))))
    ensures Reaches(Anything, start, run', s') && IsAfterUpdate(s, s', id, req, attempt, v, total, fails)
  {
    if !fails && s.log[|s.log| - 1].Some? && v == |s.log| - 1 {
      run', s' := WriteThrough(start, run, s, id, req, attempt, total);
    } else {
      run', s' := NoWrite(start, run, s, id, req, attempt, v, total, fails);
    }
  }

  /** One attempt, whatever happens during it. */
  lemma OneAttempt(start: State, run: seq<Action>, s: State, id: nat, req: Request, attempt: nat, turn: Turn, made: nat)
    returns (run': seq<Action>, s': State)
    requires Reaches(Anything, start, run, s) && Awaits(s, id, req, attempt) && made !in s.entries && attempt <= 5
    ensures Reaches(Anything, start, run', s')
    ensures IsAfter(s, s', id, req, attempt, Attempt(s.entries[s.current.value], s.log, req, turn))
  {
    var s1, c;
    run', s1 := ToHolding(start, run, s, id, req, attempt, made, turn.before);
    run', s1, c := ReadAndCheck(start, run', s1, id, req, attempt, turn);
    if c.phase.Checked? {
      var v, total := c.phase.version, c.phase.total;
      run', s' := UpdateAndEnd(start, run', s1, id, req, attempt, v, total, turn.updateFails);
      UpdateEndsAttempt(s, s1, s', id, req, attempt, turn, v, total);
    } else {
      s' := With(s1, id, c);
      VerdictEndsAttempt(s, s1, id, req, attempt, turn, c);
    }
  }

  /** The call ended as the run of its request did, and left the versions and the cached usages it left. */
  ghost predicate EndsAs(s: State, s': State, id: nat, req: Request, attempt: nat, r: Run) {
    && s.current.Some? && s.current.value in s.entries
    && s'.log == r.log && s'.entries == s.entries[s.current.value := r.usages]
    && s'.current == s.current && s'.holder == s.holder
    && r.attempts >= 1
    && s'.calls == s.calls[id := Call(req, attempt + r.attempts - 1,
                                      Done(r.response, if r.written == [] then None else Some(r.written[0])))]
  }

  lemma LastEnds(s: State, s': State, id: nat, req: Request, attempt: nat, turns: seq<Turn>)
    requires s.current.Some? && s.current.value in s.entries && |turns| > 0 && attempt + |turns| == 6
    requires var a := Attempt(s.entries[s.current.value], s.log, req, turns[0]);
             IsAfter(s, s', id, req, attempt, a) && !(a.outcome.Conflict? && |turns| > 1)
    ensures EndsAs(s, s', id, req, attempt, RetryOnConflict(s.entries[s.current.value], s.log, req, turns))
  {
  }

  lemma RestEnds(s: State, mid: State, s': State, id: nat, req: Request, attempt: nat, turns: seq<Turn>)
    requires s.current.Some? && s.current.value in s.entries && |turns| > 1
    requires var a := Attempt(s.entries[s.current.value], s.log, req, turns[0]);
             IsAfter(s, mid, id, req, attempt, a) && a.outcome.Conflict?
    requires EndsAs(mid, s', id, req, attempt + 1,
                    RetryOnConflict(mid.entries[s.current.value], mid.log, req, turns[1..]))
    ensures EndsAs(s, s', id, req, attempt, RetryOnConflict(s.entries[s.current.value], s.log, req, turns))
  {
    assert s.calls[id := mid.calls[id]][id := s'.calls[id]] == s.calls[id := s'.calls[id]];
  }

  /** All of them. */
  lemma {:induction false} AllAttempts(start: State, run: seq<Action>, s: State, id: nat, req: Request, attempt: nat,
                                       turns: seq<Turn>, made: nat) returns (run': seq<Action>, s': State)
    requires Reaches(Anything, start, run, s) && Awaits(s, id, req, attempt) && made !in s.entries
    requires |turns| > 0 && attempt + |turns| == 6
    ensures Reaches(Anything, start, run', s')
    ensures EndsAs(s, s', id, req, attempt, RetryOnConflict(s.entries[s.current.value], s.log, req, turns))
    decreases |turns|
  {
    var a := Attempt(s.entries[s.current.value], s.log, req, turns[0]);
    run', s' := OneAttempt(start, run, s, id, req, attempt, turns[0], made);
    if a.outcome.Conflict? && |turns| > 1 {
      var mid := s';
      run', s' := AllAttempts(start, run', mid, id, req, attempt + 1, turns[1..], made);
      RestEnds(s, mid, s', id, req, attempt, turns);
    } else {
      LastEnds(s, s', id, req, attempt, turns);
    }
  }

  /** From any state of any run with the entry's lock free: whatever the server and other writers do during up to
      five attempts of a new request, the protocol has a run in which they do that and the call does what the webhook
      does. */
  lemma RequestIsARun(start: State, run: seq<Action>, s: State, id: nat, req: Request, turns: seq<Turn>, made: nat)
    returns (run': seq<Action>, s': State)
    requires Reaches(Anything, start, run, s) && s.current.Some? && FreeEntry(s, s.current.value)
    requires id !in s.calls && made !in s.entries && |turns| == 5
    ensures Reaches(Anything, start, run', s')
    ensures EndsAs(s, s', id, req, 1, RetryOnConflict(s.entries[s.current.value], s.log, req, turns))
  {
    Extend(Anything, start, run, s, Start(id, req));
    var waiting := Apply(s, Start(id, req));
    run', s' := AllAttempts(start, run + [Start(id, req)], waiting, id, req, 1, turns, made);
    assert s.calls[id := waiting.calls[id]][id := s'.calls[id]] == s.calls[id := s'.calls[id]];
  }
}
