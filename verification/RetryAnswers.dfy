/** What a request is answered: each end an attempt can have, told from what the server did during it, and that it is
    exactly the conflicts that are retried. */
module RetryAnswers {
  import opened Options
  import opened ResourceLists
  import opened UsageTotals
  import opened QuotaObjects
  import opened StatusAdmission

  // ----- One attempt -----

  /** The usages with the request's put in stay within the limits, on every limited resource that they or the cached
      ones count. */
  ghost predicate Fits(usages: Usages, req: Request, hard: ResourceList) {
    forall k | k in hard && (k in KeysOf(usages) || k in req.used) :: SumAt(usages[req.ns := req.used], k) <= hard[k]
  }

  lemma FitsIff(usages: Usages, req: Request, hard: ResourceList)
    ensures Fits(usages, req, hard) <==> LessThanOrEqual(IncrementalTotal(usages, req.ns, req.used), hard)
  {
    var total := IncrementalTotal(usages, req.ns, req.used);
    IncrementalEqualsRecomputed(usages, req.ns, req.used);
    forall k | k in hard && k in total
      ensures k in Exceeded(total, hard) <==> SumAt(usages[req.ns := req.used], k) > hard[k]
    {
      IncrementalAt(usages, req.ns, req.used, k);
    }
    assert Fits(usages, req, hard) ==> Exceeded(total, hard) == {};
  }

  /** The versions there are when the attempt reads, and when it writes. */
  ghost function AtRead(log: Log, turn: Turn): Log {
    log + turn.before
  }

  ghost function AtWrite(log: Log, turn: Turn): Log {
    log + turn.before + turn.between
  }

  /** The attempt reads the ClusterResourceQuota at version `v`. */
  ghost predicate Reads(log: Log, turn: Turn, v: nat) {
    turn.read.VersionsOld? && v == VersionRead(AtRead(log, turn), turn.read.age) && AtRead(log, turn)[v].Some?
  }

  /** It reads it, and the request is within the limits it reads, or not checked. */
  ghost predicate Passes(usages: Usages, log: Log, req: Request, turn: Turn, v: nat) {
    Reads(log, turn, v) && (req.bypass || Fits(usages, req, AtRead(log, turn)[v].value.status.hard))
  }

  /** The status update reaches the server, which still has the object. */
  ghost predicate Updates(log: Log, turn: Turn) {
    !turn.updateFails && AtWrite(log, turn)[|AtWrite(log, turn)| - 1].Some?
  }

  /** The attempt ends in a conflict: it passes, and writes on a version that is no longer the current one. */
  ghost predicate Conflicts(usages: Usages, log: Log, req: Request, turn: Turn) {
    exists v :: Passes(usages, log, req, turn, v) && Updates(log, turn) && v != |AtWrite(log, turn)| - 1
  }

  /** The attempt passes, and writes on the current version. */
  ghost predicate Succeeds(usages: Usages, log: Log, req: Request, turn: Turn) {
    Passes(usages, log, req, turn, |AtWrite(log, turn)| - 1) && Updates(log, turn)
  }

  /** The amounts a refusal names: for exactly the resources that are exceeded, what the request asks for more, what was
      used, and the limit. */
  ghost predicate Names(outcome: Outcome, usages: Usages, req: Request, hard: ResourceList)
    requires outcome.Exceeds?
  {
    var Exceeds(requested, used, limited) := outcome;
    && (forall k :: k in limited <==>
          k in hard && (k in KeysOf(usages) || k in req.used) && SumAt(usages[req.ns := req.used], k) > hard[k])
    && forall k | k in limited ::
         && limited[k] == hard[k] && Get(used, k) == SumAt(usages, k)
         && Get(requested, k) == Get(req.used, k) - Get(UsageOf(usages, req.ns), k)
  }

  lemma RefusalNames(usages: Usages, req: Request, hard: ResourceList)
    ensures var names := Exceeded(IncrementalTotal(usages, req.ns, req.used), hard);
            var delta := Subtract(req.used, UsageOf(usages, req.ns));
            Names(Exceeds(Mask(delta, names), Mask(Total(usages), names), Mask(hard, names)), usages, req, hard)
  {
    var total := IncrementalTotal(usages, req.ns, req.used);
    var names := Exceeded(total, hard);
    IncrementalEqualsRecomputed(usages, req.ns, req.used);
    forall k ensures k in names <==>
        k in hard && (k in KeysOf(usages) || k in req.used) && SumAt(usages[req.ns := req.used], k) > hard[k]
    {
      IncrementalAt(usages, req.ns, req.used, k);
    }
    forall k | k in names
      ensures Get(Mask(Total(usages), names), k) == SumAt(usages, k)
      ensures Get(Mask(Subtract(req.used, UsageOf(usages, req.ns)), names), k)
           == Get(req.used, k) - Get(UsageOf(usages, req.ns), k)
    {
      TotalAt(usages, k);
    }
  }

  /** Each end of an attempt, and when it comes to it. */
  lemma AttemptEnds(usages: Usages, log: Log, req: Request, turn: Turn)
    ensures var outcome := Attempt(usages, log, req, turn).outcome;
            && (outcome.ReadError? <==> turn.read.ReadFails?)
            && (outcome.NotFound? <==> turn.read.VersionsOld? && forall v :: !Reads(log, turn, v))
            && (outcome.Exceeds? <==> exists v :: Reads(log, turn, v) && !Passes(usages, log, req, turn, v))
            && (outcome.UpdateError? <==> !Updates(log, turn) && exists v :: Passes(usages, log, req, turn, v))
            && (outcome.Conflict? <==> Conflicts(usages, log, req, turn))
            && (outcome.Accepted? <==> Succeeds(usages, log, req, turn))
  {
    if turn.read.VersionsOld? {
      var v := VersionRead(AtRead(log, turn), turn.read.age);
      assert AtRead(log, turn)[v].Some? <==> Reads(log, turn, v);
      if AtRead(log, turn)[v].Some? {
        var hard := AtRead(log, turn)[v].value.status.hard;
        FitsIff(usages, req, hard);
        assert Passes(usages, log, req, turn, v) <==> req.bypass || Fits(usages, req, hard);
      }
    }
  }

  /** And a refusal names the right amounts. */
  lemma RefusalsName(usages: Usages, log: Log, req: Request, turn: Turn) returns (v: nat)
    requires Attempt(usages, log, req, turn).outcome.Exceeds?
    ensures Reads(log, turn, v)
    ensures Names(Attempt(usages, log, req, turn).outcome, usages, req, AtRead(log, turn)[v].value.status.hard)
  {
    v := VersionRead(AtRead(log, turn), turn.read.age);
    RefusalNames(usages, req, AtRead(log, turn)[v].value.status.hard);
  }

  // ----- All of them -----

  /** Attempt `k` ends in a conflict; the attempts before it, which did as well, wrote nothing. */
  ghost predicate ConflictsAt(usages: Usages, log: Log, req: Request, turns: seq<Turn>, k: nat)
    requires k < |turns|
  {
    Conflicts(usages, AfterOthers(log, turns, k), req, turns[k])
  }

  /** The answer to an attempt that does not end in a conflict. */
  ghost predicate IsAnswer(response: Response, usages: Usages, log: Log, req: Request, turn: Turn) {
    && (response == Allowed <==>
          Succeeds(usages, log, req, turn) || (turn.read.VersionsOld? && forall v :: !Reads(log, turn, v)))
    && (response == Forbidden <==> exists v :: Reads(log, turn, v) && !Passes(usages, log, req, turn, v))
    && (response == Errored <==>
          turn.read.ReadFails? || (!Updates(log, turn) && exists v :: Passes(usages, log, req, turn, v)))
  }

  /** A request is attempted again exactly as long as its attempts end in conflicts, and gets the answer to the first
      one that does not: allowed when it wrote or there is no ClusterResourceQuota, forbidden above the limits, and an
      error when the read or the update failed. When all attempts end in conflicts, the answer is an error. */
  lemma {:induction false} AnswersFirstWithoutConflict(usages: Usages, log: Log, req: Request, turns: seq<Turn>, k: nat)
    requires |turns| > 0 && k <= |turns|
    requires forall j | 0 <= j < k :: ConflictsAt(usages, log, req, turns, j)
    requires k < |turns| ==> !ConflictsAt(usages, log, req, turns, k)
    ensures var run := RetryOnConflict(usages, log, req, turns);
            if k == |turns| then run.response == Errored && run.attempts == |turns| && run.written == []
            else
              && run.attempts == k + 1
              && IsAnswer(run.response, usages, AfterOthers(log, turns, k), req, turns[k])
              && (run.written == [] <==> !Succeeds(usages, AfterOthers(log, turns, k), req, turns[k]))
    decreases |turns|
  {
    AttemptEnds(usages, log, req, turns[0]);
    AttemptWritesOrNot(usages, log, req, turns[0]);
    if k > 0 {
      assert ConflictsAt(usages, log, req, turns, 0);
      if |turns| > 1 {
        var log', rest := Attempt(usages, log, req, turns[0]).log, turns[1..];
        assert log' == log + turns[0].before + turns[0].between;
        forall j | 0 <= j < |rest|
          ensures ConflictsAt(usages, log', req, rest, j) <==> ConflictsAt(usages, log, req, turns, j + 1)
        {
        }
        AnswersFirstWithoutConflict(usages, log', req, rest, k - 1);
      }
    }
  }
}
