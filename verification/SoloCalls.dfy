/** A call that nobody interrupts: where its steps lead from any state in which the entry's lock is free. */
module SoloCalls {
  import opened Options
  import opened ResourceLists
  import opened UsageTotals
  import opened QuotaObjects
  import opened StatusAdmission
  import opened AdmissionProtocol

  ghost predicate Reaches(d: Discipline, start: State, run: seq<Action>, s: State) {
    IsRun(d, start, run) && After(d, start, run) == s
  }

  lemma Extend(d: Discipline, start: State, run: seq<Action>, s: State, a: Action)
    requires Reaches(d, start, run, s) && CanAct(d, s, a)
    ensures Reaches(d, start, run + [a], Apply(s, a))
  {
    assert (run + [a])[..|run|] == run;
  }

  /** The run, and then the steps of a call up to its read, when that is current and nobody comes in between. */
  function ToRead(run: seq<Action>, id: nat, req: Request, made: nat, version: nat): seq<Action> {
    run + [Start(id, req)] + [Lookup(id, made)] + [Lock(id)] + [Read(id, version)]
  }

  /** And then the rest of its steps. */
  function Solo(run: seq<Action>, id: nat, req: Request, made: nat, version: nat): seq<Action> {
    ToRead(run, id, req, made, version) + [Check(id)] + [Write(id)] + [CommitUsage(id)] + [Unlock(id)]
  }

  /** The entry `e` is current and its lock is free. */
  predicate FreeEntry(s: State, e: nat) {
    s.current == Some(e) && e in s.entries && e !in s.holder
  }

  /** The entry's lock is free and the ClusterResourceQuota is there. */
  ghost predicate Ready(s: State) {
    s.current.Some? && FreeEntry(s, s.current.value) && s.log[|s.log| - 1].Some?
  }

  /** The total a call computes from the current entry. */
  ghost function SoloTotal(s: State, req: Request): ResourceList
    requires Ready(s)
  {
    IncrementalTotal(s.entries[s.current.value], req.ns, req.used)
  }

  /** What a call running alone is allowed: its total is within the current limits, or is not checked. */
  ghost predicate Allows(s: State, req: Request) {
    Ready(s) && (req.bypass || LessThanOrEqual(SoloTotal(s, req), s.log[|s.log| - 1].value.status.hard))
  }

  /** The given state, with the call `id` as it is in `c`. */
  function With(s: State, id: nat, c: Call): State {
    s.(calls := s.calls[id := c],
       holder := if c.phase.Lock().Some? then s.holder[c.phase.Lock().value := id] else s.holder)
  }

  /** And with the call in a phase of its first attempt. */
  function Underway(s: State, id: nat, req: Request, phase: Phase): State {
    With(s, id, Call(req, 1, phase))
  }

  /** A step of the call before its write changes nothing but its phase. */
  lemma StepBeforeWrite(s: State, id: nat, req: Request, phase: Phase, a: Action)
    requires s.current.Some? && FreeEntry(s, s.current.value)
    requires phase.HasPointer() ==> phase.entry == s.current.value
    requires a.Lookup? || a.Lock? || a.Read? || a.Check?
    requires a.id == id && Enabled(Underway(s, id, req, phase), a)
    requires NextPhase(Underway(s, id, req, phase), a).HasPointer()
    ensures Apply(Underway(s, id, req, phase), a) == Underway(s, id, req, NextPhase(Underway(s, id, req, phase), a))
  {
  }

  lemma Advance(d: Discipline, start: State, run: seq<Action>, s: State, id: nat, req: Request, phase: Phase, a: Action)
    requires s.current.Some? && FreeEntry(s, s.current.value)
    requires phase.HasPointer() ==> phase.entry == s.current.value
    requires a.Lookup? || a.Lock? || a.Read? || a.Check?
    requires a.id == id && Enabled(Underway(s, id, req, phase), a)
    requires NextPhase(Underway(s, id, req, phase), a).HasPointer()
    requires Reaches(d, start, run, Underway(s, id, req, phase))
    ensures Reaches(d, start, run + [a], Underway(s, id, req, NextPhase(Underway(s, id, req, phase), a)))
  {
    StepBeforeWrite(s, id, req, phase, a);
    Extend(d, start, run, Underway(s, id, req, phase), a);
  }

  lemma SoloCallReads(d: Discipline, start: State, run: seq<Action>, s: State, id: nat, req: Request, made: nat)
    requires Reaches(d, start, run, s)
    requires Ready(s) && id !in s.calls && made !in s.entries && Permits(d, s, Start(id, req))
    ensures var e, v := s.current.value, |s.log| - 1;
            Reaches(d, start, ToRead(run, id, req, made, v), Underway(s, id, req, Fetched(e, v)))
  {
    var e, v := s.current.value, |s.log| - 1;
    Extend(d, start, run, s, Start(id, req));
    var run1 := run + [Start(id, req)];
    assert Apply(s, Start(id, req)) == Underway(s, id, req, Waiting);
    Advance(d, start, run1, s, id, req, Waiting, Lookup(id, made));
    var run2 := run1 + [Lookup(id, made)];
    Advance(d, start, run2, s, id, req, Found(e), Lock(id));
    var run3 := run2 + [Lock(id)];
    Advance(d, start, run3, s, id, req, Holding(e), Read(id, v));
  }

  /** The state after the write of a call that holds the entry `e` and computed `total`. */
  ghost function AfterWrite(s: State, id: nat, req: Request, attempt: nat, e: nat, total: ResourceList): State
    requires s.log[|s.log| - 1].Some?
  {
    var v := |s.log|;
    var crq := s.log[v - 1].value;
    With(s.(log := s.log + [Some(crq.(status := NewStatus(crq.status, req.ns, req.used, total)))],
            writers := s.writers[v := id]),
         id, Call(req, attempt, Written(e, v, total)))
  }

  /** And after its commit, which only counts for the cache when `e` is the current entry. */
  ghost function AfterCommit(s: State, id: nat, req: Request, attempt: nat, e: nat, total: ResourceList): State
    requires s.log[|s.log| - 1].Some? && e in s.entries
  {
    var v := |s.log|;
    With(AfterWrite(s, id, req, attempt, e, total).(
           entries := s.entries[e := s.entries[e][req.ns := req.used]],
           commits := if s.current == Some(e) then s.commits + [Commit(id, req, v, total)] else s.commits,
           landed := s.landed + [id],
           pending := s.pending + {id}),
         id, Call(req, attempt, Committed(e, v, total)))
  }

  /** The state after all steps of a call that held the current entry: the total is written, the usage committed, and
      the lock free again. */
  ghost function Admitted(s: State, id: nat, req: Request, attempt: nat, total: ResourceList): State
    requires Ready(s)
  {
    AfterCommit(s, id, req, attempt, s.current.value, total).(
      holder := s.holder, calls := s.calls[id := Call(req, attempt, Done(Allowed, Some(|s.log|)))])
  }

  lemma WriteStep(s: State, id: nat, req: Request, attempt: nat, e: nat, total: ResourceList)
    requires s.log[|s.log| - 1].Some?
    ensures var checked := With(s, id, Call(req, attempt, Checked(e, |s.log| - 1, total)));
            Enabled(checked, Write(id)) && Apply(checked, Write(id)) == AfterWrite(s, id, req, attempt, e, total)
  {
  }

  lemma CommitStep(s: State, id: nat, req: Request, attempt: nat, e: nat, total: ResourceList)
    requires s.log[|s.log| - 1].Some? && e in s.entries
    ensures var written := AfterWrite(s, id, req, attempt, e, total);
            && Enabled(written, CommitUsage(id))
            && Apply(written, CommitUsage(id)) == AfterCommit(s, id, req, attempt, e, total)
  {
  }

  lemma LockReleased(holder: map<nat, nat>, e: nat, id: nat)
    requires e !in holder
    ensures Relock(holder[e := id], id, Some(e), None) == holder
  {
  }

  lemma UnlockStep(s: State, id: nat, req: Request, attempt: nat, total: ResourceList)
    requires Ready(s)
    ensures var committed := AfterCommit(s, id, req, attempt, s.current.value, total);
            Enabled(committed, Unlock(id)) && Apply(committed, Unlock(id)) == Admitted(s, id, req, attempt, total)
  {
    LockReleased(s.holder, s.current.value, id);
  }

  lemma SoloCallChecks(d: Discipline, start: State, run: seq<Action>, s: State, id: nat, req: Request, made: nat)
    requires Reaches(d, start, run, s)
    requires Allows(s, req) && id !in s.calls && made !in s.entries && Permits(d, s, Start(id, req))
    ensures var e, v := s.current.value, |s.log| - 1;
            Reaches(d, start, ToRead(run, id, req, made, v) + [Check(id)],
                    Underway(s, id, req, Checked(e, v, SoloTotal(s, req))))
  {
    SoloCallReads(d, start, run, s, id, req, made);
    var e, v := s.current.value, |s.log| - 1;
    Advance(d, start, ToRead(run, id, req, made, v), s, id, req, Fetched(e, v), Check(id));
  }

  lemma CheckedCallCommits(d: Discipline, start: State, run: seq<Action>, s: State, id: nat, req: Request, e: nat,
                           total: ResourceList)
    requires s.log[|s.log| - 1].Some? && e in s.entries
    requires Permits(d, AfterWrite(s, id, req, 1, e, total), CommitUsage(id))
    requires Reaches(d, start, run, Underway(s, id, req, Checked(e, |s.log| - 1, total)))
    ensures Reaches(d, start, run + [Write(id)] + [CommitUsage(id)], AfterCommit(s, id, req, 1, e, total))
  {
    WriteStep(s, id, req, 1, e, total);
    Extend(d, start, run, Underway(s, id, req, Checked(e, |s.log| - 1, total)), Write(id));
    CommitStep(s, id, req, 1, e, total);
    Extend(d, start, run + [Write(id)], AfterWrite(s, id, req, 1, e, total), CommitUsage(id));
  }

  /** From any state with the entry's lock free, a new call that nobody interrupts is admitted when its total is
      within the current limits: the protocol neither refuses nor blocks what a call running alone is allowed. */
  lemma SoloCallIsAdmitted(d: Discipline, start: State, run: seq<Action>, s: State, id: nat, req: Request, made: nat)
    requires Reaches(d, start, run, s)
    requires Allows(s, req) && id !in s.calls && made !in s.entries && Permits(d, s, Start(id, req))
    requires Permits(d, AfterWrite(s, id, req, 1, s.current.value, SoloTotal(s, req)), CommitUsage(id))
    ensures Reaches(d, start, Solo(run, id, req, made, |s.log| - 1), Admitted(s, id, req, 1, SoloTotal(s, req)))
  {
    var total, checked := SoloTotal(s, req), ToRead(run, id, req, made, |s.log| - 1) + [Check(id)];
    SoloCallChecks(d, start, run, s, id, req, made);
    CheckedCallCommits(d, start, checked, s, id, req, s.current.value, total);
    UnlockStep(s, id, req, 1, total);
    Extend(d, start, checked + [Write(id)] + [CommitUsage(id)], AfterCommit(s, id, req, 1, s.current.value, total),
           Unlock(id));
  }

  lemma RefuseStep(s: State, id: nat, req: Request, e: nat, v: nat)
    requires FreeEntry(s, e) && v < |s.log| && s.log[v].Some? && !req.bypass
    requires !LessThanOrEqual(IncrementalTotal(s.entries[e], req.ns, req.used), s.log[v].value.status.hard)
    ensures var fetched := Underway(s, id, req, Fetched(e, v));
            && Enabled(fetched, Check(id))
            && Apply(fetched, Check(id)) == s.(calls := s.calls[id := Call(req, 1, Done(Forbidden, None))])
  {
    assert NextHolder(Underway(s, id, req, Fetched(e, v)), Check(id)) == s.holder;
  }

  /** And refused when it is not, leaving no trace but the answer. */
  lemma SoloCallIsRefused(start: State, run: seq<Action>, s: State, id: nat, req: Request, made: nat)
    requires Reaches(Anything, start, run, s)
    requires Ready(s) && !Allows(s, req) && id !in s.calls && made !in s.entries
    ensures Reaches(Anything, start, ToRead(run, id, req, made, |s.log| - 1) + [Check(id)],
                    s.(calls := s.calls[id := Call(req, 1, Done(Forbidden, None))]))
  {
    var e, v := s.current.value, |s.log| - 1;
    SoloCallReads(Anything, start, run, s, id, req, made);
    RefuseStep(s, id, req, e, v);
    Extend(Anything, start, ToRead(run, id, req, made, v), Underway(s, id, req, Fetched(e, v)), Check(id));
  }
}
