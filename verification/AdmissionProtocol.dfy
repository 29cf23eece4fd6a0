/** All interleavings of the admission calls for one ClusterResourceQuota with each other, with writes by
    others to the API server, and with rebuilds of the cache. Every step is atomic; the steps of one call
    are the places where another call, a writer or a rebuild can come in between. */
module AdmissionProtocol {
  import opened Options
  import opened ResourceLists
  import opened UsageTotals
  import opened QuotaObjects
  import opened UsageSnapshot
  import opened StatusAdmission

  /** Where a call is. The entry is the cache object the call has a pointer to. */
  datatype Phase =
    | Waiting
    | Found(entry: nat)
    | Holding(entry: nat)
    | Fetched(entry: nat, version: nat)
    | Checked(entry: nat, version: nat, total: ResourceList)
    | Written(entry: nat, wrote: nat, total: ResourceList)
    | Committed(entry: nat, wrote: nat, total: ResourceList)
    | Done(response: Response, admitted: Option<nat>)
  {
    predicate HasPointer() {
      !Waiting? && !Done?
    }

    /** The entry whose lock the call holds: from taking it to releasing it. */
    function Lock(): Option<nat> {
      if Waiting? || Found? || Done? then None else Some(entry)
    }

    /** The version the call wrote, if it wrote. */
    function Version(): Option<nat> {
      match this
      case Written(_, v, _) => Some(v)
      case Committed(_, v, _) => Some(v)
      case Done(_, a) => a
      case _ => None
    }

    /** The call is past its commit. */
    predicate HasCommitted() {
      Committed? || (Done? && admitted.Some?)
    }
  }

  datatype Call = Call(req: Request, attempt: nat, phase: Phase)

  /** A commit to the current entry: who, and the version written for it. */
  datatype Commit = Commit(id: nat, req: Request, version: nat, total: ResourceList)

  datatype State = State(
    name: string,
    /** The versions of the ClusterResourceQuota, and which of them an admission call wrote. */
    log: Log,
    writers: map<nat, nat>,
    /** Every cache object ever made, the one now in the cache, and who holds which lock. */
    entries: map<nat, Usages>,
    current: Option<nat>,
    holder: map<nat, nat>,
    calls: map<nat, Call>,
    /** The current entry's content when it was last rebuilt or made, and the commits since. */
    base: Usages,
    commits: seq<Commit>,
    /** The calls that committed to an entry, current or not, in the order in which they did. */
    landed: seq<nat>,
    /** The usages of the labelled quotas as the API server stores them, and the allowed calls whose
        status update it has not stored yet. */
    persisted: Usages,
    pending: set<nat>)

  datatype Action =
    | Start(id: nat, req: Request)
    | Lookup(id: nat, made: nat)
    | Lock(id: nat)
    | Read(id: nat, version: nat)
    | FailRead(id: nat)
    | Check(id: nat)
    | Write(id: nat)
    | ConflictingWrite(id: nat)
    | FailWrite(id: nat)
    | CommitUsage(id: nat)
    | Unlock(id: nat)
    | WriteByOthers(obj: Option<ClusterResourceQuota>)
    | Sync(listing: seq<ResourceQuota>, made: nat)
    | Persist(id: nat)
    | Join(ns: string)
    | Leave(ns: string)

  /** The usages a listing shows for `name`; None when no quota carries its label. */
  function Listed(listing: seq<ResourceQuota>, name: string): Option<Usages> {
    var snapshot := SnapshotOf(listing, 0);
    if name in snapshot then Some(UsedOf(snapshot[name])) else None
  }

  /** What the current entry holds; nothing when there is none. */
  function CurrentUsages(s: State): Usages {
    if s.current.Some? && s.current.value in s.entries then s.entries[s.current.value] else map[]
  }

  predicate Enabled(s: State, a: Action) {
    match a
    case Start(id, _) => id !in s.calls
    case Lookup(id, made) => id in s.calls && s.calls[id].phase.Waiting? && made !in s.entries
    case Lock(id) => id in s.calls && s.calls[id].phase.Found? && s.calls[id].phase.entry !in s.holder
    case Read(id, v) => id in s.calls && s.calls[id].phase.Holding? && v < |s.log|
    case FailRead(id) => id in s.calls && s.calls[id].phase.Holding?
    case Check(id) =>
      && id in s.calls && s.calls[id].phase.Fetched?
      && s.calls[id].phase.entry in s.entries
      && s.calls[id].phase.version < |s.log| && s.log[s.calls[id].phase.version].Some?
    case Write(id) =>
      && id in s.calls && s.calls[id].phase.Checked?
      && s.calls[id].phase.version == |s.log| - 1 && s.log[|s.log| - 1].Some?
    case ConflictingWrite(id) =>
      && id in s.calls && s.calls[id].phase.Checked?
      && s.calls[id].phase.version != |s.log| - 1 && s.log[|s.log| - 1].Some?
    case FailWrite(id) => id in s.calls && s.calls[id].phase.Checked?
    case CommitUsage(id) => id in s.calls && s.calls[id].phase.Written? && s.calls[id].phase.entry in s.entries
    case Unlock(id) => id in s.calls && s.calls[id].phase.Committed?
    case WriteByOthers(_) => true
    case Sync(_, made) => made !in s.entries
    case Persist(id) => id in s.pending && id in s.calls && s.calls[id].phase.Done?
    case Join(ns) => ns !in s.persisted
    case Leave(ns) => ns in s.persisted
  }

  // ----- The state after a step, part by part -----

  /** The steps of a call that is under way. */
  predicate IsCallStep(a: Action) {
    !(a.Start? || a.WriteByOthers? || a.Sync? || a.Persist? || a.Join? || a.Leave?)
  }

  /** The phase a call's step leads to. Leaving the closure, for whatever reason, is going back to Waiting or
      being Done. */
  ghost function NextPhase(s: State, a: Action): Phase
    requires Enabled(s, a) && IsCallStep(a)
  {
    var Call(req, attempt, phase) := s.calls[a.id];
    match a
    case Lookup(_, made) => Found(if s.current.Some? then s.current.value else made)
    case Lock(_) => Holding(phase.entry)
    case Read(_, v) => if s.log[v].None? then Done(Allowed, None) else Fetched(phase.entry, v)
    case FailRead(_) => Done(Errored, None)
    case Check(_) =>
      var total := IncrementalTotal(s.entries[phase.entry], req.ns, req.used);
      if !req.bypass && !LessThanOrEqual(total, s.log[phase.version].value.status.hard) then Done(Forbidden, None)
      else Checked(phase.entry, phase.version, total)
    case Write(_) => Written(phase.entry, |s.log|, phase.total)
    case ConflictingWrite(_) => if attempt < MAX_ATTEMPTS then Waiting else Done(Errored, None)
    case FailWrite(_) => Done(Errored, None)
    case CommitUsage(_) => Committed(phase.entry, phase.wrote, phase.total)
    case Unlock(_) => Done(Allowed, Some(phase.wrote))
  }

  ghost function NextCalls(s: State, a: Action): map<nat, Call>
    requires Enabled(s, a)
  {
    if a.Start? then s.calls[a.id := Call(a.req, 1, Waiting)]
    else if IsCallStep(a) then
      var next, c := NextPhase(s, a), s.calls[a.id];
      s.calls[a.id := Call(c.req, if next.Waiting? then c.attempt + 1 else c.attempt, next)]
    else s.calls
  }

  /** The lock is taken and released with the phases. */
  function Relock(holder: map<nat, nat>, id: nat, from: Option<nat>, to: Option<nat>): map<nat, nat> {
    if from == to then holder
    else
      var released := if from.Some? then holder - {from.value} else holder;
      if to.Some? then released[to.value := id] else released
  }

  ghost function NextHolder(s: State, a: Action): map<nat, nat>
    requires Enabled(s, a)
  {
    if IsCallStep(a) then Relock(s.holder, a.id, s.calls[a.id].phase.Lock(), NextPhase(s, a).Lock()) else s.holder
  }

  ghost function NextLog(s: State, a: Action): Log
    requires Enabled(s, a)
  {
    if a.Write? then
      var Call(req, _, phase) := s.calls[a.id];
      var current := s.log[|s.log| - 1].value;
      s.log + [Some(current.(status := NewStatus(current.status, req.ns, req.used, phase.total)))]
    else if a.WriteByOthers? then s.log + [a.obj]
    else s.log
  }

  ghost function NextWriters(s: State, a: Action): map<nat, nat>
    requires Enabled(s, a)
  {
    if a.Write? then s.writers[|s.log| := a.id] else s.writers
  }

  /** The cache object that becomes the current one by a step that makes or rebuilds it. */
  function Remade(s: State, a: Action): Option<(nat, Usages)> {
    match a
    case Lookup(_, made) => if s.current.None? then Some((made, map[])) else None
    case Sync(listing, made) =>
      var listed := Listed(listing, s.name);
      if listed.Some? then Some((if s.current.Some? then s.current.value else made, listed.value)) else None
    case _ => None
  }

  ghost function NextEntries(s: State, a: Action): map<nat, Usages>
    requires Enabled(s, a)
  {
    if a.CommitUsage? then
      var Call(req, _, phase) := s.calls[a.id];
      s.entries[phase.entry := s.entries[phase.entry][req.ns := req.used]]
    else
      var remade := Remade(s, a);
      if remade.Some? then s.entries[remade.value.0 := remade.value.1] else s.entries
  }

  function NextCurrent(s: State, a: Action): Option<nat> {
    var remade := Remade(s, a);
    if remade.Some? then Some(remade.value.0) else if a.Sync? then None else s.current
  }

  function NextBase(s: State, a: Action): Usages {
    var remade := Remade(s, a);
    if remade.Some? then remade.value.1 else if a.Sync? then map[] else s.base
  }

  ghost function NextCommits(s: State, a: Action): seq<Commit>
    requires Enabled(s, a)
  {
    if Remade(s, a).Some? || a.Sync? then []
    else if a.CommitUsage? && s.current == Some(s.calls[a.id].phase.entry) then
      var Call(req, _, phase) := s.calls[a.id];
      s.commits + [Commit(a.id, req, phase.wrote, phase.total)]
    else s.commits
  }

  function NextLanded(s: State, a: Action): seq<nat> {
    if a.CommitUsage? then s.landed + [a.id] else s.landed
  }

  ghost function NextPersisted(s: State, a: Action): Usages
    requires Enabled(s, a)
  {
    match a
    case Persist(id) =>
      var req := s.calls[id].req;
      if req.ns in s.persisted then s.persisted[req.ns := req.used] else s.persisted
    case Join(ns) => s.persisted[ns := map[]]
    case Leave(ns) => s.persisted - {ns}
    case _ => s.persisted
  }

  ghost function NextPending(s: State, a: Action): set<nat>
    requires Enabled(s, a)
  {
    if a.CommitUsage? || (a.Read? && s.log[a.version].None?) then s.pending + {a.id}
    else if a.Persist? then s.pending - {a.id}
    else s.pending
  }

  ghost function Apply(s: State, a: Action): State
    requires Enabled(s, a)
  {
    State(s.name, NextLog(s, a), NextWriters(s, a), NextEntries(s, a), NextCurrent(s, a), NextHolder(s, a),
          NextCalls(s, a), NextBase(s, a), NextCommits(s, a), NextLanded(s, a), NextPersisted(s, a), NextPending(s, a))
  }

  // ----- Runs -----

  /** What is assumed of the other parties in a run. */
  datatype Discipline =
    | Anything        // every interleaving
    | AtomicSync      // no rebuild while a call is between its lookup and its unlock
    | AdmissionsOnly  // no rebuild, and no write to the status by others
    | Bounded         // the assumptions of the whole-run bound
    | LateShrinks     // these without the one about admitted updates that free something
    | LateRebuilds    // these without the one about rebuilds while an admitted update is still to be stored

  predicate Quiet(s: State) {
    forall id | id in s.calls :: !s.calls[id].phase.HasPointer()
  }

  ghost predicate Permits(d: Discipline, s: State, a: Action) {
    match d
    case Anything => true
    case AtomicSync => a.Sync? ==> Quiet(s)
    case AdmissionsOnly => !a.Sync? && !a.WriteByOthers?
    case Bounded => Disciplined(s, a) && NoLateRebuild(s, a) && NoLateShrink(s, a)
    case LateShrinks => Disciplined(s, a) && NoLateRebuild(s, a)
    case LateRebuilds => Disciplined(s, a) && NoLateShrink(s, a)
  }

  /** Requests are checked and their usages are not negative; the ClusterResourceQuota is there and its limits
      are neither lowered nor extended to new resources; a rebuild is atomic and lists what is stored; and a
      namespace's next update is admitted only once the last one is stored. */
  ghost predicate Disciplined(s: State, a: Action) {
    match a
    case Start(_, req) => !req.bypass && NonNegative(req.used)
    case WriteByOthers(obj) =>
      && obj.Some? && s.log[|s.log| - 1].Some?
      && LimitsKept(s.log[|s.log| - 1].value.status.hard, obj.value.status.hard)
    case Sync(listing, _) =>
      && Quiet(s)
      && Listed(listing, s.name) == (if s.persisted == map[] then None else Some(s.persisted))
    case CommitUsage(id) =>
      && id in s.calls
      && forall other | other in s.pending && other in s.calls :: s.calls[other].req.ns != s.calls[id].req.ns
    case _ => true
  }

  /** When the cache is rebuilt, no admitted update is still to be stored. */
  predicate NoLateRebuild(s: State, a: Action) {
    a.Sync? ==> s.pending == {}
  }

  /** When a call commits, every admitted update still to be stored uses at least what is stored. */
  ghost predicate NoLateShrink(s: State, a: Action) {
    a.CommitUsage? && a.id in s.calls && s.calls[a.id].phase.Written? && s.calls[a.id].phase.entry in s.entries ==>
      var usages := s.entries[s.calls[a.id].phase.entry];
      forall other | other in s.pending && other in s.calls ::
        Below(UsageOf(s.persisted, s.calls[other].req.ns), UsageOf(usages, s.calls[other].req.ns))
  }

  ghost predicate LimitsKept(before: ResourceList, after: ResourceList) {
    forall k | k in after :: k in before && before[k] <= after[k]
  }

  ghost predicate IsRun(d: Discipline, s: State, actions: seq<Action>)
    decreases |actions|, 0
  {
    actions == []
    || (var front := actions[..|actions| - 1];
        IsRun(d, s, front) && CanAct(d, After(d, s, front), actions[|actions| - 1]))
  }

  ghost predicate CanAct(d: Discipline, s: State, a: Action) {
    Enabled(s, a) && Permits(d, s, a)
  }

  ghost function After(d: Discipline, s: State, actions: seq<Action>): State
    requires IsRun(d, s, actions)
    decreases |actions|, 1
  {
    if actions == [] then s else Apply(After(d, s, actions[..|actions| - 1]), actions[|actions| - 1])
  }

  ghost predicate Initial(s: State) {
    && s.calls == map[] && s.holder == map[] && s.writers == map[] && s.pending == {} && s.commits == []
    && s.landed == []
    && if s.current.Some? then s.current.value in s.entries && s.base == s.entries[s.current.value] else s.base == map[]
  }
}
