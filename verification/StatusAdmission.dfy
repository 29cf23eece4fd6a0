/** The webhook that admits status updates of labelled ResourceQuotas: one attempt (`Validate`), and the
    bounded retry on conflicts (`Handle`), each proved against a function on values. */
module StatusAdmission {
  import opened Options
  import opened ResourceLists
  import opened UsageTotals
  import opened QuotaObjects
  import opened UsageSnapshot
  import opened UsageRecords
  import opened QuotaCache

  // ----- The API server -----

  /** All versions of one ClusterResourceQuota: the index is the resource version, the last one is current,
      and None is a version at which the object does not exist. */
  type Log = log: seq<Option<ClusterResourceQuota>> | |log| > 0 witness [None]

  datatype UpdateResult = Updated | Conflicted | NotUpdated

  class CrqStore {
    var log: Log

    constructor (crq: Option<ClusterResourceQuota>)
      ensures log == [crq]
    {
      log := [crq];
    }

    /** Writes by others: reconciles, spec edits, deletion, other admissions. */
    method WrittenByOthers(changes: seq<Option<ClusterResourceQuota>>)
      modifies this
      ensures log == old(log) + changes
    {
      log := log + changes;
    }

    /** Optimistic concurrency: the status is written only when `version` is current. */
    method UpdateStatus(version: nat, status: CrqStatus, fails: bool) returns (result: UpdateResult)
      modifies this
      ensures result.Updated? <==> !fails && version == |old(log)| - 1 && old(log)[version].Some?
      ensures log == if result.Updated? then old(log) + [Some(old(log)[version].value.(status := status))] else old(log)
      ensures result.Conflicted? <==> !fails && version != |old(log)| - 1 && old(log)[|old(log)| - 1].Some?
    {
      var current := log[|log| - 1];
      if fails || current.None? {
        return NotUpdated;
      }
      if version != |log| - 1 {
        return Conflicted;
      }
      log := log + [Some(current.value.(status := status))];
      return Updated;
    }
  }

  /** What the server does during one attempt: others write before the read and between the read and the
      update, the read may fail or be some versions old, and the update may fail without writing. */
  datatype Turn = Turn(before: seq<Option<ClusterResourceQuota>>, read: Reading,
                       between: seq<Option<ClusterResourceQuota>>, updateFails: bool)

  datatype Reading = ReadFails | VersionsOld(age: nat)

  /** The version a read `age` versions behind the current one gets. */
  function VersionRead(log: Log, age: nat): (v: nat)
    ensures v < |log|
  {
    if age < |log| then |log| - 1 - age else 0
  }

  /** So every version there is can be what a read gets. */
  lemma EveryVersionCanBeRead(log: Log, v: nat)
    requires v < |log|
    ensures exists age :: VersionRead(log, age) == v
  {
    assert VersionRead(log, |log| - 1 - v) == v;
  }

  // ----- The status update -----

  /** Sets the usage of the first item with the name, or adds an item at the end. */
  function Upsert(items: seq<NamespaceUsage>, ns: string, used: ResourceList): seq<NamespaceUsage> {
    if items == [] then [NamespaceUsage(ns, used)]
    else if items[0].name == ns then [NamespaceUsage(ns, used)] + items[1..]
    else [items[0]] + Upsert(items[1..], ns, used)
  }

  lemma {:induction false} UpsertAtIndex(items: seq<NamespaceUsage>, ns: string, used: ResourceList, i: nat)
    requires i <= |items|
    requires forall j | 0 <= j < i :: items[j].name != ns
    requires i < |items| ==> items[i].name == ns
    ensures Upsert(items, ns, used)
         == if i < |items| then items[i := NamespaceUsage(ns, used)] else items + [NamespaceUsage(ns, used)]
  {
    if items != [] && i > 0 {
      UpsertAtIndex(items[1..], ns, used, i - 1);
    }
  }

  function NewStatus(status: CrqStatus, ns: string, used: ResourceList, total: ResourceList): CrqStatus {
    CrqStatus(status.hard, total, Upsert(status.namespaces, ns, used))
  }

  /** The object a read fills in. */
  class FetchedQuota {
    const version: nat
    const hard: ResourceList
    var used: ResourceList
    var namespaces: seq<NamespaceUsage>

    constructor (version: nat, status: CrqStatus)
      ensures this.version == version && Status() == status
    {
      this.version := version;
      hard, used, namespaces := status.hard, status.used, status.namespaces;
    }

    function Status(): CrqStatus
      reads this
    {
      CrqStatus(hard, used, namespaces)
    }

    method UpdateStatusUsed(ns: string, usage: ResourceList, newtotal: ResourceList)
      modifies this
      ensures Status() == NewStatus(old(Status()), ns, usage, newtotal)
    {
      used := newtotal;
      var i := 0;
      while i < |namespaces| && namespaces[i].name != ns
        invariant 0 <= i <= |namespaces|
        invariant forall j | 0 <= j < i :: namespaces[j].name != ns
      {
        i := i + 1;
      }
      UpsertAtIndex(namespaces, ns, usage, i);
      if i == |namespaces| {
        namespaces := namespaces + [NamespaceUsage(ns, usage)];
      } else {
        namespaces := namespaces[i := NamespaceUsage(ns, usage)];
      }
    }
  }

  // ----- One attempt -----

  /** A status update to admit; `bypass` is set for users whose updates are not checked. */
  datatype Request = Request(ns: string, used: ResourceList, bypass: bool)

  datatype Outcome =
    | NotFound
    | ReadError
    | Exceeds(requested: ResourceList, used: ResourceList, limited: ResourceList)
    | Conflict
    | UpdateError
    | Accepted(total: ResourceList)

  datatype Attempted = Attempted(outcome: Outcome, log: Log, usages: Usages)

  /** What one attempt does to the versions and to the cached usages. */
  ghost function Attempt(usages: Usages, log: Log, req: Request, turn: Turn): Attempted {
    var log1: Log := log + turn.before;
    var log2: Log := log1 + turn.between;
    if turn.read.ReadFails? then Attempted(ReadError, log2, usages)
    else
      var v := VersionRead(log1, turn.read.age);
      var total := IncrementalTotal(usages, req.ns, req.used);
      if log1[v].None? then Attempted(NotFound, log2, usages)
      else if !req.bypass && !LessThanOrEqual(total, log1[v].value.status.hard) then
        var hard := log1[v].value.status.hard;
        var names := Exceeded(total, hard);
        var delta := Subtract(req.used, UsageOf(usages, req.ns));
        Attempted(Exceeds(Mask(delta, names), Mask(Total(usages), names), Mask(hard, names)), log2, usages)
      else if turn.updateFails || log2[|log2| - 1].None? then Attempted(UpdateError, log2, usages)
      else if v != |log2| - 1 then Attempted(Conflict, log2, usages)
      else
        var status := NewStatus(log1[v].value.status, req.ns, req.used, total);
        Attempted(Accepted(total), log2 + [Some(log1[v].value.(status := status))], usages[req.ns := req.used])
  }

  function UsedOf(infos: Infos): Usages {
    map n | n in infos :: infos[n].used
  }

  /** The summing loop over the cache, in whatever order the map is visited. */
  method SumUsages(cache: ClusterResourceQuotaCache) returns (total: ResourceList)
    requires cache.Valid()
    ensures total == Total(UsedOf(cache.infos))
  {
    total := map[];
    ghost var order: seq<string>, usages := [], UsedOf(cache.infos);
    var todo := cache.quotas.Keys;
    while todo != {}
      invariant forall n :: n in order || n in todo <==> n in usages
      invariant forall n | n in order :: n !in todo
      invariant NoDuplicates(order)
      invariant forall n | n in order :: n in usages
      invariant total == SumInOrder(order, usages)
      decreases todo
    {
      var n :| n in todo;
      assert (order + [n])[..|order|] == order;
      total := Add(total, cache.quotas[n].info.used);
      todo, order := todo - {n}, order + [n];
    }
    SumIsOrderIndependent(order, usages);
    assert Restrict(usages, set n | n in order) == usages;
  }

  /** The old total, the difference the request makes for its namespace, and the new total. */
  method ComputeTotals(cache: ClusterResourceQuotaCache, req: Request)
    returns (oldtotal: ResourceList, delta: ResourceList, newtotal: ResourceList)
    requires cache.Valid()
    ensures oldtotal == Total(UsedOf(cache.infos))
    ensures delta == Subtract(req.used, UsageOf(UsedOf(cache.infos), req.ns))
    ensures newtotal == IncrementalTotal(UsedOf(cache.infos), req.ns, req.used)
  {
    oldtotal := SumUsages(cache);
    var oldusage: ResourceList := map[];
    if req.ns in cache.quotas {
      oldusage := cache.quotas[req.ns].info.used;
    }
    delta := Subtract(req.used, oldusage);
    newtotal := Add(oldtotal, delta);
  }

  /** The status write, and the commit to the cache only after it went through. */
  method WriteAndCommit(cache: ClusterResourceQuotaCache, store: CrqStore, crq: FetchedQuota, req: Request,
                        newtotal: ResourceList, fails: bool, now: int)
    returns (outcome: Outcome)
    requires cache.Valid()
    requires crq.version < |store.log|
    modifies cache, store, crq
    ensures cache.Valid()
    ensures var current := old(store.log)[|old(store.log)| - 1];
            outcome == if fails || current.None? then UpdateError
                       else if crq.version != |old(store.log)| - 1 then Conflict
                       else Accepted(newtotal)
    ensures outcome.Accepted? ==>
              && var current := old(store.log)[crq.version].value;
              && var status := NewStatus(old(crq.Status()), req.ns, req.used, newtotal);
              && store.log == old(store.log) + [Some(current.(status := status))]
              && cache.infos == old(cache.infos)[req.ns := ResourceUsageInfo(map[], req.used, now)]
              && UsedOf(cache.infos) == UsedOf(old(cache.infos))[req.ns := req.used]
    ensures !outcome.Accepted? ==> store.log == old(store.log) && unchanged(cache)
  {
    crq.UpdateStatusUsed(req.ns, req.used, newtotal);
    var result := store.UpdateStatus(crq.version, crq.Status(), fails);
    match result {
      case NotUpdated => outcome := UpdateError;
      case Conflicted => outcome := Conflict;
      case Updated =>
        cache.Put(req.ns, ResourceUsageInfo(map[], req.used, now));
        outcome := Accepted(newtotal);
    }
  }

  /** One run of the closure passed to OnLock. */
  method Validate(cache: ClusterResourceQuotaCache, store: CrqStore, req: Request, turn: Turn, now: int)
    returns (outcome: Outcome)
    requires cache.Valid()
    modifies cache, store
    ensures cache.Valid()
    ensures outcome.Accepted? ==> cache.infos == old(cache.infos)[req.ns := ResourceUsageInfo(map[], req.used, now)]
    ensures Attempted(outcome, store.log, UsedOf(cache.infos))
         == Attempt(UsedOf(old(cache.infos)), old(store.log), req, turn)
  {
    store.WrittenByOthers(turn.before);
    var v := if turn.read.ReadFails? then 0 else VersionRead(store.log, turn.read.age);
    var read := store.log[v];
    store.WrittenByOthers(turn.between);
    if turn.read.ReadFails? {
      outcome := ReadError;
    } else if read.None? {
      outcome := NotFound;
    } else {
      var crq := new FetchedQuota(v, read.value.status);
      var oldtotal, delta, newtotal := ComputeTotals(cache, req);
      var exceeded := if req.bypass then {} else Exceeded(newtotal, crq.hard);
      if exceeded != {} {
        outcome := Exceeds(Mask(delta, exceeded), Mask(oldtotal, exceeded), Mask(crq.hard, exceeded));
      } else {
        outcome := WriteAndCommit(cache, store, crq, req, newtotal, turn.updateFails, now);
      }
    }
  }

  // ----- Retries -----

  datatype Response = Allowed | Forbidden | Errored

  const MAX_ATTEMPTS := 5

  /** A request's whole run: the answer, the versions and cached usages after it, how many attempts it took,
      and the versions it wrote itself. */
  datatype Run = Run(response: Response, log: Log, usages: Usages, attempts: nat, written: seq<nat>)

  function ResponseTo(outcome: Outcome): Response {
    match outcome
    case NotFound => Allowed
    case Accepted(_) => Allowed
    case Exceeds(_, _, _) => Forbidden
    case _ => Errored
  }

  /** One attempt per turn until one does not end in a conflict; a conflict in the last turn is an error. */
  ghost function RetryOnConflict(usages: Usages, log: Log, req: Request, turns: seq<Turn>): Run
    requires |turns| > 0
    decreases |turns|
  {
    var a := Attempt(usages, log, req, turns[0]);
    if a.outcome.Conflict? && |turns| > 1 then
      var rest := RetryOnConflict(a.usages, a.log, req, turns[1..]);
      rest.(attempts := rest.attempts + 1)
    else
      Run(ResponseTo(a.outcome), a.log, a.usages, 1, if a.outcome.Accepted? then [|a.log| - 1] else [])
  }

  /** The versions once others wrote everything they write during the first `k` turns. */
  ghost function AfterOthers(log: Log, turns: seq<Turn>, k: nat): Log
    requires k <= |turns|
    decreases k
  {
    if k == 0 then log else AfterOthers(log + turns[0].before + turns[0].between, turns[1..], k - 1)
  }

  /** The write of an accepted request, on top of the version that was current at that moment. */
  ghost predicate Writes(prior: Log, after: Log, usages: Usages, req: Request) {
    var current := prior[|prior| - 1];
    var total := IncrementalTotal(usages, req.ns, req.used);
    && current.Some?
    && after == prior + [Some(current.value.(status := NewStatus(current.value.status, req.ns, req.used, total)))]
    && (req.bypass || LessThanOrEqual(total, current.value.status.hard))
  }

  /** An attempt either leaves only what others wrote, or writes once and commits once. */
  lemma AttemptWritesOrNot(usages: Usages, log: Log, req: Request, turn: Turn)
    ensures var a := Attempt(usages, log, req, turn);
            && var prior: Log := log + turn.before + turn.between;
            && if a.outcome.Accepted? then
                 Writes(prior, a.log, usages, req) && a.usages == usages[req.ns := req.used]
               else
                 a.log == prior && a.usages == usages
  {
    assert log + turn.before + turn.between == (log + turn.before) + turn.between;
  }

  /** All or nothing over the retries: a request writes the status at most once. If it wrote, it was allowed,
      the write was the last version, within the limits current at that moment, and its usage was committed
      once; if it did not, the versions are those others wrote and no cached usage changed. Refused and failed
      requests are of the second kind. */
  lemma {:induction false} AllOrNothing(usages: Usages, log: Log, req: Request, turns: seq<Turn>)
    requires |turns| > 0
    ensures var run := RetryOnConflict(usages, log, req, turns);
            && 1 <= run.attempts <= |turns|
            && var prior := AfterOthers(log, turns, run.attempts);
            && if run.written == [] then
                 run.log == prior && run.usages == usages
               else
                 && run.response == Allowed
                 && run.written == [|run.log| - 1]
                 && Writes(prior, run.log, usages, req)
                 && run.usages == usages[req.ns := req.used]
    decreases |turns|
  {
    var a := Attempt(usages, log, req, turns[0]);
    AttemptWritesOrNot(usages, log, req, turns[0]);
    if a.outcome.Conflict? && |turns| > 1 {
      AllOrNothing(usages, a.log, req, turns[1..]);
    } else {
      assert AfterOthers(log, turns, 1) == log + turns[0].before + turns[0].between;
    }
  }

  /** The read of some turn found a version at which the ClusterResourceQuota does not exist. */
  ghost predicate ReadsMissing(log: Log, turns: seq<Turn>, k: nat)
    requires k < |turns|
  {
    && turns[k].read.VersionsOld?
    && var seen: Log := AfterOthers(log, turns, k) + turns[k].before;
    && seen[VersionRead(seen, turns[k].read.age)].None?
  }

  /** A request that is allowed without a write is one whose last attempt read such a version. */
  lemma {:induction false} AllowedWritesOrMissing(usages: Usages, log: Log, req: Request, turns: seq<Turn>)
    requires |turns| > 0
    requires RetryOnConflict(usages, log, req, turns).response == Allowed
    ensures var run := RetryOnConflict(usages, log, req, turns);
            1 <= run.attempts <= |turns| && (run.written == [] <==> ReadsMissing(log, turns, run.attempts - 1))
    decreases |turns|
  {
    var a := Attempt(usages, log, req, turns[0]);
    AttemptWritesOrNot(usages, log, req, turns[0]);
    assert AfterOthers(log, turns, 0) == log;
    if a.outcome.Conflict? && |turns| > 1 {
      AllowedWritesOrMissing(usages, a.log, req, turns[1..]);
      var k := RetryOnConflict(usages, a.log, req, turns[1..]).attempts - 1;
      assert AfterOthers(log, turns, k + 1) == AfterOthers(a.log, turns[1..], k);
    }
  }

  /** The cached usages of one ClusterResourceQuota; no entry counts as no usages. */
  ghost function CachedUsages(cache: ResourceQuotaCache, name: string): Usages
    reads cache, cache.quotacache.Values
  {
    if name in cache.quotacache then UsedOf(cache.quotacache[name].infos) else map[]
  }

  ghost function EntryOf(cache: ResourceQuotaCache, name: string): set<ClusterResourceQuotaCache>
    reads cache
  {
    if name in cache.quotacache then {cache.quotacache[name]} else {}
  }

  /** One attempt: the entry is looked up anew, and the closure runs on it. No other entry is touched. */
  method ValidateOnce(cache: ResourceQuotaCache, name: string, store: CrqStore, req: Request, turn: Turn, now: int)
    returns (outcome: Outcome)
    requires cache.Valid()
    modifies cache, EntryOf(cache, name), store
    ensures cache.Valid()
    ensures name in cache.quotacache && cache.quotacache == old(cache.quotacache)[name := cache.quotacache[name]]
    ensures if name in old(cache.quotacache) then cache.quotacache == old(cache.quotacache)
            else fresh(cache.quotacache[name])
    ensures Attempted(outcome, store.log, CachedUsages(cache, name))
         == Attempt(old(CachedUsages(cache, name)), old(store.log), req, turn)
  {
    var entry := cache.GetOrCreate(name);
    outcome := ValidateEntry(cache, name, entry, store, req, turn, now);
  }

  /** The closure on an entry of the cache. */
  method ValidateEntry(cache: ResourceQuotaCache, name: string, entry: ClusterResourceQuotaCache, store: CrqStore,
                       req: Request, turn: Turn, now: int)
    returns (outcome: Outcome)
    requires cache.Valid() && name in cache.quotacache && cache.quotacache[name] == entry
    modifies cache`owned, entry, store
    ensures cache.Valid()
    ensures Attempted(outcome, store.log, UsedOf(entry.infos))
         == Attempt(UsedOf(old(entry.infos)), old(store.log), req, turn)
  {
    outcome := Validate(entry, store, req, turn, now);
    forall d | d in cache.quotacache && d != name ensures cache.quotacache[d].Valid() {
      assert cache.quotacache[d] != entry;
    }
    cache.owned := cache.owned + entry.repr;
  }

  /** Where the retries are after `k` attempts, the last of which ended in `outcome`: on the way to what `run` says,
      or there. */
  ghost predicate OnCourse(run: Run, outcome: Outcome, k: nat, usages: Usages, log: Log, req: Request, turns: seq<Turn>)
    requires k <= |turns|
  {
    if outcome.Conflict? && k < |turns| then SameResult(run, RetryOnConflict(usages, log, req, turns[k..]))
    else run.response == ResponseTo(outcome) && run.log == log && run.usages == usages
  }

  ghost predicate SameResult(a: Run, b: Run) {
    a.response == b.response && a.log == b.log && a.usages == b.usages
  }

  lemma OneMoreAttempt(run: Run, k: nat, usages: Usages, log: Log, req: Request, turns: seq<Turn>)
    requires k < |turns| && SameResult(run, RetryOnConflict(usages, log, req, turns[k..]))
    ensures var a := Attempt(usages, log, req, turns[k]);
            OnCourse(run, a.outcome, k + 1, a.usages, a.log, req, turns)
  {
    assert turns[k..][1..] == turns[k + 1..];
  }

  /** The retry loop: the entry is looked up anew in every attempt. */
  method Retry(cache: ResourceQuotaCache, name: string, store: CrqStore, req: Request, turns: seq<Turn>, now: int)
    returns (response: Response)
    requires cache.Valid() && |turns| == MAX_ATTEMPTS
    modifies cache, EntryOf(cache, name), store
    ensures cache.Valid()
    ensures name in cache.quotacache && cache.quotacache == old(cache.quotacache)[name := cache.quotacache[name]]
    ensures var run := RetryOnConflict(old(CachedUsages(cache, name)), old(store.log), req, turns);
            response == run.response && store.log == run.log && CachedUsages(cache, name) == run.usages
  {
    ghost var run := RetryOnConflict(CachedUsages(cache, name), store.log, req, turns);
    assert turns[0..] == turns;
    OneMoreAttempt(run, 0, CachedUsages(cache, name), store.log, req, turns);
    var outcome := ValidateOnce(cache, name, store, req, turns[0], now);
    var attempts := 1;
    ghost var entries := cache.quotacache;
    while outcome.Conflict? && attempts < MAX_ATTEMPTS
      invariant 1 <= attempts <= MAX_ATTEMPTS
      invariant cache.Valid() && cache.quotacache == entries
      invariant OnCourse(run, outcome, attempts, CachedUsages(cache, name), store.log, req, turns)
      decreases MAX_ATTEMPTS - attempts
    {
      OneMoreAttempt(run, attempts, CachedUsages(cache, name), store.log, req, turns);
      outcome := ValidateOnce(cache, name, store, req, turns[attempts], now);
      attempts := attempts + 1;
    }
    response := ResponseTo(outcome);
  }

  /** The webhook: an unlabelled quota is none of its business; a labelled one is tried up to MAX_ATTEMPTS
      times. Entries of other ClusterResourceQuotas are never touched. */
  method Handle(cache: ResourceQuotaCache, store: CrqStore, rq: ResourceQuota, bypass: bool, turns: seq<Turn>, now: int)
    returns (response: Response)
    requires cache.Valid() && |turns| == 5
    modifies cache, EntryOf(cache, MembershipOf(rq.labels)), store
    ensures cache.Valid()
    ensures MembershipOf(rq.labels) == "" ==> response == Allowed && unchanged(cache) && unchanged(store)
    ensures MembershipOf(rq.labels) != "" ==>
              && var name := MembershipOf(rq.labels);
              && var run := RetryOnConflict(old(CachedUsages(cache, name)), old(store.log),
                                            Request(rq.namespace, rq.used, bypass), turns);
              && response == run.response && store.log == run.log && CachedUsages(cache, name) == run.usages
              && name in cache.quotacache && cache.quotacache == old(cache.quotacache)[name := cache.quotacache[name]]
  {
    var name := MembershipOf(rq.labels);
    if name == "" {
      return Allowed;
    }
    response := Retry(cache, name, store, Request(rq.namespace, rq.used, bypass), turns, now);
  }
}
