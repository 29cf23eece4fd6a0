/** While only admissions run, the status mirrors the cache: its list of namespaces holds the cached usages, and
    after an admission its total is the sum of that list. */
module StatusConservation {
  import opened Options
  import opened ResourceLists
  import opened UsageTotals
  import opened QuotaObjects
  import opened StatusAdmission
  import opened AdmissionProtocol
  import opened ProtocolSafety
  import opened Serialisability

  // ----- The list of namespaces -----

  /** The list as a map; the first item with a name counts, as it does for the update. */
  function AsMap(items: seq<NamespaceUsage>): Usages {
    if items == [] then map[] else AsMap(items[1..])[items[0].name := items[0].used]
  }

  ghost predicate UniqueNames(items: seq<NamespaceUsage>) {
    forall i, j | 0 <= i < j < |items| :: items[i].name != items[j].name
  }

  /** The sum over the list. */
  function ListSumAt(items: seq<NamespaceUsage>, k: string): int {
    if items == [] then 0 else Get(items[0].used, k) + ListSumAt(items[1..], k)
  }

  lemma {:induction false} NamesInMap(items: seq<NamespaceUsage>, n: string)
    ensures n in AsMap(items) <==> exists i :: 0 <= i < |items| && items[i].name == n
  {
    if items != [] {
      NamesInMap(items[1..], n);
      assert forall i | 0 < i < |items| :: items[1..][i - 1] == items[i];
    }
  }

  lemma {:induction false} UpsertAsMap(items: seq<NamespaceUsage>, ns: string, used: ResourceList)
    ensures AsMap(Upsert(items, ns, used)) == AsMap(items)[ns := used]
  {
    if items != [] && items[0].name != ns {
      UpsertAsMap(items[1..], ns, used);
      assert Upsert(items, ns, used)[1..] == Upsert(items[1..], ns, used);
    } else if items == [] {
      assert Upsert(items, ns, used)[1..] == [];
    }
  }

  lemma {:induction false} UpsertNames(items: seq<NamespaceUsage>, ns: string, used: ResourceList)
    requires UniqueNames(items)
    ensures UniqueNames(Upsert(items, ns, used))
    ensures forall i | 0 <= i < |Upsert(items, ns, used)| ::
              var n := Upsert(items, ns, used)[i].name;
              n == ns || exists j :: 0 <= j < |items| && items[j].name == n
  {
    if items != [] && items[0].name != ns {
      UpsertNames(items[1..], ns, used);
      var rest := Upsert(items[1..], ns, used);
      forall i | 0 <= i < |rest|
        ensures rest[i].name != items[0].name
        ensures rest[i].name == ns || exists j :: 0 <= j < |items| && items[j].name == rest[i].name
      {
        if rest[i].name != ns {
          var j :| 0 <= j < |items| - 1 && items[1..][j].name == rest[i].name;
          assert items[j + 1].name == rest[i].name;
        }
      }
    }
  }

  lemma {:induction false} ListSumIsSum(items: seq<NamespaceUsage>, k: string)
    requires UniqueNames(items)
    ensures ListSumAt(items, k) == SumAt(AsMap(items), k)
  {
    if items != [] {
      var rest := AsMap(items[1..]);
      ListSumIsSum(items[1..], k);
      NamesInMap(items[1..], items[0].name);
      SumAtUpdate(rest, items[0].name, items[0].used, k);
    }
  }

  // ----- The mirror -----

  ghost predicate SumsUp(status: CrqStatus) {
    forall k :: Get(status.used, k) == ListSumAt(status.namespaces, k)
  }

  /** The list holds the cached usages, at most one written but uncommitted update ahead of them. */
  ghost predicate ListMirrors(items: seq<NamespaceUsage>, usages: Usages, calls: map<nat, Call>) {
    && (forall id | id in calls && calls[id].phase.Written? ::
          AsMap(items) == usages[calls[id].req.ns := calls[id].req.used])
    && ((forall id | id in calls :: !calls[id].phase.Written?) ==> AsMap(items) == usages)
  }

  /** The current status has a list without duplicates and, when an admission wrote it, sums up. */
  ghost predicate StatusOk(log: Log, writers: map<nat, nat>) {
    var last := log[|log| - 1];
    && last.Some? && UniqueNames(last.value.status.namespaces)
    && (|log| - 1 in writers ==> SumsUp(last.value.status))
  }

  ghost predicate Mirrors(s: State) {
    && StatusOk(s.log, s.writers)
    && ListMirrors(s.log[|s.log| - 1].value.status.namespaces, CurrentUsages(s), s.calls)
  }

  lemma NewStatusSumsUp(usages: Usages, req: Request, status: CrqStatus)
    requires UniqueNames(status.namespaces) && AsMap(status.namespaces) == usages
    ensures var status' := NewStatus(status, req.ns, req.used, IncrementalTotal(usages, req.ns, req.used));
            && UniqueNames(status'.namespaces) && SumsUp(status')
            && AsMap(status'.namespaces) == usages[req.ns := req.used]
  {
    var status' := NewStatus(status, req.ns, req.used, IncrementalTotal(usages, req.ns, req.used));
    UpsertAsMap(status.namespaces, req.ns, req.used);
    UpsertNames(status.namespaces, req.ns, req.used);
    forall k ensures Get(status'.used, k) == ListSumAt(status'.namespaces, k) {
      ListSumIsSum(status'.namespaces, k);
      IncrementalAt(usages, req.ns, req.used, k);
    }
  }

  /** While one call is inside the closure, no other is about to commit. */
  lemma OnlyOneUnderWay(s: State, id: nat)
    requires LocksOk(s.holder, s.calls) && OneEntry(s)
    requires id in s.calls && s.calls[id].phase.Lock().Some?
    ensures forall other | other in s.calls && other != id :: !s.calls[other].phase.Written?
  {
    forall other | other in s.calls && s.calls[other].phase.Written? ensures other == id {
      OneHolder(s, id, other);
    }
  }

  lemma WriteKeepsMirror(s: State, a: Action)
    requires LocksOk(s.holder, s.calls) && OneEntry(s) && Mirrors(s) && Enabled(s, a) && a.Write?
    requires Knows(s, a.id, s.calls[a.id])
    ensures Mirrors(Apply(s, a))
  {
    var Call(req, attempt, Checked(e, v, total)) := s.calls[a.id];
    OnlyOneUnderWay(s, a.id);
    assert AsMap(s.log[v].value.status.namespaces) == s.entries[e];
    NewStatusSumsUp(s.entries[e], req, s.log[v].value.status);
    var s' := Apply(s, a);
    assert CurrentUsages(s') == s.entries[e];
    assert s'.calls[a.id].phase.Written?;
  }

  lemma CommitKeepsMirror(s: State, a: Action)
    requires LocksOk(s.holder, s.calls) && OneEntry(s) && Mirrors(s) && Enabled(s, a) && a.CommitUsage?
    ensures Mirrors(Apply(s, a))
  {
    var s' := Apply(s, a);
    OnlyOneUnderWay(s, a.id);
    assert s.current == Some(s.calls[a.id].phase.entry);
    assert s'.calls[a.id].phase.Committed?;
  }

  lemma OtherStepsKeepMirror(s: State, a: Action)
    requires Mirrors(s) && Enabled(s, a)
    requires s.current.Some? ==> s.current.value in s.entries
    requires !a.Write? && !a.CommitUsage? && !a.Sync? && !a.WriteByOthers?
    ensures Mirrors(Apply(s, a))
  {
    var s' := Apply(s, a);
    assert CurrentUsages(s') == CurrentUsages(s);
    if IsCallStep(a) {
      assert !s.calls[a.id].phase.Written? && !s'.calls[a.id].phase.Written?;
    }
    forall id | id in s.calls
      ensures id in s'.calls && s'.calls[id].req == s.calls[id].req
      ensures s'.calls[id].phase.Written? <==> s.calls[id].phase.Written?
    {
    }
  }

  lemma {:induction false} MirrorsThroughout(s: State, actions: seq<Action>)
    requires Initial(s) && Mirrors(s) && IsRun(AdmissionsOnly, s, actions)
    ensures Mirrors(After(AdmissionsOnly, s, actions))
    decreases |actions|
  {
    if actions != [] {
      var front, a := actions[..|actions| - 1], actions[|actions| - 1];
      MirrorsThroughout(s, front);
      SerialThroughout(AdmissionsOnly, s, front);
      var mid := After(AdmissionsOnly, s, front);
      assert a.Write? ==> Knows(mid, a.id, mid.calls[a.id]);
      if a.Write? {
        WriteKeepsMirror(mid, a);
      } else if a.CommitUsage? {
        CommitKeepsMirror(mid, a);
      } else {
        OtherStepsKeepMirror(mid, a);
      }
    }
  }

  /** From a status whose list mirrors the cache, any interleaving of admissions ends in such a status once no
      call is between its write and its commit, and the total the last admission wrote is the pointwise sum of
      the list, on every resource. */
  lemma StatusMirrorsCache(s: State, actions: seq<Action>)
    requires Initial(s) && IsRun(AdmissionsOnly, s, actions)
    requires var last := s.log[|s.log| - 1];
             last.Some? && UniqueNames(last.value.status.namespaces)
             && AsMap(last.value.status.namespaces) == CurrentUsages(s)
    ensures var end := After(AdmissionsOnly, s, actions);
            var last := end.log[|end.log| - 1];
            && last.Some? && UniqueNames(last.value.status.namespaces)
            && (|end.log| - 1 in end.writers ==> SumsUp(last.value.status))
            && ((forall id | id in end.calls :: !end.calls[id].phase.Written?) ==>
                  AsMap(last.value.status.namespaces) == CurrentUsages(end))
  {
    MirrorsThroughout(s, actions);
  }
}
