/** The webhook that keeps managed ResourceQuotas in their group: its verdicts, and what they guarantee over the
    lifetimes of the quotas and of the ClusterResourceQuotas. */
module RemoveAdmission {
  import opened Options
  import opened QuotaObjects

  datatype Verdict = Allow | Forbid | Error

  /** What reading a ClusterResourceQuota gives. */
  datatype CrqRead = ReadFailed | Missing | Present(deleting: bool)

  /** A managed quota keeps its label. */
  function HandleUpdate(prior: Option<ResourceQuota>, inst: ResourceQuota): Verdict {
    var oldName := if prior.Some? then MembershipOf(prior.value.labels) else "";
    var newName := MembershipOf(inst.labels);
    if oldName != "" && newName != oldName then Forbid else Allow
  }

  /** A managed quota stays while its ClusterResourceQuota does. */
  function HandleDelete(prior: Option<ResourceQuota>, read: string -> CrqRead): Verdict {
    if prior.None? then Allow
    else if |prior.value.labels| == 0 then Allow
    else
      var name := MembershipOf(prior.value.labels);
      if name == "" then Allow
      else
        match read(name)
        case Missing => Allow
        case ReadFailed => Error
        case Present(deleting) => if deleting then Allow else Forbid
  }

  // ----- Lifetimes -----

  /** The stored quotas, and the existing ClusterResourceQuotas with whether they are being deleted. */
  datatype State = State(quotas: map<QuotaKey, ResourceQuota>, crqs: map<string, bool>)

  /** Updates and deletions are requests the webhook answers. `seen` tells whether the old object came with the
      request, `read` what reading the ClusterResourceQuota gave: it may fail, and it may be outdated. */
  datatype Action =
    | CreateQuota(key: QuotaKey, rq: ResourceQuota)
    | UpdateQuota(key: QuotaKey, rq: ResourceQuota, seen: bool)
    | DeleteQuota(key: QuotaKey, seen: bool, read: CrqRead)
    | CreateCrq(name: string)
    | MarkDeleting(name: string)
    | RemoveCrq(name: string)

  function OldObject(s: State, key: QuotaKey, seen: bool): Option<ResourceQuota>
    requires key in s.quotas
  {
    if seen then Some(s.quotas[key]) else None
  }

  /** The webhook lets the request through. */
  predicate Passes(s: State, a: Action) {
    match a
    case UpdateQuota(key, rq, seen) => key in s.quotas && HandleUpdate(OldObject(s, key, seen), rq) == Allow
    case DeleteQuota(key, seen, read) => key in s.quotas && HandleDelete(OldObject(s, key, seen), _ => read) == Allow
    case _ => true
  }

  /** A request that is not let through, or is about nothing, changes nothing. */
  function Apply(s: State, a: Action): State {
    match a
    case CreateQuota(key, rq) => if key in s.quotas then s else s.(quotas := s.quotas[key := rq])
    case UpdateQuota(key, rq, _) => if Passes(s, a) then s.(quotas := s.quotas[key := rq]) else s
    case DeleteQuota(key, _, _) => if Passes(s, a) then s.(quotas := s.quotas - {key}) else s
    case CreateCrq(name) => if name in s.crqs then s else s.(crqs := s.crqs[name := false])
    case MarkDeleting(name) => if name in s.crqs then s.(crqs := s.crqs[name := true]) else s
    case RemoveCrq(name) => s.(crqs := s.crqs - {name})
  }

  ghost predicate IsRun(states: seq<State>, actions: seq<Action>) {
    && |states| == |actions| + 1
    && forall i | 0 <= i < |actions| :: states[i + 1] == Apply(states[i], actions[i])
  }

  predicate IsMemberOf(s: State, key: QuotaKey, name: string) {
    key in s.quotas && MembershipOf(s.quotas[key].labels) == name
  }

  /** The ClusterResourceQuota exists and is not being deleted. */
  predicate IsLive(s: State, name: string) {
    name in s.crqs && !s.crqs[name]
  }

  /** A request about the quota that came without the old object, so that the webhook cannot tell that it is managed,
      and takes the label away; or a deletion for which its ClusterResourceQuota was read as gone or going. */
  predicate Escapes(a: Action, key: QuotaKey, name: string) {
    match a
    case UpdateQuota(k, rq, seen) => k == key && !seen && MembershipOf(rq.labels) != name
    case DeleteQuota(k, seen, read) => k == key && (!seen || read == Missing || read == Present(true))
    case _ => false
  }

  /** A current read. */
  function ReadCrq(s: State, name: string): CrqRead {
    if name in s.crqs then Present(s.crqs[name]) else Missing
  }

  /** What the webhook is meant to get: the old object, and a current read or none. */
  predicate IsFaithful(s: State, a: Action, name: string) {
    match a
    case UpdateQuota(_, _, seen) => seen
    case DeleteQuota(_, seen, read) => seen && (read == ReadFailed || read == ReadCrq(s, name))
    case _ => true
  }

  /** An update of a stored quota takes effect exactly when the webhook did not get the old object, that has no label,
      or the update keeps its label; otherwise it changes nothing. */
  lemma UpdateTakesEffectIff(s: State, key: QuotaKey, rq: ResourceQuota, seen: bool)
    requires key in s.quotas
    ensures var a, labels := UpdateQuota(key, rq, seen), s.quotas[key].labels;
            var takes := !seen || MembershipOf(labels) == "" || MembershipOf(rq.labels) == MembershipOf(labels);
            && (Apply(s, a).quotas[key] == rq <==> takes)
            && Apply(s, a) == if takes then s.(quotas := s.quotas[key := rq]) else s
  {
  }

  /** A deletion does exactly when the webhook did not get the old object, that has no label, or its
      ClusterResourceQuota was read as missing or being deleted. */
  lemma DeletionTakesEffectIff(s: State, key: QuotaKey, seen: bool, read: CrqRead)
    requires key in s.quotas
    ensures var a := DeleteQuota(key, seen, read);
            var takes := !seen || MembershipOf(s.quotas[key].labels) == "" || read == Missing || read == Present(true);
            && (key !in Apply(s, a).quotas <==> takes)
            && Apply(s, a) == if takes then s.(quotas := s.quotas - {key}) else s
  {
  }

  /** Only the failure to read the ClusterResourceQuota of a managed quota is an error; the webhook reads no other. */
  lemma DeletionFailsIff(prior: Option<ResourceQuota>, read: string -> CrqRead)
    ensures HandleDelete(prior, read) == Error <==>
              && prior.Some? && MembershipOf(prior.value.labels) != ""
              && read(MembershipOf(prior.value.labels)) == ReadFailed
    ensures HandleDelete(prior, read) == Forbid <==>
              && prior.Some? && MembershipOf(prior.value.labels) != ""
              && read(MembershipOf(prior.value.labels)) == Present(false)
  {
  }

  /** A step takes a quota out of its group exactly when it is such a request. */
  lemma MemberStaysIff(s: State, a: Action, key: QuotaKey, name: string)
    requires IsMemberOf(s, key, name) && name != ""
    ensures IsMemberOf(Apply(s, a), key, name) <==> !Escapes(a, key, name)
  {
  }

  /** Whatever the requests and the lifetimes: a quota that carries a label keeps it and is not removed, exactly when
      no request about it in that time escapes the webhook. */
  lemma {:induction false} MembersStayIff(states: seq<State>, actions: seq<Action>, key: QuotaKey, name: string,
                                          i: nat, j: nat)
    requires IsRun(states, actions) && name != "" && i <= j < |states|
    requires IsMemberOf(states[i], key, name)
    ensures (forall m | i <= m <= j :: IsMemberOf(states[m], key, name))
       <==> (forall m | i <= m < j :: !Escapes(actions[m], key, name))
    decreases j
  {
    if i < j {
      MembersStayIff(states, actions, key, name, i, j - 1);
      assert states[j] == Apply(states[j - 1], actions[j - 1]);
      if forall m | i <= m <= j - 1 :: IsMemberOf(states[m], key, name) {
        MemberStaysIff(states[j - 1], actions[j - 1], key, name);
      } else {
        var m :| i <= m < j - 1 && Escapes(actions[m], key, name);
      }
    }
  }

  /** While a ClusterResourceQuota exists and is not being deleted, a quota that carries its label keeps it and is
      not removed, when the requests about it carry the old object and its ClusterResourceQuota is read as it is. */
  lemma MembersStay(states: seq<State>, actions: seq<Action>, key: QuotaKey, name: string, i: nat, j: nat)
    requires IsRun(states, actions) && name != "" && i <= j < |states|
    requires IsMemberOf(states[i], key, name)
    requires forall m | i <= m < j :: IsLive(states[m], name) && IsFaithful(states[m], actions[m], name)
    ensures forall m | i <= m <= j :: IsMemberOf(states[m], key, name)
  {
    forall m | i <= m < j ensures !Escapes(actions[m], key, name) {
      assert IsLive(states[m], name) && IsFaithful(states[m], actions[m], name);
    }
    MembersStayIff(states, actions, key, name, i, j);
  }

  /** Over any lifetimes: a quota that carried a label and later does not was deleted in between, at a moment when
      its ClusterResourceQuota was gone or going. No update ever takes a quota out of its group. */
  lemma {:induction false} MembersLeaveOnlyWithTheirGroup(states: seq<State>, actions: seq<Action>, key: QuotaKey,
                                                          name: string, i: nat, j: nat)
    returns (m: nat)
    requires IsRun(states, actions) && name != "" && i <= j < |states|
    requires IsMemberOf(states[i], key, name) && !IsMemberOf(states[j], key, name)
    requires forall m | i <= m < j :: IsFaithful(states[m], actions[m], name)
    ensures i <= m < j && actions[m].DeleteQuota? && actions[m].key == key && !IsLive(states[m], name)
    ensures IsMemberOf(states[m], key, name)
    decreases j
  {
    if IsMemberOf(states[j - 1], key, name) {
      m := j - 1;
      assert IsFaithful(states[m], actions[m], name);
      MemberStaysIff(states[m], actions[m], key, name);
    } else {
      m := MembersLeaveOnlyWithTheirGroup(states, actions, key, name, i, j - 1);
    }
  }
}
