/** Which namespaces a ClusterResourceQuota selects, and which ClusterResourceQuotas a namespace event enqueues. */
module NamespaceSelection {
  import opened Options
  import opened QuotaObjects

  datatype Selector = Nothing | Requirements(exact: Labels, expressions: seq<LabelRequirement>)

  /** Whether the syntax of a requirement's key and values is legal. */
  type Syntax = LabelRequirement -> bool

  predicate ValidRequirement(legal: Syntax, r: LabelRequirement) {
    && legal(r)
    && match r.op
       case In => r.values != []
       case NotIn => r.values != []
       case Exists => r.values == []
       case DoesNotExist => r.values == []
       case Unknown => false
  }

  /** A missing selector selects nothing, an empty one everything; None is an invalid selector. */
  function AsSelector(legal: Syntax, selector: Option<LabelSelector>): Option<Selector> {
    match selector
    case None => Some(Nothing)
    case Some(s) =>
      if (forall k | k in s.matchLabels :: ValidRequirement(legal, LabelRequirement(k, In, [s.matchLabels[k]])))
         && (forall i | 0 <= i < |s.matchExpressions| :: ValidRequirement(legal, s.matchExpressions[i]))
      then Some(Requirements(s.matchLabels, s.matchExpressions)) else None
  }

  predicate Meets(labels: Labels, r: LabelRequirement) {
    match r.op
    case In => r.key in labels && labels[r.key] in r.values
    case NotIn => r.key !in labels || labels[r.key] !in r.values
    case Exists => r.key in labels
    case DoesNotExist => r.key !in labels
    case Unknown => false
  }

  predicate Matches(selector: Selector, labels: Labels) {
    match selector
    case Nothing => false
    case Requirements(exact, expressions) =>
      && (forall k | k in exact :: Meets(labels, LabelRequirement(k, In, [exact[k]])))
      && forall i | 0 <= i < |expressions| :: Meets(labels, expressions[i])
  }

  /** The ClusterResourceQuota has a valid selector that matches the namespace. */
  predicate Selects(legal: Syntax, crq: ClusterResourceQuota, ns: Namespace) {
    var selector := AsSelector(legal, crq.namespaceSelector);
    selector.Some? && Matches(selector.value, ns.labels)
  }

  /** The listed namespaces that match, in the order of the listing. */
  function Matching(selector: Selector, namespaces: seq<Namespace>): seq<Namespace> {
    if namespaces == [] then []
    else
      var front, last := namespaces[..|namespaces| - 1], namespaces[|namespaces| - 1];
      Matching(selector, front) + if Matches(selector, last.labels) then [last] else []
  }

  /** None when the listing or the selector fails. */
  function Selected(legal: Syntax, crq: ClusterResourceQuota, listing: Option<seq<Namespace>>): Option<seq<Namespace>> {
    var selector := AsSelector(legal, crq.namespaceSelector);
    if listing.Some? && selector.Some? then Some(Matching(selector.value, listing.value)) else None
  }

  method SelectedNamespaces(legal: Syntax, crq: ClusterResourceQuota, listing: Option<seq<Namespace>>)
    returns (matched: Option<seq<Namespace>>)
    ensures matched == Selected(legal, crq, listing)
  {
    if listing.None? {
      return None;
    }
    var selector := AsSelector(legal, crq.namespaceSelector);
    if selector.None? {
      return None;
    }
    var found: seq<Namespace> := [];
    for i := 0 to |listing.value|
      invariant found == Matching(selector.value, listing.value[..i])
    {
      assert listing.value[..i + 1][..i] == listing.value[..i];
      if Matches(selector.value, listing.value[i].labels) {
        found := found + [listing.value[i]];
      }
    }
    assert listing.value[..|listing.value|] == listing.value;
    return Some(found);
  }

  /** The names of the ClusterResourceQuotas that select the namespace, in the order of the listing. */
  function Enqueued(legal: Syntax, crqs: seq<ClusterResourceQuota>, ns: Namespace): seq<string> {
    if crqs == [] then []
    else
      var front, last := crqs[..|crqs| - 1], crqs[|crqs| - 1];
      Enqueued(legal, front, ns) + if Selects(legal, last, ns) then [last.name] else []
  }

  method OnNamespaceChange(legal: Syntax, crqs: Option<seq<ClusterResourceQuota>>, ns: Namespace)
    returns (requests: seq<string>)
    ensures requests == if crqs.Some? then Enqueued(legal, crqs.value, ns) else []
  {
    requests := [];
    if crqs.None? {
      return;
    }
    for i := 0 to |crqs.value|
      invariant requests == Enqueued(legal, crqs.value[..i], ns)
    {
      assert crqs.value[..i + 1][..i] == crqs.value[..i];
      var selector := AsSelector(legal, crqs.value[i].namespaceSelector);
      if selector.None? {
        continue;
      }
      if Matches(selector.value, ns.labels) {
        requests := requests + [crqs.value[i].name];
      }
    }
    assert crqs.value[..|crqs.value|] == crqs.value;
  }

  // ----- What the selectors mean -----

  /** The labels meet the requirement; in words of the labels only. */
  ghost predicate Fulfils(labels: Labels, r: LabelRequirement) {
    && (r.op == In ==> exists v :: v in r.values && (r.key, v) in labels.Items)
    && (r.op == NotIn ==> forall v | v in r.values :: (r.key, v) !in labels.Items)
    && (r.op == Exists ==> r.key in labels.Keys)
    && (r.op == DoesNotExist ==> r.key !in labels.Keys)
    && r.op != Unknown
  }

  /** In and NotIn have values, the others have none, and the syntax is legal. */
  ghost predicate IsWellFormed(legal: Syntax, r: LabelRequirement) {
    && legal(r) && r.op != Unknown
    && (r.values == [] <==> r.op == Exists || r.op == DoesNotExist)
  }

  lemma MeetsIff(labels: Labels, r: LabelRequirement)
    ensures Meets(labels, r) <==> Fulfils(labels, r)
  {
    if r.key in labels {
      assert (r.key, labels[r.key]) in labels.Items;
    }
  }

  /** A nil selector selects nothing; a selector with an ill-formed part neither; any other selects exactly the
      namespaces that carry all its labels and fulfil all its expressions, so an empty one selects all. */
  lemma SelectsIff(legal: Syntax, crq: ClusterResourceQuota, ns: Namespace)
    ensures Selects(legal, crq, ns) <==>
      match crq.namespaceSelector
      case None => false
      case Some(LabelSelector(exact, expressions)) =>
        && (forall k | k in exact :: legal(LabelRequirement(k, In, [exact[k]])) && (k, exact[k]) in ns.labels.Items)
        && forall i | 0 <= i < |expressions| ::
             IsWellFormed(legal, expressions[i]) && Fulfils(ns.labels, expressions[i])
  {
    if crq.namespaceSelector.Some? {
      var LabelSelector(exact, expressions) := crq.namespaceSelector.value;
      forall k | k in exact
        ensures Meets(ns.labels, LabelRequirement(k, In, [exact[k]])) <==> (k, exact[k]) in ns.labels.Items
      {
        MeetsIff(ns.labels, LabelRequirement(k, In, [exact[k]]));
      }
      forall i | 0 <= i < |expressions|
        ensures Meets(ns.labels, expressions[i]) <==> Fulfils(ns.labels, expressions[i])
      {
        MeetsIff(ns.labels, expressions[i]);
      }
    }
  }

  /** A selection fails exactly when the listing does or the selector has an ill-formed part; a nil one never does. */
  lemma SelectionFailsIff(legal: Syntax, crq: ClusterResourceQuota, listing: Option<seq<Namespace>>)
    ensures Selected(legal, crq, listing).None? <==>
      || listing.None?
      || match crq.namespaceSelector
         case None => false
         case Some(LabelSelector(exact, expressions)) =>
           || (exists k :: k in exact && !legal(LabelRequirement(k, In, [exact[k]])))
           || exists i :: 0 <= i < |expressions| && !IsWellFormed(legal, expressions[i])
  {
  }

  // ----- Order -----

  ghost predicate Increasing(positions: seq<nat>) {
    forall i, j | 0 <= i < j < |positions| :: positions[i] < positions[j]
  }

  /** The result is the listing at exactly the positions whose namespace is selected, in the order of the listing and
      each once. */
  lemma {:induction false} MatchingInOrder(selector: Selector, namespaces: seq<Namespace>) returns (positions: seq<nat>)
    ensures Increasing(positions)
    ensures forall i: nat :: i in positions <==> i < |namespaces| && Matches(selector, namespaces[i].labels)
    ensures |Matching(selector, namespaces)| == |positions|
    ensures forall j | 0 <= j < |positions| ::
              positions[j] < |namespaces| && Matching(selector, namespaces)[j] == namespaces[positions[j]]
  {
    positions := [];
    if namespaces != [] {
      var last := |namespaces| - 1;
      var front := MatchingInOrder(selector, namespaces[..last]);
      positions := front + if Matches(selector, namespaces[last].labels) then [last] else [];
      forall i: nat ensures i in positions <==> i < |namespaces| && Matches(selector, namespaces[i].labels) {
        assert i in positions <==> i in front || (i == last && Matches(selector, namespaces[last].labels));
        assert i < last ==> namespaces[..last][i] == namespaces[i];
      }
    }
  }

  /** So are the requests: the names at exactly the positions that select the namespace. */
  lemma {:induction false} EnqueuedInOrder(legal: Syntax, crqs: seq<ClusterResourceQuota>, ns: Namespace)
    returns (positions: seq<nat>)
    ensures Increasing(positions)
    ensures forall i: nat :: i in positions <==> i < |crqs| && Selects(legal, crqs[i], ns)
    ensures |Enqueued(legal, crqs, ns)| == |positions|
    ensures forall j | 0 <= j < |positions| ::
              positions[j] < |crqs| && Enqueued(legal, crqs, ns)[j] == crqs[positions[j]].name
  {
    positions := [];
    if crqs != [] {
      var last := |crqs| - 1;
      var front := EnqueuedInOrder(legal, crqs[..last], ns);
      positions := front + if Selects(legal, crqs[last], ns) then [last] else [];
      forall i: nat ensures i in positions <==> i < |crqs| && Selects(legal, crqs[i], ns) {
        assert i in positions <==> i in front || (i == last && Selects(legal, crqs[last], ns));
        assert i < last ==> crqs[..last][i] == crqs[i];
      }
    }
  }

  ghost predicate DistinctNames(namespaces: seq<Namespace>) {
    forall i, j | 0 <= i < j < |namespaces| :: namespaces[i].name != namespaces[j].name
  }

  /** Of distinct namespaces none is selected twice. */
  lemma SelectedAreDistinct(selector: Selector, namespaces: seq<Namespace>)
    requires DistinctNames(namespaces)
    ensures DistinctNames(Matching(selector, namespaces))
  {
    var positions := MatchingInOrder(selector, namespaces);
  }

  // ----- Trigger and selection -----

  lemma {:induction false} MatchingExactly(selector: Selector, namespaces: seq<Namespace>, ns: Namespace)
    ensures ns in Matching(selector, namespaces) <==> ns in namespaces && Matches(selector, ns.labels)
  {
    if namespaces != [] {
      var front, last := namespaces[..|namespaces| - 1], namespaces[|namespaces| - 1];
      MatchingExactly(selector, front, ns);
      assert namespaces == front + [last];
    }
  }

  lemma {:induction false} EnqueuedExactly(legal: Syntax, crqs: seq<ClusterResourceQuota>, ns: Namespace, name: string)
    ensures name in Enqueued(legal, crqs, ns)
       <==> exists i :: 0 <= i < |crqs| && crqs[i].name == name && Selects(legal, crqs[i], ns)
  {
    if crqs != [] {
      var front, last := crqs[..|crqs| - 1], crqs[|crqs| - 1];
      EnqueuedExactly(legal, front, ns, name);
      if i :| 0 <= i < |crqs| && crqs[i].name == name && Selects(legal, crqs[i], ns) {
        assert i < |front| ==> front[i] == crqs[i];
      }
    }
  }

  /** A ClusterResourceQuota is enqueued for a listed namespace exactly when that namespace is among those it
      selects; one with an invalid selector neither selects nor is enqueued. */
  lemma TriggerIffSelected(legal: Syntax, crqs: seq<ClusterResourceQuota>, namespaces: seq<Namespace>,
                           crq: ClusterResourceQuota, ns: Namespace)
    requires forall i, j | 0 <= i < |crqs| && 0 <= j < |crqs| && crqs[i].name == crqs[j].name :: i == j
    requires crq in crqs && ns in namespaces
    ensures crq.name in Enqueued(legal, crqs, ns)
       <==> (var selected := Selected(legal, crq, Some(namespaces)); selected.Some? && ns in selected.value)
  {
    EnqueuedExactly(legal, crqs, ns, crq.name);
    var selector := AsSelector(legal, crq.namespaceSelector);
    if selector.Some? {
      MatchingExactly(selector.value, namespaces, ns);
    }
    var j :| 0 <= j < |crqs| && crqs[j] == crq;
    assert Selects(legal, crq, ns) ==> crqs[j].name == crq.name && Selects(legal, crqs[j], ns);
  }
}
