/** The NodeSelector scope: which pods a scope requirement matches by their node selector. */
module PodScopes {
  import opened Options
  import opened QuotaObjects

  /** A parsed label selector decides on labels; None is a parse error. */
  type Parser = string -> Option<Labels -> bool>

  datatype Operator = OpIn | OpNotIn | OpExists | OpDoesNotExist | OpUnsupported

  datatype Answer = Answer(matches: bool) | Failure

  const SCOPE_NODE_SELECTOR := "NodeSelector"

  datatype Requirement = Requirement(scope: string, op: Operator, values: seq<string>)

  function MatchIn(parse: Parser, values: seq<string>, labels: Labels): Answer {
    if values == [] then Answer(false)
    else
      match parse(values[0])
      case None => Failure
      case Some(selector) => if selector(labels) then Answer(true) else MatchIn(parse, values[1..], labels)
  }

  function MatchNotIn(parse: Parser, values: seq<string>, labels: Labels): Answer {
    if values == [] then Answer(true)
    else
      match parse(values[0])
      case None => Failure
      case Some(selector) => if selector(labels) then Answer(false) else MatchNotIn(parse, values[1..], labels)
  }

  function PodNodeSelectorMatch(parse: Parser, nodeSelector: Labels, op: Operator, values: seq<string>): Answer {
    match op
    case OpIn => MatchIn(parse, values, nodeSelector)
    case OpNotIn => MatchNotIn(parse, values, nodeSelector)
    case OpExists => Answer(|nodeSelector| != 0)
    case OpDoesNotExist => Answer(|nodeSelector| == 0)
    case OpUnsupported => Failure
  }

  /** Only pods, and only this scope; `pod` is None for any other object. */
  function ConditionalPodMatchesScope(parse: Parser, r: Requirement, pod: Option<Labels>): Answer {
    if pod.None? then Answer(false)
    else if r.scope == SCOPE_NODE_SELECTOR then PodNodeSelectorMatch(parse, pod.value, r.op, r.values)
    else Answer(false)
  }

  ghost predicate Parses(parse: Parser, value: string) {
    parse(value).Some?
  }

  ghost predicate Hits(parse: Parser, value: string, labels: Labels) {
    parse(value).Some? && parse(value).value(labels)
  }

  /** Value `i` decides: it is the first that matches or does not parse. */
  ghost predicate Decides(parse: Parser, values: seq<string>, labels: Labels, i: int) {
    && 0 <= i < |values|
    && (Hits(parse, values[i], labels) || !Parses(parse, values[i]))
    && forall j | 0 <= j < i :: Parses(parse, values[j]) && !Hits(parse, values[j], labels)
  }

  /** The first deciding value settles In: a match makes it true, a bad value an error; without one it is false. */
  lemma {:induction false} InIsDecidedByFirst(parse: Parser, values: seq<string>, labels: Labels)
    ensures forall i | Decides(parse, values, labels, i) ::
              MatchIn(parse, values, labels) == if Parses(parse, values[i]) then Answer(true) else Failure
    ensures (forall i :: !Decides(parse, values, labels, i)) ==> MatchIn(parse, values, labels) == Answer(false)
  {
    if values != [] {
      InIsDecidedByFirst(parse, values[1..], labels);
      var decided := Hits(parse, values[0], labels) || !Parses(parse, values[0]);
      if decided {
        assert Decides(parse, values, labels, 0);
      }
      forall i | Decides(parse, values, labels, i) && i != 0
        ensures !decided && Decides(parse, values[1..], labels, i - 1)
      {
        assert forall j | 0 <= j < i - 1 :: values[1..][j] == values[j + 1];
      }
      forall i | !decided && Decides(parse, values[1..], labels, i) ensures Decides(parse, values, labels, i + 1) {
        assert forall j | 0 < j <= i :: values[j] == values[1..][j - 1];
      }
    }
  }

  /** In and NotIn fail on the same inputs and otherwise give opposite answers. */
  lemma {:induction false} InAndNotInAreComplements(parse: Parser, values: seq<string>, labels: Labels)
    ensures MatchNotIn(parse, values, labels)
         == match MatchIn(parse, values, labels) case Failure => Failure case Answer(b) => Answer(!b)
  {
    if values != [] {
      InAndNotInAreComplements(parse, values[1..], labels);
    }
  }

  /** For a pod, the two pairs of operators are complements, errors included. */
  lemma OperatorsAreComplements(parse: Parser, pod: Labels, values: seq<string>)
    ensures var answer := (op: Operator) =>
              ConditionalPodMatchesScope(parse, Requirement(SCOPE_NODE_SELECTOR, op, values), Some(pod));
            && (answer(OpIn).Failure? <==> answer(OpNotIn).Failure?)
            && (answer(OpIn).Answer? ==> answer(OpNotIn) == Answer(!answer(OpIn).matches))
            && answer(OpExists).Answer? && answer(OpDoesNotExist) == Answer(!answer(OpExists).matches)
            && (answer(OpIn) == Answer(true) <==>
                  exists i :: 0 <= i < |values| && Hits(parse, values[i], pod)
                              && forall j | 0 <= j < i :: Parses(parse, values[j]) && !Hits(parse, values[j], pod))
  {
    InAndNotInAreComplements(parse, values, pod);
    InIsDecidedByFirst(parse, values, pod);
    if i :| 0 <= i < |values| && Hits(parse, values[i], pod)
            && forall j | 0 <= j < i :: Parses(parse, values[j]) && !Hits(parse, values[j], pod) {
      assert Decides(parse, values, pod, i);
    }
    if MatchIn(parse, values, pod) == Answer(true) {
      var i :| Decides(parse, values, pod, i);
    }
  }

  /** What the operators without values mean for a pod, and that nothing else matches: an unsupported operator is an
      error, an object that is no pod and any other scope do not match. */
  lemma OtherAnswers(parse: Parser, r: Requirement, pod: Option<Labels>)
    ensures pod.None? || r.scope != "NodeSelector" ==> ConditionalPodMatchesScope(parse, r, pod) == Answer(false)
    ensures pod.Some? && r.scope == "NodeSelector" ==>
              var answer := ConditionalPodMatchesScope(parse, r, pod);
              && (r.op.OpExists? ==> answer == Answer(exists k :: k in pod.value))
              && (r.op.OpDoesNotExist? ==> answer == Answer(pod.value == map[]))
              && (r.op.OpUnsupported? ==> answer == Failure)
  {
    if pod.Some? {
      assert pod.value == map[] <==> |pod.value| == 0;
      if pod.value != map[] {
        var k :| k in pod.value;
      }
    }
  }
}
