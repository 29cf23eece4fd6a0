/** Summing the usages of a namespace-to-usage map, and what the admission check learns from the sum. */
module UsageTotals {
  import opened ResourceLists

  type Usages = map<string, ResourceList>

  /** The usage of namespace `n`; a namespace without an entry has the nil usage. */
  function UsageOf(usages: Usages, n: string): ResourceList {
    if n in usages then usages[n] else map[]
  }

  /** The sum of all usages of resource `k`, in no particular order. */
  ghost function SumAt(usages: Usages, k: string): int
    decreases |usages|
  {
    if usages == map[] then 0
    else
      var n :| n in usages;
      Get(usages[n], k) + SumAt(usages - {n}, k)
  }

  ghost function KeysOf(usages: Usages): set<string> {
    set n, k | n in usages && k in usages[n] :: k
  }

  /** The sum computed from scratch: every key of every usage, with the sum of all usages of it. */
  ghost function Total(usages: Usages): ResourceList {
    map k | k in KeysOf(usages) :: SumAt(usages, k)
  }

  /** The total the admission forms: the old total plus the difference for one namespace. */
  ghost function IncrementalTotal(usages: Usages, n: string, used: ResourceList): ResourceList {
    Add(Total(usages), Subtract(used, UsageOf(usages, n)))
  }

  // ----- The sum does not depend on the choices made -----

  lemma {:induction false} SumAtSplit(usages: Usages, n: string, k: string)
    ensures SumAt(usages, k) == Get(UsageOf(usages, n), k) + SumAt(usages - {n}, k)
    decreases |usages|
  {
    if n !in usages {
      assert usages - {n} == usages;
    } else {
      var m :| m in usages && SumAt(usages, k) == Get(usages[m], k) + SumAt(usages - {m}, k);
      if m != n {
        SumAtSplit(usages - {m}, n, k);
        SumAtSplit(usages - {n}, m, k);
        assert usages - {m} - {n} == usages - {n} - {m};
      }
    }
  }

  lemma SumAtUpdate(usages: Usages, n: string, used: ResourceList, k: string)
    ensures SumAt(usages[n := used], k) == SumAt(usages, k) - Get(UsageOf(usages, n), k) + Get(used, k)
  {
    SumAtSplit(usages, n, k);
    SumAtSplit(usages[n := used], n, k);
    assert usages[n := used] - {n} == usages - {n};
  }

  lemma {:induction false} SumAtMissing(usages: Usages, k: string)
    requires k !in KeysOf(usages)
    ensures SumAt(usages, k) == 0
    decreases |usages|
  {
    if usages != map[] {
      var n :| n in usages;
      SumAtSplit(usages, n, k);
      assert KeysOf(usages - {n}) <= KeysOf(usages);
      SumAtMissing(usages - {n}, k);
    }
  }

  lemma TotalAt(usages: Usages, k: string)
    ensures Get(Total(usages), k) == SumAt(usages, k)
  {
    if k !in KeysOf(usages) {
      SumAtMissing(usages, k);
    }
  }

  lemma {:induction false} SumAtMonotone(a: Usages, b: Usages, k: string)
    requires forall n :: Get(UsageOf(a, n), k) <= Get(UsageOf(b, n), k)
    ensures SumAt(a, k) <= SumAt(b, k)
    decreases a.Keys + b.Keys
  {
    if a.Keys + b.Keys == {} {
      assert a == b == map[];
    } else {
      var n :| n in a.Keys + b.Keys;
      var a', b' := a - {n}, b - {n};
      SumAtSplit(a, n, k);
      SumAtSplit(b, n, k);
      assert a'.Keys + b'.Keys == a.Keys + b.Keys - {n};
      forall m ensures Get(UsageOf(a', m), k) <= Get(UsageOf(b', m), k) {
        assert Get(UsageOf(a, m), k) <= Get(UsageOf(b, m), k);
      }
      SumAtMonotone(a', b', k);
    }
  }

  // ----- Order independence of the summing loop -----

  /** What the summing loop computes when it visits the namespaces in the given order. */
  function SumInOrder(order: seq<string>, usages: Usages): ResourceList
    requires forall n | n in order :: n in usages
  {
    if order == [] then map[]
    else Add(SumInOrder(order[..|order| - 1], usages), usages[order[|order| - 1]])
  }

  predicate NoDuplicates(order: seq<string>) {
    forall i, j | 0 <= i < j < |order| :: order[i] != order[j]
  }

  ghost function Restrict(usages: Usages, names: set<string>): Usages {
    map n | n in usages && n in names :: usages[n]
  }

  /** Adding one more namespace to a total gives the total with that namespace included. */
  lemma TotalExtend(usages: Usages, n: string, used: ResourceList)
    requires n !in usages
    ensures Total(usages[n := used]) == Add(Total(usages), used)
  {
    var after := usages[n := used];
    assert KeysOf(after) == KeysOf(usages) + used.Keys by {
      forall k | k in KeysOf(usages) + used.Keys ensures k in KeysOf(after) {
        if k in used {
          assert n in after && k in after[n];
        } else {
          var m :| m in usages && k in usages[m];
          assert m in after && k in after[m];
        }
      }
    }
    forall k | k in KeysOf(after) ensures Total(after)[k] == Add(Total(usages), used)[k] {
      SumAtUpdate(usages, n, used, k);
      TotalAt(usages, k);
    }
  }

  lemma RestrictExtend(usages: Usages, names: set<string>, n: string)
    requires n in usages
    ensures Restrict(usages, names + {n}) == Restrict(usages, names)[n := usages[n]]
  {
  }

  /** Every order of visiting the cache gives the same list, key set included. */
  lemma {:induction false} SumIsOrderIndependent(order: seq<string>, usages: Usages)
    requires forall n | n in order :: n in usages
    requires NoDuplicates(order)
    ensures SumInOrder(order, usages) == Total(Restrict(usages, set n | n in order))
  {
    if order == [] {
      assert Restrict(usages, set n | n in order) == map[];
    } else {
      var front, last := order[..|order| - 1], order[|order| - 1];
      var names := set n | n in front;
      SumIsOrderIndependent(front, usages);
      assert (set n | n in order) == names + {last} by { assert order == front + [last]; }
      RestrictExtend(usages, names, last);
      TotalExtend(Restrict(usages, names), last, usages[last]);
    }
  }

  // ----- Incremental against recomputed -----

  /** The incremental total equals, on every resource, the sum recomputed after the namespace's
      entry is replaced; it carries all the old keys besides those of the new usage. */
  lemma IncrementalEqualsRecomputed(usages: Usages, n: string, used: ResourceList)
    ensures Agree(IncrementalTotal(usages, n, used), Total(usages[n := used]))
    ensures IncrementalTotal(usages, n, used).Keys == KeysOf(usages) + used.Keys
    ensures Total(usages[n := used]).Keys <= IncrementalTotal(usages, n, used).Keys
  {
    var inc, after := IncrementalTotal(usages, n, used), usages[n := used];
    assert UsageOf(usages, n).Keys <= KeysOf(usages);
    forall k ensures Get(inc, k) == Get(Total(after), k) {
      SumAtUpdate(usages, n, used, k);
      TotalAt(usages, k);
      TotalAt(after, k);
    }
  }

  lemma IncrementalAt(usages: Usages, n: string, used: ResourceList, k: string)
    ensures Get(IncrementalTotal(usages, n, used), k) == SumAt(usages[n := used], k)
  {
    IncrementalEqualsRecomputed(usages, n, used);
    TotalAt(usages[n := used], k);
  }

  /** The keys the incremental total still carries although no usage has them any more. */
  ghost function LeftoverKeys(usages: Usages, n: string, used: ResourceList): set<string> {
    IncrementalTotal(usages, n, used).Keys - KeysOf(usages[n := used])
  }

  /** Both totals exceed a limit on the same keys exactly when no leftover key has a negative limit;
      so they always do when the limits are not negative. */
  lemma SameVerdictIffNoNegativeLeftover(usages: Usages, n: string, used: ResourceList, hard: ResourceList)
    ensures Exceeded(IncrementalTotal(usages, n, used), hard) == Exceeded(Total(usages[n := used]), hard)
       <==> forall k | k in LeftoverKeys(usages, n, used) && k in hard :: hard[k] >= 0
  {
    var inc, full := IncrementalTotal(usages, n, used), Total(usages[n := used]);
    IncrementalEqualsRecomputed(usages, n, used);
    assert forall k | k in full :: k in inc && inc[k] == full[k] by {
      forall k | k in full ensures k in inc && inc[k] == full[k] {
        assert Get(inc, k) == Get(full, k);
      }
    }
    forall k | k in LeftoverKeys(usages, n, used) ensures inc[k] == 0 && k !in full {
      assert Get(inc, k) == Get(full, k);
    }
    assert Exceeded(full, hard) <= Exceeded(inc, hard);
    if k :| k in LeftoverKeys(usages, n, used) && k in hard && hard[k] < 0 {
      assert k in Exceeded(inc, hard) && k !in Exceeded(full, hard);
    }
  }

  lemma SameVerdictForNonNegativeHard(usages: Usages, n: string, used: ResourceList, hard: ResourceList)
    requires NonNegative(hard)
    ensures Exceeded(IncrementalTotal(usages, n, used), hard) == Exceeded(Total(usages[n := used]), hard)
  {
    SameVerdictIffNoNegativeLeftover(usages, n, used, hard);
  }

  // ----- Downward closure of the admission check -----

  ghost predicate Admits(usages: Usages, n: string, used: ResourceList, hard: ResourceList) {
    LessThanOrEqual(IncrementalTotal(usages, n, used), hard)
  }

  ghost predicate DownwardClosed(usages: Usages, n: string, hard: ResourceList) {
    forall u, u' | Admits(usages, n, u, hard) && Below(u', u) :: Admits(usages, n, u', hard)
  }

  lemma SmallerIsAdmitted(usages: Usages, n: string, u: ResourceList, u': ResourceList, hard: ResourceList)
    requires forall k | k in hard && k !in KeysOf(usages) :: hard[k] >= 0
    requires Admits(usages, n, u, hard) && Below(u', u)
    ensures Admits(usages, n, u', hard)
  {
    var t, t' := IncrementalTotal(usages, n, u), IncrementalTotal(usages, n, u');
    IncrementalEqualsRecomputed(usages, n, u);
    IncrementalEqualsRecomputed(usages, n, u');
    forall k | k in hard && k in t' ensures t'[k] <= hard[k] {
      assert Get(u', k) <= Get(u, k);
      IncrementalAt(usages, n, u, k);
      IncrementalAt(usages, n, u', k);
      SumAtUpdate(usages, n, u, k);
      SumAtUpdate(usages, n, u', k);
      if k in t {
        assert k !in Exceeded(t, hard);
      }
    }
  }

  /** A usage that fills every limited resource the cache already counts exactly to its limit. */
  ghost function Filling(usages: Usages, n: string, hard: ResourceList): ResourceList {
    map k | k in hard && k in KeysOf(usages) :: hard[k] - SumAt(usages, k) + Get(UsageOf(usages, n), k)
  }

  lemma FillingIsAdmitted(usages: Usages, n: string, hard: ResourceList)
    ensures Admits(usages, n, Filling(usages, n, hard), hard)
    ensures IncrementalTotal(usages, n, Filling(usages, n, hard)).Keys == KeysOf(usages)
  {
    var u := Filling(usages, n, hard);
    var t := IncrementalTotal(usages, n, u);
    IncrementalEqualsRecomputed(usages, n, u);
    forall k | k in hard && k in t ensures t[k] <= hard[k] {
      IncrementalAt(usages, n, u, k);
      SumAtUpdate(usages, n, u, k);
    }
  }

  /** Using less never turns an admitted request into a refused one, exactly when no resource the
      cache does not count yet has a negative limit. */
  lemma DownwardClosedIff(usages: Usages, n: string, hard: ResourceList)
    ensures DownwardClosed(usages, n, hard) <==> forall k | k in hard && k !in KeysOf(usages) :: hard[k] >= 0
  {
    if forall k | k in hard && k !in KeysOf(usages) :: hard[k] >= 0 {
      forall u, u' | Admits(usages, n, u, hard) && Below(u', u) ensures Admits(usages, n, u', hard) {
        SmallerIsAdmitted(usages, n, u, u', hard);
      }
    } else {
      var k :| k in hard && k !in KeysOf(usages) && hard[k] < 0;
      var u := Filling(usages, n, hard);
      var u' := u[k := 0];
      FillingIsAdmitted(usages, n, hard);
      IncrementalEqualsRecomputed(usages, n, u');
      IncrementalAt(usages, n, u', k);
      SumAtUpdate(usages, n, u', k);
      SumAtMissing(usages, k);
      assert UsageOf(usages, n).Keys <= KeysOf(usages);
      assert k in Exceeded(IncrementalTotal(usages, n, u'), hard);
      assert Below(u', u);
    }
  }

  /** From a total within the limits, a request that raises no resource is admitted. */
  lemma NoPositiveDeltaIsAdmitted(usages: Usages, n: string, used: ResourceList, hard: ResourceList)
    requires NonNegative(hard)
    requires LessThanOrEqual(Total(usages), hard)
    requires Below(used, UsageOf(usages, n))
    ensures Admits(usages, n, used, hard)
  {
    var t := IncrementalTotal(usages, n, used);
    forall k | k in hard && k in t ensures t[k] <= hard[k] {
      assert Get(used, k) <= Get(UsageOf(usages, n), k);
      IncrementalAt(usages, n, used, k);
      SumAtUpdate(usages, n, used, k);
      TotalAt(usages, k);
      if k in Total(usages) {
        assert k !in Exceeded(Total(usages), hard);
      }
    }
  }
}
