/** The rendering of a resource list in refusals: sorted by resource name, so the same for every map order. */
module PrettyPrint {
  import opened ResourceLists

  /** The order of strings used for sorting: lexicographic, a prefix first. */
  predicate Leq(a: string, b: string) {
    a == [] || (b != [] && (a[0] < b[0] || (a[0] == b[0] && Leq(a[1..], b[1..]))))
  }

  /** The strings differ first at position `i`, or one of them ends there. */
  ghost predicate DifferAt(a: string, b: string, i: nat) {
    i <= |a| && i <= |b| && a[..i] == b[..i] && (i == |a| || i == |b| || a[i] != b[i])
  }

  /** It is the order by the smaller character where the strings first differ; a string that ends there comes first. */
  lemma {:induction false} LeqByFirstDifference(a: string, b: string, i: nat)
    requires DifferAt(a, b, i)
    ensures Leq(a, b) <==> i == |a| || (i < |b| && a[i] < b[i])
  {
    if i > 0 {
      assert a[0] == a[..i][0] == b[..i][0] == b[0];
      assert a[1..][..i - 1] == a[..i][1..] && b[1..][..i - 1] == b[..i][1..];
      LeqByFirstDifference(a[1..], b[1..], i - 1);
    }
  }

  lemma {:induction false} SomeDifference(a: string, b: string) returns (i: nat)
    ensures DifferAt(a, b, i)
  {
    i := 0;
    if a != [] && b != [] && a[0] == b[0] {
      i := SomeDifference(a[1..], b[1..]);
      assert a[..i + 1] == [a[0]] + a[1..][..i] && b[..i + 1] == [b[0]] + b[1..][..i];
      i := i + 1;
    }
  }

  lemma {:induction false} LeqTotal(a: string, b: string)
    ensures Leq(a, b) || Leq(b, a)
  {
    if a != [] && b != [] && a[0] == b[0] {
      LeqTotal(a[1..], b[1..]);
    }
  }

  lemma {:induction false} LeqAntisymmetric(a: string, b: string)
    requires Leq(a, b) && Leq(b, a)
    ensures a == b
  {
    if a != [] && b != [] {
      LeqAntisymmetric(a[1..], b[1..]);
      assert a == [a[0]] + a[1..] && b == [b[0]] + b[1..];
    }
  }

  lemma {:induction false} LeqTransitive(a: string, b: string, c: string)
    requires Leq(a, b) && Leq(b, c)
    ensures Leq(a, c)
  {
    if a != [] && a[0] == b[0] == c[0] {
      LeqTransitive(a[1..], b[1..], c[1..]);
    }
  }

  // ----- Sorted listings of a set -----

  /** Exactly the elements of `names`, each once, in ascending order. */
  ghost predicate Lists(keys: seq<string>, names: set<string>) {
    && (forall k :: k in keys <==> k in names)
    && forall i, j | 0 <= i < j < |keys| :: keys[i] != keys[j] && Leq(keys[i], keys[j])
  }

  function Insert(keys: seq<string>, k: string): seq<string> {
    if keys == [] || Leq(k, keys[0]) then [k] + keys else [keys[0]] + Insert(keys[1..], k)
  }

  /** Sorting by insertion, standing in for the library's sort. */
  function Sort(keys: seq<string>): seq<string> {
    if keys == [] then [] else Insert(Sort(keys[..|keys| - 1]), keys[|keys| - 1])
  }

  lemma {:induction false} InsertLists(keys: seq<string>, names: set<string>, k: string)
    requires Lists(keys, names) && k !in names
    ensures Lists(Insert(keys, k), names + {k})
  {
    if keys == [] {
    } else if Leq(k, keys[0]) {
      forall i | 0 <= i < |keys| ensures Leq(k, keys[i]) {
        if i > 0 {
          LeqTransitive(k, keys[0], keys[i]);
        }
      }
    } else {
      LeqTotal(k, keys[0]);
      assert keys == [keys[0]] + keys[1..];
      assert Lists(keys[1..], names - {keys[0]}) by {
        forall n ensures n in keys[1..] <==> n in names - {keys[0]} {
          assert n in keys <==> n == keys[0] || n in keys[1..];
        }
      }
      InsertLists(keys[1..], names - {keys[0]}, k);
      var rest := Insert(keys[1..], k);
      forall i | 0 <= i < |rest| ensures rest[i] != keys[0] && Leq(keys[0], rest[i]) {
        assert rest[i] in rest;
        if rest[i] != k {
          var j :| 0 <= j < |keys[1..]| && keys[1..][j] == rest[i];
          assert keys[j + 1] == rest[i];
        }
      }
      assert Insert(keys, k) == [keys[0]] + rest;
    }
  }

  lemma {:induction false} SortLists(keys: seq<string>, names: set<string>)
    requires forall k :: k in keys <==> k in names
    requires forall i, j | 0 <= i < j < |keys| :: keys[i] != keys[j]
    ensures Lists(Sort(keys), names)
  {
    if keys != [] {
      var front, last := keys[..|keys| - 1], keys[|keys| - 1];
      assert keys == front + [last];
      forall k ensures k in front <==> k in names - {last} {
        assert k in keys <==> k in front || k == last;
      }
      SortLists(front, names - {last});
      InsertLists(Sort(front), names - {last}, last);
      assert names - {last} + {last} == names;
    }
  }

  lemma EmptyListing(a: seq<string>, names: set<string>)
    requires Lists(a, names)
    ensures a == [] <==> names == {}
  {
    assert a != [] ==> a[0] in a;
  }

  /** There is only one sorted listing of a set. */
  lemma {:induction false} ListingIsUnique(a: seq<string>, b: seq<string>, names: set<string>)
    requires Lists(a, names) && Lists(b, names)
    ensures a == b
  {
    EmptyListing(a, names);
    EmptyListing(b, names);
    if names != {} {
      var n :| n in names;
      assert n in a && n in b;
      assert a[0] in b && b[0] in a;
      var i :| 0 <= i < |b| && b[i] == a[0];
      var j :| 0 <= j < |a| && a[j] == b[0];
      if i != 0 && j != 0 {
        LeqAntisymmetric(a[0], b[0]);
      }
      assert a[0] == b[0];
      TailLists(a, names);
      TailLists(b, names);
      ListingIsUnique(a[1..], b[1..], names - {a[0]});
      assert a == [a[0]] + a[1..] && b == [b[0]] + b[1..];
    }
  }

  lemma TailLists(a: seq<string>, names: set<string>)
    requires Lists(a, names) && a != []
    ensures Lists(a[1..], names - {a[0]}) && a[0] in names
  {
    forall n ensures n in a[1..] <==> n in names - {a[0]} {
      assert a == [a[0]] + a[1..];
      assert n in a <==> n == a[0] || n in a[1..];
    }
  }

  // ----- Rendering -----

  /** One part per key, each followed by a comma but the last. */
  function Render(keys: seq<string>, item: ResourceList, show: int -> string): string
    requires forall k | k in keys :: k in item
  {
    if keys == [] then ""
    else if |keys| == 1 then keys[0] + "=" + show(item[keys[0]])
    else Render(keys[..|keys| - 1], item, show) + "," + keys[|keys| - 1] + "=" + show(item[keys[|keys| - 1]])
  }

  function Join(parts: seq<string>): string {
    if parts == [] then ""
    else if |parts| == 1 then parts[0]
    else Join(parts[..|parts| - 1]) + "," + parts[|parts| - 1]
  }

  lemma JoinLast(parts: seq<string>, last: string)
    requires parts != []
    ensures Join(parts + [last]) == Join(parts) + "," + last
  {
    assert (parts + [last])[..|parts|] == parts;
  }

  /** Between any two parts there is one comma, and nothing else: joining two lists is joining each, with a comma. */
  lemma {:induction false} JoinSplits(left: seq<string>, right: seq<string>)
    requires left != [] && right != []
    ensures Join(left + right) == Join(left) + "," + Join(right)
  {
    var front, last := right[..|right| - 1], right[|right| - 1];
    JoinLast(left + front, last);
    assert left + right == left + front + [last];
    if front == [] {
      assert left + front == left;
    } else {
      JoinSplits(left, front);
      JoinLast(front, last);
      assert front + [last] == right;
      assert Join(left) + "," + Join(front) + "," + last == Join(left) + "," + (Join(front) + "," + last);
    }
  }

  /** The rendering is the keys with their amounts in the order of the list, joined. */
  lemma {:induction false} RenderJoins(keys: seq<string>, item: ResourceList, show: int -> string, parts: seq<string>)
    requires (forall k | k in keys :: k in item) && |parts| == |keys|
    requires forall i | 0 <= i < |keys| :: parts[i] == keys[i] + "=" + show(item[keys[i]])
    ensures Render(keys, item, show) == Join(parts)
  {
    if keys != [] {
      var last := |keys| - 1;
      RenderJoins(keys[..last], item, show, parts[..last]);
      assert Join(parts[..last]) + "," + parts[last]
          == Join(parts[..last]) + "," + keys[last] + "=" + show(item[keys[last]]);
    }
  }

  lemma JoinStep(parts: seq<string>, keys: seq<string>, item: ResourceList, show: int -> string)
    requires (forall k | k in keys :: k in item) && |parts| < |keys|
    requires Join(parts) == Render(keys[..|parts|], item, show)
    ensures var i := |parts|;
            Join(parts + [keys[i] + "=" + show(item[keys[i]])]) == Render(keys[..i + 1], item, show)
  {
    var i := |parts|;
    var constraint := keys[i] + "=" + show(item[keys[i]]);
    assert keys[..i + 1][..i] == keys[..i];
    assert (parts + [constraint])[..i] == parts;
    assert Join(parts) + "," + constraint == Join(parts) + "," + keys[i] + "=" + show(item[keys[i]]);
  }

  /** Collects the keys in whatever order the map is visited, and sorts them. */
  method SortedKeys(item: ResourceList) returns (keys: seq<string>)
    ensures Lists(keys, item.Keys)
  {
    keys := [];
    var todo := item.Keys;
    while todo != {}
      invariant forall k :: k in keys || k in todo <==> k in item
      invariant forall k | k in keys :: k !in todo
      invariant forall i, j | 0 <= i < j < |keys| :: keys[i] != keys[j]
      decreases todo
    {
      var k :| k in todo;
      keys, todo := keys + [k], todo - {k};
    }
    SortLists(keys, item.Keys);
    keys := Sort(keys);
  }

  /** Formats the list; `show` renders a quantity. Whichever order the map is visited in, the text is the rendering
      of the one sorted listing of its keys. */
  method PrettyPrint(item: ResourceList, show: int -> string) returns (text: string)
    ensures exists keys :: Lists(keys, item.Keys)
    ensures forall keys | Lists(keys, item.Keys) :: text == Render(keys, item, show)
  {
    var keys := SortedKeys(item);
    var parts: seq<string> := [];
    for i := 0 to |keys|
      invariant |parts| == i
      invariant Join(parts) == Render(keys[..i], item, show)
    {
      JoinStep(parts, keys, item, show);
      var constraint := keys[i] + "=" + show(item[keys[i]]);
      parts := parts + [constraint];
    }
    text := Join(parts);
    assert keys[..|keys|] == keys;
    forall other | Lists(other, item.Keys) ensures other == keys {
      ListingIsUnique(other, keys, item.Keys);
    }
  }
}
