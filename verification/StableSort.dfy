// The stable sort of tool listings by name, and why looking a name up after
// sorting finds what a plain scan would.
module StableSort {
  import opened Prelude
  import opened Text

  datatype Named<T> = Named(name: string, item: T)

  ghost predicate Sorted<T>(s: seq<Named<T>>) {
    forall i, j :: 0 <= i < j < |s| ==> StrLe(s[i].name, s[j].name)
  }

  // The items of one name, in order.
  function Matching<T>(s: seq<Named<T>>, name: string): seq<Named<T>> {
    if s == [] then []
    else Matching(s[..|s| - 1], name) + (if s[|s| - 1].name == name then [s[|s| - 1]] else [])
  }

  lemma {:induction false} MatchingHas<T>(s: seq<Named<T>>, x: Named<T>, name: string)
    ensures x in Matching(s, name) <==> x in s && x.name == name
  {
    if s != [] {
      MatchingHas(s[..|s| - 1], x, name);
      assert s == s[..|s| - 1] + [s[|s| - 1]];
    }
  }

  // Sorted by name, each name keeping its items in their original order.
  ghost predicate IsStableSort<T(!new)>(s: seq<Named<T>>, r: seq<Named<T>>) {
    Sorted(r) && forall name :: Matching(r, name) == Matching(s, name)
  }

  // Put `x` after everything that does not come after it.
  function InsertLast<T>(s: seq<Named<T>>, x: Named<T>): (r: seq<Named<T>>)
    ensures |r| == |s| + 1
  {
    if s == [] || StrLe(s[|s| - 1].name, x.name) then s + [x]
    else InsertLast(s[..|s| - 1], x) + [s[|s| - 1]]
  }

  function SortByName<T>(s: seq<Named<T>>): (r: seq<Named<T>>)
    ensures |r| == |s|
  {
    if s == [] then [] else InsertLast(SortByName(s[..|s| - 1]), s[|s| - 1])
  }

  lemma {:induction false} MatchingAppend<T>(a: seq<Named<T>>, b: seq<Named<T>>, name: string)
    ensures Matching(a + b, name) == Matching(a, name) + Matching(b, name)
  {
    if b == [] {
      assert a + b == a;
    } else {
      MatchingAppend(a, b[..|b| - 1], name);
      assert (a + b)[..|a + b| - 1] == a + b[..|b| - 1];
    }
  }

  lemma {:induction false} InsertLastElements<T(!new)>(s: seq<Named<T>>, x: Named<T>)
    ensures forall y :: y in InsertLast(s, x) <==> y in s || y == x
  {
    if s != [] && !StrLe(s[|s| - 1].name, x.name) {
      InsertLastElements(s[..|s| - 1], x);
      assert s == s[..|s| - 1] + [s[|s| - 1]];
    }
  }

  lemma {:induction false} InsertLastSorted<T(!new)>(s: seq<Named<T>>, x: Named<T>)
    requires Sorted(s)
    ensures Sorted(InsertLast(s, x))
  {
    if s == [] {
    } else if StrLe(s[|s| - 1].name, x.name) {
      forall i | 0 <= i < |s|
        ensures StrLe(s[i].name, x.name)
      {
        if i < |s| - 1 {
          StrLeTransitive(s[i].name, s[|s| - 1].name, x.name);
        }
      }
    } else {
      var last, rest := s[|s| - 1], s[..|s| - 1];
      InsertLastSorted(rest, x);
      InsertLastElements(rest, x);
      StrLeTotal(last.name, x.name);
      var r := InsertLast(rest, x);
      forall i | 0 <= i < |r|
        ensures StrLe(r[i].name, last.name)
      {
        var y := r[i];
        assert y in InsertLast(rest, x);
        if y in rest {
          var j :| 0 <= j < |rest| && rest[j] == y;
          assert s[j] == y;
          assert StrLe(s[j].name, s[|s| - 1].name);
        } else {
          assert y == x;
        }
      }
    }
  }

  // Two items of different names may change places.
  lemma {:induction false} MatchingSwap<T>(s: seq<Named<T>>, x: Named<T>, y: Named<T>, name: string)
    requires x.name != y.name
    ensures Matching(s + [x] + [y], name) == Matching(s + [y] + [x], name)
  {
    MatchingAppend(s, [x], name);
    MatchingAppend(s + [x], [y], name);
    MatchingAppend(s, [y], name);
    MatchingAppend(s + [y], [x], name);
    MatchingOfOne(x, name);
    MatchingOfOne(y, name);
  }

  lemma {:induction false} InsertLastMatching<T>(s: seq<Named<T>>, x: Named<T>, name: string)
    ensures Matching(InsertLast(s, x), name) == Matching(s + [x], name)
  {
    if s != [] && !StrLe(s[|s| - 1].name, x.name) {
      var last, rest := s[|s| - 1], s[..|s| - 1];
      InsertLastMatching(rest, x, name);
      StrLeReflexive(x.name);
      MatchingAppend(InsertLast(rest, x), [last], name);
      MatchingAppend(rest + [x], [last], name);
      MatchingSwap(rest, x, last, name);
      assert s == rest + [last];
    }
  }

  lemma {:induction false} StrLeReflexive(a: string)
    ensures StrLe(a, a)
  {
    if a != [] {
      StrLeReflexive(a[1..]);
    }
  }

  lemma {:induction false} SortStepMatching<T>(rest: seq<Named<T>>, sorted: seq<Named<T>>, x: Named<T>, name: string)
    requires Matching(sorted, name) == Matching(rest, name)
    ensures Matching(InsertLast(sorted, x), name) == Matching(rest + [x], name)
  {
    InsertLastMatching(sorted, x, name);
    MatchingAppend(sorted, [x], name);
    MatchingAppend(rest, [x], name);
  }

  lemma {:induction false} SortByNameIsStable<T(!new)>(s: seq<Named<T>>)
    ensures IsStableSort(s, SortByName(s))
  {
    if s != [] {
      var rest, x := s[..|s| - 1], s[|s| - 1];
      SortByNameIsStable(rest);
      var sorted := SortByName(rest);
      InsertLastSorted(sorted, x);
      assert s == rest + [x];
      forall name
        ensures Matching(InsertLast(sorted, x), name) == Matching(rest + [x], name)
      {
        SortStepMatching(rest, sorted, x, name);
      }
    }
  }

  // A stable sort is unique, so this one is the library's.
  lemma {:induction false} StableSortIsUnique<T(!new)>(a: seq<Named<T>>, b: seq<Named<T>>)
    requires Sorted(a) && Sorted(b)
    requires forall name :: Matching(a, name) == Matching(b, name)
    ensures a == b
    decreases |a|
  {
    if a == [] {
      if b != [] {
        MatchingHas(a, b[0], b[0].name);
        MatchingHas(b, b[0], b[0].name);
      }
    } else {
      SameFirst(a, b);
      forall name
        ensures Matching(a[1..], name) == Matching(b[1..], name)
      {
        MatchingOfTail(a, name);
        MatchingOfTail(b, name);
      }
      StableSortIsUnique(a[1..], b[1..]);
      assert a == [a[0]] + a[1..] && b == [b[0]] + b[1..];
    }
  }

  lemma {:induction false} MatchingOfTail<T>(s: seq<Named<T>>, name: string)
    requires s != []
    ensures
      var first := if s[0].name == name then [s[0]] else [];
      Matching(s, name) == first + Matching(s[1..], name) && Matching(s[1..], name) == Matching(s, name)[|first|..]
  {
    assert s == [s[0]] + s[1..];
    MatchingAppend([s[0]], s[1..], name);
    MatchingOfOne(s[0], name);
  }

  lemma {:induction false} MatchingOfOne<T>(x: Named<T>, name: string)
    ensures Matching([x], name) == if x.name == name then [x] else []
  {
    assert [x][..0] == [];
    assert Matching([x][..0], name) == [];
  }

  lemma {:induction false} SameFirst<T(!new)>(a: seq<Named<T>>, b: seq<Named<T>>)
    requires Sorted(a) && Sorted(b) && a != []
    requires forall name :: Matching(a, name) == Matching(b, name)
    ensures b != [] && a[0] == b[0]
  {
    MatchingHas(a, a[0], a[0].name);
    MatchingHas(b, a[0], a[0].name);
    MatchingHas(a, b[0], b[0].name);
    MatchingHas(b, b[0], b[0].name);
    LeastName(a, b[0]);
    LeastName(b, a[0]);
    StrLeAntisymmetric(a[0].name, b[0].name);
    MatchingOfTail(a, a[0].name);
    MatchingOfTail(b, a[0].name);
    assert Matching(a, a[0].name)[0] == Matching(b, a[0].name)[0];
  }

  lemma {:induction false} LeastName<T>(s: seq<Named<T>>, x: Named<T>)
    requires Sorted(s) && x in s
    ensures StrLe(s[0].name, x.name)
  {
    StrLeReflexive(x.name);
  }

  // The first item of a name.
  function Find<T>(s: seq<Named<T>>, name: string): Option<Named<T>> {
    if s == [] then None
    else if s[0].name == name then Some(s[0])
    else Find(s[1..], name)
  }

  lemma {:induction false} FindIsFirstMatching<T>(s: seq<Named<T>>, name: string)
    ensures Find(s, name) == (if Matching(s, name) == [] then None else Some(Matching(s, name)[0]))
  {
    if s != [] {
      FindIsFirstMatching(s[1..], name);
      MatchingOfTail(s, name);
    }
  }

  // Searching any stable sort for a name finds the first one in the original
  // order, even when names collide.
  lemma {:induction false} FindAfterSort<T(!new)>(s: seq<Named<T>>, r: seq<Named<T>>, name: string)
    requires IsStableSort(s, r)
    ensures Find(r, name) == Find(s, name)
  {
    FindIsFirstMatching(s, name);
    FindIsFirstMatching(r, name);
  }

  // Nothing is lost or invented.
  lemma {:induction false} StableSortIsPermutation<T(!new)>(s: seq<Named<T>>, r: seq<Named<T>>)
    requires IsStableSort(s, r)
    ensures multiset(s) == multiset(r)
  {
    forall x
      ensures multiset(s)[x] == multiset(r)[x]
    {
      CountInMatching(s, x);
      CountInMatching(r, x);
    }
  }

  lemma {:induction false} CountInMatching<T>(s: seq<Named<T>>, x: Named<T>)
    ensures multiset(s)[x] == multiset(Matching(s, x.name))[x]
  {
    if s != [] {
      CountInMatching(s[..|s| - 1], x);
      assert s == s[..|s| - 1] + [s[|s| - 1]];
    }
  }
}
