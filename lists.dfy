/** Python 2's `sorted(xs)`, list comprehensions with an `if`, and the
    `for x in xs: if p(x): return x` search.

    `sorted` compares elements only with `<`, which for the library's classes is
    `a.__cmp__(b) < 0`, and it is stable. Its result is therefore the stable sort
    of the input under that strict relation; insertion sort computes the same one. */
module Lists {
  import opened Builtins

  /** `[x for x in s if p(x)]`. */
  function Filter<T(!new)>(s: seq<T>, p: T -> bool): (r: seq<T>)
    ensures |r| <= |s|
    ensures forall x :: x in r <==> x in s && p(x)
  {
    if s == [] then [] else (if p(s[0]) then [s[0]] else []) + Filter(s[1..], p)
  }

  /** `[f(x) for x in s]`, built from the front as a list comprehension appends. */
  function Map<A, B>(s: seq<A>, f: A -> B): (r: seq<B>)
    ensures |r| == |s|
  {
    if s == [] then [] else Map(s[..|s| - 1], f) + [f(s[|s| - 1])]
  }

  lemma MapSnoc<A, B>(s: seq<A>, x: A, f: A -> B)
    ensures Map(s + [x], f) == Map(s, f) + [f(x)]
  {
    assert (s + [x])[..|s|] == s;
  }

  lemma {:induction false} MapPointwise<A, B>(s: seq<A>, f: A -> B)
    ensures forall i :: 0 <= i < |s| ==> Map(s, f)[i] == f(s[i])
  {
    if s != [] {
      var init := s[..|s| - 1];
      MapPointwise(init, f);
      assert forall i :: 0 <= i < |init| ==> s[i] == init[i];
    }
  }

  /** The first element of `s` satisfying `p`, or None. */
  function First<T(!new)>(s: seq<T>, p: T -> bool): (r: Option<T>)
    ensures r.None? <==> forall x :: x in s ==> !p(x)
    ensures r.Some? ==> exists i :: 0 <= i < |s| && s[i] == r.value && p(s[i]) && forall j :: 0 <= j < i ==> !p(s[j])
  {
    if s == [] then None
    else if p(s[0]) then Some(s[0])
    else
      var r := First(s[1..], p);
      assert forall j :: 1 <= j < |s| ==> s[j] == s[1..][j - 1];
      r
  }

  /** Filtering a concatenation filters each part in place: the kept elements stay
      in their original order. */
  lemma {:induction false} FilterConcat<T(!new)>(a: seq<T>, b: seq<T>, p: T -> bool)
    ensures Filter(a + b, p) == Filter(a, p) + Filter(b, p)
  {
    if a == [] {
      assert a + b == b;
    } else {
      assert (a + b)[1..] == a[1..] + b;
      FilterConcat(a[1..], b, p);
    }
  }

  lemma FilterSnoc<T(!new)>(s: seq<T>, x: T, p: T -> bool)
    ensures Filter(s + [x], p) == Filter(s, p) + (if p(x) then [x] else [])
  {
    FilterConcat(s, [x], p);
    assert [x][1..] == [];
  }

  /** Filtering keeps each kept element exactly as often as it occurs. */
  lemma {:induction false} FilterCount<T(!new)>(s: seq<T>, p: T -> bool, x: T)
    ensures multiset(Filter(s, p))[x] == if p(x) then multiset(s)[x] else 0
  {
    if s != [] {
      FilterCount(s[1..], p, x);
      assert s == [s[0]] + s[1..];
    }
  }

  /** `lt` behaves like `<` on a sort key: asymmetric and negatively transitive. */
  ghost predicate StrictWeakOrder<T(!new)>(lt: (T, T) -> bool)
  {
    && (forall a, b :: lt(a, b) ==> !lt(b, a))
    && (forall a, b, c :: lt(a, c) ==> lt(a, b) || lt(b, c))
  }

  /** No element is `lt` an element before it. */
  ghost predicate Sorted<T(!new)>(s: seq<T>, lt: (T, T) -> bool)
  {
    forall i, j :: 0 <= i < j < |s| ==> !lt(s[j], s[i])
  }

  /** `a` and `b` have equal sort keys. */
  predicate Tied<T>(lt: (T, T) -> bool, a: T, b: T)
  {
    !lt(a, b) && !lt(b, a)
  }

  /** Places `x` before the first element of `s` that is not `lt` it. */
  function InsertBy<T(!new)>(x: T, s: seq<T>, lt: (T, T) -> bool): (r: seq<T>)
    ensures multiset(r) == multiset(s) + multiset{x}
  {
    if s == [] then [x]
    else if lt(s[0], x) then
      assert s == [s[0]] + s[1..];
      [s[0]] + InsertBy(x, s[1..], lt)
    else [x] + s
  }

  /** The stable sort of `s` under `lt`. */
  function SortBy<T(!new)>(s: seq<T>, lt: (T, T) -> bool): (r: seq<T>)
    ensures multiset(r) == multiset(s)
  {
    if s == [] then []
    else
      assert s == [s[0]] + s[1..];
      InsertBy(s[0], SortBy(s[1..], lt), lt)
  }

  lemma {:induction false} InsertSorted<T(!new)>(x: T, s: seq<T>, lt: (T, T) -> bool)
    requires StrictWeakOrder(lt) && Sorted(s, lt)
    ensures Sorted(InsertBy(x, s, lt), lt)
  {
    var r := InsertBy(x, s, lt);
    if s == [] {
    } else if lt(s[0], x) {
      var tail := InsertBy(x, s[1..], lt);
      InsertSorted(x, s[1..], lt);
      assert r == [s[0]] + tail;
      forall j | 0 < j < |r| ensures !lt(r[j], s[0]) {
        var z := r[j];
        assert z == tail[j - 1];
        assert z in multiset(tail);
        assert z == x || z in multiset(s[1..]);
        if z != x {
          var k :| 0 <= k < |s[1..]| && s[1..][k] == z;
          assert s[k + 1] == z;
        }
      }
    } else {
      assert r == [x] + s;
      forall j | 0 < j < |r| ensures !lt(r[j], x) {
        assert r[j] == s[j - 1];
        assert j - 1 == 0 || !lt(s[j - 1], s[0]);
      }
    }
  }

  /** `sorted` returns a permutation of its input that is in order. */
  lemma {:induction false} SortBySorted<T(!new)>(s: seq<T>, lt: (T, T) -> bool)
    requires StrictWeakOrder(lt)
    ensures Sorted(SortBy(s, lt), lt)
    ensures multiset(SortBy(s, lt)) == multiset(s)
  {
    if s != [] {
      SortBySorted(s[1..], lt);
      InsertSorted(s[0], SortBy(s[1..], lt), lt);
    }
  }

  /** The elements of `s` whose key equals that of `y`, in their order in `s`. */
  function TiedWith<T(!new)>(s: seq<T>, lt: (T, T) -> bool, y: T): seq<T>
  {
    if s == [] then []
    else (if Tied(lt, s[0], y) then [s[0]] else []) + TiedWith(s[1..], lt, y)
  }

  lemma SwapDisjointPrefixes<T>(head: seq<T>, mid: seq<T>, rest: seq<T>)
    requires head == [] || mid == []
    ensures head + (mid + rest) == mid + (head + rest)
  {
    if head == [] {
      assert head + (mid + rest) == mid + rest && head + rest == rest;
    } else {
      assert mid + rest == rest && mid + (head + rest) == head + rest;
    }
  }

  /** Inserting `x` adds it to the run of elements tied with `y` exactly when it is
      tied with `y` itself, and then in front: whatever `x` passes is below `y`. */
  lemma {:induction false} TiedWithInsert<T(!new)>(x: T, s: seq<T>, lt: (T, T) -> bool, y: T)
    requires Tied(lt, x, y) ==> forall z :: lt(z, x) ==> lt(z, y)
    ensures TiedWith(InsertBy(x, s, lt), lt, y)
         == (if Tied(lt, x, y) then [x] else []) + TiedWith(s, lt, y)
  {
    if s == [] {
    } else if lt(s[0], x) {
      var r := InsertBy(x, s, lt);
      var tail := InsertBy(x, s[1..], lt);
      assert r[0] == s[0] && r[1..] == tail;
      TiedWithInsert(x, s[1..], lt, y);
      var head := if Tied(lt, s[0], y) then [s[0]] else [];
      var mid := if Tied(lt, x, y) then [x] else [];
      var rest := TiedWith(s[1..], lt, y);
      assert TiedWith(r, lt, y) == head + TiedWith(tail, lt, y);
      assert TiedWith(s, lt, y) == head + rest;
      SwapDisjointPrefixes(head, mid, rest);
    } else {
      var r := InsertBy(x, s, lt);
      assert r[0] == x && r[1..] == s;
    }
  }

  /** Stability: among elements with equal keys, `sorted` keeps the input order. */
  lemma {:induction false} SortByStable<T(!new)>(s: seq<T>, lt: (T, T) -> bool, y: T)
    requires StrictWeakOrder(lt)
    ensures TiedWith(SortBy(s, lt), lt, y) == TiedWith(s, lt, y)
  {
    if s != [] {
      SortByStable(s[1..], lt, y);
      var x := s[0];
      forall z | Tied(lt, x, y) && lt(z, x) ensures lt(z, y) {
        assert lt(z, y) || lt(y, x);
      }
      TiedWithInsert(x, SortBy(s[1..], lt), lt, y);
    }
  }
}
