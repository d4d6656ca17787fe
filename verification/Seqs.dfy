/** Sums, filters and the stable sort that the other modules share. */
module Seqs {

  datatype Option<+T> = None | Some(value: T)

  function Abs(x: int): (r: int)
    ensures r >= 0
  {
    if x < 0 then -x else x
  }

  function Min(x: int, y: int): int {
    if x <= y then x else y
  }

  function Max(x: int, y: int): int {
    if x >= y then x else y
  }

  function SumOf<T>(xs: seq<T>, f: T -> int): int {
    if xs == [] then 0 else f(xs[0]) + SumOf(xs[1..], f)
  }

  lemma {:induction false} SumOfConcat<T>(xs: seq<T>, ys: seq<T>, f: T -> int)
    ensures SumOf(xs + ys, f) == SumOf(xs, f) + SumOf(ys, f)
  {
    if xs == [] {
      assert xs + ys == ys;
    } else {
      assert (xs + ys)[1..] == xs[1..] + ys;
      SumOfConcat(xs[1..], ys, f);
    }
  }

  lemma SumOfOne<T>(x: T, f: T -> int)
    ensures SumOf([x], f) == f(x)
  {
    assert [x][1..] == [];
  }

  lemma SumOfCons<T>(x: T, xs: seq<T>, f: T -> int)
    ensures SumOf([x] + xs, f) == f(x) + SumOf(xs, f)
  {
    assert ([x] + xs)[1..] == xs;
  }

  lemma SumOfSnoc<T>(xs: seq<T>, x: T, f: T -> int)
    ensures SumOf(xs + [x], f) == SumOf(xs, f) + f(x)
  {
    SumOfConcat(xs, [x], f);
    SumOfOne(x, f);
  }

  function Filter<T>(xs: seq<T>, p: T -> bool): seq<T> {
    if xs == [] then [] else (if p(xs[0]) then [xs[0]] else []) + Filter(xs[1..], p)
  }

  lemma {:induction false} FilterMembers<T(!new)>(xs: seq<T>, p: T -> bool)
    ensures forall x :: x in Filter(xs, p) <==> x in xs && p(x)
  {
    if xs != [] {
      FilterMembers(xs[1..], p);
    }
  }

  lemma {:induction false} FilterConcat<T(!new)>(xs: seq<T>, ys: seq<T>, p: T -> bool)
    ensures Filter(xs + ys, p) == Filter(xs, p) + Filter(ys, p)
  {
    if xs == [] {
      assert xs + ys == ys;
    } else {
      assert (xs + ys)[1..] == xs[1..] + ys;
      FilterConcat(xs[1..], ys, p);
      var head := if p(xs[0]) then [xs[0]] else [];
      assert head + (Filter(xs[1..], p) + Filter(ys, p)) == head + Filter(xs[1..], p) + Filter(ys, p);
    }
  }

  lemma {:induction false} FilterSnoc<T(!new)>(xs: seq<T>, x: T, p: T -> bool)
    ensures Filter(xs + [x], p) == if p(x) then Filter(xs, p) + [x] else Filter(xs, p)
  {
    FilterConcat(xs, [x], p);
    assert [x][1..] == [];
    assert Filter([x], p) == if p(x) then [x] else [];
  }

  lemma {:induction false} FilterAll<T(!new)>(xs: seq<T>, p: T -> bool)
    requires forall x :: x in xs ==> p(x)
    ensures Filter(xs, p) == xs
  {
    if xs != [] {
      FilterAll(xs[1..], p);
    }
  }

  lemma {:induction false} FilterNone<T(!new)>(xs: seq<T>, p: T -> bool)
    requires forall x :: x in xs ==> !p(x)
    ensures Filter(xs, p) == []
  {
    if xs != [] {
      FilterNone(xs[1..], p);
    }
  }

  lemma {:induction false} FilterTwice<T(!new)>(xs: seq<T>, p: T -> bool, q: T -> bool, r: T -> bool)
    requires forall x :: x in xs ==> (r(x) <==> p(x) && q(x))
    ensures Filter(Filter(xs, p), q) == Filter(xs, r)
  {
    if xs != [] {
      var head := if p(xs[0]) then [xs[0]] else [];
      FilterConcat(head, Filter(xs[1..], p), q);
      FilterTwice(xs[1..], p, q, r);
    }
  }

  lemma {:induction false} FilterSorted<T(!new)>(xs: seq<T>, le: (T, T) -> bool, p: T -> bool)
    requires Sorted(xs, le)
    ensures Sorted(Filter(xs, p), le)
  {
    if xs != [] {
      FilterSorted(xs[1..], le, p);
      FilterMembers(xs[1..], p);
      var rest := Filter(xs[1..], p);
      forall j | 0 <= j < |rest| ensures le(xs[0], rest[j]) {
        assert rest[j] in rest;
        var k :| 0 <= k < |xs[1..]| && xs[1..][k] == rest[j];
      }
    }
  }

  /** Array.prototype.sort is stable; `le(a, b)` says the comparator does not put a after b. */
  function Insert<T>(s: seq<T>, x: T, le: (T, T) -> bool): seq<T> {
    if s == [] then [x]
    else if le(s[|s| - 1], x) then s + [x]
    else Insert(s[..|s| - 1], x, le) + [s[|s| - 1]]
  }

  function Sort<T>(xs: seq<T>, le: (T, T) -> bool): seq<T> {
    if xs == [] then [] else Insert(Sort(xs[..|xs| - 1], le), xs[|xs| - 1], le)
  }

  ghost predicate TotalPreorder<T(!new)>(le: (T, T) -> bool) {
    && (forall a, b :: le(a, b) || le(b, a))
    && (forall a, b, c :: le(a, b) && le(b, c) ==> le(a, c))
  }

  ghost predicate Sorted<T>(s: seq<T>, le: (T, T) -> bool) {
    forall i, j :: 0 <= i < j < |s| ==> le(s[i], s[j])
  }

  lemma Transitive<T(!new)>(le: (T, T) -> bool, a: T, b: T, c: T)
    requires TotalPreorder(le) && le(a, b) && le(b, c)
    ensures le(a, c)
  {
  }

  lemma Total<T(!new)>(le: (T, T) -> bool, a: T, b: T)
    requires TotalPreorder(le)
    ensures le(a, b) || le(b, a)
  {
  }

  lemma {:induction false} InsertIsPermutation<T(!new)>(s: seq<T>, x: T, le: (T, T) -> bool)
    ensures multiset(Insert(s, x, le)) == multiset(s) + multiset{x}
  {
    if s != [] {
      assert s == s[..|s| - 1] + [s[|s| - 1]];
      if !le(s[|s| - 1], x) {
        InsertIsPermutation(s[..|s| - 1], x, le);
      }
    }
  }

  lemma {:induction false} InsertKeepsSorted<T(!new)>(s: seq<T>, x: T, le: (T, T) -> bool)
    requires TotalPreorder(le)
    requires Sorted(s, le)
    ensures Sorted(Insert(s, x, le), le)
  {
    hide TotalPreorder;
    if s != [] {
      var last := s[|s| - 1];
      if le(last, x) {
        forall i | 0 <= i < |s| - 1 ensures le(s[i], x) {
          Transitive(le, s[i], last, x);
        }
      } else {
        var init := s[..|s| - 1];
        Total(le, x, last);
        InsertKeepsSorted(init, x, le);
        InsertIsPermutation(init, x, le);
        var r := Insert(init, x, le);
        forall i | 0 <= i < |r| ensures le(r[i], last) {
          assert r[i] in multiset(r);
          assert r[i] == x || r[i] in init;
        }
      }
    }
  }

  lemma {:induction false} SortIsSorted<T(!new)>(xs: seq<T>, le: (T, T) -> bool)
    requires TotalPreorder(le)
    ensures Sorted(Sort(xs, le), le)
    ensures multiset(Sort(xs, le)) == multiset(xs)
  {
    if xs != [] {
      var init := xs[..|xs| - 1];
      assert xs == init + [xs[|xs| - 1]];
      SortIsSorted(init, le);
      InsertKeepsSorted(Sort(init, le), xs[|xs| - 1], le);
      InsertIsPermutation(Sort(init, le), xs[|xs| - 1], le);
    }
  }

  lemma {:induction false} SortSortedIsIdentity<T>(xs: seq<T>, le: (T, T) -> bool)
    requires Sorted(xs, le)
    ensures Sort(xs, le) == xs
  {
    if xs != [] {
      var init := xs[..|xs| - 1];
      SortSortedIsIdentity(init, le);
      assert xs == init + [xs[|xs| - 1]];
      if |init| > 0 {
        assert le(xs[|xs| - 2], xs[|xs| - 1]);
      }
    }
  }

  /** Stability: filtering commutes with inserting into, and so with sorting, a list. */
  lemma {:induction false} FilterInsert<T(!new)>(s: seq<T>, x: T, le: (T, T) -> bool, p: T -> bool)
    requires TotalPreorder(le)
    requires Sorted(s, le)
    ensures Filter(Insert(s, x, le), p)
         == if p(x) then Insert(Filter(s, p), x, le) else Filter(s, p)
  {
    hide TotalPreorder;
    if s == [] {
      FilterSnoc([], x, p);
    } else {
      var last, init := s[|s| - 1], s[..|s| - 1];
      assert s == init + [last];
      FilterSnoc(init, last, p);
      if le(last, x) {
        FilterSnoc(s, x, p);
        FilterMembers(s, p);
        InsertAtEnd(Filter(s, p), s, x, le);
      } else {
        FilterInsert(init, x, le, p);
        FilterSnoc(Insert(init, x, le), last, p);
        InsertBeforeLast(Filter(init, p), last, x, le);
      }
    }
  }

  lemma InsertAtEnd<T(!new)>(f: seq<T>, s: seq<T>, x: T, le: (T, T) -> bool)
    requires TotalPreorder(le) && Sorted(s, le)
    requires s != [] && le(s[|s| - 1], x)
    requires forall y :: y in f ==> y in s
    ensures Insert(f, x, le) == f + [x]
  {
    hide TotalPreorder;
    if f != [] {
      var y := f[|f| - 1];
      assert y in f;
      var k :| 0 <= k < |s| && s[k] == y;
      if k < |s| - 1 {
        Transitive(le, y, s[|s| - 1], x);
      }
    }
  }

  lemma InsertBeforeLast<T>(f: seq<T>, last: T, x: T, le: (T, T) -> bool)
    requires !le(last, x)
    ensures Insert(f + [last], x, le) == Insert(f, x, le) + [last]
  {
    assert (f + [last])[..|f|] == f;
  }

  lemma {:induction false} FilterSort<T(!new)>(xs: seq<T>, le: (T, T) -> bool, p: T -> bool)
    requires TotalPreorder(le)
    ensures Filter(Sort(xs, le), p) == Sort(Filter(xs, p), le)
  {
    if xs != [] {
      var init, last := xs[..|xs| - 1], xs[|xs| - 1];
      assert xs == init + [last];
      FilterSort(init, le, p);
      SortIsSorted(init, le);
      FilterInsert(Sort(init, le), last, le, p);
      FilterSnoc(init, last, p);
      if p(last) {
        var f := Filter(init, p);
        assert (f + [last])[..|f|] == f;
      }
    }
  }

  lemma {:induction false} SumOfInsert<T(!new)>(s: seq<T>, x: T, le: (T, T) -> bool, f: T -> int)
    ensures SumOf(Insert(s, x, le), f) == SumOf(s, f) + f(x)
  {
    if s == [] {
      SumOfOne(x, f);
    } else {
      var last, init := s[|s| - 1], s[..|s| - 1];
      assert s == init + [last];
      SumOfSnoc(init, last, f);
      if le(last, x) {
        SumOfSnoc(s, x, f);
      } else {
        SumOfInsert(init, x, le, f);
        SumOfSnoc(Insert(init, x, le), last, f);
      }
    }
  }

  /** Sorting does not change a total. */
  lemma {:induction false} SumOfSort<T(!new)>(xs: seq<T>, le: (T, T) -> bool, f: T -> int)
    ensures SumOf(Sort(xs, le), f) == SumOf(xs, f)
  {
    if xs != [] {
      var last, init := xs[|xs| - 1], xs[..|xs| - 1];
      assert xs == init + [last];
      SumOfSnoc(init, last, f);
      SumOfSort(init, le, f);
      SumOfInsert(Sort(init, le), last, le, f);
    }
  }
}
