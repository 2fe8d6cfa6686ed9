/** Python's stable `sorted`, with what makes its result independent of the order of its input. */
module Sorting {
  ghost predicate TotalPreorder<T(!new)>(leq: (T, T) -> bool) {
    && (forall x, y :: leq(x, y) || leq(y, x))
    && (forall x, y, z :: leq(x, y) && leq(y, z) ==> leq(x, z))
  }

  /** No two different elements tie. */
  ghost predicate NoTies<T>(s: seq<T>, leq: (T, T) -> bool) {
    forall x, y :: x in s && y in s && leq(x, y) && leq(y, x) ==> x == y
  }

  ghost predicate Ordered<T>(s: seq<T>, leq: (T, T) -> bool) {
    forall i, j :: 0 <= i < j < |s| ==> leq(s[i], s[j])
  }

  /** Put x behind everything that is not above it. */
  function Insert<T>(s: seq<T>, x: T, leq: (T, T) -> bool): seq<T> {
    if s == [] then [x]
    else if leq(s[|s| - 1], x) then s + [x]
    else Insert(s[..|s| - 1], x, leq) + [s[|s| - 1]]
  }

  function Sorted<T>(s: seq<T>, leq: (T, T) -> bool): seq<T> {
    if s == [] then [] else Insert(Sorted(s[..|s| - 1], leq), s[|s| - 1], leq)
  }

  lemma {:induction false} InsertPermutes<T>(s: seq<T>, x: T, leq: (T, T) -> bool)
    ensures multiset(Insert(s, x, leq)) == multiset(s) + multiset{x}
  {
    if s != [] && !leq(s[|s| - 1], x) {
      InsertPermutes(s[..|s| - 1], x, leq);
      assert s == s[..|s| - 1] + [s[|s| - 1]];
    }
  }

  lemma {:induction false} SortKeepsAll<T>(s: seq<T>, leq: (T, T) -> bool)
    ensures multiset(Sorted(s, leq)) == multiset(s)
  {
    hide Insert;
    if s != [] {
      SortKeepsAll(s[..|s| - 1], leq);
      InsertPermutes(Sorted(s[..|s| - 1], leq), s[|s| - 1], leq);
      assert s == s[..|s| - 1] + [s[|s| - 1]];
    }
  }

  lemma SortPermutes<T>(s: seq<T>, leq: (T, T) -> bool)
    ensures multiset(Sorted(s, leq)) == multiset(s) && |Sorted(s, leq)| == |s|
    ensures forall x :: x in Sorted(s, leq) <==> x in s
  {
    hide Sorted;
    SortKeepsAll(s, leq);
    assert |multiset(Sorted(s, leq))| == |multiset(s)|;
    forall x ensures x in Sorted(s, leq) <==> x in s {
      assert x in Sorted(s, leq) <==> x in multiset(Sorted(s, leq));
    }
  }

  lemma {:induction false} InsertOrders<T(!new)>(s: seq<T>, x: T, leq: (T, T) -> bool)
    requires TotalPreorder(leq) && Ordered(s, leq)
    ensures Ordered(Insert(s, x, leq), leq)
  {
    if s != [] && !leq(s[|s| - 1], x) {
      var front, last := s[..|s| - 1], s[|s| - 1];
      InsertOrders(front, x, leq);
      InsertPermutes(front, x, leq);
      forall i | 0 <= i < |Insert(front, x, leq)| ensures leq(Insert(front, x, leq)[i], last) {
        assert Insert(front, x, leq)[i] in multiset(front) + multiset{x};
      }
    }
  }

  lemma {:induction false} SortOrders<T(!new)>(s: seq<T>, leq: (T, T) -> bool)
    requires TotalPreorder(leq)
    ensures Ordered(Sorted(s, leq), leq)
  {
    if s != [] {
      SortOrders(s[..|s| - 1], leq);
      InsertOrders(Sorted(s[..|s| - 1], leq), s[|s| - 1], leq);
    }
  }

  /** Without ties the least element comes first in every order. */
  lemma SameHead<T(!new)>(a: seq<T>, b: seq<T>, leq: (T, T) -> bool)
    requires TotalPreorder(leq) && Ordered(a, leq) && Ordered(b, leq)
    requires multiset(a) == multiset(b) && NoTies(a, leq) && a != []
    ensures b != [] && a[0] == b[0]
  {
    assert |multiset(b)| == |a|;
    assert a[0] in multiset(b) && b[0] in multiset(a);
    assert leq(a[0], b[0]) && leq(b[0], a[0]);
  }

  /** Without ties there is only one order. */
  lemma {:induction false} OrderedIsUnique<T(!new)>(a: seq<T>, b: seq<T>, leq: (T, T) -> bool)
    requires TotalPreorder(leq) && Ordered(a, leq) && Ordered(b, leq)
    requires multiset(a) == multiset(b) && NoTies(a, leq)
    ensures a == b
  {
    if a == [] {
      assert |multiset(b)| == 0;
    } else {
      SameHead(a, b, leq);
      hide TotalPreorder;
      assert a == [a[0]] + a[1..] && b == [b[0]] + b[1..];
      assert multiset(a[1..]) == multiset(a) - multiset{a[0]};
      assert multiset(b[1..]) == multiset(b) - multiset{b[0]};
      OrderedIsUnique(a[1..], b[1..], leq);
    }
  }

  /** Sorting forgets the order its input was listed in. */
  lemma SortForgetsOrder<T(!new)>(a: seq<T>, b: seq<T>, leq: (T, T) -> bool)
    requires TotalPreorder(leq) && multiset(a) == multiset(b) && NoTies(a, leq)
    ensures Sorted(a, leq) == Sorted(b, leq)
  {
    SortPermutes(a, leq);
    SortPermutes(b, leq);
    SortOrders(a, leq);
    SortOrders(b, leq);
    OrderedIsUnique(Sorted(a, leq), Sorted(b, leq), leq);
  }

  function Filter<T>(s: seq<T>, keep: T -> bool): seq<T> {
    if s == [] then []
    else Filter(s[..|s| - 1], keep) + (if keep(s[|s| - 1]) then [s[|s| - 1]] else [])
  }

  lemma FilterAppends<T>(s: seq<T>, x: T, keep: T -> bool)
    ensures Filter(s + [x], keep) == Filter(s, keep) + (if keep(x) then [x] else [])
  {
    assert (s + [x])[..|s|] == s;
  }

  lemma {:induction false} InsertIsStable<T>(s: seq<T>, x: T, leq: (T, T) -> bool, keep: T -> bool)
    requires forall y :: y in s && keep(y) && keep(x) ==> leq(y, x)
    ensures Filter(Insert(s, x, leq), keep) == Filter(s, keep) + (if keep(x) then [x] else [])
  {
    if s == [] || leq(s[|s| - 1], x) {
      FilterAppends(s, x, keep);
      assert [] + [x] == [x];
    } else {
      InsertIsStable(s[..|s| - 1], x, leq, keep);
      FilterAppends(Insert(s[..|s| - 1], x, leq), s[|s| - 1], keep);
    }
  }

  /** Elements that tie keep the order they were listed in. */
  lemma {:induction false} SortIsStable<T>(s: seq<T>, leq: (T, T) -> bool, keep: T -> bool)
    requires forall y, z :: y in s && z in s && keep(y) && keep(z) ==> leq(y, z)
    ensures Filter(Sorted(s, leq), keep) == Filter(s, keep)
  {
    hide Insert;
    if s != [] {
      var front, last := s[..|s| - 1], s[|s| - 1];
      assert forall y :: y in front ==> y in s;
      SortIsStable(front, leq, keep);
      var t := Sorted(front, leq);
      SortPermutes(front, leq);
      forall y | y in t && keep(y) && keep(last) ensures leq(y, last) {
        assert y in multiset(t);
        assert y in front && last in s;
      }
      InsertIsStable(t, last, leq, keep);
    }
  }

  lemma {:induction false} FilterInsert<T(!new)>(s: seq<T>, x: T, leq: (T, T) -> bool, keep: T -> bool)
    requires TotalPreorder(leq) && Ordered(s, leq)
    ensures Filter(Insert(s, x, leq), keep) == if keep(x) then Insert(Filter(s, keep), x, leq) else Filter(s, keep)
  {
    if s == [] {
    } else if leq(s[|s| - 1], x) {
      FilterAppends(s, x, keep);
      FilterMembers(s, keep);
      if keep(x) && Filter(s, keep) != [] {
        var last := Filter(s, keep)[|Filter(s, keep)| - 1];
        assert last in s;
        assert leq(last, s[|s| - 1]);
      }
    } else {
      FilterInsert(s[..|s| - 1], x, leq, keep);
      FilterAppends(Insert(s[..|s| - 1], x, leq), s[|s| - 1], keep);
      if keep(x) && !keep(s[|s| - 1]) {
        assert Filter(s, keep) == Filter(s[..|s| - 1], keep);
      }
    }
  }

  lemma {:induction false} FilterMembers<T>(s: seq<T>, keep: T -> bool)
    ensures forall x :: x in Filter(s, keep) ==> x in s && keep(x)
  {
    if s != [] { FilterMembers(s[..|s| - 1], keep); }
  }

  /** Dropping elements before sorting or after makes no difference. */
  lemma {:induction false} FilterSorted<T(!new)>(s: seq<T>, leq: (T, T) -> bool, keep: T -> bool)
    requires TotalPreorder(leq)
    ensures Filter(Sorted(s, leq), keep) == Sorted(Filter(s, keep), leq)
  {
    if s != [] {
      var front, last := s[..|s| - 1], s[|s| - 1];
      FilterSorted(front, leq, keep);
      SortOrders(front, leq);
      FilterInsert(Sorted(front, leq), last, leq, keep);
      if keep(last) {
        assert (Filter(front, keep) + [last])[..|Filter(front, keep)|] == Filter(front, keep);
      } else {
        assert Filter(s, keep) == Filter(front, keep);
      }
    }
  }

  /** Where a value comes first in a list; its length when it does not. */
  function FirstAt<T(==)>(s: seq<T>, x: T): (i: nat)
    ensures i <= |s| && x !in s[..i] && (i < |s| ==> s[i] == x)
  {
    if s == [] then 0
    else
      var i := FirstAt(s[..|s| - 1], x);
      if i < |s| - 1 || s[|s| - 1] == x then i else |s|
  }

  /** Python's order on strings, by code point. */
  predicate StringLeq(a: string, b: string) {
    if a == "" then true
    else if b == "" then false
    else a[0] < b[0] || (a[0] == b[0] && StringLeq(a[1..], b[1..]))
  }

  lemma {:induction false} StringLeqTotal(a: string, b: string)
    ensures StringLeq(a, b) || StringLeq(b, a)
    ensures StringLeq(a, b) && StringLeq(b, a) ==> a == b
  {
    if a != "" && b != "" {
      StringLeqTotal(a[1..], b[1..]);
      assert a == [a[0]] + a[1..] && b == [b[0]] + b[1..];
    }
  }

  lemma {:induction false} StringLeqTransitive(a: string, b: string, c: string)
    requires StringLeq(a, b) && StringLeq(b, c)
    ensures StringLeq(a, c)
  {
    if a != "" && b != "" && c != "" && a[0] == b[0] == c[0] {
      StringLeqTransitive(a[1..], b[1..], c[1..]);
    }
  }
}
