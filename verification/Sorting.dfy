/** Python's stable `sorted`, by insertion. */
module Sorting {
  ghost predicate TotalPreorder<T(!new)>(leq: (T, T) -> bool)
  {
    && (forall a, b :: leq(a, b) || leq(b, a))
    && (forall a, b, c :: leq(a, b) && leq(b, c) ==> leq(a, c))
  }

  ghost predicate Ascending<T>(s: seq<T>, leq: (T, T) -> bool)
  {
    forall i, j :: 0 <= i <= j < |s| ==> i == j || leq(s[i], s[j])
  }

  /** Insert `x` behind every element that may precede it. */
  function Insert<T>(s: seq<T>, x: T, leq: (T, T) -> bool): (r: seq<T>)
    ensures |r| == |s| + 1
    ensures multiset(r) == multiset(s) + multiset{x}
  {
    if s == [] then [x]
    else
      var front, last := s[..|s| - 1], s[|s| - 1];
      assert s == front + [last];
      if leq(last, x) then s + [x] else Insert(front, x, leq) + [last]
  }

  function Sort<T>(s: seq<T>, leq: (T, T) -> bool): (r: seq<T>)
    ensures |r| == |s|
    ensures multiset(r) == multiset(s)
  {
    if s == [] then []
    else
      assert s == s[..|s| - 1] + [s[|s| - 1]];
      Insert(Sort(s[..|s| - 1], leq), s[|s| - 1], leq)
  }

  lemma AscendingSnoc<T>(s: seq<T>, x: T, leq: (T, T) -> bool)
    requires Ascending(s, leq)
    requires forall i :: 0 <= i < |s| ==> leq(s[i], x)
    ensures Ascending(s + [x], leq)
  {}

  lemma {:induction false} InsertAscending<T(!new)>(s: seq<T>, x: T, leq: (T, T) -> bool)
    requires TotalPreorder(leq) && Ascending(s, leq)
    ensures Ascending(Insert(s, x, leq), leq)
  {
    if s == [] {
    } else {
      var front, last := s[..|s| - 1], s[|s| - 1];
      assert s == front + [last];
      if leq(last, x) {
        forall i | 0 <= i < |s|
          ensures leq(s[i], x)
        {
          assert i == |s| - 1 || leq(s[i], last);
        }
        AscendingSnoc(s, x, leq);
      } else {
        InsertAscending(front, x, leq);
        assert leq(x, last);
        var r := Insert(front, x, leq);
        forall i | 0 <= i < |r|
          ensures leq(r[i], last)
        {
          InsertedFrom(front, x, leq, i);
        }
        AscendingSnoc(r, last, leq);
      }
    }
  }

  lemma InsertedFrom<T>(s: seq<T>, x: T, leq: (T, T) -> bool, i: nat)
    requires i <= |s|
    ensures Insert(s, x, leq)[i] == x || exists k :: 0 <= k < |s| && s[k] == Insert(s, x, leq)[i]
  {
    var r := Insert(s, x, leq);
    assert r[i] in multiset(r);
  }

  lemma {:induction false} SortAscending<T(!new)>(s: seq<T>, leq: (T, T) -> bool)
    requires TotalPreorder(leq)
    ensures Ascending(Sort(s, leq), leq)
  {
    if s != [] {
      SortAscending(s[..|s| - 1], leq);
      InsertAscending(Sort(s[..|s| - 1], leq), s[|s| - 1], leq);
    }
  }

  /** Sorting leaves an already ordered sequence alone, ties included. */
  lemma {:induction false} SortOfAscending<T>(s: seq<T>, leq: (T, T) -> bool)
    requires Ascending(s, leq)
    ensures Sort(s, leq) == s
  {
    if s != [] {
      var front := s[..|s| - 1];
      SortOfAscending(front, leq);
      assert s == front + [s[|s| - 1]];
      if front != [] {
        assert leq(s[|s| - 2], s[|s| - 1]);
      }
    }
  }
}
