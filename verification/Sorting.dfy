/** `sorted(items, key=...)`: a stable insertion sort by a given order. */
module Sorting {

  function Insert<T>(x: T, s: seq<T>, le: (T, T) -> bool): seq<T> {
    if s == [] || le(s[|s| - 1], x) then s + [x]
    else Insert(x, s[..|s| - 1], le) + [s[|s| - 1]]
  }

  function Sorted<T>(s: seq<T>, le: (T, T) -> bool): seq<T> {
    if s == [] then [] else Insert(s[|s| - 1], Sorted(s[..|s| - 1], le), le)
  }

  lemma {:induction false} InsertElements<T>(x: T, s: seq<T>, le: (T, T) -> bool)
    ensures multiset(Insert(x, s, le)) == multiset(s) + multiset{x}
  {
    if s != [] && !le(s[|s| - 1], x) {
      InsertElements(x, s[..|s| - 1], le);
      assert s == s[..|s| - 1] + [s[|s| - 1]];
    }
  }

  /** The same elements, each as often as before. */
  lemma {:induction false} SortedElements<T>(s: seq<T>, le: (T, T) -> bool)
    ensures multiset(Sorted(s, le)) == multiset(s)
  {
    if s != [] {
      SortedElements(s[..|s| - 1], le);
      InsertElements(s[|s| - 1], Sorted(s[..|s| - 1], le), le);
      assert s == s[..|s| - 1] + [s[|s| - 1]];
    }
  }

  lemma SortedMembers<T>(s: seq<T>, le: (T, T) -> bool)
    ensures |Sorted(s, le)| == |s|
    ensures forall x :: x in Sorted(s, le) <==> x in s
  {
    SortedElements(s, le);
    assert |multiset(Sorted(s, le))| == |multiset(s)|;
    forall x ensures x in Sorted(s, le) <==> x in s {
      assert x in Sorted(s, le) <==> x in multiset(Sorted(s, le));
      assert x in s <==> x in multiset(s);
    }
  }

  ghost predicate Ascending<T>(s: seq<T>, le: (T, T) -> bool) { forall i, j :: 0 <= i < j < |s| ==> le(s[i], s[j]) }

  ghost predicate TotalPreorder<T(!new)>(le: (T, T) -> bool) {
    (forall x, y :: le(x, y) || le(y, x)) && (forall x, y, z :: le(x, y) && le(y, z) ==> le(x, z))
  }

  lemma {:induction false} InsertAscends<T(!new)>(x: T, s: seq<T>, le: (T, T) -> bool)
    requires TotalPreorder(le) && Ascending(s, le)
    ensures Ascending(Insert(x, s, le), le)
  {
    if s != [] {
      var front, last := s[..|s| - 1], s[|s| - 1];
      if le(last, x) {
        assert forall i :: 0 <= i < |s| ==> le(s[i], x);
      } else {
        InsertAscends(x, front, le);
        var r := Insert(x, front, le);
        InsertElements(x, front, le);
        forall i | 0 <= i < |r| ensures le(r[i], last) {
          assert r[i] in multiset(r);
          assert r[i] == x || r[i] in front;
        }
      }
    }
  }

  /** The result is in order. */
  lemma {:induction false} SortedAscends<T(!new)>(s: seq<T>, le: (T, T) -> bool)
    requires TotalPreorder(le)
    ensures Ascending(Sorted(s, le), le)
  {
    if s != [] {
      SortedAscends(s[..|s| - 1], le);
      InsertAscends(s[|s| - 1], Sorted(s[..|s| - 1], le), le);
    }
  }

  /** Sorting what is in order changes nothing. */
  lemma {:induction false} SortedAgain<T(!new)>(s: seq<T>, le: (T, T) -> bool)
    requires Ascending(s, le)
    ensures Sorted(s, le) == s
  {
    if s != [] {
      SortedAgain(s[..|s| - 1], le);
      assert s == s[..|s| - 1] + [s[|s| - 1]];
    }
  }

  /** An element goes before a tail of greater ones. */
  lemma {:induction false} InsertBetween<T(!new)>(x: T, low: seq<T>, high: seq<T>, le: (T, T) -> bool)
    requires low == [] || le(low[|low| - 1], x)
    requires forall i :: 0 <= i < |high| ==> !le(high[i], x)
    ensures Insert(x, low + high, le) == low + [x] + high
    decreases |high|
  {
    if high == [] {
      assert low + high == low;
    } else {
      var front, last := high[..|high| - 1], high[|high| - 1];
      InsertBetween(x, low, front, le);
      assert (low + high)[..|low + high| - 1] == low + front && (low + high)[|low + high| - 1] == last;
      assert low + [x] + front + [last] == low + [x] + high;
    }
  }
}
