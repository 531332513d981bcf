/** Selecting from sequences, and sorting them by any total order. */
module Sequences {
  function Filter<T>(f: T -> bool, s: seq<T>): (r: seq<T>)
    ensures |r| <= |s|
    ensures forall x | x in r :: x in s && f(x)
  {
    if s == [] then [] else
      var last := s[|s| - 1];
      Filter(f, s[..|s| - 1]) + if f(last) then [last] else []
  }

  lemma FilterNone<T>(f: T -> bool)
    ensures Filter(f, []) == []
  {
  }

  lemma FilterSnoc<T>(f: T -> bool, s: seq<T>, x: T)
    ensures Filter(f, s + [x]) == Filter(f, s) + if f(x) then [x] else []
  {
    assert (s + [x])[..|s|] == s;
  }

  lemma {:induction false} FilterComplete<T>(f: T -> bool, s: seq<T>, x: T)
    requires x in s && f(x)
    ensures x in Filter(f, s)
  {
    if s[|s| - 1] != x {
      FilterComplete(f, s[..|s| - 1], x);
    }
  }

  // A narrower filter after a wider one.
  lemma {:induction false} FilterAgain<T>(narrow: T -> bool, wide: T -> bool, s: seq<T>)
    requires forall x :: narrow(x) ==> wide(x)
    ensures Filter(narrow, Filter(wide, s)) == Filter(narrow, s)
  {
    if s != [] {
      var front, last := s[..|s| - 1], s[|s| - 1];
      FilterAgain(narrow, wide, front);
      if wide(last) {
        assert Filter(wide, s) == Filter(wide, front) + [last];
        FilterSnoc(narrow, Filter(wide, front), last);
      } else {
        assert !narrow(last);
        assert Filter(wide, s) == Filter(wide, front);
      }
    }
  }

  // When the selected elements are the ones from k on, the filter is a suffix.
  lemma {:induction false} FilterSuffix<T>(f: T -> bool, s: seq<T>, k: nat)
    requires k <= |s|
    requires forall i | 0 <= i < |s| :: f(s[i]) <==> k <= i
    ensures Filter(f, s) == s[k..]
  {
    if s != [] {
      var front := s[..|s| - 1];
      if k < |s| {
        FilterSuffix(f, front, k);
        assert front[k..] + [s[|s| - 1]] == s[k..];
      } else {
        FilterSuffix(f, front, |front|);
      }
    }
  }

  lemma {:induction false} FilterCount<T>(f: T -> bool, s: seq<T>, m: nat)
    requires m <= |s|
    ensures (forall i | 0 <= i < m :: f(s[i])) ==> m <= |Filter(f, s)|
    ensures (forall i | m <= i < |s| :: !f(s[i])) ==> |Filter(f, s)| <= m
  {
    if m < |s| {
      FilterCount(f, s[..|s| - 1], m);
    } else if s != [] {
      FilterCount(f, s[..|s| - 1], m - 1);
    }
  }

  ghost predicate TotalOrder<T(!new)>(le: (T, T) -> bool) {
    && (forall x, y :: le(x, y) || le(y, x))
    && (forall x, y :: le(x, y) && le(y, x) ==> x == y)
    && (forall x, y, z :: le(x, y) && le(y, z) ==> le(x, z))
  }

  ghost predicate Ordered<T>(le: (T, T) -> bool, s: seq<T>) {
    forall i, j | 0 <= i < j < |s| :: le(s[i], s[j])
  }

  function Insert<T>(le: (T, T) -> bool, x: T, s: seq<T>): (r: seq<T>)
    ensures |r| == |s| + 1
  {
    if s == [] || le(x, s[0]) then [x] + s else [s[0]] + Insert(le, x, s[1..])
  }

  function Sort<T>(le: (T, T) -> bool, s: seq<T>): (r: seq<T>)
    ensures |r| == |s|
  {
    if s == [] then [] else Insert(le, s[|s| - 1], Sort(le, s[..|s| - 1]))
  }

  lemma {:induction false} InsertKeeps<T>(le: (T, T) -> bool, x: T, s: seq<T>)
    ensures multiset(Insert(le, x, s)) == multiset(s) + multiset{x}
  {
    if !(s == [] || le(x, s[0])) {
      InsertKeeps(le, x, s[1..]);
      assert s == [s[0]] + s[1..];
    }
  }

  lemma {:induction false} InsertOrders<T(!new)>(le: (T, T) -> bool, x: T, s: seq<T>)
    requires TotalOrder(le) && Ordered(le, s)
    ensures Ordered(le, Insert(le, x, s))
  {
    if !(s == [] || le(x, s[0])) {
      InsertOrders(le, x, s[1..]);
      InsertKeeps(le, x, s[1..]);
      var r := Insert(le, x, s[1..]);
      forall j | 0 <= j < |r| ensures le(s[0], r[j]) {
        assert r[j] in multiset(r);
      }
    }
  }

  lemma {:induction false} SortIsSorted<T(!new)>(le: (T, T) -> bool, s: seq<T>)
    requires TotalOrder(le)
    ensures Ordered(le, Sort(le, s)) && multiset(Sort(le, s)) == multiset(s)
  {
    if s != [] {
      SortIsSorted(le, s[..|s| - 1]);
      InsertOrders(le, s[|s| - 1], Sort(le, s[..|s| - 1]));
      InsertKeeps(le, s[|s| - 1], Sort(le, s[..|s| - 1]));
      assert s == s[..|s| - 1] + [s[|s| - 1]];
    }
  }

  // There is only one sorted arrangement.
  lemma {:induction false} SortedIsUnique<T(!new)>(le: (T, T) -> bool, a: seq<T>, b: seq<T>)
    requires TotalOrder(le) && Ordered(le, a) && Ordered(le, b) && multiset(a) == multiset(b)
    ensures a == b
    decreases |a|
  {
    assert |a| == |multiset(a)| && |b| == |multiset(b)|;
    if a != [] {
      SameHead(le, a, b);
      WithoutHead(a);
      WithoutHead(b);
      OrderedTail(le, a);
      OrderedTail(le, b);
      hide TotalOrder, Ordered;
      SortedIsUnique(le, a[1..], b[1..]);
    }
  }

  // Both begin with the least element.
  lemma SameHead<T(!new)>(le: (T, T) -> bool, a: seq<T>, b: seq<T>)
    requires TotalOrder(le) && Ordered(le, a) && Ordered(le, b) && multiset(a) == multiset(b)
    requires a != [] && b != []
    ensures a[0] == b[0]
  {
    assert a[0] in multiset(b) && b[0] in multiset(a);
    HeadIsLeast(le, a, b[0]);
    HeadIsLeast(le, b, a[0]);
    hide Ordered;
  }

  lemma HeadIsLeast<T(!new)>(le: (T, T) -> bool, s: seq<T>, x: T)
    requires TotalOrder(le) && Ordered(le, s) && x in s
    ensures le(s[0], x)
  {
    var i :| 0 <= i < |s| && s[i] == x;
    assert i > 0 ==> le(s[0], s[i]);
    assert le(x, x);
  }

  lemma WithoutHead<T>(s: seq<T>)
    requires s != []
    ensures multiset(s[1..]) == multiset(s) - multiset{s[0]} && s == [s[0]] + s[1..]
  {
    assert s == [s[0]] + s[1..];
  }

  lemma OrderedTail<T>(le: (T, T) -> bool, s: seq<T>)
    requires Ordered(le, s) && s != []
    ensures Ordered(le, s[1..])
  {
  }

  lemma {:induction false} InsertCount<T>(le: (T, T) -> bool, f: T -> bool, x: T, s: seq<T>)
    ensures |Filter(f, Insert(le, x, s))| == |Filter(f, s)| + if f(x) then 1 else 0
  {
    hide Filter;
    if s == [] || le(x, s[0]) {
      CountCons(f, x, s);
    } else {
      var tail := s[1..];
      var inserted := Insert(le, x, tail);
      assert Insert(le, x, s) == [s[0]] + inserted;
      hide Insert;
      assert s == [s[0]] + tail;
      InsertCount(le, f, x, tail);
      CountCons(f, s[0], inserted);
      CountCons(f, s[0], tail);
    }
  }

  lemma {:induction false} CountCons<T>(f: T -> bool, x: T, s: seq<T>)
    ensures |Filter(f, [x] + s)| == |Filter(f, s)| + if f(x) then 1 else 0
  {
    if s == [] {
      assert [x] + s == [] + [x];
      FilterSnoc(f, [], x);
    } else {
      CountCons(f, x, s[..|s| - 1]);
      assert [x] + s == ([x] + s[..|s| - 1]) + [s[|s| - 1]];
      FilterSnoc(f, [x] + s[..|s| - 1], s[|s| - 1]);
    }
  }

  // Sorting changes no count.
  lemma {:induction false} SortCount<T>(le: (T, T) -> bool, f: T -> bool, s: seq<T>)
    ensures |Filter(f, Sort(le, s))| == |Filter(f, s)|
  {
    if s != [] {
      SortCount(le, f, s[..|s| - 1]);
      InsertCount(le, f, s[|s| - 1], Sort(le, s[..|s| - 1]));
    }
  }
}
