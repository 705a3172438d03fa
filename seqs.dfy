/** The LINQ operators the repositories use, on sequences: Where, OrderBy /
    OrderByDescending on an instant, and Take. */
module Seqs {
  import opened DateTimes

  /** Where(p), keeping the order of the source. */
  function Filter<T>(s: seq<T>, p: T -> bool): (r: seq<T>)
    ensures |r| <= |s|
    ensures forall x :: x in r ==> x in s && p(x)
    ensures forall x :: x in s && p(x) ==> x in r
  {
    if s == [] then [] else (if p(s[0]) then [s[0]] else []) + Filter(s[1..], p)
  }

  /** Take(n): the first n elements, or all of them, or none when n <= 0. */
  function Take<T>(s: seq<T>, n: int): (r: seq<T>)
    ensures |r| == if n <= 0 then 0 else if n < |s| then n else |s|
    ensures r == s[..|r|]
  {
    if n <= 0 then [] else if n < |s| then s[..n] else s
  }

  /** Take keeps no element more often than the source holds it. */
  lemma TakeSubMultiset<T>(s: seq<T>, n: int)
    ensures multiset(Take(s, n)) <= multiset(s)
  {
    var t := Take(s, n);
    assert s == t + s[|t|..];
  }

  /** x comes no later than y in the requested direction. */
  predicate InOrder(x: DateTime, y: DateTime, ascending: bool) {
    if ascending then NotAfter(x, y) else NotAfter(y, x)
  }

  predicate SortedBy<T>(s: seq<T>, key: T -> DateTime, ascending: bool) {
    forall i, j :: 0 <= i < j < |s| ==> InOrder(key(s[i]), key(s[j]), ascending)
  }

  function Insert<T>(x: T, s: seq<T>, key: T -> DateTime, ascending: bool): (r: seq<T>)
    requires SortedBy(s, key, ascending)
    ensures multiset(r) == multiset(s) + multiset{x}
    ensures SortedBy(r, key, ascending)
  {
    if s == [] || InOrder(key(x), key(s[0]), ascending) then
      InsertInFront(x, s, key, ascending);
      [x] + s
    else
      var t := Insert(x, s[1..], key, ascending);
      InsertBehind(x, s, t, key, ascending);
      [s[0]] + t
  }

  lemma InOrderTransitive(a: DateTime, b: DateTime, c: DateTime, ascending: bool)
    requires InOrder(a, b, ascending) && InOrder(b, c, ascending)
    ensures InOrder(a, c, ascending)
  {
  }

  lemma InsertInFront<T>(x: T, s: seq<T>, key: T -> DateTime, ascending: bool)
    requires SortedBy(s, key, ascending)
    requires s == [] || InOrder(key(x), key(s[0]), ascending)
    ensures SortedBy([x] + s, key, ascending)
  {
    var r := [x] + s;
    forall i, j | 0 <= i < j < |r| ensures InOrder(key(r[i]), key(r[j]), ascending) {
      if i == 0 && j > 1 {
        InOrderTransitive(key(x), key(s[0]), key(s[j - 1]), ascending);
      }
    }
  }

  lemma InsertBehind<T>(x: T, s: seq<T>, t: seq<T>, key: T -> DateTime, ascending: bool)
    requires SortedBy(s, key, ascending) && s != [] && !InOrder(key(x), key(s[0]), ascending)
    requires SortedBy(t, key, ascending) && multiset(t) == multiset(s[1..]) + multiset{x}
    ensures multiset([s[0]] + t) == multiset(s) + multiset{x}
    ensures SortedBy([s[0]] + t, key, ascending)
  {
    assert s == [s[0]] + s[1..];
    NotAfterTotal(key(x), key(s[0]));
    var r := [s[0]] + t;
    forall i, j | 0 <= i < j < |r| ensures InOrder(key(r[i]), key(r[j]), ascending) {
      if i == 0 {
        var y := t[j - 1];
        assert y in multiset(t);
        if y != x {
          assert y in multiset(s[1..]);
          var k :| 0 <= k < |s[1..]| && s[1..][k] == y;
          assert s[k + 1] == y;
        }
      }
    }
  }

  /** OrderBy(key) when ascending, OrderByDescending(key) otherwise. */
  function SortBy<T>(s: seq<T>, key: T -> DateTime, ascending: bool): (r: seq<T>)
    ensures multiset(r) == multiset(s)
    ensures SortedBy(r, key, ascending)
  {
    if s == [] then []
    else
      assert s == [s[0]] + s[1..];
      Insert(s[0], SortBy(s[1..], key, ascending), key, ascending)
  }
}
