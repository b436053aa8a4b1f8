/** Byte-wise string order and sequences sorted by a strict total order. Stands in for the
    comparison operators and the sort package of the source's language. */
module Ordering {

  /** `a < b` on strings: first differing character decides, a proper prefix comes first. */
  predicate LexLess(a: string, b: string) {
    if |b| == 0 then false
    else if |a| == 0 then true
    else if a[0] != b[0] then a[0] < b[0]
    else LexLess(a[1..], b[1..])
  }

  lemma {:induction false} LexTrichotomy(a: string, b: string)
    ensures a != b <==> LexLess(a, b) || LexLess(b, a)
    ensures !(LexLess(a, b) && LexLess(b, a))
    decreases |a|
  {
    if |a| > 0 && |b| > 0 && a[0] == b[0] {
      assert a == [a[0]] + a[1..] && b == [b[0]] + b[1..];
      LexTrichotomy(a[1..], b[1..]);
    }
  }

  lemma {:induction false} LexTransitive(a: string, b: string, c: string)
    requires LexLess(a, b) && LexLess(b, c)
    ensures LexLess(a, c)
    decreases |a|
  {
    if |a| > 0 && a[0] == b[0] == c[0] {
      LexTransitive(a[1..], b[1..], c[1..]);
    }
  }

  /** The same order by positions: up to some `k` the two agree, and there `a` ends or is smaller. */
  ghost predicate StrBelow(a: string, b: string) {
    exists k: nat :: k <= |a| && k < |b| && a[..k] == b[..k] && (k < |a| ==> a[k] < b[k])
  }

  lemma {:induction false} LexMeans(a: string, b: string)
    ensures LexLess(a, b) <==> StrBelow(a, b)
    decreases |a|
  {
    if |b| > 0 && |a| == 0 {
      assert a[..0] == b[..0];
    } else if |b| > 0 && a[0] != b[0] {
      assert a[..0] == b[..0];
      assert forall k: nat :: 0 < k <= |a| && k < |b| ==> a[..k][0] != b[..k][0];
    } else if |b| > 0 {
      var x, y := a[1..], b[1..];
      LexMeans(x, y);
      if StrBelow(x, y) {
        var k: nat :| k <= |x| && k < |y| && x[..k] == y[..k] && (k < |x| ==> x[k] < y[k]);
        assert a[..k + 1] == [a[0]] + x[..k] && b[..k + 1] == [b[0]] + y[..k];
      }
      if StrBelow(a, b) {
        var k: nat :| k <= |a| && k < |b| && a[..k] == b[..k] && (k < |a| ==> a[k] < b[k]);
        assert x[..k - 1] == a[..k][1..] && y[..k - 1] == b[..k][1..];
      }
    }
  }

  /** `less` is a strict total order on the elements of `d`. */
  ghost predicate StrictTotal<T(!new)>(less: (T, T) -> bool, d: set<T>) {
    && (forall a, b :: a in d && b in d ==> (a != b <==> less(a, b) || less(b, a)))
    && (forall a, b :: a in d && b in d ==> !(less(a, b) && less(b, a)))
    && (forall a, b, c :: a in d && b in d && c in d && less(a, b) && less(b, c) ==> less(a, c))
  }

  ghost predicate Sorted<T>(less: (T, T) -> bool, s: seq<T>) {
    forall i, j :: 0 <= i < j < |s| ==> less(s[i], s[j])
  }

  ghost function Elements<T>(s: seq<T>): set<T> {
    set x | x in s
  }

  /** The full recompute: `s` lists exactly the elements of `d`, in order. */
  ghost predicate IsOrder<T(!new)>(less: (T, T) -> bool, s: seq<T>, d: set<T>) {
    Sorted(less, s) && Elements(s) == d
  }

  lemma ElementsEmpty<T>(s: seq<T>)
    ensures Elements(s) == {} <==> |s| == 0
  {
    if |s| > 0 { assert s[0] in Elements(s); }
  }

  /** There is only one such list, so "some sorted listing" means "the sorted listing". */
  lemma {:induction false} OrderUnique<T(!new)>(less: (T, T) -> bool, s: seq<T>, t: seq<T>, d: set<T>)
    requires StrictTotal(less, d) && IsOrder(less, s, d) && IsOrder(less, t, d)
    ensures s == t
    decreases |s|
  {
    if |s| == 0 {
      ElementsEmpty(t);
    } else {
      assert s[0] in Elements(s);
      assert |t| > 0 && t[0] in Elements(t);
      assert s[0] == t[0] by {
        var i :| 0 <= i < |t| && t[i] == s[0];
        var j :| 0 <= j < |s| && s[j] == t[0];
      }
      OrderTail(less, s, d);
      OrderTail(less, t, d);
      OrderUnique(less, s[1..], t[1..], d - {s[0]});
    }
  }

  lemma OrderTail<T(!new)>(less: (T, T) -> bool, s: seq<T>, d: set<T>)
    requires StrictTotal(less, d) && IsOrder(less, s, d) && |s| > 0
    ensures StrictTotal(less, d - {s[0]}) && IsOrder(less, s[1..], d - {s[0]})
  {
    forall x ensures x in Elements(s[1..]) <==> x in d && x != s[0] {
      if x in d && x != s[0] {
        var i :| 0 <= i < |s| && s[i] == x;
        assert s[1..][i - 1] == x;
      }
      if x in s[1..] {
        var i :| 0 <= i < |s| - 1 && s[1..][i] == x;
        assert s[i + 1] == x;
        assert x in Elements(s);
      }
    }
  }

  lemma {:induction false} OrderSize<T(!new)>(less: (T, T) -> bool, s: seq<T>, d: set<T>)
    requires StrictTotal(less, d) && IsOrder(less, s, d)
    ensures |s| == |d|
    decreases |s|
  {
    if |s| == 0 {
      assert d == {};
    } else {
      assert s[0] in Elements(s);
      OrderTail(less, s, d);
      OrderSize(less, s[1..], d - {s[0]});
    }
  }

  /** Place `x` in a sorted list. */
  function Insert<T>(less: (T, T) -> bool, s: seq<T>, x: T): seq<T> {
    if |s| == 0 then [x]
    else if less(x, s[0]) then [x] + s
    else [s[0]] + Insert(less, s[1..], x)
  }

  function SortSeq<T>(less: (T, T) -> bool, s: seq<T>): seq<T> {
    if |s| == 0 then [] else Insert(less, SortSeq(less, s[1..]), s[0])
  }

  lemma {:induction false} InsertOrders<T(!new)>(less: (T, T) -> bool, s: seq<T>, x: T, d: set<T>)
    requires StrictTotal(less, d + {x}) && IsOrder(less, s, d) && x !in d
    ensures IsOrder(less, Insert(less, s, x), d + {x})
    decreases |s|
  {
    var r := Insert(less, s, x);
    if |s| == 0 {
      assert d == {};
      assert Elements([x]) == {x};
    } else {
      assert s[0] in Elements(s);
      if less(x, s[0]) {
        assert r == [x] + s;
        forall y ensures y in Elements(r) <==> y in d || y == x {
          if y in d { var i :| 0 <= i < |s| && s[i] == y; assert r[i + 1] == y; }
          assert r[0] == x;
        }
        forall i | 0 <= i < |s| ensures less(x, s[i]) { assert s[i] in Elements(s); }
      } else {
        OrderTail(less, s, d);
        InsertOrders(less, s[1..], x, d - {s[0]});
        var t := Insert(less, s[1..], x);
        assert r == [s[0]] + t;
        forall i | 0 <= i < |t| ensures less(s[0], t[i]) {
          assert t[i] in Elements(t);
          if t[i] != x { var j :| 0 <= j < |s| && s[j] == t[i]; }
        }
        forall y ensures y in Elements(r) <==> y in d || y == x {
          if y in Elements(t) { var i :| 0 <= i < |t| && t[i] == y; assert r[i + 1] == y; }
          assert r[0] == s[0];
        }
      }
    }
  }

  /** Sorting any duplicate-free list yields the order of its elements. */
  lemma {:induction false} SortSeqOrders<T(!new)>(less: (T, T) -> bool, s: seq<T>)
    requires StrictTotal(less, Elements(s)) && |Elements(s)| == |s|
    ensures IsOrder(less, SortSeq(less, s), Elements(s))
    decreases |s|
  {
    if |s| > 0 {
      var rest := Elements(s[1..]);
      assert Elements(s) == rest + {s[0]} by {
        forall y | y in Elements(s) ensures y in rest + {s[0]} {
          var i :| 0 <= i < |s| && s[i] == y;
          if i > 0 { assert s[1..][i - 1] == y; }
        }
      }
      ElementsSize(s[1..]);
      assert s[0] !in rest;
      SortSeqOrders(less, s[1..]);
      InsertOrders(less, SortSeq(less, s[1..]), s[0], rest);
    }
  }

  lemma {:induction false} ElementsSize<T>(s: seq<T>)
    ensures |Elements(s)| <= |s|
    decreases |s|
  {
    if |s| > 0 {
      ElementsSize(s[1..]);
      assert Elements(s) == Elements(s[1..]) + {s[0]} by {
        forall y | y in Elements(s) ensures y in Elements(s[1..]) + {s[0]} {
          var i :| 0 <= i < |s| && s[i] == y;
          if i > 0 { assert s[1..][i - 1] == y; }
        }
      }
    }
  }

  lemma {:induction false} InsertKeepsAll<T>(less: (T, T) -> bool, s: seq<T>, x: T)
    ensures multiset(Insert(less, s, x)) == multiset(s) + multiset{x}
    decreases |s|
  {
    if |s| > 0 {
      InsertKeepsAll(less, s[1..], x);
      assert s == [s[0]] + s[1..];
    }
  }

  /** Sorting loses and repeats nothing. */
  lemma {:induction false} SortSeqKeepsAll<T>(less: (T, T) -> bool, s: seq<T>)
    ensures multiset(SortSeq(less, s)) == multiset(s)
    decreases |s|
  {
    if |s| > 0 {
      SortSeqKeepsAll(less, s[1..]);
      InsertKeepsAll(less, SortSeq(less, s[1..]), s[0]);
      assert s == [s[0]] + s[1..];
    }
  }

  /** Binary search over a list whose first entries, and only those, are below what is sought: the
      number of entries below. */
  method SearchFirst<T>(s: seq<T>, below: T -> bool) returns (k: nat)
    requires forall i, j :: 0 <= i < j < |s| && below(s[j]) ==> below(s[i])
    ensures k <= |s| && (forall i :: 0 <= i < k ==> below(s[i])) && (k < |s| ==> !below(s[k]))
  {
    var lo, hi := 0, |s|;
    while lo < hi
      invariant 0 <= lo <= hi <= |s|
      invariant forall i :: 0 <= i < lo ==> below(s[i])
      invariant hi < |s| ==> !below(s[hi])
    {
      var mid := (lo + hi) / 2;
      if below(s[mid]) {
        lo := mid + 1;
      } else {
        hi := mid;
      }
    }
    return lo;
  }
}
