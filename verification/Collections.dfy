/**
 Sequences, sums and filters used by every other module. A database query of the
 program is a `Filter` over a fixed table; a total is a `Sum` over the rows found.
 */
module Collections {

  datatype Option<+T> = None | Some(value: T)

  ghost predicate Distinct<T>(s: seq<T>) {
    forall i, j :: 0 <= i < j < |s| ==> s[i] != s[j]
  }

  function Filter<T(!new)>(s: seq<T>, p: T -> bool): (r: seq<T>)
    ensures forall x :: x in r <==> x in s && p(x)
    ensures |r| <= |s|
  {
    if s == [] then [] else
    if p(s[0]) then [s[0]] + Filter(s[1..], p) else Filter(s[1..], p)
  }

  lemma NoMembers<T>(s: seq<T>)
    requires forall x :: x !in s
    ensures s == []
  {
    assert forall x :: x in multiset(s) ==> x in s;
    assert multiset(s) == multiset{} && |multiset(s)| == |s|;
  }

  lemma {:induction false} FilterDistinct<T(!new)>(s: seq<T>, p: T -> bool)
    requires Distinct(s)
    ensures Distinct(Filter(s, p))
  {
    if s != [] {
      FilterDistinct(s[1..], p);
      assert s[0] !in s[1..];
    }
  }

  lemma {:induction false} FilterSame<T(!new)>(s: seq<T>, p: T -> bool, q: T -> bool)
    requires forall x :: x in s ==> p(x) == q(x)
    ensures Filter(s, p) == Filter(s, q)
  {
    if s != [] {
      FilterSame(s[1..], p, q);
    }
  }

  lemma FilterNone<T(!new)>(s: seq<T>, p: T -> bool)
    ensures Filter(s, p) == [] <==> forall x :: x in s ==> !p(x)
  {
  }

  lemma {:induction false} FilterAppend<T(!new)>(a: seq<T>, b: seq<T>, p: T -> bool)
    ensures Filter(a + b, p) == Filter(a, p) + Filter(b, p)
  {
    if a == [] {
      assert a + b == b;
    } else {
      assert (a + b)[1..] == a[1..] + b;
      FilterAppend(a[1..], b, p);
    }
  }

  lemma FilterStep<T(!new)>(s: seq<T>, i: nat, p: T -> bool)
    requires i < |s|
    ensures Filter(s[..i + 1], p) == Filter(s[..i], p) + if p(s[i]) then [s[i]] else []
  {
    assert s[..i + 1] == s[..i] + [s[i]];
    FilterAppend(s[..i], [s[i]], p);
  }

  lemma {:induction false} FilterFilter<T(!new)>(s: seq<T>, p: T -> bool, q: T -> bool, both: T -> bool)
    requires forall x :: x in s ==> both(x) == (p(x) && q(x))
    ensures Filter(Filter(s, p), q) == Filter(s, both)
  {
    if s != [] {
      FilterFilter(s[1..], p, q, both);
      if p(s[0]) {
        assert Filter(s, p)[1..] == Filter(s[1..], p);
      }
    }
  }

  function Sum<T>(s: seq<T>, h: T -> int): int {
    if s == [] then 0 else h(s[0]) + Sum(s[1..], h)
  }

  lemma {:induction false} SumAppend<T>(a: seq<T>, b: seq<T>, h: T -> int)
    ensures Sum(a + b, h) == Sum(a, h) + Sum(b, h)
  {
    if a == [] {
      assert a + b == b;
    } else {
      assert (a + b)[1..] == a[1..] + b;
      SumAppend(a[1..], b, h);
    }
  }

  lemma {:induction false} SumSame<T>(s: seq<T>, h: T -> int, k: T -> int)
    requires forall x :: x in s ==> h(x) == k(x)
    ensures Sum(s, h) == Sum(s, k)
  {
    if s != [] {
      SumSame(s[1..], h, k);
    }
  }

  /** Summing after a filter is summing zero for what the filter drops. */
  lemma {:induction false} SumFilter<T(!new)>(s: seq<T>, p: T -> bool, h: T -> int, k: T -> int)
    requires forall x :: x in s ==> k(x) == if p(x) then h(x) else 0
    ensures Sum(Filter(s, p), h) == Sum(s, k)
  {
    if s != [] {
      SumFilter(s[1..], p, h, k);
    }
  }

  lemma {:induction false} SumPlus<T>(s: seq<T>, h: T -> int, k: T -> int, t: T -> int)
    requires forall x :: x in s ==> t(x) == h(x) + k(x)
    ensures Sum(s, t) == Sum(s, h) + Sum(s, k)
  {
    if s != [] {
      SumPlus(s[1..], h, k, t);
    }
  }

  lemma {:induction false} SumAtMost<T>(s: seq<T>, h: T -> int, k: T -> int)
    requires forall x :: x in s ==> h(x) <= k(x)
    ensures Sum(s, h) <= Sum(s, k)
  {
    if s != [] {
      SumAtMost(s[1..], h, k);
    }
  }

  lemma {:induction false} SumLess<T>(s: seq<T>, h: T -> int, k: T -> int, at: T)
    requires at in s && h(at) < k(at)
    requires forall x :: x in s ==> h(x) <= k(x)
    ensures Sum(s, h) < Sum(s, k)
  {
    if at in s[1..] {
      SumLess(s[1..], h, k, at);
    } else {
      SumAtMost(s[1..], h, k);
    }
  }

  lemma {:induction false} SumNonNegative<T>(s: seq<T>, h: T -> int)
    requires forall x :: x in s ==> 0 <= h(x)
    ensures 0 <= Sum(s, h)
  {
    if s != [] {
      SumNonNegative(s[1..], h);
    }
  }

  lemma {:induction false} SumZero<T>(s: seq<T>, h: T -> int)
    requires forall x :: x in s ==> h(x) == 0
    ensures Sum(s, h) == 0
  {
    if s != [] {
      SumZero(s[1..], h);
    }
  }

  /** The sum of a function that is zero everywhere but at one member of a distinct sequence. */
  lemma {:induction false} SumSingle<T>(s: seq<T>, h: T -> int, at: T)
    requires Distinct(s)
    requires forall x :: x in s && x != at ==> h(x) == 0
    ensures Sum(s, h) == if at in s then h(at) else 0
  {
    if s != [] {
      SumSingle(s[1..], h, at);
      if s[0] == at {
        assert at !in s[1..];
      }
    }
  }

  /** Adding up a table by rows or by columns gives the same total. */
  lemma {:induction false} SumSwap<S, T>(a: seq<S>, b: seq<T>, byRow: S -> T -> int, byColumn: T -> S -> int,
                      row: S -> int, column: T -> int)
    requires forall x, y :: x in a && y in b ==> byRow(x)(y) == byColumn(y)(x)
    requires forall x :: x in a ==> row(x) == Sum(b, byRow(x))
    requires forall y :: y in b ==> column(y) == Sum(a, byColumn(y))
    ensures Sum(a, row) == Sum(b, column)
  {
    if a == [] {
      SumZero(b, column);
    } else {
      var rest := (y: T) => Sum(a[1..], byColumn(y));
      SumSwap(a[1..], b, byRow, byColumn, row, rest);
      assert a[0] in a;
      SumPlus(b, byRow(a[0]), rest, column);
    }
  }

  /** Number of members that satisfy a predicate. */
  function Count<T(!new)>(s: seq<T>, p: T -> bool): nat {
    |Filter(s, p)|
  }

  /** First occurrences only, in order: the members of a JavaScript `Set` built from `s`. */
  function Unique<T(==,!new)>(s: seq<T>): (r: seq<T>)
    ensures Distinct(r)
    ensures forall x :: x in r <==> x in s
  {
    if s == [] then []
    else
      var front := Unique(s[..|s| - 1]);
      var last := s[|s| - 1];
      assert s == s[..|s| - 1] + [last];
      if last in front then front else front + [last]
  }

  // Sums over finite sets, for records whose keys have no order.

  ghost function SetSum<T>(s: set<T>, h: T -> int): int {
    if s == {} then 0 else
      var x :| x in s;
      h(x) + SetSum(s - {x}, h)
  }

  lemma {:induction false} SetSumTake<T>(s: set<T>, h: T -> int, x: T)
    requires x in s
    ensures SetSum(s, h) == h(x) + SetSum(s - {x}, h)
  {
    var y :| y in s && SetSum(s, h) == h(y) + SetSum(s - {y}, h);
    if y != x {
      SetSumTake(s - {y}, h, x);
      SetSumTake(s - {x}, h, y);
      assert s - {y} - {x} == s - {x} - {y};
    }
  }

  lemma {:induction false} SetSumSame<T>(s: set<T>, h: T -> int, k: T -> int)
    requires forall x :: x in s ==> h(x) == k(x)
    ensures SetSum(s, h) == SetSum(s, k)
  {
    if s != {} {
      var x :| x in s;
      SetSumTake(s, h, x);
      SetSumTake(s, k, x);
      SetSumSame(s - {x}, h, k);
    }
  }

  lemma {:induction false} SetSumPlus<T>(s: set<T>, h: T -> int, k: T -> int, t: T -> int)
    requires forall x :: x in s ==> t(x) == h(x) + k(x)
    ensures SetSum(s, t) == SetSum(s, h) + SetSum(s, k)
  {
    if s != {} {
      var x :| x in s;
      SetSumTake(s, h, x);
      SetSumTake(s, k, x);
      SetSumTake(s, t, x);
      SetSumPlus(s - {x}, h, k, t);
    }
  }

  lemma {:induction false} SetSumZero<T>(s: set<T>, h: T -> int)
    requires forall x :: x in s ==> h(x) == 0
    ensures SetSum(s, h) == 0
  {
    if s != {} {
      var x :| x in s;
      SetSumTake(s, h, x);
      SetSumZero(s - {x}, h);
    }
  }

  /** Members that contribute nothing may be left out. */
  lemma {:induction false} SetSumShrink<T>(s: set<T>, t: set<T>, h: T -> int)
    requires s <= t
    requires forall x :: x in t - s ==> h(x) == 0
    ensures SetSum(s, h) == SetSum(t, h)
  {
    if !(t <= s) {
      var x :| x in t && x !in s;
      SetSumTake(t, h, x);
      SetSumShrink(s, t - {x}, h);
    } else {
      assert s == t;
    }
  }
}
