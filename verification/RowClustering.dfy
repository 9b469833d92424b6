/**
 Grouping the words of a photographed sheet into rows (src/modules/collation/ocr-ec8a-layout.ts:71-89).
 Coordinates are real numbers. A word joins the current row while its height on the page stays within
 a tolerance of the mean of the row so far; the mean drifts as words join.
 */
module RowClustering {
  import opened Collections

  datatype Token = Token(text: string, x: real, y: real, w: real, h: real)

  // Sorting: a stable sort by a total preorder.

  ghost predicate TotalPreorder<T(!new)>(le: (T, T) -> bool) {
    && (forall a, b :: le(a, b) || le(b, a))
    && (forall a, b, c :: le(a, b) && le(b, c) ==> le(a, c))
  }

  ghost predicate Sorted<T>(le: (T, T) -> bool, s: seq<T>) {
    forall i, j :: 0 <= i < j < |s| ==> le(s[i], s[j])
  }

  function Insert<T>(le: (T, T) -> bool, t: T, s: seq<T>): seq<T> {
    if s == [] || le(t, s[0]) then [t] + s else [s[0]] + Insert(le, t, s[1..])
  }

  function SortBy<T>(le: (T, T) -> bool, s: seq<T>): seq<T> {
    if s == [] then [] else Insert(le, s[0], SortBy(le, s[1..]))
  }

  lemma {:induction false} InsertPermutes<T>(le: (T, T) -> bool, t: T, s: seq<T>)
    ensures multiset(Insert(le, t, s)) == multiset{t} + multiset(s)
  {
    if s != [] && !le(t, s[0]) {
      InsertPermutes(le, t, s[1..]);
      assert s == [s[0]] + s[1..];
    }
  }

  lemma {:induction false} InsertSorted<T(!new)>(le: (T, T) -> bool, t: T, s: seq<T>)
    requires TotalPreorder(le) && Sorted(le, s)
    ensures Sorted(le, Insert(le, t, s))
  {
    if s != [] && !le(t, s[0]) {
      InsertSorted(le, t, s[1..]);
      var rest := Insert(le, t, s[1..]);
      InsertPermutes(le, t, s[1..]);
      forall j | 0 <= j < |rest| ensures le(s[0], rest[j]) {
        assert rest[j] in multiset(rest);
        assert rest[j] == t || rest[j] in s[1..];
      }
    }
  }

  lemma {:induction false} SortPermutes<T>(le: (T, T) -> bool, s: seq<T>)
    ensures multiset(SortBy(le, s)) == multiset(s) && |SortBy(le, s)| == |s|
  {
    if s != [] {
      SortPermutes(le, s[1..]);
      InsertPermutes(le, s[0], SortBy(le, s[1..]));
      assert s == [s[0]] + s[1..];
    }
    assert |multiset(SortBy(le, s))| == |multiset(s)|;
  }

  lemma {:induction false} SortSorted<T(!new)>(le: (T, T) -> bool, s: seq<T>)
    requires TotalPreorder(le)
    ensures Sorted(le, SortBy(le, s))
  {
    if s != [] {
      SortSorted(le, s[1..]);
      InsertSorted(le, s[0], SortBy(le, s[1..]));
    }
  }

  /** Elements the order cannot tell apart keep their order. */
  lemma {:induction false} SortStable<T(!new)>(le: (T, T) -> bool, s: seq<T>, p: T -> bool)
    requires forall a, b :: p(a) && p(b) ==> le(a, b)
    ensures Filter(SortBy(le, s), p) == Filter(s, p)
  {
    if s != [] {
      SortStable(le, s[1..], p);
      InsertStable(le, s[0], SortBy(le, s[1..]), p);
    }
  }

  lemma {:induction false} InsertStable<T(!new)>(le: (T, T) -> bool, t: T, s: seq<T>, p: T -> bool)
    requires forall a, b :: p(a) && p(b) ==> le(a, b)
    ensures Filter(Insert(le, t, s), p) == (if p(t) then [t] else []) + Filter(s, p)
  {
    if s == [] || le(t, s[0]) {
      assert ([t] + s)[1..] == s;
    } else {
      InsertStable(le, t, s[1..], p);
      assert Insert(le, t, s)[1..] == Insert(le, t, s[1..]);
    }
  }

  // The tolerance.

  function Smaller(): (real, real) -> bool {
    (a: real, b: real) => a <= b
  }

  function Positive(): real -> bool {
    (h: real) => h > 0.0
  }

  function Heights(tokens: seq<Token>): seq<real> {
    Filter(seq(|tokens|, i requires 0 <= i < |tokens| => tokens[i].h), Positive())
  }

  /** The heights are those of the tokens that have one, each as often as it occurs. */
  lemma {:induction false} HeightsExactly(tokens: seq<Token>, h: real)
    ensures multiset(Heights(tokens))[h] == if h > 0.0 then HasHeight(tokens, h) else 0
  {
    var all := seq(|tokens|, i requires 0 <= i < |tokens| => tokens[i].h);
    if tokens != [] {
      var rest := tokens[1..];
      HeightsExactly(rest, h);
      assert all[1..] == seq(|rest|, i requires 0 <= i < |rest| => rest[i].h);
      assert Heights(tokens) == (if tokens[0].h > 0.0 then [tokens[0].h] else []) + Heights(rest);
    }
  }

  /** How many tokens are `h` high. */
  function HasHeight(tokens: seq<Token>, h: real): nat {
    if tokens == [] then 0 else (if tokens[0].h == h then 1 else 0) + HasHeight(tokens[1..], h)
  }

  function MedianHeight(tokens: seq<Token>): real {
    var heights := SortBy(Smaller(), Heights(tokens));
    SortPermutes(Smaller(), Heights(tokens));
    if heights == [] then 20.0 else heights[|heights| / 2]
  }

  lemma {:induction false} SortCounts<T(!new)>(le: (T, T) -> bool, s: seq<T>, p: T -> bool)
    ensures Count(SortBy(le, s), p) == Count(s, p)
  {
    if s != [] {
      SortCounts(le, s[1..], p);
      InsertCounts(le, s[0], SortBy(le, s[1..]), p);
    }
  }

  lemma {:induction false} InsertCounts<T(!new)>(le: (T, T) -> bool, t: T, s: seq<T>, p: T -> bool)
    ensures Count(Insert(le, t, s), p) == Count(s, p) + if p(t) then 1 else 0
  {
    if s == [] || le(t, s[0]) {
      assert ([t] + s)[1..] == s;
    } else {
      InsertCounts(le, t, s[1..], p);
      assert Insert(le, t, s)[1..] == Insert(le, t, s[1..]);
    }
  }

  /** If a stretch of a sequence satisfies `p`, at least that many elements do. */
  lemma CountStretch<T(!new)>(s: seq<T>, i: nat, j: nat, p: T -> bool)
    requires i <= j <= |s| && forall k :: i <= k < j ==> p(s[k])
    ensures Count(s, p) >= j - i
  {
    assert s == s[..i] + (s[i..j] + s[j..]);
    FilterAppend(s[..i], s[i..j] + s[j..], p);
    FilterAppend(s[i..j], s[j..], p);
    FilterAll(s[i..j], p);
  }

  lemma {:induction false} FilterAll<T(!new)>(s: seq<T>, p: T -> bool)
    requires forall k :: 0 <= k < |s| ==> p(s[k])
    ensures Filter(s, p) == s
  {
    if s != [] {
      FilterAll(s[1..], p);
    }
  }

  function AtMost(m: real): real -> bool {
    (h: real) => h <= m
  }

  function AtLeast(m: real): real -> bool {
    (h: real) => h >= m
  }

  /** The (upper) median: more than half of the heights are at most it, at least half are at least it. */
  lemma MedianIsInTheMiddle(tokens: seq<Token>)
    requires Heights(tokens) != []
    ensures var heights, m := Heights(tokens), MedianHeight(tokens);
      m in heights && 2 * Count(heights, AtMost(m)) > |heights| && 2 * Count(heights, AtLeast(m)) >= |heights|
  {
    hide SortBy, Count;
    var heights, m := Heights(tokens), MedianHeight(tokens);
    var sorted := SortBy(Smaller(), heights);
    var n := |sorted| / 2;
    SortPermutes(Smaller(), heights);
    SortSorted(Smaller(), heights);
    assert sorted[n] in multiset(heights);
    forall k | 0 <= k < |sorted| ensures k <= n ==> AtMost(m)(sorted[k]) ensures k >= n ==> AtLeast(m)(sorted[k]) {
      assert k < n ==> Smaller()(sorted[k], sorted[n]);
      assert k > n ==> Smaller()(sorted[n], sorted[k]);
    }
    CountStretch(sorted, 0, n + 1, AtMost(m));
    CountStretch(sorted, n, |sorted|, AtLeast(m));
    SortCounts(Smaller(), heights, AtMost(m));
    SortCounts(Smaller(), heights, AtLeast(m));
  }

  /** The larger of 18 and seven tenths of the median height. */
  function Tolerance(tokens: seq<Token>): (tol: real)
    ensures tol >= 18.0 && tol >= MedianHeight(tokens) * 0.7
    ensures tol == 18.0 || tol == MedianHeight(tokens) * 0.7
  {
    var scaled := MedianHeight(tokens) * 0.7;
    if scaled > 18.0 then scaled else 18.0
  }

  // Rows.

  function SumY(row: seq<Token>): real {
    if row == [] then 0.0 else SumY(row[..|row| - 1]) + row[|row| - 1].y
  }

  function MeanY(row: seq<Token>): real
    requires row != []
  {
    SumY(row) / |row| as real
  }

  function Abs(r: real): real {
    if r < 0.0 then -r else r
  }

  predicate Joins(row: seq<Token>, t: Token, tol: real)
    requires row != []
  {
    Abs(t.y - MeanY(row)) <= tol
  }

  function Flatten(rows: seq<seq<Token>>): seq<Token> {
    if rows == [] then [] else Flatten(rows[..|rows| - 1]) + rows[|rows| - 1]
  }

  /** Every token after the first was within tolerance of the mean of those before it. */
  ghost predicate GrownRow(row: seq<Token>, tol: real) {
    row != [] && forall k :: 1 <= k < |row| ==> Joins(row[..k], row[k], tol)
  }

  /** Rows that grew token by token, each opened by a token the row before it refused. */
  ghost predicate Greedy(rows: seq<seq<Token>>, tol: real) {
    && (forall r :: 0 <= r < |rows| ==> GrownRow(rows[r], tol))
    && (forall r :: 1 <= r < |rows| ==> !Joins(rows[r - 1], rows[r][0], tol))
  }

  function Place(rows: seq<seq<Token>>, t: Token, tol: real): seq<seq<Token>>
    requires forall r :: 0 <= r < |rows| ==> rows[r] != []
  {
    if rows != [] && Joins(rows[|rows| - 1], t, tol)
    then rows[..|rows| - 1] + [rows[|rows| - 1] + [t]]
    else rows + [[t]]
  }

  method ClusterRows(tokens: seq<Token>) returns (rows: seq<seq<Token>>)
    ensures exists grown :: IsClustering(tokens, grown) && rows == SortRows(grown)
  {
    hide SortBy, Tolerance, Joins, MeanY;
    rows := [];
    var tol := Tolerance(tokens);
    var sorted := SortBy(ReadingOrder(), tokens);
    for n := 0 to |sorted|
      invariant Greedy(rows, tol) && Flatten(rows) == sorted[..n]
    {
      PlaceKeepsGreedy(rows, sorted[n], tol);
      if |rows| == 0 {
        rows := [[sorted[n]]];
      } else if Joins(rows[|rows| - 1], sorted[n], tol) {
        rows := rows[|rows| - 1 := rows[|rows| - 1] + [sorted[n]]];
      } else {
        rows := rows + [[sorted[n]]];
      }
      assert sorted[..n + 1] == sorted[..n] + [sorted[n]];
    }
    assert sorted[..|sorted|] == sorted;
    assert IsClustering(tokens, rows);
    rows := SortRows(rows);
  }

  /** By height on the page, then from left to right. */
  function ReadingOrder(): (Token, Token) -> bool {
    (a: Token, b: Token) => a.y < b.y || (a.y == b.y && a.x <= b.x)
  }

  function LeftToRight(): (Token, Token) -> bool {
    (a: Token, b: Token) => a.x <= b.x
  }

  function SortRows(rows: seq<seq<Token>>): seq<seq<Token>> {
    seq(|rows|, r requires 0 <= r < |rows| => SortBy(LeftToRight(), rows[r]))
  }

  /** The tokens in reading order, cut greedily. */
  ghost predicate IsClustering(tokens: seq<Token>, grown: seq<seq<Token>>) {
    Flatten(grown) == SortBy(ReadingOrder(), tokens) && Greedy(grown, Tolerance(tokens))
  }

  lemma {:induction false} PlaceKeepsGreedy(rows: seq<seq<Token>>, t: Token, tol: real)
    requires Greedy(rows, tol) && tol >= 0.0
    ensures Greedy(Place(rows, t, tol), tol)
    ensures Flatten(Place(rows, t, tol)) == Flatten(rows) + [t]
  {
    hide Joins;
    var placed := Place(rows, t, tol);
    if rows != [] && Joins(rows[|rows| - 1], t, tol) {
      var last := rows[|rows| - 1];
      var longer := last + [t];
      forall k | 1 <= k < |longer| ensures Joins(longer[..k], longer[k], tol) {
        assert longer[..k] == last[..k];
        assert k < |last| ==> longer[k] == last[k];
        assert k == |last| ==> last[..k] == last;
      }
      assert placed[..|placed| - 1] == rows[..|rows| - 1];
    } else {
      assert placed[..|placed| - 1] == rows;
      assert GrownRow([t], tol);
    }
  }

  // The cut is the only greedy one.

  /** The rows without their last token. */
  function Peel(rows: seq<seq<Token>>): seq<seq<Token>>
    requires rows != [] && rows[|rows| - 1] != []
  {
    var last := rows[|rows| - 1];
    if |last| == 1 then rows[..|rows| - 1] else rows[..|rows| - 1] + [last[..|last| - 1]]
  }

  lemma PeelFlattens(rows: seq<seq<Token>>)
    requires rows != [] && rows[|rows| - 1] != []
    ensures Flatten(rows) == Flatten(Peel(rows)) + [rows[|rows| - 1][|rows[|rows| - 1]| - 1]]
  {
    var last, peeled := rows[|rows| - 1], Peel(rows);
    assert last == last[..|last| - 1] + [last[|last| - 1]];
    if |last| > 1 {
      assert peeled[..|peeled| - 1] == rows[..|rows| - 1];
    }
  }

  lemma PlaceUndoesPeel(rows: seq<seq<Token>>, tol: real)
    requires rows != [] && Greedy(rows, tol)
    ensures var t := rows[|rows| - 1][|rows[|rows| - 1]| - 1];
      Greedy(Peel(rows), tol) && Place(Peel(rows), t, tol) == rows
  {
    hide Joins, MeanY;
    var last, peeled := rows[|rows| - 1], Peel(rows);
    var t := last[|last| - 1];
    assert last == last[..|last| - 1] + [t];
    assert rows == rows[..|rows| - 1] + [last];
    if |last| > 1 {
      assert Joins(last[..|last| - 1], t, tol);
      var shorter := last[..|last| - 1];
      forall k | 1 <= k < |shorter| ensures Joins(shorter[..k], shorter[k], tol) {
        assert shorter[..k] == last[..k];
      }
      assert peeled[..|peeled| - 1] == rows[..|rows| - 1];
    }
  }

  lemma {:induction false} GreedyIsUnique(a: seq<seq<Token>>, b: seq<seq<Token>>, tol: real)
    requires Greedy(a, tol) && Greedy(b, tol) && Flatten(a) == Flatten(b)
    ensures a == b
    decreases |Flatten(a)|
  {
    hide Greedy, Flatten, Peel, Place;
    RowsOfNothing(a, tol);
    RowsOfNothing(b, tol);
    if a != [] {
      PlaceUndoesPeel(a, tol);
      PlaceUndoesPeel(b, tol);
      PeelFlattens(a);
      PeelFlattens(b);
      var t, u := a[|a| - 1][|a[|a| - 1]| - 1], b[|b| - 1][|b[|b| - 1]| - 1];
      assert (Flatten(Peel(a)) + [t])[..|Flatten(a)| - 1] == Flatten(Peel(a));
      assert (Flatten(Peel(b)) + [u])[..|Flatten(a)| - 1] == Flatten(Peel(b));
      GreedyIsUnique(Peel(a), Peel(b), tol);
    }
  }

  lemma RowsOfNothing(rows: seq<seq<Token>>, tol: real)
    requires Greedy(rows, tol)
    ensures rows == [] <==> Flatten(rows) == []
    ensures rows != [] ==> rows[|rows| - 1] != []
  {
  }

  // How rows lie on the page.

  /** A token of an earlier row comes no later in the flattened order than one of a later row. */
  lemma {:induction false} RowsInOrder(rows: seq<seq<Token>>, p: nat, q: nat, k: nat, l: nat)
    requires Sorted(ReadingOrder(), Flatten(rows))
    requires q < |rows| && l < |rows[q]|
    requires (p < q && k < |rows[p]|) || (p == q && k <= l)
    ensures rows[p][k].y <= rows[q][l].y
    decreases |rows|
  {
    var front, last := rows[..|rows| - 1], rows[|rows| - 1];
    var flat := Flatten(rows);
    assert flat == Flatten(front) + last;
    if q < |rows| - 1 {
      assert forall i :: 0 <= i < |Flatten(front)| ==> Flatten(front)[i] == flat[i];
      RowsInOrder(front, p, q, k, l);
    } else {
      assert flat[|Flatten(front)| + l] == last[l];
      if p < q {
        var i := PlaceInFlat(front, p, k);
        assert flat[i] == rows[p][k];
        assert Ordered(flat, i, |Flatten(front)| + l);
      } else if k < l {
        assert flat[|Flatten(front)| + k] == last[k];
        assert Ordered(flat, |Flatten(front)| + k, |Flatten(front)| + l);
      }
    }
  }

  ghost predicate Ordered(flat: seq<Token>, i: nat, j: nat)
    requires i < j < |flat|
  {
    ReadingOrder()(flat[i], flat[j])
  }

  lemma {:induction false} PlaceInFlat(rows: seq<seq<Token>>, p: nat, k: nat) returns (i: nat)
    requires p < |rows| && k < |rows[p]|
    ensures i < |Flatten(rows)| && Flatten(rows)[i] == rows[p][k]
  {
    var front := rows[..|rows| - 1];
    if p < |front| {
      i := PlaceInFlat(front, p, k);
    } else {
      i := |Flatten(front)| + k;
    }
  }

  // How far a row can drift.

  /** The harmonic number 1 + 1/2 + ... + 1/k. */
  function Harmonic(k: nat): real {
    if k == 0 then 0.0 else Harmonic(k - 1) + 1.0 / k as real
  }

  lemma MeanStep(mean: real, k: nat, y: real, tol: real)
    requires k > 0 && y <= mean + tol
    ensures (mean * k as real + y) / (k + 1) as real <= mean + tol / (k + 1) as real
    ensures y == mean + tol ==> (mean * k as real + y) / (k + 1) as real == mean + tol / (k + 1) as real
  {
    var n := (k + 1) as real;
    assert mean * k as real + y == mean * n + (y - mean);
    assert (mean * n + (y - mean)) / n == mean + (y - mean) / n;
    assert (y - mean) / n <= tol / n;
  }

  lemma MeanOfPrefix(row: seq<Token>, k: nat)
    requires 1 <= k < |row|
    ensures MeanY(row[..k + 1]) == (MeanY(row[..k]) * k as real + row[k].y) / (k + 1) as real
  {
    assert row[..k + 1][..k] == row[..k];
    assert SumY(row[..k + 1]) == SumY(row[..k]) + row[k].y;
    assert MeanY(row[..k]) * k as real == SumY(row[..k]);
  }

  lemma FirstMean(row: seq<Token>, tol: real)
    requires row != []
    ensures MeanY(row[..1]) == row[0].y + tol * (Harmonic(1) - 1.0)
  {
    assert SumY(row[..1]) == SumY(row[..1][..0]) + row[0].y;
    assert Harmonic(1) == Harmonic(0) + 1.0;
  }

  /** One joining token moves the mean of k tokens by at most tol / (k + 1). */
  lemma MeanMoves(row: seq<Token>, tol: real, k: nat)
    requires 1 <= k < |row| && Joins(row[..k], row[k], tol)
    ensures MeanY(row[..k + 1]) <= MeanY(row[..k]) + tol / (k + 1) as real
  {
    hide MeanY;
    MeanOfPrefix(row, k);
    MeanStep(MeanY(row[..k]), k, row[k].y, tol);
  }

  lemma HarmonicStep(tol: real, k: nat)
    requires k > 0
    ensures tol * (Harmonic(k) - 1.0) == tol * (Harmonic(k - 1) - 1.0) + tol / k as real
  {
    assert tol * (1.0 / k as real) == tol / k as real;
  }

  /** The mean of the first k tokens has moved at most tol (1/2 + ... + 1/k) from the first one. */
  lemma {:induction false} MeanDrift(row: seq<Token>, tol: real, k: nat)
    requires GrownRow(row, tol) && 1 <= k <= |row|
    ensures MeanY(row[..k]) <= row[0].y + tol * (Harmonic(k) - 1.0)
    decreases k
  {
    hide MeanY, Harmonic;
    if k == 1 {
      FirstMean(row, tol);
    } else {
      MeanDrift(row, tol, k - 1);
      assert Joins(row[..k - 1], row[k - 1], tol);
      MeanMoves(row, tol, k - 1);
      HarmonicStep(tol, k);
    }
  }

  /** A grown row of k tokens spans at most tol (1 + 1/2 + ... + 1/(k-1)). */
  lemma {:induction false} RowSpan(row: seq<Token>, tol: real, l: nat)
    requires GrownRow(row, tol) && 1 <= l < |row|
    ensures row[l].y - row[0].y <= tol * Harmonic(l)
  {
    MeanDrift(row, tol, l);
    assert Joins(row[..l], row[l], tol);
  }

  // The rows returned.

  lemma ReadingOrderIsTotal()
    ensures TotalPreorder(ReadingOrder()) && TotalPreorder(LeftToRight())
  {
  }

  lemma {:induction false} SortRowsPermutes(rows: seq<seq<Token>>)
    ensures multiset(Flatten(SortRows(rows))) == multiset(Flatten(rows))
  {
    hide SortBy;
    if rows != [] {
      var front, last := rows[..|rows| - 1], rows[|rows| - 1];
      SortRowsPermutes(front);
      SortPermutes(LeftToRight(), last);
      assert SortRows(rows)[..|rows| - 1] == SortRows(front);
    }
  }

  /** The rows are non-empty, run from left to right, and hold every token exactly once. */
  lemma {:induction false} RowsPartitionTokens(tokens: seq<Token>, grown: seq<seq<Token>>)
    requires IsClustering(tokens, grown)
    ensures multiset(Flatten(SortRows(grown))) == multiset(tokens)
    ensures forall r :: 0 <= r < |grown| ==> SortRows(grown)[r] != [] && Sorted(LeftToRight(), SortRows(grown)[r])
    ensures forall r :: 0 <= r < |grown| ==> multiset(SortRows(grown)[r]) == multiset(grown[r])
    ensures tokens == [] <==> SortRows(grown) == []
    ensures forall r, i, j :: (0 <= r < |grown| && 0 <= i < j < |SortRows(grown)[r]|) ==>
      SortRows(grown)[r][i].x <= SortRows(grown)[r][j].x
  {
    hide Joins, SortBy, Tolerance;
    ReadingOrderIsTotal();
    SortPermutes(ReadingOrder(), tokens);
    SortRowsPermutes(grown);
    forall r | 0 <= r < |grown|
      ensures SortRows(grown)[r] != [] && Sorted(LeftToRight(), SortRows(grown)[r])
      ensures multiset(SortRows(grown)[r]) == multiset(grown[r])
    {
      assert GrownRow(grown[r], Tolerance(tokens));
      SortPermutes(LeftToRight(), grown[r]);
      SortSorted(LeftToRight(), grown[r]);
    }
    RowsOfNothing(grown, Tolerance(tokens));
  }

  /** Before the cut the tokens stand from top to bottom, and from left to right at the same height. */
  lemma TokensInReadingOrder(tokens: seq<Token>, grown: seq<seq<Token>>, i: nat, j: nat)
    requires IsClustering(tokens, grown) && i < j < |Flatten(grown)|
    ensures var a, b := Flatten(grown)[i], Flatten(grown)[j]; a.y < b.y || (a.y == b.y && a.x <= b.x)
  {
    hide SortBy, Greedy, Tolerance, Flatten;
    ReadingOrderIsTotal();
    SortSorted(ReadingOrder(), tokens);
    assert ReadingOrder()(Flatten(grown)[i], Flatten(grown)[j]);
  }

  /** The tokens decide the rows. */
  lemma RowsAreUnique(tokens: seq<Token>, a: seq<seq<Token>>, b: seq<seq<Token>>)
    requires IsClustering(tokens, a) && IsClustering(tokens, b)
    ensures SortRows(a) == SortRows(b)
  {
    GreedyIsUnique(a, b, Tolerance(tokens));
  }

  /** Where a token of a returned row stood before the rows were sorted. */
  lemma WhereItStood(grown: seq<seq<Token>>, r: nat, t: Token) returns (k: nat)
    requires r < |grown| && t in SortRows(grown)[r]
    ensures k < |grown[r]| && grown[r][k] == t
  {
    SortPermutes(LeftToRight(), grown[r]);
    assert t in multiset(SortRows(grown)[r]);
    assert t in grown[r];
    k :| k < |grown[r]| && grown[r][k] == t;
  }

  /** No token lies above one of an earlier row, and every row starts beyond the reach of the row before it. */
  lemma RowsSeparate(tokens: seq<Token>, grown: seq<seq<Token>>, p: nat, q: nat, t: Token, u: Token)
    requires IsClustering(tokens, grown) && p < q < |grown|
    requires t in SortRows(grown)[p] && u in SortRows(grown)[q]
    ensures grown[p] != []
    ensures t.y <= u.y
    ensures q == p + 1 ==> u.y > MeanY(grown[p]) + Tolerance(tokens)
  {
    hide SortBy, Tolerance, MeanY, SortRows, Flatten;
    ReadingOrderIsTotal();
    SortSorted(ReadingOrder(), tokens);
    var k := WhereItStood(grown, p, t);
    var l := WhereItStood(grown, q, u);
    RowsInOrder(grown, p, q, k, l);
    assert GrownRow(grown[p], Tolerance(tokens));
    if q == p + 1 {
      RowsInOrder(grown, q, q, 0, l);
      forall i | 0 <= i < |grown[p]| ensures grown[p][i].y <= grown[q][0].y {
        RowsInOrder(grown, p, q, i, 0);
      }
      MeanAtMost(grown[p], grown[q][0].y);
      assert !Joins(grown[q - 1], grown[q][0], Tolerance(tokens));
    }
  }

  lemma MeanAtMost(row: seq<Token>, top: real)
    requires row != [] && forall i :: 0 <= i < |row| ==> row[i].y <= top
    ensures MeanY(row) <= top
  {
    SumAtMostTop(row, top);
    assert SumY(row) / |row| as real <= (top * |row| as real) / |row| as real == top;
  }

  lemma {:induction false} SumAtMostTop(row: seq<Token>, top: real)
    requires forall i :: 0 <= i < |row| ==> row[i].y <= top
    ensures SumY(row) <= top * |row| as real
  {
    if row != [] {
      SumAtMostTop(row[..|row| - 1], top);
      assert top * |row| as real == top * (|row| - 1) as real + top;
    }
  }

  /** Two tokens of a row of k lie at most tol (1 + 1/2 + ... + 1/(k-1)) apart, in spite of the drift. */
  lemma RowSpanBounded(tokens: seq<Token>, grown: seq<seq<Token>>, r: nat, t: Token, u: Token)
    requires IsClustering(tokens, grown) && r < |grown|
    requires t in SortRows(grown)[r] && u in SortRows(grown)[r]
    ensures |SortRows(grown)[r]| > 0
    ensures u.y - t.y <= Tolerance(tokens) * Harmonic(|SortRows(grown)[r]| - 1)
  {
    hide SortBy, Tolerance, MeanY, Flatten, Harmonic, Joins;
    ReadingOrderIsTotal();
    SortSorted(ReadingOrder(), tokens);
    var tol := Tolerance(tokens);
    var k := WhereItStood(grown, r, t);
    var l := WhereItStood(grown, r, u);
    SortPermutes(LeftToRight(), grown[r]);
    assert GrownRow(grown[r], tol);
    RowsInOrder(grown, r, r, 0, k);
    RowsInOrder(grown, r, r, l, |grown[r]| - 1);
    SpanOf(grown[r], tol);
    assert |SortRows(grown)[r]| == |grown[r]|;
    assert u.y - t.y <= grown[r][|grown[r]| - 1].y - grown[r][0].y;
  }

  lemma {:induction false} SpanOf(row: seq<Token>, tol: real)
    requires GrownRow(row, tol) && tol >= 0.0
    ensures row[|row| - 1].y - row[0].y <= tol * Harmonic(|row| - 1)
  {
    hide Joins, MeanY;
    if |row| == 1 {
      assert Harmonic(|row| - 1) == 0.0;
    } else {
      RowSpan(row, tol, |row| - 1);
    }
  }

  // The bound is reached: tokens spaced along the harmonic series make one row of any length.

  function DriftingRow(n: nat): seq<Token> {
    seq(n, i requires 0 <= i < n => Token("", 0.0, 18.0 * Harmonic(i), 1.0, 1.0))
  }

  lemma {:induction false} DriftingMean(n: nat)
    requires n > 0
    ensures MeanY(DriftingRow(n)) == 18.0 * (Harmonic(n) - 1.0)
  {
    var row := DriftingRow(n);
    assert row[..|row|] == row;
    if n == 1 {
      FirstMean(row, 18.0);
    } else {
      DriftingMean(n - 1);
      assert row[..n - 1] == DriftingRow(n - 1);
      MeanOfPrefix(row, n - 1);
      MeanStep(MeanY(row[..n - 1]), n - 1, row[n - 1].y, 18.0);
      HarmonicStep(18.0, n);
    }
  }

  lemma DriftingRowGrows(n: nat)
    requires n > 0
    ensures GrownRow(DriftingRow(n), 18.0)
  {
    var row := DriftingRow(n);
    forall k | 1 <= k < n ensures Joins(row[..k], row[k], 18.0) {
      assert row[..k] == DriftingRow(k);
      DriftingMean(k);
    }
  }

  lemma {:induction false} HarmonicGrows(i: nat, j: nat)
    requires i < j
    ensures Harmonic(i) < Harmonic(j)
    decreases j
  {
    assert 1.0 / j as real > 0.0;
    if i < j - 1 {
      HarmonicGrows(i, j - 1);
    }
  }

  lemma {:induction false} SortOfSorted<T>(le: (T, T) -> bool, s: seq<T>)
    requires Sorted(le, s)
    ensures SortBy(le, s) == s
  {
    if s != [] {
      SortOfSorted(le, s[1..]);
      assert |s| > 1 ==> le(s[0], s[1]);
    }
  }

  lemma DriftingRowSorted(n: nat)
    ensures Sorted(ReadingOrder(), DriftingRow(n))
    ensures n > 0 ==> DriftingRow(n)[0].y == 0.0
  {
    assert Harmonic(0) == 0.0;
    hide Harmonic;
    forall i, j | 0 <= i < j < n ensures ReadingOrder()(DriftingRow(n)[i], DriftingRow(n)[j]) {
      HarmonicGrows(i, j);
    }
  }

  lemma OneRowIsGreedy(row: seq<Token>, tol: real)
    requires GrownRow(row, tol)
    ensures Greedy([row], tol) && Flatten([row]) == row
  {
    hide Joins;
    assert [row][..0] == [];
  }

  /** For every n there are n tokens that form one row spanning exactly tol (1 + 1/2 + ... + 1/(n-1)). */
  lemma RowSpanReached(n: nat)
    requires n > 0
    ensures var tokens := DriftingRow(n);
      && IsClustering(tokens, [tokens])
      && Tolerance(tokens) == 18.0
      && tokens[n - 1].y - tokens[0].y == 18.0 * Harmonic(n - 1)
  {
    hide SortBy, Tolerance, Harmonic, Flatten, Greedy, GrownRow;
    var tokens := DriftingRow(n);
    LowTokensTolerance(n);
    DriftingRowGrows(n);
    DriftingRowSorted(n);
    OneRowIsGreedy(tokens, 18.0);
    SortOfSorted(ReadingOrder(), tokens);
  }

  lemma LowTokensTolerance(n: nat)
    ensures Tolerance(DriftingRow(n)) == 18.0
  {
    var tokens := DriftingRow(n);
    var heights := SortBy(Smaller(), Heights(tokens));
    SortPermutes(Smaller(), Heights(tokens));
    if heights != [] {
      assert heights[|heights| / 2] in multiset(heights);
      assert heights[|heights| / 2] in Heights(tokens);
    }
  }
}
