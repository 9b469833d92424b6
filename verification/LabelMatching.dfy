/**
 Matching printed labels with the numbers found near them
 (src/modules/collation/ocr-ec8a-parse.ts:82-116, 149-195). The label hits and the numbers found
 in the text are the input, each in text order.
 */
module LabelMatching {
  import opened Collections
  import opened Sheets

  /** A label found at text positions `index` to `end`. */
  datatype Label = Label(field: Figure, index: int, end: int)
  datatype Number = Number(value: nat, index: int)

  const LARGE_SUMMARY_FIELDS: set<Figure> := {RegisteredVoters, AccreditedVoters, BallotPapersIssued, UsedBallotPapers}

  predicate TooSmall(f: Figure, value: nat) {
    f in LARGE_SUMMARY_FIELDS && value < 10
  }

  /** Labels in text order, at most one per field; numbers in text order. */
  ghost predicate InOrder(labels: seq<Label>, numbers: seq<Number>) {
    && (forall i :: 0 <= i < |labels| ==> labels[i].index < labels[i].end)
    && (forall i, j :: 0 <= i < j < |labels| ==>
          labels[i].index <= labels[j].index && labels[i].field != labels[j].field)
    && InTextOrder(numbers)
  }

  ghost predicate InTextOrder(numbers: seq<Number>) {
    forall i, j :: 0 <= i < j < |numbers| ==> numbers[i].index < numbers[j].index
  }

  predicate NumberBetween(numbers: seq<Number>, lo: int, hi: int) {
    exists n :: 0 <= n < |numbers| && lo <= numbers[n].index < hi
  }

  /** The end of the group at `i`: the first later label with a number between it and its predecessor. */
  function GroupEnd(labels: seq<Label>, numbers: seq<Number>, j: nat): (r: nat)
    requires 1 <= j <= |labels|
    ensures j <= r <= |labels|
    ensures r < |labels| ==> NumberBetween(numbers, labels[r - 1].end, labels[r].index)
    ensures forall k :: j <= k < r ==> !NumberBetween(numbers, labels[k - 1].end, labels[k].index)
    decreases |labels| - j
  {
    if j == |labels| || NumberBetween(numbers, labels[j - 1].end, labels[j].index) then j
    else GroupEnd(labels, numbers, j + 1)
  }

  /** Where a group stops looking for numbers: the next group's first label, if any. */
  function Before(labels: seq<Label>, j: nat): Option<int>
    requires j <= |labels|
  {
    if j < |labels| then Some(labels[j].index) else None
  }

  predicate IsBefore(at: int, before: Option<int>) {
    before.None? || at < before.value
  }

  /** The first number at or after a text position. */
  function FirstAt(numbers: seq<Number>, after: int): (n: nat)
    ensures n <= |numbers|
    ensures n < |numbers| ==> numbers[n].index >= after
    ensures forall m :: 0 <= m < n ==> numbers[m].index < after
  {
    FirstFrom(numbers, after, 0)
  }

  function FirstFrom(numbers: seq<Number>, after: int, n: nat): (r: nat)
    requires n <= |numbers| && forall m :: 0 <= m < n ==> numbers[m].index < after
    ensures n <= r <= |numbers|
    ensures r < |numbers| ==> numbers[r].index >= after
    ensures forall m :: 0 <= m < r ==> numbers[m].index < after
    decreases |numbers| - n
  {
    if n == |numbers| || numbers[n].index >= after then n else FirstFrom(numbers, after, n + 1)
  }

  // Who gets which number.

  /** `n` is a number between the end of the group's last label and the next group. */
  predicate InWindow(numbers: seq<Number>, n: int, after: int, before: Option<int>) {
    0 <= n < |numbers| && after <= numbers[n].index && IsBefore(numbers[n].index, before)
  }

  /** Where the search for the k-th field starts. */
  function SearchStart(lo: nat, picks: seq<nat>, k: nat): nat
    requires k <= |picks|
  {
    if k == 0 then lo else picks[k - 1] + 1
  }

  /** The k-th pick suits the k-th field, and every number passed over for it was too small. */
  ghost predicate Chosen(numbers: seq<Number>, lo: nat, fields: seq<Figure>, before: Option<int>,
        picks: seq<nat>, k: nat)
    requires k < |picks| <= |fields|
  {
    && SearchStart(lo, picks, k) <= picks[k] < |numbers|
    && IsBefore(numbers[picks[k]].index, before)
    && !TooSmall(fields[k], numbers[picks[k]].value)
    && (forall m :: SearchStart(lo, picks, k) <= m < picks[k] ==> TooSmall(fields[k], numbers[m].value))
  }

  ghost predicate NothingFits(numbers: seq<Number>, from: nat, f: Figure, before: Option<int>) {
    forall m :: from <= m < |numbers| && IsBefore(numbers[m].index, before) ==> TooSmall(f, numbers[m].value)
  }

  /**
   First fit, declaratively, among the numbers from position `lo` up to `before`: picks increase,
   and fields stay without a number only when nothing suitable is left.
   */
  ghost predicate FirstFit(numbers: seq<Number>, lo: nat, fields: seq<Figure>, before: Option<int>, picks: seq<nat>) {
    && |picks| <= |fields|
    && (forall k :: 0 <= k < |picks| ==> Chosen(numbers, lo, fields, before, picks, k))
    && (|picks| < |fields| ==> NothingFits(numbers, SearchStart(lo, picks, |picks|), fields[|picks|], before))
  }

  /** The inner loop: positions of the accepted numbers, from number `n` on. */
  function Fit(numbers: seq<Number>, n: nat, fields: seq<Figure>, before: Option<int>): seq<nat>
    requires n <= |numbers|
    decreases |numbers| - n
  {
    if fields == [] || n == |numbers| || !IsBefore(numbers[n].index, before) then []
    else if TooSmall(fields[0], numbers[n].value) then Fit(numbers, n + 1, fields, before)
    else [n] + Fit(numbers, n + 1, fields[1..], before)
  }

  function FieldsOf(labels: seq<Label>, i: nat, j: nat): (r: seq<Figure>)
    requires i <= j <= |labels|
    ensures |r| == j - i
  {
    seq(j - i, k requires 0 <= k < j - i => labels[i + k].field)
  }

  /** The numbers of the group of labels `i` to `j`: it depends on no other group. */
  function GroupPicks(labels: seq<Label>, numbers: seq<Number>, i: nat, j: nat): seq<nat>
    requires i < j <= |labels|
  {
    Fit(numbers, FirstAt(numbers, labels[j - 1].end), FieldsOf(labels, i, j), Before(labels, j))
  }

  function Give(fields: map<Figure, nat>, names: seq<Figure>, numbers: seq<Number>, picks: seq<nat>): map<Figure, nat>
    requires |picks| <= |names| && forall k :: 0 <= k < |picks| ==> picks[k] < |numbers|
    decreases |picks|
  {
    if picks == [] then fields
    else Give(fields[names[0] := numbers[picks[0]].value], names[1..], numbers, picks[1..])
  }

  lemma FitInRange(numbers: seq<Number>, n: nat, fields: seq<Figure>, before: Option<int>)
    requires n <= |numbers|
    ensures var r := Fit(numbers, n, fields, before);
      |r| <= |fields| && forall k :: 0 <= k < |r| ==> n <= r[k] < |numbers| && IsBefore(numbers[r[k]].index, before)
    decreases |numbers| - n
  {
  }

  /** The fields after the groups from label `i` on. */
  function AssignFrom(labels: seq<Label>, numbers: seq<Number>, i: nat, fields: map<Figure, nat>): map<Figure, nat>
    requires i <= |labels|
    decreases |labels| - i
  {
    if i == |labels| then fields
    else
      var j := GroupEnd(labels, numbers, i + 1);
      FitInRange(numbers, FirstAt(numbers, labels[j - 1].end), FieldsOf(labels, i, j), Before(labels, j));
      AssignFrom(labels, numbers, j, Give(fields, FieldsOf(labels, i, j), numbers, GroupPicks(labels, numbers, i, j)))
  }

  lemma AssignOneGroup(labels: seq<Label>, numbers: seq<Number>, i: nat, fields: map<Figure, nat>)
    requires i < |labels|
    ensures var j := GroupEnd(labels, numbers, i + 1);
      var names, picks := FieldsOf(labels, i, j), GroupPicks(labels, numbers, i, j);
      && |picks| <= |names| && (forall k :: 0 <= k < |picks| ==> picks[k] < |numbers|)
      && AssignFrom(labels, numbers, i, fields) == AssignFrom(labels, numbers, j, Give(fields, names, numbers, picks))
  {
    hide Fit, Give;
    var j := GroupEnd(labels, numbers, i + 1);
    FitInRange(numbers, FirstAt(numbers, labels[j - 1].end), FieldsOf(labels, i, j), Before(labels, j));
  }

  lemma NoGroupsLeft(labels: seq<Label>, numbers: seq<Number>)
    ensures forall fields :: AssignFrom(labels, numbers, |labels|, fields) == fields
  {
  }

  /** The matching loop: one position in the numbers, which only moves forward. */
  method AssignClusteredFields(labels: seq<Label>, numbers: seq<Number>) returns (fields: map<Figure, nat>)
    requires InOrder(labels, numbers)
    ensures fields == AssignFrom(labels, numbers, 0, map[])
  {
    hide Fit, Give, GroupEnd, AssignFrom;
    fields := map[];
    NoGroupsLeft(labels, numbers);
    if |labels| == 0 {
      return;
    }
    var numIdx := SkipTo(numbers, 0, labels[0].index);
    var i := 0;
    while i < |labels|
      invariant i <= |labels| && numIdx <= |numbers|
      invariant i < |labels| ==> forall m :: 0 <= m < numIdx ==> numbers[m].index < labels[i].index
      invariant AssignFrom(labels, numbers, 0, map[]) == AssignFrom(labels, numbers, i, fields)
      decreases |labels| - i
    {
      var j := FindGroupEnd(labels, numbers, i);
      assert labels[i].index < labels[j - 1].end;
      assert j < |labels| ==> labels[j - 1].end < labels[j].index;
      numIdx := SkipTo(numbers, numIdx, labels[j - 1].end);
      FirstAtIsUnique(numbers, labels[j - 1].end, numIdx);
      FitInRange(numbers, numIdx, FieldsOf(labels, i, j), Before(labels, j));
      var picks;
      picks, numIdx := TakeNumbers(numbers, numIdx, FieldsOf(labels, i, j), Before(labels, j));
      AssignOneGroup(labels, numbers, i, fields);
      fields := GiveNumbers(fields, FieldsOf(labels, i, j), numbers, picks);
      i := j;
    }
  }

  lemma FirstAtIsUnique(numbers: seq<Number>, after: int, n: nat)
    requires n <= |numbers| && (n < |numbers| ==> numbers[n].index >= after)
    requires forall m :: 0 <= m < n ==> numbers[m].index < after
    ensures n == FirstAt(numbers, after)
  {
  }

  method SkipTo(numbers: seq<Number>, from: nat, after: int) returns (n: nat)
    requires from <= |numbers| && forall m :: 0 <= m < from ==> numbers[m].index < after
    ensures from <= n <= |numbers| && (n < |numbers| ==> numbers[n].index >= after)
    ensures forall m :: 0 <= m < n ==> numbers[m].index < after
  {
    n := from;
    while n < |numbers| && numbers[n].index < after
      invariant from <= n <= |numbers| && forall m :: 0 <= m < n ==> numbers[m].index < after
    {
      n := n + 1;
    }
  }

  method FindGroupEnd(labels: seq<Label>, numbers: seq<Number>, i: nat) returns (j: nat)
    requires i < |labels|
    ensures j == GroupEnd(labels, numbers, i + 1)
    ensures i < j <= |labels| && IsCut(labels, numbers, j) && forall k :: i < k < j ==> !IsCut(labels, numbers, k)
  {
    GroupEndsAtCut(labels, numbers, i);
    j := i + 1;
    while j < |labels|
      invariant i < j <= |labels| && GroupEnd(labels, numbers, i + 1) == GroupEnd(labels, numbers, j)
    {
      if NumberBetween(numbers, labels[j - 1].end, labels[j].index) {
        break;
      }
      j := j + 1;
    }
  }

  lemma FitLooksAt(numbers: seq<Number>, n: nat, fields: seq<Figure>, k: nat, before: Option<int>)
    requires n < |numbers| && k < |fields| && IsBefore(numbers[n].index, before)
    ensures Fit(numbers, n, fields[k..], before) ==
            if TooSmall(fields[k], numbers[n].value) then Fit(numbers, n + 1, fields[k..], before)
            else [n] + Fit(numbers, n + 1, fields[k + 1..], before)
  {
    hide TooSmall, IsBefore;
    assert fields[k..][1..] == fields[k + 1..];
  }

  lemma FitStops(numbers: seq<Number>, n: nat, fields: seq<Figure>, before: Option<int>)
    requires n <= |numbers| && (n == |numbers| || !IsBefore(numbers[n].index, before) || fields == [])
    ensures Fit(numbers, n, fields, before) == []
  {
  }

  /** Takes numbers before `before` until every field has one; the position ends behind the last one looked at. */
  method TakeNumbers(numbers: seq<Number>, from: nat, fields: seq<Figure>, before: Option<int>)
    returns (picks: seq<nat>, n: nat)
    requires from <= |numbers|
    ensures picks == Fit(numbers, from, fields, before)
    ensures from <= n <= |numbers|
    ensures before.Some? ==> forall m :: from <= m < n ==> numbers[m].index < before.value
    ensures |picks| <= |fields|
    ensures forall k :: 0 <= k < |picks| ==> picks[k] < |numbers| && !TooSmall(fields[k], numbers[picks[k]].value)
  {
    hide Fit, TooSmall;
    picks, n := [], from;
    while n < |numbers| && IsBefore(numbers[n].index, before) && |picks| < |fields|
      invariant from <= n <= |numbers| && |picks| <= |fields|
      invariant forall m :: from <= m < n ==> IsBefore(numbers[m].index, before)
      invariant forall k :: 0 <= k < |picks| ==> picks[k] < |numbers| && !TooSmall(fields[k], numbers[picks[k]].value)
      invariant Fit(numbers, from, fields, before) == picks + Fit(numbers, n, fields[|picks|..], before)
    {
      FitLooksAt(numbers, n, fields, |picks|, before);
      if !TooSmall(fields[|picks|], numbers[n].value) {
        picks := picks + [n];
      }
      n := n + 1;
    }
    FitStops(numbers, n, fields[|picks|..], before);
  }

  /** Hands the picks out; the second look at the size never drops a value. */
  method GiveNumbers(fields: map<Figure, nat>, names: seq<Figure>, numbers: seq<Number>, picks: seq<nat>)
    returns (r: map<Figure, nat>)
    requires |picks| <= |names|
    requires forall k :: 0 <= k < |picks| ==> picks[k] < |numbers| && !TooSmall(names[k], numbers[picks[k]].value)
    ensures r == Give(fields, names, numbers, picks)
  {
    r := fields;
    for k := 0 to |names|
      invariant var done := if k < |picks| then k else |picks|;
        Give(fields, names, numbers, picks) == Give(r, names[done..], numbers, picks[done..])
    {
      if k < |picks| && !TooSmall(names[k], numbers[picks[k]].value) {
        r := r[names[k] := numbers[picks[k]].value];
        assert names[k..][1..] == names[k + 1..] && picks[k..][1..] == picks[k + 1..];
      }
    }
  }

  // The greedy loop is first fit.

  lemma {:induction false} FitIsFirstFit(numbers: seq<Number>, n: nat, fields: seq<Figure>, before: Option<int>)
    requires n <= |numbers| && InTextOrder(numbers)
    ensures FirstFit(numbers, n, fields, before, Fit(numbers, n, fields, before))
    decreases |numbers| - n
  {
    if fields == [] || n == |numbers| || !IsBefore(numbers[n].index, before) {
    } else if TooSmall(fields[0], numbers[n].value) {
      FitIsFirstFit(numbers, n + 1, fields, before);
      FirstFitAfterSkip(numbers, n, fields, before, Fit(numbers, n + 1, fields, before));
    } else {
      FitIsFirstFit(numbers, n + 1, fields[1..], before);
      FirstFitAfterPick(numbers, n, fields, before, Fit(numbers, n + 1, fields[1..], before));
    }
  }

  lemma FirstFitAfterSkip(numbers: seq<Number>, n: nat, fields: seq<Figure>, before: Option<int>, picks: seq<nat>)
    requires n < |numbers| && fields != [] && TooSmall(fields[0], numbers[n].value)
    requires FirstFit(numbers, n + 1, fields, before, picks)
    ensures FirstFit(numbers, n, fields, before, picks)
  {
    hide TooSmall, IsBefore;
    forall k | 0 <= k < |picks| ensures Chosen(numbers, n, fields, before, picks, k) {
      assert Chosen(numbers, n + 1, fields, before, picks, k);
    }
  }

  lemma FirstFitAfterPick(numbers: seq<Number>, n: nat, fields: seq<Figure>, before: Option<int>, rest: seq<nat>)
    requires n < |numbers| && IsBefore(numbers[n].index, before)
    requires fields != [] && !TooSmall(fields[0], numbers[n].value)
    requires FirstFit(numbers, n + 1, fields[1..], before, rest)
    ensures FirstFit(numbers, n, fields, before, [n] + rest)
  {
    hide TooSmall, IsBefore;
    var picks := [n] + rest;
    forall k | 0 <= k < |picks| ensures Chosen(numbers, n, fields, before, picks, k) {
      if k > 0 {
        assert Chosen(numbers, n + 1, fields[1..], before, rest, k - 1);
        assert SearchStart(n, picks, k) == SearchStart(n + 1, rest, k - 1);
      }
    }
    assert SearchStart(n, picks, |picks|) == SearchStart(n + 1, rest, |rest|);
  }

  /** The numbers from the first one behind the group's labels are exactly the group's window. */
  lemma WindowIsASuffix(numbers: seq<Number>, after: int, before: Option<int>, m: int)
    requires InTextOrder(numbers)
    ensures InWindow(numbers, m, after, before)
       <==> FirstAt(numbers, after) <= m < |numbers| && IsBefore(numbers[m].index, before)
  {
    var n := FirstAt(numbers, after);
    assert n < m < |numbers| ==> numbers[n].index < numbers[m].index;
  }

  /** First fit has only one answer. */
  lemma {:induction false} FirstFitIsUnique(numbers: seq<Number>, lo: nat, fields: seq<Figure>, before: Option<int>,
                                            a: seq<nat>, b: seq<nat>, k: nat)
    requires FirstFit(numbers, lo, fields, before, a) && FirstFit(numbers, lo, fields, before, b)
    requires k <= |a| && k <= |b| && a[..k] == b[..k]
    ensures a == b
    decreases |fields| - k
  {
    hide TooSmall, IsBefore;
    assert k > 0 ==> a[..k][k - 1] == a[k - 1] && b[..k][k - 1] == b[k - 1];
    assert SearchStart(lo, a, k) == SearchStart(lo, b, k);
    if k < |a| || k < |b| {
      assert k < |a| ==> Chosen(numbers, lo, fields, before, a, k);
      assert k < |b| ==> Chosen(numbers, lo, fields, before, b, k);
      assert k < |a| && k < |b| && a[k] == b[k];
      assert a[..k + 1] == a[..k] + [a[k]] && b[..k + 1] == b[..k] + [b[k]];
      FirstFitIsUnique(numbers, lo, fields, before, a, b, k + 1);
    }
  }

  /** When no window number is too small for any field of the group, the k-th label gets the k-th number. */
  lemma {:induction false} NothingSkipped(numbers: seq<Number>, n: nat, fields: seq<Figure>,
        before: Option<int>, k: nat)
    requires n <= |numbers|
    requires forall m, f ::
      (n <= m < |numbers| && IsBefore(numbers[m].index, before) && f in fields) ==> !TooSmall(f, numbers[m].value)
    requires k < |fields| && n + k < |numbers| && forall m :: n <= m <= n + k ==> IsBefore(numbers[m].index, before)
    ensures k < |Fit(numbers, n, fields, before)| && Fit(numbers, n, fields, before)[k] == n + k
    decreases k
  {
    assert fields[0] in fields;
    if k > 0 {
      assert forall f :: f in fields[1..] ==> f in fields;
      NothingSkipped(numbers, n + 1, fields[1..], before, k - 1);
    }
  }

  lemma KthLabelGetsKthNumber(labels: seq<Label>, numbers: seq<Number>, i: nat, j: nat, k: nat)
    requires InOrder(labels, numbers) && i < j <= |labels| && k < j - i
    requires var after, before := labels[j - 1].end, Before(labels, j);
      && InWindow(numbers, FirstAt(numbers, after) + k, after, before)
      && (forall m, f ::
            (InWindow(numbers, m, after, before) && f in FieldsOf(labels, i, j)) ==> !TooSmall(f, numbers[m].value))
    ensures k < |GroupPicks(labels, numbers, i, j)|
    ensures GroupPicks(labels, numbers, i, j)[k] == FirstAt(numbers, labels[j - 1].end) + k
  {
    var after, before := labels[j - 1].end, Before(labels, j);
    var n := FirstAt(numbers, after);
    forall m | n <= m < |numbers| && IsBefore(numbers[m].index, before) ensures InWindow(numbers, m, after, before) {
      assert n < m ==> numbers[n].index < numbers[m].index;
    }
    forall m | n <= m <= n + k ensures IsBefore(numbers[m].index, before) {
      assert m < n + k ==> numbers[m].index < numbers[n + k].index;
    }
    NothingSkipped(numbers, n, FieldsOf(labels, i, j), before, k);
  }

  // What each field ends up with.

  /** Label `t` belongs to the group `i` to `j` of the partition that starts at label `from`. */
  ghost predicate InGroup(labels: seq<Label>, numbers: seq<Number>, from: nat, t: nat, i: nat, j: nat)
    requires from <= |labels|
    decreases |labels| - from
  {
    from < |labels| &&
    var next := GroupEnd(labels, numbers, from + 1);
    if t < next then from <= t && i == from && j == next else InGroup(labels, numbers, next, t, i, j)
  }

  lemma {:induction false} GroupShape(labels: seq<Label>, numbers: seq<Number>, from: nat, t: nat, i: nat, j: nat)
    requires from <= |labels| && InGroup(labels, numbers, from, t, i, j)
    ensures from <= i <= t < j <= |labels| && j == GroupEnd(labels, numbers, i + 1)
    ensures IsCut(labels, numbers, j) && forall k :: i < k < j ==> !IsCut(labels, numbers, k)
    decreases |labels| - from
  {
    GroupEndsAtCut(labels, numbers, from);
    var next := GroupEnd(labels, numbers, from + 1);
    if t >= next {
      GroupShape(labels, numbers, next, t, i, j);
    }
  }

  lemma {:induction false} EveryLabelHasAGroup(labels: seq<Label>, numbers: seq<Number>, from: nat, t: nat)
    requires from <= t < |labels|
    ensures exists i, j :: InGroup(labels, numbers, from, t, i, j)
    decreases |labels| - from
  {
    var next := GroupEnd(labels, numbers, from + 1);
    if t < next {
      assert InGroup(labels, numbers, from, t, from, next);
    } else {
      EveryLabelHasAGroup(labels, numbers, next, t);
      var i, j :| InGroup(labels, numbers, next, t, i, j);
      assert InGroup(labels, numbers, from, t, i, j);
    }
  }

  /** Giving to distinct names: each of the first ones gets its number, nothing else changes. */
  lemma {:induction false} GiveExact(fields: map<Figure, nat>, names: seq<Figure>, numbers: seq<Number>,
        picks: seq<nat>, f: Figure)
    requires |picks| <= |names| && Distinct(names) && forall k :: 0 <= k < |picks| ==> picks[k] < |numbers|
    ensures var r := Give(fields, names, numbers, picks);
      && (forall k :: 0 <= k < |picks| ==> names[k] in r && r[names[k]] == numbers[picks[k]].value)
      && ((forall k :: 0 <= k < |picks| ==> names[k] != f) ==>
            (f in r <==> f in fields) && (f in r ==> r[f] == fields[f]))
    decreases |picks|
  {
    if picks != [] {
      var first := fields[names[0] := numbers[picks[0]].value];
      GiveExact(first, names[1..], numbers, picks[1..], names[0]);
      GiveExact(first, names[1..], numbers, picks[1..], f);
      var r := Give(fields, names, numbers, picks);
      forall k | 0 <= k < |picks| ensures names[k] in r && r[names[k]] == numbers[picks[k]].value {
        if k > 0 {
          assert names[1..][k - 1] == names[k] && picks[1..][k - 1] == picks[k];
        }
      }
    }
  }

  lemma FieldsOfDistinct(labels: seq<Label>, numbers: seq<Number>, i: nat, j: nat)
    requires InOrder(labels, numbers) && i <= j <= |labels|
    ensures Distinct(FieldsOf(labels, i, j))
  {
  }

  /** What a label receives from its group. */
  function Received(labels: seq<Label>, numbers: seq<Number>, i: nat, j: nat, t: nat): Option<nat>
    requires i <= t < j <= |labels|
  {
    var picks := GroupPicks(labels, numbers, i, j);
    if t - i < |picks| && picks[t - i] < |numbers| then Some(numbers[picks[t - i]].value) else None
  }

  lemma {:induction false} LaterGroupsKeep(labels: seq<Label>, numbers: seq<Number>, from: nat,
        fields: map<Figure, nat>, f: Figure)
    requires InOrder(labels, numbers) && from <= |labels|
    requires forall t :: from <= t < |labels| ==> labels[t].field != f
    ensures var r := AssignFrom(labels, numbers, from, fields);
      (f in r <==> f in fields) && (f in r ==> r[f] == fields[f])
    decreases |labels| - from
  {
    hide Fit, Give, FirstFrom, TooSmall, IsBefore, NumberBetween, FirstAt;
    if from < |labels| {
      var j := GroupEnd(labels, numbers, from + 1);
      var names, picks := FieldsOf(labels, from, j), GroupPicks(labels, numbers, from, j);
      FitInRange(numbers, FirstAt(numbers, labels[j - 1].end), names, Before(labels, j));
      FieldsOfDistinct(labels, numbers, from, j);
      GiveExact(fields, names, numbers, picks, f);
      LaterGroupsKeep(labels, numbers, j, Give(fields, names, numbers, picks), f);
    }
  }

  lemma {:induction false} FieldFrom(labels: seq<Label>, numbers: seq<Number>, from: nat,
                                     fields: map<Figure, nat>, t: nat, i: nat, j: nat)
    requires InOrder(labels, numbers) && from <= |labels| && InGroup(labels, numbers, from, t, i, j)
    requires i <= t < j <= |labels| && labels[t].field !in fields
    ensures var r, f := AssignFrom(labels, numbers, from, fields), labels[t].field;
      var got := Received(labels, numbers, i, j, t);
      (f in r <==> got.Some?) && (f in r ==> r[f] == got.value)
    decreases |labels| - from
  {
    hide AssignFrom, Give, GroupPicks, FieldsOf, GroupEnd;
    var next, f := GroupEnd(labels, numbers, from + 1), labels[t].field;
    var names, picks := FieldsOf(labels, from, next), GroupPicks(labels, numbers, from, next);
    AssignOneGroup(labels, numbers, from, fields);
    FieldsOfDistinct(labels, numbers, from, next);
    GiveExact(fields, names, numbers, picks, f);
    NameOfLabel(labels, numbers, from, next, t);
    var given := Give(fields, names, numbers, picks);
    if t < next {
      LaterGroupsKeep(labels, numbers, next, given, f);
    } else {
      FieldFrom(labels, numbers, next, given, t, i, j);
    }
  }

  /** Where a label's field stands among the fields of a group: at its own place, or nowhere. */
  lemma NameOfLabel(labels: seq<Label>, numbers: seq<Number>, i: nat, j: nat, t: nat)
    requires InOrder(labels, numbers) && i <= j <= |labels| && i <= t < |labels|
    ensures t < j ==> FieldsOf(labels, i, j)[t - i] == labels[t].field
    ensures forall k :: 0 <= k < j - i && k != t - i ==> FieldsOf(labels, i, j)[k] != labels[t].field
  {
  }

  /**
   The result field by field: a label's field holds exactly the number that first fit in the window
   of its group gives it, and none if that gives none.
   */
  lemma FieldIsWhatItsGroupPicked(labels: seq<Label>, numbers: seq<Number>, t: nat, i: nat, j: nat)
    requires InOrder(labels, numbers) && t < |labels| && InGroup(labels, numbers, 0, t, i, j)
    ensures i <= t < j <= |labels|
    ensures var r, f, got := AssignFrom(labels, numbers, 0, map[]), labels[t].field, Received(labels, numbers, i, j, t);
      (f in r <==> got.Some?) && (f in r ==> r[f] == got.value && !TooSmall(f, r[f]))
    ensures var lo := FirstAt(numbers, labels[j - 1].end);
      FirstFit(numbers, lo, FieldsOf(labels, i, j), Before(labels, j), GroupPicks(labels, numbers, i, j))
  {
    hide AssignFrom, InGroup, Fit, TooSmall, GroupEnd;
    GroupShape(labels, numbers, 0, t, i, j);
    FieldFrom(labels, numbers, 0, map[], t, i, j);
    var lo, before, fields := FirstAt(numbers, labels[j - 1].end), Before(labels, j), FieldsOf(labels, i, j);
    FitIsFirstFit(numbers, lo, fields, before);
    var picks := GroupPicks(labels, numbers, i, j);
    if t - i < |picks| {
      assert Chosen(numbers, lo, fields, before, picks, t - i);
    }
  }

  /** No number is used twice, and numbers follow the labels: a later group only takes later numbers. */
  lemma LaterGroupsTakeLaterNumbers(labels: seq<Label>, numbers: seq<Number>, i: nat, j: nat, i': nat, j': nat,
        k: nat, l: nat)
    requires InOrder(labels, numbers) && i < j <= i' < j' <= |labels|
    requires k < |GroupPicks(labels, numbers, i, j)| && l < |GroupPicks(labels, numbers, i', j')|
    ensures GroupPicks(labels, numbers, i, j)[k] < GroupPicks(labels, numbers, i', j')[l]
  {
    hide Fit, FirstFrom;
    var a, b := GroupPicks(labels, numbers, i, j), GroupPicks(labels, numbers, i', j');
    FitInRange(numbers, FirstAt(numbers, labels[j - 1].end), FieldsOf(labels, i, j), Before(labels, j));
    FitInRange(numbers, FirstAt(numbers, labels[j' - 1].end), FieldsOf(labels, i', j'), Before(labels, j'));
    WindowIsASuffix(numbers, labels[j' - 1].end, Before(labels, j'), b[l]);
    assert numbers[a[k]].index < labels[j].index <= labels[j' - 1].index < labels[j' - 1].end <= numbers[b[l]].index;
  }

  /** Within a group numbers are taken in text order. */
  lemma {:induction false} PicksIncrease(numbers: seq<Number>, n: nat, fields: seq<Figure>,
        before: Option<int>, k: nat, l: nat)
    requires n <= |numbers| && k < l < |Fit(numbers, n, fields, before)|
    ensures n <= Fit(numbers, n, fields, before)[k] < Fit(numbers, n, fields, before)[l] < |numbers|
    decreases |numbers| - n
  {
    if TooSmall(fields[0], numbers[n].value) {
      PicksIncrease(numbers, n + 1, fields, before, k, l);
    } else {
      FitInRange(numbers, n + 1, fields[1..], before);
      if k > 0 {
        PicksIncrease(numbers, n + 1, fields[1..], before, k - 1, l - 1);
      }
    }
  }

  // The result in terms of labels and numbers alone.

  /** A group can start or end at label `k`: it is the first, behind the last, or has a number in front of it. */
  ghost predicate IsCut(labels: seq<Label>, numbers: seq<Number>, k: nat)
    requires k <= |labels|
  {
    || k == 0 || k == |labels|
    || exists n :: 0 <= n < |numbers| && labels[k - 1].end <= numbers[n].index < labels[k].index
  }

  lemma GroupEndsAtCut(labels: seq<Label>, numbers: seq<Number>, i: nat)
    requires i < |labels|
    ensures var j := GroupEnd(labels, numbers, i + 1);
      IsCut(labels, numbers, j) && forall k :: i < k < j ==> !IsCut(labels, numbers, k)
  {
    forall k | i < k < GroupEnd(labels, numbers, i + 1) ensures !IsCut(labels, numbers, k) {
      assert !NumberBetween(numbers, labels[k - 1].end, labels[k].index);
    }
  }

  lemma FirstIsCut(labels: seq<Label>, numbers: seq<Number>)
    ensures IsCut(labels, numbers, 0)
  {
  }

  /** The groups are exactly the stretches of labels from one cut to the next. */
  lemma {:induction false} GroupsExactly(labels: seq<Label>, numbers: seq<Number>, from: nat, t: nat, i: nat, j: nat)
    requires from <= |labels| && IsCut(labels, numbers, from)
    ensures InGroup(labels, numbers, from, t, i, j) <==>
      && from <= i <= t < j <= |labels| && IsCut(labels, numbers, i) && IsCut(labels, numbers, j)
      && forall k :: i < k < j ==> !IsCut(labels, numbers, k)
    decreases |labels| - from
  {
    if from < |labels| {
      var next := GroupEnd(labels, numbers, from + 1);
      assert IsCut(labels, numbers, next);
      forall k | from < k < next ensures !IsCut(labels, numbers, k) {
        assert !NumberBetween(numbers, labels[k - 1].end, labels[k].index);
      }
      GroupsExactly(labels, numbers, next, t, i, j);
    }
  }

  /** Number `n` stands behind label `a` and, unless label `b` is past the end, in front of label `b`. */
  ghost predicate Between(labels: seq<Label>, numbers: seq<Number>, a: nat, b: nat, n: nat)
    requires a < b <= |labels|
  {
    n < |numbers| && labels[a].end <= numbers[n].index && (b < |labels| ==> numbers[n].index < labels[b].index)
  }

  /** A number that label `t` can take: it is 10 or more, or the field may be small. */
  ghost predicate Suits(labels: seq<Label>, numbers: seq<Number>, t: nat, n: nat)
    requires t < |labels| && n < |numbers|
  {
    || numbers[n].value >= 10
    || labels[t].field !in {RegisteredVoters, AccreditedVoters, BallotPapersIssued, UsedBallotPapers}
  }

  /** The first number between label `t` and the next one that label `t` can take. */
  ghost predicate IsFirstSuitable(labels: seq<Label>, numbers: seq<Number>, t: nat, n: nat)
    requires t < |labels|
  {
    && Between(labels, numbers, t, t + 1, n) && Suits(labels, numbers, t, n)
    && forall m :: 0 <= m < n && Between(labels, numbers, t, t + 1, m) ==> !Suits(labels, numbers, t, m)
  }

  lemma WindowIsBetween(labels: seq<Label>, numbers: seq<Number>, j: nat, n: nat)
    requires InOrder(labels, numbers) && 0 < j <= |labels|
    ensures Between(labels, numbers, j - 1, j, n) <==>
      FirstAt(numbers, labels[j - 1].end) <= n < |numbers| && IsBefore(numbers[n].index, Before(labels, j))
  {
    WindowIsASuffix(numbers, labels[j - 1].end, Before(labels, j), n);
  }

  /**
   A label with a number in front of it and one in front of the next label (or none before or after
   it) gets the first number up to the next label that is not too small, and nothing without one.
   */
  lemma LabelOnItsOwn(labels: seq<Label>, numbers: seq<Number>, t: nat)
    requires InOrder(labels, numbers) && t < |labels|
    requires IsCut(labels, numbers, t) && IsCut(labels, numbers, t + 1)
    ensures var r, f := AssignFrom(labels, numbers, 0, map[]), labels[t].field;
      && (f in r <==> exists n: nat :: IsFirstSuitable(labels, numbers, t, n))
      && (forall n: nat :: IsFirstSuitable(labels, numbers, t, n) ==> r[f] == numbers[n].value)
  {
    hide AssignFrom, InGroup, IsCut, Fit, FirstFrom, FirstFit, GroupPicks, IsFirstSuitable, TooSmall, FieldsOf;
    FirstIsCut(labels, numbers);
    GroupsExactly(labels, numbers, 0, t, t, t + 1);
    FieldIsWhatItsGroupPicked(labels, numbers, t, t, t + 1);
    SinglePick(labels, numbers, t, GroupPicks(labels, numbers, t, t + 1));
  }

  /** First fit for one label alone. */
  lemma SinglePick(labels: seq<Label>, numbers: seq<Number>, t: nat, picks: seq<nat>)
    requires InOrder(labels, numbers) && t < |labels|
    requires var lo := FirstAt(numbers, labels[t].end);
      FirstFit(numbers, lo, FieldsOf(labels, t, t + 1), Before(labels, t + 1), picks)
    ensures picks == [] ==> forall n: nat :: !IsFirstSuitable(labels, numbers, t, n)
    ensures picks != [] ==> |picks| == 1 && picks[0] < |numbers| && IsFirstSuitable(labels, numbers, t, picks[0])
    ensures picks != [] ==> forall n: nat :: IsFirstSuitable(labels, numbers, t, n) ==> n == picks[0]
  {
    hide Between, FirstFrom, IsBefore;
    var lo, before, fields := FirstAt(numbers, labels[t].end), Before(labels, t + 1), FieldsOf(labels, t, t + 1);
    assert |fields| == 1 && fields[0] == labels[t].field;
    forall n: nat ensures Between(labels, numbers, t, t + 1, n) <==>
      lo <= n < |numbers| && IsBefore(numbers[n].index, before) {
      WindowIsBetween(labels, numbers, t + 1, n);
    }
    if picks != [] {
      assert Chosen(numbers, lo, fields, before, picks, 0);
    }
  }

  /** The k-th pick lies at least k numbers behind the first one looked at. */
  lemma {:induction false} PickAtLeast(numbers: seq<Number>, lo: nat, fields: seq<Figure>, before: Option<int>,
        picks: seq<nat>, k: nat)
    requires FirstFit(numbers, lo, fields, before, picks) && k < |picks|
    ensures lo + k <= picks[k] < |numbers| && IsBefore(numbers[picks[k]].index, before)
    decreases k
  {
    assert Chosen(numbers, lo, fields, before, picks, k);
    if k > 0 {
      PickAtLeast(numbers, lo, fields, before, picks, k - 1);
    }
  }

  /** `lo` is the first number at or behind the end of label `a`. */
  ghost predicate FirstBehind(labels: seq<Label>, numbers: seq<Number>, a: nat, lo: nat)
    requires a < |labels|
  {
    && lo <= |numbers| && (lo < |numbers| ==> numbers[lo].index >= labels[a].end)
    && forall m :: 0 <= m < lo ==> numbers[m].index < labels[a].end
  }

  /**
   Labels `i` to `j - 1` with no number between one and the next share the numbers behind the last of
   them: when none of these is too small, the k-th label gets the k-th number, as far as they go.
   */
  lemma LabelsInARow(labels: seq<Label>, numbers: seq<Number>, i: nat, j: nat, lo: nat, k: nat)
    requires InOrder(labels, numbers) && i < j <= |labels| && k < j - i
    requires IsCut(labels, numbers, i) && IsCut(labels, numbers, j)
    requires forall m :: i < m < j ==> !IsCut(labels, numbers, m)
    requires FirstBehind(labels, numbers, j - 1, lo)
    requires forall n, t :: (Between(labels, numbers, j - 1, j, n) && i <= t < j) ==> Suits(labels, numbers, t, n)
    ensures var r, f := AssignFrom(labels, numbers, 0, map[]), labels[i + k].field;
      && (f in r <==> Between(labels, numbers, j - 1, j, lo + k))
      && (f in r ==> r[f] == numbers[lo + k].value)
  {
    hide AssignFrom, InGroup, IsCut, Fit, FirstFrom, FirstFit, GroupPicks, Between, TooSmall, IsBefore, Suits;
    FirstIsCut(labels, numbers);
    GroupsExactly(labels, numbers, 0, i + k, i, j);
    FieldIsWhatItsGroupPicked(labels, numbers, i + k, i, j);
    FirstAtIsUnique(numbers, labels[j - 1].end, lo);
    if Between(labels, numbers, j - 1, j, lo + k) {
      NothingIsTooSmall(labels, numbers, i, j, lo, k);
      KthLabelGetsKthNumber(labels, numbers, i, j, k);
    } else if k < |GroupPicks(labels, numbers, i, j)| {
      PickAtLeast(numbers, lo, FieldsOf(labels, i, j), Before(labels, j), GroupPicks(labels, numbers, i, j), k);
      EarlierIsBetween(labels, numbers, j, lo + k, GroupPicks(labels, numbers, i, j)[k]);
    }
  }

  lemma EarlierIsBetween(labels: seq<Label>, numbers: seq<Number>, j: nat, n: nat, m: nat)
    requires InOrder(labels, numbers) && 0 < j <= |labels|
    requires FirstAt(numbers, labels[j - 1].end) <= n <= m < |numbers| && IsBefore(numbers[m].index, Before(labels, j))
    ensures Between(labels, numbers, j - 1, j, n)
  {
    hide FirstFrom;
    WindowIsBetween(labels, numbers, j, n);
    assert n < m ==> numbers[n].index < numbers[m].index;
  }

  lemma NothingIsTooSmall(labels: seq<Label>, numbers: seq<Number>, i: nat, j: nat, lo: nat, k: nat)
    requires InOrder(labels, numbers) && i < j <= |labels| && lo == FirstAt(numbers, labels[j - 1].end)
    requires Between(labels, numbers, j - 1, j, lo + k)
    requires forall n, t :: (Between(labels, numbers, j - 1, j, n) && i <= t < j) ==> Suits(labels, numbers, t, n)
    ensures InWindow(numbers, lo + k, labels[j - 1].end, Before(labels, j))
    ensures forall m, f ::
      (InWindow(numbers, m, labels[j - 1].end, Before(labels, j)) && f in FieldsOf(labels, i, j))
      ==> !TooSmall(f, numbers[m].value)
  {
    hide FirstFrom;
    var fields := FieldsOf(labels, i, j);
    forall m, f | InWindow(numbers, m, labels[j - 1].end, Before(labels, j)) && f in fields
      ensures !TooSmall(f, numbers[m].value)
    {
      var t :| 0 <= t < |fields| && fields[t] == f;
      assert Between(labels, numbers, j - 1, j, m) && Suits(labels, numbers, i + t, m);
    }
  }
}
