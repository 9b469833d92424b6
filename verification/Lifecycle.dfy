/**
 The life of a single polling-unit result: its action log, its evidence, and the flags that
 refer to it.
 */
module Lifecycle {
  import opened Collections
  import opened Geography
  import opened Workflow
  import opened Tallies

  // The action log of one place.

  function Moves(log: seq<LogEntry>, k: Scope): seq<Status> {
    if log == [] then []
    else
      var last := log[|log| - 1];
      Moves(log[..|log| - 1], k) + if last.place == k then [last.to] else []
  }

  lemma {:induction false} MovesAppend(log: seq<LogEntry>, more: seq<LogEntry>, k: Scope)
    ensures Moves(log + more, k) == Moves(log, k) + Moves(more, k)
    decreases |more|
  {
    if more == [] {
      assert log + more == log;
    } else {
      var front := more[..|more| - 1];
      assert (log + more)[..|log + more| - 1] == log + front;
      MovesAppend(log, front, k);
    }
  }

  lemma NoMoves(log: seq<LogEntry>, k: Scope)
    requires forall e :: e in log ==> e.place != k
    ensures Moves(log, k) == []
  {
  }

  function StatusOf(s: Store, k: Scope): Option<Status> {
    if k in s.rows then Some(s.rows[k].status) else None
  }

  /** (SUBMITTED APPROVED? REJECTED)* (SUBMITTED APPROVED?)? */
  ghost predicate LogWord(w: seq<Status>)
    decreases |w|
  {
    || w == []
    || w == [Submitted]
    || w == [Submitted, Approved]
    || (|w| >= 2 && w[..2] == [Submitted, Rejected] && LogWord(w[2..]))
    || (|w| >= 3 && w[..3] == [Submitted, Approved, Rejected] && LogWord(w[3..]))
  }

  /** The log may go on with `x` after `w`. */
  predicate MayFollow(w: seq<Status>, x: Status) {
    match x
    case Submitted => w == [] || w[|w| - 1] == Rejected
    case Approved => w != [] && w[|w| - 1] == Submitted
    case Rejected => w != [] && w[|w| - 1] in {Submitted, Approved}
    case Draft => false
  }

  lemma {:induction false} LogWordGrows(w: seq<Status>, x: Status)
    requires LogWord(w) && MayFollow(w, x)
    ensures LogWord(w + [x])
    decreases |w|
  {
    if |w| >= 2 && w[..2] == [Submitted, Rejected] && LogWord(w[2..]) {
      assert (w + [x])[..2] == w[..2] && (w + [x])[2..] == w[2..] + [x];
      assert w[1] == Rejected;
      LogWordGrows(w[2..], x);
    } else if |w| >= 3 && w[..3] == [Submitted, Approved, Rejected] && LogWord(w[3..]) {
      assert (w + [x])[..3] == w[..3] && (w + [x])[3..] == w[3..] + [x];
      assert w[2] == Rejected;
      LogWordGrows(w[3..], x);
    } else if w == [Submitted] && x == Rejected {
      assert (w + [x])[..2] == [Submitted, Rejected] && (w + [x])[2..] == [];
    } else if w == [Submitted, Approved] {
      assert (w + [x])[..3] == [Submitted, Approved, Rejected] && (w + [x])[3..] == [];
    } else {
      assert w + [x] == [Submitted] || w + [x] == [Submitted, Approved];
    }
  }

  lemma {:induction false} LogWordEnds(w: seq<Status>)
    requires LogWord(w) && w != []
    ensures w[|w| - 1] in {Submitted, Approved, Rejected}
    decreases |w|
  {
    if |w| > 2 && w[..2] == [Submitted, Rejected] && LogWord(w[2..]) {
      LogWordEnds(w[2..]);
    } else if |w| > 3 && w[..3] == [Submitted, Approved, Rejected] && LogWord(w[3..]) {
      LogWordEnds(w[3..]);
    } else if |w| == 3 {
      assert w[..3][2] == Rejected;
    }
  }

  function Times(w: seq<Status>, x: Status): nat {
    if w == [] then 0 else (if w[0] == x then 1 else 0) + Times(w[1..], x)
  }

  lemma TimesAppend(a: seq<Status>, b: seq<Status>, x: Status)
    ensures Times(a + b, x) == Times(a, x) + Times(b, x)
  {
    if a == [] {
      assert a + b == b;
    } else {
      assert (a + b)[1..] == a[1..] + b;
    }
  }

  /** One round of submission and return adds one of each. */
  lemma RoundBalance(round: seq<Status>, rest: seq<Status>)
    requires round == [Submitted, Rejected] || round == [Submitted, Approved, Rejected]
    ensures Times(round + rest, Submitted) == 1 + Times(rest, Submitted)
    ensures Times(round + rest, Rejected) == 1 + Times(rest, Rejected)
  {
    TimesAppend(round, rest, Submitted);
    TimesAppend(round, rest, Rejected);
    assert [Rejected][1..] == [];
    if |round| == 2 {
      assert round[1..] == [Rejected];
    } else {
      assert round[1..] == [Approved, Rejected] && round[1..][1..] == [Rejected];
      assert Times([Rejected], Rejected) == 1 && Times([Rejected], Submitted) == 0;
    }
  }

  /** Submissions minus returns: one while the result is out of the agent's hands, else zero. */
  lemma {:induction false} LogBalance(w: seq<Status>)
    requires LogWord(w)
    ensures Times(w, Submitted) == Times(w, Rejected) + if w == [] || w[|w| - 1] == Rejected then 0 else 1
    decreases |w|
  {
    if |w| >= 2 && w[..2] == [Submitted, Rejected] && LogWord(w[2..]) {
      hide Times;
      RoundBalance(w[..2], w[2..]);
      LogBalance(w[2..]);
      assert w == w[..2] + w[2..];
      assert w[1] == w[..2][1];
      NoTimes(w[2..]);
    } else if |w| >= 3 && w[..3] == [Submitted, Approved, Rejected] && LogWord(w[3..]) {
      hide Times;
      RoundBalance(w[..3], w[3..]);
      LogBalance(w[3..]);
      assert w == w[..3] + w[3..];
      assert w[2] == w[..3][2];
      NoTimes(w[3..]);
    } else if w != [] {
      assert w == [Submitted] || w == [Submitted, Approved];
      assert w[1..] == [] || (w[1..] == [Approved] && w[1..][1..] == []);
      assert forall x :: x != Approved ==> Times(w[1..], x) == 0;
      assert w[|w| - 1] != Rejected;
    }
  }

  lemma NoTimes(w: seq<Status>)
    ensures w == [] ==> forall x :: Times(w, x) == 0
  {
  }

  /** The status is the last logged one, or DRAFT (or no row) before any log and after a return. */
  predicate StatusFitsLog(w: seq<Status>, st: Option<Status>) {
    if w == [] then st in {None, Some(Draft)}
    else if w[|w| - 1] == Rejected then st in {Some(Rejected), Some(Draft)}
    else st == Some(w[|w| - 1])
  }

  ghost predicate UnitSound(s: Store, k: Scope) {
    && LogWord(Moves(s.log, k))
    && StatusFitsLog(Moves(s.log, k), StatusOf(s, k))
    && (StatusOf(s, k) !in {None, Some(Draft)} ==> s.rows[k].photos != [])
  }

  // One step, as one polling unit sees it.

  ghost predicate Untouched(s: Store, t: Store, k: Scope) {
    && Moves(t.log, k) == Moves(s.log, k)
    && StatusOf(t, k) == StatusOf(s, k)
    && (k in s.rows ==> |s.rows[k].photos| <= |t.rows[k].photos|)
  }

  ghost predicate Edited(s: Store, t: Store, k: Scope) {
    && Moves(t.log, k) == Moves(s.log, k)
    && StatusOf(s, k) in {None, Some(Draft), Some(Rejected)}
    && StatusOf(t, k) == Some(Draft)
  }

  ghost predicate Moved(s: Store, t: Store, k: Scope, x: Status) {
    && k in s.rows && k in t.rows
    && Moves(t.log, k) == Moves(s.log, k) + [x]
    && t.rows[k].status == x
    && t.rows[k].photos == s.rows[k].photos
    && (match x
        case Submitted => s.rows[k].status in {Draft, Rejected} && s.rows[k].photos != []
        case Approved => s.rows[k].status == Submitted
        case Rejected => s.rows[k].status in {Submitted, Approved}
        case Draft => false)
  }

  ghost predicate UnitStep(s: Store, t: Store, k: Scope) {
    Untouched(s, t, k) || Edited(s, t, k) || (exists x :: Moved(s, t, k, x))
  }

  lemma UnitStepKeepsSound(s: Store, t: Store, k: Scope)
    requires UnitSound(s, k) && UnitStep(s, t, k)
    ensures UnitSound(t, k)
  {
    if !Untouched(s, t, k) && !Edited(s, t, k) {
      var x :| Moved(s, t, k, x);
      if Moves(s.log, k) != [] {
        LogWordEnds(Moves(s.log, k));
      }
      LogWordGrows(Moves(s.log, k), x);
    }
  }

  lemma LogEffect(s: Store, j: Scope, from: Status, to: Status, k: Scope)
    ensures Moves(Log(s, j, from, to).log, k) == Moves(s.log, k) + if j == k then [to] else []
  {
    assert (s.log + [LogEntry(j, from, to)])[..|s.log|] == s.log;
  }

  lemma SimpleStepsOnUnit(g: Geo, s: Store, u: User, a: Action, k: Scope)
    requires k.level == PollingUnit && (a.SaveDraft? || a.AttachPhoto? || a.Submit?)
    ensures UnitStep(s, Step(g, s, u, a).state, k)
  {
    var t := Step(g, s, u, a).state;
    if a.Submit? {
      LogEffect(s, a.place, RowOr(s, a.place).status, Submitted, k);
      if SubmitStep(s, u, a.place).Done? && k == a.place && k.level == PollingUnit {
        assert Moved(s, t, k, Submitted);
      }
    }
  }

  lemma {:induction false} ApproveOnUnit(g: Geo, s: Store, u: User, p: Scope, k: Scope)
    requires g.Valid() && k.level == PollingUnit
    ensures UnitStep(s, ApproveStep(g, s, u, p).state, k)
  {
    if ApproveError(g, s, u, p).None? {
      var mid, t := MarkApproved(s, p), ApproveStep(g, s, u, p).state;
      LogEffect(s, p, Submitted, Approved, k);
      assert p in ApprovedChildren(g, mid, Own(u));
      RollupEffect(g, mid, Own(u));
      assert SameRow(mid, t, k);
      if k == p {
        assert Moved(s, t, k, Approved);
      }
    }
  }

  lemma {:induction false} RejectOnUnit(g: Geo, s: Store, u: User, p: Scope, affected: seq<Id>, k: Scope)
    requires g.Valid() && k.level == PollingUnit
    ensures UnitStep(s, RejectStep(g, s, u, p, affected).state, k)
  {
    if RejectError(g, s, u, p, affected).None? {
      var mid, t := MarkRejected(s, u, p, affected), RejectStep(g, s, u, p, affected).state;
      LogEffect(s, p, s.rows[p].status, Rejected, k);
      RebuildEffect(g, mid, Own(u), false, true);
      assert SameRow(mid, t, k);
      if k == p {
        assert Moved(s, t, k, Rejected);
      }
    }
  }

  lemma ResubmitOnUnit(g: Geo, s: Store, u: User, k: Scope)
    requires g.Valid() && k.level == PollingUnit
    ensures Untouched(s, ResubmitStep(g, s, u).state, k)
  {
    if ResubmitStep(g, s, u).Done? {
      var mid := Rebuild(g, s, Own(u), true, false);
      RebuildEffect(g, s, Own(u), true, false);
      assert SameRow(s, mid, k);
      LogEffect(mid, Own(u), Rejected, Submitted, k);
    }
  }

  lemma MarkAllOnOther(s: Store, ks: seq<Scope>, k: Scope)
    requires k !in ks
    ensures SameRow(s, MarkAllApproved(s, ks), k)
    ensures Moves(MarkAllApproved(s, ks).log, k) == Moves(s.log, k)
  {
    NoMoves(ApprovalEntries(ks), k);
    MovesAppend(s.log, ApprovalEntries(ks), k);
  }

  /** A bulk approval touches nothing but the pending wards and the LGA. */
  lemma {:induction false} PendingApprovedElsewhere(g: Geo, s: Store, ks: seq<Scope>, lga: Scope, k: Scope)
    requires g.Valid() && lga.level == Lga && ks == Pending(g, s, lga) && ks != []
    requires k != lga && !(k.level == Ward && Has(s, k, Submitted))
    ensures var t := Rollup(g, MarkAllApproved(s, ks), lga);
      SameRow(s, t, k) && Moves(t.log, k) == Moves(s.log, k)
  {
    var mid := MarkAllApproved(s, ks);
    assert k !in ks;
    MarkAllOnOther(s, ks, k);
    assert ks[0] in ks;
    MarkAllRows(s, ks, ks[0]);
    assert ks[0] in ApprovedChildren(g, mid, lga);
    RollupEffect(g, mid, lga);
    assert SameRow(mid, Rollup(g, mid, lga), k);
  }

  lemma {:induction false} ApproveAllOnUnit(g: Geo, s: Store, u: User, k: Scope)
    requires g.Valid() && k.level == PollingUnit
    ensures Untouched(s, ApproveAllStep(g, s, u).state, k)
  {
    if ApproveAllStep(g, s, u).Done? {
      ApproveAllEffect(g, s, u);
      PendingApprovedElsewhere(g, s, Pending(g, s, Own(u)), Own(u), k);
    }
  }

  lemma {:induction false} ReturnEachOnUnit(g: Geo, s: Store, u: User, ks: seq<Scope>, k: Scope)
    requires g.Valid() && k.level == PollingUnit && UnitSound(s, k)
    ensures UnitSound(ReturnEach(g, s, u, ks).state, k)
    decreases |ks|
  {
    if ks != [] {
      RejectOnUnit(g, s, u, ks[0], [], k);
      UnitStepKeepsSound(s, RejectStep(g, s, u, ks[0], []).state, k);
      ReturnEachOnUnit(g, RejectStep(g, s, u, ks[0], []).state, u, ks[1..], k);
    }
  }

  /** Every event keeps a polling unit's log, status and evidence consistent. */
  lemma {:induction false} ApplyKeepsUnit(g: Geo, s: Store, e: Event, k: Scope)
    requires g.Valid() && k.level == PollingUnit && UnitSound(s, k)
    ensures UnitSound(Apply(g, s, e), k)
  {
    match e
    case Worker(p, v) => assert Untouched(s, OcrJob(s, p, v), k); UnitStepKeepsSound(s, OcrJob(s, p, v), k);
    case Call(u, a) => StepKeepsUnit(g, s, u, a, k);
  }

  lemma {:induction false} StepKeepsUnit(g: Geo, s: Store, u: User, a: Action, k: Scope)
    requires g.Valid() && k.level == PollingUnit && UnitSound(s, k)
    ensures UnitSound(Step(g, s, u, a).state, k)
  {
    hide UnitSound, Untouched, Edited, Moved, SaveDraftStep, AttachPhotoStep, SubmitStep, ApproveStep,
         RejectStep, ResubmitStep, ReturnEach, ApproveAllStep;
    if a.ReturnFlagged? {
      if Access(u).Some? && Has(s, Own(u), Rejected) {
        ReturnEachOnUnit(g, s, u, ToReturn(s, s.rows[Own(u)].flagged), k);
      }
    } else {
      match a {
        case Approve(p) => ApproveOnUnit(g, s, u, p, k);
        case Reject(p, affected) => RejectOnUnit(g, s, u, p, affected, k);
        case ResubmitWard => ResubmitOnUnit(g, s, u, k);
        case ApproveAllWards => ApproveAllOnUnit(g, s, u, k);
        case _ => SimpleStepsOnUnit(g, s, u, a, k);
      }
      UnitStepKeepsSound(s, Step(g, s, u, a).state, k);
    }
  }

  // Flags stay inside their ward.

  ghost predicate FlagsInside(g: Geo, s: Store, w: Scope) {
    w in s.rows ==> AllInWard(g, w, s.rows[w].flagged)
  }

  ghost predicate FlagsKept(g: Geo, s: Store, t: Store, w: Scope) {
    w in t.rows ==>
      || t.rows[w].flagged == RowOr(s, w).flagged
      || AllInWard(g, w, t.rows[w].flagged)
  }

  lemma FlagsOfReject(g: Geo, s: Store, u: User, p: Scope, affected: seq<Id>, w: Scope)
    requires w.level == Ward
    ensures FlagsKept(g, s, RejectStep(g, s, u, p, affected).state, w)
  {
    if RejectError(g, s, u, p, affected).None? {
      var mid, t := MarkRejected(s, u, p, affected), RejectStep(g, s, u, p, affected).state;
      RebuildEffect(g, mid, Own(u), false, true);
      assert Unique<Id>([]) == [];
      assert affected == [] ==> CleanIds(affected) == [];
      assert w != Own(u) ==> SameRow(mid, t, w);
    }
  }

  lemma {:induction false} FlagsOfReturnEach(g: Geo, s: Store, u: User, ks: seq<Scope>, w: Scope)
    requires w.level == Ward && FlagsInside(g, s, w)
    ensures FlagsInside(g, ReturnEach(g, s, u, ks).state, w)
    decreases |ks|
  {
    if ks != [] {
      FlagsOfReject(g, s, u, ks[0], [], w);
      FlagsOfReturnEach(g, RejectStep(g, s, u, ks[0], []).state, u, ks[1..], w);
    }
  }

  lemma FlagsOfRollup(g: Geo, s: Store, mid: Store, parent: Scope, w: Scope)
    requires FlagsKept(g, s, mid, w) && (w !in mid.rows ==> w !in s.rows)
    ensures FlagsKept(g, s, Rollup(g, mid, parent), w)
  {
  }

  /** Every event keeps the LGA's flags inside the ward they were raised on. */
  lemma {:induction false} StepKeepsFlags(g: Geo, s: Store, u: User, a: Action, w: Scope)
    requires w.level == Ward && FlagsInside(g, s, w)
    ensures FlagsInside(g, Step(g, s, u, a).state, w)
  {
    hide Rebuild, RollupSheet, Ready, Rollup;
    match a
    case Approve(p) =>
      if ApproveError(g, s, u, p).None? {
        FlagsOfRollup(g, s, MarkApproved(s, p), Own(u), w);
      }
    case Reject(p, affected) => FlagsOfReject(g, s, u, p, affected, w);
    case ResubmitWard =>
      if ResubmitStep(g, s, u).Done? {
        RebuildEffect(g, s, Own(u), true, false);
        assert w != Own(u) ==> SameRow(s, Rebuild(g, s, Own(u), true, false), w);
      }
    case ReturnFlagged =>
      if Access(u).Some? && Has(s, Own(u), Rejected) {
        FlagsOfReturnEach(g, s, u, ToReturn(s, s.rows[Own(u)].flagged), w);
      }
    case ApproveAllWards =>
      if ApproveAllStep(g, s, u).Done? {
        FlagsOfRollup(g, s, MarkAllApproved(s, Pending(g, s, Own(u))), Own(u), w);
      }
    case _ =>
  }

  // Everything that holds in every reachable store.

  ghost predicate Sound(g: Geo, s: Store) {
    && Tallied(g, s)
    && (forall k: Scope {:trigger UnitSound(s, k)} :: k.level == PollingUnit ==> UnitSound(s, k))
    && (forall w: Scope {:trigger FlagsInside(g, s, w)} :: w.level == Ward ==> FlagsInside(g, s, w))
  }

  lemma ApplyKeepsSound(g: Geo, s: Store, e: Event)
    requires g.Valid() && Sound(g, s)
    ensures Sound(g, Apply(g, s, e))
  {
    var t := Apply(g, s, e);
    match e {
      case Worker(k, v) => OcrJobKeepsTallies(g, s, k, v);
      case Call(u, a) => StepKeepsTallies(g, s, u, a);
    }
    forall k: Scope | k.level == PollingUnit ensures UnitSound(t, k) {
      assert UnitSound(s, k);
      ApplyKeepsUnit(g, s, e, k);
    }
    forall w: Scope | w.level == Ward ensures FlagsInside(g, t, w) {
      assert FlagsInside(g, s, w);
      if e.Call? {
        StepKeepsFlags(g, s, e.user, e.action, w);
      }
    }
  }

  lemma {:induction false} ApproveAllKeepsSound(g: Geo, s: Store, u: User)
    requires g.Valid() && Sound(g, s)
    ensures Sound(g, ApproveAllStep(g, s, u).state)
  {
    var e := Call(u, ApproveAllWards);
    assert Apply(g, s, e) == Step(g, s, u, ApproveAllWards).state;
    assert Step(g, s, u, ApproveAllWards) == ApproveAllStep(g, s, u);
    ApplyKeepsSound(g, s, e);
  }

  lemma {:induction false} RunKeepsSound(g: Geo, s: Store, es: seq<Event>)
    requires g.Valid() && Sound(g, s)
    ensures Sound(g, Run(g, s, es))
    decreases |es|
  {
    if es != [] {
      ApplyKeepsSound(g, s, es[0]);
      RunKeepsSound(g, Apply(g, s, es[0]), es[1..]);
    }
  }

  /** Every store reached from the empty one by any sequence of events is sound. */
  lemma ReachableIsSound(g: Geo, es: seq<Event>)
    requires g.Valid()
    ensures Sound(g, Run(g, EMPTY, es))
  {
    EmptyIsTallied(g);
    assert forall k :: UnitSound(EMPTY, k);
    RunKeepsSound(g, EMPTY, es);
  }
}
