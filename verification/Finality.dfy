/**
 Finality over whole runs: nothing that any user does changes an approved ward or its polling
 units, and the totals of its LGA can only grow.
 */
module Finality {
  import opened Collections
  import opened Sheets
  import opened Geography
  import opened Workflow
  import opened Tallies
  import opened Conservation
  import opened Lifecycle

  /** Same status, figures, parties, photos and flags; the asynchronous photo report may differ. */
  ghost predicate Frozen(s: Store, t: Store, k: Scope) {
    k in s.rows && k in t.rows && t.rows[k].(ocr := s.rows[k].ocr) == s.rows[k]
  }

  /** `k` is an approved ward or one of its polling units. */
  ghost predicate Final(g: Geo, s: Store, w: Scope, k: Scope) {
    && w in g.places && w.level == Ward && IsApproved(s, w)
    && (k == w || k in g.Children(w))
  }

  lemma FinalIsApproved(g: Geo, s: Store, w: Scope, k: Scope)
    requires g.Valid() && Tallied(g, s) && Final(g, s, w, k)
    ensures IsApproved(s, k)
    ensures k != w ==> k in g.above && g.above[k] == w && k.level == PollingUnit
  {
    assert WardIndex(g, s, w);
    if k != w {
      ChildLevel(g, k, w);
    }
  }

  lemma {:induction false} ApproveKeepsFinal(g: Geo, s: Store, u: User, p: Scope, w: Scope, k: Scope)
    requires g.Valid() && Tallied(g, s) && Final(g, s, w, k)
    ensures Frozen(s, ApproveStep(g, s, u, p).state, k)
  {
    FinalIsApproved(g, s, w, k);
    if ApproveError(g, s, u, p).None? {
      var mid := MarkApproved(s, p);
      assert p in ApprovedChildren(g, mid, Own(u));
      RollupEffect(g, mid, Own(u));
      if k == Own(u) {
        FinalIsApproved(g, s, w, p);
      }
      assert SameRow(mid, Rollup(g, mid, Own(u)), k);
    }
  }

  /** A rejection that passes the guards is about another place, and rebuilds another ward. */
  lemma RejectIsElsewhere(g: Geo, s: Store, u: User, p: Scope, affected: seq<Id>, w: Scope, k: Scope)
    requires g.Valid() && Tallied(g, s) && Final(g, s, w, k) && RejectError(g, s, u, p, affected).None?
    ensures p in s.rows && k != p && Access(u).Some? && (ReturnsApproved(g, s, p) ==> k != Own(u))
  {
    hide RollupSheet, CleanIds, LgaIndex;
    FinalIsApproved(g, s, w, k);
    if ReturnsApproved(g, s, p) {
      ChildLevel(g, p, Own(u));
    }
  }

  lemma {:induction false} RejectKeepsFinal(g: Geo, s: Store, u: User, p: Scope, affected: seq<Id>, w: Scope, k: Scope)
    requires g.Valid() && Tallied(g, s) && Final(g, s, w, k)
    ensures Frozen(s, RejectStep(g, s, u, p, affected).state, k)
  {
    hide Tallied, Rebuild, CleanIds, RejectError, ReturnsApproved, Final;
    FinalIsApproved(g, s, w, k);
    if RejectError(g, s, u, p, affected).None? {
      RejectIsElsewhere(g, s, u, p, affected, w, k);
      RejectTouchesPlace(s, u, p, affected, k);
      var mid := MarkRejected(s, u, p, affected);
      RebuildEffect(g, mid, Own(u), false, true);
      assert SameRow(mid, RejectStep(g, s, u, p, affected).state, k);
    }
  }

  lemma RejectTouchesPlace(s: Store, u: User, p: Scope, affected: seq<Id>, k: Scope)
    requires p in s.rows && k != p
    ensures SameRow(s, MarkRejected(s, u, p, affected), k)
  {
    hide CleanIds, FlagsWard;
  }

  lemma {:induction false} ReturnEachKeepsFinal(g: Geo, s: Store, u: User, ks: seq<Scope>, w: Scope, k: Scope)
    requires g.Valid() && Tallied(g, s) && Final(g, s, w, k)
    ensures Frozen(s, ReturnEach(g, s, u, ks).state, k)
    decreases |ks|
  {
    if ks != [] {
      var t := RejectStep(g, s, u, ks[0], []).state;
      RejectKeepsTallies(g, s, u, ks[0], []);
      RejectKeepsFinal(g, s, u, ks[0], [], w, k);
      RejectKeepsFinal(g, s, u, ks[0], [], w, w);
      ReturnEachKeepsFinal(g, t, u, ks[1..], w, k);
    }
    FinalIsApproved(g, s, w, k);
  }

  lemma {:induction false} ResubmitKeepsFinal(g: Geo, s: Store, u: User, w: Scope, k: Scope)
    requires g.Valid() && Tallied(g, s) && Final(g, s, w, k)
    ensures Frozen(s, ResubmitStep(g, s, u).state, k)
  {
    hide Rebuild, RollupSheet, Tallied, Ready;
    FinalIsApproved(g, s, w, k);
    if ResubmitStep(g, s, u).Done? {
      RebuildEffect(g, s, Own(u), true, false);
      assert SameRow(s, Rebuild(g, s, Own(u), true, false), k);
    }
  }

  lemma {:induction false} ApproveAllKeepsFinal(g: Geo, s: Store, u: User, w: Scope, k: Scope)
    requires g.Valid() && Tallied(g, s) && Final(g, s, w, k)
    ensures Frozen(s, ApproveAllStep(g, s, u).state, k)
  {
    FinalIsApproved(g, s, w, k);
    if ApproveAllStep(g, s, u).Done? {
      ApproveAllEffect(g, s, u);
      PendingApprovedElsewhere(g, s, Pending(g, s, Own(u)), Own(u), k);
    }
  }

  lemma {:induction false} ReturnFlaggedKeepsFinal(g: Geo, s: Store, u: User, w: Scope, k: Scope)
    requires g.Valid() && Tallied(g, s) && Final(g, s, w, k)
    ensures Frozen(s, ReturnFlaggedStep(g, s, u).state, k)
  {
    FinalIsApproved(g, s, w, k);
    if Access(u).Some? && Has(s, Own(u), Rejected) {
      ReturnEachKeepsFinal(g, s, u, ToReturn(s, s.rows[Own(u)].flagged), w, k);
    }
  }

  /** The steps of a result's owner need an editable result. */
  lemma OwnerKeepsApproved(g: Geo, s: Store, u: User, a: Action, k: Scope)
    requires IsApproved(s, k) && (a.SaveDraft? || a.AttachPhoto? || a.Submit?)
    ensures Frozen(s, Step(g, s, u, a).state, k)
  {
  }

  lemma {:induction false} StepKeepsFinal(g: Geo, s: Store, u: User, a: Action, w: Scope, k: Scope)
    requires g.Valid() && Tallied(g, s) && Final(g, s, w, k)
    ensures Frozen(s, Step(g, s, u, a).state, k)
  {
    hide Tallied, Final, Frozen, SaveDraftStep, AttachPhotoStep, SubmitStep, ApproveStep, RejectStep,
         ResubmitStep, ReturnFlaggedStep, ApproveAllStep;
    match a
    case Approve(p) => ApproveKeepsFinal(g, s, u, p, w, k);
    case Reject(p, affected) => RejectKeepsFinal(g, s, u, p, affected, w, k);
    case ResubmitWard => ResubmitKeepsFinal(g, s, u, w, k);
    case ApproveAllWards => ApproveAllKeepsFinal(g, s, u, w, k);
    case ReturnFlagged => ReturnFlaggedKeepsFinal(g, s, u, w, k);
    case _ => FinalIsApproved(g, s, w, k); OwnerKeepsApproved(g, s, u, a, k);
  }

  lemma {:induction false} ApplyKeepsFinal(g: Geo, s: Store, e: Event, w: Scope, k: Scope)
    requires g.Valid() && Tallied(g, s) && Final(g, s, w, k)
    ensures Frozen(s, Apply(g, s, e), k)
  {
    match e
    case Worker(p, v) => FinalIsApproved(g, s, w, k);
    case Call(u, a) => StepKeepsFinal(g, s, u, a, w, k);
  }

  /** Finality: once a ward is approved, it and its polling units are the same in every later store. */
  lemma {:induction false} WardIsFinal(g: Geo, s: Store, es: seq<Event>, w: Scope, k: Scope)
    requires g.Valid() && Tallied(g, s) && Final(g, s, w, k)
    ensures Frozen(s, Run(g, s, es), k)
    decreases |es|
  {
    FinalIsApproved(g, s, w, k);
    if es != [] {
      var t := Apply(g, s, es[0]);
      match es[0] {
        case Worker(p, v) => OcrJobKeepsTallies(g, s, p, v);
        case Call(u, a) => StepKeepsTallies(g, s, u, a);
      }
      ApplyKeepsFinal(g, s, es[0], w, w);
      ApplyKeepsFinal(g, s, es[0], w, k);
      WardIsFinal(g, t, es[1..], w, k);
    }
  }

  /** From the first approved ward on, no figure of the LGA result ever decreases. */
  lemma {:induction false} LgaNeverDecreases(g: Geo, s: Store, es: seq<Event>, lga: Scope, f: Figure)
    requires g.Valid() && Sound(g, s) && lga in g.places && lga.level == Lga
    requires ApprovedChildren(g, s, lga) != []
    ensures var t := Run(g, s, es);
      IsApproved(s, lga) && IsApproved(t, lga)
      && Cell(s.rows[lga].sheet, OfFigure(f)) <= Cell(t.rows[lga].sheet, OfFigure(f))
  {
    hide Run, Weight, Cell, RollupSheet, WardIndex, Sealed, UnitSound, FlagsInside, ApprovedChildren;
    var t, c := Run(g, s, es), OfFigure(f);
    RunKeepsSound(g, s, es);
    forall w | w in g.Children(lga) ensures Weight(s, c)(w) <= Weight(t, c)(w) {
      WeightNeverDecreases(g, s, es, lga, f, w);
    }
    SumAtMost(g.Children(lga), Weight(s, c), Weight(t, c));
    RollupCell(g, s, lga, c);
    RollupCell(g, t, lga, c);
    ApprovedWardsStay(g, s, es, lga);
    assert LgaIndex(g, s, lga) && LgaIndex(g, t, lga);
  }

  /** What a ward contributes to a figure of its LGA only grows. */
  lemma WeightNeverDecreases(g: Geo, s: Store, es: seq<Event>, lga: Scope, f: Figure, w: Scope)
    requires g.Valid() && Tallied(g, s) && lga.level == Lga && w in g.Children(lga)
    ensures Weight(s, OfFigure(f))(w) <= Weight(Run(g, s, es), OfFigure(f))(w)
  {
    hide Run, Tallied;
    ChildLevel(g, w, lga);
    if IsApproved(s, w) {
      WardIsFinal(g, s, es, w, w);
    }
  }

  lemma ApprovedWardsStay(g: Geo, s: Store, es: seq<Event>, lga: Scope)
    requires g.Valid() && Tallied(g, s) && lga.level == Lga && ApprovedChildren(g, s, lga) != []
    ensures ApprovedChildren(g, Run(g, s, es), lga) != []
  {
    hide Run, Tallied;
    var w := ApprovedChildren(g, s, lga)[0];
    assert w in ApprovedChildren(g, s, lga);
    ChildLevel(g, w, lga);
    WardIsFinal(g, s, es, w, w);
    assert w in ApprovedChildren(g, Run(g, s, es), lga);
  }
}
