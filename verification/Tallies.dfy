/**
 The index invariants of the workflow: a ward row always holds the sum of its approved polling
 units, an LGA row the sum of its approved wards, and an approved ward is sealed.
 */
module Tallies {
  import opened Collections
  import opened Geography
  import opened Workflow
  import Vision

  /** A ward row exists once a polling unit is approved, and agrees with its source. */
  ghost predicate WardIndex(g: Geo, s: Store, w: Scope) {
    && (ApprovedChildren(g, s, w) != [] ==> w in s.rows)
    && (w in s.rows ==> s.rows[w].sheet == RollupSheet(g, s, w) && s.rows[w].status != Draft)
  }

  /** An approved ward has polling units, all of them approved. */
  ghost predicate Sealed(g: Geo, s: Store, w: Scope) {
    IsApproved(s, w) ==> Ready(g, s, w)
  }

  /** With an approved ward, the LGA row is approved and agrees with its source. */
  ghost predicate LgaIndex(g: Geo, s: Store, l: Scope) {
    ApprovedChildren(g, s, l) != [] ==> IsApproved(s, l) && s.rows[l].sheet == RollupSheet(g, s, l)
  }

  ghost predicate Tallied(g: Geo, s: Store) {
    && (forall w {:trigger WardIndex(g, s, w)} ::
          w in g.places && w.level == Ward ==> WardIndex(g, s, w) && Sealed(g, s, w))
    && (forall l {:trigger LgaIndex(g, s, l)} :: l in g.places && l.level == Lga ==> LgaIndex(g, s, l))
  }

  /** Two stores whose approved rows at one place carry the same sheet. */
  ghost predicate SameApproved(s: Store, t: Store, k: Scope) {
    IsApproved(s, k) == IsApproved(t, k) && (IsApproved(s, k) ==> s.rows[k].sheet == t.rows[k].sheet)
  }

  lemma ChildrenDependOnApproved(g: Geo, s: Store, t: Store, parent: Scope)
    requires forall k :: k in g.Children(parent) ==> SameApproved(s, t, k)
    ensures ApprovedChildren(g, s, parent) == ApprovedChildren(g, t, parent)
  {
    FilterSame(g.Children(parent), k => IsApproved(s, k), k => IsApproved(t, k));
    FilterSame(g.Children(parent), k => IsApproved(s, k), k => IsApproved(s, k));
  }

  lemma RollupDependsOnApproved(g: Geo, s: Store, t: Store, parent: Scope)
    requires forall k :: k in g.Children(parent) ==> SameApproved(s, t, k)
    ensures RollupSheet(g, s, parent) == RollupSheet(g, t, parent)
    ensures ApprovedChildren(g, s, parent) == ApprovedChildren(g, t, parent)
  {
    ChildrenDependOnApproved(g, s, t, parent);
    var kids := ApprovedChildren(g, s, parent);
    forall i | 0 <= i < |kids| ensures RowOr(s, kids[i]).sheet == RowOr(t, kids[i]).sheet {
      assert kids[i] in kids;
    }
    assert SheetsOf(s, kids) == SheetsOf(t, kids);
  }

  lemma ChildLevel(g: Geo, k: Scope, parent: Scope)
    requires g.Valid() && k in g.Children(parent) && parent.level != National
    ensures k in g.above && g.above[k] == parent && LevelBelow(parent.level) == Some(k.level) && parent in g.places
  {
  }

  /** A ward keeps its invariants when neither its approved polling units nor its own row changed in substance. */
  lemma WardKept(g: Geo, s: Store, t: Store, w: Scope)
    requires WardIndex(g, s, w) && Sealed(g, s, w)
    requires forall k :: k in g.Children(w) ==> SameApproved(s, t, k)
    requires w in s.rows <==> w in t.rows
    requires w in t.rows ==> t.rows[w].sheet == s.rows[w].sheet && t.rows[w].status != Draft
    requires IsApproved(t, w) ==> IsApproved(s, w) || Ready(g, s, w)
    ensures WardIndex(g, t, w) && Sealed(g, t, w)
  {
    RollupDependsOnApproved(g, s, t, w);
    if IsApproved(t, w) {
      forall k | k in g.Children(w) ensures IsApproved(t, k) {
        assert SameApproved(s, t, k);
      }
    }
  }

  lemma LgaKept(g: Geo, s: Store, t: Store, l: Scope)
    requires LgaIndex(g, s, l)
    requires forall k :: k in g.Children(l) ==> SameApproved(s, t, k)
    requires SameApproved(s, t, l)
    ensures LgaIndex(g, t, l)
  {
    RollupDependsOnApproved(g, s, t, l);
  }

  /** Steps that approve nothing, unapprove nothing and rewrite no ward total keep the tallies. */
  lemma QuietKeepsTallies(g: Geo, s: Store, t: Store)
    requires Tallied(g, s)
    requires forall k :: SameApproved(s, t, k)
    requires forall w :: w in g.places && w.level == Ward ==>
      (w in s.rows <==> w in t.rows)
      && (w in t.rows ==> t.rows[w].sheet == s.rows[w].sheet && t.rows[w].status != Draft)
    ensures Tallied(g, t)
  {
    forall w | w in g.places && w.level == Ward ensures WardIndex(g, t, w) && Sealed(g, t, w) {
      assert SameApproved(s, t, w);
      WardKept(g, s, t, w);
    }
    forall l | l in g.places && l.level == Lga ensures LgaIndex(g, t, l) {
      LgaKept(g, s, t, l);
    }
  }

  ghost predicate SameRow(s: Store, t: Store, k: Scope) {
    (k in s.rows <==> k in t.rows) && (k in s.rows ==> s.rows[k] == t.rows[k])
  }

  /**
   A polling unit of an unsealed ward changes and the ward row is rewritten from its approved
   polling units, to a status other than approved.
   */
  lemma UnitChangeKeepsTallies(g: Geo, s: Store, t: Store, pu: Scope, w: Scope)
    requires g.Valid() && Tallied(g, s)
    requires pu in g.Children(w) && w.level == Ward
    requires !IsApproved(s, w)
    requires forall k :: k != pu && k != w ==> SameRow(s, t, k)
    requires w in t.rows && t.rows[w].status in {Submitted, Rejected} && t.rows[w].sheet == RollupSheet(g, t, w)
    ensures Tallied(g, t)
  {
    ChildLevel(g, pu, w);
    forall w' | w' in g.places && w'.level == Ward ensures WardIndex(g, t, w') && Sealed(g, t, w') {
      if w' != w {
        forall k | k in g.Children(w') ensures SameApproved(s, t, k) {
          ChildLevel(g, k, w');
          assert SameRow(s, t, k);
        }
        assert SameRow(s, t, w');
        WardKept(g, s, t, w');
      }
    }
    forall l | l in g.places && l.level == Lga ensures LgaIndex(g, t, l) {
      forall k | k in g.Children(l) ensures SameApproved(s, t, k) {
        ChildLevel(g, k, l);
        assert k != w ==> SameRow(s, t, k);
      }
      assert SameRow(s, t, l);
      LgaKept(g, s, t, l);
    }
  }

  /** All that a rollup changes is the row of the parent. */
  lemma RollupEffect(g: Geo, s: Store, parent: Scope)
    requires ApprovedChildren(g, s, parent) != []
    ensures var t := Rollup(g, s, parent);
      && t.log == s.log
      && (forall k :: k != parent ==> SameRow(s, t, k))
      && parent in t.rows
      && t.rows[parent] == RowOr(s, parent).(
           sheet := RollupSheet(g, s, parent),
           status := match parent.level case Ward => Submitted case Lga => Approved case _ => Draft)
  {
  }

  /** All that a rebuild changes is the row of the ward. */
  lemma RebuildEffect(g: Geo, s: Store, w: Scope, forceSubmit: bool, keepRejected: bool)
    ensures var t := Rebuild(g, s, w, forceSubmit, keepRejected);
      && t.log == s.log
      && (forall k :: k != w ==> SameRow(s, t, k))
      && w in t.rows
      && t.rows[w].sheet == RollupSheet(g, s, w)
      && t.rows[w].status == (if !forceSubmit && (keepRejected || Has(s, w, Rejected)) then Rejected else Submitted)
      && t.rows[w].flagged == (if t.rows[w].status == Rejected then RowOr(s, w).flagged else [])
  {
  }

  /** `t` is `s` after the wards `ks` of `lga` were approved and the LGA row rewritten. */
  ghost predicate WardsApproved(g: Geo, s: Store, t: Store, ks: seq<Scope>, lga: Scope) {
    && lga.level == Lga && lga in g.places
    && (forall k :: k in ks ==> k in g.Children(lga) && k in s.rows && Ready(g, s, k))
    && (forall k :: k in ks ==> IsApproved(t, k) && t.rows[k].sheet == s.rows[k].sheet)
    && (forall k :: k !in ks && k != lga ==> SameRow(s, t, k))
    && IsApproved(t, lga) && t.rows[lga].sheet == RollupSheet(g, t, lga)
  }

  lemma {:induction false} WardsApprovedKeepWard(g: Geo, s: Store, t: Store, ks: seq<Scope>, lga: Scope, w: Scope)
    requires g.Valid() && WardIndex(g, s, w) && Sealed(g, s, w) && w.level == Ward
    requires WardsApproved(g, s, t, ks, lga)
    ensures WardIndex(g, t, w) && Sealed(g, t, w)
  {
    forall k | k in g.Children(w) ensures SameApproved(s, t, k) {
      ChildLevel(g, k, w);
      if k in ks { ChildLevel(g, k, lga); }
      assert SameRow(s, t, k);
    }
    assert w !in ks ==> SameRow(s, t, w);
    WardKept(g, s, t, w);
  }

  lemma {:induction false} WardsApprovedKeepLga(g: Geo, s: Store, t: Store, ks: seq<Scope>, lga: Scope, l: Scope)
    requires g.Valid() && LgaIndex(g, s, l) && l.level == Lga && l != lga
    requires WardsApproved(g, s, t, ks, lga)
    ensures LgaIndex(g, t, l)
  {
    forall k | k in g.Children(l) ensures SameApproved(s, t, k) {
      ChildLevel(g, k, l);
      if k in ks { ChildLevel(g, k, lga); }
      assert SameRow(s, t, k);
    }
    if l in ks { ChildLevel(g, l, lga); }
    assert SameRow(s, t, l);
    LgaKept(g, s, t, l);
  }

  lemma {:induction false} WardsApprovedKeepTallies(g: Geo, s: Store, t: Store, ks: seq<Scope>, lga: Scope)
    requires g.Valid() && Tallied(g, s) && WardsApproved(g, s, t, ks, lga)
    ensures Tallied(g, t)
  {
    forall w | w in g.places && w.level == Ward ensures WardIndex(g, t, w) && Sealed(g, t, w) {
      assert WardIndex(g, s, w);
      WardsApprovedKeepWard(g, s, t, ks, lga, w);
    }
    forall l | l in g.places && l.level == Lga ensures LgaIndex(g, t, l) {
      if l != lga {
        assert LgaIndex(g, s, l);
        WardsApprovedKeepLga(g, s, t, ks, lga, l);
      }
    }
  }

  /** Rewriting the LGA row does not change what it was computed from. */
  lemma WardsApprovedByRollup(g: Geo, s: Store, mid: Store, ks: seq<Scope>, lga: Scope)
    requires g.Valid() && lga.level == Lga && ks != []
    requires forall k :: k in ks ==> k in g.Children(lga) && k in s.rows && Ready(g, s, k)
    requires forall k :: k in ks ==> IsApproved(mid, k) && mid.rows[k].sheet == s.rows[k].sheet
    requires forall k :: k !in ks ==> SameRow(s, mid, k)
    ensures WardsApproved(g, s, Rollup(g, mid, lga), ks, lga)
  {
    var t := Rollup(g, mid, lga);
    assert ks[0] in ks && ks[0] in ApprovedChildren(g, mid, lga);
    ChildLevel(g, ks[0], lga);
    RollupEffect(g, mid, lga);
    forall k | k in g.Children(lga) ensures SameApproved(mid, t, k) {
      ChildLevel(g, k, lga);
      assert SameRow(mid, t, k);
    }
    RollupDependsOnApproved(g, mid, t, lga);
    forall k | k in ks ensures IsApproved(t, k) && t.rows[k].sheet == s.rows[k].sheet {
      ChildLevel(g, k, lga);
      assert SameRow(mid, t, k);
    }
    forall k | k !in ks && k != lga ensures SameRow(s, t, k) {
      assert SameRow(s, mid, k) && SameRow(mid, t, k);
    }
  }

  /** What the owner of a result can do to it: rewrite that one row, never from or to approved. */
  ghost predicate OwnerChange(s: Store, t: Store, k: Scope) {
    && (forall x {:trigger SameRow(s, t, x)} :: x != k ==> SameRow(s, t, x))
    && !IsApproved(s, k) && !IsApproved(t, k)
    && (k.level == Ward ==> k in s.rows && k in t.rows)
    && (k.level == Ward ==> t.rows[k].sheet == s.rows[k].sheet && t.rows[k].status == s.rows[k].status)
  }

  lemma SaveDraftEffect(s: Store, u: User, dto: Dto)
    ensures SaveDraftStep(s, u, dto).Failed? ==> SaveDraftStep(s, u, dto).state == s
    ensures SaveDraftStep(s, u, dto).Done? ==> OwnerChange(s, SaveDraftStep(s, u, dto).state, Own(u))
  {
  }

  lemma AttachPhotoEffect(s: Store, u: User, k: Scope, url: Url)
    ensures AttachPhotoStep(s, u, k, url).Failed? ==> AttachPhotoStep(s, u, k, url).state == s
    ensures AttachPhotoStep(s, u, k, url).Done? ==> OwnerChange(s, AttachPhotoStep(s, u, k, url).state, k)
  {
  }

  lemma SubmitEffect(s: Store, u: User, k: Scope)
    ensures SubmitStep(s, u, k).Failed? ==> SubmitStep(s, u, k).state == s
    ensures SubmitStep(s, u, k).Done? ==> OwnerChange(s, SubmitStep(s, u, k).state, k)
  {
  }

  lemma OwnerKeepsTallies(g: Geo, s: Store, t: Store, k: Scope)
    requires Tallied(g, s) && OwnerChange(s, t, k)
    ensures Tallied(g, t)
  {
    forall x ensures SameApproved(s, t, x) {
      assert x != k ==> SameRow(s, t, x);
    }
    forall w | w in g.places && w.level == Ward
      ensures (w in s.rows <==> w in t.rows)
        && (w in t.rows ==> t.rows[w].sheet == s.rows[w].sheet && t.rows[w].status != Draft)
    {
      assert WardIndex(g, s, w);
      assert w != k ==> SameRow(s, t, w);
    }
    QuietKeepsTallies(g, s, t);
  }

  lemma SaveDraftKeepsTallies(g: Geo, s: Store, u: User, dto: Dto)
    requires Tallied(g, s)
    ensures Tallied(g, SaveDraftStep(s, u, dto).state)
  {
    SaveDraftEffect(s, u, dto);
    if SaveDraftStep(s, u, dto).Done? {
      OwnerKeepsTallies(g, s, SaveDraftStep(s, u, dto).state, Own(u));
    }
  }

  lemma AttachPhotoKeepsTallies(g: Geo, s: Store, u: User, k: Scope, url: Url)
    requires Tallied(g, s)
    ensures Tallied(g, AttachPhotoStep(s, u, k, url).state)
  {
    AttachPhotoEffect(s, u, k, url);
    if AttachPhotoStep(s, u, k, url).Done? {
      OwnerKeepsTallies(g, s, AttachPhotoStep(s, u, k, url).state, k);
    }
  }

  lemma SubmitKeepsTallies(g: Geo, s: Store, u: User, k: Scope)
    requires Tallied(g, s)
    ensures Tallied(g, SubmitStep(s, u, k).state)
  {
    SubmitEffect(s, u, k);
    if SubmitStep(s, u, k).Done? {
      OwnerKeepsTallies(g, s, SubmitStep(s, u, k).state, k);
    }
  }

  lemma {:induction false} OcrJobKeepsTallies(g: Geo, s: Store, k: Scope, vision: Vision.VisionExtract)
    requires g.Valid() && Tallied(g, s)
    ensures Tallied(g, OcrJob(s, k, vision))
  {
    hide V.ArithmeticReport, Vision.MergedReport, RollupSheet, Sealed, LgaIndex;
    assert forall w :: w in g.places && w.level == Ward ==> WardIndex(g, s, w);
    QuietKeepsTallies(g, s, OcrJob(s, k, vision));
  }

  lemma {:induction false} ApproveUnitKeepsTallies(g: Geo, s: Store, u: User, k: Scope)
    requires g.Valid() && Tallied(g, s)
    requires ApproveError(g, s, u, k).None? && k.level == PollingUnit
    ensures Tallied(g, Rollup(g, MarkApproved(s, k), Own(u)))
  {
    var own, mid := Own(u), MarkApproved(s, k);
    var t := Rollup(g, mid, own);
    ChildLevel(g, k, own);
    assert WardIndex(g, s, own);
    assert k in ApprovedChildren(g, mid, own);
    RollupEffect(g, mid, own);
    forall c | c in g.Children(own) ensures SameApproved(mid, t, c) {
      ChildLevel(g, c, own);
      assert SameRow(mid, t, c);
    }
    RollupDependsOnApproved(g, mid, t, own);
    forall x | x != k && x != own ensures SameRow(s, t, x) {
      assert SameRow(mid, t, x);
    }
    UnitChangeKeepsTallies(g, s, t, k, own);
  }

  lemma {:induction false} ApproveWardKeepsTallies(g: Geo, s: Store, u: User, k: Scope)
    requires g.Valid() && Tallied(g, s)
    requires ApproveError(g, s, u, k).None? && k.level == Ward
    ensures WardsApproved(g, s, Rollup(g, MarkApproved(s, k), Own(u)), [k], Own(u))
    ensures Tallied(g, Rollup(g, MarkApproved(s, k), Own(u)))
  {
    ChildLevel(g, k, Own(u));
    WardsApprovedByRollup(g, s, MarkApproved(s, k), [k], Own(u));
    WardsApprovedKeepTallies(g, s, Rollup(g, MarkApproved(s, k), Own(u)), [k], Own(u));
  }

  /** Rows above the wards change, and no approved LGA row does. */
  lemma HighChangeKeepsTallies(g: Geo, s: Store, t: Store)
    requires g.Valid() && Tallied(g, s)
    requires forall x: Scope :: x.level in {PollingUnit, Ward} ==> SameRow(s, t, x)
    requires forall x: Scope :: x.level == Lga && IsApproved(s, x) ==> SameRow(s, t, x)
    ensures Tallied(g, t)
  {
    forall w | w in g.places && w.level == Ward ensures WardIndex(g, t, w) && Sealed(g, t, w) {
      assert WardIndex(g, s, w) && SameRow(s, t, w);
      forall c | c in g.Children(w) ensures SameApproved(s, t, c) { ChildLevel(g, c, w); assert SameRow(s, t, c); }
      WardKept(g, s, t, w);
    }
    forall l | l in g.places && l.level == Lga ensures LgaIndex(g, t, l) {
      assert LgaIndex(g, s, l);
      forall c | c in g.Children(l) ensures SameApproved(s, t, c) { ChildLevel(g, c, l); assert SameRow(s, t, c); }
      RollupDependsOnApproved(g, s, t, l);
      assert IsApproved(s, l) ==> SameRow(s, t, l);
    }
  }

  /** Approving an LGA or a state row touches no polling unit, no ward and no approved LGA. */
  lemma {:induction false} ApproveHighKeepsTallies(g: Geo, s: Store, u: User, k: Scope)
    requires g.Valid() && Tallied(g, s)
    requires ApproveError(g, s, u, k).None? && k.level in {Lga, Level.State}
    ensures Tallied(g, Rollup(g, MarkApproved(s, k), Own(u)))
  {
    var own, mid := Own(u), MarkApproved(s, k);
    var t := Rollup(g, mid, own);
    assert k in ApprovedChildren(g, mid, own);
    RollupEffect(g, mid, own);
    forall x | x != k && x != own ensures SameRow(s, t, x) {
      assert SameRow(mid, t, x);
    }
    HighChangeKeepsTallies(g, s, t);
  }

  lemma ApproveKeepsTallies(g: Geo, s: Store, u: User, k: Scope)
    requires g.Valid() && Tallied(g, s)
    ensures Tallied(g, ApproveStep(g, s, u, k).state)
  {
    if ApproveError(g, s, u, k).None? {
      if k.level == PollingUnit {
        ApproveUnitKeepsTallies(g, s, u, k);
      } else if k.level == Ward {
        ApproveWardKeepsTallies(g, s, u, k);
      } else {
        ApproveHighKeepsTallies(g, s, u, k);
      }
    }
  }

  lemma {:induction false} ReturnApprovedKeepsTallies(g: Geo, s: Store, u: User, k: Scope, affected: seq<Id>)
    requires g.Valid() && Tallied(g, s)
    requires RejectError(g, s, u, k, affected).None? && ReturnsApproved(g, s, k)
    ensures Tallied(g, Rebuild(g, MarkRejected(s, u, k, affected), Own(u), false, true))
  {
    var own, mid := Own(u), MarkRejected(s, u, k, affected);
    var t := Rebuild(g, mid, own, false, true);
    ChildLevel(g, k, own);
    RebuildEffect(g, mid, own, false, true);
    forall c | c in g.Children(own) ensures SameApproved(mid, t, c) {
      ChildLevel(g, c, own);
      assert SameRow(mid, t, c);
    }
    RollupDependsOnApproved(g, mid, t, own);
    forall x | x != k && x != own ensures SameRow(s, t, x) {
      assert SameRow(s, mid, x) && SameRow(mid, t, x);
    }
    UnitChangeKeepsTallies(g, s, t, k, own);
  }

  lemma RejectKeepsTallies(g: Geo, s: Store, u: User, k: Scope, affected: seq<Id>)
    requires g.Valid() && Tallied(g, s)
    ensures Tallied(g, RejectStep(g, s, u, k, affected).state)
  {
    hide Tallied, RejectError, MarkRejected, Rebuild, ReturnsApproved;
    if RejectError(g, s, u, k, affected).None? {
      if ReturnsApproved(g, s, k) {
        ReturnApprovedKeepsTallies(g, s, u, k, affected);
      } else {
        MarkRejectedKeepsTallies(g, s, u, k, affected);
      }
    }
  }

  /** Returning a submitted result takes nothing out of any total. */
  lemma MarkRejectedKeepsTallies(g: Geo, s: Store, u: User, k: Scope, affected: seq<Id>)
    requires g.Valid() && Tallied(g, s)
    requires RejectError(g, s, u, k, affected).None? && !ReturnsApproved(g, s, k)
    ensures Tallied(g, MarkRejected(s, u, k, affected))
  {
    hide CleanIds, RollupSheet, Sealed, LgaIndex;
    assert forall w :: w in g.places && w.level == Ward ==> WardIndex(g, s, w);
    QuietKeepsTallies(g, s, MarkRejected(s, u, k, affected));
  }

  /** A ward goes back to the LGA: its row is rebuilt, and its total was right before. */
  lemma {:induction false} ResubmittedKeepsTallies(g: Geo, s: Store, w: Scope)
    requires g.Valid() && Tallied(g, s) && w in g.places && w.level == Ward && Has(s, w, Rejected)
    ensures Tallied(g, Rebuild(g, s, w, true, false))
  {
    var t := Rebuild(g, s, w, true, false);
    RebuildEffect(g, s, w, true, false);
    assert WardIndex(g, s, w);
    forall x ensures SameApproved(s, t, x) {
      assert x != w ==> SameRow(s, t, x);
    }
    forall x | x in g.places && x.level == Ward
      ensures (x in s.rows <==> x in t.rows)
        && (x in t.rows ==> t.rows[x].sheet == s.rows[x].sheet && t.rows[x].status != Draft)
    {
      assert WardIndex(g, s, x);
      assert x != w ==> SameRow(s, t, x);
    }
    QuietKeepsTallies(g, s, t);
  }

  /** The invariants do not look at the action log. */
  lemma LogKeepsTallies(g: Geo, s: Store, log: seq<LogEntry>)
    requires Tallied(g, s)
    ensures Tallied(g, s.(log := log))
  {
    var t := s.(log := log);
    forall w | w in g.places && w.level == Ward
      ensures w in t.rows ==> t.rows[w].status != Draft
    {
      assert WardIndex(g, s, w);
    }
    QuietKeepsTallies(g, s, t);
  }

  lemma ResubmitKeepsTallies(g: Geo, s: Store, u: User)
    requires g.Valid() && Tallied(g, s)
    ensures Tallied(g, ResubmitStep(g, s, u).state)
  {
    if ResubmitStep(g, s, u).Done? {
      var own, k := Own(u), g.Children(Own(u))[0];
      assert k in g.Children(own);
      ChildLevel(g, k, own);
      ResubmittedKeepsTallies(g, s, own);
      LogKeepsTallies(g, Rebuild(g, s, own, true, false), ResubmitStep(g, s, u).state.log);
    }
  }

  lemma {:induction false} ReturnEachKeepsTallies(g: Geo, s: Store, u: User, ks: seq<Scope>)
    requires g.Valid() && Tallied(g, s)
    ensures Tallied(g, ReturnEach(g, s, u, ks).state)
    decreases |ks|
  {
    if ks != [] {
      RejectKeepsTallies(g, s, u, ks[0], []);
      ReturnEachKeepsTallies(g, RejectStep(g, s, u, ks[0], []).state, u, ks[1..]);
    }
  }

  /** What a successful bulk approval has checked and done. */
  lemma ApproveAllEffect(g: Geo, s: Store, u: User)
    requires g.Valid() && ApproveAllStep(g, s, u).Done?
    ensures Access(u) == Some(Lga) && Own(u) in g.places
    ensures Pending(g, s, Own(u)) != [] && AllReady(g, s, Pending(g, s, Own(u)))
    ensures ApproveAllStep(g, s, u).state == Rollup(g, MarkAllApproved(s, Pending(g, s, Own(u))), Own(u))
  {
    var k := Pending(g, s, Own(u))[0];
    assert k in Pending(g, s, Own(u));
    ChildLevel(g, k, Own(u));
  }

  lemma MarkAllRows(s: Store, ks: seq<Scope>, k: Scope)
    ensures k !in ks ==> SameRow(s, MarkAllApproved(s, ks), k)
    ensures k in ks && k in s.rows ==>
      IsApproved(MarkAllApproved(s, ks), k) && MarkAllApproved(s, ks).rows[k].sheet == s.rows[k].sheet
  {
  }

  lemma {:induction false} PendingApprovedKeepTallies(g: Geo, s: Store, ks: seq<Scope>, lga: Scope)
    requires g.Valid() && Tallied(g, s) && lga.level == Lga
    requires ks == Pending(g, s, lga) && ks != [] && AllReady(g, s, ks)
    ensures Tallied(g, Rollup(g, MarkAllApproved(s, ks), lga))
  {
    forall k ensures k !in ks ==> SameRow(s, MarkAllApproved(s, ks), k) {
      MarkAllRows(s, ks, k);
    }
    forall k | k in ks
      ensures IsApproved(MarkAllApproved(s, ks), k) && MarkAllApproved(s, ks).rows[k].sheet == s.rows[k].sheet {
      MarkAllRows(s, ks, k);
    }
    WardsApprovedByRollup(g, s, MarkAllApproved(s, ks), ks, lga);
    WardsApprovedKeepTallies(g, s, Rollup(g, MarkAllApproved(s, ks), lga), ks, lga);
  }

  lemma {:induction false} ApproveAllKeepsTallies(g: Geo, s: Store, u: User)
    requires g.Valid() && Tallied(g, s)
    ensures Tallied(g, ApproveAllStep(g, s, u).state)
  {
    if ApproveAllStep(g, s, u).Done? {
      ApproveAllEffect(g, s, u);
      PendingApprovedKeepTallies(g, s, Pending(g, s, Own(u)), Own(u));
    }
  }

  lemma {:induction false} ReturnFlaggedKeepsTallies(g: Geo, s: Store, u: User)
    requires g.Valid() && Tallied(g, s)
    ensures Tallied(g, ReturnFlaggedStep(g, s, u).state)
  {
    if Access(u).Some? && Has(s, Own(u), Rejected) {
      ReturnEachKeepsTallies(g, s, u, ToReturn(s, s.rows[Own(u)].flagged));
    }
  }

  lemma StepKeepsTallies(g: Geo, s: Store, u: User, a: Action)
    requires g.Valid() && Tallied(g, s)
    ensures Tallied(g, Step(g, s, u, a).state)
  {
    hide Tallied, SaveDraftStep, AttachPhotoStep, SubmitStep, ApproveStep, RejectStep, ResubmitStep, ReturnFlaggedStep,
         ApproveAllStep;
    match a
    case SaveDraft(dto) => SaveDraftKeepsTallies(g, s, u, dto);
    case AttachPhoto(k, url) => AttachPhotoKeepsTallies(g, s, u, k, url);
    case Submit(k) => SubmitKeepsTallies(g, s, u, k);
    case Approve(k) => ApproveKeepsTallies(g, s, u, k);
    case Reject(k, affected) => RejectKeepsTallies(g, s, u, k, affected);
    case ResubmitWard => ResubmitKeepsTallies(g, s, u);
    case ReturnFlagged => ReturnFlaggedKeepsTallies(g, s, u);
    case ApproveAllWards => ApproveAllKeepsTallies(g, s, u);
  }

  lemma EmptyIsTallied(g: Geo)
    ensures Tallied(g, EMPTY)
  {
    hide RollupSheet, ApprovedChildren;
    forall w ensures WardIndex(g, EMPTY, w) && Sealed(g, EMPTY, w) {
      NoMembers(ApprovedChildren(g, EMPTY, w));
    }
    forall l ensures LgaIndex(g, EMPTY, l) {
      NoMembers(ApprovedChildren(g, EMPTY, l));
    }
  }
}
