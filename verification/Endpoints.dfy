/**
 Every endpoint from outside: exactly when it succeeds, whatever order the guards stand in, and what is
 then stored (src/modules/collation/collation.service.ts).
 */
module Endpoints {
  import opened Collections
  import opened Sheets
  import opened Geography
  import opened Workflow
  import opened Tallies
  import V = Verification
  import Vision

  ghost predicate Appended(s: Store, t: Store, k: Scope, from: Status, to: Status) {
    t.log == s.log + [LogEntry(k, from, to)]
  }

  lemma ChildIsBelow(g: Geo, k: Scope, parent: Scope)
    requires g.Valid() && k in g.Children(parent)
    ensures LevelBelow(parent.level) == Some(k.level) && k != parent
    ensures k.level == PollingUnit ==> k in g.above && g.above[k] == parent
  {
  }

  /** A photo is added behind the others, by the owner of an editable result. */
  lemma AttachExactly(s: Store, u: User, k: Scope, url: Url)
    ensures var r := AttachPhotoStep(s, u, k, url);
      && (r.Done? <==>
            && k in s.rows && Access(u).Some? && k == Own(u)
            && (s.rows[k].status == Draft || s.rows[k].status == Rejected))
      && (r.Failed? ==> r.state == s)
      && (r.Done? ==>
            && k in r.state.rows && r.state.log == s.log
            && r.state.rows[k] == s.rows[k].(photos := s.rows[k].photos + [url], ocr := r.state.rows[k].ocr)
            && (forall x :: x != k ==> SameRow(s, r.state, x)))
  {
  }

  /** A result is submitted by its owner while it is editable; a polling unit's needs a photo. */
  lemma SubmitExactly(s: Store, u: User, k: Scope)
    ensures var r := SubmitStep(s, u, k);
      && (r.Done? <==>
            && k in s.rows && Access(u).Some? && k == Own(u) && k.level != Ward
            && (s.rows[k].status == Draft || s.rows[k].status == Rejected)
            && (k.level == PollingUnit ==> |s.rows[k].photos| > 0))
      && (r.Failed? ==> r.state == s)
      && (r.Done? ==>
            && k in r.state.rows && Appended(s, r.state, k, s.rows[k].status, Submitted)
            && r.state.rows[k] == s.rows[k].(status := Submitted, ocr := r.state.rows[k].ocr)
            && (forall x :: x != k ==> SameRow(s, r.state, x)))
  {
  }

  /** With a polling unit's submission its photo check is pending, unless the typed figures already fail. */
  lemma SubmitAwaitsPhoto(s: Store, u: User, k: Scope)
    requires SubmitStep(s, u, k).Done? && k.level == PollingUnit
    ensures var row := SubmitStep(s, u, k).state.rows[k];
      && row.ocr.Some? && row.ocr.value.photoCount == |row.photos|
      && (row.ocr.value.recommendation ==
            if exists i :: V.Fails(row.sheet, i) then V.Return else V.CheckPhoto)
      && (row.ocr.value.recommendation == V.CheckPhoto ==>
            row.ocr.value.status == V.Pending && V.OcrPending in row.ocr.value.flags)
  {
    V.ArithmeticVerdict(s.rows[k].sheet, |s.rows[k].photos|);
  }

  /** A photo refreshes the report of a polling unit without asking for its check. */
  lemma AttachJudgesFigures(s: Store, u: User, k: Scope, url: Url)
    requires AttachPhotoStep(s, u, k, url).Done? && k.level == PollingUnit
    ensures var row := AttachPhotoStep(s, u, k, url).state.rows[k];
      && row.ocr.Some? && row.ocr.value.photoCount == |row.photos|
      && (row.ocr.value.recommendation == V.Return <==> exists i :: V.Fails(row.sheet, i))
      && (row.ocr.value.recommendation == V.CheckPhoto <==> row.sheet == EMPTY_SHEET)
  {
    V.ArithmeticVerdict(s.rows[k].sheet, |s.rows[k].photos| + 1);
  }

  /** A submitted result is approved by the officer of the place above; a ward only with all its units. */
  lemma ApproveExactly(g: Geo, s: Store, u: User, k: Scope)
    requires g.Valid()
    ensures var r := ApproveStep(g, s, u, k);
      && (r.Done? <==>
            && Access(u).Some? && k in g.Children(Own(u)) && Has(s, k, Submitted)
            && (k.level == Ward ==>
                  g.Children(k) != [] && forall x :: x in g.Children(k) ==> Has(s, x, Approved)))
      && (r.Failed? ==> r.state == s)
      && (r.Done? ==>
            && k != Own(u) && k in r.state.rows && Appended(s, r.state, k, Submitted, Approved)
            && r.state.rows[k] == s.rows[k].(status := Approved, flagged := [])
            && (forall x :: x != k && x != Own(u) ==> SameRow(s, r.state, x)))
  {
    hide Rollup, RollupSheet;
    if Access(u).Some? && k in g.Children(Own(u)) {
      ChildIsBelow(g, k, Own(u));
    }
    if ApproveError(g, s, u, k).None? {
      var mid := MarkApproved(s, k);
      assert k in ApprovedChildren(g, mid, Own(u));
      RollupEffect(g, mid, Own(u));
      assert SameRow(mid, Rollup(g, mid, Own(u)), k);
      forall x | x != k && x != Own(u) ensures SameRow(s, Rollup(g, mid, Own(u)), x) {
        assert SameRow(mid, Rollup(g, mid, Own(u)), x);
      }
    }
  }

  /**
   A result is returned by the officer of the place above: when it is submitted (and, for an LGA returning
   a ward, the units named are in the ward), or an approved polling unit whose ward was returned.
   */
  lemma RejectExactly(g: Geo, s: Store, u: User, k: Scope, affected: seq<Id>)
    requires g.Valid()
    ensures var r := RejectStep(g, s, u, k, affected);
      && (r.Done? <==>
            && Access(u).Some? && k in g.Children(Own(u))
            && (|| (Has(s, k, Submitted) && (k.level == Ward ==> AllInWard(g, k, CleanIds(affected))))
                || (Has(s, k, Approved) && k.level == PollingUnit && Has(s, Own(u), Rejected))))
      && (r.Failed? ==> r.state == s)
      && (r.Done? ==>
            && k != Own(u) && k in r.state.rows && Appended(s, r.state, k, s.rows[k].status, Rejected)
            && r.state.rows[k] == s.rows[k].(status := Rejected, flagged := r.state.rows[k].flagged)
            && (k.level != Ward ==> r.state.rows[k].flagged == s.rows[k].flagged)
            && (forall x :: x != k && (x != Own(u) || Has(s, k, Submitted)) ==> SameRow(s, r.state, x)))
  {
    hide Rebuild, CleanIds;
    if Access(u).Some? && k in g.Children(Own(u)) {
      ChildIsBelow(g, k, Own(u));
    }
    assert CleanIds([]) == [] by {
      NoMembers(CleanIds([]));
    }
    if RejectError(g, s, u, k, affected).None? {
      RejectRows(g, s, u, k, affected);
    }
  }

  lemma RejectRows(g: Geo, s: Store, u: User, k: Scope, affected: seq<Id>)
    requires g.Valid() && RejectError(g, s, u, k, affected).None?
    ensures var t := RejectStep(g, s, u, k, affected).state;
      && k != Own(u) && k in t.rows && Appended(s, t, k, s.rows[k].status, Rejected)
      && t.rows[k] == s.rows[k].(status := Rejected, flagged := t.rows[k].flagged)
      && (k.level != Ward ==> t.rows[k].flagged == s.rows[k].flagged)
      && (forall x :: x != k && (x != Own(u) || Has(s, k, Submitted)) ==> SameRow(s, t, x))
  {
    hide Rebuild, CleanIds, RollupSheet;
    ChildIsBelow(g, k, Own(u));
    var mid, t := MarkRejected(s, u, k, affected), RejectStep(g, s, u, k, affected).state;
    RebuildEffect(g, mid, Own(u), false, true);
    assert SameRow(mid, t, k);
    forall x | x != k && (x != Own(u) || Has(s, k, Submitted)) ensures SameRow(s, t, x) {
      assert SameRow(s, mid, x);
      assert x != Own(u) ==> SameRow(mid, t, x);
    }
  }

  /** A ward goes back to the LGA when it was returned and has units, all approved; its flags are dropped. */
  lemma ResubmitExactly(g: Geo, s: Store, u: User)
    ensures var r := ResubmitStep(g, s, u);
      && (r.Done? <==>
            && Access(u) == Some(Ward) && Has(s, Own(u), Rejected)
            && g.Children(Own(u)) != [] && forall x :: x in g.Children(Own(u)) ==> Has(s, x, Approved))
      && (r.Failed? ==> r.state == s)
      && (r.Done? ==>
            && Own(u) in r.state.rows && Appended(s, r.state, Own(u), Rejected, Submitted)
            && r.state.rows[Own(u)].status == Submitted && r.state.rows[Own(u)].flagged == []
            && (forall x :: x != Own(u) ==> SameRow(s, r.state, x)))
  {
    hide Rebuild, RollupSheet;
    if ResubmitStep(g, s, u).Done? {
      RebuildEffect(g, s, Own(u), true, false);
      forall x | x != Own(u) ensures SameRow(s, ResubmitStep(g, s, u).state, x) {
        assert SameRow(s, Rebuild(g, s, Own(u), true, false), x);
      }
    }
  }

  /** The bulk approval needs a waiting ward, and every waiting ward to have units, all approved. */
  lemma ApproveAllExactly(g: Geo, s: Store, u: User)
    requires g.Valid()
    ensures var r := ApproveAllStep(g, s, u);
      && (r.Done? <==>
            && u.role == LgaCollationOfficer && Access(u).Some?
            && (exists w :: w in g.Children(Own(u)) && Has(s, w, Submitted))
            && (forall w, x :: (w in g.Children(Own(u)) && Has(s, w, Submitted) && x in g.Children(w)) ==>
                  Has(s, x, Approved))
            && (forall w :: w in g.Children(Own(u)) && Has(s, w, Submitted) ==> g.Children(w) != []))
      && (r.Failed? ==> r.state == s)
  {
    hide Rollup, MarkAllApproved, Ready;
    if Access(u).Some? && u.role == LgaCollationOfficer {
      var pending := Pending(g, s, Own(u));
      forall w ensures w in pending <==> w in g.Children(Own(u)) && Has(s, w, Submitted) {
        if w in g.Children(Own(u)) {
          ChildLevel(g, w, Own(u));
        }
      }
      forall w
        ensures Ready(g, s, w) <==> g.Children(w) != [] && forall x :: x in g.Children(w) ==> Has(s, x, Approved)
      {
        ReadyExactly(g, s, w);
      }
      assert pending != [] ==> pending[0] in pending;
    }
  }

  lemma ReadyExactly(g: Geo, s: Store, w: Scope)
    ensures Ready(g, s, w) <==> g.Children(w) != [] && forall x :: x in g.Children(w) ==> Has(s, x, Approved)
  {
  }

  /** It logs one approval for each waiting ward, behind everything logged before. */
  lemma ApproveAllLogs(g: Geo, s: Store, u: User, i: nat)
    requires ApproveAllStep(g, s, u).Done?
    ensures var r, pending := ApproveAllStep(g, s, u), Pending(g, s, Own(u));
      && |r.state.log| == |s.log| + r.count && r.count == |pending| && r.state.log[..|s.log|] == s.log
      && (i < r.count ==> r.state.log[|s.log| + i] == LogEntry(pending[i], Submitted, Approved))
  {
    hide RollupSheet, AllReady, ApprovedChildren;
    var pending := Pending(g, s, Own(u));
    var mid := MarkAllApproved(s, pending);
    assert Rollup(g, mid, Own(u)).log == mid.log == s.log + ApprovalEntries(pending);
  }

  /** What the photo check stores: without photos the arithmetic, else the merge with what was read. */
  lemma PhotoCheckVerdict(s: Store, k: Scope, vision: Vision.VisionExtract)
    requires vision.Valid() && k in s.rows && k.level == PollingUnit
    ensures var t, sheet := OcrJob(s, k, vision), s.rows[k].sheet;
      && k in t.rows && t.log == s.log && t.rows[k] == s.rows[k].(ocr := t.rows[k].ocr)
      && (forall x :: x != k ==> SameRow(s, t, x))
      && t.rows[k].ocr.Some? && V.OcrPending !in t.rows[k].ocr.value.flags
      && (s.rows[k].photos == [] ==>
            (t.rows[k].ocr.value.recommendation == V.Return <==> exists i :: V.Fails(sheet, i)))
      && (s.rows[k].photos != [] ==>
            && (t.rows[k].ocr.value.recommendation == V.Return <==>
                  (exists i :: V.Fails(sheet, i)) || (!vision.Failed() && Vision.PhotoDisagrees(sheet, vision)))
            && (t.rows[k].ocr.value.recommendation == V.CheckPhoto <==>
                  (forall i :: !V.Fails(sheet, i)) && vision.Failed()))
  {
    hide V.ArithmeticReport, Vision.MergedReport, Vision.PhotoDisagrees;
    V.ArithmeticVerdict(s.rows[k].sheet, |s.rows[k].photos|);
    Vision.MergeIsExact(s.rows[k].sheet, |s.rows[k].photos|, vision);
    assert V.Clean(s.rows[k].sheet) <==> forall i :: !V.Fails(s.rows[k].sheet, i);
  }
}
