/**
 How the EC8A identities behave under the rollups: what a rolled-up sheet fails is decided
 exactly by the summed shortfalls of the sheets below it.
 */
module CleanSheets {
  import opened Collections
  import opened Sheets
  import opened Verification
  import opened Geography
  import W = Workflow
  import Tallies

  ghost function ShortfallOf(i: Identity): Sheet -> int {
    (sheet: Sheet) => Shortfall(sheet, i)
  }

  lemma TotalFigure(sheets: seq<Sheet>, f: Figure)
    ensures FigureAt(TotalSheet(sheets).figures, f) == ColumnTotal(sheets, OfFigure(f))
  {
    TotalCell(sheets, OfFigure(f));
  }

  /** Column sums of a non-empty list, one sheet off the front. */
  lemma {:induction false} ShortfallOfColumns(sheets: seq<Sheet>, i: Identity)
    ensures var t := (f: Figure) => ColumnTotal(sheets, OfFigure(f));
      Sum(sheets, ShortfallOf(i)) ==
        match i
        case AccreditedWithinRegister => t(AccreditedVoters) - t(RegisteredVoters)
        case PartySumIsValid => Sum(sheets, Votes()) - t(VotesCast)
        case UsedIsSpoiledRejectedValid =>
          t(UsedBallotPapers) - (t(SpoiledBallotPapers) + t(InvalidVotes) + t(VotesCast))
        case IssuedIsUsedUnused => t(BallotPapersIssued) - (t(UsedBallotPapers) + t(UnusedBallotPapers))
        case AccreditedIsUsed => t(AccreditedVoters) - t(UsedBallotPapers)
  {
    if sheets != [] {
      ShortfallOfColumns(sheets[1..], i);
    }
  }

  /** Shortfalls add up. */
  lemma TotalShortfall(sheets: seq<Sheet>, i: Identity)
    ensures Shortfall(TotalSheet(sheets), i) == Sum(sheets, ShortfallOf(i))
  {
    ShortfallOfColumns(sheets, i);
    TotalVotes(sheets);
    forall f ensures FigureAt(TotalSheet(sheets).figures, f) == ColumnTotal(sheets, OfFigure(f)) {
      TotalFigure(sheets, f);
    }
  }

  lemma {:induction false} NoPartiesAnywhere(sheets: seq<Sheet>)
    ensures AllParties(sheets) == {} <==> forall sheet :: sheet in sheets ==> sheet.parties == map[]
  {
    if sheets != [] {
      NoPartiesAnywhere(sheets[1..]);
      assert forall sheet :: sheet in sheets <==> sheet == sheets[0] || sheet in sheets[1..];
    }
  }

  /**
   Exactly when a rolled-up sheet fails an identity: the shortfalls below do not cancel out (for the
   party identity, only if some sheet below has a party record at all).
   */
  lemma RollupFailsExactly(sheets: seq<Sheet>, i: Identity)
    ensures Fails(TotalSheet(sheets), i) <==>
      match i
      case AccreditedWithinRegister => Sum(sheets, ShortfallOf(i)) > 0
      case PartySumIsValid =>
        Sum(sheets, ShortfallOf(i)) != 0 && exists sheet :: sheet in sheets && sheet.parties != map[]
      case _ => Sum(sheets, ShortfallOf(i)) != 0
  {
    var total := TotalSheet(sheets);
    TotalShortfall(sheets, i);
    assert total.figures.Keys == ALL_FIGURES;
    NoPartiesAnywhere(sheets);
    assert total.parties.Keys == AllParties(sheets);
    assert total.parties == map[] <==> total.parties.Keys == {};
  }

  /** All eight figures are there, and some party score. */
  predicate Complete(sheet: Sheet) {
    sheet.figures.Keys == ALL_FIGURES && sheet.parties != map[]
  }

  /** On a complete sheet an identity fails exactly by its shortfall. */
  lemma CompleteFailsByShortfall(sheet: Sheet, i: Identity)
    requires Complete(sheet)
    ensures Fails(sheet, i) <==>
      if i == AccreditedWithinRegister then Shortfall(sheet, i) > 0 else Shortfall(sheet, i) != 0
  {
    EveryFigure(RegisteredVoters);
  }

  /** Clean sheets stay clean: the total of complete sheets without a failing identity has none either. */
  lemma CleanTotal(sheets: seq<Sheet>)
    requires forall sheet :: sheet in sheets ==> Complete(sheet) && Clean(sheet)
    ensures Clean(TotalSheet(sheets))
    ensures sheets != [] ==> Complete(TotalSheet(sheets))
  {
    forall i ensures !Fails(TotalSheet(sheets), i) {
      forall sheet | sheet in sheets
        ensures if i == AccreditedWithinRegister then Shortfall(sheet, i) <= 0 else Shortfall(sheet, i) == 0 {
        CompleteFailsByShortfall(sheet, i);
      }
      if i == AccreditedWithinRegister {
        SumAtMost(sheets, ShortfallOf(i), (sheet: Sheet) => 0);
        SumZero(sheets, (sheet: Sheet) => 0);
      } else {
        SumZero(sheets, ShortfallOf(i));
      }
      RollupFailsExactly(sheets, i);
    }
    if sheets != [] {
      NoPartiesAnywhere(sheets);
      assert sheets[0] in sheets;
    }
  }

  /** Without completeness it fails: a lone accredited count is clean, but its rollup fills the register with zero. */
  lemma IncompleteSheetTurnsUnclean()
    ensures var sheet := Sheet(map[AccreditedVoters := 5], map[]);
      Clean(sheet) && !Clean(TotalSheet([sheet]))
  {
    var sheet := Sheet(map[AccreditedVoters := 5], map[]);
    RollupFailsExactly([sheet], AccreditedWithinRegister);
    assert Sum([sheet], ShortfallOf(AccreditedWithinRegister)) == 5;
    assert Fails(TotalSheet([sheet]), AccreditedWithinRegister);
  }

  ghost predicate CleanUnit(s: W.Store, k: Scope) {
    W.IsApproved(s, k) ==> Complete(s.rows[k].sheet) && Clean(s.rows[k].sheet)
  }

  lemma CleanRollup(g: Geo, s: W.Store, parent: Scope)
    requires forall k :: k in g.Children(parent) ==> CleanUnit(s, k)
    ensures Clean(W.RollupSheet(g, s, parent))
    ensures W.ApprovedChildren(g, s, parent) != [] ==> Complete(W.RollupSheet(g, s, parent))
  {
    var kids := W.ApprovedChildren(g, s, parent);
    var sheets := W.SheetsOf(s, kids);
    forall sheet | sheet in sheets ensures Complete(sheet) && Clean(sheet) {
      var i :| 0 <= i < |sheets| && sheets[i] == sheet;
      assert kids[i] in kids && CleanUnit(s, kids[i]);
    }
    CleanTotal(sheets);
  }

  /** In a tallied store, clean polling units give a ward result without a failing identity. */
  lemma CleanWard(g: Geo, s: W.Store, w: Scope)
    requires g.Valid() && Tallies.Tallied(g, s) && w in g.places && w.level == Ward && w in s.rows
    requires forall k :: k in g.Children(w) ==> CleanUnit(s, k)
    ensures Clean(s.rows[w].sheet)
    ensures W.IsApproved(s, w) ==> Complete(s.rows[w].sheet)
  {
    assert Tallies.WardIndex(g, s, w);
    CleanRollup(g, s, w);
    if W.IsApproved(s, w) {
      var k := g.Children(w)[0];
      assert k in g.Children(w) && k in W.ApprovedChildren(g, s, w);
    }
  }

  /** Clean polling units in all approved wards give an LGA result without a failing identity. */
  lemma CleanLga(g: Geo, s: W.Store, l: Scope)
    requires g.Valid() && Tallies.Tallied(g, s) && l in g.places && l.level == Lga
    requires W.ApprovedChildren(g, s, l) != []
    requires forall w, k :: w in g.Children(l) && W.IsApproved(s, w) && k in g.Children(w) ==> CleanUnit(s, k)
    ensures l in s.rows && Clean(s.rows[l].sheet) && Complete(s.rows[l].sheet)
  {
    assert Tallies.LgaIndex(g, s, l);
    forall w | w in g.Children(l) ensures CleanUnit(s, w) {
      Tallies.ChildLevel(g, w, l);
      if W.IsApproved(s, w) {
        CleanWard(g, s, w);
      }
    }
    CleanRollup(g, s, l);
  }
}
