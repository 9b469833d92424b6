/**
 Conservation of votes through both rollups: every number on an LGA row is the sum over the
 polling units of its approved wards.
 */
module Conservation {
  import opened Collections
  import opened Sheets
  import opened Geography
  import opened Workflow
  import opened Tallies

  /** What a place contributes to the rollup above it. */
  function Weight(s: Store, c: Column): Scope -> int {
    k => if IsApproved(s, k) then Cell(s.rows[k].sheet, c) else 0
  }

  lemma {:induction false} TotalOfSheets(s: Store, ks: seq<Scope>, c: Column)
    requires forall k :: k in ks ==> IsApproved(s, k)
    ensures ColumnTotal(SheetsOf(s, ks), c) == Sum(ks, Weight(s, c))
  {
    if ks != [] {
      assert SheetsOf(s, ks)[1..] == SheetsOf(s, ks[1..]);
      assert ks[0] in ks;
      TotalOfSheets(s, ks[1..], c);
    }
  }

  /** A rollup cell is the weighted sum over all places below the parent. */
  lemma RollupCell(g: Geo, s: Store, parent: Scope, c: Column)
    ensures Cell(RollupSheet(g, s, parent), c) == Sum(g.Children(parent), Weight(s, c))
  {
    var kids := ApprovedChildren(g, s, parent);
    TotalCell(SheetsOf(s, kids), c);
    TotalOfSheets(s, kids, c);
    SumFilter(g.Children(parent), k => IsApproved(s, k), Weight(s, c), Weight(s, c));
  }

  /** What place `k` contributes to the LGA through ward `w`. */
  function Share(g: Geo, s: Store, lga: Scope, c: Column, w: Scope, k: Scope): int {
    if g.IsChild(w, lga) && IsApproved(s, w) && g.IsChild(k, w) then Weight(s, c)(k) else 0
  }

  function SharesOfWard(g: Geo, s: Store, lga: Scope, c: Column, w: Scope): Scope -> int {
    k => Share(g, s, lga, c, w, k)
  }

  function SharesOfUnit(g: Geo, s: Store, lga: Scope, c: Column, k: Scope): Scope -> int {
    w => Share(g, s, lga, c, w, k)
  }

  /** What a polling unit contributes to an LGA: its own numbers, if its ward is approved and in the LGA. */
  function UnitVotes(g: Geo, s: Store, lga: Scope, c: Column): Scope -> int {
    k => if InApprovedWard(g, s, k) && PlaceAbove(g, g.above[k]) == Some(lga) then Cell(RowOr(s, k).sheet, c) else 0
  }

  predicate InApprovedWard(g: Geo, s: Store, k: Scope) {
    k.level == PollingUnit && k in g.above && IsApproved(s, g.above[k])
  }

  lemma WardShare(g: Geo, s: Store, w: Scope, lga: Scope, c: Column)
    requires g.Valid() && Tallied(g, s) && w in g.places && lga.level == Lga
    ensures (if g.IsChild(w, lga) then Weight(s, c)(w) else 0) == Sum(g.places, SharesOfWard(g, s, lga, c, w))
  {
    var share := SharesOfWard(g, s, lga, c, w);
    if g.IsChild(w, lga) && IsApproved(s, w) {
      assert w in g.Children(lga);
      ChildLevel(g, w, lga);
      assert WardIndex(g, s, w);
      RollupCell(g, s, w, c);
      SumFilter(g.places, k => g.IsChild(k, w), Weight(s, c), share);
    } else {
      SumZero(g.places, share);
    }
  }

  /** Only the unit's own ward can carry its share. */
  lemma ShareOnlyFromAbove(g: Geo, s: Store, k: Scope, lga: Scope, c: Column, w: Scope)
    requires g.Valid() && lga.level == Lga && w in g.places && Share(g, s, lga, c, w, k) != 0
    ensures k in g.above && w == g.above[k] && k.level == PollingUnit
  {
    hide Weight, Cell;
    assert w in g.Children(lga);
    ChildLevel(g, w, lga);
  }

  lemma OwnWardCarriesShare(g: Geo, s: Store, k: Scope, lga: Scope, c: Column)
    requires g.Valid() && Tallied(g, s) && k in g.places && lga.level == Lga
    requires k in g.above && k.level == PollingUnit
    ensures UnitVotes(g, s, lga, c)(k) == Share(g, s, lga, c, g.above[k], k)
  {
    hide Cell, RollupSheet;
    var w := g.above[k];
    if IsApproved(s, w) {
      assert WardIndex(g, s, w) && k in g.Children(w);
      assert IsApproved(s, k);
    }
  }

  lemma UnitShare(g: Geo, s: Store, k: Scope, lga: Scope, c: Column)
    requires g.Valid() && Tallied(g, s) && k in g.places && lga.level == Lga
    ensures UnitVotes(g, s, lga, c)(k) == Sum(g.places, SharesOfUnit(g, s, lga, c, k))
  {
    hide Sum, Cell, Share, Tallied;
    var share := SharesOfUnit(g, s, lga, c, k);
    forall w | w in g.places && share(w) != 0 ensures k in g.above && w == g.above[k] && k.level == PollingUnit {
      ShareOnlyFromAbove(g, s, k, lga, c, w);
    }
    if k in g.above && k.level == PollingUnit {
      SumSingle(g.places, share, g.above[k]);
      OwnWardCarriesShare(g, s, k, lga, c);
    } else {
      SumZero(g.places, share);
    }
  }

  /** An LGA's rollup is the sum over the polling units of its approved wards. */
  lemma LgaRollupCountsUnits(g: Geo, s: Store, lga: Scope, c: Column)
    requires g.Valid() && Tallied(g, s) && lga.level == Lga
    ensures Cell(RollupSheet(g, s, lga), c) == Sum(g.places, UnitVotes(g, s, lga, c))
  {
    var row := w => if g.IsChild(w, lga) then Weight(s, c)(w) else 0;
    RollupCell(g, s, lga, c);
    SumFilter(g.places, w => g.IsChild(w, lga), Weight(s, c), row);
    forall w | w in g.places ensures row(w) == Sum(g.places, SharesOfWard(g, s, lga, c, w)) {
      WardShare(g, s, w, lga, c);
    }
    forall k | k in g.places ensures UnitVotes(g, s, lga, c)(k) == Sum(g.places, SharesOfUnit(g, s, lga, c, k)) {
      UnitShare(g, s, k, lga, c);
    }
    SumSwap(g.places, g.places, w => SharesOfWard(g, s, lga, c, w), k => SharesOfUnit(g, s, lga, c, k),
            row, UnitVotes(g, s, lga, c));
  }

  /**
   Two-level conservation: with at least one approved ward, an LGA's result is approved, shows all
   eight figures, and each number on it is the sum over the polling units of its approved wards.
   */
  lemma LgaConservation(g: Geo, s: Store, lga: Scope)
    requires g.Valid() && Tallied(g, s) && lga in g.places && lga.level == Lga
    requires exists w :: w in g.Children(lga) && IsApproved(s, w)
    ensures IsApproved(s, lga)
    ensures s.rows[lga].sheet.figures.Keys == ALL_FIGURES
    ensures forall c :: Cell(s.rows[lga].sheet, c) == Sum(g.places, UnitVotes(g, s, lga, c))
  {
    assert LgaIndex(g, s, lga);
    var w :| w in g.Children(lga) && IsApproved(s, w);
    assert w in ApprovedChildren(g, s, lga);
    forall c ensures Cell(s.rows[lga].sheet, c) == Sum(g.places, UnitVotes(g, s, lga, c)) {
      LgaRollupCountsUnits(g, s, lga, c);
    }
  }
}
