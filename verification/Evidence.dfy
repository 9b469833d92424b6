/**
 What the action log and the photos prove about counted votes, in every reachable store.
 */
module Evidence {
  import opened Sheets
  import opened Geography
  import opened Workflow
  import opened Tallies
  import opened Conservation
  import opened Lifecycle

  /** Every vote that reaches an LGA comes from an approved polling unit with a photo of its form. */
  lemma CountedVotesArePhotographed(g: Geo, history: seq<Event>, lga: Scope, c: Column, k: Scope)
    requires g.Valid() && k in g.places && UnitVotes(g, Run(g, EMPTY, history), lga, c)(k) != 0
    ensures var s := Run(g, EMPTY, history);
      && IsApproved(s, k) && s.rows[k].photos != []
      && Moves(s.log, k) != [] && Moves(s.log, k)[|Moves(s.log, k)| - 1] == Approved
  {
    hide Run, UnitVotes, Tallied, LogWord, Moves, StatusFitsLog;
    var s := Run(g, EMPTY, history);
    ReachableIsSound(g, history);
    CountedUnitIsApproved(g, s, lga, c, k);
    assert UnitSound(s, k);
    ApprovedByLog(s, k);
  }

  lemma CountedUnitIsApproved(g: Geo, s: Store, lga: Scope, c: Column, k: Scope)
    requires g.Valid() && Tallied(g, s) && k in g.places && UnitVotes(g, s, lga, c)(k) != 0
    ensures IsApproved(s, k) && k.level == PollingUnit
  {
    hide Cell, RollupSheet, LgaIndex;
    var w := g.above[k];
    assert k in g.Children(w);
    assert WardIndex(g, s, w);
  }

  lemma ApprovedByLog(s: Store, k: Scope)
    requires UnitSound(s, k) && IsApproved(s, k)
    ensures s.rows[k].photos != [] && Moves(s.log, k) != [] && Moves(s.log, k)[|Moves(s.log, k)| - 1] == Approved
  {
    hide LogWord, Moves;
  }

  /** The log alone tells whether a unit's result is out of the agent's hands. */
  lemma LogTellsStatus(g: Geo, history: seq<Event>, k: Scope)
    requires g.Valid() && k.level == PollingUnit
    ensures var s := Run(g, EMPTY, history);
      var submitted, sentBack := Times(Moves(s.log, k), Submitted), Times(Moves(s.log, k), Rejected);
      submitted - sentBack == if Has(s, k, Submitted) || IsApproved(s, k) then 1 else 0
  {
    hide Run, LogWord, Moves, Times, Tallied, FlagsInside;
    var s := Run(g, EMPTY, history);
    ReachableIsSound(g, history);
    assert UnitSound(s, k);
    LogBalance(Moves(s.log, k));
    LogEnds(Moves(s.log, k));
  }

  lemma LogEnds(w: seq<Status>)
    requires LogWord(w)
    ensures w == [] || w[|w| - 1] in {Submitted, Approved, Rejected}
  {
    if w != [] {
      LogWordEnds(w);
    }
  }
}
