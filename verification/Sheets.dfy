/**
 The figures of one EC8A result sheet: eight nullable counts and a record of party votes
 (db/prisma/schema.prisma:641-660). A null column is an absent key; a null party record is
 the empty one, because no reader of the column tells the two apart.
 */
module Sheets {
  import opened Collections

  datatype Figure =
    | RegisteredVoters
    | AccreditedVoters
    | BallotPapersIssued
    | UnusedBallotPapers
    | SpoiledBallotPapers
    | InvalidVotes
    | VotesCast
    | UsedBallotPapers

  type Party = string

  datatype Sheet = Sheet(figures: map<Figure, nat>, parties: map<Party, int>)

  const EMPTY_SHEET := Sheet(map[], map[])

  /** The order in which the program walks the eight fields. */
  const FIELD_ORDER: seq<Figure> := [
    RegisteredVoters, AccreditedVoters, BallotPapersIssued, UnusedBallotPapers,
    SpoiledBallotPapers, InvalidVotes, VotesCast, UsedBallotPapers]

  const ALL_FIGURES: set<Figure> := {
    RegisteredVoters, AccreditedVoters, BallotPapersIssued, UnusedBallotPapers,
    SpoiledBallotPapers, InvalidVotes, VotesCast, UsedBallotPapers}

  lemma EveryFigure(f: Figure)
    ensures f in ALL_FIGURES && f in FIELD_ORDER
  {
    assert FIELD_ORDER[0] == RegisteredVoters && FIELD_ORDER[1] == AccreditedVoters;
    assert FIELD_ORDER[2] == BallotPapersIssued && FIELD_ORDER[3] == UnusedBallotPapers;
    assert FIELD_ORDER[4] == SpoiledBallotPapers && FIELD_ORDER[5] == InvalidVotes;
    assert FIELD_ORDER[6] == VotesCast && FIELD_ORDER[7] == UsedBallotPapers;
  }

  function At<K>(m: map<K, int>, k: K): int {
    if k in m then m[k] else 0
  }

  function FigureAt(m: map<Figure, nat>, f: Figure): nat {
    if f in m then m[f] else 0
  }

  /** One column of a sheet; everything a rollup adds up is a sum over columns. */
  datatype Column = OfFigure(figure: Figure) | OfParty(party: Party)

  /** The number in a column, with null read as zero. */
  function Cell(sheet: Sheet, c: Column): int {
    match c
    case OfFigure(f) => FigureAt(sheet.figures, f)
    case OfParty(p) => At(sheet.parties, p)
  }

  /** Sum of all votes in a party record. */
  ghost function PartyTotal(parties: map<Party, int>): int {
    SetSum(parties.Keys, (p: Party) => At(parties, p))
  }

  lemma PartyTotalOver(parties: map<Party, int>, all: set<Party>)
    requires parties.Keys <= all
    ensures PartyTotal(parties) == SetSum(all, (p: Party) => At(parties, p))
  {
    SetSumShrink(parties.Keys, all, (p: Party) => At(parties, p));
  }

  // Adding sheets up.

  function CellOf(c: Column): Sheet -> int {
    (sheet: Sheet) => Cell(sheet, c)
  }

  function ColumnTotal(sheets: seq<Sheet>, c: Column): int {
    Sum(sheets, CellOf(c))
  }

  function FigureTotal(sheets: seq<Sheet>, f: Figure): (r: nat)
    ensures r == ColumnTotal(sheets, OfFigure(f))
  {
    SumNonNegative(sheets, CellOf(OfFigure(f)));
    ColumnTotal(sheets, OfFigure(f))
  }

  /** Every party that some sheet mentions. */
  function AllParties(sheets: seq<Sheet>): set<Party> {
    if sheets == [] then {} else sheets[0].parties.Keys + AllParties(sheets[1..])
  }

  /** All eight figures and each party's votes, summed over the sheets, with null read as zero. */
  function TotalSheet(sheets: seq<Sheet>): Sheet {
    Sheet(map f | f in ALL_FIGURES :: FigureTotal(sheets, f),
          map p | p in AllParties(sheets) :: ColumnTotal(sheets, OfParty(p)))
  }

  lemma {:induction false} PartyOutside(sheets: seq<Sheet>, p: Party)
    requires p !in AllParties(sheets)
    ensures ColumnTotal(sheets, OfParty(p)) == 0
    ensures forall sheet :: sheet in sheets ==> p !in sheet.parties
  {
    if sheets != [] {
      PartyOutside(sheets[1..], p);
    }
  }

  /** A total names exactly the parties that some sheet names. */
  lemma {:induction false} AllPartiesExactly(sheets: seq<Sheet>, p: Party)
    ensures p in TotalSheet(sheets).parties <==> exists i :: 0 <= i < |sheets| && p in sheets[i].parties
  {
    if sheets != [] {
      AllPartiesExactly(sheets[1..], p);
      if i :| 0 <= i < |sheets| && p in sheets[i].parties {
        assert i > 0 ==> p in sheets[1..][i - 1].parties;
      }
      if j :| 0 <= j < |sheets[1..]| && p in sheets[1..][j].parties {
        assert p in sheets[j + 1].parties;
      }
    }
  }

  lemma {:induction false} PartiesWithin(sheets: seq<Sheet>, sheet: Sheet)
    requires sheet in sheets
    ensures sheet.parties.Keys <= AllParties(sheets)
  {
    if sheet != sheets[0] {
      PartiesWithin(sheets[1..], sheet);
    }
  }

  /** Reading any column of a total gives the sum of that column. */
  lemma TotalCell(sheets: seq<Sheet>, c: Column)
    ensures Cell(TotalSheet(sheets), c) == ColumnTotal(sheets, c)
  {
    match c
    case OfFigure(f) => EveryFigure(f);
    case OfParty(p) =>
      if p !in AllParties(sheets) {
        PartyOutside(sheets, p);
      }
  }

  ghost function Votes(): Sheet -> int {
    (sheet: Sheet) => PartyTotal(sheet.parties)
  }

  function PartyColumns(sheets: seq<Sheet>): Party -> int {
    (p: Party) => ColumnTotal(sheets, OfParty(p))
  }

  /** Adding up by party and adding up by sheet give the same number of votes. */
  lemma {:induction false} VotesByParty(sheets: seq<Sheet>, all: set<Party>)
    requires forall sheet :: sheet in sheets ==> sheet.parties.Keys <= all
    ensures SetSum(all, PartyColumns(sheets)) == Sum(sheets, Votes())
  {
    if sheets == [] {
      SetSumZero(all, PartyColumns(sheets));
    } else {
      var first := (p: Party) => At(sheets[0].parties, p);
      assert sheets[0] in sheets;
      VotesByParty(sheets[1..], all);
      PartyTotalOver(sheets[0].parties, all);
      SetSumSame(all, first, (p: Party) => At(sheets[0].parties, p));
      SetSumPlus(all, first, PartyColumns(sheets[1..]), PartyColumns(sheets));
    }
  }

  /** The votes in a total are the votes in its sheets. */
  lemma TotalVotes(sheets: seq<Sheet>)
    ensures PartyTotal(TotalSheet(sheets).parties) == Sum(sheets, Votes())
  {
    var total := TotalSheet(sheets).parties;
    forall sheet | sheet in sheets ensures sheet.parties.Keys <= AllParties(sheets) {
      PartiesWithin(sheets, sheet);
    }
    VotesByParty(sheets, AllParties(sheets));
    SetSumSame(AllParties(sheets), PartyColumns(sheets), (p: Party) => At(total, p));
    PartyTotalOver(total, AllParties(sheets));
  }
}
