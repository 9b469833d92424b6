/**
 The EC8A identities checked on typed figures (src/modules/collation/ocr-verification.ts).
 Time stamps are left out; a message is kept as its template and numbers instead of text.
 */
module Verification {
  import opened Collections
  import opened Sheets

  datatype Status = Match | Mismatch | Unreadable | Pending
  datatype Recommendation = Approve | Return | CheckPhoto
  datatype Engine = Arithmetic | Ocr

  /** Key of a diff: a sheet field, or `party.<code>`. */
  datatype FieldName = FigureField(figure: Figure) | PartyField(party: Party)

  datatype Message =
    | AccreditedExceedRegister(accredited: int, registered: int)
    | PartyScoresVersusValid(partySum: int, valid: int)
    | UsedVersusParts(used: int, parts: int)
    | IssuedVersusParts(issued: int, parts: int)
    | AccreditedVersusUsed(accredited: int, used: int)
    | PhotoReadsField(figure: Figure, typed: int, photo: int)
    | PhotoReadsParty(party: Party, typed: int, photo: int)
    | PhotoPartySum(valid: int, photoSum: int)

  datatype Flag =
    | AccreditedGtRegistered
    | PartySumNeValid
    | UsedNeSpoiledRejectedValid
    | IssuedNeUsedUnused
    | AccreditedNeUsed
    | FiguresIncomplete
    | OcrPending
    | OcrFieldMismatch(figure: Figure)
    | OcrPartyMismatch(party: Party)
    | OcrPartySumNeValid

  datatype Diff = Diff(field: FieldName, typed: int, expected: int, message: Message)

  datatype Report = Report(
    status: Status,
    recommendation: Recommendation,
    engine: Engine,
    confidence: Option<real>,
    flags: seq<Flag>,
    diffs: seq<Diff>,
    rejectReason: Option<seq<Message>>,
    photoCount: nat,
    ocrError: Option<string>,
    ocrFields: map<FieldName, int>)

  /** `partyVotesSum`: null without any score. */
  ghost function PartyVotesSum(parties: map<Party, int>): Option<int> {
    if parties == map[] then None else Some(PartyTotal(parties))
  }

  predicate HasAnyFigures(sheet: Sheet) {
    sheet.figures != map[] || sheet.parties != map[]
  }

  // The five identities.

  datatype Identity =
    | AccreditedWithinRegister
    | PartySumIsValid
    | UsedIsSpoiledRejectedValid
    | IssuedIsUsedUnused
    | AccreditedIsUsed

  const IDENTITIES: seq<Identity> := [
    AccreditedWithinRegister, PartySumIsValid, UsedIsSpoiledRejectedValid, IssuedIsUsedUnused, AccreditedIsUsed]

  lemma EveryIdentity(i: Identity)
    ensures i in IDENTITIES
  {
    assert IDENTITIES[0] == AccreditedWithinRegister && IDENTITIES[1] == PartySumIsValid;
    assert IDENTITIES[2] == UsedIsSpoiledRejectedValid && IDENTITIES[3] == IssuedIsUsedUnused;
    assert IDENTITIES[4] == AccreditedIsUsed;
  }

  function UsedParts(sheet: Sheet): int {
    FigureAt(sheet.figures, SpoiledBallotPapers) + FigureAt(sheet.figures, InvalidVotes)
    + FigureAt(sheet.figures, VotesCast)
  }

  function IssuedParts(sheet: Sheet): int {
    FigureAt(sheet.figures, UsedBallotPapers) + FigureAt(sheet.figures, UnusedBallotPapers)
  }

  /** An identity fails only when both its sides can be computed from what was typed. */
  ghost predicate Fails(sheet: Sheet, i: Identity) {
    var m := sheet.figures;
    match i
    case AccreditedWithinRegister =>
      AccreditedVoters in m && RegisteredVoters in m && m[AccreditedVoters] > m[RegisteredVoters]
    case PartySumIsValid =>
      sheet.parties != map[] && VotesCast in m && PartyTotal(sheet.parties) != m[VotesCast]
    case UsedIsSpoiledRejectedValid =>
      && UsedBallotPapers in m
      && (SpoiledBallotPapers in m || InvalidVotes in m || VotesCast in m)
      && m[UsedBallotPapers] != UsedParts(sheet)
    case IssuedIsUsedUnused =>
      && BallotPapersIssued in m
      && (UsedBallotPapers in m || UnusedBallotPapers in m)
      && m[BallotPapersIssued] != IssuedParts(sheet)
    case AccreditedIsUsed =>
      AccreditedVoters in m && UsedBallotPapers in m && m[AccreditedVoters] != m[UsedBallotPapers]
  }

  ghost function DiffOf(sheet: Sheet, i: Identity): Diff {
    var f := (x: Figure) => FigureAt(sheet.figures, x);
    match i
    case AccreditedWithinRegister =>
      Diff(FigureField(AccreditedVoters), f(AccreditedVoters), f(RegisteredVoters),
           AccreditedExceedRegister(f(AccreditedVoters), f(RegisteredVoters)))
    case PartySumIsValid =>
      Diff(FigureField(VotesCast), f(VotesCast), PartyTotal(sheet.parties),
           PartyScoresVersusValid(PartyTotal(sheet.parties), f(VotesCast)))
    case UsedIsSpoiledRejectedValid =>
      Diff(FigureField(UsedBallotPapers), f(UsedBallotPapers), UsedParts(sheet),
           UsedVersusParts(f(UsedBallotPapers), UsedParts(sheet)))
    case IssuedIsUsedUnused =>
      Diff(FigureField(BallotPapersIssued), f(BallotPapersIssued), IssuedParts(sheet),
           IssuedVersusParts(f(BallotPapersIssued), IssuedParts(sheet)))
    case AccreditedIsUsed =>
      Diff(FigureField(AccreditedVoters), f(AccreditedVoters), f(UsedBallotPapers),
           AccreditedVersusUsed(f(AccreditedVoters), f(UsedBallotPapers)))
  }

  function FlagOf(i: Identity): Flag {
    match i
    case AccreditedWithinRegister => AccreditedGtRegistered
    case PartySumIsValid => PartySumNeValid
    case UsedIsSpoiledRejectedValid => UsedNeSpoiledRejectedValid
    case IssuedIsUsedUnused => IssuedNeUsedUnused
    case AccreditedIsUsed => AccreditedNeUsed
  }

  /** The identities among the first `n` that fail, in the order the program checks them. */
  ghost function Failing(sheet: Sheet, n: nat): (r: seq<Identity>)
    requires n <= |IDENTITIES|
    ensures forall i :: i in r <==> i in IDENTITIES[..n] && Fails(sheet, i)
  {
    if n == 0 then [] else
      Failing(sheet, n - 1) + if Fails(sheet, IDENTITIES[n - 1]) then [IDENTITIES[n - 1]] else []
  }

  lemma {:induction false} FailingDistinct(sheet: Sheet, n: nat)
    requires n <= |IDENTITIES|
    ensures Distinct(Failing(sheet, n))
  {
    if n > 0 {
      FailingDistinct(sheet, n - 1);
      assert IDENTITIES[n - 1] !in IDENTITIES[..n - 1];
    }
  }

  ghost function DiffsOf(sheet: Sheet, ids: seq<Identity>): seq<Diff> {
    seq(|ids|, i requires 0 <= i < |ids| => DiffOf(sheet, ids[i]))
  }

  function FlagsOf(ids: seq<Identity>): seq<Flag> {
    seq(|ids|, i requires 0 <= i < |ids| => FlagOf(ids[i]))
  }

  /** The first two messages, joined into the suggested reason. */
  function RejectReason(diffs: seq<Diff>): Option<seq<Message>> {
    if |diffs| == 0 then None
    else if |diffs| == 1 then Some([diffs[0].message])
    else Some([diffs[0].message, diffs[1].message])
  }

  ghost predicate Clean(sheet: Sheet) {
    forall i :: !Fails(sheet, i)
  }

  ghost function ArithmeticReport(sheet: Sheet, photoCount: nat): Report {
    if !HasAnyFigures(sheet) then
      Report(Pending, CheckPhoto, Arithmetic, None, [FiguresIncomplete], [], None, photoCount, None, map[])
    else
      var failing := Failing(sheet, |IDENTITIES|);
      var diffs := DiffsOf(sheet, failing);
      Report(if failing == [] then Match else Mismatch, if failing == [] then Approve else Return,
             Arithmetic, Some(1.0), FlagsOf(failing), diffs, RejectReason(diffs), photoCount, None, map[])
  }

  lemma AllFailing(sheet: Sheet)
    ensures forall i :: i in Failing(sheet, |IDENTITIES|) <==> Fails(sheet, i)
    ensures Failing(sheet, |IDENTITIES|) == [] <==> Clean(sheet)
  {
    var ids := Failing(sheet, |IDENTITIES|);
    assert IDENTITIES[..|IDENTITIES|] == IDENTITIES;
    forall i ensures i in ids <==> Fails(sheet, i) {
      EveryIdentity(i);
    }
    if ids != [] {
      assert ids[0] in ids;
    }
  }

  lemma FlagsOfMembers(ids: seq<Identity>)
    ensures forall i :: FlagOf(i) in FlagsOf(ids) <==> i in ids
    ensures OcrPending !in FlagsOf(ids)
  {
    var flags := FlagsOf(ids);
    forall i | i in ids ensures FlagOf(i) in flags {
      var k :| 0 <= k < |ids| && ids[k] == i;
      assert flags[k] == FlagOf(i);
    }
  }

  lemma FailsNeedsFigures(sheet: Sheet)
    requires !HasAnyFigures(sheet)
    ensures Clean(sheet)
  {
  }

  /** The arithmetic verdict is RETURN exactly when some identity fails, and then it says why. */
  lemma ArithmeticVerdict(sheet: Sheet, photoCount: nat)
    ensures var r := ArithmeticReport(sheet, photoCount);
      && (r.recommendation == Return <==> !Clean(sheet))
      && (r.recommendation == Return <==> r.diffs != [])
      && (r.recommendation == Return <==> r.rejectReason.Some?)
      && (r.recommendation == Approve <==> HasAnyFigures(sheet) && Clean(sheet))
      && (forall i :: Fails(sheet, i) <==> FlagOf(i) in r.flags)
      && OcrPending !in r.flags
  {
    AllFailing(sheet);
    if HasAnyFigures(sheet) {
      FlagsOfMembers(Failing(sheet, |IDENTITIES|));
    } else {
      FailsNeedsFigures(sheet);
    }
  }

  /** Left side minus right side of an identity, with null read as zero. */
  ghost function Shortfall(sheet: Sheet, i: Identity): int {
    var f := (x: Figure) => FigureAt(sheet.figures, x);
    match i
    case AccreditedWithinRegister => f(AccreditedVoters) - f(RegisteredVoters)
    case PartySumIsValid => PartyTotal(sheet.parties) - f(VotesCast)
    case UsedIsSpoiledRejectedValid => f(UsedBallotPapers) - (f(SpoiledBallotPapers) + f(InvalidVotes) + f(VotesCast))
    case IssuedIsUsedUnused => f(BallotPapersIssued) - (f(UsedBallotPapers) + f(UnusedBallotPapers))
    case AccreditedIsUsed => f(AccreditedVoters) - f(UsedBallotPapers)
  }

  /** The figures that stand alone on one side of an identity. */
  function LeftOf(i: Identity): Figure {
    match i
    case AccreditedWithinRegister => AccreditedVoters
    case PartySumIsValid => VotesCast
    case UsedIsSpoiledRejectedValid => UsedBallotPapers
    case IssuedIsUsedUnused => BallotPapersIssued
    case AccreditedIsUsed => AccreditedVoters
  }

  /** The figures on the other side; the party scores have a record of their own. */
  function RightOf(i: Identity): set<Figure> {
    match i
    case AccreditedWithinRegister => {RegisteredVoters}
    case PartySumIsValid => {}
    case UsedIsSpoiledRejectedValid => {SpoiledBallotPapers, InvalidVotes, VotesCast}
    case IssuedIsUsedUnused => {UsedBallotPapers, UnusedBallotPapers}
    case AccreditedIsUsed => {UsedBallotPapers}
  }

  /** Something was typed on each side. */
  ghost predicate BothSidesTyped(sheet: Sheet, i: Identity) {
    && LeftOf(i) in sheet.figures
    && ((exists f :: f in RightOf(i) && f in sheet.figures) || (i == PartySumIsValid && sheet.parties != map[]))
  }

  /**
   When an identity fails, on any sheet: something is typed on both sides, and with null as 0 they
   differ (or the accredited voters exceed the register).
   */
  lemma FailsExactly(sheet: Sheet, i: Identity)
    ensures Fails(sheet, i) <==>
      && BothSidesTyped(sheet, i)
      && (if i == AccreditedWithinRegister then Shortfall(sheet, i) > 0 else Shortfall(sheet, i) != 0)
  {
    match i
    case UsedIsSpoiledRejectedValid =>
      assert SpoiledBallotPapers in RightOf(i) && InvalidVotes in RightOf(i) && VotesCast in RightOf(i);
    case IssuedIsUsedUnused => assert UsedBallotPapers in RightOf(i) && UnusedBallotPapers in RightOf(i);
    case AccreditedWithinRegister => assert RegisteredVoters in RightOf(i);
    case AccreditedIsUsed => assert UsedBallotPapers in RightOf(i);
    case PartySumIsValid =>
  }

  /** Typing a 0 for a missing part changes nothing about an identity once another part of that side is typed. */
  lemma ZeroForMissingPart(sheet: Sheet, i: Identity, f: Figure, other: Figure)
    requires f !in sheet.figures && f in RightOf(i) && other in RightOf(i) && other in sheet.figures
    ensures Fails(sheet.(figures := sheet.figures[f := 0]), i) <==> Fails(sheet, i)
  {
    hide Fails;
    FailsExactly(sheet, i);
    FailsExactly(sheet.(figures := sheet.figures[f := 0]), i);
  }

  /** So the verdict is the same with a 0 for missing spoiled, rejected or unused ballots. */
  lemma ZeroKeepsVerdict(sheet: Sheet, photoCount: nat, f: Figure, i: Identity, other: Figure)
    requires f in {SpoiledBallotPapers, InvalidVotes, UnusedBallotPapers} && f !in sheet.figures
    requires f in RightOf(i) && other in RightOf(i) && other in sheet.figures
    ensures var zero := sheet.(figures := sheet.figures[f := 0]);
      ArithmeticReport(zero, photoCount).recommendation == ArithmeticReport(sheet, photoCount).recommendation
  {
    hide ArithmeticReport, Fails;
    var zero := sheet.(figures := sheet.figures[f := 0]);
    forall j ensures Fails(zero, j) <==> Fails(sheet, j) {
      ZeroInIdentity(sheet, f, i, other, j);
    }
    ArithmeticVerdict(sheet, photoCount);
    ArithmeticVerdict(zero, photoCount);
    assert Clean(zero) <==> Clean(sheet);
    TypedFigure(zero, f);
    TypedFigure(sheet, other);
    VerdictIsThreefold(sheet, photoCount);
    VerdictIsThreefold(zero, photoCount);
  }

  lemma ZeroInIdentity(sheet: Sheet, f: Figure, i: Identity, other: Figure, j: Identity)
    requires f in {SpoiledBallotPapers, InvalidVotes, UnusedBallotPapers} && f !in sheet.figures
    requires f in RightOf(i) && other in RightOf(i) && other in sheet.figures
    ensures Fails(sheet.(figures := sheet.figures[f := 0]), j) <==> Fails(sheet, j)
  {
    if j == i {
      ZeroForMissingPart(sheet, i, f, other);
    }
  }

  lemma TypedFigure(sheet: Sheet, f: Figure)
    requires f in sheet.figures
    ensures HasAnyFigures(sheet)
  {
  }

  /** Nothing typed is to be checked by photo; otherwise the sheet is returned or approved. */
  lemma VerdictIsThreefold(sheet: Sheet, photoCount: nat)
    ensures ArithmeticReport(sheet, photoCount).recommendation ==
      if sheet.figures == map[] && sheet.parties == map[] then CheckPhoto
      else if Clean(sheet) then Approve else Return
  {
    ArithmeticVerdict(sheet, photoCount);
  }

  /** Used ballots that do not match the only part typed are found. */
  lemma PartialSheetIsReturned(photoCount: nat)
    ensures var sheet := Sheet(map[UsedBallotPapers := 10, VotesCast := 5], map[]);
      ArithmeticReport(sheet, photoCount).recommendation == Return
  {
    hide ArithmeticReport, Fails;
    var sheet := Sheet(map[UsedBallotPapers := 10, VotesCast := 5], map[]);
    assert VotesCast in RightOf(UsedIsSpoiledRejectedValid) && VotesCast in sheet.figures;
    FailsExactly(sheet, UsedIsSpoiledRejectedValid);
    ArithmeticVerdict(sheet, photoCount);
  }

  ghost predicate Explains(d: Diff, sheet: Sheet, i: Identity) {
    && LeftOf(i) in sheet.figures
    && d.field == FigureField(LeftOf(i)) && d.typed == sheet.figures[LeftOf(i)]
    && d.typed - d.expected == (if i == PartySumIsValid then -Shortfall(sheet, i) else Shortfall(sheet, i))
    && (match i
        case AccreditedWithinRegister => d.message == AccreditedExceedRegister(d.typed, d.expected)
        case PartySumIsValid => d.message == PartyScoresVersusValid(d.expected, d.typed)
        case UsedIsSpoiledRejectedValid => d.message == UsedVersusParts(d.typed, d.expected)
        case IssuedIsUsedUnused => d.message == IssuedVersusParts(d.typed, d.expected)
        case AccreditedIsUsed => d.message == AccreditedVersusUsed(d.typed, d.expected))
  }

  /**
   What a report tells the officer: a diff for each failing identity, at the figure that stands alone,
   with the number typed there, and off by exactly the shortfall.
   */
  lemma DiffsNameTypedNumbers(sheet: Sheet, photoCount: nat, i: Identity)
    requires Fails(sheet, i)
    ensures exists d :: d in ArithmeticReport(sheet, photoCount).diffs && Explains(d, sheet, i)
  {
    FailsExactly(sheet, i);
    AllFailing(sheet);
    TypedFigure(sheet, LeftOf(i));
    var ids := Failing(sheet, |IDENTITIES|);
    var k :| 0 <= k < |ids| && ids[k] == i;
    assert DiffsOf(sheet, ids)[k] == DiffOf(sheet, i);
    assert Explains(DiffOf(sheet, i), sheet, i);
    assert DiffOf(sheet, i) in ArithmeticReport(sheet, photoCount).diffs;
  }

  lemma IncompleteFlag(sheet: Sheet, photoCount: nat)
    ensures FiguresIncomplete in ArithmeticReport(sheet, photoCount).flags <==> !HasAnyFigures(sheet)
  {
  }

  /** Each flag of a report in numbers. */
  lemma FlagsExactly(sheet: Sheet, photoCount: nat)
    ensures var flags, m := ArithmeticReport(sheet, photoCount).flags, sheet.figures;
      && (FiguresIncomplete in flags <==> m == map[] && sheet.parties == map[])
      && (AccreditedGtRegistered in flags <==>
            AccreditedVoters in m && RegisteredVoters in m && m[AccreditedVoters] > m[RegisteredVoters])
      && (PartySumNeValid in flags <==> Fails(sheet, PartySumIsValid))
      && (UsedNeSpoiledRejectedValid in flags <==> Fails(sheet, UsedIsSpoiledRejectedValid))
      && (IssuedNeUsedUnused in flags <==> Fails(sheet, IssuedIsUsedUnused))
      && (AccreditedNeUsed in flags <==>
            AccreditedVoters in m && UsedBallotPapers in m && m[AccreditedVoters] != m[UsedBallotPapers])
  {
    hide ArithmeticReport, PartyTotal;
    ArithmeticVerdict(sheet, photoCount);
    IncompleteFlag(sheet, photoCount);
    assert FlagOf(PartySumIsValid) == PartySumNeValid && FlagOf(AccreditedIsUsed) == AccreditedNeUsed;
    assert FlagOf(UsedIsSpoiledRejectedValid) == UsedNeSpoiledRejectedValid;
    assert FlagOf(IssuedIsUsedUnused) == IssuedNeUsedUnused;
    assert FlagOf(AccreditedWithinRegister) == AccreditedGtRegistered;
  }

  /** What else a report carries: an arithmetic check is sure of itself once something was typed. */
  lemma ReportHeader(sheet: Sheet, photoCount: nat)
    ensures var r := ArithmeticReport(sheet, photoCount);
      && r.engine == Arithmetic && r.photoCount == photoCount && r.ocrError == None && r.ocrFields == map[]
      && r.confidence == (if HasAnyFigures(sheet) then Some(1.0) else None)
      && (r.status == match r.recommendation case Approve => Match case Return => Mismatch case CheckPhoto => Pending)
  {
  }

  /** The suggested reason is made of the first two messages. */
  lemma ReasonIsFirstMessages(diffs: seq<Diff>)
    ensures diffs == [] <==> RejectReason(diffs).None?
    ensures diffs != [] ==>
      var reason := RejectReason(diffs).value;
      && |reason| == (if |diffs| == 1 then 1 else 2)
      && (forall k :: 0 <= k < |reason| ==> reason[k] == diffs[k].message)
  {
  }

  method SumPartyVotes(parties: map<Party, int>) returns (r: Option<int>)
    ensures r == PartyVotesSum(parties)
  {
    var sum, any := 0, false;
    var left := parties.Keys;
    while left != {}
      invariant left <= parties.Keys
      invariant sum + SetSum(left, (p: Party) => At(parties, p)) == PartyTotal(parties)
      invariant any <==> left != parties.Keys
      decreases left
    {
      var p :| p in left;
      SetSumTake(left, (q: Party) => At(parties, q), p);
      sum, any, left := sum + parties[p], true, left - {p};
    }
    return if any then Some(sum) else None;
  }

  /** One check of the program: does the identity fail, and what to report then. */
  method CheckIdentity(sheet: Sheet, partySum: Option<int>, i: Identity) returns (fails: bool, diff: Diff)
    requires partySum == PartyVotesSum(sheet.parties)
    ensures fails <==> Fails(sheet, i)
    ensures fails <==>
      && BothSidesTyped(sheet, i)
      && (if i == AccreditedWithinRegister then Shortfall(sheet, i) > 0 else Shortfall(sheet, i) != 0)
    ensures fails ==> diff == DiffOf(sheet, i) && Explains(diff, sheet, i)
  {
    FailsExactly(sheet, i);
    var m := sheet.figures;
    var registered, accredited := FigureAt(m, RegisteredVoters), FigureAt(m, AccreditedVoters);
    var issued, valid, used := FigureAt(m, BallotPapersIssued), FigureAt(m, VotesCast), FigureAt(m, UsedBallotPapers);
    match i
    case AccreditedWithinRegister =>
      fails := AccreditedVoters in m && RegisteredVoters in m && accredited > registered;
      diff := Diff(FigureField(AccreditedVoters), accredited, registered,
                   AccreditedExceedRegister(accredited, registered));
    case PartySumIsValid =>
      var scores := if partySum.Some? then partySum.value else 0;
      fails := partySum.Some? && VotesCast in m && scores != valid;
      diff := Diff(FigureField(VotesCast), valid, scores, PartyScoresVersusValid(scores, valid));
    case UsedIsSpoiledRejectedValid =>
      var parts := UsedParts(sheet);
      fails := && UsedBallotPapers in m
               && (SpoiledBallotPapers in m || InvalidVotes in m || VotesCast in m)
               && used != parts;
      diff := Diff(FigureField(UsedBallotPapers), used, parts, UsedVersusParts(used, parts));
    case IssuedIsUsedUnused =>
      var parts := IssuedParts(sheet);
      fails := BallotPapersIssued in m && (UsedBallotPapers in m || UnusedBallotPapers in m) && issued != parts;
      diff := Diff(FigureField(BallotPapersIssued), issued, parts, IssuedVersusParts(issued, parts));
    case AccreditedIsUsed =>
      fails := AccreditedVoters in m && UsedBallotPapers in m && accredited != used;
      diff := Diff(FigureField(AccreditedVoters), accredited, used, AccreditedVersusUsed(accredited, used));
  }

  method CheckIdentities(sheet: Sheet, partySum: Option<int>) returns (diffs: seq<Diff>, flags: seq<Flag>)
    requires partySum == PartyVotesSum(sheet.parties)
    ensures diffs == DiffsOf(sheet, Failing(sheet, |IDENTITIES|))
    ensures flags == FlagsOf(Failing(sheet, |IDENTITIES|))
  {
    hide Fails, DiffOf, FlagOf;
    diffs, flags := [], [];
    for n := 0 to |IDENTITIES|
      invariant diffs == DiffsOf(sheet, Failing(sheet, n))
      invariant flags == FlagsOf(Failing(sheet, n))
    {
      var fails, diff := CheckIdentity(sheet, partySum, IDENTITIES[n]);
      if fails {
        diffs, flags := diffs + [diff], flags + [FlagOf(IDENTITIES[n])];
      }
    }
  }

  method ArithmeticVerification(sheet: Sheet, photoCount: nat) returns (r: Report)
    ensures r == ArithmeticReport(sheet, photoCount)
  {
    var partySum := SumPartyVotes(sheet.parties);
    if sheet.figures == map[] && partySum.None? {
      return Report(Pending, CheckPhoto, Arithmetic, None, [FiguresIncomplete], [], None, photoCount, None, map[]);
    }
    var diffs, flags := CheckIdentities(sheet, partySum);
    var mismatch := |diffs| > 0;
    r := Report(if mismatch then Mismatch else Match, if mismatch then Return else Approve,
                Arithmetic, Some(1.0), flags, diffs, RejectReason(diffs), photoCount, None, map[]);
  }

  /** `ocrVerificationWrite`: what saving, attaching and submitting store beside a PU result. */
  ghost function WrittenReport(sheet: Sheet, photoCount: nat, awaitingOcr: bool): Report {
    var r := ArithmeticReport(sheet, photoCount);
    if awaitingOcr && photoCount > 0 && r.recommendation != Return
    then r.(status := Pending, recommendation := CheckPhoto, flags := r.flags + [OcrPending])
    else r
  }

  method OcrVerificationWrite(sheet: Sheet, photoCount: nat, awaitingOcr: bool) returns (r: Report)
    ensures r == WrittenReport(sheet, photoCount, awaitingOcr)
    ensures r.recommendation == Return <==> !Clean(sheet)
    ensures awaitingOcr && photoCount > 0 ==> r.recommendation != Approve
  {
    ArithmeticVerdict(sheet, photoCount);
    r := ArithmeticVerification(sheet, photoCount);
    if awaitingOcr && photoCount > 0 && r.recommendation != Return {
      r := r.(status := Pending, recommendation := CheckPhoto, flags := r.flags + [OcrPending]);
    }
  }

  /** `resolveOcrVerification`: the stored report, else one computed from the figures. */
  ghost function ResolvedReport(sheet: Sheet, photoCount: nat, stored: Option<Report>): Option<Report> {
    if stored.Some? then stored
    else if !HasAnyFigures(sheet) then None
    else Some(ArithmeticReport(sheet, photoCount))
  }

  method ResolveOcrVerification(sheet: Sheet, photoCount: nat, stored: Option<Report>) returns (r: Option<Report>)
    ensures r == ResolvedReport(sheet, photoCount, stored)
    ensures stored.Some? ==> r == stored
    ensures r.None? <==> stored.None? && !HasAnyFigures(sheet)
    ensures stored.None? && r.Some? ==> r.value.recommendation == if Clean(sheet) then Approve else Return
  {
    ArithmeticVerdict(sheet, photoCount);
    if stored.Some? {
      return stored;
    }
    var partySum := SumPartyVotes(sheet.parties);
    if sheet.figures == map[] && partySum.None? {
      return None;
    }
    var computed := ArithmeticVerification(sheet, photoCount);
    return Some(computed);
  }

  // Counting recommendations.

  /** What a polling unit's result carries for its verification. */
  datatype Verifiable = Verifiable(sheet: Sheet, photoCount: nat, stored: Option<Report>)

  datatype VerificationCounts = VerificationCounts(matched: nat, flagged: nat, checkPhoto: nat, pending: nat)

  ghost function Advice(v: Verifiable): Option<Recommendation> {
    var r := ResolvedReport(v.sheet, v.photoCount, v.stored);
    if r.Some? then Some(r.value.recommendation) else None
  }

  ghost function Advised(advice: Option<Recommendation>): Verifiable -> bool {
    v => Advice(v) == advice
  }

  lemma AdvisedStep(vs: seq<Verifiable>, i: nat, advice: Option<Recommendation>)
    requires i < |vs|
    ensures Count(vs[..i + 1], Advised(advice))
         == Count(vs[..i], Advised(advice)) + if Advice(vs[i]) == advice then 1 else 0
  {
    FilterStep(vs, i, Advised(advice));
  }

  /** `countPuVerifications`: one counter for each recommendation, and one for results without any. */
  method CountPuVerifications(vs: seq<Verifiable>) returns (c: VerificationCounts)
    ensures c.matched == Count(vs, Advised(Some(Approve)))
    ensures c.flagged == Count(vs, Advised(Some(Return)))
    ensures c.checkPhoto == Count(vs, Advised(Some(CheckPhoto)))
    ensures c.pending == Count(vs, Advised(None))
    ensures c.matched + c.flagged + c.checkPhoto + c.pending == |vs|
  {
    hide ResolvedReport;
    c := VerificationCounts(0, 0, 0, 0);
    for i := 0 to |vs|
      invariant c.matched == Count(vs[..i], Advised(Some(Approve)))
      invariant c.flagged == Count(vs[..i], Advised(Some(Return)))
      invariant c.checkPhoto == Count(vs[..i], Advised(Some(CheckPhoto)))
      invariant c.pending == Count(vs[..i], Advised(None))
      invariant c.matched + c.flagged + c.checkPhoto + c.pending == i
    {
      AdvisedStep(vs, i, Some(Approve));
      AdvisedStep(vs, i, Some(Return));
      AdvisedStep(vs, i, Some(CheckPhoto));
      AdvisedStep(vs, i, None);
      var verification := ResolveOcrVerification(vs[i].sheet, vs[i].photoCount, vs[i].stored);
      match verification
      case None => c := c.(pending := c.pending + 1);
      case Some(r) =>
        match r.recommendation
        case Return => c := c.(flagged := c.flagged + 1);
        case CheckPhoto => c := c.(checkPhoto := c.checkPhoto + 1);
        case Approve => c := c.(matched := c.matched + 1);
    }
    assert vs[..|vs|] == vs;
  }
}
