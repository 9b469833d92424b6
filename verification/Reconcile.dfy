/**
 Completing the numbers read from a photo and rating the reading
 (src/modules/collation/ocr-ec8a-parse.ts:102, 373-397, 417-441).
 */
module Reconcile {
  import opened Collections
  import opened Sheets
  import opened Verification
  import opened Vision

  type Fields = map<Figure, nat>

  const MIN_AUTO_FILL_CONFIDENCE: real := 0.75

  /** The valid-vote count that survives: a party sum of ten or more replaces none or a tiny one. */
  ghost function ValidAfter(fields: Fields, parties: map<Party, int>): Option<nat> {
    var sum := PartyVotesSum(parties);
    if sum.Some? && sum.value >= 10 && (VotesCast !in fields || fields[VotesCast] < 10) then Some(sum.value)
    else if VotesCast in fields then Some(fields[VotesCast])
    else None
  }

  /** The used-ballot count: as read, else from its parts, else the accredited voters. */
  ghost function UsedAfter(fields: Fields, parties: map<Party, int>): Option<nat> {
    var valid := ValidAfter(fields, parties);
    if UsedBallotPapers in fields then Some(fields[UsedBallotPapers])
    else if valid.Some? then
      Some(FigureAt(fields, SpoiledBallotPapers) + FigureAt(fields, InvalidVotes) + valid.value)
    else if AccreditedVoters in fields then Some(fields[AccreditedVoters])
    else None
  }

  ghost function IssuedAfter(fields: Fields, parties: map<Party, int>): Option<nat> {
    var used := UsedAfter(fields, parties);
    if BallotPapersIssued in fields then Some(fields[BallotPapersIssued])
    else if used.Some? && UnusedBallotPapers in fields then Some(used.value + fields[UnusedBallotPapers])
    else None
  }

  function With(fields: Fields, f: Figure, value: Option<nat>): Fields {
    if value.Some? then fields[f := value.value] else fields
  }

  ghost function Reconciled(fields: Fields, parties: map<Party, int>): Fields {
    With(With(With(fields,
      VotesCast, ValidAfter(fields, parties)),
      UsedBallotPapers, UsedAfter(fields, parties)),
      BallotPapersIssued, IssuedAfter(fields, parties))
  }

  method ReconcileExtract(read: Fields, parties: map<Party, int>) returns (fields: Fields)
    ensures fields == Reconciled(read, parties)
  {
    fields := read;
    var partySum := SumPartyVotes(parties);
    if partySum.Some? && partySum.value >= 10 {
      if VotesCast !in fields || fields[VotesCast] < 10 || fields[VotesCast] == partySum.value {
        fields := fields[VotesCast := partySum.value];
      }
    }
    var spoiled, rejected := FigureAt(fields, SpoiledBallotPapers), FigureAt(fields, InvalidVotes);
    if VotesCast in fields && UsedBallotPapers !in fields {
      fields := fields[UsedBallotPapers := spoiled + rejected + fields[VotesCast]];
    }
    if AccreditedVoters in fields && UsedBallotPapers !in fields {
      fields := fields[UsedBallotPapers := fields[AccreditedVoters]];
    }
    if BallotPapersIssued !in fields && UsedBallotPapers in fields && UnusedBallotPapers in fields {
      fields := fields[BallotPapersIssued := fields[UsedBallotPapers] + fields[UnusedBallotPapers]];
    }
  }

  /** Completing twice changes nothing more. */
  lemma ReconcileIdempotent(fields: Fields, parties: map<Party, int>)
    ensures Reconciled(Reconciled(fields, parties), parties) == Reconciled(fields, parties)
  {
    var once := Reconciled(fields, parties);
    assert ValidAfter(once, parties) == ValidAfter(fields, parties);
    assert UsedAfter(once, parties) == UsedAfter(fields, parties);
    assert IssuedAfter(once, parties) == IssuedAfter(fields, parties);
  }

  /** No number read is lost or changed, but for a valid-vote count below ten that the party sum replaces. */
  lemma ReconcileKeepsReadings(fields: Fields, parties: map<Party, int>, f: Figure)
    requires f in fields
    ensures var after := Reconciled(fields, parties);
      && f in after
      && (after[f] == fields[f] <==>
            !(f == VotesCast && fields[f] < 10 && PartyVotesSum(parties).Some? && PartyVotesSum(parties).value >= 10))
      && (after[f] != fields[f] ==> PartyVotesSum(parties) == Some(after[f] as int))
  {
  }

  /**
   What the completion writes where nothing was read: a party sum of at least 10 as valid votes, the
   used ballots from their parts or else from the accredited voters, the issued ballots as used plus
   unused; and nothing anywhere else.
   */
  lemma GapsAreFilled(fields: Fields, parties: map<Party, int>)
    ensures var after := Reconciled(fields, parties);
      && (VotesCast !in fields ==>
            (VotesCast in after <==> parties != map[] && PartyTotal(parties) >= 10)
            && (VotesCast in after ==> after[VotesCast] == PartyTotal(parties)))
      && (UsedBallotPapers !in fields && VotesCast in after ==>
            UsedBallotPapers in after
            && after[UsedBallotPapers]
               == FigureAt(fields, SpoiledBallotPapers) + FigureAt(fields, InvalidVotes) + after[VotesCast])
      && (UsedBallotPapers !in fields && VotesCast !in after ==>
            (UsedBallotPapers in after <==> AccreditedVoters in fields)
            && (UsedBallotPapers in after ==> after[UsedBallotPapers] == fields[AccreditedVoters]))
      && (BallotPapersIssued !in fields ==>
            (BallotPapersIssued in after <==> UsedBallotPapers in after && UnusedBallotPapers in fields)
            && (BallotPapersIssued in after ==>
                  after[BallotPapersIssued] == after[UsedBallotPapers] + fields[UnusedBallotPapers]))
      && (forall f :: f in after && f !in fields ==> f in {VotesCast, UsedBallotPapers, BallotPapersIssued})
  {
  }

  /** Either EC8A identity that the rating looks at. */
  ghost predicate IdentityHolds(fields: Fields, parties: map<Party, int>) {
    || (VotesCast in fields && PartyVotesSum(parties) == Some(fields[VotesCast] as int))
    || (&& UsedBallotPapers in fields && SpoiledBallotPapers in fields
        && InvalidVotes in fields && VotesCast in fields
        && fields[UsedBallotPapers] == fields[SpoiledBallotPapers] + fields[InvalidVotes] + fields[VotesCast])
  }

  method FinishExtract(fields: Fields, codes: seq<Party>, parties: map<Party, int>) returns (r: VisionExtract)
    ensures r.fields == fields && r.codes == codes && r.parties == parties && r.error == None
    ensures r.confidence.Some? <==> fields != map[] || parties != map[]
    ensures r.confidence.Some? && r.confidence.value >= MIN_AUTO_FILL_CONFIDENCE <==> IdentityHolds(fields, parties)
    ensures IdentityHolds(fields, parties) ==> r.confidence == Some(1.0)
    ensures r.confidence.Some? && !IdentityHolds(fields, parties) ==>
      var share := (|fields| + |parties|) as real / 16.0;
      r.confidence.value <= 0.65 && r.confidence.value <= share
      && (r.confidence.value == 0.65 || r.confidence.value == share)
    ensures r.confidence == Some(1.0) <==>
      var sheet := Sheet(fields, parties);
      || (VotesCast in fields && parties != map[] && Shortfall(sheet, PartySumIsValid) == 0)
      || ({UsedBallotPapers, SpoiledBallotPapers, InvalidVotes, VotesCast} <= fields.Keys
          && Shortfall(sheet, UsedIsSpoiledRejectedValid) == 0)
    ensures r.unreadable <==>
      |fields| + |parties| == 0 || (!IdentityHolds(fields, parties) && |fields| + |parties| <= 7)
  {
    var extracted := |fields| + |parties|;
    var partySum := SumPartyVotes(parties);
    var identitiesHold :=
      || (partySum.Some? && VotesCast in fields && partySum.value == fields[VotesCast])
      || (&& UsedBallotPapers in fields && SpoiledBallotPapers in fields
          && InvalidVotes in fields && VotesCast in fields
          && fields[UsedBallotPapers] == fields[SpoiledBallotPapers] + fields[InvalidVotes] + fields[VotesCast]);
    var confidence: Option<real> :=
      if extracted == 0 then None
      else if identitiesHold then Some(1.0)
      else Some(if 0.65 <= extracted as real / 16.0 then 0.65 else extracted as real / 16.0);
    assert identitiesHold ==> VotesCast in fields;
    assert extracted == 0 <==> fields == map[] && parties == map[];
    r := VisionExtract(fields, codes, parties, confidence,
                       extracted == 0 || (confidence.Some? && confidence.value < 0.45), None);
  }

  /**
   What a full rating after completion says about the raw reading. A missing used-ballot count can
   never spoil it: the completion writes the very sum the rating then checks.
   */
  lemma FullRatingExactly(fields: Fields, parties: map<Party, int>)
    ensures var valid := ValidAfter(fields, parties);
      IdentityHolds(Reconciled(fields, parties), parties) <==>
        && valid.Some?
        && (|| PartyVotesSum(parties) == Some(valid.value as int)
            || (&& SpoiledBallotPapers in fields && InvalidVotes in fields
                && (UsedBallotPapers in fields ==>
                      fields[UsedBallotPapers] == fields[SpoiledBallotPapers] + fields[InvalidVotes] + valid.value)))
  {
    var after := Reconciled(fields, parties);
    assert VotesCast in after <==> ValidAfter(fields, parties).Some?;
  }
}
