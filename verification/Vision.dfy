/**
 What a photo scan yields, how it is completed, and how it is merged with the typed sheet
 (src/modules/collation/ocr-ec8a-parse.ts:74-80, 373-441, 473-579).
 */
module Vision {
  import opened Collections
  import opened Sheets
  import opened Verification

  /** `codes` is the order in which the program enumerates the party record. */
  datatype VisionExtract = VisionExtract(
    fields: map<Figure, nat>,
    codes: seq<Party>,
    parties: map<Party, int>,
    confidence: Option<real>,
    unreadable: bool,
    error: Option<string>)
  {
    ghost predicate Valid() {
      && Distinct(codes)
      && (forall p :: p in codes <==> p in parties)
    }

    predicate Failed() {
      unreadable || (error.Some? && error.value != "")
    }
  }

  // Merging with the arithmetic report.

  predicate FieldDiffers(typed: Sheet, vision: VisionExtract, f: Figure) {
    f in vision.fields && f in typed.figures && vision.fields[f] != typed.figures[f]
  }

  predicate PartyDiffers(typed: Sheet, vision: VisionExtract, p: Party) {
    p in vision.parties && p in typed.parties && vision.parties[p] != typed.parties[p]
  }

  ghost predicate PartySumDiffers(typed: Sheet, vision: VisionExtract) {
    vision.parties != map[] && VotesCast in typed.figures && PartyTotal(vision.parties) != typed.figures[VotesCast]
  }

  /** Some number read from the photo contradicts the typed sheet. */
  ghost predicate PhotoDisagrees(typed: Sheet, vision: VisionExtract) {
    || (exists f :: FieldDiffers(typed, vision, f))
    || (exists p :: PartyDiffers(typed, vision, p))
    || PartySumDiffers(typed, vision)
  }

  function FieldDiff(typed: Sheet, vision: VisionExtract, f: Figure): Diff {
    var t, o := FigureAt(typed.figures, f), FigureAt(vision.fields, f);
    Diff(FigureField(f), t, o, PhotoReadsField(f, t, o))
  }

  function PartyDiff(typed: Sheet, vision: VisionExtract, p: Party): Diff {
    var t, o := At(typed.parties, p), At(vision.parties, p);
    Diff(PartyField(p), t, o, PhotoReadsParty(p, t, o))
  }

  function FieldsDiffering(typed: Sheet, vision: VisionExtract): seq<Figure> {
    Filter(FIELD_ORDER, f => FieldDiffers(typed, vision, f))
  }

  function PartiesDiffering(typed: Sheet, vision: VisionExtract): seq<Party> {
    Filter(vision.codes, p => PartyDiffers(typed, vision, p))
  }

  function Map<A, B>(s: seq<A>, f: A -> B): (r: seq<B>)
    ensures |r| == |s| && forall i :: 0 <= i < |s| ==> r[i] == f(s[i])
  {
    seq(|s|, i requires 0 <= i < |s| => f(s[i]))
  }

  function FieldDiffs(typed: Sheet, vision: VisionExtract, fs: seq<Figure>): seq<Diff> {
    Map(fs, f => FieldDiff(typed, vision, f))
  }

  function FieldFlags(fs: seq<Figure>): seq<Flag> {
    Map(fs, f => OcrFieldMismatch(f))
  }

  function PartyDiffs(typed: Sheet, vision: VisionExtract, ps: seq<Party>): seq<Diff> {
    Map(ps, p => PartyDiff(typed, vision, p))
  }

  function PartyFlags(ps: seq<Party>): seq<Flag> {
    Map(ps, p => OcrPartyMismatch(p))
  }

  ghost function SumDiff(typed: Sheet, vision: VisionExtract): seq<Diff> {
    if PartySumDiffers(typed, vision) && !FieldDiffers(typed, vision, VotesCast)
    then
      var t, o := FigureAt(typed.figures, VotesCast) as int, PartyTotal(vision.parties);
      [Diff(FigureField(VotesCast), t, o, PhotoPartySum(t, o))]
    else []
  }

  /** The diffs the photo adds: fields, then parties, then the party sum. */
  ghost function PhotoDiffs(typed: Sheet, vision: VisionExtract): seq<Diff> {
    FieldDiffs(typed, vision, FieldsDiffering(typed, vision))
    + PartyDiffs(typed, vision, PartiesDiffering(typed, vision))
    + SumDiff(typed, vision)
  }

  ghost function PhotoFlags(typed: Sheet, vision: VisionExtract): seq<Flag> {
    FieldFlags(FieldsDiffering(typed, vision))
    + PartyFlags(PartiesDiffering(typed, vision))
    + if SumDiff(typed, vision) == [] then [] else [OcrPartySumNeValid]
  }

  predicate SameDiff(a: Diff, b: Diff) {
    a.field == b.field && a.message == b.message
  }

  /** Keeps a diff unless an earlier one has the same field and message. */
  function Dedupe(diffs: seq<Diff>): (r: seq<Diff>)
    ensures r == [] <==> diffs == []
  {
    if diffs == [] then []
    else
      var front, last := diffs[..|diffs| - 1], diffs[|diffs| - 1];
      Dedupe(front) + if exists i :: 0 <= i < |front| && SameDiff(front[i], last) then [] else [last]
  }

  ghost predicate NoRepeats(diffs: seq<Diff>) {
    forall i, j :: 0 <= i < j < |diffs| ==> !SameDiff(diffs[i], diffs[j])
  }

  lemma {:induction false} DedupeKeeps(diffs: seq<Diff>)
    requires NoRepeats(diffs)
    ensures Dedupe(diffs) == diffs
  {
    hide SameDiff;
    if diffs != [] {
      var n := |diffs| - 1;
      DedupeKeeps(diffs[..n]);
      assert forall i :: 0 <= i < n ==> !SameDiff(diffs[..n][i], diffs[n]);
      assert diffs == diffs[..n] + [diffs[n]];
    }
  }

  function ReadFigures(fields: map<Figure, nat>): map<FieldName, int> {
    map f | f in fields :: FigureField(f) := fields[f]
  }

  function ReadParties(parties: map<Party, int>): map<FieldName, int> {
    map p | p in parties :: PartyField(p) := parties[p]
  }

  function OcrFields(vision: VisionExtract): map<FieldName, int> {
    ReadFigures(vision.fields) + ReadParties(vision.parties)
  }

  function WithoutPending(flags: seq<Flag>): seq<Flag> {
    Filter(flags, f => f != OcrPending)
  }

  /** The report on a readable photo, from the arithmetic report and what the photo adds. */
  function Combined(arithmetic: Report, photoDiffs: seq<Diff>, photoFlags: seq<Flag>, n: nat,
        vision: VisionExtract): Report {
    var diffs := Dedupe(arithmetic.diffs + photoDiffs);
    var returned := arithmetic.recommendation == Return || photoFlags != [];
    Report(if returned then Mismatch else Match, if returned then Return else Approve, Ocr, vision.confidence,
           WithoutPending(arithmetic.flags) + photoFlags, diffs, RejectReason(diffs), n, None, OcrFields(vision))
  }

  lemma CombinedVerdict(arithmetic: Report, photoDiffs: seq<Diff>, photoFlags: seq<Flag>, n: nat, vision: VisionExtract)
    requires OcrPending !in photoFlags && (photoFlags != [] <==> photoDiffs != [])
    ensures var r := Combined(arithmetic, photoDiffs, photoFlags, n, vision);
      var objected := arithmetic.recommendation == Return || photoDiffs != [];
      && (r.recommendation == if objected then Return else Approve)
      && (r.status == if objected then Mismatch else Match)
      && (r.diffs != [] <==> arithmetic.diffs != [] || photoDiffs != [])
      && (r.rejectReason.Some? <==> r.diffs != [])
      && OcrPending !in r.flags
  {
  }

  /** `mergeVisionWithArithmetic`. */
  ghost function MergedReport(typed: Sheet, photoCount: nat, vision: VisionExtract, arithmetic: Report): Report {
    if vision.Failed() then
      arithmetic.(
        engine := Ocr,
        status := if arithmetic.recommendation == Return then Mismatch else Unreadable,
        recommendation := if arithmetic.recommendation == Return then Return else CheckPhoto,
        confidence := vision.confidence,
        photoCount := photoCount,
        ocrError := if vision.error.Some? then vision.error else Some("Could not read digits from the EC8A photo"),
        ocrFields := OcrFields(vision),
        flags := WithoutPending(arithmetic.flags))
    else Combined(arithmetic, PhotoDiffs(typed, vision), PhotoFlags(typed, vision), photoCount, vision)
  }

  lemma DifferingMembers(typed: Sheet, vision: VisionExtract)
    requires vision.Valid()
    ensures FieldsDiffering(typed, vision) != [] <==> exists f :: FieldDiffers(typed, vision, f)
    ensures PartiesDiffering(typed, vision) != [] <==> exists p :: PartyDiffers(typed, vision, p)
  {
    FilterNone(FIELD_ORDER, f => FieldDiffers(typed, vision, f));
    FilterNone(vision.codes, p => PartyDiffers(typed, vision, p));
    forall f | FieldDiffers(typed, vision, f) ensures f in FIELD_ORDER {
      EveryFigure(f);
    }
  }

  lemma PhotoDiffsExact(typed: Sheet, vision: VisionExtract)
    requires vision.Valid()
    ensures PhotoDiffs(typed, vision) != [] <==> PhotoDisagrees(typed, vision)
    ensures PhotoFlags(typed, vision) != [] <==> PhotoDisagrees(typed, vision)
  {
    hide FieldsDiffering, PartiesDiffering, PartyDiffers;
    DifferingMembers(typed, vision);
    var fs, ps := FieldsDiffering(typed, vision), PartiesDiffering(typed, vision);
    assert |FieldDiffs(typed, vision, fs)| == |FieldFlags(fs)| == |fs|;
    assert |PartyDiffs(typed, vision, ps)| == |PartyFlags(ps)| == |ps|;
    assert FieldDiffers(typed, vision, VotesCast) ==> exists f :: FieldDiffers(typed, vision, f);
  }

  lemma PhotoFlagsNotPending(typed: Sheet, vision: VisionExtract)
    ensures OcrPending !in PhotoFlags(typed, vision)
  {
    assert OcrPending !in FieldFlags(FieldsDiffering(typed, vision));
    assert OcrPending !in PartyFlags(PartiesDiffering(typed, vision));
  }

  /** Which check wrote a message; diffs from different checks never repeat each other. */
  function Origin(m: Message): nat {
    match m
    case PhotoReadsField(_, _, _) => 1
    case PhotoReadsParty(_, _, _) => 2
    case PhotoPartySum(_, _) => 3
    case _ => 0
  }

  ghost predicate From(diffs: seq<Diff>, lo: nat, hi: nat) {
    forall i :: 0 <= i < |diffs| ==> lo <= Origin(diffs[i].message) <= hi
  }

  lemma NoRepeatsAppend(a: seq<Diff>, b: seq<Diff>, lo: nat, mid: nat, hi: nat)
    requires NoRepeats(a) && NoRepeats(b) && From(a, lo, mid) && From(b, mid + 1, hi) && lo <= mid <= hi
    ensures NoRepeats(a + b) && From(a + b, lo, hi)
  {
  }

  lemma FieldDiffsDistinct(typed: Sheet, vision: VisionExtract, fs: seq<Figure>)
    requires Distinct(fs)
    ensures NoRepeats(FieldDiffs(typed, vision, fs)) && From(FieldDiffs(typed, vision, fs), 1, 1)
  {
  }

  lemma PartyDiffsDistinct(typed: Sheet, vision: VisionExtract, ps: seq<Party>)
    requires Distinct(ps)
    ensures NoRepeats(PartyDiffs(typed, vision, ps)) && From(PartyDiffs(typed, vision, ps), 2, 2)
  {
  }

  lemma SumDiffDistinct(typed: Sheet, vision: VisionExtract)
    ensures NoRepeats(SumDiff(typed, vision)) && From(SumDiff(typed, vision), 3, 3)
  {
  }

  lemma DifferingDistinct(typed: Sheet, vision: VisionExtract)
    requires vision.Valid()
    ensures Distinct(FieldsDiffering(typed, vision)) && Distinct(PartiesDiffering(typed, vision))
  {
    assert Distinct(FIELD_ORDER);
    FilterDistinct(FIELD_ORDER, f => FieldDiffers(typed, vision, f));
    FilterDistinct(vision.codes, p => PartyDiffers(typed, vision, p));
  }

  lemma JoinedDistinct(a: seq<Diff>, b: seq<Diff>, c: seq<Diff>)
    requires NoRepeats(a) && NoRepeats(b) && NoRepeats(c) && From(a, 1, 1) && From(b, 2, 2) && From(c, 3, 3)
    ensures NoRepeats(a + b + c) && From(a + b + c, 1, 3)
  {
    NoRepeatsAppend(a, b, 1, 1, 2);
    NoRepeatsAppend(a + b, c, 1, 2, 3);
  }

  lemma {:induction false} PhotoDiffsDistinct(typed: Sheet, vision: VisionExtract)
    requires vision.Valid()
    ensures NoRepeats(PhotoDiffs(typed, vision)) && From(PhotoDiffs(typed, vision), 1, 3)
  {
    DifferingDistinct(typed, vision);
    var fs, ps := FieldsDiffering(typed, vision), PartiesDiffering(typed, vision);
    FieldDiffsDistinct(typed, vision, fs);
    PartyDiffsDistinct(typed, vision, ps);
    SumDiffDistinct(typed, vision);
    JoinedDistinct(FieldDiffs(typed, vision, fs), PartyDiffs(typed, vision, ps), SumDiff(typed, vision));
  }

  lemma ArithmeticDiffsDistinct(sheet: Sheet, ids: seq<Identity>)
    requires Distinct(ids)
    ensures NoRepeats(DiffsOf(sheet, ids)) && From(DiffsOf(sheet, ids), 0, 0)
  {
  }

  lemma ReportDiffsDistinct(typed: Sheet, n: nat)
    ensures NoRepeats(ArithmeticReport(typed, n).diffs) && From(ArithmeticReport(typed, n).diffs, 0, 0)
  {
    FailingDistinct(typed, |IDENTITIES|);
    ArithmeticDiffsDistinct(typed, Failing(typed, |IDENTITIES|));
  }

  /** Against an arithmetic report of the same sheet, deduplication never drops a diff. */
  lemma {:induction false} NothingDeduplicated(typed: Sheet, n: nat, vision: VisionExtract)
    requires vision.Valid()
    ensures var all := ArithmeticReport(typed, n).diffs + PhotoDiffs(typed, vision); Dedupe(all) == all
  {
    var a, b := ArithmeticReport(typed, n).diffs, PhotoDiffs(typed, vision);
    ReportDiffsDistinct(typed, n);
    PhotoDiffsDistinct(typed, vision);
    NoRepeatsAppend(a, b, 0, 0, 3);
    DedupeKeeps(a + b);
  }

  /** The photo's contribution to a report: nothing when the photo could not be read. */
  ghost predicate PhotoObjects(typed: Sheet, vision: VisionExtract) {
    !vision.Failed() && PhotoDisagrees(typed, vision)
  }

  lemma FailedMerge(typed: Sheet, n: nat, vision: VisionExtract, arithmetic: Report)
    requires vision.Failed()
    ensures var r := MergedReport(typed, n, vision, arithmetic);
      && (r.recommendation == if arithmetic.recommendation == Return then Return else CheckPhoto)
      && (r.status == if arithmetic.recommendation == Return then Mismatch else Unreadable)
      && r.diffs == arithmetic.diffs && r.rejectReason == arithmetic.rejectReason
      && OcrPending !in r.flags
  {
  }

  lemma {:induction false} ReadableMerge(typed: Sheet, n: nat, vision: VisionExtract, arithmetic: Report)
    requires vision.Valid() && !vision.Failed()
    ensures var r := MergedReport(typed, n, vision, arithmetic);
      var objected := arithmetic.recommendation == Return || PhotoDisagrees(typed, vision);
      && (r.recommendation == if objected then Return else Approve)
      && (r.status == if objected then Mismatch else Match)
      && (r.diffs != [] <==> arithmetic.diffs != [] || PhotoDisagrees(typed, vision))
      && (r.rejectReason.Some? <==> r.diffs != [])
      && OcrPending !in r.flags
  {
    PhotoDiffsExact(typed, vision);
    PhotoFlagsNotPending(typed, vision);
    CombinedVerdict(arithmetic, PhotoDiffs(typed, vision), PhotoFlags(typed, vision), n, vision);
  }

  /**
   The merged verdict is exact: RETURN if and only if an identity fails on the typed figures or the
   readable photo contradicts them, and exactly then there are diffs and a reason. A sheet is
   recommended for approval only with a readable photo.
   */
  lemma {:induction false} MergeIsExact(typed: Sheet, n: nat, vision: VisionExtract)
    requires vision.Valid()
    ensures var r := MergedReport(typed, n, vision, ArithmeticReport(typed, n));
      && (r.recommendation == Return <==> !Clean(typed) || PhotoObjects(typed, vision))
      && (r.recommendation == Return <==> r.diffs != [])
      && (r.recommendation == Return <==> r.rejectReason.Some?)
      && (r.recommendation == Approve <==> Clean(typed) && !vision.Failed() && !PhotoDisagrees(typed, vision))
      && (r.recommendation == Return <==> r.status == Mismatch)
      && OcrPending !in r.flags
  {
    ArithmeticVerdict(typed, n);
    if vision.Failed() {
      FailedMerge(typed, n, vision, ArithmeticReport(typed, n));
    } else {
      ReadableMerge(typed, n, vision, ArithmeticReport(typed, n));
    }
  }

  /** The disagreement in numbers: a field, a party or the party sum that both sides have and that differs. */
  lemma PhotoDisagreesExactly(typed: Sheet, vision: VisionExtract)
    ensures PhotoDisagrees(typed, vision) <==>
      || (exists f :: f in vision.fields && f in typed.figures && vision.fields[f] != typed.figures[f])
      || (exists p :: p in vision.parties && p in typed.parties && vision.parties[p] != typed.parties[p])
      || (vision.parties != map[] && VotesCast in typed.figures
          && PartyTotal(vision.parties) != typed.figures[VotesCast])
  {
    if exists f :: f in vision.fields && f in typed.figures && vision.fields[f] != typed.figures[f] {
      var f :| f in vision.fields && f in typed.figures && vision.fields[f] != typed.figures[f];
      assert FieldDiffers(typed, vision, f);
    }
    if exists p :: p in vision.parties && p in typed.parties && vision.parties[p] != typed.parties[p] {
      var p :| p in vision.parties && p in typed.parties && vision.parties[p] != typed.parties[p];
      assert PartyDiffers(typed, vision, p);
    }
    if PhotoDisagrees(typed, vision) && !PartySumDiffers(typed, vision) {
      if f :| FieldDiffers(typed, vision, f) {
        assert f in vision.fields && f in typed.figures && vision.fields[f] != typed.figures[f];
      } else {
        var p :| PartyDiffers(typed, vision, p);
        assert p in vision.parties && p in typed.parties && vision.parties[p] != typed.parties[p];
      }
    }
  }

  /** A photo counts as failed when it is unreadable or came with an error text. */
  lemma FailedExactly(vision: VisionExtract)
    ensures vision.Failed() <==> vision.unreadable || (vision.error.Some? && |vision.error.value| > 0)
  {
  }

  ghost predicate Says(d: Diff, field: FieldName, typed: int, read: int, message: Message) {
    d.field == field && d.typed == typed && d.expected == read && d.message == message
  }

  /** The officer sees each contradicted number with what was typed and what the photo reads. */
  lemma MergedDiffsNameBothNumbers(typed: Sheet, n: nat, vision: VisionExtract, f: Figure, p: Party)
    requires vision.Valid() && !vision.Failed()
    ensures var r := MergedReport(typed, n, vision, ArithmeticReport(typed, n));
      && (f in vision.fields && f in typed.figures && vision.fields[f] != typed.figures[f] ==>
            exists d :: d in r.diffs && Says(d, FigureField(f), typed.figures[f], vision.fields[f],
                                             PhotoReadsField(f, typed.figures[f], vision.fields[f])))
      && (p in vision.parties && p in typed.parties && vision.parties[p] != typed.parties[p] ==>
            exists d :: d in r.diffs && Says(d, PartyField(p), typed.parties[p], vision.parties[p],
                                             PhotoReadsParty(p, typed.parties[p], vision.parties[p])))
  {
    hide Dedupe, PhotoDiffs, PhotoFlags, RejectReason, ArithmeticReport;
    var all := ArithmeticReport(typed, n).diffs + PhotoDiffs(typed, vision);
    NothingDeduplicated(typed, n, vision);
    assert MergedReport(typed, n, vision, ArithmeticReport(typed, n)).diffs == all;
    if FieldDiffers(typed, vision, f) {
      DiffOfField(typed, vision, f);
      assert FieldDiff(typed, vision, f) in all;
      assert Says(FieldDiff(typed, vision, f), FigureField(f), typed.figures[f], vision.fields[f],
                  PhotoReadsField(f, typed.figures[f], vision.fields[f]));
    }
    if PartyDiffers(typed, vision, p) {
      DiffOfParty(typed, vision, p);
      assert PartyDiff(typed, vision, p) in all;
      assert Says(PartyDiff(typed, vision, p), PartyField(p), typed.parties[p], vision.parties[p],
                  PhotoReadsParty(p, typed.parties[p], vision.parties[p]));
    }
  }

  /** The party sum is compared only when the photo does not already contradict the valid votes themselves. */
  lemma PartySumNamed(typed: Sheet, n: nat, vision: VisionExtract)
    requires vision.Valid() && !vision.Failed() && VotesCast in typed.figures
    ensures var r, sum := MergedReport(typed, n, vision, ArithmeticReport(typed, n)), PartyTotal(vision.parties);
      var valid := typed.figures[VotesCast];
      var compared := vision.parties != map[] && sum != valid
                      && (VotesCast in vision.fields ==> vision.fields[VotesCast] == valid);
      && (OcrPartySumNeValid in r.flags <==> compared)
      && (compared ==> exists d :: d in r.diffs
                         && Says(d, FigureField(VotesCast), valid, sum, PhotoPartySum(valid, sum)))
  {
    hide Dedupe, FieldDiffs, PartyDiffs, FieldsDiffering, PartiesDiffering, RejectReason, ArithmeticReport;
    NothingDeduplicated(typed, n, vision);
    ArithmeticFlagsAreOwn(typed, n);
    var r := MergedReport(typed, n, vision, ArithmeticReport(typed, n));
    assert r.diffs == ArithmeticReport(typed, n).diffs + PhotoDiffs(typed, vision);
    if SumDiff(typed, vision) != [] {
      var d := SumDiff(typed, vision)[0];
      assert d in SumDiff(typed, vision) && d in PhotoDiffs(typed, vision) && d in r.diffs;
      var valid, sum := typed.figures[VotesCast], PartyTotal(vision.parties);
      assert Says(d, FigureField(VotesCast), valid, sum, PhotoPartySum(valid, sum));
    }
  }

  lemma ArithmeticFlagsAreOwn(typed: Sheet, n: nat)
    ensures OcrPartySumNeValid !in ArithmeticReport(typed, n).flags
    ensures forall f :: OcrFieldMismatch(f) !in ArithmeticReport(typed, n).flags
    ensures forall p :: OcrPartyMismatch(p) !in ArithmeticReport(typed, n).flags
  {
  }

  /** A merge keeps the arithmetic flags but for the pending one; a failed photo adds none. */
  lemma MergedKeepsFlags(typed: Sheet, n: nat, vision: VisionExtract, arithmetic: Report)
    ensures var flags := MergedReport(typed, n, vision, arithmetic).flags;
      && (forall x :: x in arithmetic.flags && x != OcrPending ==> x in flags)
      && (vision.Failed() ==> forall x :: x in flags ==> x in arithmetic.flags)
  {
    hide Dedupe, PhotoDiffs, PhotoFlags, RejectReason, OcrFields;
  }

  /** The photo's flags: one for each contradicted field, party, or party sum. */
  lemma PhotoFlagsExactly(typed: Sheet, vision: VisionExtract, f: Figure, p: Party)
    requires vision.Valid()
    ensures var flags := PhotoFlags(typed, vision);
      && (OcrFieldMismatch(f) in flags <==>
            f in vision.fields && f in typed.figures && vision.fields[f] != typed.figures[f])
      && (OcrPartyMismatch(p) in flags <==>
            p in vision.parties && p in typed.parties && vision.parties[p] != typed.parties[p])
  {
    hide FieldsDiffering, PartiesDiffering, SumDiff, FieldFlags, PartyFlags;
    FieldFlagged(typed, vision, f);
    PartyFlagged(typed, vision, p);
    PartyFlagsNameNoField(PartiesDiffering(typed, vision), f);
    FieldFlagsNameNoParty(FieldsDiffering(typed, vision), p);
  }

  /** On a readable photo they are on the merged report; the arithmetic has none of them. */
  lemma MergedFlags(typed: Sheet, n: nat, vision: VisionExtract, f: Figure, p: Party)
    requires vision.Valid()
    ensures var flags := MergedReport(typed, n, vision, ArithmeticReport(typed, n)).flags;
      && (OcrFieldMismatch(f) in flags <==>
            !vision.Failed() && f in vision.fields && f in typed.figures && vision.fields[f] != typed.figures[f])
      && (OcrPartyMismatch(p) in flags <==>
            !vision.Failed() && p in vision.parties && p in typed.parties && vision.parties[p] != typed.parties[p])
  {
    hide Dedupe, PhotoDiffs, PhotoFlags, RejectReason, ArithmeticReport, OcrFields;
    ArithmeticFlagsAreOwn(typed, n);
    PhotoFlagsExactly(typed, vision, f, p);
  }

  lemma PartyFlagged(typed: Sheet, vision: VisionExtract, p: Party)
    requires vision.Valid()
    ensures OcrPartyMismatch(p) in PartyFlags(PartiesDiffering(typed, vision)) <==> PartyDiffers(typed, vision, p)
  {
    var ps := PartiesDiffering(typed, vision);
    if p in ps {
      var k :| 0 <= k < |ps| && ps[k] == p;
      assert PartyFlags(ps)[k] == OcrPartyMismatch(p);
    }
  }

  lemma FieldFlagsNameNoParty(fs: seq<Figure>, p: Party)
    ensures OcrPartyMismatch(p) !in FieldFlags(fs)
  {
  }

  /** What else a merged report carries: the photo's confidence and error, and every number read. */
  lemma MergedHeader(typed: Sheet, n: nat, vision: VisionExtract, arithmetic: Report, f: Figure, p: Party)
    ensures var r := MergedReport(typed, n, vision, arithmetic);
      && r.engine == Ocr && r.confidence == vision.confidence && r.photoCount == n
      && (r.ocrError.Some? <==> vision.Failed())
      && (vision.Failed() && vision.error.Some? ==> r.ocrError == vision.error)
      && (FigureField(f) in r.ocrFields <==> f in vision.fields)
      && (f in vision.fields ==> r.ocrFields[FigureField(f)] == vision.fields[f])
      && (PartyField(p) in r.ocrFields <==> p in vision.parties)
      && (p in vision.parties ==> r.ocrFields[PartyField(p)] == vision.parties[p])
  {
    hide Dedupe, PhotoDiffs, PhotoFlags, RejectReason, OcrFields, WithoutPending;
    OcrFieldsExactly(vision, f, p);
  }

  lemma OcrFieldsExactly(vision: VisionExtract, f: Figure, p: Party)
    ensures FigureField(f) in OcrFields(vision) <==> f in vision.fields
    ensures f in vision.fields ==> OcrFields(vision)[FigureField(f)] == vision.fields[f]
    ensures PartyField(p) in OcrFields(vision) <==> p in vision.parties
    ensures p in vision.parties ==> OcrFields(vision)[PartyField(p)] == vision.parties[p]
  {
    hide ReadFigures, ReadParties;
    ReadFiguresExactly(vision.fields, f, p);
    ReadPartiesExactly(vision.parties, f, p);
  }

  lemma ReadFiguresExactly(fields: map<Figure, nat>, f: Figure, p: Party)
    ensures FigureField(f) in ReadFigures(fields) <==> f in fields
    ensures f in fields ==> ReadFigures(fields)[FigureField(f)] == fields[f]
    ensures PartyField(p) !in ReadFigures(fields)
  {
  }

  lemma ReadPartiesExactly(parties: map<Party, int>, f: Figure, p: Party)
    ensures PartyField(p) in ReadParties(parties) <==> p in parties
    ensures p in parties ==> ReadParties(parties)[PartyField(p)] == parties[p]
    ensures FigureField(f) !in ReadParties(parties)
  {
  }

  lemma DiffOfField(typed: Sheet, vision: VisionExtract, f: Figure)
    requires FieldDiffers(typed, vision, f)
    ensures FieldDiff(typed, vision, f) in PhotoDiffs(typed, vision)
  {
    hide SumDiff, PartyDiffs, PartiesDiffering;
    EveryFigure(f);
    var fs := FieldsDiffering(typed, vision);
    var k :| 0 <= k < |fs| && fs[k] == f;
    assert FieldDiffs(typed, vision, fs)[k] == FieldDiff(typed, vision, f);
  }

  lemma DiffOfParty(typed: Sheet, vision: VisionExtract, p: Party)
    requires vision.Valid() && PartyDiffers(typed, vision, p)
    ensures PartyDiff(typed, vision, p) in PhotoDiffs(typed, vision)
  {
    hide SumDiff, FieldDiffs, FieldsDiffering;
    var ps := PartiesDiffering(typed, vision);
    var k :| 0 <= k < |ps| && ps[k] == p;
    assert PartyDiffs(typed, vision, ps)[k] == PartyDiff(typed, vision, p);
  }

  /** What the dedupe keeps: nothing twice, only diffs it was given, and for each one the same field and message. */
  lemma DedupeExactly(diffs: seq<Diff>)
    ensures NoRepeats(Dedupe(diffs))
    ensures forall d :: d in Dedupe(diffs) ==> d in diffs
    ensures forall d :: d in diffs ==> exists e :: e in Dedupe(diffs) && e.field == d.field && e.message == d.message
  {
    hide Dedupe, NoRepeats;
    DedupeKeepsNoRepeats(diffs);
    forall d | d in diffs
      ensures exists e :: e in Dedupe(diffs) && e.field == d.field && e.message == d.message
    {
      DedupeCoversLast(diffs, d);
    }
  }

  lemma {:induction false} DedupeKeepsNoRepeats(diffs: seq<Diff>)
    ensures NoRepeats(Dedupe(diffs)) && forall d :: d in Dedupe(diffs) ==> d in diffs
  {
    hide SameDiff;
    if diffs != [] {
      var n := |diffs| - 1;
      var front := diffs[..n];
      DedupeKeepsNoRepeats(front);
      assert diffs == front + [diffs[n]];
      if forall i :: 0 <= i < |front| ==> !SameDiff(front[i], diffs[n]) {
        forall d | d in Dedupe(front) ensures !SameDiff(d, diffs[n]) {
          var i :| 0 <= i < |front| && front[i] == d;
        }
      }
    }
  }

  lemma {:induction false} DedupeCoversLast(diffs: seq<Diff>, d: Diff)
    requires d in diffs
    ensures exists e :: e in Dedupe(diffs) && e.field == d.field && e.message == d.message
  {
    var n := |diffs| - 1;
    assert diffs == diffs[..n] + [diffs[n]];
    if d in diffs[..n] {
      DedupeCoversLast(diffs[..n], d);
    } else if i :| 0 <= i < n && SameDiff(diffs[..n][i], diffs[n]) {
      DedupeCoversLast(diffs[..n], diffs[..n][i]);
    } else {
      assert diffs[n] in Dedupe(diffs);
    }
  }

  lemma NothingTypedNothingContradicted(vision: VisionExtract)
    ensures !PhotoDisagrees(EMPTY_SHEET, vision)
  {
    assert forall f :: !FieldDiffers(EMPTY_SHEET, vision, f);
    assert forall p :: !PartyDiffers(EMPTY_SHEET, vision, p);
  }

  /** A finding: without any typed figure, a readable photo turns "incomplete" into APPROVE. */
  lemma {:induction false} EmptySheetIsApproved(n: nat, vision: VisionExtract)
    requires vision.Valid() && !vision.Failed()
    ensures ArithmeticReport(EMPTY_SHEET, n).recommendation == CheckPhoto
    ensures MergedReport(EMPTY_SHEET, n, vision, ArithmeticReport(EMPTY_SHEET, n)).recommendation == Approve
  {
    NothingTypedNothingContradicted(vision);
    PhotoDiffsExact(EMPTY_SHEET, vision);
  }

  lemma {:induction false} FieldFlagged(typed: Sheet, vision: VisionExtract, f: Figure)
    ensures OcrFieldMismatch(f) in FieldFlags(FieldsDiffering(typed, vision))
        <==> FieldDiffers(typed, vision, f)
  {
    EveryFigure(f);
    var fs := FieldsDiffering(typed, vision);
    var flags := FieldFlags(fs);
    if f in fs {
      var k :| 0 <= k < |fs| && fs[k] == f;
      assert flags[k] == OcrFieldMismatch(f);
    }
  }

  lemma NoFields(typed: Sheet, vision: VisionExtract)
    ensures FieldDiffs(typed, vision, []) == [] && FieldFlags([]) == []
  {
  }

  lemma AnotherField(typed: Sheet, vision: VisionExtract, fs: seq<Figure>, f: Figure)
    ensures FieldDiffs(typed, vision, fs + [f]) == FieldDiffs(typed, vision, fs) + [FieldDiff(typed, vision, f)]
    ensures FieldFlags(fs + [f]) == FieldFlags(fs) + [OcrFieldMismatch(f)]
  {
    hide FieldDiff;
  }

  method CompareFields(typed: Sheet, vision: VisionExtract) returns (diffs: seq<Diff>, flags: seq<Flag>)
    ensures diffs == FieldDiffs(typed, vision, FieldsDiffering(typed, vision))
    ensures flags == FieldFlags(FieldsDiffering(typed, vision))
  {
    hide FieldDiffs, FieldFlags;
    diffs, flags := [], [];
    NoFields(typed, vision);
    ghost var differs := (f: Figure) => FieldDiffers(typed, vision, f);
    for i := 0 to |FIELD_ORDER|
      invariant diffs == FieldDiffs(typed, vision, Filter(FIELD_ORDER[..i], differs))
      invariant flags == FieldFlags(Filter(FIELD_ORDER[..i], differs))
    {
      var f := FIELD_ORDER[i];
      FilterStep(FIELD_ORDER, i, differs);
      ghost var found := Filter(FIELD_ORDER[..i], differs);
      assert Filter(FIELD_ORDER[..i + 1], differs) == if differs(f) then found + [f] else found;
      AnotherField(typed, vision, found, f);
      if f in vision.fields && f in typed.figures && vision.fields[f] != typed.figures[f] {
        diffs := diffs + [Diff(FigureField(f), typed.figures[f], vision.fields[f],
                               PhotoReadsField(f, typed.figures[f], vision.fields[f]))];
        flags := flags + [OcrFieldMismatch(f)];
      }
    }
    assert FIELD_ORDER[..|FIELD_ORDER|] == FIELD_ORDER;
    FilterSame(FIELD_ORDER, differs, f => FieldDiffers(typed, vision, f));
  }

  lemma NoParties(typed: Sheet, vision: VisionExtract)
    ensures PartyDiffs(typed, vision, []) == [] && PartyFlags([]) == []
  {
  }

  lemma AnotherParty(typed: Sheet, vision: VisionExtract, ps: seq<Party>, p: Party)
    ensures PartyDiffs(typed, vision, ps + [p]) == PartyDiffs(typed, vision, ps) + [PartyDiff(typed, vision, p)]
    ensures PartyFlags(ps + [p]) == PartyFlags(ps) + [OcrPartyMismatch(p)]
  {
    hide PartyDiff;
  }

  /** Party flags never name a field. */
  lemma PartyFlagsNameNoField(ps: seq<Party>, f: Figure)
    ensures OcrFieldMismatch(f) !in PartyFlags(ps)
  {
  }

  method CompareParties(typed: Sheet, vision: VisionExtract) returns (diffs: seq<Diff>, flags: seq<Flag>)
    requires vision.Valid()
    ensures diffs == PartyDiffs(typed, vision, PartiesDiffering(typed, vision))
    ensures flags == PartyFlags(PartiesDiffering(typed, vision))
  {
    hide PartyDiffs, PartyFlags;
    diffs, flags := [], [];
    NoParties(typed, vision);
    ghost var differs := (p: Party) => PartyDiffers(typed, vision, p);
    for i := 0 to |vision.codes|
      invariant diffs == PartyDiffs(typed, vision, Filter(vision.codes[..i], differs))
      invariant flags == PartyFlags(Filter(vision.codes[..i], differs))
    {
      var p := vision.codes[i];
      FilterStep(vision.codes, i, differs);
      ghost var found := Filter(vision.codes[..i], differs);
      assert Filter(vision.codes[..i + 1], differs) == if differs(p) then found + [p] else found;
      AnotherParty(typed, vision, found, p);
      if p in typed.parties && typed.parties[p] != vision.parties[p] {
        diffs := diffs + [Diff(PartyField(p), typed.parties[p], vision.parties[p],
                               PhotoReadsParty(p, typed.parties[p], vision.parties[p]))];
        flags := flags + [OcrPartyMismatch(p)];
      }
    }
    assert vision.codes[..|vision.codes|] == vision.codes;
    FilterSame(vision.codes, differs, p => PartyDiffers(typed, vision, p));
  }

  method ComparePhoto(typed: Sheet, vision: VisionExtract) returns (diffs: seq<Diff>, flags: seq<Flag>)
    requires vision.Valid()
    ensures diffs == PhotoDiffs(typed, vision)
    ensures flags == PhotoFlags(typed, vision)
  {
    hide FieldDiffs, FieldFlags, PartyDiffs, PartyFlags, FieldsDiffering, PartiesDiffering, FieldDiffers;
    var partyDiffs, partyFlags;
    diffs, flags := CompareFields(typed, vision);
    partyDiffs, partyFlags := CompareParties(typed, vision);
    FieldFlagged(typed, vision, VotesCast);
    PartyFlagsNameNoField(PartiesDiffering(typed, vision), VotesCast);
    diffs, flags := diffs + partyDiffs, flags + partyFlags;
    var photoSum := SumPartyVotes(vision.parties);
    if photoSum.Some? && VotesCast in typed.figures && photoSum.value != typed.figures[VotesCast]
       && OcrFieldMismatch(VotesCast) !in flags {
      var valid := typed.figures[VotesCast];
      diffs := diffs + [Diff(FigureField(VotesCast), valid, photoSum.value, PhotoPartySum(valid, photoSum.value))];
      flags := flags + [OcrPartySumNeValid];
    }
  }

  method MergeVisionWithArithmetic(typed: Sheet, photoCount: nat, vision: VisionExtract, arithmetic: Report)
    returns (r: Report)
    requires vision.Valid()
    ensures r == MergedReport(typed, photoCount, vision, arithmetic)
  {
    var failed := vision.Failed();
    if failed {
      var returned := arithmetic.recommendation == Return;
      return arithmetic.(
        engine := Ocr,
        status := if returned then Mismatch else Unreadable,
        recommendation := if returned then Return else CheckPhoto,
        confidence := vision.confidence,
        photoCount := photoCount,
        ocrError := if vision.error.Some? then vision.error else Some("Could not read digits from the EC8A photo"),
        ocrFields := OcrFields(vision),
        flags := WithoutPending(arithmetic.flags));
    }
    var diffs, flags := ComparePhoto(typed, vision);
    r := Combined(arithmetic, diffs, flags, photoCount, vision);
  }
}
