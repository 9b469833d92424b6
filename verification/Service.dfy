/**
 The collation service as a class that updates its result rows and action log in place
 (src/modules/collation/collation.service.ts). Every endpoint is proved to take exactly the
 step of the workflow, to keep every invariant of reachable stores, and to leave the store
 alone when it refuses.
 */
module Service {
  import opened Collections
  import opened Sheets
  import opened Geography
  import opened Workflow
  import opened Lifecycle
  import V = Verification
  import Vision

  datatype Readiness = Readiness(
    totalPus: nat, approvedPus: nat, submittedPus: nat, rejectedPus: nat, missingPus: nat, readyForLgaApproval: bool,
    verification: V.VerificationCounts)

  datatype StatusCounts = StatusCounts(
    submitted: nat, approved: nat, rejected: nat, draft: nat, notStarted: nat, totalPus: nat)

  function Reply(s: Store, count: nat, error: Option<Error>): Outcome {
    match error
    case None => Done(s, count)
    case Some(e) => Failed(s, e)
  }

  function Listed(m: map<Scope, seq<Scope>>, w: Scope): seq<Scope> {
    if w in m then m[w] else []
  }

  function AboveIs(g: Geo, w: Scope): Scope -> bool {
    k => k in g.above && g.above[k] == w
  }

  function StatusIs(s: Store, st: Status): Scope -> bool {
    k => Has(s, k, st)
  }

  function IsStored(s: Store): Scope -> bool {
    k => k in s.rows
  }

  function IsMissing(s: Store): Scope -> bool {
    k => k !in s.rows
  }

  function Tally(s: Store, ks: seq<Scope>, st: Status): nat {
    Count(ks, StatusIs(s, st))
  }

  lemma TallyStep(s: Store, ks: seq<Scope>, i: nat, st: Status)
    requires i < |ks|
    ensures Tally(s, ks[..i + 1], st) == Tally(s, ks[..i], st) + if Has(s, ks[i], st) then 1 else 0
  {
    FilterStep(ks, i, StatusIs(s, st));
  }

  /** The counters partition the polling units, and the gate is open when there are some, all approved. */
  ghost predicate Measures(s: Store, pus: seq<Scope>, r: Readiness) {
    && r.totalPus == |pus|
    && r.approvedPus == Tally(s, pus, Approved)
    && r.submittedPus == Tally(s, pus, Submitted)
    && r.rejectedPus == Tally(s, pus, Rejected)
    && r.totalPus == r.approvedPus + r.submittedPus + r.rejectedPus + r.missingPus
    && (r.readyForLgaApproval <==> pus != [] && forall k :: k in pus ==> IsApproved(s, k))
    && r.verification.matched == Count(pus, AdvisedUnit(s, Some(V.Approve)))
    && r.verification.flagged == Count(pus, AdvisedUnit(s, Some(V.Return)))
    && r.verification.checkPhoto == Count(pus, AdvisedUnit(s, Some(V.CheckPhoto)))
    && r.verification.pending == Count(pus, AdvisedUnit(s, None))
  }

  function VerifiableRow(row: Row): V.Verifiable {
    V.Verifiable(row.sheet, |row.photos|, row.ocr)
  }

  /** The unit has a result, and this is what its verification recommends. */
  ghost function AdvisedUnit(s: Store, advice: Option<V.Recommendation>): Scope -> bool {
    k => k in s.rows && V.Advice(VerifiableRow(s.rows[k])) == advice
  }

  /** A stored report decides; without one the figures do, if there are any. */
  lemma AdviceOfRow(row: Row)
    ensures V.Advice(VerifiableRow(row)) ==
      if row.ocr.Some? then Some(row.ocr.value.recommendation)
      else if row.sheet == EMPTY_SHEET then None
      else if exists i :: V.Fails(row.sheet, i) then Some(V.Return)
      else Some(V.Approve)
  {
    V.VerdictIsThreefold(row.sheet, |row.photos|);
  }

  /** What `countPuVerifications` is given: the results found, in the order of the units. */
  function Verifiables(s: Store, pus: seq<Scope>): seq<V.Verifiable> {
    if pus == [] then []
    else
      var k := pus[|pus| - 1];
      Verifiables(s, pus[..|pus| - 1]) + if k in s.rows then [VerifiableRow(s.rows[k])] else []
  }

  lemma {:induction false} AdviceOverUnits(s: Store, pus: seq<Scope>, advice: Option<V.Recommendation>)
    ensures Count(Verifiables(s, pus), V.Advised(advice)) == Count(pus, AdvisedUnit(s, advice))
    decreases |pus|
  {
    if pus != [] {
      var n := |pus| - 1;
      AdviceOverUnits(s, pus[..n], advice);
      FilterStep(pus, n, AdvisedUnit(s, advice));
      assert pus[..n + 1] == pus;
      if pus[n] in s.rows {
        FilterAppend(Verifiables(s, pus[..n]), [VerifiableRow(s.rows[pus[n]])], V.Advised(advice));
      } else {
        assert Verifiables(s, pus) == Verifiables(s, pus[..n]);
      }
    }
  }

  lemma VerifiablesStep(s: Store, pus: seq<Scope>, i: nat)
    requires i < |pus|
    ensures Verifiables(s, pus[..i + 1])
         == Verifiables(s, pus[..i]) + if pus[i] in s.rows then [VerifiableRow(s.rows[pus[i]])] else []
  {
    assert pus[..i + 1][..i] == pus[..i];
  }

  /** Every counter is the number of polling units in its status; the rest were never started. */
  ghost predicate CountsStatuses(s: Store, pus: seq<Scope>, counts: StatusCounts) {
    && counts.totalPus == |pus|
    && counts.approved == Tally(s, pus, Approved)
    && counts.submitted == Tally(s, pus, Submitted)
    && counts.rejected == Tally(s, pus, Rejected)
    && counts.notStarted == Count(pus, IsMissing(s))
    && counts.submitted + counts.approved + counts.rejected + counts.draft + counts.notStarted == counts.totalPus
  }

  /** Places without a row have no status to count. */
  lemma TallyFound(s: Store, ks: seq<Scope>, st: Status)
    ensures Tally(s, Filter(ks, IsStored(s)), st) == Tally(s, ks, st)
  {
    FilterFilter(ks, IsStored(s), StatusIs(s, st), StatusIs(s, st));
  }

  /** The outcome of a loop after `done` of its steps. */
  function Continue(rest: Outcome, done: nat): Outcome {
    match rest
    case Failed(s, e) => Failed(s, e)
    case Done(s, n) => Done(s, done + n)
  }

  lemma {:induction false} FullCount(s: seq<Scope>, p: Scope -> bool)
    ensures Count(s, p) == |s| <==> forall k :: k in s ==> p(k)
  {
    if s != [] {
      FullCount(s[1..], p);
    }
  }

  lemma {:induction false} CountSplit(s: seq<Scope>, p: Scope -> bool, q: Scope -> bool)
    requires forall k :: k in s ==> q(k) == !p(k)
    ensures Count(s, p) + Count(s, q) == |s|
  {
    if s != [] {
      CountSplit(s[1..], p, q);
    }
  }

  lemma PrefixColumn(sheets: seq<Sheet>, i: nat, c: Column)
    requires i < |sheets|
    ensures ColumnTotal(sheets[..i + 1], c) == ColumnTotal(sheets[..i], c) + Cell(sheets[i], c)
  {
    assert sheets[..i + 1] == sheets[..i] + [sheets[i]];
    SumAppend(sheets[..i], [sheets[i]], CellOf(c));
  }

  lemma {:induction false} PrefixParties(sheets: seq<Sheet>, i: nat)
    requires i < |sheets|
    ensures AllParties(sheets[..i + 1]) == AllParties(sheets[..i]) + sheets[i].parties.Keys
  {
    if i == 0 {
      assert sheets[..1] == [sheets[0]];
    } else {
      PrefixParties(sheets[1..], i - 1);
      assert sheets[1..][..i] == sheets[..i + 1][1..];
      assert sheets[1..][..i - 1] == sheets[..i][1..];
    }
  }

  /** The reduction of the eight figures over the approved children. */
  method SumFigures(sheets: seq<Sheet>) returns (totals: map<Figure, nat>)
    ensures totals == TotalSheet(sheets).figures
  {
    totals := map f | f in ALL_FIGURES :: 0;
    for i := 0 to |sheets|
      invariant totals.Keys == ALL_FIGURES
      invariant forall f :: f in ALL_FIGURES ==> totals[f] == ColumnTotal(sheets[..i], OfFigure(f))
    {
      forall f ensures ColumnTotal(sheets[..i + 1], OfFigure(f))
                    == ColumnTotal(sheets[..i], OfFigure(f)) + FigureAt(sheets[i].figures, f) {
        PrefixColumn(sheets, i, OfFigure(f));
      }
      totals := map f | f in ALL_FIGURES :: totals[f] + FigureAt(sheets[i].figures, f);
    }
    assert sheets[..|sheets|] == sheets;
  }

  method AggregatePartyResults(sheets: seq<Sheet>) returns (totals: map<Party, int>)
    ensures totals == TotalSheet(sheets).parties
  {
    totals := map[];
    for i := 0 to |sheets|
      invariant totals.Keys == AllParties(sheets[..i])
      invariant forall p :: p in totals ==> totals[p] == ColumnTotal(sheets[..i], OfParty(p))
    {
      var votes, before := sheets[i].parties, totals;
      var left := votes.Keys;
      while left != {}
        invariant left <= votes.Keys
        invariant totals.Keys == before.Keys + (votes.Keys - left)
        invariant forall p :: p in totals ==>
          totals[p] == At(before, p) + if p in left then 0 else At(votes, p)
        decreases left
      {
        var p :| p in left;
        totals := totals[p := At(totals, p) + votes[p]];
        left := left - {p};
      }
      PrefixParties(sheets, i);
      forall p | p in totals ensures totals[p] == ColumnTotal(sheets[..i + 1], OfParty(p)) {
        PrefixColumn(sheets, i, OfParty(p));
        if p !in before {
          PartyOutside(sheets[..i], p);
        }
      }
    }
    assert sheets[..|sheets|] == sheets;
  }

  class CollationService {
    const g: Geo
    var rows: map<Scope, Row>
    var log: seq<LogEntry>

    function S(): Store
      reads this
    {
      Store(rows, log)
    }

    ghost predicate Valid()
      reads this
    {
      g.Valid() && Sound(g, S())
    }

    constructor (geography: Geo)
      requires geography.Valid()
      ensures Valid() && g == geography && S() == EMPTY
    {
      g, rows, log := geography, map[], [];
      new;
      ReachableIsSound(g, []);
    }

    // Queries.

    /** Groups the polling units of some wards by ward. */
    method GroupByWard(wards: seq<Scope>) returns (m: map<Scope, seq<Scope>>)
      requires g.Valid()
      ensures forall w :: w in wards && w.level == Ward ==> Listed(m, w) == g.Children(w)
    {
      m := map[];
      var inWards := (k: Scope) => k in g.above && g.above[k] in wards;
      var pus := Filter(g.places, inWards);
      for i := 0 to |pus|
        invariant forall w :: Listed(m, w) == Filter(pus[..i], AboveIs(g, w))
      {
        assert pus[i] in pus;
        var w := g.above[pus[i]];
        forall x
          ensures Filter(pus[..i + 1], AboveIs(g, x))
               == Filter(pus[..i], AboveIs(g, x)) + if x == w then [pus[i]] else []
        {
          FilterStep(pus, i, AboveIs(g, x));
        }
        m := m[w := Listed(m, w) + [pus[i]]];
      }
      assert pus[..|pus|] == pus;
      forall w | w in wards && w.level == Ward ensures Listed(m, w) == g.Children(w) {
        FilterFilter(g.places, inWards, AboveIs(g, w), k => g.IsChild(k, w));
      }
    }

    /** One ward's counters, by a loop over its polling units. */
    method CountReadiness(pus: seq<Scope>) returns (r: Readiness)
      ensures Measures(S(), pus, r)
    {
      ghost var s := S();
      var approved, submitted, rejected, missing := 0, 0, 0, 0;
      var verificationRows: seq<V.Verifiable> := [];
      for i := 0 to |pus|
        invariant approved == Tally(s, pus[..i], Approved)
        invariant submitted == Tally(s, pus[..i], Submitted)
        invariant rejected == Tally(s, pus[..i], Rejected)
        invariant approved + submitted + rejected + missing == i
        invariant verificationRows == Verifiables(s, pus[..i])
      {
        TallyStep(s, pus, i, Approved);
        TallyStep(s, pus, i, Submitted);
        TallyStep(s, pus, i, Rejected);
        VerifiablesStep(s, pus, i);
        var k := pus[i];
        if k !in rows {
          missing := missing + 1;
        } else {
          verificationRows := verificationRows + [VerifiableRow(rows[k])];
          match rows[k].status
          case Approved => approved := approved + 1;
          case Submitted => submitted := submitted + 1;
          case Rejected => rejected := rejected + 1;
          case Draft => missing := missing + 1;
        }
      }
      assert pus[..|pus|] == pus;
      FullCount(pus, StatusIs(s, Approved));
      AdviceOverUnits(s, pus, Some(V.Approve));
      AdviceOverUnits(s, pus, Some(V.Return));
      AdviceOverUnits(s, pus, Some(V.CheckPhoto));
      AdviceOverUnits(s, pus, None);
      var verification := V.CountPuVerifications(verificationRows);
      r := Readiness(|pus|, approved, submitted, rejected, missing, |pus| > 0 && approved == |pus|, verification);
    }

    /** The readiness gate, computed through index maps for many wards at once. */
    method GetWardPuReadinessMap(wards: seq<Scope>) returns (m: map<Scope, Readiness>)
      requires g.Valid() && forall w :: w in wards ==> w.level == Ward
      ensures forall w :: w in m <==> w in wards
      ensures forall w :: w in m ==> Measures(S(), g.Children(w), m[w])
    {
      m := map[];
      var byWard := GroupByWard(wards);
      for i := 0 to |wards|
        invariant forall w :: w in m <==> w in wards[..i]
        invariant forall w :: w in m ==> Measures(S(), g.Children(w), m[w])
      {
        var w := wards[i];
        assert wards[..i + 1] == wards[..i] + [w];
        assert Listed(byWard, w) == g.Children(w);
        var r := CountReadiness(Listed(byWard, w));
        m := m[w := r];
      }
      assert wards[..|wards|] == wards;
    }

    method AllPollingUnitsApproved(ward: Scope) returns (ok: bool)
      requires g.Valid() && ward.level == Ward
      ensures ok <==> Ready(g, S(), ward)
    {
      var m := GetWardPuReadinessMap([ward]);
      assert ward in [ward];
      ok := m[ward].readyForLgaApproval;
    }

    /** `countByStatus` over the rows found for a list of polling units. */
    method CountByStatus(pus: seq<Scope>) returns (counts: StatusCounts)
      ensures CountsStatuses(S(), pus, counts)
    {
      ghost var s := S();
      var stored := IsStored(S());
      var found := Filter(pus, stored);
      var submitted, approved, rejected, draft := 0, 0, 0, 0;
      for i := 0 to |found|
        invariant approved == Tally(s, found[..i], Approved)
        invariant submitted == Tally(s, found[..i], Submitted)
        invariant rejected == Tally(s, found[..i], Rejected)
        invariant submitted + approved + rejected + draft == i
      {
        assert found[i] in found;
        TallyStep(s, found, i, Approved);
        TallyStep(s, found, i, Submitted);
        TallyStep(s, found, i, Rejected);
        match rows[found[i]].status
        case Approved => approved := approved + 1;
        case Submitted => submitted := submitted + 1;
        case Rejected => rejected := rejected + 1;
        case Draft => draft := draft + 1;
      }
      assert found[..|found|] == found;
      TallyFound(s, pus, Approved);
      TallyFound(s, pus, Submitted);
      TallyFound(s, pus, Rejected);
      CountSplit(pus, stored, IsMissing(s));
      var missing := |pus| - submitted - approved - rejected - draft;
      counts := StatusCounts(submitted, approved, rejected, draft, if missing > 0 then missing else 0, |pus|);
    }

    /** The counts and the resubmission flag of `listWardPuSubmissions`. */
    method ListWardPuSubmissions(u: User) returns (error: Option<Error>, counts: StatusCounts, canResubmitToLga: bool)
      ensures error == if Access(u).None? then Some(NoCollationAccess)
                       else if Access(u).value != Ward then Some(NotWardOfficer) else None
      ensures error.None? ==> CountsStatuses(S(), g.Children(Own(u)), counts)
      ensures canResubmitToLga <==> ResubmitStep(g, S(), u).Done?
    {
      counts, canResubmitToLga := StatusCounts(0, 0, 0, 0, 0, 0), false;
      if Access(u).None? {
        return Some(NoCollationAccess), counts, canResubmitToLga;
      }
      if Access(u).value != Ward {
        return Some(NotWardOfficer), counts, canResubmitToLga;
      }
      counts := CountByStatus(g.Children(Own(u)));
      FullCount(g.Children(Own(u)), StatusIs(S(), Approved));
      var returnedByLga := Own(u) in rows && rows[Own(u)].status == Rejected;
      canResubmitToLga := returnedByLga && counts.totalPus > 0 && counts.approved == counts.totalPus;
      return None, counts, canResubmitToLga;
    }

    // Shared writes.

    method WriteActionLog(k: Scope, from: Status, to: Status)
      modifies this`log
      ensures S() == Log(old(S()), k, from, to)
    {
      log := log + [LogEntry(k, from, to)];
    }

    method SumChildren(kids: seq<Scope>) returns (sheet: Sheet)
      ensures sheet == TotalSheet(SheetsOf(S(), kids))
    {
      var sheets := SheetsOf(S(), kids);
      var figures := SumFigures(sheets);
      var parties := AggregatePartyResults(sheets);
      sheet := Sheet(figures, parties);
    }

    function Find(k: Scope): Row
      reads this
      ensures Find(k) == RowOr(S(), k)
    {
      if k in rows then rows[k] else Row(EMPTY_SHEET, Draft, [], [], None)
    }

    method RollupToParent(parent: Scope)
      modifies this`rows
      ensures S() == Rollup(g, old(S()), parent)
    {
      var kids := ApprovedChildren(g, S(), parent);
      if kids == [] {
        return;
      }
      var sheet := SumChildren(kids);
      var status := match parent.level case Ward => Submitted case Lga => Approved case _ => Draft;
      rows := rows[parent := Find(parent).(sheet := sheet, status := status)];
    }

    method RebuildWardRollup(ward: Scope, forceSubmit: bool, keepRejected: bool)
      modifies this`rows
      ensures S() == Rebuild(g, old(S()), ward, forceSubmit, keepRejected)
    {
      var existing := Find(ward);
      var kids := ApprovedChildren(g, S(), ward);
      var sheet := SumChildren(kids);
      var status := Submitted;
      if !forceSubmit && (keepRejected || (ward in rows && existing.status == Rejected)) {
        status := Rejected;
      }
      var flagged := if status == Rejected then existing.flagged else [];
      rows := rows[ward := existing.(sheet := sheet, status := status, flagged := flagged)];
    }

    /** Distinct trimmed ids, and whether each is a polling unit of the ward. */
    method ValidatePuIdsInWard(ward: Scope, ids: seq<Id>) returns (unique: seq<Id>, valid: bool)
      ensures unique == CleanIds(ids)
      ensures valid <==> AllInWard(g, ward, unique)
    {
      unique := CleanIds(ids);
      valid := true;
      for i := 0 to |unique|
        invariant valid <==> forall j :: 0 <= j < i ==> Scope(PollingUnit, unique[j]) in g.Children(ward)
      {
        if Scope(PollingUnit, unique[i]) !in g.Children(ward) {
          valid := false;
        }
      }
    }

    // The endpoints.

    method UpsertResult(u: User, dto: Dto) returns (error: Option<Error>)
      requires Valid()
      modifies this
      ensures Valid()
      ensures Reply(S(), 1, error) == SaveDraftStep(old(S()), u, dto)
    {
      ApplyKeepsSound(g, S(), Call(u, SaveDraft(dto)));
      if Access(u).None? {
        return Some(NoCollationAccess);
      }
      if Access(u).value == Ward {
        return Some(WardTotalsAreAutomatic);
      }
      var k := Own(u);
      if k in rows && !IsEditable(rows[k].status) {
        return Some(NotEditable);
      }
      var was := Find(k);
      var photos := if dto.photos.Some? then dto.photos.value else was.photos;
      var ocr := was.ocr;
      if k.level == PollingUnit {
        var report := V.OcrVerificationWrite(SentSheet(dto), |photos|, false);
        ocr := Some(report);
      }
      var parties := if dto.parties.Some? then dto.parties.value else was.sheet.parties;
      var sheet := Sheet(MergeFigures(was.sheet.figures, dto.figures), parties);
      rows := rows[k := Row(sheet, Draft, photos, was.flagged, ocr)];
      return None;
    }

    method AttachEc8aPhoto(u: User, k: Scope, url: Url) returns (error: Option<Error>)
      requires Valid()
      modifies this
      ensures Valid()
      ensures Reply(S(), 1, error) == AttachPhotoStep(old(S()), u, k, url)
    {
      ApplyKeepsSound(g, S(), Call(u, AttachPhoto(k, url)));
      var refusal := CheckOwned(u, k);
      if refusal.Some? {
        return refusal;
      }
      if !IsEditable(rows[k].status) {
        return Some(NotEditable);
      }
      var photos := rows[k].photos + [url];
      var ocr := rows[k].ocr;
      if k.level == PollingUnit {
        var report := V.OcrVerificationWrite(rows[k].sheet, |photos|, false);
        ocr := Some(report);
      }
      rows := rows[k := rows[k].(photos := photos, ocr := ocr)];
      return None;
    }

    method CheckOwned(u: User, k: Scope) returns (error: Option<Error>)
      ensures error == OwnedError(S(), u, k)
    {
      if Access(u).None? {
        return Some(NoCollationAccess);
      }
      if k !in rows {
        return Some(NotFound);
      }
      return if k != Own(u) then Some(NotOwnScope) else None;
    }

    method SubmitResult(u: User, k: Scope) returns (error: Option<Error>)
      requires Valid()
      modifies this
      ensures Valid()
      ensures Reply(S(), 1, error) == SubmitStep(old(S()), u, k)
    {
      ApplyKeepsSound(g, S(), Call(u, Submit(k)));
      if Access(u).Some? && Access(u).value == Ward {
        return Some(WardTotalsAreAutomatic);
      }
      var refusal := CheckOwned(u, k);
      if refusal.Some? {
        return refusal;
      }
      if rows[k].status == Approved {
        return Some(AlreadyApproved);
      }
      if rows[k].status == Submitted {
        return Some(AlreadySubmitted);
      }
      if k.level == PollingUnit && rows[k].photos == [] {
        return Some(PhotoMissing);
      }
      var from, ocr := rows[k].status, rows[k].ocr;
      if k.level == PollingUnit {
        var report := V.OcrVerificationWrite(rows[k].sheet, |rows[k].photos|, true);
        ocr := Some(report);
      }
      rows := rows[k := rows[k].(status := Submitted, ocr := ocr)];
      WriteActionLog(k, from, Submitted);
      return None;
    }

    method ApproveResult(u: User, k: Scope) returns (error: Option<Error>)
      requires Valid()
      modifies this
      ensures Valid()
      ensures Reply(S(), 1, error) == ApproveStep(g, old(S()), u, k)
    {
      hide Sound, Rollup, RollupSheet;
      ApplyKeepsSound(g, S(), Call(u, Approve(k)));
      if Access(u).None? {
        return Some(NoCollationAccess);
      }
      var below := LevelBelow(Access(u).value);
      if below.None? {
        return Some(CannotApproveAtThisLevel);
      }
      if k !in rows {
        return Some(NotFound);
      }
      if rows[k].status != Submitted {
        return Some(NotSubmitted);
      }
      if k.level != below.value {
        return Some(NotOneLevelBelow);
      }
      if k !in g.Children(Own(u)) {
        return Some(OutsideScope);
      }
      if k.level == Ward {
        var ready := AllPollingUnitsApproved(k);
        if !ready {
          return Some(WardNotReady);
        }
      }
      rows := rows[k := rows[k].(status := Approved, flagged := [])];
      WriteActionLog(k, Submitted, Approved);
      RollupToParent(Own(u));
      return None;
    }

    method IsWardReturnedByLga(pu: Scope) returns (r: bool)
      ensures r <==> WardReturned(g, S(), pu)
    {
      if pu !in g.above {
        return false;
      }
      return g.above[pu] in rows && rows[g.above[pu]].status == Rejected;
    }

    /** The guards of `rejectResult`, with the flags and the recovery path they select. */
    method CheckRejection(u: User, k: Scope, affected: seq<Id>)
      returns (error: Option<Error>, flagged: seq<Id>, canReturnApproved: bool)
      ensures error == RejectError(g, S(), u, k, affected)
      ensures error.None? ==> canReturnApproved == ReturnsApproved(g, S(), k)
      ensures error.None? ==> flagged == if FlagsWard(S(), u, k) then CleanIds(affected) else rows[k].flagged
    {
      flagged, canReturnApproved := [], false;
      if Access(u).None? {
        return Some(NoCollationAccess), flagged, canReturnApproved;
      }
      if k !in rows {
        return Some(NotFound), flagged, canReturnApproved;
      }
      var from := rows[k].status;
      var wardReturned := IsWardReturnedByLga(k);
      canReturnApproved := from == Approved && k.level == PollingUnit && wardReturned;
      if from != Submitted && !canReturnApproved {
        return Some(if from == Approved then ApprovedNotReturnable else NotSubmitted), flagged, canReturnApproved;
      }
      if LevelBelow(Access(u).value) != Some(k.level) {
        return Some(CannotApproveAtThisLevel), flagged, canReturnApproved;
      }
      if k !in g.Children(Own(u)) {
        return Some(OutsideScope), flagged, canReturnApproved;
      }
      flagged := rows[k].flagged;
      if from == Submitted && k.level == Ward && Access(u).value == Lga {
        var unique, valid := ValidatePuIdsInWard(k, affected);
        if affected != [] && !valid {
          return Some(FlaggedOutsideWard), flagged, canReturnApproved;
        }
        flagged := unique;
      }
      return None, flagged, canReturnApproved;
    }

    method RejectResult(u: User, k: Scope, affected: seq<Id>) returns (error: Option<Error>)
      requires Valid()
      modifies this
      ensures Valid()
      ensures Reply(S(), 1, error) == RejectStep(g, old(S()), u, k, affected)
    {
      hide Sound, Rebuild, RollupSheet, WardReturned;
      ApplyKeepsSound(g, S(), Call(u, Reject(k, affected)));
      var flagged, canReturnApproved;
      error, flagged, canReturnApproved := CheckRejection(u, k, affected);
      if error.Some? {
        return;
      }
      var from := rows[k].status;
      rows := rows[k := rows[k].(status := Rejected, flagged := flagged)];
      WriteActionLog(k, from, Rejected);
      if canReturnApproved {
        RebuildWardRollup(Own(u), false, true);
      }
    }

    method ResubmitWardToLga(u: User) returns (error: Option<Error>)
      requires Valid()
      modifies this
      ensures Valid()
      ensures Reply(S(), 1, error) == ResubmitStep(g, old(S()), u)
    {
      hide Sound, Rebuild, RollupSheet;
      ApplyKeepsSound(g, S(), Call(u, ResubmitWard));
      if Access(u).None? {
        return Some(NoCollationAccess);
      }
      if Access(u).value != Ward {
        return Some(NotWardOfficer);
      }
      if Own(u) !in rows {
        return Some(NoWardRollup);
      }
      if rows[Own(u)].status != Rejected {
        return Some(WardNotReturned);
      }
      var ready := AllPollingUnitsApproved(Own(u));
      if !ready {
        return Some(WardNotReady);
      }
      RebuildWardRollup(Own(u), true, false);
      WriteActionLog(Own(u), Rejected, Submitted);
      return None;
    }

    /** Returns flagged polling units one after the other; earlier returns stay if a later one fails. */
    method ReturnLgaFlaggedPus(u: User) returns (error: Option<Error>, returnedCount: nat)
      requires Valid()
      modifies this
      ensures Valid()
      ensures Reply(S(), returnedCount, error) == ReturnFlaggedStep(g, old(S()), u)
    {
      returnedCount := 0;
      if Access(u).None? {
        return Some(NoCollationAccess), 0;
      }
      if Access(u).value != Ward {
        return Some(NotWardOfficer), 0;
      }
      if Own(u) !in rows || rows[Own(u)].status != Rejected {
        return Some(WardNotReturned), 0;
      }
      if rows[Own(u)].flagged == [] {
        return Some(NothingFlagged), 0;
      }
      var results := ToReturn(S(), rows[Own(u)].flagged);
      ghost var start := S();
      assert results[0..] == results;
      while returnedCount < |results|
        invariant Valid() && returnedCount <= |results|
        invariant ReturnEach(g, start, u, results)
          == Continue(ReturnEach(g, S(), u, results[returnedCount..]), returnedCount)
      {
        ghost var s := S();
        assert results[returnedCount..][1..] == results[returnedCount + 1..];
        var e := RejectResult(u, results[returnedCount], []);
        if e.Some? {
          return e, returnedCount;
        }
        returnedCount := returnedCount + 1;
      }
      return None, returnedCount;
    }

    method ApproveAllLgaWardResults(u: User) returns (error: Option<Error>, approvedCount: nat)
      requires Valid()
      modifies this
      ensures Valid()
      ensures Reply(S(), approvedCount, error) == ApproveAllStep(g, old(S()), u)
    {
      ApproveAllKeepsSound(g, S(), u);
      approvedCount := 0;
      if Access(u).None? {
        return Some(NoCollationAccess), 0;
      }
      if u.role != LgaCollationOfficer {
        return Some(NotLgaOfficer), 0;
      }
      var pending := Pending(g, S(), Own(u));
      if pending == [] {
        return Some(NothingPending), 0;
      }
      var ready := AreAllReady(pending);
      if !ready {
        return Some(WardNotReady), 0;
      }
      ApprovePending(pending, Own(u));
      return None, |pending|;
    }

    /** The update and the log entries of one transaction, then the rollup. */
    method ApprovePending(wards: seq<Scope>, lga: Scope)
      modifies this
      ensures S() == Rollup(g, MarkAllApproved(old(S()), wards), lga)
    {
      rows := map k | k in rows :: if k in wards then rows[k].(status := Approved) else rows[k];
      log := log + ApprovalEntries(wards);
      RollupToParent(lga);
    }

    method AreAllReady(wards: seq<Scope>) returns (ok: bool)
      requires g.Valid() && forall w :: w in wards ==> w.level == Ward
      ensures ok <==> AllReady(g, S(), wards)
    {
      for i := 0 to |wards|
        invariant forall w :: w in wards[..i] ==> Ready(g, S(), w)
      {
        var ready := AllPollingUnitsApproved(wards[i]);
        if !ready {
          assert wards[i] in wards;
          return false;
        }
      }
      assert wards[..|wards|] == wards;
      return true;
    }

    /** The asynchronous photo check writes nothing but the report. */
    method HandleOcrJob(k: Scope, vision: Vision.VisionExtract)
      requires Valid() && vision.Valid()
      modifies this
      ensures Valid()
      ensures S() == OcrJob(old(S()), k, vision)
    {
      ApplyKeepsSound(g, S(), Worker(k, vision));
      if k !in rows || k.level != PollingUnit {
        return;
      }
      var row := rows[k];
      var arithmetic := V.ArithmeticVerification(row.sheet, |row.photos|);
      if row.photos == [] {
        rows := rows[k := row.(ocr := Some(arithmetic))];
        return;
      }
      var merged := Vision.MergeVisionWithArithmetic(row.sheet, |row.photos|, vision, arithmetic);
      rows := rows[k := row.(ocr := Some(merged))];
    }
  }
}
