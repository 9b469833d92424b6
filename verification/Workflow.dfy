/**
 The collation protocol as a state machine: one result row per place, an append-only action
 log, and one step per endpoint (src/modules/collation/collation.service.ts). A failed step
 returns an error and the state it leaves behind.
 */
module Workflow {
  import opened Collections
  import opened Sheets
  import opened Geography
  import V = Verification
  import Vision

  datatype Status = Draft | Submitted | Approved | Rejected

  type Url = string

  datatype Row = Row(
    sheet: Sheet,
    status: Status,
    photos: seq<Url>,
    flagged: seq<Id>,
    ocr: Option<V.Report>)

  /** `action` of a log entry always names the status moved to, so one field records both. */
  datatype LogEntry = LogEntry(place: Scope, from: Status, to: Status)

  datatype Store = Store(rows: map<Scope, Row>, log: seq<LogEntry>)

  const EMPTY := Store(map[], [])

  datatype User = User(role: Role, id: Id)

  /** Absent keys of `figures` are fields not sent; `None` is an explicit null. */
  datatype Dto = Dto(figures: map<Figure, Option<nat>>, parties: Option<map<Party, int>>, photos: Option<seq<Url>>)

  datatype Action =
    | SaveDraft(dto: Dto)
    | AttachPhoto(place: Scope, url: Url)
    | Submit(place: Scope)
    | Approve(place: Scope)
    | Reject(place: Scope, affected: seq<Id>)
    | ResubmitWard
    | ReturnFlagged
    | ApproveAllWards

  datatype Error =
    | NoCollationAccess
    | WardTotalsAreAutomatic
    | NotEditable
    | NotFound
    | NotOwnScope
    | AlreadyApproved
    | AlreadySubmitted
    | PhotoMissing
    | CannotApproveAtThisLevel
    | NotSubmitted
    | NotOneLevelBelow
    | OutsideScope
    | WardNotReady
    | ApprovedNotReturnable
    | FlaggedOutsideWard
    | NotWardOfficer
    | NotLgaOfficer
    | NoWardRollup
    | WardNotReturned
    | NothingFlagged
    | NothingPending

  /** `count` is the number of results a bulk step acted on, 1 for the others. */
  datatype Outcome = Done(state: Store, count: nat) | Failed(state: Store, error: Error)

  // Reading the state.

  predicate Has(s: Store, k: Scope, st: Status) {
    k in s.rows && s.rows[k].status == st
  }

  predicate IsApproved(s: Store, k: Scope) {
    Has(s, k, Approved)
  }

  predicate IsEditable(st: Status) {
    st in {Draft, Rejected}
  }

  function ApprovedChildren(g: Geo, s: Store, parent: Scope): (r: seq<Scope>)
    ensures forall k :: k in r <==> k in g.places && g.IsChild(k, parent) && IsApproved(s, k)
  {
    Filter(g.Children(parent), k => IsApproved(s, k))
  }

  function SheetsOf(s: Store, ks: seq<Scope>): (r: seq<Sheet>)
    ensures |r| == |ks|
  {
    seq(|ks|, i requires 0 <= i < |ks| => RowOr(s, ks[i]).sheet)
  }

  /** The sheet of a parent: the total of its approved children. */
  function RollupSheet(g: Geo, s: Store, parent: Scope): Sheet {
    TotalSheet(SheetsOf(s, ApprovedChildren(g, s, parent)))
  }

  /** `getWardPuReadinessMap(...).readyForLgaApproval`. */
  predicate Ready(g: Geo, s: Store, ward: Scope) {
    g.Children(ward) != [] && forall k :: k in g.Children(ward) ==> IsApproved(s, k)
  }

  predicate AllReady(g: Geo, s: Store, wards: seq<Scope>) {
    forall w :: w in wards ==> Ready(g, s, w)
  }

  function Access(u: User): Option<Level> {
    if u.id == "" then None else LevelOf(u.role)
  }

  function Own(u: User): Scope
    requires Access(u).Some?
  {
    Scope(Access(u).value, u.id)
  }

  function PlaceAbove(g: Geo, k: Scope): Option<Scope> {
    if k in g.above then Some(g.above[k]) else None
  }

  /** `isWardReturnedByLga`. */
  predicate WardReturned(g: Geo, s: Store, pu: Scope) {
    PlaceAbove(g, pu).Some? && Has(s, PlaceAbove(g, pu).value, Rejected)
  }

  // Writing the state.

  function Put(s: Store, k: Scope, r: Row): Store {
    s.(rows := s.rows[k := r])
  }

  function Log(s: Store, k: Scope, from: Status, to: Status): Store {
    s.(log := s.log + [LogEntry(k, from, to)])
  }

  function RowOr(s: Store, k: Scope): Row {
    if k in s.rows then s.rows[k] else Row(EMPTY_SHEET, Draft, [], [], None)
  }

  /** `rollupToParent`: nothing without an approved child; otherwise totals and a status by level. */
  function Rollup(g: Geo, s: Store, parent: Scope): Store {
    if ApprovedChildren(g, s, parent) == [] then s
    else
      Put(s, parent, RowOr(s, parent).(
        sheet := RollupSheet(g, s, parent),
        status := match parent.level case Ward => Submitted case Lga => Approved case _ => Draft))
  }

  /** `rebuildWardRollupAfterPuChange`. */
  function Rebuild(g: Geo, s: Store, ward: Scope, forceSubmit: bool, keepRejected: bool): Store {
    var status := if forceSubmit then Submitted
                  else if keepRejected || Has(s, ward, Rejected) then Rejected
                  else Submitted;
    Put(s, ward, RowOr(s, ward).(
      sheet := RollupSheet(g, s, ward),
      status := status,
      flagged := if status == Rejected then RowOr(s, ward).flagged else []))
  }

  /** Prisma leaves a column alone when its value is undefined, and clears it when it is null. */
  function MergeFigures(old_: map<Figure, nat>, sent: map<Figure, Option<nat>>): map<Figure, nat> {
    map f | f in ALL_FIGURES && (if f in sent then sent[f].Some? else f in old_) ::
      if f in sent then sent[f].value else old_[f]
  }

  function SentSheet(dto: Dto): Sheet {
    Sheet(MergeFigures(map[], dto.figures), if dto.parties.Some? then dto.parties.value else map[])
  }

  // The endpoints.

  ghost function SaveDraftStep(s: Store, u: User, dto: Dto): Outcome {
    if Access(u).None? then Failed(s, NoCollationAccess)
    else if Access(u).value == Ward then Failed(s, WardTotalsAreAutomatic)
    else if Own(u) in s.rows && !IsEditable(s.rows[Own(u)].status) then Failed(s, NotEditable)
    else
      var was := RowOr(s, Own(u));
      var photos := if dto.photos.Some? then dto.photos.value else was.photos;
      Done(Put(s, Own(u), Row(
        Sheet(MergeFigures(was.sheet.figures, dto.figures),
              if dto.parties.Some? then dto.parties.value else was.sheet.parties),
        Draft,
        photos,
        was.flagged,
        if Own(u).level == PollingUnit then Some(V.WrittenReport(SentSheet(dto), |photos|, false)) else was.ocr)), 1)
  }

  function OwnedError(s: Store, u: User, k: Scope): Option<Error> {
    if Access(u).None? then Some(NoCollationAccess)
    else if k !in s.rows then Some(NotFound)
    else if k != Own(u) then Some(NotOwnScope)
    else None
  }

  ghost function AttachPhotoStep(s: Store, u: User, k: Scope, url: Url): Outcome {
    var e := OwnedError(s, u, k);
    if e.Some? then Failed(s, e.value)
    else if !IsEditable(s.rows[k].status) then Failed(s, NotEditable)
    else
      var photos := s.rows[k].photos + [url];
      Done(Put(s, k, s.rows[k].(
        photos := photos,
        ocr := if k.level == PollingUnit then Some(V.WrittenReport(s.rows[k].sheet, |photos|, false))
               else s.rows[k].ocr)), 1)
  }

  ghost function SubmitStep(s: Store, u: User, k: Scope): Outcome {
    var e := OwnedError(s, u, k);
    if Access(u).Some? && Access(u).value == Ward then Failed(s, WardTotalsAreAutomatic)
    else if e.Some? then Failed(s, e.value)
    else if s.rows[k].status == Approved then Failed(s, AlreadyApproved)
    else if s.rows[k].status == Submitted then Failed(s, AlreadySubmitted)
    else if k.level == PollingUnit && s.rows[k].photos == [] then Failed(s, PhotoMissing)
    else
      Done(Log(Put(s, k, s.rows[k].(
        status := Submitted,
        ocr := if k.level == PollingUnit then Some(V.WrittenReport(s.rows[k].sheet, |s.rows[k].photos|, true))
               else s.rows[k].ocr)), k, s.rows[k].status, Submitted), 1)
  }

  function MarkApproved(s: Store, k: Scope): Store
    requires k in s.rows
  {
    Log(Put(s, k, s.rows[k].(status := Approved, flagged := [])), k, Submitted, Approved)
  }

  function ApproveError(g: Geo, s: Store, u: User, k: Scope): Option<Error> {
    if Access(u).None? then Some(NoCollationAccess)
    else if LevelBelow(Access(u).value).None? then Some(CannotApproveAtThisLevel)
    else if k !in s.rows then Some(NotFound)
    else if s.rows[k].status != Submitted then Some(NotSubmitted)
    else if LevelBelow(Access(u).value) != Some(k.level) then Some(NotOneLevelBelow)
    else if k !in g.Children(Own(u)) then Some(OutsideScope)
    else if k.level == Ward && !Ready(g, s, k) then Some(WardNotReady)
    else None
  }

  function ApproveStep(g: Geo, s: Store, u: User, k: Scope): Outcome {
    var e := ApproveError(g, s, u, k);
    if e.Some? then Failed(s, e.value) else Done(Rollup(g, MarkApproved(s, k), Own(u)), 1)
  }

  /** White space that `trim` removes, within ASCII. */
  predicate IsSpace(c: char) {
    c in {' ', '\t', '\n', '\r', '\U{000B}', '\U{000C}'}
  }

  function Trim(id: string): string {
    if id == "" then ""
    else if IsSpace(id[0]) then Trim(id[1..])
    else if IsSpace(id[|id| - 1]) then Trim(id[..|id| - 1])
    else id
  }

  /** The trimmed, non-empty, distinct ids of `validatePuIdsInWard`. */
  function CleanIds(ids: seq<Id>): (r: seq<Id>)
    ensures Distinct(r)
    ensures forall id :: id in r <==> id != "" && exists i :: 0 <= i < |ids| && Trim(ids[i]) == id
  {
    var trimmed := seq(|ids|, i requires 0 <= i < |ids| => Trim(ids[i]));
    assert forall i :: 0 <= i < |ids| ==> trimmed[i] == Trim(ids[i]);
    Unique(Filter(trimmed, id => id != ""))
  }

  predicate AllInWard(g: Geo, ward: Scope, ids: seq<Id>) {
    forall i :: 0 <= i < |ids| ==> Scope(PollingUnit, ids[i]) in g.Children(ward)
  }

  predicate ReturnsApproved(g: Geo, s: Store, k: Scope) {
    IsApproved(s, k) && k.level == PollingUnit && WardReturned(g, s, k)
  }

  /** An LGA officer returning a ward may flag polling units. */
  predicate FlagsWard(s: Store, u: User, k: Scope) {
    Has(s, k, Submitted) && k.level == Ward && Access(u) == Some(Lga)
  }

  function RejectError(g: Geo, s: Store, u: User, k: Scope, affected: seq<Id>): Option<Error> {
    if Access(u).None? then Some(NoCollationAccess)
    else if k !in s.rows then Some(NotFound)
    else if s.rows[k].status != Submitted && !ReturnsApproved(g, s, k) then
      Some(if s.rows[k].status == Approved then ApprovedNotReturnable else NotSubmitted)
    else if LevelBelow(Access(u).value) != Some(k.level) then Some(CannotApproveAtThisLevel)
    else if k !in g.Children(Own(u)) then Some(OutsideScope)
    else if FlagsWard(s, u, k) && affected != [] && !AllInWard(g, k, CleanIds(affected)) then Some(FlaggedOutsideWard)
    else None
  }

  function MarkRejected(s: Store, u: User, k: Scope, affected: seq<Id>): Store
    requires k in s.rows
  {
    Log(Put(s, k, s.rows[k].(
      status := Rejected,
      flagged := if FlagsWard(s, u, k) then CleanIds(affected) else s.rows[k].flagged)),
      k, s.rows[k].status, Rejected)
  }

  function RejectStep(g: Geo, s: Store, u: User, k: Scope, affected: seq<Id>): Outcome {
    var e := RejectError(g, s, u, k, affected);
    if e.Some? then Failed(s, e.value)
    else
      var marked := MarkRejected(s, u, k, affected);
      Done(if ReturnsApproved(g, s, k) then Rebuild(g, marked, Own(u), false, true) else marked, 1)
  }

  function ResubmitStep(g: Geo, s: Store, u: User): Outcome {
    if Access(u).None? then Failed(s, NoCollationAccess)
    else if Access(u).value != Ward then Failed(s, NotWardOfficer)
    else if Own(u) !in s.rows then Failed(s, NoWardRollup)
    else if s.rows[Own(u)].status != Rejected then Failed(s, WardNotReturned)
    else if !Ready(g, s, Own(u)) then Failed(s, WardNotReady)
    else Done(Log(Rebuild(g, s, Own(u), true, false), Own(u), Rejected, Submitted), 1)
  }

  /** The flagged polling units that a bulk return still has to send back. */
  function ToReturn(s: Store, flagged: seq<Id>): (r: seq<Scope>)
    ensures Distinct(r)
    ensures forall k :: k in r <==>
      k.level == PollingUnit && k.id in flagged && (Has(s, k, Approved) || Has(s, k, Submitted))
  {
    var ids := Unique(flagged);
    var places := seq(|ids|, i requires 0 <= i < |ids| => Scope(PollingUnit, ids[i]));
    assert forall k :: k in places <==> k.level == PollingUnit && k.id in ids by {
      forall k: Scope | k.level == PollingUnit && k.id in ids ensures k in places {
        var i :| 0 <= i < |ids| && ids[i] == k.id;
        assert places[i] == k;
      }
    }
    var pending := (k: Scope) => Has(s, k, Approved) || Has(s, k, Submitted);
    FilterDistinct(places, pending);
    Filter(places, pending)
  }

  /** The loop of `returnLgaFlaggedPus`: one `rejectResult` after another, stopping at the first error. */
  function ReturnEach(g: Geo, s: Store, u: User, ks: seq<Scope>): Outcome
    decreases |ks|
  {
    if ks == [] then Done(s, 0)
    else
      match RejectStep(g, s, u, ks[0], [])
      case Failed(t, e) => Failed(t, e)
      case Done(t, _) =>
        match ReturnEach(g, t, u, ks[1..])
        case Failed(t', e) => Failed(t', e)
        case Done(t', n) => Done(t', n + 1)
  }

  function ReturnFlaggedStep(g: Geo, s: Store, u: User): Outcome {
    if Access(u).None? then Failed(s, NoCollationAccess)
    else if Access(u).value != Ward then Failed(s, NotWardOfficer)
    else if !Has(s, Own(u), Rejected) then Failed(s, WardNotReturned)
    else if s.rows[Own(u)].flagged == [] then Failed(s, NothingFlagged)
    else ReturnEach(g, s, u, ToReturn(s, s.rows[Own(u)].flagged))
  }

  /** Wards of an LGA that wait for approval. */
  function Pending(g: Geo, s: Store, lga: Scope): (r: seq<Scope>)
    ensures forall k :: k in r <==> k in g.Children(lga) && k.level == Ward && Has(s, k, Submitted)
  {
    Filter(g.Children(lga), (k: Scope) => k.level == Ward && Has(s, k, Submitted))
  }

  function ApprovalEntries(ks: seq<Scope>): seq<LogEntry> {
    seq(|ks|, i requires 0 <= i < |ks| => LogEntry(ks[i], Submitted, Approved))
  }

  /** The transaction of the bulk approval; unlike a single approval it keeps the flags. */
  function MarkAllApproved(s: Store, ks: seq<Scope>): Store {
    Store(map k | k in s.rows :: if k in ks then s.rows[k].(status := Approved) else s.rows[k],
          s.log + ApprovalEntries(ks))
  }

  function ApproveAllStep(g: Geo, s: Store, u: User): Outcome {
    if Access(u).None? then Failed(s, NoCollationAccess)
    else if u.role != LgaCollationOfficer then Failed(s, NotLgaOfficer)
    else
      var pending := Pending(g, s, Own(u));
      if pending == [] then Failed(s, NothingPending)
      else if !AllReady(g, s, pending) then Failed(s, WardNotReady)
      else Done(Rollup(g, MarkAllApproved(s, pending), Own(u)), |pending|)
  }

  ghost function Step(g: Geo, s: Store, u: User, a: Action): Outcome {
    match a
    case SaveDraft(dto) => SaveDraftStep(s, u, dto)
    case AttachPhoto(k, url) => AttachPhotoStep(s, u, k, url)
    case Submit(k) => SubmitStep(s, u, k)
    case Approve(k) => ApproveStep(g, s, u, k)
    case Reject(k, affected) => RejectStep(g, s, u, k, affected)
    case ResubmitWard => ResubmitStep(g, s, u)
    case ReturnFlagged => ReturnFlaggedStep(g, s, u)
    case ApproveAllWards => ApproveAllStep(g, s, u)
  }

  /** The asynchronous worker (src/modules/collation/ocr-verify.worker.ts:18-54). */
  ghost function OcrJob(s: Store, k: Scope, vision: Vision.VisionExtract): Store {
    if k !in s.rows || k.level != PollingUnit then s
    else
      var arithmetic := V.ArithmeticReport(s.rows[k].sheet, |s.rows[k].photos|);
      Put(s, k, s.rows[k].(ocr := Some(
        if s.rows[k].photos == [] then arithmetic
        else Vision.MergedReport(s.rows[k].sheet, |s.rows[k].photos|, vision, arithmetic))))
  }

  // Runs.

  datatype Event = Call(user: User, action: Action) | Worker(place: Scope, vision: Vision.VisionExtract)

  ghost function Apply(g: Geo, s: Store, e: Event): Store {
    match e
    case Call(u, a) => Step(g, s, u, a).state
    case Worker(k, v) => OcrJob(s, k, v)
  }

  ghost function Run(g: Geo, s: Store, es: seq<Event>): Store
    decreases |es|
  {
    if es == [] then s else Run(g, Apply(g, s, es[0]), es[1..])
  }

  lemma {:induction false} RunAppend(g: Geo, s: Store, a: seq<Event>, b: seq<Event>)
    ensures Run(g, s, a + b) == Run(g, Run(g, s, a), b)
    decreases |a|
  {
    if a == [] {
      assert a + b == b;
    } else {
      assert (a + b)[1..] == a[1..] + b;
      RunAppend(g, Apply(g, s, a[0]), a[1..], b);
    }
  }
}
