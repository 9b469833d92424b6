/**
 What a saved draft holds, from one call to whole runs: the numbers that the rollups add up are the
 ones that were typed (src/modules/collation/collation.service.ts:863-960).
 */
module Drafts {
  import opened Collections
  import opened Sheets
  import opened Geography
  import opened Workflow
  import opened Tallies
  import opened Conservation
  import opened Lifecycle
  import V = Verification

  function FigureIn(s: Store, k: Scope, f: Figure): Option<nat> {
    if k in s.rows && f in s.rows[k].sheet.figures then Some(s.rows[k].sheet.figures[f]) else None
  }

  function PartiesIn(s: Store, k: Scope): map<Party, int> {
    if k in s.rows then s.rows[k].sheet.parties else map[]
  }

  function PhotosIn(s: Store, k: Scope): seq<Url> {
    if k in s.rows then s.rows[k].photos else []
  }

  // One call.

  /** A draft is accepted from anyone but a ward officer, for a result that is new, DRAFT or REJECTED. */
  lemma DraftAcceptedExactly(s: Store, u: User, dto: Dto)
    ensures SaveDraftStep(s, u, dto).Done? <==>
      && Access(u).Some? && Access(u).value != Ward
      && (Own(u) in s.rows ==> s.rows[Own(u)].status == Draft || s.rows[Own(u)].status == Rejected)
    ensures SaveDraftStep(s, u, dto).Failed? ==> SaveDraftStep(s, u, dto).state == s
  {
  }

  /**
   What an accepted draft stores, figure by figure: a number sent is the number stored, a null sent
   leaves none, and a figure not sent is as before; likewise a party record and a photo list.
   */
  lemma DraftStores(s: Store, u: User, dto: Dto, f: Figure)
    requires SaveDraftStep(s, u, dto).Done?
    ensures var t, k := SaveDraftStep(s, u, dto).state, Own(u);
      && FigureIn(t, k, f) == (if f in dto.figures then dto.figures[f] else FigureIn(s, k, f))
      && PartiesIn(t, k) == (if dto.parties.Some? then dto.parties.value else PartiesIn(s, k))
      && PhotosIn(t, k) == (if dto.photos.Some? then dto.photos.value else PhotosIn(s, k))
      && Has(t, k, Draft) && t.rows[k].flagged == RowOr(s, k).flagged
      && (forall x :: x != k ==> SameRow(s, t, x)) && t.log == s.log
  {
    EveryFigure(f);
  }

  /** The sheet that the report stored with a draft is about: what was sent, and nothing else. */
  function JustSent(dto: Dto): Sheet {
    Sheet(map f | f in dto.figures && dto.figures[f].Some? :: dto.figures[f].value,
          if dto.parties.Some? then dto.parties.value else map[])
  }

  /** The report stored with a unit's draft judges only what was sent, not the figures kept from before. */
  lemma DraftReportJudgesWhatWasSent(s: Store, u: User, dto: Dto)
    requires SaveDraftStep(s, u, dto).Done? && Own(u).level == PollingUnit
    ensures var row := SaveDraftStep(s, u, dto).state.rows[Own(u)];
      && row.ocr.Some?
      && (row.ocr.value.recommendation == V.Return <==> exists i :: V.Fails(JustSent(dto), i))
      && (row.ocr.value.recommendation == V.CheckPhoto <==> JustSent(dto) == EMPTY_SHEET)
      && row.ocr.value.photoCount == |row.photos|
  {
    assert SentSheet(dto).figures == JustSent(dto).figures by {
      forall f ensures f in ALL_FIGURES {
        EveryFigure(f);
      }
    }
    V.ArithmeticVerdict(SentSheet(dto), |PhotosIn(SaveDraftStep(s, u, dto).state, Own(u))|);
  }

  // What has been typed for a place, over a run.

  ghost predicate IsDraftFor(s: Store, e: Event, k: Scope) {
    && e.Call? && e.action.SaveDraft? && Access(e.user).Some? && Own(e.user) == k
    && SaveDraftStep(s, e.user, e.action.dto).Done?
  }

  ghost predicate IsPhotoFor(s: Store, e: Event, k: Scope) {
    && e.Call? && e.action.AttachPhoto? && e.action.place == k
    && AttachPhotoStep(s, e.user, k, e.action.url).Done?
  }

  /** The figure in the last accepted draft that sent it; `before` when there is none. */
  ghost function TypedFigure(g: Geo, s: Store, es: seq<Event>, k: Scope, f: Figure, before: Option<nat>): Option<nat>
    decreases |es|
  {
    if es == [] then before
    else TypedFigure(g, Apply(g, s, es[0]), es[1..], k, f,
                     if IsDraftFor(s, es[0], k) && f in es[0].action.dto.figures then es[0].action.dto.figures[f]
                     else before)
  }

  /** The party record of the last accepted draft that sent one. */
  ghost function TypedParties(g: Geo, s: Store, es: seq<Event>, k: Scope, before: map<Party, int>): map<Party, int>
    decreases |es|
  {
    if es == [] then before
    else TypedParties(g, Apply(g, s, es[0]), es[1..], k,
                      if IsDraftFor(s, es[0], k) && es[0].action.dto.parties.Some?
                      then es[0].action.dto.parties.value else before)
  }

  /** The photo list of the last accepted draft that sent one, with the photos attached since. */
  ghost function SentPhotos(g: Geo, s: Store, es: seq<Event>, k: Scope, before: seq<Url>): seq<Url>
    decreases |es|
  {
    if es == [] then before
    else SentPhotos(g, Apply(g, s, es[0]), es[1..], k,
                    if IsDraftFor(s, es[0], k) && es[0].action.dto.photos.Some? then es[0].action.dto.photos.value
                    else if IsPhotoFor(s, es[0], k) then before + [es[0].action.url]
                    else before)
  }

  ghost predicate SameTyped(s: Store, t: Store, k: Scope) {
    RowOr(t, k).sheet == RowOr(s, k).sheet && RowOr(t, k).photos == RowOr(s, k).photos
  }

  lemma RejectKeepsTyped(g: Geo, s: Store, u: User, p: Scope, affected: seq<Id>, k: Scope)
    requires g.Valid() && k.level == PollingUnit
    ensures SameTyped(s, RejectStep(g, s, u, p, affected).state, k)
  {
    hide Rebuild, CleanIds, RejectError, ReturnsApproved;
    if RejectError(g, s, u, p, affected).None? {
      var mid := MarkRejectedTyped(g, s, u, p, affected, k);
      RebuildEffect(g, mid, Own(u), false, true);
      assert SameRow(mid, RejectStep(g, s, u, p, affected).state, k);
    }
  }

  lemma MarkRejectedTyped(g: Geo, s: Store, u: User, p: Scope, affected: seq<Id>, k: Scope) returns (mid: Store)
    requires RejectError(g, s, u, p, affected).None? && k.level == PollingUnit
    ensures p in s.rows && Access(u).Some? && mid == MarkRejected(s, u, p, affected) && SameTyped(s, mid, k)
    ensures ReturnsApproved(g, s, p) ==> k != Own(u)
  {
    hide CleanIds, FlagsWard;
    mid := MarkRejected(s, u, p, affected);
  }

  lemma {:induction false} ReturnEachKeepsTyped(g: Geo, s: Store, u: User, ks: seq<Scope>, k: Scope)
    requires g.Valid() && k.level == PollingUnit
    ensures SameTyped(s, ReturnEach(g, s, u, ks).state, k)
    decreases |ks|
  {
    hide RejectStep;
    if ks != [] {
      RejectKeepsTyped(g, s, u, ks[0], [], k);
      ReturnEachKeepsTyped(g, RejectStep(g, s, u, ks[0], []).state, u, ks[1..], k);
    }
  }

  lemma ResubmitKeepsTyped(g: Geo, s: Store, u: User, k: Scope)
    requires k.level == PollingUnit
    ensures SameTyped(s, ResubmitStep(g, s, u).state, k)
  {
    hide Rebuild, Ready;
    if ResubmitStep(g, s, u).Done? {
      RebuildEffect(g, s, Own(u), true, false);
      assert SameRow(s, Rebuild(g, s, Own(u), true, false), k);
    }
  }

  lemma ApproveKeepsTyped(g: Geo, s: Store, u: User, p: Scope, k: Scope)
    requires k.level == PollingUnit
    ensures SameTyped(s, ApproveStep(g, s, u, p).state, k)
  {
    hide Rollup, Ready;
    if ApproveError(g, s, u, p).None? {
      RollupElsewhere(g, MarkApproved(s, p), Own(u), k);
    }
  }

  lemma ApproveAllKeepsTyped(g: Geo, s: Store, u: User, k: Scope)
    requires k.level == PollingUnit
    ensures SameTyped(s, ApproveAllStep(g, s, u).state, k)
  {
    hide Rollup, Ready;
    if ApproveAllStep(g, s, u).Done? {
      RollupElsewhere(g, MarkAllApproved(s, Pending(g, s, Own(u))), Own(u), k);
    }
  }

  lemma RollupElsewhere(g: Geo, s: Store, parent: Scope, k: Scope)
    requires k != parent
    ensures SameRow(s, Rollup(g, s, parent), k)
  {
    hide RollupSheet;
  }

  lemma OwnerStepOnTyped(g: Geo, s: Store, u: User, a: Action, k: Scope)
    requires a.SaveDraft? || a.AttachPhoto? || a.Submit?
    ensures var t, e := Step(g, s, u, a).state, Call(u, a);
      && (!IsDraftFor(s, e, k) ==> RowOr(t, k).sheet == RowOr(s, k).sheet)
      && (!IsDraftFor(s, e, k) && !IsPhotoFor(s, e, k) ==> RowOr(t, k).photos == RowOr(s, k).photos)
      && (IsPhotoFor(s, e, k) ==> RowOr(t, k).photos == RowOr(s, k).photos + [a.url])
  {
    hide MergeFigures;
  }

  /** Only accepted drafts and photos for a polling unit change what is stored of its form. */
  lemma ApplyOnTyped(g: Geo, s: Store, e: Event, k: Scope)
    requires g.Valid() && k.level == PollingUnit
    ensures var t := Apply(g, s, e);
      && (!IsDraftFor(s, e, k) ==> RowOr(t, k).sheet == RowOr(s, k).sheet)
      && (!IsDraftFor(s, e, k) && !IsPhotoFor(s, e, k) ==> RowOr(t, k).photos == RowOr(s, k).photos)
      && (IsPhotoFor(s, e, k) ==> RowOr(t, k).photos == RowOr(s, k).photos + [e.action.url])
  {
    hide ApproveStep, RejectStep, ResubmitStep, ReturnEach, ApproveAllStep, SaveDraftStep, AttachPhotoStep, SubmitStep;
    match e
    case Worker(p, v) =>
    case Call(u, a) =>
      match a
      case Approve(p) => ApproveKeepsTyped(g, s, u, p, k);
      case Reject(p, affected) => RejectKeepsTyped(g, s, u, p, affected, k);
      case ResubmitWard => ResubmitKeepsTyped(g, s, u, k);
      case ReturnFlagged =>
        if Access(u).Some? && Has(s, Own(u), Rejected) {
          ReturnEachKeepsTyped(g, s, u, ToReturn(s, s.rows[Own(u)].flagged), k);
        }
      case ApproveAllWards => ApproveAllKeepsTyped(g, s, u, k);
      case _ => OwnerStepOnTyped(g, s, u, a, k);
  }

  /** After any run, a polling unit's figure is the one typed last, or none. */
  lemma {:induction false} FigureIsTyped(g: Geo, s: Store, es: seq<Event>, k: Scope, f: Figure)
    requires g.Valid() && k.level == PollingUnit
    ensures FigureIn(Run(g, s, es), k, f) == TypedFigure(g, s, es, k, f, FigureIn(s, k, f))
    decreases |es|
  {
    hide Apply, SaveDraftStep;
    if es != [] {
      var e, t := es[0], Apply(g, s, es[0]);
      ApplyOnTyped(g, s, e, k);
      if IsDraftFor(s, e, k) {
        DraftIsApplied(g, s, e, k);
        DraftStores(s, e.user, e.action.dto, f);
      }
      FigureIsTyped(g, t, es[1..], k, f);
    }
  }

  lemma DraftIsApplied(g: Geo, s: Store, e: Event, k: Scope)
    requires IsDraftFor(s, e, k)
    ensures Apply(g, s, e) == SaveDraftStep(s, e.user, e.action.dto).state
  {
    hide SaveDraftStep;
  }

  lemma {:induction false} PartiesAreTyped(g: Geo, s: Store, es: seq<Event>, k: Scope)
    requires g.Valid() && k.level == PollingUnit
    ensures PartiesIn(Run(g, s, es), k) == TypedParties(g, s, es, k, PartiesIn(s, k))
    decreases |es|
  {
    hide Apply, SaveDraftStep;
    if es != [] {
      var e, t := es[0], Apply(g, s, es[0]);
      ApplyOnTyped(g, s, e, k);
      if IsDraftFor(s, e, k) {
        DraftIsApplied(g, s, e, k);
        DraftStores(s, e.user, e.action.dto, VotesCast);
      }
      PartiesAreTyped(g, t, es[1..], k);
    }
  }

  lemma {:induction false} PhotosAreSent(g: Geo, s: Store, es: seq<Event>, k: Scope)
    requires g.Valid() && k.level == PollingUnit
    ensures PhotosIn(Run(g, s, es), k) == SentPhotos(g, s, es, k, PhotosIn(s, k))
    decreases |es|
  {
    hide Apply, SaveDraftStep, AttachPhotoStep;
    if es != [] {
      var e, t := es[0], Apply(g, s, es[0]);
      ApplyOnTyped(g, s, e, k);
      if IsDraftFor(s, e, k) {
        DraftIsApplied(g, s, e, k);
        DraftStores(s, e.user, e.action.dto, VotesCast);
      }
      PhotosAreSent(g, t, es[1..], k);
    }
  }

  /** A number as it was typed for a polling unit, with none read as zero. */
  ghost function TypedCell(g: Geo, history: seq<Event>, k: Scope, c: Column): int {
    match c
    case OfFigure(f) =>
      var typed := TypedFigure(g, EMPTY, history, k, f, None);
      if typed.Some? then typed.value else 0
    case OfParty(p) => At(TypedParties(g, EMPTY, history, k, map[]), p)
  }

  /** What was typed for a polling unit counts for an LGA while its ward is approved and in the LGA. */
  ghost function TypedVotes(g: Geo, history: seq<Event>, lga: Scope, c: Column): Scope -> int {
    k =>
      if InApprovedWard(g, Run(g, EMPTY, history), k) && PlaceAbove(g, g.above[k]) == Some(lga)
      then TypedCell(g, history, k, c) else 0
  }

  lemma UnitCountsWhatWasTyped(g: Geo, history: seq<Event>, lga: Scope, c: Column, k: Scope)
    requires g.Valid()
    ensures UnitVotes(g, Run(g, EMPTY, history), lga, c)(k) == TypedVotes(g, history, lga, c)(k)
  {
    hide Run, TypedFigure, TypedParties;
    if k.level == PollingUnit {
      match c {
        case OfFigure(f) => FigureIsTyped(g, EMPTY, history, k, f);
        case OfParty(p) => PartiesAreTyped(g, EMPTY, history, k);
      }
    }
  }

  /**
   Conservation down to the forms: after any run, each number of an LGA with an approved ward is the sum
   of what was typed last at the polling units of its approved wards.
   */
  lemma LgaCountsWhatWasTyped(g: Geo, history: seq<Event>, lga: Scope, c: Column)
    requires g.Valid() && lga in g.places && lga.level == Lga
    requires ApprovedChildren(g, Run(g, EMPTY, history), lga) != []
    ensures var s := Run(g, EMPTY, history);
      IsApproved(s, lga) && Cell(s.rows[lga].sheet, c) == Sum(g.places, TypedVotes(g, history, lga, c))
  {
    hide Run, TypedVotes, UnitVotes, Cell, Sum, ApprovedChildren, RollupSheet;
    var s := Run(g, EMPTY, history);
    ReachableIsSound(g, history);
    assert LgaIndex(g, s, lga);
    LgaRollupCountsUnits(g, s, lga, c);
    forall k | k in g.places ensures UnitVotes(g, s, lga, c)(k) == TypedVotes(g, history, lga, c)(k) {
      UnitCountsWhatWasTyped(g, history, lga, c, k);
    }
    SumSame(g.places, UnitVotes(g, s, lga, c), TypedVotes(g, history, lga, c));
  }
}
