/**
 No ward is ever stuck: from every reachable store the officers have a short schedule of
 successful steps that ends with the ward approved.
 */
module Liveness {
  import opened Collections
  import opened Geography
  import opened Workflow
  import opened Tallies
  import opened Lifecycle

  /** Steps a polling unit still needs: save, attach, submit, approve. */
  function UnitRank(s: Store): Scope -> int {
    k =>
      if k !in s.rows then 4
      else match s.rows[k].status
        case Approved => 0
        case Submitted => 1
        case _ => if s.rows[k].photos == [] then 3 else 2
  }

  function WardRank(s: Store, w: Scope): int {
    if Has(s, w, Approved) then 0 else if Has(s, w, Submitted) then 1 else 2
  }

  function Measure(g: Geo, s: Store, w: Scope): (n: nat)
    ensures n == Sum(g.Children(w), UnitRank(s)) + WardRank(s, w)
  {
    SumNonNegative(g.Children(w), UnitRank(s));
    Sum(g.Children(w), UnitRank(s)) + WardRank(s, w)
  }

  lemma MeasureBound(ks: seq<Scope>, s: Store)
    ensures Sum(ks, UnitRank(s)) <= 4 * |ks|
  {
  }

  function Agent(k: Scope): User {
    User(PollingAgent, k.id)
  }

  function WardOfficer(w: Scope): User {
    User(WardRaOfficer, w.id)
  }

  function LgaOfficer(g: Geo, w: Scope): User
    requires w in g.above
  {
    User(LgaCollationOfficer, g.above[w].id)
  }

  function Unapproved(g: Geo, s: Store, w: Scope): (r: seq<Scope>)
    ensures forall k :: k in r <==> k in g.Children(w) && !IsApproved(s, k)
  {
    Filter(g.Children(w), k => !IsApproved(s, k))
  }

  /** What an unapproved polling unit waits for. */
  function UnitAction(s: Store, w: Scope, k: Scope, photo: Url): (User, Action) {
    if k !in s.rows then (Agent(k), SaveDraft(Dto(map[], None, None)))
    else if s.rows[k].status == Submitted then (WardOfficer(w), Approve(k))
    else if s.rows[k].photos == [] then (Agent(k), AttachPhoto(k, photo))
    else (Agent(k), Submit(k))
  }

  /** What a ward with all polling units approved waits for. */
  function WardAction(g: Geo, s: Store, w: Scope): (User, Action)
    requires w in g.above
  {
    if Has(s, w, Rejected) then (WardOfficer(w), ResubmitWard) else (LgaOfficer(g, w), Approve(w))
  }

  /** The scheduler: who does what next to bring a ward closer to approval. */
  function NextStep(g: Geo, s: Store, w: Scope, photo: Url): (User, Action)
    requires w in g.above
  {
    var waiting := Unapproved(g, s, w);
    if waiting != [] then UnitAction(s, w, waiting[0], photo) else WardAction(g, s, w)
  }

  /** The call succeeds and brings the ward closer to approval. */
  ghost predicate Progress(g: Geo, s: Store, w: Scope, call: (User, Action)) {
    var r := Step(g, s, call.0, call.1);
    r.Done? && Measure(g, r.state, w) < Measure(g, s, w)
  }

  /** `t` is closer to approval of the ward than `s`: unit `k` moved on and the ward did not fall back. */
  lemma UnitCloser(g: Geo, s: Store, t: Store, w: Scope, k: Scope)
    requires k in g.Children(w)
    requires UnitRank(t)(k) < UnitRank(s)(k) && WardRank(t, w) <= WardRank(s, w)
    requires forall x :: x in g.Children(w) && x != k ==> SameRow(s, t, x)
    ensures Measure(g, t, w) < Measure(g, s, w)
  {
    forall x | x in g.Children(w) ensures UnitRank(t)(x) <= UnitRank(s)(x) {
      if x != k {
        assert SameRow(s, t, x);
      }
    }
    SumLess(g.Children(w), UnitRank(t), UnitRank(s), k);
  }

  lemma WardCloser(g: Geo, s: Store, t: Store, w: Scope)
    requires WardRank(t, w) < WardRank(s, w)
    requires forall x :: x in g.Children(w) ==> SameRow(s, t, x)
    ensures Measure(g, t, w) < Measure(g, s, w)
  {
    forall x | x in g.Children(w) ensures UnitRank(t)(x) == UnitRank(s)(x) {
      assert SameRow(s, t, x);
    }
    SumSame(g.Children(w), UnitRank(t), UnitRank(s));
  }

  /** What an agent's next step does to the unit; no other row changes. */
  lemma AgentRows(g: Geo, s: Store, k: Scope, a: Action, photo: Url)
    requires k.level == PollingUnit && k.id != "" && !IsApproved(s, k) && !Has(s, k, Submitted)
    requires a == if k !in s.rows then SaveDraft(Dto(map[], None, None))
                  else if s.rows[k].photos == [] then AttachPhoto(k, photo)
                  else Submit(k)
    ensures var r := Step(g, s, Agent(k), a);
      && r.Done? && UnitRank(r.state)(k) < UnitRank(s)(k)
      && (forall x :: x != k ==> SameRow(s, r.state, x))
  {
    hide MergeFigures;
    assert Own(Agent(k)) == k;
  }

  lemma AgentProgress(g: Geo, s: Store, w: Scope, k: Scope, a: Action, photo: Url)
    requires g.Valid() && k in g.Children(w) && w.level == Ward && !IsApproved(s, k) && !Has(s, k, Submitted)
    requires a == if k !in s.rows then SaveDraft(Dto(map[], None, None))
                  else if s.rows[k].photos == [] then AttachPhoto(k, photo)
                  else Submit(k)
    ensures Progress(g, s, w, (Agent(k), a))
  {
    hide Measure, Step;
    ChildLevel(g, k, w);
    AgentRows(g, s, k, a, photo);
    var t := Step(g, s, Agent(k), a).state;
    assert SameRow(s, t, w);
    UnitCloser(g, s, t, w, k);
  }

  /** The ward officer approves a submitted unit: the unit is approved, the ward waits for the LGA. */
  lemma {:induction false} ApproveUnitRows(g: Geo, s: Store, w: Scope, k: Scope)
    requires g.Valid() && k in g.Children(w) && w.level == Ward && Has(s, k, Submitted)
    ensures var r := ApproveStep(g, s, WardOfficer(w), k);
      && r.Done? && IsApproved(r.state, k) && Has(r.state, w, Submitted)
      && (forall x :: x in g.Children(w) && x != k ==> SameRow(s, r.state, x))
  {
    hide Rollup, RollupSheet;
    ChildLevel(g, k, w);
    assert Own(WardOfficer(w)) == w;
    var mid := MarkApproved(s, k);
    assert k in ApprovedChildren(g, mid, w);
    RollupEffect(g, mid, w);
    var t := Rollup(g, mid, w);
    assert SameRow(mid, t, k);
    forall x | x in g.Children(w) && x != k ensures SameRow(s, t, x) {
      ChildLevel(g, x, w);
      assert SameRow(mid, t, x);
    }
  }

  lemma {:induction false} ApproveUnitProgress(g: Geo, s: Store, w: Scope, k: Scope)
    requires g.Valid() && k in g.Children(w) && w.level == Ward && Has(s, k, Submitted) && !IsApproved(s, w)
    ensures Progress(g, s, w, (WardOfficer(w), Approve(k)))
  {
    hide Measure, ApproveStep, SameRow;
    ApproveUnitRows(g, s, w, k);
    UnitCloser(g, s, ApproveStep(g, s, WardOfficer(w), k).state, w, k);
  }

  lemma ResubmitRows(g: Geo, s: Store, w: Scope)
    requires g.Valid() && w in g.places && w.level == Ward && Has(s, w, Rejected) && Ready(g, s, w)
    ensures var r := ResubmitStep(g, s, WardOfficer(w));
      && r.Done? && Has(r.state, w, Submitted)
      && (forall x :: x in g.Children(w) ==> SameRow(s, r.state, x))
  {
    hide Rebuild, RollupSheet, Ready;
    assert Own(WardOfficer(w)) == w;
    var mid := Rebuild(g, s, w, true, false);
    RebuildEffect(g, s, w, true, false);
    forall x | x in g.Children(w) ensures SameRow(s, mid, x) {
      ChildLevel(g, x, w);
    }
  }

  lemma ResubmitProgress(g: Geo, s: Store, w: Scope)
    requires g.Valid() && w in g.places && w.level == Ward && Has(s, w, Rejected) && Ready(g, s, w)
    ensures Progress(g, s, w, (WardOfficer(w), ResubmitWard))
  {
    hide Measure, ResubmitStep, SameRow, Ready, Tallied, WardIndex, Rebuild, RollupSheet;
    ResubmitRows(g, s, w);
    WardCloser(g, s, ResubmitStep(g, s, WardOfficer(w)).state, w);
  }

  /** The LGA officer approves a ward that is ready: its units stay as they are. */
  lemma ApproveWardRows(g: Geo, s: Store, w: Scope)
    requires g.Valid() && w in g.places && w.level == Ward && Has(s, w, Submitted) && Ready(g, s, w)
    ensures var r := ApproveStep(g, s, LgaOfficer(g, w), w);
      && r.Done? && IsApproved(r.state, w)
      && (forall x :: x in g.Children(w) ==> SameRow(s, r.state, x))
  {
    hide Rollup, RollupSheet, Ready;
    var lga := g.above[w];
    assert Own(LgaOfficer(g, w)) == lga;
    var mid := MarkApproved(s, w);
    assert w in g.Children(lga);
    assert w in ApprovedChildren(g, mid, lga);
    RollupEffect(g, mid, lga);
    var t := Rollup(g, mid, lga);
    assert SameRow(mid, t, w);
    forall x | x in g.Children(w) ensures SameRow(s, t, x) {
      ChildLevel(g, x, w);
      assert SameRow(mid, t, x);
    }
  }

  lemma {:induction false} ApproveWardProgress(g: Geo, s: Store, w: Scope)
    requires g.Valid() && w in g.places && w.level == Ward && Has(s, w, Submitted) && Ready(g, s, w)
    ensures Progress(g, s, w, (LgaOfficer(g, w), Approve(w)))
  {
    hide Measure, ApproveStep, SameRow, Ready, Tallied, WardIndex;
    ApproveWardRows(g, s, w);
    WardCloser(g, s, ApproveStep(g, s, LgaOfficer(g, w), w).state, w);
  }

  lemma NextUnitProgress(g: Geo, s: Store, w: Scope, k: Scope, photo: Url)
    requires g.Valid() && w.level == Ward && k in g.Children(w) && !IsApproved(s, k) && !IsApproved(s, w)
    ensures Progress(g, s, w, UnitAction(s, w, k, photo))
  {
    if Has(s, k, Submitted) {
      ApproveUnitProgress(g, s, w, k);
    } else {
      AgentProgress(g, s, w, k, UnitAction(s, w, k, photo).1, photo);
    }
  }

  lemma {:induction false} NextWardProgress(g: Geo, s: Store, w: Scope)
    requires g.Valid() && Tallied(g, s) && w in g.places && w.level == Ward && !IsApproved(s, w)
    requires g.Children(w) != [] && Unapproved(g, s, w) == []
    ensures Progress(g, s, w, WardAction(g, s, w))
  {
    AllApprovedIsReady(g, s, w);
    if Has(s, w, Rejected) {
      ResubmitProgress(g, s, w);
    } else {
      ApproveWardProgress(g, s, w);
    }
  }

  /** Every scheduled step succeeds and makes progress. */
  lemma NextStepProgress(g: Geo, s: Store, w: Scope, photo: Url)
    requires g.Valid() && Tallied(g, s) && w in g.places && w.level == Ward
    requires g.Children(w) != [] && !IsApproved(s, w)
    ensures Progress(g, s, w, NextStep(g, s, w, photo))
  {
    var waiting := Unapproved(g, s, w);
    if waiting != [] {
      assert waiting[0] in waiting;
      NextUnitProgress(g, s, w, waiting[0], photo);
    } else {
      NextWardProgress(g, s, w);
    }
  }

  lemma AllApprovedIsReady(g: Geo, s: Store, w: Scope)
    requires g.Valid() && Tallied(g, s) && w in g.places && w.level == Ward
    requires g.Children(w) != [] && Unapproved(g, s, w) == []
    ensures Ready(g, s, w) && w in s.rows && s.rows[w].status != Draft
  {
    forall k | k in g.Children(w) ensures IsApproved(s, k) {
      assert k !in Unapproved(g, s, w);
    }
    var k := g.Children(w)[0];
    assert k in g.Children(w) && k in ApprovedChildren(g, s, w);
    assert WardIndex(g, s, w);
  }

  /** All calls of a schedule succeed. */
  ghost predicate Succeeds(g: Geo, s: Store, es: seq<Event>)
    decreases |es|
  {
    es == [] || (es[0].Call? && Step(g, s, es[0].user, es[0].action).Done? && Succeeds(g, Apply(g, s, es[0]), es[1..]))
  }

  /** Following the scheduler: at most one step per unit of the measure, then the ward is approved. */
  lemma {:induction false} Schedule(g: Geo, s: Store, w: Scope, photo: Url) returns (es: seq<Event>)
    requires g.Valid() && Sound(g, s) && w in g.places && w.level == Ward && g.Children(w) != []
    ensures |es| <= Measure(g, s, w)
    ensures Succeeds(g, s, es) && IsApproved(Run(g, s, es), w)
    decreases Measure(g, s, w)
  {
    if IsApproved(s, w) {
      return [];
    }
    var (u, a) := NextStep(g, s, w, photo);
    var e := Call(u, a);
    NextStepProgress(g, s, w, photo);
    ApplyKeepsSound(g, s, e);
    var rest := Schedule(g, Apply(g, s, e), w, photo);
    es := [e] + rest;
    assert es[1..] == rest;
  }

  /** No stuck state: any ward with polling units can be approved from any reachable store. */
  lemma NoWardIsStuck(g: Geo, history: seq<Event>, w: Scope, photo: Url)
    requires g.Valid() && w in g.places && w.level == Ward && g.Children(w) != []
    ensures var s := Run(g, EMPTY, history);
      exists es :: |es| <= 4 * |g.Children(w)| + 2 && Succeeds(g, s, es) && IsApproved(Run(g, s, es), w)
  {
    var s := Run(g, EMPTY, history);
    ReachableIsSound(g, history);
    var es := Schedule(g, s, w, photo);
    MeasureBound(g.Children(w), s);
  }
}
