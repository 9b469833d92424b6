/**
 The two bulk endpoints: approving all wards at once refines approving them one at a time in
 any order, and returning all flagged polling units never stops halfway.
 */
module Bulk {
  import opened Collections
  import opened Geography
  import opened Workflow
  import opened Tallies
  import opened Lifecycle

  // Approving wards one at a time.

  /** `approveResult` on each of `ks` in turn, stopping at the first error. */
  function ApproveEach(g: Geo, s: Store, u: User, ks: seq<Scope>): Outcome
    decreases |ks|
  {
    if ks == [] then Done(s, 0)
    else
      match ApproveStep(g, s, u, ks[0])
      case Failed(t, e) => Failed(t, e)
      case Done(t, _) =>
        match ApproveEach(g, t, u, ks[1..])
        case Failed(t', e) => Failed(t', e)
        case Done(t', n) => Done(t', n + 1)
  }

  /** `ks` are distinct wards of `lga`, waiting for approval. */
  ghost predicate Waiting(g: Geo, s: Store, ks: seq<Scope>, lga: Scope) {
    Distinct(ks) && forall k :: k in ks ==> k in Pending(g, s, lga)
  }

  /** Row `k` became approved; what happened to its flags is left open. */
  ghost predicate RowApproved(s: Store, t: Store, k: Scope) {
    k in s.rows && k in t.rows && t.rows[k] == s.rows[k].(status := Approved, flagged := t.rows[k].flagged)
  }

  ghost predicate Logged(s: Store, t: Store, ks: seq<Scope>, k: Scope) {
    Moves(t.log, k) == Moves(s.log, k) + if k in ks then [Approved] else []
  }

  /** `t` is `s` with exactly `ks` approved, and logged as approved. */
  ghost predicate JustApproved(s: Store, t: Store, ks: seq<Scope>) {
    && (forall k {:trigger RowApproved(s, t, k)} :: k in ks ==> RowApproved(s, t, k))
    && (forall k {:trigger SameRow(s, t, k)} :: k !in ks ==> SameRow(s, t, k))
    && (forall k :: Logged(s, t, ks, k))
  }

  /** `t` is `s` with exactly the wards `ks` approved and the LGA row rolled up. */
  ghost predicate ApprovedInto(g: Geo, s: Store, t: Store, ks: seq<Scope>, lga: Scope) {
    && (forall k {:trigger RowApproved(s, t, k)} :: k in ks ==> RowApproved(s, t, k))
    && (forall k {:trigger SameRow(s, t, k)} :: k !in ks && k != lga ==> SameRow(s, t, k))
    && (forall k :: Logged(s, t, ks, k))
    && lga in t.rows
    && t.rows[lga] == RowOr(s, lga).(status := Approved, sheet := RollupSheet(g, t, lga))
  }

  /** The LGA rollup that follows approving some of its wards. */
  lemma RollupAfterApproval(g: Geo, s: Store, mid: Store, ks: seq<Scope>, lga: Scope)
    requires g.Valid() && lga.level == Lga && ks != [] && JustApproved(s, mid, ks)
    requires forall k :: k in ks ==> k in g.Children(lga)
    ensures ApprovedInto(g, s, Rollup(g, mid, lga), ks, lga)
  {
    var t := Rollup(g, mid, lga);
    assert ks[0] in ks && RowApproved(s, mid, ks[0]);
    assert ks[0] in ApprovedChildren(g, mid, lga);
    RollupEffect(g, mid, lga);
    forall c | c in g.Children(lga) ensures SameApproved(mid, t, c) {
      ChildLevel(g, c, lga);
      assert SameRow(mid, t, c);
    }
    RollupDependsOnApproved(g, mid, t, lga);
    forall k | k in ks ensures RowApproved(s, t, k) {
      ChildLevel(g, k, lga);
      assert SameRow(mid, t, k) && RowApproved(s, mid, k);
    }
    forall k | k !in ks && k != lga ensures SameRow(s, t, k) {
      assert SameRow(s, mid, k) && SameRow(mid, t, k);
    }
    if lga in ks {
      ChildLevel(g, lga, lga);
    }
    assert SameRow(s, mid, lga);
    forall k ensures Logged(s, t, ks, k) {
      assert Logged(s, mid, ks, k);
    }
  }

  lemma WaitingIsWard(g: Geo, s: Store, ks: seq<Scope>, lga: Scope, k: Scope)
    requires g.Valid() && Waiting(g, s, ks, lga) && k in ks && lga.level == Lga
    ensures k.level == Ward && k in g.Children(lga) && Has(s, k, Submitted) && k in g.above && g.above[k] == lga
  {
    assert k in Pending(g, s, lga);
    ChildLevel(g, k, lga);
  }

  lemma MarkApprovedEffect(s: Store, k: Scope)
    requires k in s.rows
    ensures JustApproved(s, MarkApproved(s, k), [k])
  {
    forall x ensures Logged(s, MarkApproved(s, k), [k], x) {
      LogEffect(s, k, Submitted, Approved, x);
    }
  }

  /** An LGA officer's approval of one waiting, ready ward. */
  lemma {:induction false} ApproveOne(g: Geo, s: Store, u: User, k: Scope)
    requires g.Valid() && Access(u) == Some(Lga)
    requires k in Pending(g, s, Own(u)) && Ready(g, s, k)
    ensures var r := ApproveStep(g, s, u, k); r.Done? && ApprovedInto(g, s, r.state, [k], Own(u))
  {
    ChildLevel(g, k, Own(u));
    MarkApprovedEffect(s, k);
    RollupAfterApproval(g, s, MarkApproved(s, k), [k], Own(u));
  }

  /** Approving one ward leaves the other waiting wards waiting and as ready as before. */
  lemma {:induction false} ApproveOneKeepsOthers(g: Geo, s: Store, t: Store, k: Scope, lga: Scope, x: Scope)
    requires g.Valid() && lga.level == Lga && ApprovedInto(g, s, t, [k], lga) && k in g.Children(lga)
    requires x in Pending(g, s, lga) && x != k
    ensures x in Pending(g, t, lga)
    ensures Ready(g, t, x) <==> Ready(g, s, x)
  {
    ChildLevel(g, k, lga);
    ChildLevel(g, x, lga);
    assert SameRow(s, t, x);
    forall c | c in g.Children(x) ensures IsApproved(s, c) == IsApproved(t, c) {
      ChildLevel(g, c, x);
      assert SameRow(s, t, c);
    }
  }

  lemma ApprovedIntoComposes(g: Geo, s: Store, m: Store, t: Store, k: Scope, ks: seq<Scope>, lga: Scope)
    requires ApprovedInto(g, s, m, [k], lga) && ApprovedInto(g, m, t, ks, lga)
    requires k !in ks && k != lga && lga !in ks
    ensures ApprovedInto(g, s, t, [k] + ks, lga)
  {
    forall x | x in [k] + ks ensures RowApproved(s, t, x) {
      if x == k {
        assert RowApproved(s, m, x) && SameRow(m, t, x);
      } else {
        assert SameRow(s, m, x) && RowApproved(m, t, x);
      }
    }
    forall x | x !in [k] + ks && x != lga ensures SameRow(s, t, x) {
      assert SameRow(s, m, x) && SameRow(m, t, x);
    }
    forall x ensures Logged(s, t, [k] + ks, x) {
      assert Logged(s, m, [k], x) && Logged(m, t, ks, x);
    }
  }

  /** After the first approval, the rest of the wards wait in the new store. */
  lemma RestWaits(g: Geo, s: Store, t: Store, ks: seq<Scope>, lga: Scope)
    requires g.Valid() && lga.level == Lga && ks != [] && Waiting(g, s, ks, lga)
    requires ApprovedInto(g, s, t, [ks[0]], lga)
    ensures Waiting(g, t, ks[1..], lga)
    ensures forall x :: x in ks[1..] ==> (Ready(g, t, x) <==> Ready(g, s, x))
    ensures ks[0] !in ks[1..] && ks[0] != lga && lga !in ks[1..]
  {
    assert ks[0] in ks;
    WaitingIsWard(g, s, ks, lga, ks[0]);
    forall x | x in ks[1..] ensures x in Pending(g, t, lga) && (Ready(g, t, x) <==> Ready(g, s, x)) && x != lga {
      assert x in ks && x != ks[0];
      WaitingIsWard(g, s, ks, lga, x);
      ApproveOneKeepsOthers(g, s, t, ks[0], lga, x);
    }
  }

  lemma {:induction false} ApproveEachReady(g: Geo, s: Store, u: User, ks: seq<Scope>)
    requires g.Valid() && Access(u) == Some(Lga) && Waiting(g, s, ks, Own(u)) && ks != []
    requires forall k :: k in ks ==> Ready(g, s, k)
    ensures var r := ApproveEach(g, s, u, ks);
      r.Done? && r.count == |ks| && ApprovedInto(g, s, r.state, ks, Own(u))
    decreases |ks|
  {
    var k, rest, lga := ks[0], ks[1..], Own(u);
    assert ks == [k] + rest && k in ks;
    ApproveOne(g, s, u, k);
    var t := ApproveStep(g, s, u, k).state;
    if rest == [] {
      assert ks == [k];
    } else {
      RestWaits(g, s, t, ks, lga);
      forall x | x in rest ensures Ready(g, t, x) {
        assert x in ks;
      }
      ApproveEachReady(g, t, u, rest);
      ApprovedIntoComposes(g, s, t, ApproveEach(g, t, u, rest).state, k, rest, lga);
    }
  }

  lemma {:induction false} ApproveEachUnready(g: Geo, s: Store, u: User, ks: seq<Scope>, bad: Scope)
    requires g.Valid() && Access(u) == Some(Lga) && Waiting(g, s, ks, Own(u))
    requires bad in ks && !Ready(g, s, bad)
    ensures IsRefusal(ApproveEach(g, s, u, ks), WardNotReady)
    decreases |ks|
  {
    hide Ready, Rollup, RollupSheet;
    var k := ks[0];
    assert k in ks;
    if Ready(g, s, k) {
      ApproveOne(g, s, u, k);
      RestUnready(g, s, ApproveStep(g, s, u, k).state, ks, Own(u), bad);
      ApproveEachUnready(g, ApproveStep(g, s, u, k).state, u, ks[1..], bad);
    } else {
      UnreadyIsRefused(g, s, u, k);
    }
  }

  predicate IsRefusal(r: Outcome, e: Error) {
    r.Failed? && r.error == e
  }

  lemma {:induction false} RestUnready(g: Geo, s: Store, t: Store, ks: seq<Scope>, lga: Scope, bad: Scope)
    requires g.Valid() && lga.level == Lga && ks != [] && Waiting(g, s, ks, lga)
    requires ApprovedInto(g, s, t, [ks[0]], lga)
    requires bad in ks && !Ready(g, s, bad) && Ready(g, s, ks[0])
    ensures Waiting(g, t, ks[1..], lga) && bad in ks[1..] && !Ready(g, t, bad)
  {
    RestWaits(g, s, t, ks, lga);
  }

  lemma {:induction false} UnreadyIsRefused(g: Geo, s: Store, u: User, k: Scope)
    requires g.Valid() && Access(u) == Some(Lga) && k in Pending(g, s, Own(u)) && !Ready(g, s, k)
    ensures ApproveStep(g, s, u, k) == Failed(s, WardNotReady)
  {
  }

  lemma {:induction false} MovesOfApprovals(ks: seq<Scope>, k: Scope)
    requires Distinct(ks)
    ensures Moves(ApprovalEntries(ks), k) == if k in ks then [Approved] else []
  {
    if ks != [] {
      var front := ks[..|ks| - 1];
      assert ApprovalEntries(ks)[..|ks| - 1] == ApprovalEntries(front);
      assert ks == front + [ks[|ks| - 1]];
      MovesOfApprovals(front, k);
    }
  }

  /** The bulk approval of waiting, ready wards. */
  lemma {:induction false} ApproveAllReady(g: Geo, s: Store, u: User)
    requires g.Valid() && Access(u) == Some(Lga) && u.role == LgaCollationOfficer
    requires Pending(g, s, Own(u)) != [] && forall k :: k in Pending(g, s, Own(u)) ==> Ready(g, s, k)
    ensures var r := ApproveAllStep(g, s, u);
      r.Done? && r.count == |Pending(g, s, Own(u))| && ApprovedInto(g, s, r.state, Pending(g, s, Own(u)), Own(u))
  {
    var ks := Pending(g, s, Own(u));
    PendingIsWaiting(g, s, Own(u));
    MarkAllEffect(s, ks);
    RollupAfterApproval(g, s, MarkAllApproved(s, ks), ks, Own(u));
  }

  lemma MarkAllEffect(s: Store, ks: seq<Scope>)
    requires Distinct(ks) && forall k :: k in ks ==> k in s.rows
    ensures JustApproved(s, MarkAllApproved(s, ks), ks)
  {
    forall k ensures Logged(s, MarkAllApproved(s, ks), ks, k) {
      MovesAppend(s.log, ApprovalEntries(ks), k);
      MovesOfApprovals(ks, k);
    }
  }

  lemma PendingIsWaiting(g: Geo, s: Store, lga: Scope)
    requires g.Valid()
    ensures Waiting(g, s, Pending(g, s, lga), lga)
  {
    g.ChildrenDistinct(lga);
    FilterDistinct(g.Children(lga), (k: Scope) => k.level == Ward && Has(s, k, Submitted));
    FilterSame(g.Children(lga), (k: Scope) => k.level == Ward && Has(s, k, Submitted),
               (k: Scope) => k.level == Ward && Has(s, k, Submitted));
  }

  ghost predicate SameRowButFlags(s: Store, t: Store, k: Scope) {
    (k in s.rows <==> k in t.rows) && (k in s.rows ==> s.rows[k] == t.rows[k].(flagged := s.rows[k].flagged))
  }

  /** Equal rows but for flags, and equal action logs place by place. */
  ghost predicate SameButFlags(s: Store, t: Store) {
    && (forall k :: SameRowButFlags(s, t, k))
    && (forall k :: Moves(s.log, k) == Moves(t.log, k))
  }

  lemma ApprovedIntoIsUnique(g: Geo, s: Store, t: Store, t': Store, ks: seq<Scope>, ks': seq<Scope>, lga: Scope)
    requires g.Valid() && lga.level == Lga && lga !in ks
    requires forall k :: k in ks <==> k in ks'
    requires ApprovedInto(g, s, t, ks, lga) && ApprovedInto(g, s, t', ks', lga)
    ensures SameButFlags(t, t')
  {
    forall k | k != lga ensures SameRowButFlags(t, t', k) {
      if k in ks {
        assert RowApproved(s, t, k) && RowApproved(s, t', k);
      } else {
        assert SameRow(s, t, k) && SameRow(s, t', k);
      }
    }
    forall k | k in g.Children(lga) ensures SameApproved(t, t', k) {
      ChildLevel(g, k, lga);
      assert SameRowButFlags(t, t', k);
    }
    RollupDependsOnApproved(g, t, t', lga);
    assert SameRowButFlags(t, t', lga);
    forall k ensures Moves(t.log, k) == Moves(t'.log, k) {
      assert Logged(s, t, ks, k) && Logged(s, t', ks', k);
    }
  }

  ghost predicate IsOrderOf(g: Geo, s: Store, order: seq<Scope>, lga: Scope) {
    Distinct(order) && forall k :: k in order <==> k in Pending(g, s, lga)
  }

  lemma {:induction false} BulkAndSequentialSucceed(g: Geo, s: Store, u: User, order: seq<Scope>)
    requires g.Valid() && Access(u) == Some(Lga) && u.role == LgaCollationOfficer
    requires order != [] && IsOrderOf(g, s, order, Own(u)) && AllReady(g, s, order)
    ensures var bulk, single := ApproveAllStep(g, s, u), ApproveEach(g, s, u, order);
      bulk.Done? && single.Done? && bulk.count == single.count == |order| && SameButFlags(bulk.state, single.state)
  {
    var lga, ks := Own(u), Pending(g, s, Own(u));
    assert order[0] in order && order[0] in ks;
    PendingIsWaiting(g, s, lga);
    ApproveEachReady(g, s, u, order);
    ApproveAllReady(g, s, u);
    if lga in ks {
      WaitingIsWard(g, s, ks, lga, lga);
    }
    ApprovedIntoIsUnique(g, s, ApproveAllStep(g, s, u).state, ApproveEach(g, s, u, order).state, ks, order, lga);
    DistinctFits(ks, order);
    DistinctFits(order, ks);
  }

  lemma {:induction false} BulkAndSequentialRefuse(g: Geo, s: Store, u: User, order: seq<Scope>)
    requires g.Valid() && Access(u) == Some(Lga) && u.role == LgaCollationOfficer
    requires IsOrderOf(g, s, order, Own(u)) && !AllReady(g, s, order)
    ensures var bulk, single := ApproveAllStep(g, s, u), ApproveEach(g, s, u, order);
      bulk == Failed(s, WardNotReady) && single.Failed? && single.error == WardNotReady
  {
    var bad :| bad in order && !Ready(g, s, bad);
    ApproveEachUnready(g, s, u, order, bad);
    assert bad in Pending(g, s, Own(u));
  }

  lemma NothingToApprove(g: Geo, s: Store, u: User, order: seq<Scope>)
    requires g.Valid() && Access(u) == Some(Lga) && u.role == LgaCollationOfficer
    requires order == [] && IsOrderOf(g, s, order, Own(u))
    ensures ApproveAllStep(g, s, u) == Failed(s, NothingPending)
    ensures ApproveEach(g, s, u, order) == Done(s, 0) && AllReady(g, s, order)
  {
    PendingIsWaiting(g, s, Own(u));
    DistinctFits(Pending(g, s, Own(u)), order);
  }

  /**
   Bulk approval refines sequential approval: for any order of the pending wards, both refuse with
   the same error when some ward is not ready (the bulk step then changes nothing), and otherwise
   both succeed, act on the same number of wards and agree on everything but the flags. With nothing
   pending neither changes anything; only the bulk step calls that an error.
   */
  lemma {:induction false} BulkRefinesSequential(g: Geo, s: Store, u: User, order: seq<Scope>)
    requires g.Valid() && Access(u).Some? && u.role == LgaCollationOfficer
    requires IsOrderOf(g, s, order, Own(u))
    ensures var bulk, single := ApproveAllStep(g, s, u), ApproveEach(g, s, u, order);
      && (single.Done? <==> AllReady(g, s, order))
      && (bulk.Done? <==> order != [] && AllReady(g, s, order))
      && (!AllReady(g, s, order) ==> bulk == Failed(s, WardNotReady) && single.error == WardNotReady)
      && (bulk.Done? ==> bulk.count == single.count == |order| && SameButFlags(bulk.state, single.state))
      && (order == [] ==> bulk == Failed(s, NothingPending) && single == Done(s, 0))
  {
    hide ApproveEach, ApproveAllStep, AllReady, SameButFlags, IsOrderOf;
    if order == [] {
      NothingToApprove(g, s, u, order);
    } else if AllReady(g, s, order) {
      BulkAndSequentialSucceed(g, s, u, order);
    } else {
      BulkAndSequentialRefuse(g, s, u, order);
    }
  }

  lemma {:induction false} DistinctFits<T>(a: seq<T>, b: seq<T>)
    requires Distinct(a) && forall x :: x in a ==> x in b
    ensures |a| <= |b|
    decreases |a|
  {
    if a != [] {
      assert a[0] in a;
      var i :| 0 <= i < |b| && b[i] == a[0];
      var c := b[..i] + b[i + 1..];
      forall x | x in a[1..] ensures x in c {
        assert x in a && x != a[0];
        var j :| 0 <= j < |b| && b[j] == x;
        assert x == if j < i then c[j] else c[j - 1];
      }
      DistinctFits(a[1..], c);
    }
  }

  // Returning the flagged polling units.

  ghost predicate RowReturned(s: Store, t: Store, k: Scope) {
    k in s.rows && k in t.rows && t.rows[k] == s.rows[k].(status := Rejected)
  }

  /** `t` is `s` with exactly the units `ks` returned and the ward's total refreshed. */
  ghost predicate ReturnedFrom(g: Geo, s: Store, t: Store, ks: seq<Scope>, w: Scope) {
    && (forall k {:trigger RowReturned(s, t, k)} :: k in ks ==> RowReturned(s, t, k))
    && (forall k {:trigger SameRow(s, t, k)} :: k !in ks && k != w ==> SameRow(s, t, k))
    && w in s.rows && w in t.rows
    && t.rows[w] == s.rows[w].(sheet := RollupSheet(g, t, w))
  }

  /** A ward officer returns one submitted or approved unit while the ward is returned by the LGA. */
  lemma {:induction false} ReturnOne(g: Geo, s: Store, u: User, k: Scope)
    requires g.Valid() && Tallied(g, s) && Access(u) == Some(Ward) && Has(s, Own(u), Rejected)
    requires k in g.Children(Own(u)) && (Has(s, k, Approved) || Has(s, k, Submitted))
    ensures var r := RejectStep(g, s, u, k, []);
      r.Done? && ReturnedFrom(g, s, r.state, [k], Own(u)) && Tallied(g, r.state)
  {
    ChildLevel(g, k, Own(u));
    RejectKeepsTallies(g, s, u, k, []);
    ReturnOneRows(g, s, u, k);
    assert WardIndex(g, RejectStep(g, s, u, k, []).state, Own(u));
  }

  lemma ReturnOneRows(g: Geo, s: Store, u: User, k: Scope)
    requires g.Valid() && Access(u) == Some(Ward) && Has(s, Own(u), Rejected)
    requires k in g.Children(Own(u)) && (Has(s, k, Approved) || Has(s, k, Submitted))
    ensures var r, w := RejectStep(g, s, u, k, []), Own(u);
      && r.Done?
      && RowReturned(s, r.state, k)
      && (forall x :: x != k && x != w ==> SameRow(s, r.state, x))
      && w in r.state.rows && r.state.rows[w] == s.rows[w].(sheet := r.state.rows[w].sheet)
  {
    var w, mid := Own(u), MarkRejected(s, u, k, []);
    ChildLevel(g, k, w);
    MarkRejectedRows(s, u, k);
    if ReturnsApproved(g, s, k) {
      var t := Rebuild(g, mid, w, false, true);
      RebuildEffect(g, mid, w, false, true);
      assert SameRow(mid, t, k) && SameRow(s, mid, w);
      forall x | x != k && x != w ensures SameRow(s, t, x) {
        assert SameRow(s, mid, x) && SameRow(mid, t, x);
      }
    } else {
      assert SameRow(s, mid, w);
    }
  }

  lemma MarkRejectedRows(s: Store, u: User, k: Scope)
    requires k in s.rows && k.level == PollingUnit
    ensures RowReturned(s, MarkRejected(s, u, k, []), k)
    ensures forall x :: x != k ==> SameRow(s, MarkRejected(s, u, k, []), x)
  {
  }

  lemma ReturnedComposes(g: Geo, s: Store, m: Store, t: Store, k: Scope, ks: seq<Scope>, w: Scope)
    requires ReturnedFrom(g, s, m, [k], w) && ReturnedFrom(g, m, t, ks, w)
    requires k !in ks && k != w && w !in ks
    ensures ReturnedFrom(g, s, t, [k] + ks, w)
  {
    forall x | x in [k] + ks ensures RowReturned(s, t, x) {
      if x in ks {
        assert SameRow(s, m, x) && RowReturned(m, t, x);
      } else {
        assert RowReturned(s, m, x) && SameRow(m, t, x);
      }
    }
    forall x | x !in [k] + ks && x != w ensures SameRow(s, t, x) {
      assert SameRow(s, m, x) && SameRow(m, t, x);
    }
  }

  lemma {:induction false} ReturnEachSucceeds(g: Geo, s: Store, u: User, ks: seq<Scope>)
    requires g.Valid() && Tallied(g, s) && Access(u) == Some(Ward) && Has(s, Own(u), Rejected) && Distinct(ks)
    requires forall k :: k in ks ==> k in g.Children(Own(u)) && (Has(s, k, Approved) || Has(s, k, Submitted))
    requires Own(u) in g.places
    ensures var r := ReturnEach(g, s, u, ks);
      r.Done? && r.count == |ks| && ReturnedFrom(g, s, r.state, ks, Own(u))
    decreases |ks|
  {
    hide RejectStep, RollupSheet;
    var w := Own(u);
    if ks == [] {
      assert WardIndex(g, s, w);
    } else {
      var k, rest := ks[0], ks[1..];
      assert ks == [k] + rest && k in ks;
      ReturnOne(g, s, u, k);
      var t := RejectStep(g, s, u, k, []).state;
      RestReturnable(g, s, t, ks, w);
      ReturnEachSucceeds(g, t, u, rest);
      ReturnedComposes(g, s, t, ReturnEach(g, t, u, rest).state, k, rest, w);
    }
  }

  lemma RestReturnable(g: Geo, s: Store, t: Store, ks: seq<Scope>, w: Scope)
    requires g.Valid() && w.level == Ward && ks != [] && Distinct(ks) && ReturnedFrom(g, s, t, [ks[0]], w)
    requires forall k :: k in ks ==> k in g.Children(w) && (Has(s, k, Approved) || Has(s, k, Submitted))
    ensures forall k :: k in ks[1..] ==> k in g.Children(w) && (Has(t, k, Approved) || Has(t, k, Submitted))
    ensures ks[0] !in ks[1..] && ks[0] != w && w !in ks[1..]
  {
    assert ks[0] in ks;
    ChildLevel(g, ks[0], w);
    forall k | k in ks[1..] ensures k in g.Children(w) && (Has(t, k, Approved) || Has(t, k, Submitted)) && k != w {
      assert k in ks && k != ks[0];
      ChildLevel(g, k, w);
      assert SameRow(s, t, k);
    }
  }

  /** After a bulk return a flagged unit is neither approved nor submitted. */
  lemma FlaggedUnitLeft(g: Geo, s: Store, t: Store, flagged: seq<Id>, w: Scope, id: Id)
    requires ReturnedFrom(g, s, t, ToReturn(s, flagged), w) && id in flagged && w.level == Ward
    ensures !Has(t, Scope(PollingUnit, id), Approved) && !Has(t, Scope(PollingUnit, id), Submitted)
  {
    hide RollupSheet;
    var k := Scope(PollingUnit, id);
    if k in ToReturn(s, flagged) {
      assert RowReturned(s, t, k);
    } else {
      assert SameRow(s, t, k);
    }
  }

  /**
   The bulk return never fails partway: once the ward is returned with flags, it sends back exactly
   the flagged units that are submitted or approved, keeps the ward returned with its flags, shows
   the total of the units still approved, and reports the exact number.
   */
  lemma {:induction false} BulkReturnIsTotal(g: Geo, s: Store, u: User)
    requires g.Valid() && Sound(g, s) && Access(u) == Some(Ward) && Own(u) in g.places
    requires Has(s, Own(u), Rejected) && s.rows[Own(u)].flagged != []
    ensures var r, w, ks := ReturnFlaggedStep(g, s, u), Own(u), ToReturn(s, s.rows[Own(u)].flagged);
      && r.Done? && r.count == |ks|
      && ReturnedFrom(g, s, r.state, ks, w)
      && Has(r.state, w, Rejected) && r.state.rows[w].flagged == s.rows[w].flagged
      && (forall id :: id in s.rows[w].flagged ==>
            !Has(r.state, Scope(PollingUnit, id), Approved) && !Has(r.state, Scope(PollingUnit, id), Submitted))
  {
    hide ReturnEach, RollupSheet;
    var w, flagged := Own(u), s.rows[Own(u)].flagged;
    var ks := ToReturn(s, flagged);
    assert FlagsInside(g, s, w);
    forall k | k in ks ensures k in g.Children(w) {
      var i :| 0 <= i < |flagged| && flagged[i] == k.id;
      assert Scope(PollingUnit, flagged[i]) == k;
    }
    ReturnEachSucceeds(g, s, u, ks);
    var t := ReturnFlaggedStep(g, s, u).state;
    forall id | id in flagged
      ensures !Has(t, Scope(PollingUnit, id), Approved) && !Has(t, Scope(PollingUnit, id), Submitted)
    {
      FlaggedUnitLeft(g, s, t, flagged, w, id);
    }
  }
}
