/**
 What an LGA officer names when returning a ward, and what becomes of it
 (src/modules/collation/collation.service.ts:1161-1186, 1327-1398).
 */
module Flags {
  import opened Collections
  import opened Geography
  import opened Workflow
  import opened Tallies
  import opened Lifecycle
  import Bulk

  predicate IsWhite(c: char) {
    c == ' ' || c == '\t' || c == '\n' || c == '\r' || c == '\U{000B}' || c == '\U{000C}'
  }

  ghost predicate AllWhite(s: string) {
    forall i :: 0 <= i < |s| ==> IsWhite(s[i])
  }

  /** `t` is `s` without the white space at its ends, all of it. */
  ghost predicate IsTrimmed(s: string, t: string) {
    && (exists a, b :: s == a + t + b && AllWhite(a) && AllWhite(b))
    && (t != "" ==> !IsWhite(t[0]) && !IsWhite(t[|t| - 1]))
  }

  /** The white space that trimming cuts off in front and behind. */
  lemma {:induction false} TrimmedOff(s: string) returns (a: string, b: string)
    ensures s == a + Trim(s) + b && AllWhite(a) && AllWhite(b)
  {
    a, b := "", "";
    if s == "" {
    } else if IsSpace(s[0]) {
      a, b := TrimmedOff(s[1..]);
      a := [s[0]] + a;
      assert s == [s[0]] + s[1..];
    } else if IsSpace(s[|s| - 1]) {
      a, b := TrimmedOff(s[..|s| - 1]);
      b := b + [s[|s| - 1]];
      assert s == s[..|s| - 1] + [s[|s| - 1]];
    }
  }

  lemma {:induction false} TrimmedEnds(s: string)
    ensures Trim(s) != "" ==> !IsWhite(Trim(s)[0]) && !IsWhite(Trim(s)[|Trim(s)| - 1])
  {
    if s == "" {
    } else if IsSpace(s[0]) {
      TrimmedEnds(s[1..]);
    } else if IsSpace(s[|s| - 1]) {
      TrimmedEnds(s[..|s| - 1]);
    }
  }

  /** Trimming cuts white space only, and leaves none at either end. */
  lemma TrimExactly(s: string)
    ensures IsTrimmed(s, Trim(s))
  {
    hide Trim, IsWhite;
    var a, b := TrimmedOff(s);
    TrimmedEnds(s);
    assert s == a + Trim(s) + b && AllWhite(a) && AllWhite(b);
  }

  /** The officer named this polling unit, with or without white space around its id. */
  ghost predicate Named(ids: seq<Id>, id: Id) {
    id != "" && exists i :: 0 <= i < |ids| && Trim(ids[i]) == id
  }

  /**
   An LGA officer returns a submitted ward: refused exactly when one of the ids named is no polling unit
   of the ward; otherwise the ward is REJECTED, flags exactly the ids named, and nothing else changes.
   */
  lemma ReturnWardExactly(g: Geo, s: Store, u: User, w: Scope, ids: seq<Id>)
    requires g.Valid() && Access(u) == Some(Lga) && w in g.Children(Own(u)) && Has(s, w, Submitted)
    ensures var r := RejectStep(g, s, u, w, ids);
      && (r.Done? <==> forall id :: Named(ids, id) ==> Scope(PollingUnit, id) in g.Children(w))
      && (r.Failed? ==> r == Failed(s, FlaggedOutsideWard))
      && (r.Done? ==>
            && Has(r.state, w, Rejected) && r.state.rows[w].sheet == s.rows[w].sheet
            && Distinct(r.state.rows[w].flagged)
            && (forall id :: id in r.state.rows[w].flagged <==> Named(ids, id))
            && (forall x :: x != w ==> SameRow(s, r.state, x)))
  {
    hide CleanIds, Trim, Rebuild;
    ChildLevel(g, w, Own(u));
    NamedAreChecked(g, w, ids);
    if ids == [] {
      assert forall id :: !Named(ids, id);
    }
  }

  lemma NamedAreChecked(g: Geo, w: Scope, ids: seq<Id>)
    ensures AllInWard(g, w, CleanIds(ids)) <==> forall id :: Named(ids, id) ==> Scope(PollingUnit, id) in g.Children(w)
  {
    hide CleanIds, Trim;
    var clean := CleanIds(ids);
    if AllInWard(g, w, clean) {
      forall id | Named(ids, id) ensures Scope(PollingUnit, id) in g.Children(w) {
        assert id in clean;
        var i :| 0 <= i < |clean| && clean[i] == id;
      }
    } else {
      var i :| 0 <= i < |clean| && Scope(PollingUnit, clean[i]) !in g.Children(w);
      assert clean[i] in clean && Named(ids, clean[i]);
    }
  }

  /** A polling unit that was named and still is out of its agent's hands. */
  ghost predicate ToComeBack(s: Store, ids: seq<Id>, k: Scope) {
    k.level == PollingUnit && Named(ids, k.id) && (Has(s, k, Approved) || Has(s, k, Submitted))
  }

  /**
   What the LGA names is what comes back: after a return that named some units, the ward officer's bulk
   return sends back exactly the named units that were submitted or approved, and leaves every other
   place but the ward as it was.
   */
  lemma NamedUnitsComeBack(g: Geo, s: Store, u: User, w: Scope, ids: seq<Id>, v: User)
    requires g.Valid() && Sound(g, s) && Access(u) == Some(Lga) && w in g.Children(Own(u)) && Has(s, w, Submitted)
    requires Access(v) == Some(Ward) && Own(v) == w && RejectStep(g, s, u, w, ids).Done?
    requires exists id :: Named(ids, id)
    ensures var b := ReturnFlaggedStep(g, RejectStep(g, s, u, w, ids).state, v);
      && b.Done?
      && (forall k :: ToComeBack(s, ids, k) ==> Bulk.RowReturned(s, b.state, k))
      && (forall k :: !ToComeBack(s, ids, k) && k != w ==> SameRow(s, b.state, k))
      && Has(b.state, w, Rejected)
  {
    hide RejectStep, ReturnFlaggedStep, Named, Sound, ToComeBack;
    var t := RejectStep(g, s, u, w, ids).state;
    ChildLevel(g, w, Own(u));
    ReturnWardExactly(g, s, u, w, ids);
    StateAfterReject(g, s, u, w, ids);
    var id :| Named(ids, id);
    assert id in t.rows[w].flagged;
    Bulk.BulkReturnIsTotal(g, t, v);
    var b, ks := ReturnFlaggedStep(g, t, v), ToReturn(t, t.rows[w].flagged);
    forall k ensures k in ks <==> ToComeBack(s, ids, k) {
      FlaggedIsNamed(s, t, ids, w, k);
    }
    ReturnedAfterFlags(g, s, t, b.state, ks, w);
  }

  lemma FlaggedIsNamed(s: Store, t: Store, ids: seq<Id>, w: Scope, k: Scope)
    requires w in t.rows && w.level == Ward && forall id :: id in t.rows[w].flagged <==> Named(ids, id)
    requires forall x :: x != w ==> SameRow(s, t, x)
    ensures k in ToReturn(t, t.rows[w].flagged) <==> ToComeBack(s, ids, k)
  {
    hide Named;
    assert k != w ==> SameRow(s, t, k);
  }

  /** The two steps together: flags change the ward's row only, the bulk return the units' rows. */
  lemma ReturnedAfterFlags(g: Geo, s: Store, t: Store, u: Store, ks: seq<Scope>, w: Scope)
    requires w !in ks && (forall x :: x != w ==> SameRow(s, t, x)) && Bulk.ReturnedFrom(g, t, u, ks, w)
    ensures forall k :: k in ks ==> Bulk.RowReturned(s, u, k)
    ensures forall k :: k !in ks && k != w ==> SameRow(s, u, k)
  {
    hide RollupSheet;
    forall k | k in ks ensures Bulk.RowReturned(s, u, k) {
      assert Bulk.RowReturned(t, u, k) && SameRow(s, t, k);
    }
    forall k | k !in ks && k != w ensures SameRow(s, u, k) {
      assert SameRow(t, u, k) && SameRow(s, t, k);
    }
  }

  lemma StateAfterReject(g: Geo, s: Store, u: User, w: Scope, ids: seq<Id>)
    requires g.Valid() && Sound(g, s)
    ensures Sound(g, RejectStep(g, s, u, w, ids).state)
  {
    hide RejectStep, Sound;
    ApplyKeepsSound(g, s, Call(u, Reject(w, ids)));
  }
}
