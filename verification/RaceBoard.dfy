/**
 The statewide race board (src/modules/collation/collation-browse.service.ts:71-101, 1045-1101)
 and the tracked parties it shows (shared/src/parties.ts, shared/src/nigerian-parties.ts).
 */
module RaceBoard {
  import opened Collections
  import opened Sheets
  import opened Geography
  import opened Workflow
  import opened Tallies
  import opened Conservation
  import opened Lifecycle
  import Finality

  // Tracked parties.

  datatype TrackedParty = TrackedParty(code: Party, name: string)

  const NIGERIAN_REGISTERED_PARTIES: seq<TrackedParty> := [
    TrackedParty("AAC", "African Action Congress"),
    TrackedParty("AA", "Action Alliance"),
    TrackedParty("ADC", "African Democratic Congress"),
    TrackedParty("APC", "All Progressives Congress"),
    TrackedParty("APP", "Action Peoples Party"),
    TrackedParty("APM", "Allied Peoples Movement"),
    TrackedParty("BP", "Boot Party"),
    TrackedParty("LP", "Labour Party"),
    TrackedParty("NNPP", "New Nigeria Peoples Party"),
    TrackedParty("NRM", "National Rescue Movement"),
    TrackedParty("PDP", "People's Democratic Party"),
    TrackedParty("PRP", "Peoples Redemption Party"),
    TrackedParty("SDP", "Social Democratic Party"),
    TrackedParty("YPP", "Young Progressive Party"),
    TrackedParty("ZLP", "Zenith Labour Party"),
    TrackedParty("APGA", "All Progressives Grand Alliance"),
    TrackedParty("RM", "Reform and Advancement Party"),
    TrackedParty("NUP", "National Unity Party")]

  function UpperChar(c: char): char {
    if 'a' <= c <= 'z' then c - 'a' + 'A' else c
  }

  /** `toUpperCase`, within ASCII. */
  function Upper(s: string): string {
    if s == "" then "" else [UpperChar(s[0])] + Upper(s[1..])
  }

  function PartyCodes(parties: seq<TrackedParty>): seq<Party> {
    seq(|parties|, i requires 0 <= i < |parties| => parties[i].code)
  }

  /** No code twice, whatever its case. */
  ghost predicate DistinctCodes(parties: seq<TrackedParty>) {
    forall i, j :: 0 <= i < j < |parties| ==> Upper(parties[i].code) != Upper(parties[j].code)
  }

  lemma DistinctColumns(parties: seq<TrackedParty>)
    requires DistinctCodes(parties)
    ensures Distinct(PartyCodes(parties))
  {
  }

  /** The built-in register lists no code twice. */
  lemma RegisterDistinct()
    ensures Distinct(PartyCodes(NIGERIAN_REGISTERED_PARTIES))
  {
  }

  /** Some entry before `n` is a party with this code, up to case. */
  ghost predicate Listed(input: seq<Option<TrackedParty>>, n: nat, code: Party)
    requires n <= |input|
  {
    exists i :: 0 <= i < n && input[i].Some? && Upper(input[i].value.code) == code
  }

  /** Entry `i` is a party whose code no earlier entry has. */
  ghost predicate IsFirst(input: seq<Option<TrackedParty>>, i: nat)
    requires i < |input|
  {
    input[i].Some? && !Listed(input, i, Upper(input[i].value.code))
  }

  /** The parties at the first occurrence of each code, in order. */
  ghost function FirstOccurrences(input: seq<Option<TrackedParty>>, n: nat): seq<TrackedParty>
    requires n <= |input|
  {
    if n == 0 then []
    else FirstOccurrences(input, n - 1) + if IsFirst(input, n - 1) then [input[n - 1].value] else []
  }

  ghost predicate HasCode(r: seq<TrackedParty>, c: Party) {
    exists i :: 0 <= i < |r| && Upper(r[i].code) == c
  }

  lemma HasCodeAppend(r: seq<TrackedParty>, p: TrackedParty, c: Party)
    ensures HasCode(r + [p], c) <==> HasCode(r, c) || Upper(p.code) == c
  {
    if HasCode(r, c) {
      var i :| 0 <= i < |r| && Upper(r[i].code) == c;
      assert (r + [p])[i] == r[i];
    }
    assert (r + [p])[|r|] == p;
  }

  /** Kept codes are distinct, come from the input, and none of the input's codes is lost. */
  lemma {:induction false} FirstOccurrencesExact(input: seq<Option<TrackedParty>>, n: nat)
    requires n <= |input|
    ensures DistinctCodes(FirstOccurrences(input, n))
    ensures forall c :: Listed(input, n, c) <==> HasCode(FirstOccurrences(input, n), c)
  {
    if n > 0 {
      FirstOccurrencesExact(input, n - 1);
      var before, now := FirstOccurrences(input, n - 1), FirstOccurrences(input, n);
      ListedStep(input, n - 1);
      forall i | 0 <= i < |before| ensures Listed(input, n - 1, Upper(before[i].code)) {
        assert HasCode(before, Upper(before[i].code));
      }
      forall c ensures Listed(input, n, c) <==> HasCode(now, c) {
        assert Listed(input, n - 1, c) <==> HasCode(before, c);
        assert Listed(input, n - 1 + 1, c)
          <==> Listed(input, n - 1, c) || (input[n - 1].Some? && Upper(input[n - 1].value.code) == c);
        if IsFirst(input, n - 1) {
          HasCodeAppend(before, input[n - 1].value, c);
        } else {
          assert now == before;
        }
      }
    }
  }

  /** Only the letters a to z change, each to its capital. */
  lemma {:induction false} UpperExactly(s: string, i: nat)
    requires i < |s|
    ensures |Upper(s)| == |s|
    ensures Upper(s)[i] == if 'a' <= s[i] <= 'z' then ((s[i] as int) - 32) as char else s[i]
  {
    if i > 0 {
      UpperExactly(s[1..], i - 1);
    } else if |s| > 1 {
      UpperExactly(s[1..], 0);
    }
  }

  /** No party with the code of entry `i` stands before it. */
  ghost predicate IsNew(input: seq<Option<TrackedParty>>, i: nat)
    requires i < |input|
  {
    && input[i].Some?
    && forall j :: 0 <= j < i && input[j].Some? ==> Upper(input[j].value.code) != Upper(input[i].value.code)
  }

  /** The kept parties are those at the positions `at`, which run from left to right through all new entries. */
  ghost predicate KeptAt(input: seq<Option<TrackedParty>>, n: nat, r: seq<TrackedParty>, at: seq<nat>)
    requires n <= |input|
  {
    && |at| == |r|
    && (forall k :: 0 <= k < |at| ==> at[k] < n && input[at[k]] == Some(r[k]))
    && (forall k, l :: 0 <= k < l < |at| ==> at[k] < at[l])
    && (forall i :: 0 <= i < n ==> (i in at <==> IsNew(input, i)))
  }

  lemma {:induction false} KeptInOrder(input: seq<Option<TrackedParty>>, n: nat) returns (at: seq<nat>)
    requires n <= |input|
    ensures KeptAt(input, n, FirstOccurrences(input, n), at)
  {
    hide IsFirst, IsNew;
    at := [];
    if n > 0 {
      var before := KeptInOrder(input, n - 1);
      FirstIsNew(input, n - 1);
      if IsFirst(input, n - 1) {
        KeepAnother(input, n - 1, FirstOccurrences(input, n - 1), before);
        at := before + [n - 1];
      } else {
        at := before;
      }
    }
  }

  lemma FirstIsNew(input: seq<Option<TrackedParty>>, i: nat)
    requires i < |input|
    ensures IsFirst(input, i) <==> IsNew(input, i)
    ensures IsNew(input, i) ==> input[i].Some?
  {
    hide Upper;
  }

  lemma KeepAnother(input: seq<Option<TrackedParty>>, n: nat, r: seq<TrackedParty>, at: seq<nat>)
    requires n < |input| && KeptAt(input, n, r, at) && IsNew(input, n) && input[n].Some?
    ensures KeptAt(input, n + 1, r + [input[n].value], at + [n])
  {
    hide IsNew;
  }

  method KeepFirst(input: seq<Option<TrackedParty>>) returns (r: seq<TrackedParty>)
    ensures r == FirstOccurrences(input, |input|)
  {
    var seen: set<Party> := {};
    r := [];
    for n := 0 to |input|
      invariant r == FirstOccurrences(input, n)
      invariant forall c {:trigger c in seen} {:trigger Listed(input, n, c)} :: c in seen <==> Listed(input, n, c)
    {
      ListedStep(input, n);
      if input[n].Some? && Upper(input[n].value.code) !in seen {
        seen := seen + {Upper(input[n].value.code)};
        r := r + [input[n].value];
      }
    }
  }

  lemma ListedStep(input: seq<Option<TrackedParty>>, n: nat)
    requires n < |input|
    ensures forall c {:trigger Listed(input, n + 1, c)} ::
      Listed(input, n + 1, c) <==> Listed(input, n, c) || (input[n].Some? && Upper(input[n].value.code) == c)
  {
  }

  /**
   `normalizeTrackedParties`; `None` stands for an entry that is not a party. A list that is missing
   or empty gives the full register, otherwise every code is kept once, at its first occurrence.
   */
  method NormalizeTrackedParties(input: seq<Option<TrackedParty>>) returns (r: seq<TrackedParty>)
    ensures r == if input == [] then NIGERIAN_REGISTERED_PARTIES else FirstOccurrences(input, |input|)
    ensures Distinct(PartyCodes(r))
  {
    if input == [] {
      RegisterDistinct();
      return NIGERIAN_REGISTERED_PARTIES;
    }
    r := KeepFirst(input);
    FirstOccurrencesExact(input, |input|);
    DistinctColumns(r);
  }

  /** `parsePartyTotals`: the tracked columns of a record, zero where there is no number. */
  function ParsePartyTotals(parties: map<Party, int>, columns: seq<Party>): map<Party, int> {
    map c | c in columns :: At(parties, c)
  }

  // The outcome of one LGA.

  datatype MapOutcome = Win | Loss | Tie | Undecided
  datatype Verdict = Verdict(outcome: MapOutcome, leadingParty: Option<Party>, margin: int)

  predicate Named(client: Option<Party>) {
    client.Some? && client.value != ""
  }

  ghost predicate Beats(votes: map<Party, int>, columns: seq<Party>, c: Party) {
    forall d :: d in columns && d != c ==> At(votes, d) < At(votes, c)
  }

  ghost predicate Leads(votes: map<Party, int>, columns: seq<Party>, c: Party) {
    c in columns && At(votes, c) > 0 && forall d :: d in columns ==> At(votes, d) <= At(votes, c)
  }

  lemma WinningExactly(votes: map<Party, int>, columns: seq<Party>, client: Option<Party>)
    ensures ClientWins(votes, columns, client) <==>
      && client.Some? && client.value != "" && client.value in columns && At(votes, client.value) > 0
      && forall c :: c in columns && c != client.value ==> At(votes, c) < At(votes, client.value)
    ensures NothingToCall(votes, columns, client) <==>
      client == None || client == Some("") || forall c :: c in columns ==> At(votes, c) <= 0
  {
  }

  /** A leader whose column comes before those of all other leaders. */
  ghost predicate LeadsFirst(votes: map<Party, int>, columns: seq<Party>, c: Party) {
    && Leads(votes, columns, c)
    && exists i :: 0 <= i < |columns| && columns[i] == c
                   && forall j :: 0 <= j < i ==> At(votes, columns[j]) < At(votes, c)
  }

  lemma {:induction false} FirstFound(columns: seq<Party>, p: Party -> bool)
    requires Filter(columns, p) != []
    ensures exists i :: 0 <= i < |columns| && columns[i] == Filter(columns, p)[0]
                        && forall j :: 0 <= j < i ==> !p(columns[j])
  {
    if !p(columns[0]) {
      FirstFound(columns[1..], p);
      var k :| 0 <= k < |columns[1..]| && columns[1..][k] == Filter(columns[1..], p)[0]
               && forall j :: 0 <= j < k ==> !p(columns[1..][j]);
      assert columns[k + 1] == Filter(columns, p)[0];
      forall j | 0 <= j < k + 1 ensures !p(columns[j]) {
        assert j > 0 ==> columns[1..][j - 1] == columns[j];
      }
    }
  }

  /** WIN, for a named client: it is tracked, has votes, and strictly beats every other tracked party. */
  ghost predicate ClientWins(votes: map<Party, int>, columns: seq<Party>, client: Option<Party>) {
    Named(client) && Leads(votes, columns, client.value) && Beats(votes, columns, client.value)
  }

  ghost predicate ClientTies(votes: map<Party, int>, columns: seq<Party>, client: Option<Party>) {
    Named(client) && Leads(votes, columns, client.value) && !Beats(votes, columns, client.value)
  }

  ghost predicate NothingToCall(votes: map<Party, int>, columns: seq<Party>, client: Option<Party>) {
    !Named(client) || forall c :: c in columns ==> At(votes, c) <= 0
  }

  method MaxVotes(votes: map<Party, int>, columns: seq<Party>) returns (max: int)
    ensures max >= 0 && forall c :: c in columns ==> At(votes, c) <= max
    ensures max == 0 || exists c :: c in columns && At(votes, c) == max
  {
    max := 0;
    for i := 0 to |columns|
      invariant max >= 0 && forall c :: c in columns[..i] ==> At(votes, c) <= max
      invariant max == 0 || exists c :: c in columns && At(votes, c) == max
    {
      assert columns[i] in columns;
      if At(votes, columns[i]) > max {
        max := At(votes, columns[i]);
      }
      assert columns[..i + 1] == columns[..i] + [columns[i]];
    }
    assert columns[..|columns|] == columns;
  }

  /** The largest positive vote and the columns that have it, in order. */
  method FindLeaders(votes: map<Party, int>, columns: seq<Party>) returns (max: int, leaders: seq<Party>)
    requires Distinct(columns)
    ensures max >= 0 && forall c :: c in columns ==> At(votes, c) <= max
    ensures Distinct(leaders) && forall c :: c in leaders <==> c in columns && At(votes, c) == max
    ensures max > 0 ==> leaders != [] && LeadsFirst(votes, columns, leaders[0])
  {
    max := MaxVotes(votes, columns);
    var isLeader := (c: Party) => At(votes, c) == max;
    leaders := Filter(columns, isLeader);
    FilterDistinct(columns, isLeader);
    if max > 0 {
      var top :| top in columns && At(votes, top) == max;
      assert top in leaders;
      assert leaders[0] in leaders;
      FirstFound(columns, isLeader);
    }
  }

  method ComputeOutcome(votes: map<Party, int>, columns: seq<Party>, client: Option<Party>) returns (r: Verdict)
    requires Distinct(columns)
    ensures r.outcome == Win <==> ClientWins(votes, columns, client)
    ensures r.outcome == Win <==>
      && client.Some? && client.value != "" && client.value in columns && At(votes, client.value) > 0
      && forall c :: c in columns && c != client.value ==> At(votes, c) < At(votes, client.value)
    ensures r.outcome == Undecided <==>
      client == None || client == Some("") || forall c :: c in columns ==> At(votes, c) <= 0
    ensures r.outcome == Tie <==> ClientTies(votes, columns, client)
    ensures r.outcome == Undecided <==> NothingToCall(votes, columns, client)
    ensures r.leadingParty.Some? <==> exists c :: c in columns && At(votes, c) > 0
    ensures r.leadingParty.Some? ==> Leads(votes, columns, r.leadingParty.value)
    ensures r.outcome == Win ==>
      && 0 < r.margin <= At(votes, client.value)
      && (forall c :: c in columns && c != client.value ==> At(votes, c) <= At(votes, client.value) - r.margin)
      && (r.margin == At(votes, client.value)
          || exists c :: c in columns && c != client.value && At(votes, c) == At(votes, client.value) - r.margin)
    ensures r.outcome == Tie ==> r.margin == 0
    ensures r.outcome in {Win, Tie} ==> r.leadingParty == client
    ensures r.outcome in {Loss, Undecided} && r.leadingParty.Some? ==> LeadsFirst(votes, columns, r.leadingParty.value)
    ensures r.outcome == Undecided ==> r.margin == if r.leadingParty.Some? then At(votes, r.leadingParty.value) else 0
    ensures r.outcome == Loss ==>
      Named(client) && r.leadingParty.Some? && r.margin == At(votes, r.leadingParty.value) - At(votes, client.value)
  {
    WinningExactly(votes, columns, client);
    hide LeadsFirst, Filter;
    var max, leaders := FindLeaders(votes, columns);
    if max <= 0 {
      return Verdict(Undecided, None, 0);
    }
    assert leaders[0] in leaders;
    var leading := Some(leaders[0]);
    var clientVotes := if Named(client) then At(votes, client.value) else 0;
    if !Named(client) {
      return Verdict(Undecided, leading, max - clientVotes);
    }
    var me := client.value;
    if me in leaders && |leaders| > 1 {
      var other := if leaders[0] == me then leaders[1] else leaders[0];
      assert other in leaders && other != me;
      return Verdict(Tie, Some(me), 0);
    }
    if leaders[0] == me {
      var others := Filter(columns, (c: Party) => c != me);
      var second := MaxVotes(votes, others);
      assert leaders == [me];
      forall c | c in columns && c != me ensures At(votes, c) < max {
        assert c !in leaders;
      }
      return Verdict(Win, Some(me), clientVotes - second);
    }
    assert me !in leaders;
    return Verdict(Loss, leading, max - clientVotes);
  }

  // The board.

  datatype Board = Board(totals: map<Party, int>, wins: nat, losses: nat, ties: nat, pending: nat)

  /** What an LGA's stored result, whatever its status, puts on the board for a party. */
  function BoardVotes(s: Store, p: Party): Scope -> int {
    l => Cell(RowOr(s, l).sheet, OfParty(p))
  }

  ghost function Wins(s: Store, columns: seq<Party>, client: Option<Party>): Scope -> bool {
    l => ClientWins(RowOr(s, l).sheet.parties, columns, client)
  }

  ghost function Ties(s: Store, columns: seq<Party>, client: Option<Party>): Scope -> bool {
    l => ClientTies(RowOr(s, l).sheet.parties, columns, client)
  }

  ghost function Undecideds(s: Store, columns: seq<Party>, client: Option<Party>): Scope -> bool {
    l => NothingToCall(RowOr(s, l).sheet.parties, columns, client)
  }

  /** The board after some LGAs: column sums, and every LGA in exactly one bucket. */
  ghost predicate Shows(b: Board, s: Store, lgas: seq<Scope>, columns: seq<Party>, client: Option<Party>) {
    && b.totals.Keys == (set c | c in columns)
    && (forall c :: c in columns ==> b.totals[c] == Sum(lgas, BoardVotes(s, c)))
    && b.wins == Count(lgas, Wins(s, columns, client))
    && b.ties == Count(lgas, Ties(s, columns, client))
    && b.pending == Count(lgas, Undecideds(s, columns, client))
    && b.wins + b.losses + b.ties + b.pending == |lgas|
  }

  lemma BoardVotesAppend(s: Store, lgas: seq<Scope>, l: Scope, c: Party)
    ensures Sum(lgas + [l], BoardVotes(s, c)) == Sum(lgas, BoardVotes(s, c)) + At(RowOr(s, l).sheet.parties, c)
  {
    SumAppend(lgas, [l], BoardVotes(s, c));
  }

  lemma BucketAppend(lgas: seq<Scope>, l: Scope, p: Scope -> bool)
    ensures Count(lgas + [l], p) == Count(lgas, p) + if p(l) then 1 else 0
  {
    FilterAppend(lgas, [l], p);
  }

  /** One turn of the loop: add the LGA's votes and count its outcome. */
  method AddLga(b: Board, s: Store, ghost lgas: seq<Scope>, l: Scope, columns: seq<Party>, client: Option<Party>)
    returns (b': Board)
    requires Distinct(columns) && Shows(b, s, lgas, columns, client)
    ensures Shows(b', s, lgas + [l], columns, client)
  {
    hide ClientWins, ClientTies, NothingToCall, Count, Sum, Cell;
    var stored := RowOr(s, l).sheet.parties;
    var parties := ParsePartyTotals(stored, columns);
    var totals := map c | c in columns :: b.totals[c] + parties[c];
    forall c | c in columns ensures totals[c] == Sum(lgas + [l], BoardVotes(s, c)) {
      BoardVotesAppend(s, lgas, l, c);
    }
    var verdict := ComputeOutcome(parties, columns, client);
    ParsingKeepsOutcome(stored, columns, client);
    BucketAppend(lgas, l, Wins(s, columns, client));
    BucketAppend(lgas, l, Ties(s, columns, client));
    BucketAppend(lgas, l, Undecideds(s, columns, client));
    match verdict.outcome
    case Win => b' := b.(totals := totals, wins := b.wins + 1);
    case Loss => b' := b.(totals := totals, losses := b.losses + 1);
    case Tie => b' := b.(totals := totals, ties := b.ties + 1);
    case Undecided => b' := b.(totals := totals, pending := b.pending + 1);
  }

  method RaceAnalytics(s: Store, lgas: seq<Scope>, columns: seq<Party>, client: Option<Party>) returns (b: Board)
    requires Distinct(columns)
    ensures Shows(b, s, lgas, columns, client)
  {
    b := Board(map c | c in columns :: 0, 0, 0, 0, 0);
    for i := 0 to |lgas|
      invariant Shows(b, s, lgas[..i], columns, client)
    {
      b := AddLga(b, s, lgas[..i], lgas[i], columns, client);
      assert lgas[..i + 1] == lgas[..i] + [lgas[i]];
    }
    assert lgas[..|lgas|] == lgas;
  }

  /** Reading only the tracked columns does not change who wins. */
  lemma ParsingKeepsOutcome(votes: map<Party, int>, columns: seq<Party>, client: Option<Party>)
    ensures ClientWins(ParsePartyTotals(votes, columns), columns, client) <==> ClientWins(votes, columns, client)
    ensures ClientTies(ParsePartyTotals(votes, columns), columns, client) <==> ClientTies(votes, columns, client)
    ensures NothingToCall(ParsePartyTotals(votes, columns), columns, client) <==> NothingToCall(votes, columns, client)
  {
    var parsed := ParsePartyTotals(votes, columns);
    assert forall c :: c in columns ==> At(parsed, c) == At(votes, c);
  }

  // From polling units to the board.

  /** An event other than a draft saved by an LGA-level user. */
  predicate NoLgaDraft(e: Event) {
    !(e.Call? && e.action.SaveDraft? && Access(e.user) == Some(Lga))
  }

  /** The approved wards of an LGA are the same before and after its row is written. */
  lemma RollupKeepsWards(g: Geo, s: Store, l: Scope)
    requires g.Valid() && l.level == Lga
    ensures ApprovedChildren(g, Rollup(g, s, l), l) == ApprovedChildren(g, s, l)
  {
    if ApprovedChildren(g, s, l) != [] {
      RollupEffect(g, s, l);
      forall c | c in g.Children(l) ensures SameApproved(s, Rollup(g, s, l), c) {
        ChildLevel(g, c, l);
        assert SameRow(s, Rollup(g, s, l), c);
      }
      RollupDependsOnApproved(g, s, Rollup(g, s, l), l);
    }
  }

  lemma EmptyTotal(c: Column)
    ensures Cell(TotalSheet([]), c) == 0
  {
    TotalCell([], c);
  }

  /** When one LGA's board entry is right, read off the store. */
  lemma BoardEntryInStore(g: Geo, s: Store, l: Scope, p: Party)
    requires g.Valid() && Tallied(g, s) && l in g.places && l.level == Lga
    ensures ApprovedChildren(g, s, l) != [] ==> BoardVotes(s, p)(l) == Sum(g.places, UnitVotes(g, s, l, OfParty(p)))
    ensures ApprovedChildren(g, s, l) == [] ==> Sum(g.places, UnitVotes(g, s, l, OfParty(p))) == 0
  {
    assert LgaIndex(g, s, l);
    LgaRollupCountsUnits(g, s, l, OfParty(p));
    if ApprovedChildren(g, s, l) == [] {
      assert SheetsOf(s, []) == [];
      EmptyTotal(OfParty(p));
    }
  }

  // Drafts saved at LGA level.

  /** The event is an accepted draft with a party record for the result at `l`. */
  ghost predicate IsPartyDraft(s: Store, e: Event, l: Scope) {
    && e.Call? && e.action.SaveDraft? && e.action.dto.parties.Some?
    && Access(e.user).Some? && Own(e.user) == l
    && SaveDraftStep(s, e.user, e.action.dto).Done?
  }

  /** A party's votes in the last such draft of a run from `s`; `before` when there is none. */
  ghost function DraftVotes(g: Geo, s: Store, es: seq<Event>, l: Scope, p: Party, before: int): int
    decreases |es|
  {
    if es == [] then before
    else DraftVotes(g, Apply(g, s, es[0]), es[1..], l, p,
                    if IsPartyDraft(s, es[0], l) then At(es[0].action.dto.parties.value, p) else before)
  }

  /** The entry of place `l` is the same in both stores. */
  ghost predicate SameEntry(s: Store, t: Store, l: Scope) {
    RowOr(t, l).sheet.parties == RowOr(s, l).sheet.parties
  }

  lemma RejectKeepsEntry(g: Geo, s: Store, u: User, k: Scope, affected: seq<Id>, l: Scope)
    requires l.level == Lga
    ensures SameEntry(s, RejectStep(g, s, u, k, affected).state, l)
  {
    hide Rebuild, CleanIds;
    if RejectError(g, s, u, k, affected).None? {
      var mid := MarkRejected(s, u, k, affected);
      RebuildEffect(g, mid, Own(u), false, true);
      assert SameRow(mid, RejectStep(g, s, u, k, affected).state, l);
    }
  }

  lemma {:induction false} ReturnEachKeepsEntry(g: Geo, s: Store, u: User, ks: seq<Scope>, l: Scope)
    requires l.level == Lga
    ensures SameEntry(s, ReturnEach(g, s, u, ks).state, l)
    decreases |ks|
  {
    hide RejectStep;
    if ks != [] {
      RejectKeepsEntry(g, s, u, ks[0], [], l);
      ReturnEachKeepsEntry(g, RejectStep(g, s, u, ks[0], []).state, u, ks[1..], l);
    }
  }

  lemma ResubmitKeepsEntry(g: Geo, s: Store, u: User, l: Scope)
    requires l.level == Lga
    ensures SameEntry(s, ResubmitStep(g, s, u).state, l)
  {
    hide Rebuild, Ready;
    if ResubmitStep(g, s, u).Done? {
      RebuildEffect(g, s, Own(u), true, false);
      assert SameRow(s, Rebuild(g, s, Own(u), true, false), l);
    }
  }

  /** A rollup writes the LGA's row only when it has an approved ward. */
  lemma RollupKeepsEntry(g: Geo, s: Store, parent: Scope, l: Scope)
    requires g.Valid() && l.level == Lga && ApprovedChildren(g, Rollup(g, s, parent), l) == []
    ensures SameEntry(s, Rollup(g, s, parent), l)
  {
    if parent == l {
      RollupKeepsWards(g, s, l);
    }
  }

  lemma ApproveKeepsEntry(g: Geo, s: Store, u: User, k: Scope, l: Scope)
    requires g.Valid() && l.level == Lga && ApprovedChildren(g, ApproveStep(g, s, u, k).state, l) == []
    ensures SameEntry(s, ApproveStep(g, s, u, k).state, l)
  {
    hide Rollup, Ready, ApprovedChildren;
    if ApproveError(g, s, u, k).None? {
      RollupKeepsEntry(g, MarkApproved(s, k), Own(u), l);
    }
  }

  lemma ApproveAllKeepsEntry(g: Geo, s: Store, u: User, l: Scope)
    requires g.Valid() && l.level == Lga && ApprovedChildren(g, ApproveAllStep(g, s, u).state, l) == []
    ensures SameEntry(s, ApproveAllStep(g, s, u).state, l)
  {
    hide Rollup, Ready, ApprovedChildren;
    if ApproveAllStep(g, s, u).Done? {
      RollupKeepsEntry(g, MarkAllApproved(s, Pending(g, s, Own(u))), Own(u), l);
    }
  }

  /** What the owner of a result can do to an LGA's entry: only a draft with a party record changes it. */
  lemma OwnerStepOnEntry(g: Geo, s: Store, u: User, a: Action, l: Scope)
    requires a.SaveDraft? || a.AttachPhoto? || a.Submit?
    ensures IsPartyDraft(s, Call(u, a), l) ==>
      RowOr(Step(g, s, u, a).state, l).sheet.parties == a.dto.parties.value
    ensures !IsPartyDraft(s, Call(u, a), l) ==> SameEntry(s, Step(g, s, u, a).state, l)
  {
    hide MergeFigures;
  }

  /** While an LGA has no approved ward, only accepted drafts change its entry. */
  lemma ApplyOnEntry(g: Geo, s: Store, e: Event, l: Scope)
    requires g.Valid() && l.level == Lga && ApprovedChildren(g, Apply(g, s, e), l) == []
    ensures IsPartyDraft(s, e, l) ==> RowOr(Apply(g, s, e), l).sheet.parties == e.action.dto.parties.value
    ensures !IsPartyDraft(s, e, l) ==> SameEntry(s, Apply(g, s, e), l)
  {
    hide ApproveStep, RejectStep, ResubmitStep, ReturnEach, ApproveAllStep, SaveDraftStep, AttachPhotoStep, SubmitStep,
         ApprovedChildren;
    match e
    case Worker(k, v) =>
    case Call(u, a) =>
      match a
      case Approve(k) => ApproveKeepsEntry(g, s, u, k, l);
      case Reject(k, affected) => RejectKeepsEntry(g, s, u, k, affected, l);
      case ResubmitWard => ResubmitKeepsEntry(g, s, u, l);
      case ReturnFlagged =>
        if Access(u).Some? && Has(s, Own(u), Rejected) {
          ReturnEachKeepsEntry(g, s, u, ToReturn(s, s.rows[Own(u)].flagged), l);
        }
      case ApproveAllWards => ApproveAllKeepsEntry(g, s, u, l);
      case _ => OwnerStepOnEntry(g, s, u, a, l);
  }

  /** An LGA with an approved ward keeps it. */
  lemma ApprovedWardStays(g: Geo, s: Store, e: Event, l: Scope)
    requires g.Valid() && Sound(g, s) && l.level == Lga && ApprovedChildren(g, s, l) != []
    ensures ApprovedChildren(g, Apply(g, s, e), l) != []
  {
    var w := ApprovedChildren(g, s, l)[0];
    assert w in ApprovedChildren(g, s, l);
    ChildLevel(g, w, l);
    Finality.ApplyKeepsFinal(g, s, e, w, w);
    assert w in ApprovedChildren(g, Apply(g, s, e), l);
  }

  /** Without an approved ward, an LGA's entry is that of the last accepted draft. */
  lemma {:induction false} EntryIsLastDraft(g: Geo, s: Store, es: seq<Event>, l: Scope, p: Party, before: int)
    requires g.Valid() && Sound(g, s) && l.level == Lga
    requires ApprovedChildren(g, s, l) == [] ==> BoardVotes(s, p)(l) == before
    ensures var t := Run(g, s, es);
      ApprovedChildren(g, t, l) == [] ==> BoardVotes(t, p)(l) == DraftVotes(g, s, es, l, p, before)
    decreases |es|
  {
    hide Sound, Apply, ApprovedChildren, SaveDraftStep;
    if es != [] {
      var e, t := es[0], Apply(g, s, es[0]);
      var after := if IsPartyDraft(s, e, l) then At(e.action.dto.parties.value, p) else before;
      ApplyKeepsSound(g, s, e);
      if ApprovedChildren(g, t, l) == [] {
        if ApprovedChildren(g, s, l) != [] {
          ApprovedWardStays(g, s, e, l);
        }
        ApplyOnEntry(g, s, e, l);
      }
      EntryIsLastDraft(g, t, es[1..], l, p, after);
    }
  }

  // Where LGA rows come from.

  /** An LGA row came from approved wards. */
  ghost predicate FromWards(g: Geo, s: Store, l: Scope) {
    l in s.rows ==> ApprovedChildren(g, s, l) != []
  }

  lemma {:induction false} ReturnEachAddsNoLga(g: Geo, s: Store, u: User, ks: seq<Scope>, l: Scope)
    requires l.level == Lga
    ensures l in ReturnEach(g, s, u, ks).state.rows ==> l in s.rows
    decreases |ks|
  {
    hide RejectStep;
    if ks != [] {
      RejectAddsNoLga(g, s, u, ks[0], [], l);
      ReturnEachAddsNoLga(g, RejectStep(g, s, u, ks[0], []).state, u, ks[1..], l);
    }
  }

  lemma RejectAddsNoLga(g: Geo, s: Store, u: User, k: Scope, affected: seq<Id>, l: Scope)
    requires l.level == Lga
    ensures l in RejectStep(g, s, u, k, affected).state.rows ==> l in s.rows
  {
    if RejectError(g, s, u, k, affected).None? {
      RebuildEffect(g, MarkRejected(s, u, k, affected), Own(u), false, true);
    }
  }

  lemma ResubmitAddsNoLga(g: Geo, s: Store, u: User, l: Scope)
    requires l.level == Lga
    ensures l in ResubmitStep(g, s, u).state.rows ==> l in s.rows
  {
    hide Rebuild, Ready;
    if ResubmitStep(g, s, u).Done? {
      RebuildEffect(g, s, Own(u), true, false);
      assert SameRow(s, Rebuild(g, s, Own(u), true, false), l);
    }
  }

  lemma NewRowByRollup(g: Geo, s: Store, parent: Scope, l: Scope)
    requires g.Valid() && l.level == Lga && l !in s.rows && l in Rollup(g, s, parent).rows
    ensures ApprovedChildren(g, Rollup(g, s, parent), l) != []
  {
    assert parent == l;
    RollupKeepsWards(g, s, l);
  }

  lemma ApproveAddsFromWards(g: Geo, s: Store, u: User, k: Scope, l: Scope)
    requires g.Valid() && l.level == Lga && l !in s.rows
    ensures FromWards(g, ApproveStep(g, s, u, k).state, l)
  {
    hide Rollup, Ready;
    if ApproveError(g, s, u, k).None? && l in ApproveStep(g, s, u, k).state.rows {
      NewRowByRollup(g, MarkApproved(s, k), Own(u), l);
    }
  }

  lemma ApproveAllAddsFromWards(g: Geo, s: Store, u: User, l: Scope)
    requires g.Valid() && l.level == Lga && l !in s.rows
    ensures FromWards(g, ApproveAllStep(g, s, u).state, l)
  {
    hide Rollup, Ready;
    if ApproveAllStep(g, s, u).Done? && l in ApproveAllStep(g, s, u).state.rows {
      NewRowByRollup(g, MarkAllApproved(s, Pending(g, s, Own(u))), Own(u), l);
    }
  }

  lemma OwnerAddsOwnRow(g: Geo, s: Store, u: User, a: Action, l: Scope)
    requires a.SaveDraft? || a.AttachPhoto? || a.Submit?
    requires l.level == Lga && l !in s.rows && NoLgaDraft(Call(u, a))
    ensures l !in Step(g, s, u, a).state.rows
  {
  }

  lemma {:induction false} NewLgaRowIsFromWards(g: Geo, s: Store, u: User, a: Action, l: Scope)
    requires g.Valid() && l.level == Lga && l !in s.rows && NoLgaDraft(Call(u, a))
    ensures FromWards(g, Step(g, s, u, a).state, l)
  {
    hide ApproveStep, RejectStep, ResubmitStep, ReturnEach, ApproveAllStep, SaveDraftStep, AttachPhotoStep, SubmitStep;
    match a
    case Approve(k) => ApproveAddsFromWards(g, s, u, k, l);
    case Reject(k, affected) => RejectAddsNoLga(g, s, u, k, affected, l);
    case ResubmitWard => ResubmitAddsNoLga(g, s, u, l);
    case ReturnFlagged =>
      if Access(u).Some? && Has(s, Own(u), Rejected) {
        ReturnEachAddsNoLga(g, s, u, ToReturn(s, s.rows[Own(u)].flagged), l);
      }
    case ApproveAllWards => ApproveAllAddsFromWards(g, s, u, l);
    case _ => OwnerAddsOwnRow(g, s, u, a, l);
  }

  lemma {:induction false} RunKeepsFromWards(g: Geo, s: Store, es: seq<Event>, l: Scope)
    requires g.Valid() && Sound(g, s) && l.level == Lga && FromWards(g, s, l)
    requires forall e :: e in es ==> NoLgaDraft(e)
    ensures FromWards(g, Run(g, s, es), l)
    decreases |es|
  {
    hide Sound;
    if es != [] {
      var e := es[0];
      assert e in es;
      ApplyKeepsSound(g, s, e);
      if l in s.rows {
        ApprovedWardStays(g, s, e, l);
      } else if e.Call? {
        NewLgaRowIsFromWards(g, s, e.user, e.action, l);
      }
      RunKeepsFromWards(g, Apply(g, s, e), es[1..], l);
    }
  }

  // The board after a run.

  /** What a run's LGA-level drafts add to an LGA's entry: the last one counts until a ward is approved. */
  ghost function StrayVotes(g: Geo, es: seq<Event>, p: Party): Scope -> int {
    l => if ApprovedChildren(g, Run(g, EMPTY, es), l) == [] then DraftVotes(g, EMPTY, es, l, p, 0) else 0
  }

  /** After any run, an LGA's entry is the sum over its approved wards' polling units plus the stray draft votes. */
  lemma BoardEntryAfterRun(g: Geo, es: seq<Event>, l: Scope, p: Party)
    requires g.Valid() && l in g.places && l.level == Lga
    ensures var s := Run(g, EMPTY, es);
      BoardVotes(s, p)(l) == Sum(g.places, UnitVotes(g, s, l, OfParty(p))) + StrayVotes(g, es, p)(l)
  {
    hide UnitVotes, DraftVotes, ApprovedChildren, Sum;
    var s := Run(g, EMPTY, es);
    ReachableIsSound(g, es);
    ReachableIsSound(g, []);
    EntryIsLastDraft(g, EMPTY, es, l, p, 0);
    BoardEntryInStore(g, s, l, p);
  }

  /**
   When one LGA's board entry is right: exactly when a ward of it is approved, or the last draft
   accepted for the LGA itself gave the party no votes. Until then the draft is shown as votes.
   */
  lemma BoardEntryExactly(g: Geo, es: seq<Event>, l: Scope, p: Party)
    requires g.Valid() && l in g.places && l.level == Lga
    ensures var s := Run(g, EMPTY, es);
      BoardVotes(s, p)(l) == Sum(g.places, UnitVotes(g, s, l, OfParty(p)))
      <==> ApprovedChildren(g, s, l) != [] || DraftVotes(g, EMPTY, es, l, p, 0) == 0
  {
    hide UnitVotes, DraftVotes, ApprovedChildren, Sum, BoardVotes;
    BoardEntryAfterRun(g, es, l, p);
  }

  lemma NoApprovedUnits(g: Geo, s: Store, l: Scope, c: Column)
    requires forall k :: !IsApproved(s, k)
    ensures Sum(g.places, UnitVotes(g, s, l, c)) == 0
  {
    SumZero(g.places, UnitVotes(g, s, l, c));
  }

  lemma LoneDraft(g: Geo, dto: Dto)
    requires dto.parties.Some?
    ensures var l := Scope(Lga, "L");
      var s := Run(g, EMPTY, [Call(User(LgaCollationOfficer, "L"), SaveDraft(dto))]);
      s.rows.Keys == {l} && s.rows[l].status == Draft && s.rows[l].sheet.parties == dto.parties.value
  {
    hide MergeFigures;
    var e := Call(User(LgaCollationOfficer, "L"), SaveDraft(dto));
    assert [e][1..] == [];
    assert Run(g, EMPTY, [e]) == Run(g, Apply(g, EMPTY, e), []);
  }

  /** The draft of an LGA officer is on the board although no polling unit reported. */
  lemma LgaDraftReachesBoard(g: Geo)
    requires g.Valid() && Scope(Lga, "L") in g.places
    ensures var l := Scope(Lga, "L");
      var dto := Dto(map[], Some(map["APC" := 7]), None);
      var s := Run(g, EMPTY, [Call(User(LgaCollationOfficer, "L"), SaveDraft(dto))]);
      && BoardVotes(s, "APC")(l) == 7 && s.rows[l].status == Draft && s.rows.Keys == {l}
      && Sum(g.places, UnitVotes(g, s, l, OfParty("APC"))) == 0
      && BoardVotes(s, "APC")(l) != Sum(g.places, UnitVotes(g, s, l, OfParty("APC")))
  {
    hide Run, UnitVotes, Sum;
    var dto := Dto(map[], Some(map["APC" := 7]), None);
    LoneDraft(g, dto);
    var s := Run(g, EMPTY, [Call(User(LgaCollationOfficer, "L"), SaveDraft(dto))]);
    NoApprovedUnits(g, s, Scope(Lga, "L"), OfParty("APC"));
  }

  /** A polling unit's votes for the board: its own, if its ward is approved and its LGA is on the board. */
  function StateVotes(g: Geo, s: Store, lgas: seq<Scope>, p: Party): Scope -> int {
    k => if InApprovedWard(g, s, k) && PlaceAbove(g, g.above[k]).Some? && PlaceAbove(g, g.above[k]).value in lgas
         then Cell(RowOr(s, k).sheet, OfParty(p)) else 0
  }

  /** Places by LGA, for exchanging the two sums. */
  function EntryOf(g: Geo, s: Store, p: Party, k: Scope): Scope -> int {
    l => UnitVotes(g, s, l, OfParty(p))(k)
  }

  lemma UnitCountedOnce(g: Geo, s: Store, lgas: seq<Scope>, p: Party, k: Scope)
    requires Distinct(lgas)
    ensures StateVotes(g, s, lgas, p)(k) == Sum(lgas, EntryOf(g, s, p, k))
  {
    forall l
      ensures EntryOf(g, s, p, k)(l) ==
              if InApprovedWard(g, s, k) && PlaceAbove(g, g.above[k]) == Some(l)
              then Cell(RowOr(s, k).sheet, OfParty(p)) else 0
    {
      assert EntryOf(g, s, p, k)(l) == UnitVotes(g, s, l, OfParty(p))(k);
    }
    if InApprovedWard(g, s, k) && PlaceAbove(g, g.above[k]).Some? {
      SumSingle(lgas, EntryOf(g, s, p, k), PlaceAbove(g, g.above[k]).value);
    } else {
      SumZero(lgas, EntryOf(g, s, p, k));
    }
  }

  /**
   From PU sheet to statewide standings: after any run, the board's total for a party is the sum over
   the polling units of all approved wards, plus the stray draft votes of LGAs without one.
   */
  lemma BoardTotalExactly(g: Geo, es: seq<Event>, lgas: seq<Scope>, p: Party)
    requires g.Valid() && Distinct(lgas) && forall l :: l in lgas ==> l in g.places && l.level == Lga
    ensures var s := Run(g, EMPTY, es);
      Sum(lgas, BoardVotes(s, p)) == Sum(g.places, StateVotes(g, s, lgas, p)) + Sum(lgas, StrayVotes(g, es, p))
  {
    hide DraftVotes, BoardVotes, StateVotes, StrayVotes;
    var s := Run(g, EMPTY, es);
    var row := l => Sum(g.places, UnitVotes(g, s, l, OfParty(p)));
    forall l | l in lgas ensures BoardVotes(s, p)(l) == row(l) + StrayVotes(g, es, p)(l) {
      BoardEntryAfterRun(g, es, l, p);
    }
    forall k | k in g.places ensures StateVotes(g, s, lgas, p)(k) == Sum(lgas, EntryOf(g, s, p, k)) {
      UnitCountedOnce(g, s, lgas, p, k);
    }
    SumSwap(lgas, g.places, l => UnitVotes(g, s, l, OfParty(p)), k => EntryOf(g, s, p, k),
            row, StateVotes(g, s, lgas, p));
    SumPlus(lgas, row, StrayVotes(g, es, p), BoardVotes(s, p));
  }

  /** Without drafts by LGA-level users there are no stray votes. */
  lemma {:induction false} NoDraftNoVotes(g: Geo, s: Store, es: seq<Event>, l: Scope, p: Party, before: int)
    requires l.level == Lga && forall e :: e in es ==> NoLgaDraft(e)
    ensures DraftVotes(g, s, es, l, p, before) == before
    decreases |es|
  {
    hide Apply, SaveDraftStep;
    if es != [] {
      assert es[0] in es;
      NoDraftNoVotes(g, Apply(g, s, es[0]), es[1..], l, p, before);
    }
  }

  /** After any run in which no LGA-level user saves a draft, the board counts exactly the polling units. */
  lemma BoardCountsPollingUnits(g: Geo, es: seq<Event>, lgas: seq<Scope>, p: Party)
    requires g.Valid() && Distinct(lgas) && forall l :: l in lgas ==> l in g.places && l.level == Lga
    requires forall e :: e in es ==> NoLgaDraft(e)
    ensures var s := Run(g, EMPTY, es);
      Sum(lgas, BoardVotes(s, p)) == Sum(g.places, StateVotes(g, s, lgas, p))
  {
    hide DraftVotes, BoardVotes, StateVotes;
    BoardTotalExactly(g, es, lgas, p);
    forall l | l in lgas ensures StrayVotes(g, es, p)(l) == 0 {
      NoDraftNoVotes(g, EMPTY, es, l, p, 0);
    }
    SumZero(lgas, StrayVotes(g, es, p));
  }

  // From polling units to outcomes.

  /** What the polling units of an LGA's approved wards gave each tracked party. */
  ghost function UnitTally(g: Geo, s: Store, l: Scope, columns: seq<Party>): map<Party, int> {
    map c | c in columns :: Sum(g.places, UnitVotes(g, s, l, OfParty(c)))
  }

  ghost function UnitWins(g: Geo, s: Store, columns: seq<Party>, client: Option<Party>): Scope -> bool {
    l => ClientWins(UnitTally(g, s, l, columns), columns, client)
  }

  ghost function UnitTies(g: Geo, s: Store, columns: seq<Party>, client: Option<Party>): Scope -> bool {
    l => ClientTies(UnitTally(g, s, l, columns), columns, client)
  }

  ghost function UnitUndecideds(g: Geo, s: Store, columns: seq<Party>, client: Option<Party>): Scope -> bool {
    l => NothingToCall(UnitTally(g, s, l, columns), columns, client)
  }

  /** The outcome of an LGA on the board is the one its polling units decided. */
  ghost predicate OutcomeFromUnits(g: Geo, s: Store, l: Scope, columns: seq<Party>, client: Option<Party>) {
    && Wins(s, columns, client)(l) == UnitWins(g, s, columns, client)(l)
    && Ties(s, columns, client)(l) == UnitTies(g, s, columns, client)(l)
    && Undecideds(s, columns, client)(l) == UnitUndecideds(g, s, columns, client)(l)
  }

  lemma SameVotesSameOutcome(a: map<Party, int>, b: map<Party, int>, columns: seq<Party>, client: Option<Party>)
    requires forall c :: c in columns ==> At(a, c) == At(b, c)
    ensures ClientWins(a, columns, client) <==> ClientWins(b, columns, client)
    ensures ClientTies(a, columns, client) <==> ClientTies(b, columns, client)
    ensures NothingToCall(a, columns, client) <==> NothingToCall(b, columns, client)
  {
  }

  lemma OutcomeByVotes(g: Geo, s: Store, l: Scope, columns: seq<Party>, client: Option<Party>)
    requires forall c :: c in columns ==> BoardVotes(s, c)(l) == Sum(g.places, UnitVotes(g, s, l, OfParty(c)))
    ensures OutcomeFromUnits(g, s, l, columns, client)
  {
    hide ClientWins, ClientTies, NothingToCall, Sum, UnitVotes;
    SameVotesSameOutcome(RowOr(s, l).sheet.parties, UnitTally(g, s, l, columns), columns, client);
  }

  /** An LGA with an approved ward has the outcome of its polling units, in every tallied store. */
  lemma OutcomeOfApprovedLga(g: Geo, s: Store, l: Scope, columns: seq<Party>, client: Option<Party>)
    requires g.Valid() && Tallied(g, s) && l in g.places && l.level == Lga && ApprovedChildren(g, s, l) != []
    ensures OutcomeFromUnits(g, s, l, columns, client)
  {
    hide BoardVotes, UnitVotes, ApprovedChildren, Sum, OutcomeFromUnits, Tallied;
    forall c | c in columns ensures BoardVotes(s, c)(l) == Sum(g.places, UnitVotes(g, s, l, OfParty(c))) {
      BoardEntryInStore(g, s, l, c);
    }
    OutcomeByVotes(g, s, l, columns, client);
  }

  /**
   After any run in which no LGA-level user saves a draft, the board's wins, ties and undecided LGAs
   are those decided by the polling units.
   */
  lemma OutcomesCountPollingUnits(g: Geo, es: seq<Event>, lgas: seq<Scope>, columns: seq<Party>, client: Option<Party>)
    requires g.Valid() && forall l :: l in lgas ==> l in g.places && l.level == Lga
    requires forall e :: e in es ==> NoLgaDraft(e)
    ensures var s := Run(g, EMPTY, es);
      && Count(lgas, Wins(s, columns, client)) == Count(lgas, UnitWins(g, s, columns, client))
      && Count(lgas, Ties(s, columns, client)) == Count(lgas, UnitTies(g, s, columns, client))
      && Count(lgas, Undecideds(s, columns, client)) == Count(lgas, UnitUndecideds(g, s, columns, client))
  {
    hide DraftVotes, BoardVotes, UnitVotes, Sum, Wins, Ties, Undecideds, UnitWins, UnitTies, UnitUndecideds;
    var s := Run(g, EMPTY, es);
    forall l | l in lgas ensures OutcomeFromUnits(g, s, l, columns, client) {
      forall c | c in columns ensures BoardVotes(s, c)(l) == Sum(g.places, UnitVotes(g, s, l, OfParty(c))) {
        BoardEntryAfterRun(g, es, l, c);
        NoDraftNoVotes(g, EMPTY, es, l, c, 0);
      }
      OutcomeByVotes(g, s, l, columns, client);
    }
    FilterSame(lgas, Wins(s, columns, client), UnitWins(g, s, columns, client));
    FilterSame(lgas, Ties(s, columns, client), UnitTies(g, s, columns, client));
    FilterSame(lgas, Undecideds(s, columns, client), UnitUndecideds(g, s, columns, client));
  }
}
