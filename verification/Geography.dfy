/**
 The collation hierarchy (shared/src/collation.ts:3-9, 46-57, 67-73, 165-168) and the fixed
 tables of polling units, wards, LGAs and states that the workflow consults.
 */
module Geography {
  import opened Collections

  type Id = string

  datatype Level = PollingUnit | Ward | Lga | State | National

  /** The part of a result's unique key that varies inside one campaign. */
  datatype Scope = Scope(level: Level, id: Id)

  datatype Role =
    | PollingAgent
    | PollingUnitOfficer
    | WardRaOfficer
    | WardCoordinator
    | LgaCollationOfficer
    | LgaCoordinator
    | StateCollationOfficer
    | StateCoordinator
    | NationalCollationOfficer
    | CampaignDirector
    | Candidate

  function LevelOf(role: Role): Option<Level> {
    match role
    case PollingAgent | PollingUnitOfficer => Some(PollingUnit)
    case WardRaOfficer | WardCoordinator => Some(Ward)
    case LgaCollationOfficer | LgaCoordinator => Some(Lga)
    case StateCollationOfficer | StateCoordinator => Some(State)
    case NationalCollationOfficer => Some(National)
    case CampaignDirector | Candidate => None
  }

  const COLLATION_HIERARCHY: seq<Level> := [PollingUnit, Ward, Lga, State, National]

  /** `getParentLevel` of the program: the entry before `level`, that is, the level below. */
  function LevelBelow(level: Level): Option<Level> {
    match level
    case PollingUnit => None
    case Ward => Some(PollingUnit)
    case Lga => Some(Ward)
    case State => Some(Lga)
    case National => Some(State)
  }

  lemma LevelBelowFollowsHierarchy(i: nat)
    requires i < |COLLATION_HIERARCHY|
    ensures LevelBelow(COLLATION_HIERARCHY[i]) == if i > 0 then Some(COLLATION_HIERARCHY[i - 1]) else None
  {
    assert i == 0 || i == 1 || i == 2 || i == 3 || i == 4;
  }

  /** Two roles at each level up to the states, one for the country, none for those who only read. */
  lemma RolesOfLevels(role: Role)
    ensures LevelOf(role) == Some(PollingUnit) <==> role == PollingAgent || role == PollingUnitOfficer
    ensures LevelOf(role) == Some(Ward) <==> role == WardRaOfficer || role == WardCoordinator
    ensures LevelOf(role) == Some(Lga) <==> role == LgaCollationOfficer || role == LgaCoordinator
    ensures LevelOf(role) == Some(State) <==> role == StateCollationOfficer || role == StateCoordinator
    ensures LevelOf(role) == Some(National) <==> role == NationalCollationOfficer
  {
  }

  /** All places of the country, with the foreign key of each to the place above it. */
  datatype Geo = Geo(places: seq<Scope>, above: map<Scope, Scope>) {

    ghost predicate Valid() {
      && Distinct(places)
      && (forall k :: k in places ==> k.id != "")
      && (forall k :: k in above ==>
            && k in places
            && above[k] in places
            && LevelBelow(above[k].level) == Some(k.level)
            && above[k].level != National)
      && (forall k :: k in places && k.level in {PollingUnit, Ward, Lga} ==> k in above)
    }

    predicate IsChild(child: Scope, parent: Scope) {
      if parent.level == National then child in places && child.level == State
      else child in above && above[child] == parent
    }

    /** `getChildScopeIds`: the places whose results the officer of `parent` approves. */
    function Children(parent: Scope): (r: seq<Scope>)
      ensures forall k :: k in r <==> k in places && IsChild(k, parent)
    {
      Filter(places, k => IsChild(k, parent))
    }

    lemma ChildrenDistinct(parent: Scope)
      requires Distinct(places)
      ensures Distinct(Children(parent))
    {
      FilterDistinct(places, k => IsChild(k, parent));
    }
  }

  /** The places an officer reviews: those whose foreign key names the officer's place, or all states. */
  lemma ChildrenExactly(g: Geo, parent: Scope, k: Scope)
    ensures parent.level == National ==> (k in g.Children(parent) <==> k in g.places && k.level == State)
    ensures parent.level != National ==>
      (k in g.Children(parent) <==> k in g.places && k in g.above && g.above[k] == parent)
  {
  }
}
