/**
  A player of the manager's roster (src/main/java/FPLManager/model/Player.java): the
  catalog record it is built from, the small lookups on that record, and the fixture
  schedule from the next gameweek to the end of the season.
 */
module Players {
  import opened Wrappers
  import opened JavaText

  /** The last gameweek of a season. */
  const LAST_GW: int := 38

  /** The id of the placeholder player at the root of the on-screen tree. */
  const ROOT_ID: int := -1

  /** One row of the team directory: full name (column 0) and short code (column 1); team `id` is row `id - 1`. */
  datatype TeamRow = TeamRow(name: string, shortCode: string)

  /**
    The position a player is tagged with: the four concrete Player subclasses, and
    Unknown for an element type outside 1..4 (the assembly skips such players; an
    anonymous subclass, as the root placeholder is, also sorts like Unknown).
   */
  datatype Position = Goalkeeper | Defender | Midfielder | Forward | Unknown

  /**
    One decoded element of the player catalog. `None` is a key that is missing or
    holds JSON null. The floating-point fields are not modelled.
   */
  datatype Element = Element(
    id: int,
    firstName: Option<string>,
    secondName: Option<string>,
    elementType: Option<int>,
    team: Option<int>,
    chanceOfPlaying: Option<int>,
    eventPoints: Option<int>,
    transfersIn: Option<int>,
    transfersOut: Option<int>,
    pointsPerGame: Option<string>,
    selectedByPercent: Option<string>)

  /** One match of the remaining-fixture calendar, as the API layer hands it on. */
  datatype Match = Match(home: Option<int>, away: Option<int>)

  /** An immutable Player object. */
  datatype Player = Player(
    id: int,
    nextGW: int,
    position: Position,
    name: string,
    chanceOfPlaying: int,
    pointsLastRound: int,
    avgPoints: string,
    selectedBy: string,
    transferBalance: int,
    teamID: int,
    team: string,
    fixtures: map<int, seq<string>>)

  // ----- lookups on one catalog element -----

  /** The element-type code of each known position (the inverse of `PositionOfCode`). */
  function PositionCode(p: Position): int {
    match p
    case Goalkeeper => 1
    case Defender => 2
    case Midfielder => 3
    case Forward => 4
    case Unknown => 0
  }

  function PositionOfCode(code: int): (p: Position)
    ensures p != Unknown <==> 1 <= code <= 4
    ensures p != Unknown ==> PositionCode(p) == code
  {
    if code == 1 then Goalkeeper
    else if code == 2 then Defender
    else if code == 3 then Midfielder
    else if code == 4 then Forward
    else Unknown
  }

  /** `getPositionFromPlayerData(playerData, "element_type")`; a null map, a missing key and a null value all give Unknown. */
  function PositionFromPlayerData(data: Option<Element>): (p: Position)
    ensures p != Unknown <==> data.Some? && data.value.elementType.Some? && 1 <= data.value.elementType.value <= 4
    ensures p != Unknown ==> PositionCode(p) == data.value.elementType.value
  {
    if data.None? || data.value.elementType.None? then Unknown
    else PositionOfCode(data.value.elementType.value)
  }

  /** The position codes 1 to 4 and the four known positions correspond one to one. */
  lemma PositionCodesRoundTrip(p: Position)
    requires p != Unknown
    ensures PositionOfCode(PositionCode(p)) == p
  {
  }

  /** `getNameFromPlayerData`: first name, a space, second name, a missing part read as "". */
  function NameFromPlayerData(data: Element): (r: string)
    ensures |r| == |data.firstName.GetOr("")| + 1 + |data.secondName.GetOr("")|
    ensures r[|data.firstName.GetOr("")|] == ' '
    ensures r[..|data.firstName.GetOr("")|] == data.firstName.GetOr("")
    ensures r[|data.firstName.GetOr("")| + 1..] == data.secondName.GetOr("")
  {
    data.firstName.GetOr("") + " " + data.secondName.GetOr("")
  }

  /** `getIntFromPlayerData`: the value, or 0 for a missing key or null. */
  function IntFromPlayerData(field: Option<int>): int {
    field.GetOr(0)
  }

  /** `getStringFromPlayerData`: the value, or "0" for a missing key or null. */
  function StringFromPlayerData(field: Option<string>): string {
    field.GetOr("0")
  }

  /** `getTransferBalance`: transfers in minus transfers out in `int` arithmetic, or 0 unless both are present. */
  function TransferBalance(data: Element): (r: int)
    ensures IsInt32(r)
    ensures data.transfersIn.None? || data.transfersOut.None? ==> r == 0
    ensures data.transfersIn.Some? && data.transfersOut.Some? ==>
              (data.transfersIn.value - data.transfersOut.value - r) % 0x1_0000_0000 == 0
    ensures data.transfersIn.Some? && data.transfersOut.Some? &&
            IsInt32(data.transfersIn.value - data.transfersOut.value) ==>
              r == data.transfersIn.value - data.transfersOut.value
  {
    if data.transfersIn.Some? && data.transfersOut.Some? then
      Wrap32(data.transfersIn.value - data.transfersOut.value)
    else 0
  }

  /** The lookup `teams.get(teamID - 1)` succeeds (team 0 is never looked up). */
  predicate TeamIdResolvable(teamID: int, teams: seq<TeamRow>) {
    teamID == 0 || 1 <= teamID <= |teams|
  }

  /** `getTeamName`: "Not found" for team 0, otherwise the full name in the directory row `teamID - 1`. */
  function TeamName(teamID: int, teams: seq<TeamRow>): (r: string)
    requires TeamIdResolvable(teamID, teams)
    ensures teamID == 0 ==> r == "Not found"
    ensures teamID != 0 ==> r == teams[teamID - 1].name
  {
    if teamID == 0 then "Not found" else teams[teamID - 1].name
  }

  // ----- fixture schedule -----

  /** The opponent of a match that involves `team` can be looked up in the directory. */
  predicate MatchResolvable(m: Match, team: int, teams: seq<TeamRow>) {
    m.home.Some? && m.away.Some? ==>
      (m.home.value == team ==> 1 <= m.away.value <= |teams|) &&
      (m.home.value != team && m.away.value == team ==> 1 <= m.home.value <= |teams|)
  }

  /** Every match the schedule of `team` from `nextGW` looks at can be resolved. */
  predicate Resolvable(team: int, nextGW: int, data: map<int, seq<Match>>, teams: seq<TeamRow>) {
    forall g, i :: g in data && nextGW <= g <= LAST_GW && 0 <= i < |data[g]| ==> MatchResolvable(data[g][i], team, teams)
  }

  /** An opponent descriptor: a directory short code followed by "(H)" or "(A)". */
  ghost predicate IsDescriptor(s: string, teams: seq<TeamRow>) {
    exists k :: 0 <= k < |teams| && (s == teams[k].shortCode + "(H)" || s == teams[k].shortCode + "(A)")
  }

  /**
    The entry one match adds for `team`: the away side's short code with "(H)" when
    `team` plays at home, otherwise the home side's short code with "(A)" when it plays
    away, and nothing when either side is missing or `team` does not play.
   */
  function MatchEntry(m: Match, team: int, teams: seq<TeamRow>): (r: Option<string>)
    requires MatchResolvable(m, team, teams)
    ensures r.Some? <==> m.home.Some? && m.away.Some? && (m.home.value == team || m.away.value == team)
    ensures r.Some? ==> IsDescriptor(r.value, teams)
  {
    if m.home.None? || m.away.None? then None
    else if m.home.value == team then Some(teams[m.away.value - 1].shortCode + "(H)")
    else if m.away.value == team then Some(teams[m.home.value - 1].shortCode + "(A)")
    else None
  }

  /** The entries a gameweek's match list adds for `team`, in calendar order. */
  function GameweekEntries(ms: seq<Match>, team: int, teams: seq<TeamRow>): (r: seq<string>)
    requires forall i :: 0 <= i < |ms| ==> MatchResolvable(ms[i], team, teams)
    ensures |r| <= |ms|
    ensures forall j :: 0 <= j < |r| ==> IsDescriptor(r[j], teams)
  {
    if ms == [] then []
    else
      var prefix := GameweekEntries(ms[..|ms| - 1], team, teams);
      match MatchEntry(ms[|ms| - 1], team, teams)
      case None => prefix
      case Some(e) => prefix + [e]
  }

  /**
    The fixture map of `processFixtures`: each gameweek from `nextGW` to the last one
    with at least one entry for `team`, mapped to its entries. A null calendar gives
    an empty map.
   */
  function Schedule(team: int, nextGW: int, fixtureData: Option<map<int, seq<Match>>>, teams: seq<TeamRow>): (r: map<int, seq<string>>)
    requires fixtureData.Some? ==> Resolvable(team, nextGW, fixtureData.value, teams)
    ensures forall g :: g in r ==> nextGW <= g <= LAST_GW && r[g] != []
    ensures forall g, j :: g in r && 0 <= j < |r[g]| ==> IsDescriptor(r[g][j], teams)
    ensures fixtureData.None? ==> r == map[]
  {
    if fixtureData.None? then map[]
    else
      var data := fixtureData.value;
      map g | g in data && nextGW <= g <= LAST_GW && GameweekEntries(data[g], team, teams) != [] ::
        GameweekEntries(data[g], team, teams)
  }

  /** The part of `Schedule` for the gameweeks below `bound`. */
  ghost function ScheduleBelow(team: int, nextGW: int, data: map<int, seq<Match>>, teams: seq<TeamRow>, bound: int): map<int, seq<string>>
    requires Resolvable(team, nextGW, data, teams)
  {
    map g | g in data && nextGW <= g < bound && g <= LAST_GW && GameweekEntries(data[g], team, teams) != [] ::
      GameweekEntries(data[g], team, teams)
  }

  /** Moving the bound past one gameweek adds that gameweek's entries, if it has any. */
  lemma ScheduleBelowStep(team: int, nextGW: int, data: map<int, seq<Match>>, teams: seq<TeamRow>, gw: int)
    requires Resolvable(team, nextGW, data, teams)
    requires nextGW <= gw <= LAST_GW
    ensures var entries := if gw in data then GameweekEntries(data[gw], team, teams) else [];
            ScheduleBelow(team, nextGW, data, teams, gw + 1) ==
              if entries != [] then ScheduleBelow(team, nextGW, data, teams, gw)[gw := entries]
              else ScheduleBelow(team, nextGW, data, teams, gw)
  {
  }

  /** The inner loop of `processFixtures`: one gameweek's matches, in calendar order. */
  method GameweekFixture(fixtureList: seq<Match>, team: int, teams: seq<TeamRow>) returns (fixture: seq<string>)
    requires forall j :: 0 <= j < |fixtureList| ==> MatchResolvable(fixtureList[j], team, teams)
    ensures fixture == GameweekEntries(fixtureList, team, teams)
  {
    fixture := [];
    var i := 0;
    while i < |fixtureList|
      invariant 0 <= i <= |fixtureList|
      invariant fixture == GameweekEntries(fixtureList[..i], team, teams)
    {
      var m := fixtureList[i];
      GameweekEntriesStep(fixtureList, i, team, teams);
      if m.home.Some? && m.away.Some? {
        if m.home.value == team {
          fixture := fixture + [teams[m.away.value - 1].shortCode + "(H)"];
        } else if m.away.value == team {
          fixture := fixture + [teams[m.home.value - 1].shortCode + "(A)"];
        }
      }
      i := i + 1;
    }
    assert fixtureList[..i] == fixtureList;
  }

  /** `processFixtures`: fills the gameweek map in ascending order, one match list at a time. */
  method ProcessFixtures(team: int, nextGW: int, fixtureData: Option<map<int, seq<Match>>>, teams: seq<TeamRow>)
    returns (fixtures: map<int, seq<string>>)
    requires fixtureData.Some? ==> Resolvable(team, nextGW, fixtureData.value, teams)
    ensures fixtures == Schedule(team, nextGW, fixtureData, teams)
  {
    fixtures := map[];
    if fixtureData.None? {
      return;
    }
    var data := fixtureData.value;
    var gw := nextGW;
    while gw < LAST_GW + 1
      invariant gw == nextGW || nextGW <= gw <= LAST_GW + 1
      invariant fixtures == ScheduleBelow(team, nextGW, data, teams, gw)
    {
      var fixture: seq<string> := [];
      if gw in data {
        fixture := GameweekFixture(data[gw], team, teams);
      }
      ScheduleBelowStep(team, nextGW, data, teams, gw);
      if fixture != [] {
        fixtures := fixtures[gw := fixture];
      }
      gw := gw + 1;
    }
    assert fixtures == Schedule(team, nextGW, fixtureData, teams);
  }

  /** Reading one more match adds its entry, if it has one. */
  lemma GameweekEntriesStep(ms: seq<Match>, i: int, team: int, teams: seq<TeamRow>)
    requires forall j :: 0 <= j < |ms| ==> MatchResolvable(ms[j], team, teams)
    requires 0 <= i < |ms|
    ensures GameweekEntries(ms[..i + 1], team, teams) ==
              GameweekEntries(ms[..i], team, teams) + (if MatchEntry(ms[i], team, teams).Some? then [MatchEntry(ms[i], team, teams).value] else [])
  {
    assert ms[..i + 1][..i] == ms[..i];
  }

  /** Concatenation regroups; stated on plain lists so that it is not rederived on larger terms. */
  lemma ConcatAssoc<T>(x: seq<T>, y: seq<T>, z: seq<T>)
    ensures x + y + z == x + (y + z)
  {
  }

  /** The entries of two consecutive runs of matches are the entries of each, in order. */
  lemma {:induction false} GameweekEntriesAppend(a: seq<Match>, b: seq<Match>, team: int, teams: seq<TeamRow>)
    requires forall i :: 0 <= i < |a| ==> MatchResolvable(a[i], team, teams)
    requires forall i :: 0 <= i < |b| ==> MatchResolvable(b[i], team, teams)
    ensures GameweekEntries(a + b, team, teams) == GameweekEntries(a, team, teams) + GameweekEntries(b, team, teams)
  {
    if b != [] {
      var ab := a + b;
      assert ab[..|ab| - 1] == a + b[..|b| - 1];
      assert ab[|ab| - 1] == b[|b| - 1];
      GameweekEntriesAppend(a, b[..|b| - 1], team, teams);
      var front := GameweekEntries(b[..|b| - 1], team, teams);
      match MatchEntry(b[|b| - 1], team, teams)
      case None =>
      case Some(e) => ConcatAssoc(GameweekEntries(a, team, teams), front, [e]);
    } else {
      assert a + b == a;
    }
  }

  /** A match whose entry exists contributes exactly that entry, at its place among the others. */
  lemma GameweekEntriesAt(ms: seq<Match>, i: int, team: int, teams: seq<TeamRow>)
    requires forall j :: 0 <= j < |ms| ==> MatchResolvable(ms[j], team, teams)
    requires 0 <= i < |ms| && MatchEntry(ms[i], team, teams).Some?
    ensures GameweekEntries(ms, team, teams) ==
              GameweekEntries(ms[..i], team, teams) + [MatchEntry(ms[i], team, teams).value] + GameweekEntries(ms[i + 1..], team, teams)
  {
    var before, here, after := ms[..i], [ms[i]], ms[i + 1..];
    assert ms == before + (here + after);
    GameweekEntriesAppend(before, here + after, team, teams);
    GameweekEntriesAppend(here, after, team, teams);
    assert GameweekEntries(here, team, teams) == [MatchEntry(ms[i], team, teams).value] by {
      assert here[..0] == [];
    }
    ConcatAssoc(GameweekEntries(before, team, teams), GameweekEntries(here, team, teams), GameweekEntries(after, team, teams));
  }

  /**
    A home match of `team` against `opponent` in a gameweek the schedule covers puts
    the opponent's short code with "(H)" into that gameweek's list.
   */
  lemma HomeMatchListed(team: int, opponent: int, nextGW: int, data: map<int, seq<Match>>, teams: seq<TeamRow>, g: int, i: int)
    requires Resolvable(team, nextGW, data, teams)
    requires g in data && nextGW <= g <= LAST_GW && 0 <= i < |data[g]|
    requires data[g][i] == Match(Some(team), Some(opponent))
    ensures 1 <= opponent <= |teams|
    ensures var r := Schedule(team, nextGW, Some(data), teams);
            g in r && teams[opponent - 1].shortCode + "(H)" in r[g]
  {
    assert MatchResolvable(data[g][i], team, teams);
    GameweekEntriesAt(data[g], i, team, teams);
  }

  /** An away match of `team` (at home nobody else is `team`) puts the home side's short code with "(A)" into its gameweek. */
  lemma AwayMatchListed(team: int, opponent: int, nextGW: int, data: map<int, seq<Match>>, teams: seq<TeamRow>, g: int, i: int)
    requires Resolvable(team, nextGW, data, teams)
    requires g in data && nextGW <= g <= LAST_GW && 0 <= i < |data[g]|
    requires data[g][i] == Match(Some(opponent), Some(team)) && opponent != team
    ensures 1 <= opponent <= |teams|
    ensures var r := Schedule(team, nextGW, Some(data), teams);
            g in r && teams[opponent - 1].shortCode + "(A)" in r[g]
  {
    assert MatchResolvable(data[g][i], team, teams);
    GameweekEntriesAt(data[g], i, team, teams);
  }

  /** `getFixtureForGameweek`: the gameweek's entries joined by ", ", or "" when the gameweek has none. */
  function FixtureForGameweek(fixtures: map<int, seq<string>>, gameweek: int): (r: string)
    ensures gameweek !in fixtures ==> r == ""
    ensures gameweek in fixtures && |fixtures[gameweek]| == 1 ==> r == fixtures[gameweek][0]
    ensures gameweek in fixtures && |fixtures[gameweek]| == 2 ==>
              r == fixtures[gameweek][0] + ", " + fixtures[gameweek][1]
    ensures gameweek in fixtures && |fixtures[gameweek]| >= 2 ==>
              var parts := fixtures[gameweek];
              r == Join(parts[..|parts| - 1], ", ") + ", " + parts[|parts| - 1]
  {
    if gameweek in fixtures then
      var parts := fixtures[gameweek];
      assert |parts| == 2 ==> parts[1..] == [parts[1]] && Join(parts[1..], ", ") == parts[1];
      assert |parts| >= 2 ==> Join(parts, ", ") == Join(parts[..|parts| - 1], ", ") + ", " + parts[|parts| - 1] by {
        if |parts| >= 2 {
          assert parts == parts[..|parts| - 1] + [parts[|parts| - 1]];
          JoinSnoc(parts[..|parts| - 1], parts[|parts| - 1], ", ");
        }
      }
      Join(parts, ", ")
    else ""
  }

  /**
    The fixture case of the unit tests: two directory rows with short code "TT",
    player of team 1 from gameweek 37, one match 1 v 2 in gameweek 38.
   */
  lemma SingleHomeFixtureScenario()
    ensures var teams := [TeamRow("Test Team", "TT"), TeamRow("Test Team", "TT")];
            var fixtures := Schedule(1, 37, Some(map[38 := [Match(Some(1), Some(2))]]), teams);
            FixtureForGameweek(fixtures, 38) == "TT(H)" && FixtureForGameweek(fixtures, 37) == ""
  {
    var teams := [TeamRow("Test Team", "TT"), TeamRow("Test Team", "TT")];
    var data := map[38 := [Match(Some(1), Some(2))]];
    var ms := data[38];
    assert ms[..|ms| - 1] == [];
    assert teams[1].shortCode + "(H)" == "TT(H)";
    assert MatchEntry(ms[0], 1, teams) == Some("TT(H)");
    assert GameweekEntries(ms, 1, teams) == ["TT(H)"];
    var fixtures := Schedule(1, 37, Some(data), teams);
    assert 38 in fixtures && fixtures[38] == ["TT(H)"];
  }

  // ----- construction -----

  /** The directory lookups a non-root player needs succeed. */
  predicate PlayerResolvable(nextGW: int, data: Element, fixtureData: Option<map<int, seq<Match>>>, teams: seq<TeamRow>) {
    var teamID := IntFromPlayerData(data.team);
    TeamIdResolvable(teamID, teams) &&
    (fixtureData.Some? ==> Resolvable(teamID, nextGW, fixtureData.value, teams))
  }

  /** The placeholder player with id -1: name "Root", team "Root Team", zero statistics and no fixtures. */
  function RootPlayer(nextGW: int, position: Position): Player {
    Player(ROOT_ID, nextGW, position, "Root", 0, 0, "0", "0", 0, 0, "Root Team", map[])
  }

  /** The Player the constructor builds from one catalog element. */
  function PlayerOf(id: int, nextGW: int, position: Position, data: Element,
                    fixtureData: Option<map<int, seq<Match>>>, teams: seq<TeamRow>): (p: Player)
    requires id != ROOT_ID ==> PlayerResolvable(nextGW, data, fixtureData, teams)
    ensures p.id == id && p.nextGW == nextGW && p.position == position
    ensures id == ROOT_ID ==> p == RootPlayer(nextGW, position)
    ensures id != ROOT_ID ==> p.name == NameFromPlayerData(data) && p.teamID == IntFromPlayerData(data.team)
    ensures id != ROOT_ID ==> p.team == TeamName(p.teamID, teams)
    ensures id != ROOT_ID ==> p.fixtures == Schedule(p.teamID, nextGW, fixtureData, teams)
  {
    if id == ROOT_ID then RootPlayer(nextGW, position)
    else
      var teamID := IntFromPlayerData(data.team);
      Player(id, nextGW, position,
             NameFromPlayerData(data),
             IntFromPlayerData(data.chanceOfPlaying),
             IntFromPlayerData(data.eventPoints),
             StringFromPlayerData(data.pointsPerGame),
             StringFromPlayerData(data.selectedByPercent),
             TransferBalance(data),
             teamID,
             TeamName(teamID, teams),
             Schedule(teamID, nextGW, fixtureData, teams))
  }

  /** The Player constructor; `position` is the subclass the caller instantiates. */
  method NewPlayer(id: int, nextGW: int, position: Position, data: Element,
                   fixtureData: Option<map<int, seq<Match>>>, teams: seq<TeamRow>) returns (p: Player)
    requires id != ROOT_ID ==> PlayerResolvable(nextGW, data, fixtureData, teams)
    ensures p == PlayerOf(id, nextGW, position, data, fixtureData, teams)
  {
    if id == ROOT_ID {
      p := RootPlayer(nextGW, position);
    } else {
      var teamID := IntFromPlayerData(data.team);
      var fixtures := ProcessFixtures(teamID, nextGW, fixtureData, teams);
      p := Player(id, nextGW, position,
                  NameFromPlayerData(data),
                  IntFromPlayerData(data.chanceOfPlaying),
                  IntFromPlayerData(data.eventPoints),
                  StringFromPlayerData(data.pointsPerGame),
                  StringFromPlayerData(data.selectedByPercent),
                  TransferBalance(data),
                  teamID,
                  TeamName(teamID, teams),
                  fixtures);
    }
  }
}
