/**
  The manager of the older root package (src/main/java/FPLManager/Manager.java). It
  keeps the chip table and the transfer ledger of the model package, and builds one
  player per roster id, in roster order, without filtering and without sorting.
 */
module LegacyManagers {
  import opened Wrappers
  import Players
  import Managers
  import LegacyPlayers

  /**
    The values the constructor reads through eight getters (`getNextGW`, `getTeamName`,
    `getTeamPlayers`, `getChips`, `getTransferHistory`, `getPlayerData`,
    `getRemainingFixtures`, and `getNextGWInfo` for the deadline text, left out). The
    root package's FPLAPI declares none of them and only a private constructor, so
    these fields are the values such getters would return, assumed to be what the
    model package's FPLAPI fetches for the same manager.
   */
  datatype ManagerData = ManagerData(
    nextGW: int,
    teamName: string,
    teamPlayers: seq<int>,
    chips: Option<map<string, int>>,
    transferHistory: seq<int>,
    playerData: map<int, Players.Element>,
    remainingFixtures: Option<map<int, seq<Players.Match>>>)

  /** `Map.get`: a missing key gives null. */
  function Lookup(catalog: map<int, Players.Element>, id: int): (r: Option<Players.Element>)
    ensures r.Some? <==> id in catalog
    ensures r.Some? ==> r.value == catalog[id]
  {
    if id in catalog then Some(catalog[id]) else None
  }

  /** Every roster id gives a player without an exception. */
  predicate SquadBuilds(roster: seq<int>, catalog: map<int, Players.Element>, nextGW: int,
                        fixtureData: Option<map<int, seq<Players.Match>>>) {
    forall i :: 0 <= i < |roster| ==> LegacyPlayers.Builds(nextGW, Lookup(catalog, roster[i]), fixtureData)
  }

  /** `p` is the player `new Player(id, nextGW, catalog.get(id), fixtureData)` builds. */
  predicate BuiltFrom(p: LegacyPlayers.Player, id: int, nextGW: int, catalog: map<int, Players.Element>,
                      fixtureData: Option<map<int, seq<Players.Match>>>)
    reads p
  {
    p.id == id && p.nextGW == nextGW &&
    LegacyPlayers.AttributesOf(Lookup(catalog, id)) == Ok(p.Attrs()) &&
    LegacyPlayers.FixturesOf(p.team, nextGW, fixtureData) == Ok(p.fixtures)
  }

  class Manager {
    var id: int
    var nextGW: int
    var teamName: string
    var teamPlayersID: seq<int>
    var teamPlayers: seq<LegacyPlayers.Player>
    var chipsAvailable: map<string, Managers.ChipState>
    var availableTransfers: int

    /**
      The constructor's field assignments before its three setters; the chip table is
      empty until `SetChipsAvailable`, which the guard of `SetAvailableTransfers` reads
      the same way as Java's null table.
     */
    constructor (managerID: int, data: ManagerData)
      ensures id == managerID && nextGW == data.nextGW && teamName == data.teamName
      ensures teamPlayersID == data.teamPlayers
      ensures teamPlayers == [] && chipsAvailable == map[] && availableTransfers == 0
    {
      id := managerID;
      nextGW := data.nextGW;
      teamName := data.teamName;
      teamPlayersID := data.teamPlayers;
      teamPlayers := [];
      chipsAvailable := map[];
      availableTransfers := 0;
    }

    /** `setChipsAvailable`: the chip table of the model package's manager. */
    method SetChipsAvailable(chipsUsed: Option<map<string, int>>)
      modifies this`chipsAvailable
      ensures chipsAvailable == Managers.ChipTable(chipsUsed, nextGW)
    {
      var table := Managers.ProcessChipsAvailable(chipsUsed, nextGW);
      chipsAvailable := table;
    }

    /**
      `setAvailableTransfers`: the ledger of the model package's manager, with the same
      guard on the wildcard, so no gameweek is ever exempt.
     */
    method SetAvailableTransfers(transferHistoryData: seq<int>)
      modifies this`availableTransfers
      ensures availableTransfers == Managers.Balance(transferHistoryData, nextGW, Managers.NO_WILDCARD)
      ensures 0 <= availableTransfers <= Managers.MAX_TRANSFERS
    {
      var wildcardGW := Managers.WildcardWeekAsWired(chipsAvailable);
      var transfers := Managers.CalculateAvailableTransfers(transferHistoryData, nextGW, wildcardGW);
      availableTransfers := transfers;
    }

    /**
      `setTeamPlayers`: one new player per roster id, in roster order; an id missing from
      the catalog reaches the player as null and ends the loop with a NullPointerException.
     */
    method SetTeamPlayers(allPlayerData: map<int, Players.Element>,
                          fixtureData: Option<map<int, seq<Players.Match>>>) returns (outcome: Outcome)
      modifies this`teamPlayers
      ensures outcome == Pass <==> SquadBuilds(teamPlayersID, allPlayerData, nextGW, fixtureData)
      ensures outcome.Fail? ==> outcome.error == NullPointer
      ensures outcome == Pass ==> |teamPlayers| == |teamPlayersID|
      ensures outcome == Pass ==> forall i :: 0 <= i < |teamPlayers| ==>
                fresh(teamPlayers[i]) && BuiltFrom(teamPlayers[i], teamPlayersID[i], nextGW, allPlayerData, fixtureData)
      ensures outcome == Pass ==> forall i, j :: 0 <= i < j < |teamPlayers| ==> teamPlayers[i] != teamPlayers[j]
    {
      teamPlayers := [];
      var k := 0;
      while k < |teamPlayersID|
        invariant 0 <= k <= |teamPlayersID|
        invariant |teamPlayers| == k
        invariant forall i :: 0 <= i < k ==> LegacyPlayers.Builds(nextGW, Lookup(allPlayerData, teamPlayersID[i]), fixtureData)
        invariant forall i :: 0 <= i < k ==>
          fresh(teamPlayers[i]) && BuiltFrom(teamPlayers[i], teamPlayersID[i], nextGW, allPlayerData, fixtureData)
        invariant forall i, j :: 0 <= i < j < k ==> teamPlayers[i] != teamPlayers[j]
      {
        var playerID := teamPlayersID[k];
        var playerData := Lookup(allPlayerData, playerID);
        var player := LegacyPlayers.Create(playerID, nextGW, playerData, fixtureData);
        if player.Err? {
          return Fail(player.error);
        }
        teamPlayers := teamPlayers + [player.value];
        k := k + 1;
      }
      return Pass;
    }
  }

  /**
    `new Manager(managerID)`: the field assignments, then the chips, the transfers and
    the players, in that order; an exception while building a player ends the construction.
   */
  method Create(managerID: int, data: ManagerData) returns (r: Result<Manager>)
    ensures r.Ok? <==> SquadBuilds(data.teamPlayers, data.playerData, data.nextGW, data.remainingFixtures)
    ensures r.Err? ==> r.error == NullPointer
    ensures r.Ok? ==> fresh(r.value) && r.value.id == managerID && r.value.nextGW == data.nextGW &&
                      r.value.teamName == data.teamName && r.value.teamPlayersID == data.teamPlayers
    ensures r.Ok? ==> r.value.chipsAvailable == Managers.ChipTable(data.chips, data.nextGW)
    ensures r.Ok? ==> r.value.availableTransfers == Managers.Balance(data.transferHistory, data.nextGW, Managers.NO_WILDCARD)
    ensures r.Ok? ==> |r.value.teamPlayers| == |data.teamPlayers| &&
                      forall i :: 0 <= i < |r.value.teamPlayers| ==>
                        BuiltFrom(r.value.teamPlayers[i], data.teamPlayers[i], data.nextGW, data.playerData, data.remainingFixtures)
  {
    var m := new Manager(managerID, data);
    m.SetChipsAvailable(data.chips);
    m.SetAvailableTransfers(data.transferHistory);
    var outcome := m.SetTeamPlayers(data.playerData, data.remainingFixtures);
    if outcome.Fail? {
      return Err(outcome.error);
    }
    return Ok(m);
  }
}
