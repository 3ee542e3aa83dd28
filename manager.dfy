/**
  The rules that turn a manager's decoded season data into the manager snapshot
  (src/main/java/FPLManager/model/Manager.java): the free-transfer ledger, the chip
  table and the assembly of the sorted squad.
 */
module Managers {
  import opened Wrappers
  import opened JavaText
  import opened Players
  import opened PositionComparator
  import opened Api

  // ----- the free-transfer ledger -----

  /** The most free transfers a manager can bank. */
  const MAX_TRANSFERS: int := 5

  /** The wildcard gameweek when no exemption applies. */
  const NO_WILDCARD: int := -1

  /** The transfers the ledger charges for gameweek `gw`: one per record at `gw`, none in the wildcard week. */
  function Charges(history: seq<int>, gw: int, wildcardGW: int): (r: nat)
    ensures r <= |history|
    ensures gw == wildcardGW ==> r == 0
  {
    if history == [] then 0
    else Charges(history[..|history| - 1], gw, wildcardGW)
         + (if history[|history| - 1] == gw && gw != wildcardGW then 1 else 0)
  }

  /** The balance at the end of gameweek `gw`, from the balance `b` at the end of the week before. */
  function WeekEnd(b: int, history: seq<int>, gw: int, wildcardGW: int): int {
    var accrued := if b < MAX_TRANSFERS then b + 1 else b;
    var spent := accrued - Charges(history, gw, wildcardGW);
    if spent < 0 then 0 else spent
  }

  /** The free transfers left after simulating gameweeks 1 to `weeks`, starting from one. */
  function Balance(history: seq<int>, weeks: int, wildcardGW: int): (r: int)
    ensures 0 <= r <= MAX_TRANSFERS
    decreases weeks
  {
    if weeks < 1 then 1 else WeekEnd(Balance(history, weeks - 1, wildcardGW), history, weeks, wildcardGW)
  }

  /**
    `calculateAvailableTransfers`: every gameweek up to `nextGW` adds one transfer
    below the cap, takes one away per transfer made that week (outside the wildcard
    week) and clamps at zero.
   */
  method CalculateAvailableTransfers(transferHistoryData: seq<int>, nextGW: int, wildcardGW: int)
    returns (availableTransfers: int)
    ensures availableTransfers == Balance(transferHistoryData, nextGW, wildcardGW)
    ensures 0 <= availableTransfers <= MAX_TRANSFERS
    ensures nextGW < 1 ==> availableTransfers == 1
  {
    availableTransfers := 1;
    var currentGW := 1;
    while currentGW <= nextGW
      invariant 1 <= currentGW && (currentGW <= nextGW + 1 || currentGW == 1)
      invariant availableTransfers == Balance(transferHistoryData, currentGW - 1, wildcardGW)
    {
      if availableTransfers < MAX_TRANSFERS {
        availableTransfers := availableTransfers + 1;
      }
      ghost var accrued := availableTransfers;
      var i := 0;
      while i < |transferHistoryData|
        invariant 0 <= i <= |transferHistoryData|
        invariant availableTransfers == accrued - Charges(transferHistoryData[..i], currentGW, wildcardGW)
      {
        var gw := transferHistoryData[i];
        if gw == currentGW && gw != wildcardGW {
          availableTransfers := availableTransfers - 1;
        }
        assert transferHistoryData[..i + 1][..i] == transferHistoryData[..i];
        i := i + 1;
      }
      assert transferHistoryData[..|transferHistoryData|] == transferHistoryData;
      if availableTransfers < 0 {
        availableTransfers := 0;
      }
      currentGW := currentGW + 1;
    }
  }

  /** Inserting one record changes the charge of gameweek `gw` by one exactly when it is a charged record of that week. */
  lemma {:induction false} ChargesInsert(h1: seq<int>, x: int, h2: seq<int>, gw: int, wildcardGW: int)
    ensures Charges(h1 + [x] + h2, gw, wildcardGW)
         == Charges(h1 + h2, gw, wildcardGW) + (if x == gw && gw != wildcardGW then 1 else 0)
  {
    if h2 == [] {
      assert h1 + [x] + h2 == h1 + [x];
      assert (h1 + [x])[..|h1|] == h1;
      assert h1 + h2 == h1;
    } else {
      var front := h2[..|h2| - 1];
      ChargesInsert(h1, x, front, gw, wildcardGW);
      assert (h1 + [x] + h2)[..|h1 + [x] + h2| - 1] == h1 + [x] + front;
      assert (h1 + h2)[..|h1 + h2| - 1] == h1 + front;
    }
  }

  /**
    A record the ledger never charges, one outside gameweeks 1 to `weeks` or one in the
    wildcard week, leaves the balance as it would be without it.
   */
  lemma {:induction false} UnchargedRecordIgnored(h1: seq<int>, x: int, h2: seq<int>, weeks: int, wildcardGW: int)
    requires x == wildcardGW || x < 1 || x > weeks
    ensures Balance(h1 + [x] + h2, weeks, wildcardGW) == Balance(h1 + h2, weeks, wildcardGW)
    decreases weeks
  {
    if weeks >= 1 {
      UnchargedRecordIgnored(h1, x, h2, weeks - 1, wildcardGW);
      ChargesInsert(h1, x, h2, weeks, wildcardGW);
    }
  }

  /** One more transfer record never leaves more free transfers. */
  lemma {:induction false} ExtraRecordNeverHelps(h1: seq<int>, x: int, h2: seq<int>, weeks: int, wildcardGW: int)
    ensures Balance(h1 + [x] + h2, weeks, wildcardGW) <= Balance(h1 + h2, weeks, wildcardGW)
    decreases weeks
  {
    if weeks >= 1 {
      ExtraRecordNeverHelps(h1, x, h2, weeks - 1, wildcardGW);
      ChargesInsert(h1, x, h2, weeks, wildcardGW);
    }
  }

  /** With no transfers made, the balance grows by one a week from one up to the cap. */
  lemma {:induction false} NoTransfersAccrue(weeks: int, wildcardGW: int)
    ensures Balance([], weeks, wildcardGW) == if weeks < 1 then 1 else if weeks + 1 < MAX_TRANSFERS then weeks + 1 else MAX_TRANSFERS
    decreases weeks
  {
    if weeks >= 1 {
      NoTransfersAccrue(weeks - 1, wildcardGW);
    }
  }

  // ----- the chip table -----

  const WILDCARD: string := "wildcard"

  /** The chips of a season, in the order the table is filled. */
  const CHIP_NAMES: seq<string> := ["wildcard", "3xc", "bboost", "manager", "freehit"]

  /** The gameweek that splits the season into the two wildcard halves. */
  const HALF_SEASON: int := 18

  /** A chip-table value: the Integer gameweek the chip was played in, or the String "Available". */
  datatype ChipState = Used(gw: int) | Available

  /** The used-chips map has a record for `chip`. */
  predicate Recorded(chipsUsed: Option<map<string, int>>, chip: string) {
    chipsUsed.Some? && chip in chipsUsed.value
  }

  /** Both gameweeks lie strictly before gameweek 18, or both strictly after it. */
  predicate SameHalf(nextGW: int, usedGW: int) {
    (nextGW < HALF_SEASON && usedGW < HALF_SEASON) || (nextGW > HALF_SEASON && usedGW > HALF_SEASON)
  }

  /**
    The table value of one chip. A recorded chip shows its gameweek, except the
    wildcard, which shows it only when it was played in the half of the season
    `nextGW` is in; gameweek 18 belongs to neither half.
   */
  function ChipEntry(chip: string, chipsUsed: Option<map<string, int>>, nextGW: int): (s: ChipState)
    ensures s.Used? ==> Recorded(chipsUsed, chip) && s.gw == chipsUsed.value[chip]
    ensures chip != WILDCARD ==> (s.Used? <==> Recorded(chipsUsed, chip))
    ensures chip == WILDCARD ==> (s.Used? <==> Recorded(chipsUsed, chip) && SameHalf(nextGW, chipsUsed.value[chip]))
  {
    if !Recorded(chipsUsed, chip) then Available
    else
      var usedGW := chipsUsed.value[chip];
      if chip != WILDCARD || SameHalf(nextGW, usedGW) then Used(usedGW) else Available
  }

  /** The chip table: one entry for each of the five chips and nothing else. */
  function ChipTable(chipsUsed: Option<map<string, int>>, nextGW: int): (r: map<string, ChipState>)
    ensures r.Keys == {"wildcard", "3xc", "bboost", "manager", "freehit"}
    ensures forall c :: c in r ==> r[c] == ChipEntry(c, chipsUsed, nextGW)
  {
    map c | c in CHIP_NAMES :: ChipEntry(c, chipsUsed, nextGW)
  }

  /** On the boundary, with either gameweek equal to 18, the wildcard always shows as available. */
  lemma WildcardBoundaryAvailable(chipsUsed: Option<map<string, int>>, nextGW: int)
    requires nextGW == HALF_SEASON || (Recorded(chipsUsed, WILDCARD) && chipsUsed.value[WILDCARD] == HALF_SEASON)
    ensures ChipTable(chipsUsed, nextGW)[WILDCARD] == Available
  {
  }

  /** `processChipsAvailable`: fills the table chip by chip. */
  method ProcessChipsAvailable(chipsUsed: Option<map<string, int>>, nextGW: int)
    returns (chipsAvailable: map<string, ChipState>)
    ensures chipsAvailable == ChipTable(chipsUsed, nextGW)
  {
    chipsAvailable := map[];
    var i := 0;
    while i < |CHIP_NAMES|
      invariant 0 <= i <= |CHIP_NAMES|
      invariant forall c :: c in chipsAvailable <==> c in CHIP_NAMES[..i]
      invariant forall c :: c in chipsAvailable ==> chipsAvailable[c] == ChipEntry(c, chipsUsed, nextGW)
    {
      var chip := CHIP_NAMES[i];
      if chipsUsed.Some? && chip in chipsUsed.value {
        var usedGW := chipsUsed.value[chip];
        if chip == WILDCARD {
          if nextGW < HALF_SEASON && usedGW < HALF_SEASON {
            chipsAvailable := chipsAvailable[chip := Used(usedGW)];
          } else if nextGW > HALF_SEASON && usedGW > HALF_SEASON {
            chipsAvailable := chipsAvailable[chip := Used(usedGW)];
          } else {
            chipsAvailable := chipsAvailable[chip := Available];
          }
        } else {
          chipsAvailable := chipsAvailable[chip := Used(usedGW)];
        }
      } else {
        chipsAvailable := chipsAvailable[chip := Available];
      }
      assert CHIP_NAMES[..i + 1] == CHIP_NAMES[..i] + [chip];
      i := i + 1;
    }
    assert CHIP_NAMES[..|CHIP_NAMES|] == CHIP_NAMES;
    assert chipsAvailable == ChipTable(chipsUsed, nextGW);
  }

  // ----- the wildcard week the ledger is given -----

  /** The runtime class of a chip-table value, and of the `String.class` literal. */
  datatype JavaClass = IntegerClass | StringClass | ClassClass

  function ValueClass(v: ChipState): JavaClass {
    match v
    case Used(_) => IntegerClass
    case Available => StringClass
  }

  /** `cls.isInstance(obj)`, for an object whose (final) class is `objClass`. */
  predicate IsInstance(cls: JavaClass, objClass: JavaClass) {
    cls == objClass
  }

  /**
    The wildcard week exactly as the guard at the top of `calculateAvailableTransfers`
    reads it: it asks whether the `String.class` object is an instance of the value's
    class, which it never is, so the exemption is never given a week.
   */
  function WildcardWeekAsWired(chipsAvailable: map<string, ChipState>): (w: int)
    ensures w == NO_WILDCARD
  {
    if WILDCARD !in chipsAvailable then NO_WILDCARD
    else
      var v := chipsAvailable[WILDCARD];
      if IsInstance(ValueClass(v), ClassClass) then (match v case Used(g) => g case Available => NO_WILDCARD)
      else NO_WILDCARD
  }

  /**
    Because the guard never holds, a transfer made in the week the wildcard was played is
    still charged: one transfer at gameweek 5 with the wildcard played at gameweek 5
    leaves 4 free transfers, where the exemption would have left 5.
   */
  lemma WildcardExemptionNeverApplies()
    ensures var chips := ChipTable(Some(map[WILDCARD := 5]), 5);
            chips[WILDCARD] == Used(5) &&
            Balance([5], 5, WildcardWeekAsWired(chips)) == 4 &&
            Balance([5], 5, 5) == 5
  {
    NoTransfersAccrue(4, NO_WILDCARD);
    NoTransfersAccrue(4, 5);
    UnchargedRecordIgnored([], 5, [], 4, NO_WILDCARD);
    UnchargedRecordIgnored([], 5, [], 4, 5);
    assert [] + [5] + [] == [5];
    assert Charges([5], 5, NO_WILDCARD) == 1 by {
      assert [5][..0] == [];
    }
  }

  // ----- the squad -----

  /** The roster id has catalog data whose element type is one of the four positions. */
  predicate Known(catalog: map<int, Element>, id: int) {
    id in catalog && PositionFromPlayerData(Some(catalog[id])) != Unknown
  }

  /** The roster ids the assembly keeps, in roster order. */
  function Kept(roster: seq<int>, catalog: map<int, Element>): (r: seq<int>)
    ensures |r| <= |roster|
    ensures forall x :: x in r <==> x in roster && Known(catalog, x)
  {
    if roster == [] then []
    else
      var front := Kept(roster[..|roster| - 1], catalog);
      var id := roster[|roster| - 1];
      assert forall x :: x in roster <==> x in roster[..|roster| - 1] || x == id by {
        assert roster == roster[..|roster| - 1] + [id];
      }
      if Known(catalog, id) then front + [id] else front
  }

  /** The team lookups of every player the assembly builds succeed. */
  predicate AssemblyResolvable(roster: seq<int>, catalog: map<int, Element>, nextGW: int,
                               fixtureData: Option<map<int, seq<Match>>>, teams: seq<TeamRow>) {
    forall i :: 0 <= i < |roster| && Known(catalog, roster[i]) && roster[i] != ROOT_ID ==>
      PlayerResolvable(nextGW, catalog[roster[i]], fixtureData, teams)
  }

  /** The player built for a kept roster id: the subclass of its position, from its catalog element. */
  function Build(id: int, catalog: map<int, Element>, nextGW: int,
                 fixtureData: Option<map<int, seq<Match>>>, teams: seq<TeamRow>): Player
    requires Known(catalog, id)
    requires id != ROOT_ID ==> PlayerResolvable(nextGW, catalog[id], fixtureData, teams)
  {
    PlayerOf(id, nextGW, PositionFromPlayerData(Some(catalog[id])), catalog[id], fixtureData, teams)
  }

  /** The players built in roster order, before sorting. */
  function Assembled(roster: seq<int>, catalog: map<int, Element>, nextGW: int,
                     fixtureData: Option<map<int, seq<Match>>>, teams: seq<TeamRow>): (r: seq<Player>)
    requires AssemblyResolvable(roster, catalog, nextGW, fixtureData, teams)
    ensures |r| == |Kept(roster, catalog)|
    ensures forall i :: 0 <= i < |r| ==>
      var id := Kept(roster, catalog)[i];
      Known(catalog, id) && r[i].id == id && r[i].position == PositionFromPlayerData(Some(catalog[id])) &&
      (id != ROOT_ID ==> r[i] == PlayerOf(id, nextGW, r[i].position, catalog[id], fixtureData, teams))
  {
    if roster == [] then []
    else
      var front := Assembled(roster[..|roster| - 1], catalog, nextGW, fixtureData, teams);
      var id := roster[|roster| - 1];
      if Known(catalog, id) then front + [Build(id, catalog, nextGW, fixtureData, teams)] else front
  }

  lemma PrefixResolvable(roster: seq<int>, n: int, catalog: map<int, Element>, nextGW: int,
                         fixtureData: Option<map<int, seq<Match>>>, teams: seq<TeamRow>)
    requires 0 <= n <= |roster|
    requires AssemblyResolvable(roster, catalog, nextGW, fixtureData, teams)
    ensures AssemblyResolvable(roster[..n], catalog, nextGW, fixtureData, teams)
  {
  }

  /** Assembling one more roster id appends its player when it is kept, and nothing otherwise. */
  lemma AssembledStep(roster: seq<int>, i: int, catalog: map<int, Element>, nextGW: int,
                      fixtureData: Option<map<int, seq<Match>>>, teams: seq<TeamRow>)
    requires 0 <= i < |roster|
    requires AssemblyResolvable(roster, catalog, nextGW, fixtureData, teams)
    ensures AssemblyResolvable(roster[..i], catalog, nextGW, fixtureData, teams)
    ensures AssemblyResolvable(roster[..i + 1], catalog, nextGW, fixtureData, teams)
    ensures Known(catalog, roster[i]) && roster[i] != ROOT_ID ==> PlayerResolvable(nextGW, catalog[roster[i]], fixtureData, teams)
    ensures Assembled(roster[..i + 1], catalog, nextGW, fixtureData, teams)
         == Assembled(roster[..i], catalog, nextGW, fixtureData, teams)
            + (if Known(catalog, roster[i]) then [Build(roster[i], catalog, nextGW, fixtureData, teams)] else [])
  {
    PrefixResolvable(roster, i, catalog, nextGW, fixtureData, teams);
    PrefixResolvable(roster, i + 1, catalog, nextGW, fixtureData, teams);
    assert roster[..i + 1][..i] == roster[..i];
  }

  /**
    The sorted squad is ordered by position, is a permutation of the assembled players
    and keeps each position's players in roster order.
   */
  lemma SquadOrdered(assembled: seq<Player>)
    ensures var squad := SortByPosition(assembled);
            SortedByPosition(squad) &&
            multiset(squad) == multiset(assembled) &&
            (forall k :: WithRank(squad, k) == WithRank(assembled, k))
  {
    SortByPositionSorted(assembled);
    SortByPositionPermutation(assembled);
    forall k ensures WithRank(SortByPosition(assembled), k) == WithRank(assembled, k) {
      SortByPositionStable(assembled, k);
    }
  }

  /** Every player of the squad comes from a kept roster id: nothing is added. */
  lemma SquadMembers(roster: seq<int>, catalog: map<int, Element>, nextGW: int,
                     fixtureData: Option<map<int, seq<Match>>>, teams: seq<TeamRow>, squad: seq<Player>)
    requires AssemblyResolvable(roster, catalog, nextGW, fixtureData, teams)
    requires multiset(squad) == multiset(Assembled(roster, catalog, nextGW, fixtureData, teams))
    ensures forall p :: p in squad ==> p.id in roster && Known(catalog, p.id) && p.position != Unknown
  {
    var assembled := Assembled(roster, catalog, nextGW, fixtureData, teams);
    var kept := Kept(roster, catalog);
    forall p | p in squad
      ensures p.id in roster && Known(catalog, p.id) && p.position != Unknown
    {
      assert p in multiset(assembled);
      var j :| 0 <= j < |assembled| && assembled[j] == p;
      assert kept[j] in kept;
    }
  }

  /**
    `createTeamPlayers`: builds a player for every roster id with catalog data and a
    known position, skips the others, and sorts the list by position with
    `Collections.sort`, which is stable.
   */
  method CreateTeamPlayers(teamPlayersID: seq<int>, allPlayerData: map<int, Element>,
                           fixtureData: Option<map<int, seq<Match>>>, nextGW: int, teams: seq<TeamRow>)
    returns (teamPlayers: seq<Player>)
    requires AssemblyResolvable(teamPlayersID, allPlayerData, nextGW, fixtureData, teams)
    ensures teamPlayers == SortByPosition(Assembled(teamPlayersID, allPlayerData, nextGW, fixtureData, teams))
    ensures SortedByPosition(teamPlayers)
    ensures multiset(teamPlayers) == multiset(Assembled(teamPlayersID, allPlayerData, nextGW, fixtureData, teams))
    ensures forall k :: WithRank(teamPlayers, k) == WithRank(Assembled(teamPlayersID, allPlayerData, nextGW, fixtureData, teams), k)
    ensures forall p :: p in teamPlayers ==> p.id in teamPlayersID && Known(allPlayerData, p.id) && p.position != Unknown
  {
    teamPlayers := [];
    var i := 0;
    PrefixResolvable(teamPlayersID, 0, allPlayerData, nextGW, fixtureData, teams);
    while i < |teamPlayersID|
      invariant 0 <= i <= |teamPlayersID|
      invariant AssemblyResolvable(teamPlayersID[..i], allPlayerData, nextGW, fixtureData, teams)
      invariant teamPlayers == Assembled(teamPlayersID[..i], allPlayerData, nextGW, fixtureData, teams)
    {
      var playerID := teamPlayersID[i];
      AssembledStep(teamPlayersID, i, allPlayerData, nextGW, fixtureData, teams);
      if playerID in allPlayerData {
        var playerData := allPlayerData[playerID];
        var position := PositionFromPlayerData(Some(playerData));
        if position != Unknown {
          var player := NewPlayer(playerID, nextGW, position, playerData, fixtureData, teams);
          teamPlayers := teamPlayers + [player];
        }
      }
      i := i + 1;
    }
    assert teamPlayersID[..|teamPlayersID|] == teamPlayersID;
    SquadOrdered(teamPlayers);
    teamPlayers := SortByPosition(teamPlayers);
    SquadMembers(teamPlayersID, allPlayerData, nextGW, fixtureData, teams, teamPlayers);
  }

  // ----- the manager snapshot -----

  /**
    A manager's snapshot, fixed at construction. `managerData` is the API object the
    constructor creates for the manager id, after its setters have run; `teams` is the
    team directory the players' team lookups read.
   */
  class Manager {
    const id: int
    const nextGW: int
    const teamName: string
    const teamPlayersID: seq<int>
    const teamPlayers: seq<Player>
    const chipsAvailable: map<string, ChipState>
    const availableTransfers: int

    /** The chip table is computed first, and the ledger reads the wildcard week from it. */
    constructor (managerID: int, managerData: FPLAPI, teams: seq<TeamRow>)
      requires managerData.managerID == managerID
      requires AssemblyResolvable(managerData.teamPlayers, managerData.playerData, managerData.nextGW,
                                  Some(managerData.remainingFixtures), teams)
      ensures id == managerID && nextGW == managerData.nextGW && teamName == managerData.teamName
      ensures teamPlayersID == managerData.teamPlayers
      ensures chipsAvailable == ChipTable(Some(managerData.chips), nextGW)
      ensures availableTransfers == Balance(managerData.transferHistory, nextGW, NO_WILDCARD)
      ensures 0 <= availableTransfers <= MAX_TRANSFERS
      ensures teamPlayers == SortByPosition(Assembled(teamPlayersID, managerData.playerData, nextGW,
                                                      Some(managerData.remainingFixtures), teams))
    {
      var gw := managerData.nextGW;
      id := managerID;
      nextGW := gw;
      teamName := managerData.teamName;
      teamPlayersID := managerData.teamPlayers;
      var chips := ProcessChipsAvailable(Some(managerData.chips), gw);
      chipsAvailable := chips;
      var transfers := CalculateAvailableTransfers(managerData.transferHistory, gw, WildcardWeekAsWired(chips));
      availableTransfers := transfers;
      var players := CreateTeamPlayers(managerData.teamPlayers, managerData.playerData,
                                       Some(managerData.remainingFixtures), gw, teams);
      teamPlayers := players;
    }
  }
}
