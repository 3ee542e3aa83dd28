/**
  The shaping of the decoded Fantasy Premier League API responses into the data a
  manager snapshot is built from (src/main/java/FPLManager/model/FPLAPI.java). The
  HTTP requests and the JSON decoding are not modelled: each response arrives as a
  decoded value, `None` when the request or the decoding failed.
 */
module Api {
  import opened Wrappers
  import opened JavaText
  import opened Players

  /** One element of `events/`: its `id` and `is_next` keys. */
  datatype Event = Event(id: Option<int>, isNext: Option<bool>)

  /** The `name` key of `entry/<id>/`. */
  datatype EntryResponse = EntryResponse(name: Option<string>)

  /** One pick of `entry/<id>/event/<gw>/picks/`: the catalog id of the picked player. */
  datatype Pick = Pick(element: int)

  datatype PicksResponse = PicksResponse(picks: Option<seq<Pick>>)

  /** The `elements` key of `bootstrap-static/`: the player catalog. */
  datatype BootstrapResponse = BootstrapResponse(elements: Option<seq<Element>>)

  /** One element of `entry/<id>/transfers/`: the gameweek of the transfer. */
  datatype TransferRecord = TransferRecord(event: int)

  /** One element of the `chips` key of `entry/<id>/history/`. */
  datatype ChipRecord = ChipRecord(name: Option<string>, event: Option<int>)

  datatype HistoryResponse = HistoryResponse(chips: Option<seq<ChipRecord>>)

  /** One element of `fixtures/`: its gameweek and its home and away team ids. */
  datatype FixtureRecord = FixtureRecord(event: Option<int>, teamH: Option<int>, teamA: Option<int>)

  /** The gameweek recorded when no upcoming event is found, and the default for a missing fixture field. */
  const MISSING: int := -1

  // ----- next gameweek -----

  /** The index of the first event whose `is_next` is not false, or the length when every one is false. */
  function FirstNotFalse(events: seq<Event>): (k: int)
    ensures 0 <= k <= |events|
    ensures forall j :: 0 <= j < k ==> events[j].isNext == Some(false)
    ensures k < |events| ==> events[k].isNext != Some(false)
  {
    if events == [] || events[0].isNext != Some(false) then 0 else 1 + FirstNotFalse(events[1..])
  }

  /**
    The scan of `setNextGW` over a list: the id of the first event with `is_next`
    true, -1 when there is none; a null `is_next` reached first, or a null id on the
    next event, fails with a NullPointerException.
   */
  function FirstNext(events: seq<Event>): Result<int> {
    if events == [] then Ok(MISSING)
    else match events[0].isNext
      case None => Err(NullPointer)
      case Some(next) =>
        if !next then FirstNext(events[1..])
        else match events[0].id
          case None => Err(NullPointer)
          case Some(id) => Ok(id)
  }

  /** `setNextGW`: a failed request means no next gameweek. */
  function NextGameweek(events: Option<seq<Event>>): Result<int> {
    match events
    case None => Ok(MISSING)
    case Some(es) => FirstNext(es)
  }

  /** The scan stops at the first event that is not marked "not next", and reads only that one. */
  lemma {:induction false} FirstNextDecided(events: seq<Event>)
    ensures var k := FirstNotFalse(events);
            FirstNext(events) ==
              if k == |events| then Ok(MISSING)
              else if events[k].isNext == Some(true) && events[k].id.Some? then Ok(events[k].id.value)
              else Err(NullPointer)
  {
    if events != [] && events[0].isNext == Some(false) {
      FirstNextDecided(events[1..]);
    }
  }

  // ----- team name -----

  /** `setTeamName`: the `name` key; a failed request is a NullPointerException, a missing name an IllegalStateException. */
  function TeamNameOf(entry: Option<EntryResponse>): (r: Result<string>)
    ensures r.Ok? <==> entry.Some? && entry.value.name.Some?
    ensures r.Ok? ==> r.value == entry.value.name.value
    ensures entry.Some? && entry.value.name.None? ==> r == Err(IllegalState("Cant find name"))
  {
    match entry
    case None => Err(NullPointer)
    case Some(e) =>
      match e.name
      case None => Err(IllegalState("Cant find name"))
      case Some(n) => Ok(n)
  }

  // ----- team players -----

  /** The pick elements, in pick order. */
  function PickElements(picks: seq<Pick>): (r: seq<int>)
    ensures |r| == |picks|
    ensures forall i :: 0 <= i < |picks| ==> r[i] == picks[i].element
  {
    if picks == [] then [] else PickElements(picks[..|picks| - 1]) + [picks[|picks| - 1].element]
  }

  /**
    `setTeamPlayers`: the picked ids in pick order; a failed request is an
    IllegalStateException and a response without picks an IllegalArgumentException.
   */
  function PickedIds(managerID: int, response: Option<PicksResponse>): (r: Result<seq<int>>)
    ensures response.None? ==> r == Err(IllegalState("Cant find team"))
    ensures response.Some? && response.value.picks.None? ==> r.Err? && r.error.IllegalArgument?
    ensures r.Ok? <==> response.Some? && response.value.picks.Some?
    ensures r.Ok? ==> |r.value| == |response.value.picks.value| &&
                      forall i :: 0 <= i < |r.value| ==> r.value[i] == response.value.picks.value[i].element
  {
    match response
    case None => Err(IllegalState("Cant find team"))
    case Some(resp) =>
      match resp.picks
      case None => Err(IllegalArgument("Cannot find 'picks' data for manager ID: " + IntToString(managerID)))
      case Some(ps) => Ok(PickElements(ps))
  }

  // ----- player data -----

  /** The catalog restricted to the roster, keyed by id; for a repeated id the later element wins. */
  function RosterCatalog(elements: seq<Element>, roster: seq<int>): (r: map<int, Element>)
    ensures forall k :: k in r ==> k in roster && r[k].id == k
  {
    if elements == [] then map[]
    else
      var m := RosterCatalog(elements[..|elements| - 1], roster);
      var e := elements[|elements| - 1];
      if e.id in roster then m[e.id := e] else m
  }

  /**
    A roster id is a key exactly when some element has that id, and its value is the
    last element with that id.
   */
  lemma {:induction false} RosterCatalogLastWins(elements: seq<Element>, roster: seq<int>, k: int)
    requires k in roster
    ensures k in RosterCatalog(elements, roster) <==> exists i :: 0 <= i < |elements| && elements[i].id == k
    ensures k in RosterCatalog(elements, roster) ==>
      exists i :: 0 <= i < |elements| && elements[i] == RosterCatalog(elements, roster)[k] &&
                  forall j :: i < j < |elements| ==> elements[j].id != k
  {
    if elements != [] {
      var front := elements[..|elements| - 1];
      var n := |elements| - 1;
      RosterCatalogLastWins(front, roster, k);
      if elements[n].id == k {
        assert elements[n] == RosterCatalog(elements, roster)[k];
      } else {
        assert forall i :: 0 <= i < n ==> elements[i] == front[i];
        if k in RosterCatalog(front, roster) {
          var i :| 0 <= i < |front| && front[i] == RosterCatalog(front, roster)[k] &&
                   forall j :: i < j < |front| ==> front[j].id != k;
          assert elements[i] == RosterCatalog(elements, roster)[k];
        }
      }
    }
  }

  /** `setPlayerData`: a failed request or a missing `elements` key leaves the map empty. */
  function PlayerData(response: Option<BootstrapResponse>, teamPlayers: seq<int>): (r: map<int, Element>)
    ensures forall k :: k in r ==> k in teamPlayers && r[k].id == k
    ensures response.None? || response.value.elements.None? ==> r == map[]
  {
    if response.Some? && response.value.elements.Some? then RosterCatalog(response.value.elements.value, teamPlayers)
    else map[]
  }

  // ----- transfer history -----

  /** The gameweek of each transfer, in record order. */
  function TransferGameweeks(records: seq<TransferRecord>): (r: seq<int>)
    ensures |r| == |records|
    ensures forall i :: 0 <= i < |records| ==> r[i] == records[i].event
  {
    if records == [] then [] else TransferGameweeks(records[..|records| - 1]) + [records[|records| - 1].event]
  }

  /** `setTransferHistory`: a failed request leaves the history empty. */
  function TransferHistory(response: Option<seq<TransferRecord>>): seq<int> {
    if response.Some? then TransferGameweeks(response.value) else []
  }

  // ----- chips -----

  /** A chip record with both its name and its gameweek present. */
  predicate Complete(c: ChipRecord) {
    c.name.Some? && c.event.Some?
  }

  /** The complete records folded into a map from chip name to gameweek, in record order. */
  function ChipFold(records: seq<ChipRecord>): (r: map<string, int>)
  {
    if records == [] then map[]
    else
      var m := ChipFold(records[..|records| - 1]);
      var c := records[|records| - 1];
      if Complete(c) then m[c.name.value := c.event.value] else m
  }

  /** A complete record of chip `chip`. */
  predicate Names(c: ChipRecord, chip: string) {
    c.name == Some(chip) && c.event.Some?
  }

  /** A chip is in the map exactly when some complete record names it; incomplete records are skipped. */
  lemma {:induction false} ChipFoldKeys(records: seq<ChipRecord>, chip: string)
    ensures chip in ChipFold(records) <==> exists i :: 0 <= i < |records| && Names(records[i], chip)
  {
    if records != [] {
      var front := records[..|records| - 1];
      ChipFoldKeys(front, chip);
      assert forall i :: 0 <= i < |front| ==> records[i] == front[i];
    }
  }

  /** A chip maps to the gameweek of the last complete record naming it: a later record overwrites an earlier one. */
  lemma {:induction false} ChipFoldLastWins(records: seq<ChipRecord>, chip: string)
    requires chip in ChipFold(records)
    ensures exists i :: 0 <= i < |records| && Names(records[i], chip) &&
                        records[i].event.value == ChipFold(records)[chip] &&
                        forall j :: i < j < |records| ==> !Names(records[j], chip)
  {
    var front := records[..|records| - 1];
    var n := |records| - 1;
    if Names(records[n], chip) {
      assert records[n].event.value == ChipFold(records)[chip];
    } else {
      ChipFoldLastWins(front, chip);
      var i :| 0 <= i < |front| && Names(front[i], chip) &&
               front[i].event.value == ChipFold(front)[chip] &&
               forall j :: i < j < |front| ==> !Names(front[j], chip);
      assert records[i] == front[i];
      assert forall j :: i < j < n ==> records[j] == front[j];
    }
  }

  /** `setChips`: a failed request or a missing `chips` key leaves the map empty. */
  function ChipsUsed(response: Option<HistoryResponse>): (r: map<string, int>)
    ensures response.None? || response.value.chips.None? ==> r == map[]
  {
    if response.Some? && response.value.chips.Some? then ChipFold(response.value.chips.value) else map[]
  }

  // ----- remaining fixtures -----

  /** The gameweek of a fixture record, -1 when missing. */
  function GameweekOf(f: FixtureRecord): int {
    f.event.GetOr(MISSING)
  }

  /** The home and away team of a fixture record, -1 for a missing one. */
  function MatchOf(f: FixtureRecord): Match {
    Match(Some(f.teamH.GetOr(MISSING)), Some(f.teamA.GetOr(MISSING)))
  }

  /** The grouping loop of `setRemainingFixtures`: each kept fixture is appended to the list of its gameweek. */
  function Grouped(fixtures: seq<FixtureRecord>, nextGW: int): (r: map<int, seq<Match>>)
    ensures forall g :: g in r ==> nextGW <= g && r[g] != []
  {
    if fixtures == [] then map[]
    else
      var m := Grouped(fixtures[..|fixtures| - 1], nextGW);
      var f := fixtures[|fixtures| - 1];
      var g := GameweekOf(f);
      if g >= nextGW then m[g := (if g in m then m[g] else []) + [MatchOf(f)]] else m
  }

  /** The matches of gameweek `g`, in calendar order. */
  function MatchesOf(fixtures: seq<FixtureRecord>, g: int): (r: seq<Match>)
    ensures |r| <= |fixtures|
  {
    if fixtures == [] then []
    else
      var f := fixtures[|fixtures| - 1];
      MatchesOf(fixtures[..|fixtures| - 1], g) + (if GameweekOf(f) == g then [MatchOf(f)] else [])
  }

  /**
    A gameweek from `nextGW` on is a key exactly when it has a match, and its list is
    all of that gameweek's matches in calendar order; earlier gameweeks are dropped.
   */
  lemma {:induction false} GroupedByGameweek(fixtures: seq<FixtureRecord>, nextGW: int, g: int)
    ensures g in Grouped(fixtures, nextGW) <==> nextGW <= g && MatchesOf(fixtures, g) != []
    ensures g in Grouped(fixtures, nextGW) ==> Grouped(fixtures, nextGW)[g] == MatchesOf(fixtures, g)
  {
    if fixtures != [] {
      GroupedByGameweek(fixtures[..|fixtures| - 1], nextGW, g);
    }
  }

  /** `setRemainingFixtures`: a failed request leaves the map empty. */
  function RemainingFixtures(response: Option<seq<FixtureRecord>>, nextGW: int): (r: map<int, seq<Match>>)
    ensures forall g :: g in r ==> nextGW <= g && r[g] != []
    ensures response.None? ==> r == map[]
  {
    if response.Some? then Grouped(response.value, nextGW) else map[]
  }

  // ----- the API object -----

  /** The decoded responses of one manager's requests. */
  datatype Responses = Responses(
    events: Option<seq<Event>>,
    entry: Option<EntryResponse>,
    picks: Option<PicksResponse>,
    bootstrap: Option<BootstrapResponse>,
    transfers: Option<seq<TransferRecord>>,
    history: Option<HistoryResponse>,
    fixtures: Option<seq<FixtureRecord>>)

  /** The data of one manager, filled in by the setters in the order the constructor calls them. */
  class FPLAPI {
    var managerID: int
    var teamName: string
    var teamPlayers: seq<int>
    var nextGW: int
    var playerData: map<int, Element>
    var transferHistory: seq<int>
    var chips: map<string, int>
    var remainingFixtures: map<int, seq<Match>>

    /** The object before any setter has run: Java's default field values. */
    constructor (managerID: int)
      ensures this.managerID == managerID && nextGW == 0
      ensures teamName == "" && teamPlayers == [] && playerData == map[]
      ensures transferHistory == [] && chips == map[] && remainingFixtures == map[]
    {
      this.managerID := managerID;
      teamName := "";
      teamPlayers := [];
      nextGW := 0;
      playerData := map[];
      transferHistory := [];
      chips := map[];
      remainingFixtures := map[];
    }

    method SetNextGW(events: Option<seq<Event>>) returns (outcome: Outcome)
      modifies this`nextGW
      ensures NextGameweek(events).Ok? ==> outcome == Pass && nextGW == NextGameweek(events).value
      ensures NextGameweek(events).Err? ==> outcome == Fail(NextGameweek(events).error) && nextGW == old(nextGW)
    {
      if events.Some? {
        var es := events.value;
        var i := 0;
        while i < |es|
          invariant 0 <= i <= |es|
          invariant FirstNext(es[i..]) == FirstNext(es)
        {
          var event := es[i];
          assert es[i..][1..] == es[i + 1..];
          if event.isNext.None? {
            return Fail(NullPointer);
          }
          if event.isNext.value {
            if event.id.None? {
              return Fail(NullPointer);
            }
            nextGW := event.id.value;
            return Pass;
          }
          i := i + 1;
        }
      }
      nextGW := MISSING;
      return Pass;
    }

    method SetTeamName(entry: Option<EntryResponse>) returns (outcome: Outcome)
      modifies this`teamName
      ensures TeamNameOf(entry).Ok? ==> outcome == Pass && teamName == TeamNameOf(entry).value
      ensures TeamNameOf(entry).Err? ==> outcome == Fail(TeamNameOf(entry).error) && teamName == old(teamName)
    {
      if entry.None? {
        return Fail(NullPointer);
      }
      var nameObj := entry.value.name;
      if nameObj.None? {
        return Fail(IllegalState("Cant find name"));
      }
      teamName := nameObj.value;
      return Pass;
    }

    method SetTeamPlayers(response: Option<PicksResponse>) returns (outcome: Outcome)
      modifies this`teamPlayers
      ensures PickedIds(managerID, response).Ok? ==> outcome == Pass && teamPlayers == PickedIds(managerID, response).value
      ensures PickedIds(managerID, response).Err? ==>
        outcome == Fail(PickedIds(managerID, response).error) && teamPlayers == old(teamPlayers)
    {
      if response.None? {
        return Fail(IllegalState("Cant find team"));
      }
      var picks := response.value.picks;
      if picks.None? {
        return Fail(IllegalArgument("Cannot find 'picks' data for manager ID: " + IntToString(managerID)));
      }
      var ps := picks.value;
      teamPlayers := [];
      var i := 0;
      while i < |ps|
        invariant 0 <= i <= |ps|
        invariant teamPlayers == PickElements(ps[..i])
      {
        assert ps[..i + 1][..i] == ps[..i];
        teamPlayers := teamPlayers + [ps[i].element];
        i := i + 1;
      }
      assert ps[..|ps|] == ps;
      return Pass;
    }

    method SetPlayerData(response: Option<BootstrapResponse>)
      modifies this`playerData
      ensures playerData == PlayerData(response, teamPlayers)
    {
      playerData := map[];
      if response.Some? && response.value.elements.Some? {
        var elements := response.value.elements.value;
        var i := 0;
        while i < |elements|
          invariant 0 <= i <= |elements|
          invariant playerData == RosterCatalog(elements[..i], teamPlayers)
        {
          var player := elements[i];
          assert elements[..i + 1][..i] == elements[..i];
          if player.id in teamPlayers {
            playerData := playerData[player.id := player];
          }
          i := i + 1;
        }
        assert elements[..|elements|] == elements;
      }
    }

    method SetTransferHistory(response: Option<seq<TransferRecord>>)
      modifies this`transferHistory
      ensures transferHistory == TransferHistory(response)
    {
      transferHistory := [];
      if response.Some? {
        var records := response.value;
        var i := 0;
        while i < |records|
          invariant 0 <= i <= |records|
          invariant transferHistory == TransferGameweeks(records[..i])
        {
          assert records[..i + 1][..i] == records[..i];
          transferHistory := transferHistory + [records[i].event];
          i := i + 1;
        }
        assert records[..|records|] == records;
      }
    }

    method SetChips(response: Option<HistoryResponse>)
      modifies this`chips
      ensures chips == ChipsUsed(response)
    {
      chips := map[];
      if response.Some? && response.value.chips.Some? {
        var chipsArray := response.value.chips.value;
        var i := 0;
        while i < |chipsArray|
          invariant 0 <= i <= |chipsArray|
          invariant chips == ChipFold(chipsArray[..i])
        {
          var chip := chipsArray[i];
          assert chipsArray[..i + 1][..i] == chipsArray[..i];
          if chip.name.Some? && chip.event.Some? {
            chips := chips[chip.name.value := chip.event.value];
          }
          i := i + 1;
        }
        assert chipsArray[..|chipsArray|] == chipsArray;
      }
    }

    method SetRemainingFixtures(response: Option<seq<FixtureRecord>>)
      modifies this`remainingFixtures
      ensures remainingFixtures == RemainingFixtures(response, nextGW)
    {
      var grouped: map<int, seq<Match>> := map[];
      if response.Some? {
        var allFixtures := response.value;
        var i := 0;
        while i < |allFixtures|
          invariant 0 <= i <= |allFixtures|
          invariant grouped == Grouped(allFixtures[..i], nextGW)
        {
          var fixture := allFixtures[i];
          assert allFixtures[..i + 1][..i] == allFixtures[..i];
          var gameweek := if fixture.event.Some? then fixture.event.value else MISSING;
          var homeTeamId := if fixture.teamH.Some? then fixture.teamH.value else MISSING;
          var awayTeamId := if fixture.teamA.Some? then fixture.teamA.value else MISSING;
          if gameweek >= nextGW {
            var list := if gameweek in grouped then grouped[gameweek] else [];
            grouped := grouped[gameweek := list + [Match(Some(homeTeamId), Some(awayTeamId))]];
          }
          i := i + 1;
        }
        assert allFixtures[..|allFixtures|] == allFixtures;
      }
      remainingFixtures := grouped;
    }

    /** The setter sequence of the constructor, which stops at the first exception. */
    method Load(r: Responses) returns (outcome: Outcome)
      modifies this
      ensures managerID == old(managerID)
      ensures outcome == Pass <==>
        NextGameweek(r.events).Ok? && TeamNameOf(r.entry).Ok? && PickedIds(managerID, r.picks).Ok?
      ensures outcome == Pass ==>
        nextGW == NextGameweek(r.events).value &&
        teamName == TeamNameOf(r.entry).value &&
        teamPlayers == PickedIds(managerID, r.picks).value &&
        playerData == PlayerData(r.bootstrap, teamPlayers) &&
        transferHistory == TransferHistory(r.transfers) &&
        chips == ChipsUsed(r.history) &&
        remainingFixtures == RemainingFixtures(r.fixtures, nextGW)
    {
      outcome := SetNextGW(r.events);
      if outcome.Fail? {
        return;
      }
      outcome := SetTeamName(r.entry);
      if outcome.Fail? {
        return;
      }
      outcome := SetTeamPlayers(r.picks);
      if outcome.Fail? {
        return;
      }
      SetPlayerData(r.bootstrap);
      SetTransferHistory(r.transfers);
      SetChips(r.history);
      SetRemainingFixtures(r.fixtures);
    }
  }
}
