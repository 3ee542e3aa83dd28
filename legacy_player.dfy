/**
  The player of the older root package (src/main/java/FPLManager/Player.java): the
  integer and string attributes read from a catalog element, and a fixture map that
  lists, for every gameweek from the next one to the end of the season, the opponent's
  team id followed by 1 for a home match or 0 for an away match.
 */
module LegacyPlayers {
  import opened Wrappers
  import opened JavaText
  import Players

  type Element = Players.Element
  type Match = Players.Match

  // ----- attributes -----

  /** The integer and string fields `setAttributes` assigns; the floating-point ones are not modelled. */
  datatype Attributes = Attributes(
    name: string,
    chanceOfPlaying: int,
    pointsLastRound: int,
    avgPoints: Option<string>,
    selectedBy: Option<string>,
    transferBalance: int,
    team: int)

  /** Java string concatenation writes a null String as "null". */
  function Concatenated(s: Option<string>): string {
    s.GetOr("null")
  }

  /**
    `setAttributes`: a missing catalog element, transfer count or team is a null
    unboxing, a NullPointerException; a missing chance of playing or round score is 0,
    and a missing name part is written "null".
   */
  function AttributesOf(playerData: Option<Element>): (r: Result<Attributes>)
    ensures r.Ok? <==> playerData.Some? && playerData.value.transfersIn.Some? &&
                       playerData.value.transfersOut.Some? && playerData.value.team.Some?
    ensures r.Err? ==> r.error == NullPointer
    ensures r.Ok? ==> r.value.name == Concatenated(playerData.value.firstName) + " " + Concatenated(playerData.value.secondName)
    ensures r.Ok? ==> r.value.chanceOfPlaying == playerData.value.chanceOfPlaying.GetOr(0) &&
                      r.value.pointsLastRound == playerData.value.eventPoints.GetOr(0)
    ensures r.Ok? ==> IsInt32(r.value.transferBalance) &&
                      (IsInt32(playerData.value.transfersIn.value - playerData.value.transfersOut.value) ==>
                         r.value.transferBalance == playerData.value.transfersIn.value - playerData.value.transfersOut.value)
    ensures r.Ok? ==> r.value.team == playerData.value.team.value
  {
    match playerData
    case None => Err(NullPointer)
    case Some(d) =>
      if d.transfersIn.None? || d.transfersOut.None? || d.team.None? then Err(NullPointer)
      else Ok(Attributes(
        Concatenated(d.firstName) + " " + Concatenated(d.secondName),
        d.chanceOfPlaying.GetOr(0),
        d.eventPoints.GetOr(0),
        d.pointsPerGame,
        d.selectedByPercent,
        Wrap32(d.transfersIn.value - d.transfersOut.value),
        d.team.value))
  }

  // ----- fixtures -----

  /** A home flag follows the opponent for a home match, an away flag for an away match. */
  const HOME: int := 1
  const AWAY: int := 0

  /** Both teams of the match are present; `equals` on a null team or unboxing one throws. */
  predicate Complete(m: Match) {
    m.home.Some? && m.away.Some?
  }

  /** Every match of the list names both teams. */
  predicate AllComplete(ms: seq<Match>) {
    forall i :: 0 <= i < |ms| ==> Complete(ms[i])
  }

  /** The pair one match adds to the team's list: `[away, 1]` at home, `[home, 0]` away, nothing otherwise. */
  function PairOf(m: Match, team: int): (r: seq<int>)
    requires Complete(m)
    ensures |r| == 0 || |r| == 2
    ensures |r| == 2 <==> m.home.value == team || m.away.value == team
  {
    if m.home.value == team then [m.away.value, HOME]
    else if m.away.value == team then [m.home.value, AWAY]
    else []
  }

  /** The list of one gameweek: the pairs of its matches, in calendar order. */
  function Pairs(ms: seq<Match>, team: int): (r: seq<int>)
    requires AllComplete(ms)
    ensures |r| % 2 == 0 && |r| <= 2 * |ms|
  {
    if ms == [] then [] else Pairs(ms[..|ms| - 1], team) + PairOf(ms[|ms| - 1], team)
  }

  /** The list alternates opponents and flags: every second entry is a home or an away flag. */
  lemma {:induction false} PairsFlags(ms: seq<Match>, team: int)
    requires AllComplete(ms)
    ensures var r := Pairs(ms, team);
            forall k :: 0 <= k < |r| / 2 ==> r[2 * k + 1] == HOME || r[2 * k + 1] == AWAY
  {
    if ms != [] {
      var front := Pairs(ms[..|ms| - 1], team);
      var last := PairOf(ms[|ms| - 1], team);
      PairsFlags(ms[..|ms| - 1], team);
      var r := front + last;
      forall k | 0 <= k < |r| / 2
        ensures r[2 * k + 1] == HOME || r[2 * k + 1] == AWAY
      {
        if k < |front| / 2 {
          assert r[2 * k + 1] == front[2 * k + 1];
        } else {
          assert 2 * k + 1 == |front| + 1;
          assert r[2 * k + 1] == last[1];
        }
      }
    }
  }

  /** One more match adds its pair at the end. */
  lemma PairsSnoc(ms: seq<Match>, m: Match, team: int)
    requires AllComplete(ms) && Complete(m)
    ensures AllComplete(ms + [m])
    ensures Pairs(ms + [m], team) == Pairs(ms, team) + PairOf(m, team)
  {
    assert (ms + [m])[..|ms|] == ms;
  }

  lemma {:induction false} PairsAppend(a: seq<Match>, b: seq<Match>, team: int)
    requires AllComplete(a) && AllComplete(b)
    ensures Pairs(a + b, team) == Pairs(a, team) + Pairs(b, team)
    decreases |b|
  {
    if b == [] {
      assert a + b == a;
    } else {
      var front := b[..|b| - 1];
      var last := b[|b| - 1];
      assert b == front + [last];
      assert a + b == (a + front) + [last];
      assert AllComplete(front) && AllComplete(a + front);
      PairsSnoc(a + front, last, team);
      PairsSnoc(front, last, team);
      PairsAppend(a, front, team);
      Players.ConcatAssoc(Pairs(a, team), Pairs(front, team), PairOf(last, team));
    }
  }

  /** Each match contributes its own pair, in its place: the list around match `i` is the lists before and after it. */
  lemma PairsAt(ms: seq<Match>, i: int, team: int)
    requires AllComplete(ms)
    requires 0 <= i < |ms|
    ensures Pairs(ms, team) == Pairs(ms[..i], team) + PairOf(ms[i], team) + Pairs(ms[i + 1..], team)
  {
    assert ms == ms[..i] + [ms[i]] + ms[i + 1..];
    PairsAppend(ms[..i] + [ms[i]], ms[i + 1..], team);
    PairsAppend(ms[..i], [ms[i]], team);
    assert Pairs([ms[i]], team) == PairOf(ms[i], team) by {
      assert [ms[i]][..0] == [];
    }
  }

  /** Every gameweek from `nextGW` to the end of the season has a list, and every match in it names both teams. */
  predicate GameweeksDefined(nextGW: int, data: map<int, seq<Match>>) {
    forall g :: nextGW <= g <= Players.LAST_GW ==>
      g in data && AllComplete(data[g])
  }

  /** A null fixture map is only harmless when the loop over the remaining gameweeks does not run. */
  predicate FixturesDefined(nextGW: int, fixtureData: Option<map<int, seq<Match>>>) {
    match fixtureData
    case None => nextGW > Players.LAST_GW
    case Some(data) => GameweeksDefined(nextGW, data)
  }

  /**
    `setFixtures`: every gameweek from `nextGW` to 38 is a key, even one where the team
    does not play; a gameweek without a list, a null fixture map, or a match with a
    missing team is a NullPointerException.
   */
  function FixturesOf(team: int, nextGW: int, fixtureData: Option<map<int, seq<Match>>>): (r: Result<map<int, seq<int>>>)
    ensures r.Ok? <==> FixturesDefined(nextGW, fixtureData)
    ensures r.Err? ==> r.error == NullPointer
    ensures r.Ok? ==> forall g :: g in r.value <==> nextGW <= g <= Players.LAST_GW
    ensures r.Ok? ==> forall g :: g in r.value ==> |r.value[g]| % 2 == 0
  {
    match fixtureData
    case None =>
      if nextGW > Players.LAST_GW then Ok(map[]) else Err(NullPointer)
    case Some(data) =>
      if GameweeksDefined(nextGW, data) then
        Ok(map g | nextGW <= g <= Players.LAST_GW :: Pairs(data[g], team))
      else Err(NullPointer)
  }

  /** Lists built, one per gameweek from `nextGW` to 38, from the pairs of each gameweek are the fixture map. */
  lemma BuiltFixtures(team: int, nextGW: int, data: map<int, seq<Match>>, built: map<int, seq<int>>)
    requires GameweeksDefined(nextGW, data)
    requires forall g :: g in built <==> nextGW <= g <= Players.LAST_GW
    requires forall g :: g in built ==> built[g] == Pairs(data[g], team)
    ensures FixturesOf(team, nextGW, Some(data)) == Ok(built)
  {
    var expected := FixturesOf(team, nextGW, Some(data)).value;
    assert forall g :: g in built ==> built[g] == expected[g];
    assert built == expected;
  }

  /** A home match against `opponent` puts `[opponent, 1]` in its gameweek's list, in calendar position. */
  lemma HomeMatchPair(team: int, opponent: int, nextGW: int, data: map<int, seq<Match>>, g: int, i: int)
    requires GameweeksDefined(nextGW, data)
    requires nextGW <= g <= Players.LAST_GW && 0 <= i < |data[g]|
    requires data[g][i] == Players.Match(Some(team), Some(opponent))
    ensures var fixtures := FixturesOf(team, nextGW, Some(data)).value[g];
            fixtures == Pairs(data[g][..i], team) + [opponent, HOME] + Pairs(data[g][i + 1..], team)
  {
    PairsAt(data[g], i, team);
  }

  /** An away match against `opponent` puts `[opponent, 0]` in its gameweek's list, in calendar position. */
  lemma AwayMatchPair(team: int, opponent: int, nextGW: int, data: map<int, seq<Match>>, g: int, i: int)
    requires GameweeksDefined(nextGW, data)
    requires nextGW <= g <= Players.LAST_GW && 0 <= i < |data[g]|
    requires data[g][i] == Players.Match(Some(opponent), Some(team)) && opponent != team
    ensures var fixtures := FixturesOf(team, nextGW, Some(data)).value[g];
            fixtures == Pairs(data[g][..i], team) + [opponent, AWAY] + Pairs(data[g][i + 1..], team)
  {
    PairsAt(data[g], i, team);
  }

  /**
    The inner loop of `setFixtures`: one gameweek's matches in calendar order, each
    adding its pair when the team plays in it; a match with a missing team is a
    NullPointerException.
   */
  method GameweekPairs(fixtureList: seq<Match>, team: int) returns (r: Result<seq<int>>)
    ensures r.Ok? <==> AllComplete(fixtureList)
    ensures r.Err? ==> r.error == NullPointer
    ensures r.Ok? ==> r.value == Pairs(fixtureList, team)
  {
    var fixture: seq<int> := [];
    var i := 0;
    while i < |fixtureList|
      invariant 0 <= i <= |fixtureList|
      invariant forall j :: 0 <= j < i ==> Complete(fixtureList[j])
      invariant fixture == Pairs(fixtureList[..i], team)
    {
      var m := fixtureList[i];
      if m.home.None? || m.away.None? {
        assert !Complete(fixtureList[i]);
        return Err(NullPointer);
      }
      assert fixtureList[..i + 1][..i] == fixtureList[..i];
      if m.home.value == team {
        fixture := fixture + [m.away.value, HOME];
      } else if m.away.value == team {
        fixture := fixture + [m.home.value, AWAY];
      }
      i := i + 1;
    }
    assert fixtureList[..|fixtureList|] == fixtureList;
    return Ok(fixture);
  }

  // ----- the player object -----

  /** The element and fixture data give a player without an exception. */
  predicate Builds(nextGW: int, playerData: Option<Element>, fixtureData: Option<map<int, seq<Match>>>) {
    AttributesOf(playerData).Ok? && FixturesOf(AttributesOf(playerData).value.team, nextGW, fixtureData).Ok?
  }

  class Player {
    var id: int
    var nextGW: int
    var name: string
    var chanceOfPlaying: int
    var pointsLastRound: int
    var avgPoints: Option<string>
    var selectedBy: Option<string>
    var transferBalance: int
    var team: int
    var fixtures: map<int, seq<int>>

    /** The attribute fields, read together. */
    function Attrs(): Attributes
      reads this
    {
      Attributes(name, chanceOfPlaying, pointsLastRound, avgPoints, selectedBy, transferBalance, team)
    }

    /** The first two assignments of the constructor; the other fields hold Java's defaults. */
    constructor (id: int, nextGW: int)
      ensures this.id == id && this.nextGW == nextGW
      ensures Attrs() == Attributes("", 0, 0, None, None, 0, 0) && fixtures == map[]
    {
      this.id := id;
      this.nextGW := nextGW;
      name := "";
      chanceOfPlaying := 0;
      pointsLastRound := 0;
      avgPoints := None;
      selectedBy := None;
      transferBalance := 0;
      team := 0;
      fixtures := map[];
    }

    method SetAttributes(playerData: Option<Element>) returns (outcome: Outcome)
      modifies this
      ensures id == old(id) && nextGW == old(nextGW) && fixtures == old(fixtures)
      ensures AttributesOf(playerData).Ok? ==> outcome == Pass && Attrs() == AttributesOf(playerData).value
      ensures AttributesOf(playerData).Err? ==> outcome == Fail(NullPointer)
    {
      if playerData.None? {
        return Fail(NullPointer);
      }
      var d := playerData.value;
      name := Concatenated(d.firstName) + " " + Concatenated(d.secondName);
      chanceOfPlaying := if d.chanceOfPlaying.Some? then d.chanceOfPlaying.value else 0;
      pointsLastRound := if d.eventPoints.Some? then d.eventPoints.value else 0;
      avgPoints := d.pointsPerGame;
      selectedBy := d.selectedByPercent;
      if d.transfersIn.None? || d.transfersOut.None? {
        return Fail(NullPointer);
      }
      transferBalance := Wrap32(d.transfersIn.value - d.transfersOut.value);
      if d.team.None? {
        return Fail(NullPointer);
      }
      team := d.team.value;
      return Pass;
    }

    method SetFixtures(fixtureData: Option<map<int, seq<Match>>>) returns (outcome: Outcome)
      modifies this`fixtures
      ensures FixturesOf(team, nextGW, fixtureData).Ok? ==>
                outcome == Pass && fixtures == FixturesOf(team, nextGW, fixtureData).value
      ensures FixturesOf(team, nextGW, fixtureData).Err? ==> outcome == Fail(NullPointer) && fixtures == old(fixtures)
    {
      var built: map<int, seq<int>> := map[];
      var gw := nextGW;
      while gw < Players.LAST_GW + 1
        invariant nextGW <= gw && (gw <= Players.LAST_GW + 1 || gw == nextGW)
        invariant gw > nextGW ==> fixtureData.Some?
        invariant forall g :: nextGW <= g < gw ==>
          fixtureData.Some? && g in fixtureData.value && AllComplete(fixtureData.value[g])
        invariant forall g :: g in built <==> nextGW <= g < gw
        invariant forall g :: g in built ==> fixtureData.Some? && built[g] == Pairs(fixtureData.value[g], team)
        invariant fixtures == old(fixtures)
        decreases Players.LAST_GW + 1 - gw
      {
        if fixtureData.None? || gw !in fixtureData.value {
          return Fail(NullPointer);
        }
        var fixture := GameweekPairs(fixtureData.value[gw], team);
        if fixture.Err? {
          assert !GameweeksDefined(nextGW, fixtureData.value);
          return Fail(fixture.error);
        }
        built := built[gw := fixture.value];
        gw := gw + 1;
      }
      if fixtureData.Some? {
        BuiltFixtures(team, nextGW, fixtureData.value, built);
      }
      fixtures := built;
      return Pass;
    }
  }

  /**
    `new Player(ID, nextGW, playerData, fixtureData)`: the constructor's assignments, then
    `setAttributes` and `setFixtures`; an exception in either ends the construction.
   */
  method Create(id: int, nextGW: int, playerData: Option<Element>, fixtureData: Option<map<int, seq<Match>>>)
    returns (r: Result<Player>)
    ensures r.Ok? <==> Builds(nextGW, playerData, fixtureData)
    ensures r.Err? ==> r.error == NullPointer
    ensures r.Ok? ==> fresh(r.value) && r.value.id == id && r.value.nextGW == nextGW &&
                      r.value.Attrs() == AttributesOf(playerData).value &&
                      r.value.fixtures == FixturesOf(r.value.team, nextGW, fixtureData).value
  {
    var p := new Player(id, nextGW);
    var outcome := p.SetAttributes(playerData);
    if outcome.Fail? {
      return Err(NullPointer);
    }
    outcome := p.SetFixtures(fixtureData);
    if outcome.Fail? {
      return Err(NullPointer);
    }
    return Ok(p);
  }
}
