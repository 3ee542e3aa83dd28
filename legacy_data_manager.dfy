/**
  The data manager of the older root package (src/main/java/FPLManager/DataManager.java):
  a team directory of `id;name` rows kept as names only, and the same user file as the
  model package, whose lookup answers 0 when the name is not there.
 */
module LegacyDirectory {
  import opened Wrappers
  import opened JavaText
  import Directory

  /** A directory row: exactly two `;` fields give the trimmed team name. */
  function TeamNameOf(line: string): (r: Option<string>)
    ensures r.Some? <==> |Split(line, ';')| == 2
    ensures r.Some? ==> r.value == Trim(Split(line, ';')[1])
  {
    var parts := Split(line, ';');
    if |parts| == 2 then Some(Trim(parts[1])) else None
  }

  /** The names of the well-formed rows, in file order. */
  function TeamNames(lines: seq<string>): (r: seq<string>)
    ensures |r| <= |lines|
  {
    if lines == [] then []
    else
      var last := TeamNameOf(lines[|lines| - 1]);
      TeamNames(lines[..|lines| - 1]) + (if last.Some? then [last.value] else [])
  }

  /** `setTeams`: every line after the header. */
  function LoadedTeamNames(lines: seq<string>): seq<string> {
    if lines == [] then [] else TeamNames(lines[1..])
  }

  /** Reading one more line after the header adds that line's name, if it has one. */
  lemma TeamNamesSnoc(lines: seq<string>, i: int)
    requires 1 <= i < |lines|
    ensures TeamNames(lines[1..i + 1]) == TeamNames(lines[1..i]) + (if TeamNameOf(lines[i]).Some? then [TeamNameOf(lines[i]).value] else [])
  {
    assert lines[1..i + 1][..i - 1] == lines[1..i];
  }

  /** The same step, stated on the fields of the new line. */
  lemma TeamNamesStep(lines: seq<string>, i: int, parts: seq<string>)
    requires 1 <= i < |lines| && parts == Split(lines[i], ';')
    ensures TeamNames(lines[1..i + 1]) == TeamNames(lines[1..i]) + (if |parts| == 2 then [Trim(parts[1])] else [])
  {
    TeamNamesSnoc(lines, i);
    assert TeamNameOf(lines[i]) == if |parts| == 2 then Some(Trim(parts[1])) else None;
  }

  /** Names are read line by line: the names of two runs of lines are those of each, in order. */
  lemma {:induction false} TeamNamesAppend(a: seq<string>, b: seq<string>)
    ensures TeamNames(a + b) == TeamNames(a) + TeamNames(b)
    decreases |b|
  {
    if b != [] {
      TeamNamesAppend(a, b[..|b| - 1]);
      assert (a + b)[..|a + b| - 1] == a + b[..|b| - 1];
    } else {
      assert a + b == a;
    }
  }

  /** A row written as `id;name`, with a non-empty name free of `;` and of surrounding blanks, is read back as that name. */
  lemma TeamNameRoundTrip(id: int, name: string)
    requires ';' !in name && name != "" && Trim(name) == name
    ensures TeamNameOf(IntToString(id) + ";" + name) == Some(name)
  {
    var text := IntToString(id);
    IntToStringChars(id);
    SplitPair(text, ';', name);
    assert text + ";" + name == text + [';'] + name;
  }

  /** A row of the newer three-field directory has three parts, so this reader skips it. */
  lemma ThreeFieldRowSkipped(id: int, name: string, short: string)
    requires ';' !in name && ';' !in short && short != ""
    ensures TeamNameOf(IntToString(id) + ";" + name + ";" + short) == None
  {
    var text := IntToString(id);
    IntToStringChars(id);
    SplitTriple(text, ';', name, short);
    assert text + ";" + name + ";" + short == text + [';'] + name + [';'] + short;
  }

  method SetTeams(lines: seq<string>) returns (teams: seq<string>)
    ensures teams == LoadedTeamNames(lines)
  {
    teams := [];
    var firstLine := true;
    var i := 0;
    while i < |lines|
      invariant 0 <= i <= |lines|
      invariant firstLine <==> i == 0
      invariant i == 0 ==> teams == []
      invariant i >= 1 ==> teams == TeamNames(lines[1..i])
    {
      var line := lines[i];
      if firstLine {
        firstLine := false;
        assert lines[1..i + 1] == [];
      } else {
        var parts := Split(line, ';');
        TeamNamesStep(lines, i, parts);
        if |parts| == 2 {
          var teamName := Trim(parts[1]);
          teams := teams + [teamName];
        }
      }
      i := i + 1;
    }
    if |lines| > 0 {
      assert lines[1..|lines|] == lines[1..];
    }
  }

  /** The id `findUser` returns when no line names the query. */
  const NOT_FOUND: int := 0

  /** A user stored with id 0 cannot be told apart from a missing one. */
  lemma ZeroIdAmbiguous(lines: seq<string>, teamName: string)
    requires |lines| >= 1 && Directory.ScanRows(lines[1..], teamName) == Directory.Miss
    requires ',' !in teamName && Trim(teamName) == teamName
    ensures Directory.FindUserResult(lines + [Directory.UserLine(teamName, 0)], teamName, NOT_FOUND)
         == Directory.FindUserResult(lines, teamName, NOT_FOUND) == Ok(0)
  {
    Directory.NotFoundValueAmbiguous(lines, teamName, NOT_FOUND);
  }

  class DataManager {
    var teams: seq<string>
    var users: seq<string>

    constructor (teamLines: seq<string>, userLines: seq<string>)
      ensures teams == LoadedTeamNames(teamLines) && users == userLines
    {
      var loaded := SetTeams(teamLines);
      teams := loaded;
      users := userLines;
    }

    /** `addUser`: appends one line to the user file. */
    method AddUser(teamName: string, teamID: int)
      modifies this`users
      ensures users == old(users) + [Directory.UserLine(teamName, teamID)]
    {
      users := users + [teamName + "," + IntToString(teamID)];
    }

    method FindUser(teamName: string) returns (r: Result<int>)
      ensures r == Directory.FindUserResult(users, teamName, NOT_FOUND)
    {
      r := Directory.ScanUsers(users, teamName, NOT_FOUND);
    }
  }
}
