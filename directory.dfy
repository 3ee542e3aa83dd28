/**
  The two text files of src/main/java/FPLManager/model/DataManager.java: the team
  directory (`teams.csv`, one `id;name;short` row per team after a header line) and the
  user directory (`users.txt`, one `name,id` row per user after a header line). Each
  file is its sequence of lines.
 */
module Directory {
  import opened Wrappers
  import opened JavaText
  import opened Players

  // ----- the team directory -----

  /** A directory row: exactly three `;` fields give the trimmed name and short code. */
  function TeamRowOf(line: string): (r: Option<TeamRow>)
    ensures r.Some? <==> |Split(line, ';')| == 3
  {
    var parts := Split(line, ';');
    if |parts| == 3 then Some(TeamRow(Trim(parts[1]), Trim(parts[2]))) else None
  }

  /** The rows of the given lines that are well-formed, in file order. */
  function TeamRows(lines: seq<string>): (r: seq<TeamRow>)
    ensures |r| <= |lines|
  {
    if lines == [] then []
    else
      var last := TeamRowOf(lines[|lines| - 1]);
      TeamRows(lines[..|lines| - 1]) + (if last.Some? then [last.value] else [])
  }

  /** `loadTeams`: every line after the header. */
  function LoadedTeams(lines: seq<string>): seq<TeamRow> {
    if lines == [] then [] else TeamRows(lines[1..])
  }

  /** Rows are read line by line: the rows of two runs of lines are the rows of each, in order. */
  lemma {:induction false} TeamRowsAppend(a: seq<string>, b: seq<string>)
    ensures TeamRows(a + b) == TeamRows(a) + TeamRows(b)
    decreases |b|
  {
    if b != [] {
      TeamRowsAppend(a, b[..|b| - 1]);
      assert (a + b)[..|a + b| - 1] == a + b[..|b| - 1];
    } else {
      assert a + b == a;
    }
  }

  /** Reading one more line after the header adds that line's row, if it has one. */
  lemma TeamRowsSnoc(lines: seq<string>, i: int)
    requires 1 <= i < |lines|
    ensures TeamRows(lines[1..i + 1]) == TeamRows(lines[1..i]) + (if TeamRowOf(lines[i]).Some? then [TeamRowOf(lines[i]).value] else [])
  {
    assert lines[1..i + 1][..i - 1] == lines[1..i];
  }

  /** The same step, stated on the fields of the new line. */
  lemma TeamRowsStep(lines: seq<string>, i: int, parts: seq<string>)
    requires 1 <= i < |lines| && parts == Split(lines[i], ';')
    ensures TeamRows(lines[1..i + 1]) ==
            TeamRows(lines[1..i]) + (if |parts| == 3 then [TeamRow(Trim(parts[1]), Trim(parts[2]))] else [])
  {
    TeamRowsSnoc(lines, i);
    assert TeamRowOf(lines[i]) == if |parts| == 3 then Some(TeamRow(Trim(parts[1]), Trim(parts[2]))) else None;
  }

  /** A line of three `;` fields is the row of its trimmed second and third fields. */
  lemma TeamRowOfFields(line: string, id: string, name: string, short: string)
    requires Split(line, ';') == [id, name, short]
    ensures TeamRowOf(line) == Some(TeamRow(Trim(name), Trim(short)))
  {
  }

  /** A row written as `id;name;short` with `;`-free names splits back into those three fields. */
  lemma RowLineFields(id: int, name: string, short: string)
    requires ';' !in name && ';' !in short && short != ""
    ensures Split(IntToString(id) + ";" + name + ";" + short, ';') == [IntToString(id), name, short]
  {
    var text := IntToString(id);
    IntToStringChars(id);
    SplitTriple(text, ';', name, short);
    assert text + ";" + name + ";" + short == text + [';'] + name + [';'] + short;
  }

  /**
    A row written as `id;name;short`, with names free of `;` and of surrounding blanks
    and a non-empty short code, is read back as that team.
   */
  lemma TeamRowRoundTrip(id: int, name: string, short: string)
    requires ';' !in name && ';' !in short && short != ""
    requires Trim(name) == name && Trim(short) == short
    ensures TeamRowOf(IntToString(id) + ";" + name + ";" + short) == Some(TeamRow(name, short))
  {
    RowLineFields(id, name, short);
    TeamRowOfFields(IntToString(id) + ";" + name + ";" + short, IntToString(id), name, short);
  }

  method LoadTeams(lines: seq<string>) returns (teams: seq<TeamRow>)
    ensures teams == LoadedTeams(lines)
  {
    teams := [];
    var firstLine := true;
    var i := 0;
    while i < |lines|
      invariant 0 <= i <= |lines|
      invariant firstLine <==> i == 0
      invariant i == 0 ==> teams == []
      invariant i >= 1 ==> teams == TeamRows(lines[1..i])
    {
      var line := lines[i];
      if firstLine {
        firstLine := false;
        assert lines[1..i + 1] == [];
      } else {
        var parts := Split(line, ';');
        TeamRowsStep(lines, i, parts);
        if |parts| == 3 {
          var teamName := Trim(parts[1]);
          var teamShort := Trim(parts[2]);
          teams := teams + [TeamRow(teamName, teamShort)];
        }
      }
      i := i + 1;
    }
    if |lines| > 0 {
      assert lines[1..|lines|] == lines[1..];
    }
  }

  // ----- the user directory -----

  /** What one user line contributes to a lookup. */
  datatype LineScan = Hit(id: int) | Miss | BadNumber

  /**
    One line of the lookup: a line that does not split into exactly two `,` fields is
    skipped; otherwise its id field is parsed first, which fails on a bad number
    whatever the name, and the trimmed name is then compared with the query.
   */
  function ScanLine(line: string, teamName: string): LineScan {
    var parts := Split(line, ',');
    if |parts| != 2 then Miss
    else
      match ParseInt(Trim(parts[1]))
      case None => BadNumber
      case Some(id) => if Trim(parts[0]) == teamName then Hit(id) else Miss
  }

  /** The first line that is not a miss decides the lookup. */
  function ScanRows(rows: seq<string>, teamName: string): LineScan {
    if rows == [] then Miss
    else
      var first := ScanLine(rows[0], teamName);
      if first != Miss then first else ScanRows(rows[1..], teamName)
  }

  /** `findUser` with the given not-found value: the header line is skipped and a bad number is a NumberFormatException. */
  function FindUserResult(lines: seq<string>, teamName: string, notFound: int): Result<int> {
    if lines == [] then Ok(notFound)
    else
      match ScanRows(lines[1..], teamName)
      case Hit(id) => Ok(id)
      case Miss => Ok(notFound)
      case BadNumber => Err(NumberFormat)
  }

  /** The first line a scanner does not miss decides; a reading of `ScanRows` for any line scanner. */
  function FirstDecided(rows: seq<string>, scan: string -> LineScan): LineScan {
    if rows == [] then Miss
    else if scan(rows[0]) != Miss then scan(rows[0])
    else FirstDecided(rows[1..], scan)
  }

  /** The lookup's scan is the first-decided reading with `ScanLine` as the scanner. */
  lemma {:induction false} ScanRowsFirstDecided(rows: seq<string>, teamName: string)
    ensures ScanRows(rows, teamName) == FirstDecided(rows, line => ScanLine(line, teamName))
  {
    if rows != [] {
      ScanRowsFirstDecided(rows[1..], teamName);
    }
  }

  /** The index of the line that decides: every line before it misses. */
  lemma {:induction false} DecidingLine(rows: seq<string>, scan: string -> LineScan) returns (k: int)
    requires FirstDecided(rows, scan) != Miss
    ensures 0 <= k < |rows| && scan(rows[k]) == FirstDecided(rows, scan)
    ensures forall j :: 0 <= j < k ==> scan(rows[j]) == Miss
  {
    if scan(rows[0]) == Miss {
      var tail := rows[1..];
      var m := DecidingLine(tail, scan);
      k := m + 1;
      assert rows[k] == tail[m];
      forall j | 0 <= j < k ensures scan(rows[j]) == Miss {
        if j > 0 {
          assert rows[j] == tail[j - 1];
        }
      }
    } else {
      k := 0;
    }
  }

  /** A hit comes from a line that names the query, and every line before it is a miss: the first match wins. */
  lemma ScanRowsFirstHit(rows: seq<string>, teamName: string)
    requires ScanRows(rows, teamName).Hit?
    ensures exists k :: 0 <= k < |rows| && ScanLine(rows[k], teamName) == ScanRows(rows, teamName) &&
                        forall j :: 0 <= j < k ==> ScanLine(rows[j], teamName) == Miss
  {
    var scan := line => ScanLine(line, teamName);
    ScanRowsFirstDecided(rows, teamName);
    var k := DecidingLine(rows, scan);
    assert forall j :: 0 <= j < k ==> ScanLine(rows[j], teamName) == scan(rows[j]);
  }

  /** A line appended after the others is reached only when all of them miss. */
  lemma {:induction false} ScanRowsAppend(rows: seq<string>, line: string, teamName: string)
    ensures ScanRows(rows + [line], teamName) ==
            if ScanRows(rows, teamName) != Miss then ScanRows(rows, teamName) else ScanLine(line, teamName)
  {
    if rows == [] {
      assert ([] + [line])[1..] == [];
    } else {
      assert (rows + [line])[1..] == rows[1..] + [line];
      ScanRowsAppend(rows[1..], line, teamName);
    }
  }

  /** The line `addUser` appends: the name, a comma and the decimal id. */
  function UserLine(teamName: string, teamID: int): string {
    teamName + "," + IntToString(teamID)
  }

  /** A comma-free name splits off an appended line as its first field, and the id as its second. */
  lemma UserLineFields(teamName: string, teamID: int)
    requires ',' !in teamName
    ensures Split(UserLine(teamName, teamID), ',') == [teamName, IntToString(teamID)]
  {
    var text := IntToString(teamID);
    IntToStringChars(teamID);
    SplitPair(teamName, ',', text);
    assert UserLine(teamName, teamID) == teamName + [','] + text;
  }

  /** An appended line for a comma-free name without surrounding blanks is a hit for that name, with its id. */
  lemma UserLineHit(teamName: string, teamID: int)
    requires ',' !in teamName && Trim(teamName) == teamName && IsInt32(teamID)
    ensures ScanLine(UserLine(teamName, teamID), teamName) == Hit(teamID)
  {
    var parts := Split(UserLine(teamName, teamID), ',');
    UserLineFields(teamName, teamID);
    assert parts[0] == teamName && parts[1] == IntToString(teamID);
    TrimOfTrimmed(IntToString(teamID));
    ParseIntToString(teamID);
    assert ParseInt(Trim(parts[1])) == Some(teamID);
  }

  /**
    Adding a user and then looking the name up finds the id that was added, when the
    file has its header, no earlier line decides the lookup, and the name is comma-free
    and without surrounding blanks.
   */
  lemma AddThenFind(lines: seq<string>, teamName: string, teamID: int, notFound: int)
    requires |lines| >= 1 && ScanRows(lines[1..], teamName) == Miss
    requires ',' !in teamName && Trim(teamName) == teamName && IsInt32(teamID)
    ensures FindUserResult(lines + [UserLine(teamName, teamID)], teamName, notFound) == Ok(teamID)
  {
    assert (lines + [UserLine(teamName, teamID)])[1..] == lines[1..] + [UserLine(teamName, teamID)];
    ScanRowsAppend(lines[1..], UserLine(teamName, teamID), teamName);
    UserLineHit(teamName, teamID);
  }

  /** In an empty file the appended line becomes the header, which the lookup skips. */
  lemma AddToEmptyFileNotFound(teamName: string, teamID: int, notFound: int)
    ensures FindUserResult([UserLine(teamName, teamID)], teamName, notFound) == Ok(notFound)
  {
    assert [UserLine(teamName, teamID)][1..] == [];
  }

  /** A stored id equal to the not-found value cannot be told apart from a missing user. */
  lemma NotFoundValueAmbiguous(lines: seq<string>, teamName: string, notFound: int)
    requires |lines| >= 1 && ScanRows(lines[1..], teamName) == Miss
    requires ',' !in teamName && Trim(teamName) == teamName && IsInt32(notFound)
    ensures FindUserResult(lines + [UserLine(teamName, notFound)], teamName, notFound)
         == FindUserResult(lines, teamName, notFound) == Ok(notFound)
  {
    AddThenFind(lines, teamName, notFound, notFound);
  }

  /** A line with an unparsable id reached before the matching line makes the lookup fail, whatever name it holds. */
  lemma BadNumberBeforeMatch(lines: seq<string>, k: int, teamName: string, other: string, badId: string)
    requires 1 <= k < |lines|
    requires ScanRows(lines[1..k], teamName) == Miss
    requires ',' !in other && ',' !in badId && badId != "" && ParseInt(Trim(badId)).None?
    requires lines[k] == other + "," + badId
    ensures FindUserResult(lines, teamName, -1) == Err(NumberFormat)
  {
    assert lines[k] == other + [','] + badId;
    SplitPair(other, ',', badId);
    assert ScanLine(lines[k], teamName) == BadNumber;
    assert lines[1..][..k - 1] == lines[1..k];
    ScanRowsDecidedAt(lines[1..], k - 1, teamName);
  }

  /** When the lines before `k` all miss, line `k` decides the scan if it is not a miss itself. */
  lemma {:induction false} ScanRowsDecidedAt(rows: seq<string>, k: int, teamName: string)
    requires 0 <= k < |rows|
    requires ScanRows(rows[..k], teamName) == Miss
    requires ScanLine(rows[k], teamName) != Miss
    ensures ScanRows(rows, teamName) == ScanLine(rows[k], teamName)
  {
    if k > 0 {
      assert ScanLine(rows[0], teamName) == Miss by {
        assert rows[..k][0] == rows[0];
      }
      assert rows[..k][1..] == rows[1..][..k - 1];
      ScanRowsDecidedAt(rows[1..], k - 1, teamName);
    }
  }

  /**
    The scan loop of `findUser`, shared by both directory classes: it skips the header,
    returns on the first line that names the query, and ends with `notFound`.
   */
  method ScanUsers(lines: seq<string>, teamName: string, notFound: int) returns (r: Result<int>)
    ensures r == FindUserResult(lines, teamName, notFound)
  {
    var firstLine := true;
    var i := 0;
    while i < |lines|
      invariant 0 <= i <= |lines|
      invariant firstLine <==> i == 0
      invariant i > 0 ==> ScanRows(lines[1..], teamName) == ScanRows(lines[i..], teamName)
    {
      var line := lines[i];
      if firstLine {
        firstLine := false;
        i := i + 1;
        continue;
      }
      assert lines[i..][1..] == lines[i + 1..];
      var parts := Split(line, ',');
      if |parts| == 2 {
        var teamNameFile := Trim(parts[0]);
        var parsed := ParseInt(Trim(parts[1]));
        if parsed.None? {
          return Err(NumberFormat);
        }
        var teamIDFile := parsed.value;
        if teamNameFile == teamName {
          return Ok(teamIDFile);
        }
      }
      i := i + 1;
    }
    return Ok(notFound);
  }

  /** The id `findUser` returns when no line names the query. */
  const NOT_FOUND: int := -1

  /** The data manager: the team directory read at construction, and the user file. */
  class DataManager {
    const teams: seq<TeamRow>
    var users: seq<string>

    constructor (teamLines: seq<string>, userLines: seq<string>)
      ensures teams == LoadedTeams(teamLines) && users == userLines
    {
      var loaded := LoadTeams(teamLines);
      teams := loaded;
      users := userLines;
    }

    /** `addUser`: appends one line to the user file. */
    method AddUser(teamName: string, teamID: int)
      modifies this`users
      ensures users == old(users) + [UserLine(teamName, teamID)]
    {
      users := users + [teamName + "," + IntToString(teamID)];
    }

    method FindUser(teamName: string) returns (r: Result<int>)
      ensures r == FindUserResult(users, teamName, NOT_FOUND)
    {
      r := ScanUsers(users, teamName, NOT_FOUND);
    }
  }
}
