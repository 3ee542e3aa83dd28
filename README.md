# FPL Manager: a Dafny model of the manager snapshot

The FPL Manager app builds a snapshot of one Fantasy Premier League manager. It covers the
next gameweek, the team name, the current squad, the chips still available and the free
transfers in hand. It reads these from the FPL web API and from two small text files: a
team directory and a list of registered users. This project models how that snapshot is
computed, in both packages of the repository:

- **The `model` package** (`src/main/java/FPLManager/model/`):
  - `FPLAPI` shapes the decoded API responses (module `Api`).
  - `Player` holds the player attributes and the per-gameweek fixture strings (module `Players`).
  - `PlayerPositionComparator` orders players by position (module `PositionComparator`).
  - `Manager` computes the transfer ledger, the chip table and the squad (module `Managers`).
  - `DataManager` reads the team directory and the user file (module `Directory`).
- **The older root package** (`src/main/java/FPLManager/`):
  - `Player` encodes fixtures as opponent id and home/away flag pairs (module `LegacyPlayers`).
  - `Manager` builds an unfiltered, unsorted squad (module `LegacyManagers`).
  - `DataManager` reads a two-field team directory and uses 0 as its not-found id (module `LegacyDirectory`).

Shared modules:

- `Wrappers` gives `Option`, `Result` and `Outcome` values. It also names the Java exceptions
  the code can throw: NullPointerException, NumberFormatException, IllegalStateException
  and IllegalArgumentException.
- `JavaText` models the parts of `String` and `Integer` the code relies on: `split` on a
  one-character delimiter with its trailing empty fields dropped, `trim`, `Integer.parseInt`,
  `Integer.toString`, and 32-bit `int` wrap-around.

How the code maps to Dafny:

- Objects whose methods assign their fields become classes.
  - `Api.FPLAPI`, `LegacyPlayers.Player`, `LegacyManagers.Manager` and both `DataManager`
    classes have `var` fields and setters with `modifies` clauses.
  - The model package's `Manager` assigns every field once in its constructor. Its fields
    are `const`.
- Each loop of the source is a `method` with a `while` loop, proved equal to a specification
  function. The inner loop of each `setFixtures`/`processFixtures` (one gameweek's matches)
  is a method of its own, called from the loop over gameweeks.
- Properties of those functions are proved as lemmas.
- An exception becomes an `Err`/`Fail` value carrying it.
- An out-of-range `List.get` on the team directory is a precondition instead.

The main facts proved:

- **Transfer ledger:** the balance stays between 0 and 5. A transfer record outside the
  weeks counted, or in an exempt week, changes nothing, and an extra record never adds a
  free transfer. With no transfers, the balance is the number of weeks plus one, capped at 5.
- **Wildcard exemption:** the guard meant to exempt the wildcard week never holds, so the
  week the wildcard was played is charged like any other (`WildcardExemptionNeverApplies`).
- **Chip table:** the keys are exactly the five chip names. A non-wildcard chip is used iff
  it is recorded. The wildcard is used iff it is recorded in the same half of the season as
  the next gameweek, and week 18 counts as neither half.
- **Squad:** it holds exactly the roster ids with catalog data and a known position, one
  player each. It is sorted by position and is a permutation of the assembled list. The
  sort is stable within each position, and no other arrangement is both sorted and stable.
- **Fixtures:** a home match appears as the opponent's short code with `(H)`, and an away
  match as the home side's code with `(A)`, at the match's place in the gameweek.
  - In the older package a match gives the pair `[opponent, 1]` or `[opponent, 0]`.
  - Every gameweek up to 38 is a key there, and a missing list is a NullPointerException.
- **Comparator:** it is antisymmetric, transitive and consistent, with results in {-1, 0, 1}
  that match the position ranks in both directions.
- **Files:**
  - A team row that is written out is read back as the same row.
  - A user line that is appended is found by the next lookup, when nothing earlier decides it.
  - An appended line in an empty file becomes the skipped header.
  - A stored id equal to the not-found value cannot be told from a missing user.
  - A malformed id on an earlier line makes the lookup throw, whatever name that line has.

Where the code and its documentation disagree, the model follows the code:

- `Manager.calculateAvailableTransfers` is meant to exempt the wildcard week. Its guard asks
  whether `String.class` is an instance of the stored value's class, which is never true, so
  no week is exempt. `Managers.WildcardWeekAsWired` models the guard as written. The ledger
  itself takes the exempt week as a parameter, so the intended behaviour is stated alongside
  it.
- The doc comment of `model/DataManager.findUser` promises 0 for an unknown name, but the
  code returns -1. The tests expect -1. The model uses -1 (`Directory.NOT_FOUND`), and 0 for
  the older class, which does return 0.

## Model

| member | source | states |
|---|---|---|
| JavaText.Wrap32 | src/main/java/FPLManager/model/Player.java:134 | the result of an `int` subtraction lies in the 32-bit range, differs from the exact value by a multiple of 2^32, and is the exact value when that fits |
| JavaText.Trim | src/main/java/FPLManager/model/DataManager.java:50-51 | `trim` leaves a string no longer than its input with no char at or below U+0020 at either end |
| JavaText.TrimContent | src/main/java/FPLManager/model/DataManager.java:50-51 | what `trim` keeps is a contiguous infix of its input with only chars at or below U+0020 before and after it |
| JavaText.InfixFramedByBlanks | src/main/java/FPLManager/model/DataManager.java:50-51 | cutting a blank prefix off and then a blank suffix leaves an infix framed by blanks on both sides |
| JavaText.TrimOfTrimmed | src/main/java/FPLManager/model/DataManager.java:104 | a string with no blank at either end is its own trim |
| JavaText.Split | src/main/java/FPLManager/model/DataManager.java:47 | a string without the delimiter is one part |
| JavaText.FieldsFree | src/main/java/FPLManager/model/DataManager.java:47 | no field cut at the delimiter contains it |
| JavaText.SplitPartsFree | src/main/java/FPLManager/model/DataManager.java:47 | no part returned by `split` contains the delimiter |
| JavaText.JoinSnoc | src/main/java/FPLManager/model/Player.java:194 | joining a non-empty list with one more entry is the join of the list, the separator, then that entry |
| JavaText.JoinFields | src/main/java/FPLManager/model/DataManager.java:47 | joining the fields of a line with the delimiter gives the line back, so splitting loses nothing but the delimiters |
| JavaText.SplitPair | src/main/java/FPLManager/model/DataManager.java:102-103 | two delimiter-free parts, the second non-empty, joined by the delimiter split back into exactly those two parts |
| JavaText.SplitTriple | src/main/java/FPLManager/model/DataManager.java:47-49 | three delimiter-free parts, the last non-empty, joined by the delimiter split back into exactly those three parts |
| JavaText.ParseInt | src/main/java/FPLManager/model/DataManager.java:105 | `parseInt` accepts only values in the int range, and never a string with a blank at either end |
| JavaText.IntToString | src/main/java/FPLManager/model/DataManager.java:74 | the decimal text of an int is non-empty, with no blank at either end |
| JavaText.IntToStringChars | src/main/java/FPLManager/model/DataManager.java:74 | the decimal text of an int is made of digits and `-` only, so it holds no delimiter |
| JavaText.ParseIntToString | src/main/java/FPLManager/model/DataManager.java:74-105 | parsing the decimal text of any int gives that int back |
| Players.PositionOfCode | src/main/java/FPLManager/model/Player.java:215-226 | codes 1 to 4, and only those, name a position, and the position's code is the code given |
| Players.PositionFromPlayerData | src/main/java/FPLManager/model/Player.java:206-227 | the position is known iff the data exists, has an element type and that type is 1 to 4; a missing map or key is Unknown |
| Players.PositionCodesRoundTrip | src/test/java/FPLManager/model/PlayerTest.java:88-106 | every known position is read back from its own code |
| Players.NameFromPlayerData | src/main/java/FPLManager/model/Player.java:86-90 | the name is the first name, one space, then the second name, a missing part being empty |
| Players.TransferBalance | src/main/java/FPLManager/model/Player.java:132-137 | the balance is 0 when either count is missing, otherwise transfers in minus out with int wrap-around |
| Players.TeamName | src/main/java/FPLManager/model/Player.java:145-150 | team id 0 is "Not found", any other id names row id-1 of the directory |
| Players.MatchEntry | src/main/java/FPLManager/model/Player.java:170-175 | a match yields an entry iff both sides are present and the team plays in it, and the entry is a short code with `(H)` or `(A)` |
| Players.GameweekEntries | src/main/java/FPLManager/model/Player.java:166-178 | a gameweek lists at most one entry per match, each a directory short code with a side marker |
| Players.Schedule | src/main/java/FPLManager/model/Player.java:159-184 | only gameweeks from the next one to 38 with at least one entry are keys, every entry is a short code with a side marker, and a null fixture map gives no fixtures |
| Players.GameweekFixture | src/main/java/FPLManager/model/Player.java:169-177 | the loop over one gameweek's matches builds exactly that gameweek's entries |
| Players.ProcessFixtures | src/main/java/FPLManager/model/Player.java:159-184 | the loop over gameweeks builds exactly the schedule |
| Players.GameweekEntriesAppend | src/main/java/FPLManager/model/Player.java:169-177 | the entries of two runs of matches are the entries of each, in order |
| Players.GameweekEntriesAt | src/main/java/FPLManager/model/Player.java:169-177 | a match with an entry contributes exactly that entry, between the entries of the matches before and after it |
| Players.HomeMatchListed | src/main/java/FPLManager/model/Player.java:171-172 | a home match against a directory team puts that team's short code with `(H)` into its gameweek |
| Players.AwayMatchListed | src/main/java/FPLManager/model/Player.java:173-174 | an away match puts the home side's short code with `(A)` into its gameweek |
| Players.FixtureForGameweek | src/main/java/FPLManager/model/Player.java:192-197 | a gameweek without fixtures gives "", one entry gives that entry, and two or more give the join of all but the last, then ", ", then the last entry |
| Players.SingleHomeFixtureScenario | src/test/java/FPLManager/model/PlayerTest.java:52-59 | with two "TT" directory rows, team 1 from gameweek 37 and one match 1 v 2 in gameweek 38, gameweek 38 reads "TT(H)" and gameweek 37 reads "" |
| Players.PlayerOf | src/main/java/FPLManager/model/Player.java:41-76 | the root id -1 gives the fixed root player; any other id takes its name, team id, team name and schedule from its data and the directory |
| Players.NewPlayer | src/main/java/FPLManager/model/Player.java:41-76 | the constructor builds exactly `PlayerOf` for its arguments |
| PositionComparator.PositionOrder | src/main/java/FPLManager/model/PlayerPositionComparator.java:34-47 | the order is 1 to 5, and 1, 2, 3, 4 hold exactly for "Goalkeeper", "Defender", "Midfielder", "Forward" |
| PositionComparator.RankByPosition | src/main/java/FPLManager/model/PlayerPositionComparator.java:18-23 | a player's rank is 1 to 4 for the four positions and 5 for an unknown one |
| PositionComparator.Compare | src/main/java/FPLManager/model/PlayerPositionComparator.java:18-26 | the result is -1, 0 or 1, negative iff the first rank is lower, zero iff the ranks are equal, positive iff the first is higher |
| PositionComparator.CompareAntisymmetric | src/main/java/FPLManager/model/PlayerPositionComparator.java:25 | swapping the players negates the comparison |
| PositionComparator.CompareTransitive | src/main/java/FPLManager/model/PlayerPositionComparator.java:25 | "not after" and "before" are transitive |
| PositionComparator.CompareConsistent | src/main/java/FPLManager/model/PlayerPositionComparator.java:25 | players that compare equal compare alike with any third player |
| PositionComparator.SortByPositionSorted | src/main/java/FPLManager/model/Manager.java:137 | the sorted squad has no pair out of position order |
| PositionComparator.SortByPositionPermutation | src/main/java/FPLManager/model/Manager.java:137 | sorting keeps every player with its multiplicity |
| PositionComparator.SortByPositionStable | src/main/java/FPLManager/model/Manager.java:137 | the players of each position keep their relative order |
| PositionComparator.SortByPositionUnique | src/main/java/FPLManager/model/Manager.java:137 | any sorted list with the same players per position, in the same order, is the stable sort |
| Managers.Charges | src/main/java/FPLManager/model/Manager.java:59-63 | a week is charged at most once per history record, and the exempt week is never charged |
| Managers.Balance | src/main/java/FPLManager/model/Manager.java:48-70 | the free-transfer balance always lies between 0 and 5 |
| Managers.CalculateAvailableTransfers | src/main/java/FPLManager/model/Manager.java:48-70 | the nested loops compute the balance, which lies in 0..5 and is 1 when no week has started |
| Managers.ChargesInsert | src/main/java/FPLManager/model/Manager.java:59-63 | an inserted record adds one charge to its own week, unless exempt, and none to any other week |
| Managers.UnchargedRecordIgnored | src/main/java/FPLManager/model/Manager.java:59-63 | a record in the exempt week, or outside weeks 1 to nextGW, leaves the balance unchanged |
| Managers.ExtraRecordNeverHelps | src/main/java/FPLManager/model/Manager.java:55-68 | an additional transfer record never increases the balance |
| Managers.NoTransfersAccrue | src/main/java/FPLManager/model/Manager.java:55-68 | with no transfers the balance is 1 before week 1, then the week number plus one, capped at 5 |
| Managers.ChipEntry | src/main/java/FPLManager/model/Manager.java:80-96 | a non-wildcard chip is used iff recorded; the wildcard is used iff recorded and both weeks are below 18 or both above; a used chip carries its recorded week |
| Managers.ChipTable | src/main/java/FPLManager/model/Manager.java:77-99 | the table has exactly the five chip names as keys, each mapped to its entry |
| Managers.WildcardBoundaryAvailable | src/main/java/FPLManager/model/Manager.java:83-90 | when the next gameweek or the wildcard's week is 18, the wildcard is available |
| Managers.ProcessChipsAvailable | src/main/java/FPLManager/model/Manager.java:77-99 | the loop over the chip names builds exactly the chip table |
| Managers.WildcardWeekAsWired | src/main/java/FPLManager/model/Manager.java:50-54 | the guard as written never yields a wildcard week, whatever the chip table holds |
| Managers.WildcardExemptionNeverApplies | src/main/java/FPLManager/model/Manager.java:50-63 | a wildcard played in week 5 is Used(5), yet a transfer in week 5 leaves 4 free transfers where the exemption would leave 5 |
| Managers.Kept | src/main/java/FPLManager/model/Manager.java:111-133 | an id is kept iff it is on the roster, has catalog data and a known position |
| Managers.Assembled | src/main/java/FPLManager/model/Manager.java:111-136 | one player per kept id, in roster order, with the position of its data, built as `PlayerOf` builds it |
| Managers.SquadOrdered | src/main/java/FPLManager/model/Manager.java:137 | the sorted squad is sorted, a permutation of the assembled players, and stable per position |
| Managers.SquadMembers | src/main/java/FPLManager/model/Manager.java:111-137 | every squad member has a roster id with catalog data and a known position |
| Managers.CreateTeamPlayers | src/main/java/FPLManager/model/Manager.java:107-140 | the squad is the stable position sort of the assembled players: sorted, a permutation, stable, and made of kept ids with known positions |
| Managers.Manager.constructor | src/main/java/FPLManager/model/Manager.java:30-41 | for the API object of the same manager id, the snapshot copies id, next gameweek, name and roster, computes the chip table before the ledger, and its balance lies in 0..5 with no week exempt |
| Api.FirstNotFalse | src/main/java/FPLManager/model/FPLAPI.java:107-112 | every event before the index is marked not-next, and the event at the index, if any, is not |
| Api.FirstNextDecided | src/main/java/FPLManager/model/FPLAPI.java:104-115 | the scan gives -1 when every event is not-next, otherwise the id of the first other event if it is marked next and has an id, and a NullPointerException if not |
| Api.TeamNameOf | src/main/java/FPLManager/model/FPLAPI.java:122-129 | the name is returned iff the response and its name exist; a missing name is IllegalState("Cant find name") |
| Api.PickElements | src/main/java/FPLManager/model/FPLAPI.java:150-154 | the roster lists each pick's element, in pick order |
| Api.PickedIds | src/main/java/FPLManager/model/FPLAPI.java:137-155 | a missing response is IllegalState("Cant find team"), missing picks an IllegalArgument, otherwise the picked ids in order |
| Api.RosterCatalog | src/main/java/FPLManager/model/FPLAPI.java:168-174 | the catalog only holds roster ids, each mapped to an element with that id |
| Api.RosterCatalogLastWins | src/main/java/FPLManager/model/FPLAPI.java:169-173 | a roster id is in the catalog iff some element has that id, and it maps to the last such element |
| Api.PlayerData | src/main/java/FPLManager/model/FPLAPI.java:160-177 | the catalog holds roster ids only, and is empty when the response or its elements are missing |
| Api.TransferGameweeks | src/main/java/FPLManager/model/FPLAPI.java:199-204 | the history lists each transfer's gameweek, in response order |
| Api.ChipFoldKeys | src/main/java/FPLManager/model/FPLAPI.java:218-226 | a chip name is recorded iff some record with both name and week names it |
| Api.ChipFoldLastWins | src/main/java/FPLManager/model/FPLAPI.java:218-226 | a recorded chip maps to the week of the last complete record naming it |
| Api.ChipsUsed | src/main/java/FPLManager/model/FPLAPI.java:210-229 | no chips are recorded when the response or its chip list is missing |
| Api.Grouped | src/main/java/FPLManager/model/FPLAPI.java:239-252 | only gameweeks from the next one on are keys, each with at least one match |
| Api.GroupedByGameweek | src/main/java/FPLManager/model/FPLAPI.java:239-252 | a gameweek is a key iff it is at least the next one and has a fixture, and its list is its fixtures in response order |
| Api.RemainingFixtures | src/main/java/FPLManager/model/FPLAPI.java:236-255 | the grouped fixtures only hold non-empty gameweeks from the next one on, and are empty when the request failed |
| Api.FPLAPI.constructor | src/main/java/FPLManager/model/FPLAPI.java:34-35 | a new object holds the manager id and Java's default field values |
| Api.FPLAPI.SetNextGW | src/main/java/FPLManager/model/FPLAPI.java:104-115 | the loop sets the next gameweek to the scan's result, or fails with its exception and leaves the field |
| Api.FPLAPI.SetTeamName | src/main/java/FPLManager/model/FPLAPI.java:122-129 | sets the team name, or fails with the missing-name exception and leaves the field |
| Api.FPLAPI.SetTeamPlayers | src/main/java/FPLManager/model/FPLAPI.java:137-155 | sets the roster to the picked ids, or fails with the response's exception |
| Api.FPLAPI.SetPlayerData | src/main/java/FPLManager/model/FPLAPI.java:160-177 | the loop over the elements builds exactly the roster catalog |
| Api.FPLAPI.SetTransferHistory | src/main/java/FPLManager/model/FPLAPI.java:195-205 | the loop builds exactly the list of transfer gameweeks |
| Api.FPLAPI.SetChips | src/main/java/FPLManager/model/FPLAPI.java:210-229 | the loop builds exactly the chip-to-week map |
| Api.FPLAPI.SetRemainingFixtures | src/main/java/FPLManager/model/FPLAPI.java:236-255 | the loop builds exactly the fixtures grouped by gameweek from the next one on |
| Api.FPLAPI.Load | src/main/java/FPLManager/model/FPLAPI.java:34-44 | the setters run in order, succeed iff the first three do, and then every field holds its response's value |
| Directory.TeamRowOf | src/main/java/FPLManager/model/DataManager.java:47-55 | a line gives a team iff it has exactly three `;` parts |
| Directory.TeamRowsAppend | src/main/java/FPLManager/model/DataManager.java:41-56 | the rows of two runs of lines are the rows of each, in order |
| Directory.RowLineFields | src/main/java/FPLManager/model/DataManager.java:47 | a row written as id;name;short with `;`-free fields splits back into those three fields |
| Directory.TeamRowRoundTrip | src/main/java/FPLManager/model/DataManager.java:47-54 | a row written as id;name;short with clean fields is read back as that name and short code |
| Directory.LoadTeams | src/main/java/FPLManager/model/DataManager.java:32-61 | the loop skips the header and keeps, in order, the team of every well-formed line |
| Directory.ScanRowsFirstHit | src/main/java/FPLManager/model/DataManager.java:96-110 | a found id comes from a line naming the query, and every earlier line was skipped |
| Directory.ScanRowsAppend | src/main/java/FPLManager/model/DataManager.java:96-110 | a line added at the end is only reached when every earlier line is skipped |
| Directory.ScanRowsDecidedAt | src/main/java/FPLManager/model/DataManager.java:96-110 | when every line before k is skipped and line k is not, line k decides the lookup |
| Directory.UserLineFields | src/main/java/FPLManager/model/DataManager.java:74 | an appended line for a comma-free name splits into the name and the decimal id |
| Directory.UserLineHit | src/main/java/FPLManager/model/DataManager.java:102-107 | an appended line for a clean name is a hit for that name with the id written |
| Directory.AddThenFind | src/test/java/FPLManager/model/DataManagerTest.java:50-56 | after adding a user, looking the name up finds the id added, when the file has a header and no earlier line decides |
| Directory.AddToEmptyFileNotFound | src/main/java/FPLManager/model/DataManager.java:95-101 | a line appended to an empty file becomes the header and is not found |
| Directory.NotFoundValueAmbiguous | src/main/java/FPLManager/model/DataManager.java:106-114 | a user stored with the not-found id gives the same answer as no user |
| Directory.BadNumberBeforeMatch | src/main/java/FPLManager/model/DataManager.java:105-106 | a two-field line with a malformed id, before the matching line, makes the lookup a NumberFormatException whatever its name |
| Directory.ScanUsers | src/main/java/FPLManager/model/DataManager.java:95-114 | the loop returns the first hit, fails on the first malformed id, or returns the not-found value |
| Directory.DataManager.constructor | src/main/java/FPLManager/model/DataManager.java:23-25 | the teams are the loaded directory |
| Directory.DataManager.AddUser | src/main/java/FPLManager/model/DataManager.java:69-79 | the user file gains exactly one line, name, comma and id, at its end |
| Directory.DataManager.FindUser | src/main/java/FPLManager/model/DataManager.java:87-115 | the lookup scans the current user file with -1 as the not-found value |
| LegacyPlayers.AttributesOf | src/main/java/FPLManager/Player.java:49-62 | the attributes exist iff the data, both transfer counts and the team are present, otherwise a NullPointerException; missing name parts read "null", missing chance and points read 0, and the balance is wrapped in minus out |
| LegacyPlayers.PairOf | src/main/java/FPLManager/Player.java:77-85 | a match adds a pair iff the team plays in it, and nothing otherwise |
| LegacyPlayers.Pairs | src/main/java/FPLManager/Player.java:75-86 | a gameweek's list has even length, at most two entries per match |
| LegacyPlayers.PairsFlags | src/main/java/FPLManager/Player.java:78-84 | every second entry of a list is the home flag 1 or the away flag 0 |
| LegacyPlayers.PairsAppend | src/main/java/FPLManager/Player.java:75-86 | the list of two runs of matches is the list of each, in order |
| LegacyPlayers.PairsAt | src/main/java/FPLManager/Player.java:75-86 | each match contributes its own pair at its own place |
| LegacyPlayers.FixturesOf | src/main/java/FPLManager/Player.java:70-90 | the fixtures exist iff every gameweek from the next to 38 has a list of complete matches; the keys are exactly those gameweeks, each with an even-length list |
| LegacyPlayers.HomeMatchPair | src/main/java/FPLManager/Player.java:77-80 | a home match against an opponent puts [opponent, 1] at its place in the gameweek |
| LegacyPlayers.AwayMatchPair | src/main/java/FPLManager/Player.java:81-84 | an away match against an opponent puts [opponent, 0] at its place in the gameweek |
| LegacyPlayers.Player.constructor | src/main/java/FPLManager/Player.java:37-39 | a new player holds its id, next gameweek and Java's default values |
| LegacyPlayers.Player.SetAttributes | src/main/java/FPLManager/Player.java:49-62 | sets the attributes, or fails with a NullPointerException, leaving id, gameweek and fixtures |
| LegacyPlayers.GameweekPairs | src/main/java/FPLManager/Player.java:75-86 | the loop over one gameweek's matches gives exactly that gameweek's pairs, and fails with a NullPointerException exactly when some match misses a team |
| LegacyPlayers.BuiltFixtures | src/main/java/FPLManager/Player.java:71-88 | one list per gameweek from the next one to 38, each the pairs of that gameweek, is exactly the fixture map |
| LegacyPlayers.Player.SetFixtures | src/main/java/FPLManager/Player.java:70-90 | the loop over gameweeks builds exactly the fixture map, or fails with a NullPointerException and leaves the old map |
| LegacyPlayers.Create | src/main/java/FPLManager/Player.java:37-42 | a player is built iff attributes and fixtures are defined, with both computed from its data |
| LegacyManagers.Lookup | src/main/java/FPLManager/Manager.java:108 | the lookup gives the catalog element iff the id is a key |
| LegacyManagers.Manager.constructor | src/main/java/FPLManager/Manager.java:29-36 | a new manager holds its id, gameweek, name and roster |
| LegacyManagers.Manager.SetChipsAvailable | src/main/java/FPLManager/Manager.java:76-97 | the chip table is that of the model package |
| LegacyManagers.Manager.SetAvailableTransfers | src/main/java/FPLManager/Manager.java:47-69 | the balance is the ledger with no exempt week, in 0..5 |
| LegacyManagers.Manager.SetTeamPlayers | src/main/java/FPLManager/Manager.java:105-112 | succeeds iff every roster id builds a player, then holds one distinct new player per id in roster order; otherwise a NullPointerException |
| LegacyManagers.Create | src/main/java/FPLManager/Manager.java:29-40 | the manager is built iff the squad builds, with the chip table, the ledger and the squad of its data |
| LegacyDirectory.TeamNameOf | src/main/java/FPLManager/DataManager.java:45-49 | a line gives a name iff it has exactly two `;` parts, and the name is the trimmed second part |
| LegacyDirectory.TeamNamesAppend | src/main/java/FPLManager/DataManager.java:40-50 | the names of two runs of lines are the names of each, in order |
| LegacyDirectory.TeamNameRoundTrip | src/main/java/FPLManager/DataManager.java:45-49 | a row written as id;name with a clean name is read back as that name |
| LegacyDirectory.ThreeFieldRowSkipped | src/main/java/FPLManager/DataManager.java:46 | a row in the three-field id;name;short format is skipped |
| LegacyDirectory.SetTeams | src/main/java/FPLManager/DataManager.java:31-54 | the loop skips the header and keeps, in order, the name of every well-formed line |
| LegacyDirectory.ZeroIdAmbiguous | src/main/java/FPLManager/DataManager.java:100-108 | a user stored with id 0 gives the same answer, 0, as no user |
| LegacyDirectory.DataManager.constructor | src/main/java/FPLManager/DataManager.java:24-26 | the teams are the loaded names |
| LegacyDirectory.DataManager.AddUser | src/main/java/FPLManager/DataManager.java:62-73 | the user file gains exactly one line, name, comma and id, at its end |
| LegacyDirectory.DataManager.FindUser | src/main/java/FPLManager/DataManager.java:81-109 | the lookup scans the user file like the model package, with 0 as the not-found value |

## Left out

- HTTP requests and JSON decoding: each API response arrives as a decoded value, `None` when the request or decoding failed. The legacy root-package `FPLAPI` is not part of this model: it has only a private constructor and none of the getters the root `Manager` calls, so that `Manager` does not compile as written.
- `DeadlineHandler`, the deadline string and `setNextGWInfo`: they only pass text to the UI.
- Floating-point attributes (cost change, price, expected goals and assists, clean sheets): they are not modelled. So neither are the NullPointerException or ClassCastException of their missing or mistyped keys in the legacy `setAttributes`.
- Files, class-path resources and writers: each file is its sequence of lines. The different read and write paths (`users.txt` is written under `src/main/resources` but read from the class path) are not modelled, and neither are IO errors.
- The UI classes (controllers and the JavaFX apps) and `ManagerData`.
- `Integer.parseInt` of non-ASCII digits: only `0`-`9` are digits here.
- Line breaks inside names, and the line-separator rules of `Scanner` and `BufferedReader`.
- Null elements inside lists (a null pick, transfer, chip record or match), a null transfer `event`, a null pick `element` and a null element `id`: their NullPointerExceptions are not modelled. `Api.Pick` and `Players.Element` carry a plain `int`, so a pick without an element, which the model package's `Manager` constructor would unbox and fail on, and an element without an id cannot be expressed.
- The loop over gameweeks never ending when the next gameweek is `Integer.MAX_VALUE`: integers are unbounded here.
- Players.TeamName: an out-of-range team id is an IndexOutOfBoundsException in Java; here it is a precondition, as are the directory lookups of `ProcessFixtures`, `PlayerOf` and `CreateTeamPlayers`.
- Api.FPLAPI.Load: the constructor's exceptions end the construction in Java; here they are `Load`'s `Fail` outcome on an already-allocated object.
- Managers.Manager.constructor: takes an already-loaded `FPLAPI` and the team directory instead of creating them.
- LegacyPlayers.Player.SetAttributes: on a NullPointerException the fields already assigned are not stated, because the object under construction is then unreachable.
- LegacyManagers.Manager.SetTeamPlayers: on a NullPointerException the partial squad is not stated, for the same reason.
- LegacyManagers.Manager.constructor, LegacyManagers.Create: the values of the missing root-package `FPLAPI` getters are parameters, the fields of `LegacyManagers.ManagerData`. They are assumed to be what the model package's `FPLAPI` fetches for the same manager; the source supplies no such values.
- LegacyManagers.Manager.constructor: the chip table starts empty rather than null, which the transfer guard treats alike.
