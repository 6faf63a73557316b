# nba-etl, modelled in Dafny

The repository runs two ETL scripts that feed an NBA picks database.

- **The leaders pipeline (`players.py`).** It takes the league leaders table and keeps the first leader of every team. It requires all 30 teams and looks up each kept player's next game. It left-joins those four matchup cells back onto every leader by `TEAM_ID`, stopping if the join produced duplicates. It adds per-game rates and the matchup time in UTC, and resolves each player's opponent. It drops the players without one and projects and lower-cases fourteen columns. It stops unless at least 400 rows remain.
- **The scores pipeline (`scores.py`).** It takes the season's schedule (`SEASON_ID` `22023`), de-duplicated on (`GAME_ID`, `GAME_DATE`), and keeps yesterday's games. Having none is fatal. It fetches and stacks each game's box score stamped with its date; one failed fetch is fatal. It then cleans the result:
  - the numeric columns are coerced, with 0 for what does not parse;
  - every other column becomes text;
  - `TO` is renamed `TOS` and all names are lower-cased;
  - the counting columns are cast to integers;
  - each row gets the identity `player_id + "_" + game_id`.

In both scripts a `log(..., "ERROR")` ends the process. Here it is the `Exit(message)` case of a `Result`, propagated with `:-` (`Etl.Log`).

## Modules

- `Etl` holds `Option`, `Result`, the log levels and `Log`.
- `Tables` holds generic sequence operations. These are the order-preserving filter, keep-first-by-key (`groupby().head(1)` and `drop_duplicates`), key sets and a row-wise map.
- `Text` holds lower-casing, Python's `str` of an integer (with its inverse) and the underscore-joined identity.
- `Frames` holds a column-major table: a map from column name to a column of cells, all of the same height. It also holds pandas' `concat`, which fills NaN where a frame lacks a column, and the stamping of a constant column.
- `Players` models `players.py`. Its tables are sequences of typed records, holding only the columns the script reads or uploads.
- `Scores` models `scores.py` up to the cleaning. This covers the schedule, yesterday's games, the box-score loop, and `main` as `ScoresPipeline` and `RunScores`.
- `Cleaning` models `get_clean_box_scores`. It is written for any `Plan`, meaning any numeric and integer column lists, any skip list and any renaming. Its lemmas hold for every plan that satisfies `PlanFits`. `BoxScorePlanFits` proves that the script's own plan satisfies it.

Where the script works step by step, the model does too:
- the matchup loop writes cells of an array in place (`GetNextMatchupByPlayer`);
- the box-score loop accumulates a table (`GetBoxScores`);
- the cleaning runs three column loops over a map (`CoerceListedColumns`, `StringifyOtherColumns`, `CastListedColumns`).

Each of these methods is proved equal to a specification function, and the properties are proved about that function.

Remote calls are parameters of the model:
- the next-game lookup (`NextGamesLookup`);
- the box-score fetch (`BoxScoreFetch`);
- the schedule finder's answer (an `Option`, where `None` means the call raised);
- the Eastern-to-UTC conversion (`UtcConversion`);
- `pd.to_numeric`'s parsing of text and `str` of a float (`Conversions`);
- yesterday's date, passed in as a string.

A matchup lookup that raises or comes back empty leaves the four matchup cells of that team's leaders missing (`NextMatchup`, `ReductionPreventsFanOut`). Their date and time then reach the UTC conversion at players.py:107-112 as missing values. Localizing such a missing timestamp most likely raises, and the `except` at players.py:118-119 then ends the run with "An error occurred". `MissingMatchupStopsRun` proves that outcome for any conversion that raises on missing cells. The model leaves this case to the `UtcConversion` parameter rather than fixing it. If the conversion does not raise, those leaders have no opponent and are dropped at the filter (`FindOpposingMatchup`, `OpponentRowsMembers`).

## Model

| member | source | states |
|---|---|---|
| Etl.Log | scores.py:10-16 | a log exits exactly at level ERROR, carrying its message; any other level lets the step go on with its value |
| Tables.Filter | scores.py:57-58 | boolean indexing keeps exactly the rows that satisfy the mask, as a subsequence in input order |
| Tables.FilterCount | scores.py:57-58 | the selection keeps every copy of a row that satisfies the mask and none of one that does not |
| Tables.KeepFirstBy | players.py:34 | keep-first-by-key yields a subsequence with distinct keys covering every key not already seen, and each kept row is the first row of its key in the input |
| Tables.KeepFirstMatchesRef | scores.py:35 | keep-first-by-key equals an independent definition: the rows whose key no earlier row has |
| Tables.KeepFirstByCount | players.py:34-35 | the reduction keeps one row per distinct key, so its length is the number of distinct keys |
| Tables.FirstWithKey | players.py:34 | the first row of a key exists exactly when the key occurs, and it has that key |
| Text.Lower | players.py:143 | lower-casing maps each character to its lower-case letter (A-Z to a-z, all else kept), so it keeps the length, leaves no upper-case letter and changes nothing already lower case |
| Text.DecimalString | scores.py:121 | `str` of an integer is a non-empty optional minus and digits, with no underscore, no leading zero and no "-0" |
| Text.DecimalRoundTrip | scores.py:121 | reading back `str(i)` gives `i` |
| Text.DecimalInjective | scores.py:121 | different integers have different decimal texts |
| Text.CompositeId | scores.py:121 | the identity is the player text, an underscore at that position, then the game text |
| Text.CompositeIdInjective | scores.py:121 | when neither player text holds an underscore, equal identities mean the same player and the same game |
| Text.LowerNames | players.py:143 | `columns.str.lower()` lower-cases every name in place and keeps their number |
| Frames.ColumnOrNaN | scores.py:83 | a column of the frame, or NaN on every row when the frame lacks it |
| Frames.Concat | scores.py:83 | concatenation adds the heights, takes the union of the columns and puts each column's cells (or NaN) of the first frame above those of the second |
| Frames.ConcatColumn | scores.py:83 | column by column, a concatenation is the first frame's column followed by the second's, NaN-padded |
| Frames.ConcatEmpty | scores.py:74 | concatenating onto the empty starting frame gives the second frame |
| Frames.Stamp | scores.py:81 | setting a constant column keeps the height and every other column, and writes the value on every row |
| Players.ReduceToOnePlayerPerTeam | players.py:31-42 | succeeds exactly when the leaders cover 30 teams; it then yields the first leader of each team, in order, with distinct team ids, all input rows; otherwise exits with the 30-teams message |
| Players.TeamRepresentative | players.py:34 | the kept leader of a leader's team is an input row of that team |
| Players.NextMatchup | players.py:61-69 | the four cells stay missing exactly when the lookup raised or returned no rows; otherwise they hold the first row's home, visitor, date and time |
| Players.AttachMatchupsShape | players.py:48-74 | attaching matchups keeps the row count and each row's team id, leaves cells missing exactly for failed or empty lookups, and keeps team ids distinct |
| Players.GetNextMatchupByPlayer | players.py:44-76 | the in-place loop over an array of rows yields `AttachMatchups`: row for row, each team id with its looked-up matchup |
| Players.JoinRow | players.py:82 | a leader row becomes as many rows as it has matches, or one row when nothing matches |
| Players.LeftJoin | players.py:82 | a left join has at least as many rows as the leaders |
| Players.LeftJoinLength | players.py:82-85 | the join keeps the leaders' row count exactly when no team has more than one right-hand row |
| Players.LeftJoinRows | players.py:82 | without fan-out, row i of the join is leader i with the matchup of its team, or missing cells |
| Players.DistinctRightMatchesOnce | players.py:82 | distinct team ids on the right give every team at most one match |
| Players.MergeNextMatchupsWithLeagueLeaders | players.py:78-92 | exits with the duplicates message exactly when some team fans out; otherwise row i is leader i with its team's matchup |
| Players.DistinctRightNeverGrows | players.py:82-89 | with distinct team ids on the right, the duplicates check never fires |
| Players.ReductionPreventsFanOut | players.py:31-89 | after a successful reduction the merge always succeeds, keeps every leader in order, and gives each the matchup looked up for its team's first leader |
| Players.PerGame | players.py:98-104 | a rate exists exactly when GP is non-zero, and then times GP gives the total |
| Players.RatesOf | players.py:98-104 | the seven rates all exist exactly when GP is non-zero, each then times GP giving its total; with GP 0 all are missing |
| Players.CleanPlayersDf | players.py:94-119 | exits with the generic message exactly when the conversion of some row's matchup date and time raises; otherwise every row keeps its leader and matchup and gains its seven rates and the converted MATCHUP_DATETIME |
| Players.FindOpposingMatchup | players.py:123-129 | home is checked first and gives away; otherwise away gives home; a team on neither side gets none |
| Players.OpponentInvolution | players.py:123-129 | in a game between two different teams, the opponent differs from the team and the opponent's opponent is the team |
| Players.DbColumns | players.py:140-143 | the upload columns are the fourteen projected names, each lower-cased |
| Players.DropMissingOpponent | players.py:137 | `dropna` keeps exactly the rows with an opponent, every copy of each, in input order |
| Players.OpponentRows | players.py:134-140 | every surviving projected row (`AddOpponent`, then `ForDb`) has an opponent; they form a subsequence of all projected rows, as many as the rows with an opponent |
| Players.OpponentRowsMembers | players.py:134-140 | a row survives exactly when it is the projection of a cleaned row whose team plays in its next matchup |
| Players.AddOpponentColumn | players.py:121-153 | exits with the not-enough-rows message exactly when fewer than 400 rows survive; otherwise returns those rows, each with an opponent |
| Players.LeadersPipelineOutcome | players.py:189-195 | the leaders run (`LeadersPipeline`, main up to the upload) stops only at the team check, an unconvertible time or the 400-row check, never at the duplicates check; on success it started from leaders covering 30 teams, and what it hands on has at least 400 rows, each with an opponent |
| Players.MissingMatchupStopsRun | players.py:107-119 | when a team's representative has no next game and the conversion raises on missing cells, the leaders run ends with "An error occurred" |
| Scores.GetSchedule | scores.py:23-44 | exits with the generic message exactly when the finder raised; otherwise the pairs are distinct and a subsequence of the projected rows |
| Scores.GetScheduleMembers | scores.py:32-37 | a pair is in the schedule exactly when some in-season row has it |
| Scores.GetScheduleKeepsFirst | scores.py:35-37 | the schedule is the projection of the in-season rows that no earlier in-season row shares a pair with |
| Scores.ReduceScheduleToYesterday | scores.py:47-67 | exits with the no-games message exactly when no game is dated yesterday; otherwise keeps exactly yesterday's games, in order |
| Scores.GetBoxScores | scores.py:70-91 | the loop yields `AccumulateBoxScores`, the accumulation game by game of the schedule, stopping at the first fetch that raised |
| Scores.PrefixFailurePersists | scores.py:84-86 | once a fetch has failed, the later games do not change the outcome |
| Scores.BoxScoresFailure | scores.py:77-86 | the step succeeds exactly when every fetch succeeds, and otherwise exits with the fetch message |
| Scores.AccumulateSnoc | scores.py:80-83 | one more good fetch stacks its stamped box score below the table so far |
| Scores.BoxScoresKeys | scores.py:83 | the accumulated table has exactly the union of the games' columns and GAME_DATE |
| Scores.BoxScoresColumns | scores.py:77-83 | every column of the accumulated table is the games' cells one below the other, in schedule order, NaN where a game lacks it |
| Scores.BoxScoresStack | scores.py:74-89 | with every fetch good, the accumulation succeeds with the stacked columns over the union of the names |
| Scores.SingleGame | scores.py:74-83 | a one-game schedule whose fetch succeeds gives that game's box score stamped with its date |
| Scores.StackedDatesStamp | scores.py:81 | the stacked GAME_DATE column is the stacked dates |
| Scores.BoxScoresDates | scores.py:81-83 | every accumulated row carries the date of the game it came from |
| Scores.StackedNamesStayDistinct | scores.py:111-112 | when no two header names of any box score clean to the same name, neither do the stacked table's |
| Scores.CleanedBoxScores | scores.py:161-162 | a failed accumulation passes its exit on; a successful one keeps distinct cleaned names and goes through the cleaning |
| Scores.RunScores | scores.py:158-162 | the step-by-step run, with the loops, equals the scores pipeline |
| Scores.CleanedBoxScoresOutcome | scores.py:93-128 | the box-score cleaning stops with the fetch message or the generic message; its table has an id column and lower-case names |
| Scores.ScoresPipelineOutcome | scores.py:158-162 | the scores run (`ScoresPipeline`, main up to the upload) stops only with the schedule, empty-day or fetch messages, with the generic message when the finder raised; what it hands on has an id column and lower-case names |
| Cleaning.Coerce | scores.py:103 | numbers are left alone, text becomes its parsed number or 0 when it does not parse, and a missing or NaN cell becomes 0 |
| Cleaning.CoerceColumn | scores.py:103 | coercion works cell by cell and keeps the height |
| Cleaning.CoerceTwice | scores.py:103 | coercing again changes nothing |
| Cleaning.StringifyColumn | scores.py:108 | `astype(str)` turns every cell into its text (`AsText`, `str` of one cell) and keeps the height |
| Cleaning.Truncate | scores.py:119 | `int` of a float rounds toward zero |
| Cleaning.CastColumn | scores.py:119 | `astype(int)` truncates every number cell by cell (`CastValue`) and keeps the height |
| Cleaning.CastTwice | scores.py:119 | casting again changes nothing |
| Cleaning.CleanName | scores.py:111-112 | TO becomes tos, and every other name becomes its lower-cased self |
| Cleaning.CoerceColumns | scores.py:102-103 | coercing the listed columns keeps the column names and the heights |
| Cleaning.CoercedColumn | scores.py:102-103 | after the first loop a column holds its coerced cells if it is listed, however often, and its own cells otherwise |
| Cleaning.OtherColumns | scores.py:106 | the text columns are exactly the table's columns outside the numeric list |
| Cleaning.StringifyColumns | scores.py:106-108 | converting to text keeps the column names and the heights |
| Cleaning.StringifyStep | scores.py:107-108 | converting one more column to text extends the conversion of the others |
| Cleaning.RenameColumns | scores.py:111-112 | the columns are the renamed names, each holding its old cells, with the same height |
| Cleaning.CastColumns | scores.py:117-119 | the cast keeps the column names and the heights |
| Cleaning.CastColumnAt | scores.py:117-119 | after the cast a column holds its cast cells when it is listed and not a percentage, and its own cells otherwise |
| Cleaning.IdentityColumn | scores.py:121 | row i of `id` is the text of the player id, an underscore and the text of the game id |
| Cleaning.AddIdentity | scores.py:121 | exits with the generic message exactly when player_id or game_id is missing; otherwise adds `id` with every other column unchanged |
| Cleaning.CoerceListedColumns | scores.py:102-103 | the first loop exits exactly when a listed column is missing, and otherwise yields the coerced columns |
| Cleaning.StringifyOtherColumns | scores.py:106-108 | the second loop converts exactly the other columns to text, in any order |
| Cleaning.CastKeepsCastable | scores.py:117-119 | while every column cast so far was castable, the partial cast does not change which columns are castable |
| Cleaning.CastListedColumns | scores.py:117-119 | the third loop exits exactly when a listed non-percentage column is missing or not numeric, and otherwise yields the cast columns |
| Cleaning.PrepareColumns | scores.py:98-112 | the first three steps exit exactly when a numeric column is missing, and otherwise yield the prepared columns |
| Cleaning.CastTable | scores.py:98-119 | the four column steps together yield the cast stage of the cleaning |
| Cleaning.CleanTable | scores.py:93-128 | the cleaning, step by step, equals `CleanedTable`, the cast stage followed by the identity step, for any plan |
| Cleaning.CleanBoxScores | scores.py:93-128 | get_clean_box_scores equals the specified cleaning with the script's own column lists and renaming |
| Cleaning.BoxScorePlanFits | scores.py:98-121 | the script's plan fits: cleaned names are lower case, every cast column is the cleaned name of a numeric column, and no numeric column becomes id, player_id or game_id |
| Cleaning.IntegerColumnsAreNumeric | scores.py:98-115 | every column listed for the cast is the cleaned name of a listed numeric column |
| Cleaning.IntegerSourcesMatch | scores.py:98-115 | each integer column is the cleaned name of the numeric column at its entry of `IntegerSources` |
| Cleaning.NumericNamesReserved | scores.py:98-121 | no numeric column is cleaned into id, player_id or game_id |
| Cleaning.PreparedColumn | scores.py:102-112 | after three steps a numeric column holds its coerced cells and any other its text, under its new name |
| Cleaning.CastPreparedColumn | scores.py:102-119 | after the cast a column holds its prepared cells, cast when the cast converts it |
| Cleaning.PreparedKeys | scores.py:106-112 | the prepared columns are the renamed columns of the box scores |
| Cleaning.CoercedCells | scores.py:103-119 | a coerced column holds only numbers, and casting it gives only integers |
| Cleaning.CleanShape | scores.py:111-121 | a cleaned table keeps the height and has exactly the renamed columns plus `id`, all lower case |
| Cleaning.CleanOutcome | scores.py:93-128 | for any fitting plan the cleaning stops only with the generic message; its table has `id` and lower-case names |
| Cleaning.CleanBoxScoresOutcome | scores.py:93-128 | the same for the script's own plan |
| Cleaning.CleanNumericColumn | scores.py:98-119 | every numeric column comes out coerced, all numbers, and integers when the cast lists it (so the percentages keep their fractions) |
| Cleaning.CleanTextColumn | scores.py:106-112 | every other column comes out as the text of its cells |
| Cleaning.CleanIdentity | scores.py:121 | the `id` of each row is built from the original player id and game id cells |
| Cleaning.TextIdentity | scores.py:108-121 | building `id` from the text of the ids gives the same column as from the ids |
| Cleaning.IdentityColumnInjective | scores.py:121 | with integer player ids, two rows share an identity exactly when they share the player and the game id text |
| Cleaning.IdentityInjective | scores.py:121 | the same for the cleaned table's `id` column |
| Cleaning.CastSucceeds | scores.py:115-119 | when every numeric column is there, the integer cast cannot raise |
| Cleaning.RenamedMember | scores.py:111-112 | a name is a renamed name exactly when some column is renamed to it |
| Cleaning.CastStageOutcome | scores.py:98-119 | the steps before the identity stop exactly when a numeric column is missing, and keep every column under its new name |
| Cleaning.IdentityStep | scores.py:121 | the identity step fails exactly when player_id or game_id is missing after the cast |
| Cleaning.CleanFailure | scores.py:93-128 | the cleaning exits, with the generic message, exactly when a numeric column is missing or no column becomes player_id or game_id |

## Left out

- Fetching the league leaders (players.py:21-29) is not modelled. The leaders table is an input of `Players.LeadersPipeline`, and a failed fetch is not represented.
- The remote endpoints are parameters: `LeagueGameFinder`, `PlayerNextNGames` and `BoxScoreTraditionalV2`. A raised call is `None`.
- The Supabase client, the credentials, the delete and the per-row inserts (players.py:155-185, scores.py:130-155) are I/O. The pipelines end at the table that would be uploaded.
- The clock is not modelled. `date.today()` becomes the `yesterday` parameter, and the timestamps of `log` are left out.
- Printing, `section` and `sys.exit` itself are left out; only the outcome of an ERROR log is kept.
- The `print` of a failed matchup lookup is left out. The loop simply moves on.
- Players.PerGame: the rates are exact reals, not floats. The infinity or NaN pandas gives for GP 0 is `None`.
- Parsing the matchup date and time, the US/Eastern to UTC conversion and the ISO formatting are the `UtcConversion` parameter. A raised conversion is fatal.
- Players.CleanPlayersDf: what pytz does with a missing timestamp is not fixed by the model. `UtcConversion` takes the date and time cells, missing ones included, and decides whether the conversion raises.
- `pd.to_numeric` and float `str` are the `Conversions` parameter. Cleaning.Coerce: a minutes string such as `12:34` becomes 0 only if that parameter says it does not parse.
- pandas dtype inference is not modelled. Integers and floats are distinct cell kinds (`Int`, `Num`), and text is `Str`. A float column that is then cast to `int` is modelled by `CastColumn`.
- Cleaning.CastSucceeds: the model's parse yields only finite reals, so a coerced cell is never infinite. In pandas, text such as `inf` parses to infinity, which `fillna(0)` keeps, and `astype(int)` at scores.py:119 then raises. The model does not capture this exit.
- Cleaning.CastStageOutcome: for the same reason, it does not include the exit on an infinite coerced cell. Its cast does not wrap values beyond the int64 range either; they stay unbounded integers.
- Cleaning.CleanFailure: its "exactly when" leaves out the same two cases: the `astype(int)` exit on an infinite cell, and int64 overflow of a very large value.
- Text.Lower: it lower-cases ASCII letters only. Python's `str.lower` at scores.py:112 also lower-cases other letters, and can lengthen a string (`İ` becomes two characters). Any non-ASCII header name is therefore not lower-cased as Python would.
- Column order is not modelled. A frame maps names to columns, so the projection in players.py:140 is a record and the order of its names is kept only in `DbColumns`.
- Cleaning.CleanBoxScores: it requires that no two columns get the same cleaned name. A map cannot hold the duplicated label pandas would produce.
- Scores.ScoresPipeline: it requires `HeadersStayDistinct` of the fetch for the same reason.
- Scores.RunScores: same requirement and reason.
- Players.GetNextMatchupByPlayer: the in-place writes go to an array of rows local to the method. The caller's table is not aliased, so a later caller does not see the added columns.
- Players.CleanPlayersDf and Players.AddOpponentColumn: the columns pandas adds in place to the caller's frame are new fields of new rows.
- Cleaning.StringifyOtherColumns: the order in which Python's set yields the columns is left open. Any order gives the same table.
- Raised calls are modelled as `None` results that the step turns into its exit: the game finder (`GetSchedule`), the box-score fetch (`GetBoxScores`) and the datetime conversion (`CleanPlayersDf`). The matchup lookup raising is also a `None`, which the loop skips (`NextMatchup`). Failures inside the cleaning are the generic exit: the KeyError on a missing column and a failed `astype(int)`. Any other exception inside a `try`, such as a malformed answer from an API, is not modelled.
