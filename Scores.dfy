/** scores.py: yesterday's games, their box scores, and the cleaning that
    prepares them for the player_game_stats table. */
module Scores {
  import opened Etl
  import opened Tables
  import opened Text
  import opened Frames
  import opened Cleaning

  // ---------------------------------------------------------------------------
  // Schedule (get_schedule)

  /** The three LeagueGameFinder columns the schedule reads. */
  datatype GameRow = GameRow(seasonId: string, gameId: string, gameDate: string)

  /** A row of the projected schedule, and the pair it is de-duplicated on. */
  datatype ScheduleEntry = ScheduleEntry(gameId: string, gameDate: string)

  const Season: string := "22023"

  predicate InSeason(g: GameRow) { g.seasonId == Season }

  function GameKey(g: GameRow): ScheduleEntry { ScheduleEntry(g.gameId, g.gameDate) }

  /** scores.py, get_schedule: the season's rows, the first of each
      (GAME_ID, GAME_DATE) pair, projected to those two columns. `games` is
      what LeagueGameFinder returned, None when the call raised. */
  function GetSchedule(games: Option<seq<GameRow>>): (r: Result<seq<ScheduleEntry>>)
    ensures r.Ok? <==> games.Some?
    ensures r.Exit? ==> r.message == AnErrorOccurred
    ensures r.Ok? ==> forall i, j :: 0 <= i < j < |r.value| ==> r.value[i] != r.value[j]
    ensures r.Ok? ==> Subsequence(r.value, MapRows(games.value, GameKey))
  {
    match games
    case None => Log(AnErrorOccurred, ErrorLevel, [])
    case Some(rows) =>
      var season := Filter(rows, InSeason);
      var unique := KeepFirstBy(season, GameKey, {});
      SubsequenceMap(unique, season, GameKey);
      SubsequenceMap(season, rows, GameKey);
      SubsequenceTrans(MapRows(unique, GameKey), MapRows(season, GameKey), MapRows(rows, GameKey));
      Ok(MapRows(unique, GameKey))
  }

  /** Every (GAME_ID, GAME_DATE) pair of the season is in the schedule, and
      nothing else is. */
  lemma GetScheduleMembers(games: seq<GameRow>, e: ScheduleEntry)
    ensures e in GetSchedule(Some(games)).value <==> exists g :: g in games && InSeason(g) && GameKey(g) == e
  {
    var season := Filter(games, InSeason);
    var unique := KeepFirstBy(season, GameKey, {});
    KeySetMembers(unique, GameKey, e);
    KeySetMembers(season, GameKey, e);
    if exists g :: g in games && InSeason(g) && GameKey(g) == e {
      var g :| g in games && InSeason(g) && GameKey(g) == e;
      var i :| 0 <= i < |season| && season[i] == g;
    }
    if e in GetSchedule(Some(games)).value {
      var i :| 0 <= i < |unique| && GameKey(unique[i]) == e;
      var j :| 0 <= j < |season| && GameKey(season[j]) == e;
      assert season[j] in season;
    }
  }

  /** The schedule is the projection of the rows that no earlier in-season row
      shares a pair with: de-duplication keeps first occurrences, in order. */
  lemma GetScheduleKeepsFirst(games: seq<GameRow>)
    ensures GetSchedule(Some(games)).value == MapRows(FirstRowsRef(Filter(games, InSeason), GameKey), GameKey)
  {
    KeepFirstMatchesRef(Filter(games, InSeason), GameKey);
  }

  // ---------------------------------------------------------------------------
  // Yesterday's games (reduce_schedule_to_yesterday)

  const NoGamesLeft: string := "No games left in dataframe"

  function PlayedOn(day: string): ScheduleEntry -> bool
  {
    (e: ScheduleEntry) => e.gameDate == day
  }

  /** scores.py, reduce_schedule_to_yesterday: `yesterday` is the ISO date
      (YYYY-MM-DD) of the day before the run. */
  function ReduceScheduleToYesterday(schedule: seq<ScheduleEntry>, yesterday: string): (r: Result<seq<ScheduleEntry>>)
    ensures r.Ok? <==> exists e :: e in schedule && e.gameDate == yesterday
    ensures r.Exit? ==> r.message == NoGamesLeft
    ensures r.Ok? ==> forall e :: e in r.value <==> e in schedule && e.gameDate == yesterday
    ensures r.Ok? ==> Subsequence(r.value, schedule)
  {
    var games := Filter(schedule, PlayedOn(yesterday));
    if |games| > 0 then
      assert games[0] in games;
      Ok(games)
    else
      assert forall e :: e in schedule ==> e !in games;
      Log(NoGamesLeft, ErrorLevel, games)
  }

  // ---------------------------------------------------------------------------
  // Box scores (get_box_scores)

  /** BoxScoreTraditionalV2's player table for a GAME_ID; None when the call
      raised. */
  type BoxScoreFetch = string -> Option<Table>

  const GameDateColumn: string := "GAME_DATE"
  const FetchFailed: string := "Error retrieving at least one game, stopping"

  /** A game's box score with its date written onto every row. */
  function Stamped(box: Table, e: ScheduleEntry): Table
  {
    Stamp(box, GameDateColumn, Str(e.gameDate))
  }

  /** The accumulation after the given games: what get_box_scores holds once
      they are processed, or the exit at the first fetch that raised. */
  function AccumulateBoxScores(games: seq<ScheduleEntry>, fetch: BoxScoreFetch): Result<Table>
    decreases |games|
  {
    if games == [] then Ok(Empty())
    else
      var sofar :- AccumulateBoxScores(games[..|games| - 1], fetch);
      var last := games[|games| - 1];
      match fetch(last.gameId)
      case None => Log(FetchFailed, ErrorLevel, sofar)
      case Some(box) => Ok(Concat(sofar, Stamped(box, last)))
  }

  /** scores.py, get_box_scores. */
  method GetBoxScores(schedule: seq<ScheduleEntry>, fetch: BoxScoreFetch) returns (r: Result<Table>)
    ensures r == AccumulateBoxScores(schedule, fetch)
  {
    var all := Empty();
    for k := 0 to |schedule|
      invariant AccumulateBoxScores(schedule[..k], fetch) == Ok(all)
    {
      assert schedule[..k + 1][..k] == schedule[..k];
      var box := fetch(schedule[k].gameId);
      if box.None? {
        r := Log(FetchFailed, ErrorLevel, all);
        PrefixFailurePersists(schedule, k + 1, fetch);
        return;
      }
      all := Concat(all, Stamped(box.value, schedule[k]));
    }
    assert schedule[..|schedule|] == schedule;
    r := Ok(all);
  }

  /** Once a prefix of the games has failed, the whole run has. */
  lemma {:induction false} PrefixFailurePersists(games: seq<ScheduleEntry>, k: nat, fetch: BoxScoreFetch)
    requires k <= |games|
    requires AccumulateBoxScores(games[..k], fetch).Exit?
    ensures AccumulateBoxScores(games, fetch) == AccumulateBoxScores(games[..k], fetch)
    decreases |games| - k
  {
    if k < |games| {
      assert games[..k + 1][..k] == games[..k];
      PrefixFailurePersists(games, k + 1, fetch);
    } else {
      assert games[..k] == games;
    }
  }

  /** Every fetch of the given games succeeded. */
  predicate AllFetched(games: seq<ScheduleEntry>, fetch: BoxScoreFetch)
  {
    forall i :: 0 <= i < |games| ==> fetch(games[i].gameId).Some?
  }

  /** All fetches succeed for a list exactly when they do for all but its
      last game and for that game. */
  lemma AllFetchedSnoc(games: seq<ScheduleEntry>, fetch: BoxScoreFetch)
    requires games != []
    ensures AllFetched(games, fetch) <==>
      AllFetched(games[..|games| - 1], fetch) && fetch(games[|games| - 1].gameId).Some?
  {
    var prefix := games[..|games| - 1];
    assert forall i :: 0 <= i < |prefix| ==> prefix[i] == games[i];
  }

  /** The step stops exactly when one of the fetches raised, always with the
      same message. */
  lemma {:induction false} BoxScoresFailure(games: seq<ScheduleEntry>, fetch: BoxScoreFetch)
    ensures AccumulateBoxScores(games, fetch).Ok? <==> AllFetched(games, fetch)
    ensures AccumulateBoxScores(games, fetch).Exit? ==> AccumulateBoxScores(games, fetch).message == FetchFailed
    decreases |games|
  {
    if games != [] {
      BoxScoresFailure(games[..|games| - 1], fetch);
      AllFetchedSnoc(games, fetch);
    }
  }

  /** Column `c` of the accumulated table, built game by game: each game's
      stamped rows below the earlier ones, NaN where a game lacks `c`. */
  function StackedColumn(games: seq<ScheduleEntry>, fetch: BoxScoreFetch, c: string): seq<Value>
    requires AllFetched(games, fetch)
    decreases |games|
  {
    if games == [] then []
    else
      var last := games[|games| - 1];
      StackedColumn(games[..|games| - 1], fetch, c) + ColumnOrNaN(Stamped(fetch(last.gameId).value, last), c)
  }

  /** The GAME_DATE column built game by game: a game's date once per row of
      its box score. */
  function StackedDates(games: seq<ScheduleEntry>, fetch: BoxScoreFetch): seq<Value>
    requires AllFetched(games, fetch)
    decreases |games|
  {
    if games == [] then []
    else
      var last := games[|games| - 1];
      StackedDates(games[..|games| - 1], fetch) + seq(fetch(last.gameId).value.n, _ => Str(last.gameDate))
  }

  /** The union of the games' column names, GAME_DATE included. */
  function StackedNames(games: seq<ScheduleEntry>, fetch: BoxScoreFetch): set<string>
    requires AllFetched(games, fetch)
    decreases |games|
  {
    if games == [] then {}
    else
      var last := games[|games| - 1];
      StackedNames(games[..|games| - 1], fetch) + fetch(last.gameId).value.data.Keys + {GameDateColumn}
  }

  /** One more game whose fetch succeeds stacks its stamped box score below
      the table so far. */
  lemma AccumulateSnoc(games: seq<ScheduleEntry>, fetch: BoxScoreFetch)
    requires games != [] && AllFetched(games, fetch)
    ensures var prefix := games[..|games| - 1]; var last := games[|games| - 1];
      AccumulateBoxScores(prefix, fetch).Ok?
      && AccumulateBoxScores(games, fetch)
         == Ok(Concat(AccumulateBoxScores(prefix, fetch).value, Stamped(fetch(last.gameId).value, last)))
  {
    AllFetchedSnoc(games, fetch);
    BoxScoresFailure(games[..|games| - 1], fetch);
  }

  /** The accumulated table has the union of the games' columns. */
  lemma {:induction false} BoxScoresKeys(games: seq<ScheduleEntry>, fetch: BoxScoreFetch)
    requires AllFetched(games, fetch)
    ensures AccumulateBoxScores(games, fetch).Ok?
    ensures AccumulateBoxScores(games, fetch).value.data.Keys == StackedNames(games, fetch)
    decreases |games|
  {
    if games != [] {
      var prefix := games[..|games| - 1];
      AllFetchedSnoc(games, fetch);
      AccumulateSnoc(games, fetch);
      BoxScoresKeys(prefix, fetch);
    }
  }

  /** Column by column, the accumulated table is the games' box scores one
      below the other, in schedule order. */
  lemma {:induction false} BoxScoresColumns(games: seq<ScheduleEntry>, fetch: BoxScoreFetch)
    requires AllFetched(games, fetch)
    ensures AccumulateBoxScores(games, fetch).Ok?
    ensures forall c :: ColumnOrNaN(AccumulateBoxScores(games, fetch).value, c) == StackedColumn(games, fetch, c)
    decreases |games|
  {
    if games != [] {
      var prefix := games[..|games| - 1];
      var last := games[|games| - 1];
      AllFetchedSnoc(games, fetch);
      AccumulateSnoc(games, fetch);
      BoxScoresColumns(prefix, fetch);
      var sofar := AccumulateBoxScores(prefix, fetch).value;
      var stamped := Stamped(fetch(last.gameId).value, last);
      forall c ensures ColumnOrNaN(Concat(sofar, stamped), c) == StackedColumn(games, fetch, c) {
        ConcatColumn(sofar, stamped, c);
      }
    }
  }

  /** The accumulated table is the games' box scores one below the other, in
      schedule order, over the union of their columns. */
  lemma BoxScoresStack(games: seq<ScheduleEntry>, fetch: BoxScoreFetch)
    requires AllFetched(games, fetch)
    ensures AccumulateBoxScores(games, fetch).Ok?
    ensures AccumulateBoxScores(games, fetch).value.data.Keys == StackedNames(games, fetch)
    ensures forall c :: ColumnOrNaN(AccumulateBoxScores(games, fetch).value, c) == StackedColumn(games, fetch, c)
  {
    BoxScoresKeys(games, fetch);
    BoxScoresColumns(games, fetch);
  }

  /** A schedule of one game whose fetch succeeds gives that game's box
      score, stamped with its date. */
  lemma SingleGame(e: ScheduleEntry, fetch: BoxScoreFetch)
    requires fetch(e.gameId).Some?
    ensures AccumulateBoxScores([e], fetch) == Ok(Stamped(fetch(e.gameId).value, e))
  {
    assert [e][..0] == [];
    ConcatEmpty(Stamped(fetch(e.gameId).value, e));
  }

  /** Every accumulated row carries the date of the game it came from. */
  lemma {:induction false} StackedDatesStamp(games: seq<ScheduleEntry>, fetch: BoxScoreFetch)
    requires AllFetched(games, fetch)
    ensures StackedColumn(games, fetch, GameDateColumn) == StackedDates(games, fetch)
    decreases |games|
  {
    if games != [] {
      AllFetchedSnoc(games, fetch);
      StackedDatesStamp(games[..|games| - 1], fetch);
    }
  }

  /** When every fetch succeeds and there is at least one game, the table has
      a GAME_DATE column holding each game's date on each of its rows. */
  lemma BoxScoresDates(games: seq<ScheduleEntry>, fetch: BoxScoreFetch)
    requires AllFetched(games, fetch) && games != []
    ensures AccumulateBoxScores(games, fetch).Ok?
    ensures var t := AccumulateBoxScores(games, fetch).value;
      GameDateColumn in t.data && t.data[GameDateColumn] == StackedDates(games, fetch)
  {
    BoxScoresStack(games, fetch);
    StackedDatesStamp(games, fetch);
  }

  // ---------------------------------------------------------------------------
  // The script (main)

  /** The columns a game's box score arrives with, GAME_DATE included; none
      when the fetch raised. */
  function Header(fetch: BoxScoreFetch, gameId: string): set<string>
  {
    match fetch(gameId)
    case None => {}
    case Some(box) => box.data.Keys + {GameDateColumn}
  }

  /** No two column names that any box scores arrive with become the same
      once cleaned, so the stacked table never holds a duplicated column. */
  ghost predicate HeadersStayDistinct(fetch: BoxScoreFetch)
  {
    forall x, y, a, b :: a in Header(fetch, x) && b in Header(fetch, y) && a != b ==> CleanName(a) != CleanName(b)
  }

  /** Every column of the stacked table comes from one of the games. */
  lemma {:induction false} StackedNamesFromGames(games: seq<ScheduleEntry>, fetch: BoxScoreFetch)
    requires AllFetched(games, fetch)
    ensures forall c :: c in StackedNames(games, fetch) ==>
      exists i :: 0 <= i < |games| && c in Header(fetch, games[i].gameId)
    decreases |games|
  {
    if games != [] {
      var prefix := games[..|games| - 1];
      AllFetchedSnoc(games, fetch);
      StackedNamesFromGames(prefix, fetch);
      forall c | c in StackedNames(games, fetch)
        ensures exists i :: 0 <= i < |games| && c in Header(fetch, games[i].gameId)
      {
        if c in StackedNames(prefix, fetch) {
          var i :| 0 <= i < |prefix| && c in Header(fetch, prefix[i].gameId);
          assert prefix[i] == games[i];
        } else {
          assert c in Header(fetch, games[|games| - 1].gameId);
        }
      }
    }
  }

  /** The stacked box scores of any games keep distinct names once cleaned. */
  lemma StackedNamesStayDistinct(games: seq<ScheduleEntry>, fetch: BoxScoreFetch)
    requires AllFetched(games, fetch) && HeadersStayDistinct(fetch)
    ensures NamesStayDistinct(StackedNames(games, fetch), CleanName)
  {
    StackedNamesFromGames(games, fetch);
    forall a, b | a in StackedNames(games, fetch) && b in StackedNames(games, fetch) && a != b
      ensures CleanName(a) != CleanName(b)
    {
      var i :| 0 <= i < |games| && a in Header(fetch, games[i].gameId);
      var j :| 0 <= j < |games| && b in Header(fetch, games[j].gameId);
    }
  }

  /** What the box scores of any schedule clean into: the accumulated table
      keeps distinct names, so the cleaning applies. */
  function CleanedBoxScores(box: Result<Table>, games: seq<ScheduleEntry>, fetch: BoxScoreFetch, conv: Conversions): (r: Result<Table>)
    requires HeadersStayDistinct(fetch) && box == AccumulateBoxScores(games, fetch)
    ensures box.Exit? ==> r == Exit(box.message)
    ensures box.Ok? ==> NamesStayDistinct(box.value.data.Keys, CleanName) && r == CleanedTable(box.value, conv, BoxScorePlan)
  {
    BoxScoresFailure(games, fetch);
    if box.Exit? then Exit(box.message)
    else
      BoxScoresStack(games, fetch);
      StackedNamesStayDistinct(games, fetch);
      CleanedTable(box.value, conv, BoxScorePlan)
  }

  /** scores.py, main without the upload: the table that would be uploaded,
      or the exit of the step that stopped the script. `games` is what
      LeagueGameFinder returned and `yesterday` the date of the day before
      the run. */
  function ScoresPipeline(games: Option<seq<GameRow>>, yesterday: string, fetch: BoxScoreFetch, conv: Conversions): Result<Table>
    requires HeadersStayDistinct(fetch)
  {
    var schedule :- GetSchedule(games);
    var played :- ReduceScheduleToYesterday(schedule, yesterday);
    CleanedBoxScores(AccumulateBoxScores(played, fetch), played, fetch, conv)
  }

  /** scores.py, main, one step after the other. */
  method RunScores(games: Option<seq<GameRow>>, yesterday: string, fetch: BoxScoreFetch, conv: Conversions)
    returns (r: Result<Table>)
    requires HeadersStayDistinct(fetch)
    ensures r == ScoresPipeline(games, yesterday, fetch, conv)
  {
    var schedule :- GetSchedule(games);
    var played :- ReduceScheduleToYesterday(schedule, yesterday);
    var box := GetBoxScores(played, fetch);
    if box.Exit? {
      return Exit(box.message);
    }
    BoxScoresFailure(played, fetch);
    BoxScoresStack(played, fetch);
    StackedNamesStayDistinct(played, fetch);
    r := CleanBoxScores(box.value, conv);
  }

  /** The cleaning of the box scores stops with the message of a failed fetch
      or of the cleaning; a table it hands on has an `id` column and
      lower-case column names. */
  lemma CleanedBoxScoresOutcome(games: seq<ScheduleEntry>, fetch: BoxScoreFetch, conv: Conversions)
    requires HeadersStayDistinct(fetch)
    ensures var r := CleanedBoxScores(AccumulateBoxScores(games, fetch), games, fetch, conv);
      (r.Exit? ==> r.message == FetchFailed || r.message == AnErrorOccurred)
      && (r.Ok? ==> IdColumn in r.value.data && forall c :: c in r.value.data ==> IsLowerCase(c))
  {
    var box := AccumulateBoxScores(games, fetch);
    var r := CleanedBoxScores(box, games, fetch, conv);
    BoxScoresFailure(games, fetch);
    if box.Ok? {
      assert r == CleanedTable(box.value, conv, BoxScorePlan);
      CleanBoxScoresOutcome(box.value, conv);
    }
  }

  /** The script stops with the message of the step that failed: the
      schedule, the empty day, or a box score; a table it hands on has an
      `id` column and lower-case column names. */
  lemma ScoresPipelineOutcome(games: Option<seq<GameRow>>, yesterday: string, fetch: BoxScoreFetch, conv: Conversions)
    requires HeadersStayDistinct(fetch)
    ensures var r := ScoresPipeline(games, yesterday, fetch, conv);
      (r.Exit? ==> r.message in {AnErrorOccurred, NoGamesLeft, FetchFailed})
      && (games.None? ==> r == Exit(AnErrorOccurred))
      && (r.Ok? ==> IdColumn in r.value.data && forall c :: c in r.value.data ==> IsLowerCase(c))
  {
    if games.Some? && ReduceScheduleToYesterday(GetSchedule(games).value, yesterday).Ok? {
      var played := ReduceScheduleToYesterday(GetSchedule(games).value, yesterday).value;
      CleanedBoxScoresOutcome(played, fetch, conv);
    }
  }
}
