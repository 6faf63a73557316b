/** The leaders pipeline (players.py): one leader per team, that player's next
    game, joined back onto every leader, the opponent resolved, and the rows
    without an opponent dropped before upload. */
module Players {

  import opened Etl
  import opened Tables
  import opened Text

  /** One row of the league leaders table, in the columns the pipeline reads
      or uploads. */
  datatype Leader = Leader(
    playerId: int, player: string, teamId: int, team: string,
    gp: int, min: int, pts: int, reb: int, ast: int, stl: int, blk: int, tov: int)

  function TeamOf(l: Leader): int { l.teamId }

  /** Every team must keep a representative leader. */
  const TeamCount: nat := 30

  const NotAllTeams: string := "Not all 30 teams are represented"
  const DuplicatesOccurred: string := "Duplicates occurred"
  const NotEnoughRows: string := "Not enough rows in the table, players got removed."

  // ---------------------------------------------------------------------------
  // One leader per team

  /** `leaders.groupby('TEAM_ID').head(1)`, then the 30-team check. */
  function ReduceToOnePlayerPerTeam(leaders: seq<Leader>): (r: Result<seq<Leader>>)
    ensures r.Ok? <==> |KeySet(leaders, TeamOf)| == TeamCount
    ensures r.Exit? ==> r.message == NotAllTeams
    ensures r.Ok? ==> r.value == KeepFirstBy(leaders, TeamOf, {})
    ensures r.Ok? ==> |r.value| == TeamCount && DistinctKeys(r.value, TeamOf)
                      && Subsequence(r.value, leaders)
                      && KeySet(r.value, TeamOf) == KeySet(leaders, TeamOf)
  {
    var oneLeaders := KeepFirstBy(leaders, TeamOf, {});
    KeepFirstByCount(leaders, TeamOf);
    assert KeySet(leaders, TeamOf) - {} == KeySet(leaders, TeamOf);
    if |oneLeaders| == TeamCount then Ok(oneLeaders)
    else Log(NotAllTeams, ErrorLevel, oneLeaders)
  }

  /** The leader `head(1)` keeps for the team of leader `i`: the first leader
      of that team in the table. */
  function TeamRepresentative(leaders: seq<Leader>, i: nat): (f: Leader)
    requires i < |leaders|
    ensures f in leaders && f.teamId == leaders[i].teamId
  {
    KeySetMembers(leaders, TeamOf, leaders[i].teamId);
    FirstWithKey(leaders, TeamOf, leaders[i].teamId).value
  }

  // ---------------------------------------------------------------------------
  // Next matchup per player

  /** The columns the pipeline reads from the first row of a next-games answer. */
  datatype NextGame = NextGame(homeTeam: string, visitorTeam: string, gameDate: string, gameTime: string)

  /** The remote next-game lookup for a player id: None when the call raises,
      otherwise the rows it returns (possibly none). */
  type NextGamesLookup = int -> Option<seq<NextGame>>

  /** The four NEXT_MATCHUP_* cells of a row: home, away, date, local time. */
  datatype Matchup = Matchup(home: Option<string>, away: Option<string>, date: Option<string>, time: Option<string>)

  /** The cells as set up before the lookup: all None. */
  const Unset: Matchup := Matchup(None, None, None, None)

  /** A row of `one_leaders` once the four matchup columns exist. */
  datatype Scheduled = Scheduled(leader: Leader, next: Matchup)

  /** A row of the table handed to the merge: TEAM_ID and the four matchup columns. */
  datatype TeamMatchup = TeamMatchup(teamId: int, next: Matchup)

  function RightTeam(m: TeamMatchup): int { m.teamId }

  /** The matchup cells after the lookup: filled from the first row of a
      non-empty answer, left None after a raised or an empty one. */
  function NextMatchup(answer: Option<seq<NextGame>>): (m: Matchup)
    ensures m == Unset <==> answer.None? || answer.value == []
    ensures answer.Some? && answer.value != [] ==>
      var g := answer.value[0];
      m == Matchup(Some(g.homeTeam), Some(g.visitorTeam), Some(g.gameDate), Some(g.gameTime))
  {
    match answer
    case None => Unset
    case Some(games) =>
      if games == [] then Unset
      else Matchup(Some(games[0].homeTeam), Some(games[0].visitorTeam), Some(games[0].gameDate), Some(games[0].gameTime))
  }

  /** The table `get_next_matchup_by_player` returns, row for row. */
  function AttachMatchups(oneLeaders: seq<Leader>, lookup: NextGamesLookup): seq<TeamMatchup>
  {
    seq(|oneLeaders|, i requires 0 <= i < |oneLeaders| =>
      TeamMatchup(oneLeaders[i].teamId, NextMatchup(lookup(oneLeaders[i].playerId))))
  }

  /** Attaching matchups keeps the row count, the team ids and their order, and
      leaves the cells None for each player whose lookup raised or came back empty. */
  lemma AttachMatchupsShape(oneLeaders: seq<Leader>, lookup: NextGamesLookup)
    ensures var r := AttachMatchups(oneLeaders, lookup);
      |r| == |oneLeaders|
      && (forall i :: 0 <= i < |r| ==> r[i].teamId == oneLeaders[i].teamId)
      && (forall i :: 0 <= i < |r| ==> (r[i].next == Unset <==>
            lookup(oneLeaders[i].playerId).None? || lookup(oneLeaders[i].playerId).value == []))
      && (DistinctKeys(oneLeaders, TeamOf) ==> DistinctKeys(r, RightTeam))
  {
  }

  /** players.py, get_next_matchup_by_player: the four columns are added as
      None, filled in place row by row from each player's lookup (a raised
      lookup is caught and the loop moves on), then the table is cut down to
      TEAM_ID and the four columns. */
  method GetNextMatchupByPlayer(oneLeaders: seq<Leader>, lookup: NextGamesLookup) returns (r: seq<TeamMatchup>)
    ensures r == AttachMatchups(oneLeaders, lookup)
  {
    var n := |oneLeaders|;
    var table := new Scheduled[n](i requires 0 <= i < n => Scheduled(oneLeaders[i], Unset));
    for i := 0 to n
      invariant forall k :: 0 <= k < i ==>
        table[k] == Scheduled(oneLeaders[k], NextMatchup(lookup(oneLeaders[k].playerId)))
      invariant forall k :: i <= k < n ==> table[k] == Scheduled(oneLeaders[k], Unset)
    {
      var answer := lookup(oneLeaders[i].playerId);
      if answer.Some? && answer.value != [] {
        var g := answer.value[0];
        table[i] := table[i].(next := table[i].next.(home := Some(g.homeTeam)));
        table[i] := table[i].(next := table[i].next.(away := Some(g.visitorTeam)));
        table[i] := table[i].(next := table[i].next.(date := Some(g.gameDate)));
        table[i] := table[i].(next := table[i].next.(time := Some(g.gameTime)));
      }
    }
    r := seq(n, k requires 0 <= k < n reads table => TeamMatchup(table[k].leader.teamId, table[k].next));
  }

  // ---------------------------------------------------------------------------
  // Left join on TEAM_ID

  /** A leader row with the matchup columns the join attached. */
  datatype Merged = Merged(leader: Leader, next: Matchup)

  function TeamIs(teamId: int): TeamMatchup -> bool
  {
    (m: TeamMatchup) => m.teamId == teamId
  }

  /** The right-hand rows a leader of team `teamId` joins with. */
  function Matches(right: seq<TeamMatchup>, teamId: int): seq<TeamMatchup>
  {
    Filter(right, TeamIs(teamId))
  }

  /** What one leader row becomes: one row per matching right-hand row, or a
      single row with the matchup cells missing when nothing matches. */
  function JoinRow(l: Leader, ms: seq<TeamMatchup>): (r: seq<Merged>)
    ensures |r| == if ms == [] then 1 else |ms|
  {
    if ms == [] then [Merged(l, Unset)]
    else seq(|ms|, k requires 0 <= k < |ms| => Merged(l, ms[k].next))
  }

  /** `pd.merge(leaders, right, on='TEAM_ID', how='left')`: leader rows in
      order, each expanded by its matches in right-hand order. */
  function LeftJoin(leaders: seq<Leader>, right: seq<TeamMatchup>): (r: seq<Merged>)
    ensures |r| >= |leaders|
  {
    if leaders == [] then []
    else JoinRow(leaders[0], Matches(right, leaders[0].teamId)) + LeftJoin(leaders[1..], right)
  }

  /** The matchup a leader of team `teamId` should get: that of the first
      right-hand row of its team, or missing. */
  function MatchupOf(right: seq<TeamMatchup>, teamId: int): Matchup
  {
    var ms := Matches(right, teamId);
    if ms == [] then Unset else ms[0].next
  }

  /** The join keeps the leaders' row count exactly when no leader's team has
      more than one right-hand row. */
  lemma {:induction false} LeftJoinLength(leaders: seq<Leader>, right: seq<TeamMatchup>)
    ensures |LeftJoin(leaders, right)| == |leaders|
        <==> forall i :: 0 <= i < |leaders| ==> |Matches(right, leaders[i].teamId)| <= 1
  {
    if leaders != [] {
      LeftJoinLength(leaders[1..], right);
      var ok := forall i :: 0 <= i < |leaders| ==> |Matches(right, leaders[i].teamId)| <= 1;
      var okRest := forall i :: 0 <= i < |leaders[1..]| ==> |Matches(right, leaders[1..][i].teamId)| <= 1;
      assert ok <==> |Matches(right, leaders[0].teamId)| <= 1 && okRest by {
        if ok {
          forall i | 0 <= i < |leaders[1..]| ensures |Matches(right, leaders[1..][i].teamId)| <= 1 {
            assert leaders[1..][i] == leaders[i + 1];
          }
        }
        if |Matches(right, leaders[0].teamId)| <= 1 && okRest {
          forall i | 0 <= i < |leaders| ensures |Matches(right, leaders[i].teamId)| <= 1 {
            if i > 0 {
              assert leaders[i] == leaders[1..][i - 1];
            }
          }
        }
      }
    }
  }

  /** Without fan-out, row i of the join is leader i with its team's matchup. */
  lemma {:induction false} LeftJoinRows(leaders: seq<Leader>, right: seq<TeamMatchup>)
    requires forall i :: 0 <= i < |leaders| ==> |Matches(right, leaders[i].teamId)| <= 1
    ensures |LeftJoin(leaders, right)| == |leaders|
    ensures forall i :: 0 <= i < |leaders| ==>
      LeftJoin(leaders, right)[i] == Merged(leaders[i], MatchupOf(right, leaders[i].teamId))
  {
    LeftJoinLength(leaders, right);
    if leaders != [] {
      assert forall i :: 0 <= i < |leaders[1..]| ==> leaders[1..][i] == leaders[i + 1];
      LeftJoinRows(leaders[1..], right);
      var head := JoinRow(leaders[0], Matches(right, leaders[0].teamId));
      assert |head| == 1 && head[0] == Merged(leaders[0], MatchupOf(right, leaders[0].teamId));
      var j := LeftJoin(leaders, right);
      assert j == head + LeftJoin(leaders[1..], right);
      forall i | 0 <= i < |leaders|
        ensures j[i] == Merged(leaders[i], MatchupOf(right, leaders[i].teamId))
      {
        if i > 0 {
          assert j[i] == LeftJoin(leaders[1..], right)[i - 1];
        }
      }
    }
  }

  /** No right-hand row matches a team that does not occur on the right. */
  lemma {:induction false} NoMatch(right: seq<TeamMatchup>, teamId: int)
    requires forall k :: 0 <= k < |right| ==> right[k].teamId != teamId
    ensures Matches(right, teamId) == []
  {
    if right != [] {
      assert !TeamIs(teamId)(right[0]);
      NoMatch(right[1..], teamId);
    }
  }

  /** With distinct team ids on the right, the row of team `right[k].teamId`
      matches alone. */
  lemma {:induction false} SingleMatch(right: seq<TeamMatchup>, k: nat)
    requires k < |right| && DistinctKeys(right, RightTeam)
    ensures Matches(right, right[k].teamId) == [right[k]]
  {
    var t := right[k].teamId;
    var rest := right[1..];
    assert DistinctKeys(rest, RightTeam) by {
      forall i, j | 0 <= i < j < |rest| ensures rest[i].teamId != rest[j].teamId {
        assert rest[i] == right[i + 1] && rest[j] == right[j + 1];
      }
    }
    if k == 0 {
      forall j | 0 <= j < |rest| ensures rest[j].teamId != t {
        assert rest[j] == right[j + 1];
      }
      NoMatch(rest, t);
      assert TeamIs(t)(right[0]);
    } else {
      assert rest[k - 1] == right[k];
      SingleMatch(rest, k - 1);
      assert !TeamIs(t)(right[0]);
    }
  }

  /** With distinct team ids on the right, no leader's team has two matches. */
  lemma DistinctRightMatchesOnce(right: seq<TeamMatchup>, teamId: int)
    requires DistinctKeys(right, RightTeam)
    ensures |Matches(right, teamId)| <= 1
  {
    if k :| 0 <= k < |right| && right[k].teamId == teamId {
      SingleMatch(right, k);
    } else {
      NoMatch(right, teamId);
    }
  }

  /** players.py, merge_next_matchups_with_league_leaders: the left join and
      the no-growth check. */
  function MergeNextMatchupsWithLeagueLeaders(leaders: seq<Leader>, right: seq<TeamMatchup>): (r: Result<seq<Merged>>)
    ensures r.Exit? <==> exists i :: 0 <= i < |leaders| && |Matches(right, leaders[i].teamId)| > 1
    ensures r.Exit? ==> r.message == DuplicatesOccurred
    ensures r.Ok? ==> |r.value| == |leaders|
    ensures r.Ok? ==> forall i :: 0 <= i < |leaders| ==>
      r.value[i] == Merged(leaders[i], MatchupOf(right, leaders[i].teamId))
  {
    var merged := LeftJoin(leaders, right);
    LeftJoinLength(leaders, right);
    if |merged| != |leaders| then Log(DuplicatesOccurred, ErrorLevel, merged)
    else
      LeftJoinRows(leaders, right);
      Ok(merged)
  }

  /** A right-hand table with distinct team ids never makes the merge fail. */
  lemma DistinctRightNeverGrows(leaders: seq<Leader>, right: seq<TeamMatchup>)
    requires DistinctKeys(right, RightTeam)
    ensures MergeNextMatchupsWithLeagueLeaders(leaders, right).Ok?
  {
    forall i | 0 <= i < |leaders| ensures |Matches(right, leaders[i].teamId)| <= 1 {
      DistinctRightMatchesOnce(right, leaders[i].teamId);
    }
  }

  /** The reduction feeds the merge a table with one row per team of the
      leaders, so the duplicate check never fires, and every leader gets the
      matchup looked up for its team's representative. */
  lemma ReductionPreventsFanOut(leaders: seq<Leader>, lookup: NextGamesLookup)
    requires ReduceToOnePlayerPerTeam(leaders).Ok?
    ensures var merge := MergeNextMatchupsWithLeagueLeaders(
              leaders, AttachMatchups(ReduceToOnePlayerPerTeam(leaders).value, lookup));
      merge.Ok? && |merge.value| == |leaders|
      && forall i :: 0 <= i < |leaders| ==>
           merge.value[i] == Merged(leaders[i], NextMatchup(lookup(TeamRepresentative(leaders, i).playerId)))
  {
    var oneLeaders := ReduceToOnePlayerPerTeam(leaders).value;
    var right := AttachMatchups(oneLeaders, lookup);
    AttachMatchupsShape(oneLeaders, lookup);
    DistinctRightNeverGrows(leaders, right);
    var merge := MergeNextMatchupsWithLeagueLeaders(leaders, right);
    forall i | 0 <= i < |leaders|
      ensures merge.value[i] == Merged(leaders[i], NextMatchup(lookup(TeamRepresentative(leaders, i).playerId)))
    {
      var t := leaders[i].teamId;
      KeySetMembers(leaders, TeamOf, t);
      assert t in KeySet(oneLeaders, TeamOf);
      KeySetMembers(oneLeaders, TeamOf, t);
      var k :| 0 <= k < |oneLeaders| && oneLeaders[k].teamId == t;
      SingleMatch(right, k);
      assert MatchupOf(right, t) == NextMatchup(lookup(oneLeaders[k].playerId));
      assert oneLeaders[k] in oneLeaders;
      assert FirstWithKey(leaders, TeamOf, t) == Some(oneLeaders[k]);
    }
  }

  // ---------------------------------------------------------------------------
  // Per-game rates and the matchup time (clean_players_df)

  /** `total / GP` as pandas computes it: None stands for the infinity or NaN
      that a zero GP produces. */
  function PerGame(total: int, gp: int): (r: Option<real>)
    ensures r.Some? <==> gp != 0
    ensures r.Some? ==> r.value * (gp as real) == total as real
  {
    if gp == 0 then None else Some(total as real / gp as real)
  }

  /** The seven *_PG columns. */
  datatype Rates = Rates(
    minPg: Option<real>, ptsPg: Option<real>, rebPg: Option<real>, astPg: Option<real>,
    stlPg: Option<real>, blkPg: Option<real>, tovPg: Option<real>)

  /** The seven rates of a leader: all defined exactly when GP is non-zero,
      each then the total it divides spread evenly over the games. */
  function RatesOf(l: Leader): (r: Rates)
    ensures r.minPg.Some? <==> l.gp != 0
    ensures l.gp != 0 ==>
      var g := l.gp as real;
      r.ptsPg.Some? && r.rebPg.Some? && r.astPg.Some? && r.stlPg.Some? && r.blkPg.Some? && r.tovPg.Some?
      && r.minPg.value * g == l.min as real && r.ptsPg.value * g == l.pts as real
      && r.rebPg.value * g == l.reb as real && r.astPg.value * g == l.ast as real
      && r.stlPg.value * g == l.stl as real && r.blkPg.value * g == l.blk as real
      && r.tovPg.value * g == l.tov as real
    ensures l.gp == 0 ==> r == Rates(None, None, None, None, None, None, None)
  {
    Rates(PerGame(l.min, l.gp), PerGame(l.pts, l.gp), PerGame(l.reb, l.gp), PerGame(l.ast, l.gp),
          PerGame(l.stl, l.gp), PerGame(l.blk, l.gp), PerGame(l.tov, l.gp))
  }

  /** Joining the NEXT_MATCHUP_DATE and NEXT_MATCHUP_TIME cells (None when
      missing), parsing them as an Eastern time and writing that back as an ISO
      UTC timestamp: None when this raises, otherwise the text stored in
      MATCHUP_DATETIME. What a missing cell leads to is the parameter's to say. */
  type UtcConversion = (Option<string>, Option<string>) -> Option<string>

  /** A merged row once the per-game rates and MATCHUP_DATETIME are added. */
  datatype CleanRow = CleanRow(leader: Leader, next: Matchup, rates: Rates, matchupDatetime: string)

  /** The row's matchup date and time convert without raising. */
  predicate Convertible(m: Matchup, toUtc: UtcConversion)
  {
    toUtc(m.date, m.time).Some?
  }

  /** players.py, clean_players_df: the rates and the UTC matchup time are
      added to every row; a conversion that raises ends the run. */
  function CleanPlayersDf(rows: seq<Merged>, toUtc: UtcConversion): (r: Result<seq<CleanRow>>)
    ensures r.Ok? <==> forall i :: 0 <= i < |rows| ==> Convertible(rows[i].next, toUtc)
    ensures r.Exit? ==> r.message == AnErrorOccurred
    ensures r.Ok? ==> |r.value| == |rows| && forall i :: 0 <= i < |rows| ==>
      r.value[i].leader == rows[i].leader && r.value[i].next == rows[i].next
      && r.value[i].rates == RatesOf(rows[i].leader)
      && Some(r.value[i].matchupDatetime) == toUtc(rows[i].next.date, rows[i].next.time)
  {
    if forall i :: 0 <= i < |rows| ==> Convertible(rows[i].next, toUtc) then
      Ok(seq(|rows|, i requires 0 <= i < |rows| =>
        CleanRow(rows[i].leader, rows[i].next, RatesOf(rows[i].leader),
                 toUtc(rows[i].next.date, rows[i].next.time).value)))
    else Log(AnErrorOccurred, ErrorLevel, [])
  }

  // ---------------------------------------------------------------------------
  // Opponent and the final filter

  /** find_opposing_matchup: the home side is checked first; a team on neither
      side (or a missing side) gives no opponent. */
  function FindOpposingMatchup(team: string, home: Option<string>, away: Option<string>): (opp: Option<string>)
    ensures home == Some(team) ==> opp == away
    ensures home != Some(team) && away == Some(team) ==> opp == home
    ensures opp.Some? ==> (home == Some(team) && opp == away)
                          || (home != Some(team) && away == Some(team) && opp == home)
    ensures home != Some(team) && away != Some(team) ==> opp.None?
  {
    if Some(team) == home then away
    else if Some(team) == away then home
    else None
  }

  /** Within one game between two different teams, the opponent of the
      opponent is the team itself. */
  lemma OpponentInvolution(team: string, home: string, away: string)
    requires home != away
    requires FindOpposingMatchup(team, Some(home), Some(away)).Some?
    ensures var opp := FindOpposingMatchup(team, Some(home), Some(away)).value;
      opp != team && FindOpposingMatchup(opp, Some(home), Some(away)) == Some(team)
  {
  }

  /** A row with its OPP cell. */
  datatype WithOpponent = WithOpponent(row: CleanRow, opp: Option<string>)

  function AddOpponent(c: CleanRow): WithOpponent
  {
    WithOpponent(c, FindOpposingMatchup(c.leader.team, c.next.home, c.next.away))
  }

  predicate HasOpponent(w: WithOpponent) { w.opp.Some? }

  /** One row of the table sent to the store: the fourteen projected columns. */
  datatype Pick = Pick(
    playerId: int, player: string, teamId: int, team: string, gp: int,
    minPg: Option<real>, ptsPg: Option<real>, rebPg: Option<real>, astPg: Option<real>,
    stlPg: Option<real>, blkPg: Option<real>, tovPg: Option<real>,
    matchupDatetime: string, opp: Option<string>)

  /** The projected columns, in the order of the projection. */
  const ForDbColumns: seq<string> := [
    "PLAYER_ID", "PLAYER", "TEAM_ID", "TEAM", "GP", "MIN_PG", "PTS_PG", "REB_PG",
    "AST_PG", "STL_PG", "BLK_PG", "TOV_PG", "MATCHUP_DATETIME", "OPP"]

  /** The column names of the uploaded table: the projection, lower-cased. */
  function DbColumns(): (cols: seq<string>)
    ensures |cols| == |ForDbColumns|
    ensures forall k :: 0 <= k < |cols| ==> IsLowerCase(cols[k]) && cols[k] == Lower(ForDbColumns[k])
  {
    LowerNames(ForDbColumns)
  }

  function ForDb(w: WithOpponent): Pick
  {
    var l, rt := w.row.leader, w.row.rates;
    Pick(l.playerId, l.player, l.teamId, l.team, l.gp,
         rt.minPg, rt.ptsPg, rt.rebPg, rt.astPg, rt.stlPg, rt.blkPg, rt.tovPg,
         w.row.matchupDatetime, w.opp)
  }

  /** The rows `dropna(subset=['OPP'])` keeps. */
  function DropMissingOpponent(rows: seq<WithOpponent>): (r: seq<WithOpponent>)
    ensures forall i :: 0 <= i < |r| ==> r[i].opp.Some?
    ensures forall w :: w in r <==> w in rows && w.opp.Some?
    ensures Subsequence(r, rows)
    ensures forall w :: multiset(r)[w] == if w.opp.Some? then multiset(rows)[w] else 0
  {
    var r := Filter(rows, HasOpponent);
    FilterCount(rows, HasOpponent);
    assert forall i :: 0 <= i < |r| ==> r[i] in r;
    r
  }

  /** Fewer surviving rows than this means players went missing. */
  const MinimumRows: nat := 400

  /** The rows that survive add_opponent_column's filter, projected. */
  function OpponentRows(rows: seq<CleanRow>): (r: seq<Pick>)
    ensures forall i :: 0 <= i < |r| ==> r[i].opp.Some?
    ensures Subsequence(r, MapRows(MapRows(rows, AddOpponent), ForDb))
    ensures |r| == |Filter(MapRows(rows, AddOpponent), HasOpponent)|
  {
    var withOpp := MapRows(rows, AddOpponent);
    var kept := DropMissingOpponent(withOpp);
    SubsequenceMap(kept, withOpp, ForDb);
    MapRows(kept, ForDb)
  }

  /** players.py, add_opponent_column: the OPP column, the rows without one
      dropped, the projection, and the 400-row check. */
  function AddOpponentColumn(rows: seq<CleanRow>): (r: Result<seq<Pick>>)
    ensures r.Exit? <==> |OpponentRows(rows)| < MinimumRows
    ensures r.Exit? ==> r.message == NotEnoughRows
    ensures r.Ok? ==> |r.value| >= MinimumRows && r.value == OpponentRows(rows)
    ensures r.Ok? ==> forall i :: 0 <= i < |r.value| ==> r.value[i].opp.Some?
  {
    var picks := OpponentRows(rows);
    if |picks| < MinimumRows then Log(NotEnoughRows, ErrorLevel, picks)
    else Ok(picks)
  }

  /** Exactly the rows whose team plays in the next matchup survive, each with
      the other side as its opponent. */
  lemma OpponentRowsMembers(rows: seq<CleanRow>, p: Pick)
    ensures p in OpponentRows(rows) <==>
      exists c :: c in rows && AddOpponent(c).opp.Some? && p == ForDb(AddOpponent(c))
  {
    var withOpp := MapRows(rows, AddOpponent);
    var kept := DropMissingOpponent(withOpp);
    MapRowsMembers(kept, ForDb, p);
    if p in OpponentRows(rows) {
      var w :| w in kept && p == ForDb(w);
      MapRowsMembers(rows, AddOpponent, w);
    }
    if exists c :: c in rows && AddOpponent(c).opp.Some? && p == ForDb(AddOpponent(c)) {
      var c :| c in rows && AddOpponent(c).opp.Some? && p == ForDb(AddOpponent(c));
      MapRowsMembers(rows, AddOpponent, AddOpponent(c));
      assert AddOpponent(c) in kept;
    }
  }

  // ---------------------------------------------------------------------------
  // The whole leaders run, up to the upload

  /** players.py, main, without the fetch of the leaders and the upload. */
  function LeadersPipeline(leaders: seq<Leader>, lookup: NextGamesLookup, toUtc: UtcConversion): Result<seq<Pick>>
  {
    var oneLeaders :- ReduceToOnePlayerPerTeam(leaders);
    var merged :- MergeNextMatchupsWithLeagueLeaders(leaders, AttachMatchups(oneLeaders, lookup));
    var cleaned :- CleanPlayersDf(merged, toUtc);
    AddOpponentColumn(cleaned)
  }

  /** A run stops only at the team check, an unparseable matchup time, or the
      400-row check, never at the duplicate check; what it uploads has at least
      400 rows, each with an opponent. */
  lemma LeadersPipelineOutcome(leaders: seq<Leader>, lookup: NextGamesLookup, toUtc: UtcConversion)
    ensures var r := LeadersPipeline(leaders, lookup, toUtc);
      (r.Exit? ==> r.message in {NotAllTeams, AnErrorOccurred, NotEnoughRows})
      && (r.Ok? ==> |KeySet(leaders, TeamOf)| == TeamCount && |r.value| >= MinimumRows
                    && forall i :: 0 <= i < |r.value| ==> r.value[i].opp.Some?)
  {
    var one := ReduceToOnePlayerPerTeam(leaders);
    if one.Ok? {
      ReductionPreventsFanOut(leaders, lookup);
      var merged := MergeNextMatchupsWithLeagueLeaders(leaders, AttachMatchups(one.value, lookup));
      assert merged.Ok?;
      var cleaned := CleanPlayersDf(merged.value, toUtc);
      if cleaned.Ok? {
        assert LeadersPipeline(leaders, lookup, toUtc) == AddOpponentColumn(cleaned.value);
      }
    }
  }

  /** A team whose representative has no next game leaves its leaders with
      missing matchup cells; when the conversion raises on those (as
      localizing a missing timestamp does), the whole run stops there. */
  lemma MissingMatchupStopsRun(leaders: seq<Leader>, lookup: NextGamesLookup, toUtc: UtcConversion, i: nat)
    requires i < |leaders| && ReduceToOnePlayerPerTeam(leaders).Ok?
    requires NextMatchup(lookup(TeamRepresentative(leaders, i).playerId)) == Unset
    requires toUtc(None, None).None?
    ensures LeadersPipeline(leaders, lookup, toUtc) == Exit(AnErrorOccurred)
  {
    var one := ReduceToOnePlayerPerTeam(leaders);
    var merged := MergeNextMatchupsWithLeagueLeaders(leaders, AttachMatchups(one.value, lookup));
    ReductionPreventsFanOut(leaders, lookup);
    assert merged.Ok? && merged.value[i].next == Unset;
    var cleaned := CleanPlayersDf(merged.value, toUtc);
    assert !Convertible(merged.value[i].next, toUtc);
    assert cleaned == Exit(AnErrorOccurred);
    assert LeadersPipeline(leaders, lookup, toUtc) == Exit(cleaned.message);
  }
}
