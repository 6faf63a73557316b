/** scores.py, get_clean_box_scores: the box scores with their numeric
    columns coerced, every other column as text, lower-case column names, the
    counting columns cast to integers, and an `id` for each player's game. */
module Cleaning {
  import opened Etl
  import opened Text
  import opened Frames

  /** How pandas reads a number out of text (`pd.to_numeric`; None where it
      gives NaN; always a finite number) and how `str` writes a float. */
  datatype Conversions = Conversions(parse: string -> Option<real>, showReal: real -> string)

  const NumericColumns: seq<string> := [
    "MIN", "FGM", "FGA", "FG_PCT", "FG3M", "FG3A", "FG3_PCT", "FTM", "FTA",
    "FT_PCT", "OREB", "DREB", "REB", "AST", "STL", "BLK", "TO", "PF", "PTS", "PLUS_MINUS"]

  /** The columns listed for the integer cast, after renaming. */
  const IntegerColumns: seq<string> := [
    "min", "fgm", "fga", "fg_pct", "fg3m", "fg3a", "ftm", "fta", "oreb",
    "dreb", "reb", "ast", "stl", "blk", "tos", "pf", "pts", "plus_minus"]

  /** The columns the integer cast skips. */
  const PercentageColumns: seq<string> := ["fg3_pct", "ft_pct", "fg_pct"]

  const PlayerIdColumn: string := "player_id"
  const GameIdColumn: string := "game_id"
  const IdColumn: string := "id"

  /** `pd.to_numeric(..., errors='coerce').fillna(0)` on one cell. */
  function Coerce(v: Value, conv: Conversions): (r: Value)
    ensures IsNumber(r)
    ensures IsNumber(v) ==> r == v
    ensures v.Str? ==> r == if conv.parse(v.s).Some? then Num(conv.parse(v.s).value) else Int(0)
    ensures v.Absent? || v.NaN? ==> r == Int(0)
  {
    match v
    case Int(_) => v
    case Num(_) => v
    case Str(s) => if conv.parse(s).Some? then Num(conv.parse(s).value) else Int(0)
    case _ => Int(0)
  }

  function CoerceColumn(col: seq<Value>, conv: Conversions): (r: seq<Value>)
    ensures |r| == |col| && forall i :: 0 <= i < |r| ==> r[i] == Coerce(col[i], conv)
  {
    seq(|col|, i requires 0 <= i < |col| => Coerce(col[i], conv))
  }

  /** `str(v)` for a cell. */
  function AsText(v: Value, conv: Conversions): string
  {
    match v
    case Absent => "None"
    case NaN => "nan"
    case Int(i) => DecimalString(i)
    case Num(x) => conv.showReal(x)
    case Str(s) => s
  }

  /** `astype(str)` on a column. */
  function StringifyColumn(col: seq<Value>, conv: Conversions): (r: seq<Value>)
    ensures |r| == |col| && forall i :: 0 <= i < |r| ==> r[i] == Str(AsText(col[i], conv))
  {
    seq(|col|, i requires 0 <= i < |col| => Str(AsText(col[i], conv)))
  }

  /** Python's `int(x)` on a float: the integer part, rounding toward zero. */
  function Truncate(x: real): (r: int)
    ensures 0.0 <= x ==> r as real <= x < r as real + 1.0
    ensures x < 0.0 ==> r as real - 1.0 < x <= r as real
  {
    if 0.0 <= x then x.Floor else -((-x).Floor)
  }

  function CastValue(v: Value): Value
  {
    if v.Num? then Int(Truncate(v.x)) else v
  }

  /** The model's cast accepts only number cells. */
  predicate Castable(col: seq<Value>)
  {
    forall i :: 0 <= i < |col| ==> IsNumber(col[i])
  }

  /** `astype(int)` on a column of numbers. */
  function CastColumn(col: seq<Value>): (r: seq<Value>)
    ensures |r| == |col| && forall i :: 0 <= i < |r| ==> r[i] == CastValue(col[i])
  {
    seq(|col|, i requires 0 <= i < |col| => CastValue(col[i]))
  }

  /** A column name after the rename of TO to TOS and the lower-casing. */
  function CleanName(c: string): (r: string)
    ensures IsLowerCase(r)
    ensures c != "TO" ==> r == Lower(c)
    ensures c == "TO" ==> r == "tos"
  {
    Lower(if c == "TO" then "TOS" else c)
  }

  // ---------------------------------------------------------------------------
  // The cleaning, for any column lists and any renaming

  /** What the cleaning is made of: the columns it coerces to numbers (all
      others become text), the columns it lists for the integer cast and the
      ones among them it skips, both under the new names, and the renaming. */
  datatype Plan = Plan(numeric: seq<string>, integer: seq<string>, skip: seq<string>, rename: string -> string)

  /** The plan of get_clean_box_scores. */
  const BoxScorePlan: Plan := Plan(NumericColumns, IntegerColumns, PercentageColumns, CleanName)

  /** No two of the names become the same once renamed (pandas would keep
      both, as a duplicated column). */
  predicate NamesStayDistinct(names: set<string>, rename: string -> string)
  {
    forall a, b :: a in names && b in names && a != b ==> rename(a) != rename(b)
  }

  type Columns = map<string, seq<Value>>

  /** Every column has `n` cells. */
  predicate Height(d: Columns, n: nat)
  {
    forall c :: c in d ==> |d[c]| == n
  }

  /** The listed columns coerced one after the other; a column that is not
      there is passed over (the step that raises on it is CleanedTable's). */
  function CoerceColumns(d: Columns, cols: seq<string>, conv: Conversions): (r: Columns)
    ensures r.Keys == d.Keys
    ensures forall c :: c in r ==> |r[c]| == |d[c]|
    decreases |cols|
  {
    if cols == [] then d
    else
      var prev := CoerceColumns(d, cols[..|cols| - 1], conv);
      var c := cols[|cols| - 1];
      if c in prev then prev[c := CoerceColumn(prev[c], conv)] else prev
  }

  /** The named columns converted to text, every other column as it was. */
  function StringifyColumns(d: Columns, cols: set<string>, conv: Conversions): (r: Columns)
    ensures r.Keys == d.Keys
    ensures forall c :: c in r ==> |r[c]| == |d[c]|
  {
    map c | c in d :: if c in cols then StringifyColumn(d[c], conv) else d[c]
  }

  /** The columns under their new names. */
  function RenameColumns(d: Columns, rename: string -> string): (r: Columns)
    requires NamesStayDistinct(d.Keys, rename)
    ensures r.Keys == set c | c in d :: rename(c)
    ensures forall c :: c in d ==> r[rename(c)] == d[c]
    ensures forall n: nat :: Height(d, n) ==> Height(r, n)
  {
    map c | c in d :: rename(c) := d[c]
  }

  /** The listed columns outside `skip` cast to integers one after the
      other; a column that is not there is passed over. */
  function CastColumns(d: Columns, cols: seq<string>, skip: seq<string>): (r: Columns)
    ensures r.Keys == d.Keys
    ensures forall c :: c in r ==> |r[c]| == |d[c]|
    decreases |cols|
  {
    if cols == [] then d
    else
      var prev := CastColumns(d, cols[..|cols| - 1], skip);
      var c := cols[|cols| - 1];
      if c in skip || c !in prev then prev else prev[c := CastColumn(prev[c])]
  }

  /** The `id` column: the player's id as text, an underscore, the game's id
      as text, on every row. */
  function IdentityColumn(players: seq<Value>, games: seq<Value>, conv: Conversions): (r: seq<Value>)
    requires |players| == |games|
    ensures |r| == |players|
    ensures forall i :: 0 <= i < |r| ==> r[i] == Str(CompositeId(AsText(players[i], conv), AsText(games[i], conv)))
  {
    seq(|players|, i requires 0 <= i < |players| =>
      Str(CompositeId(AsText(players[i], conv), AsText(games[i], conv))))
  }

  /** Some of the listed columns is missing: indexing it raises KeyError. */
  predicate Misses(d: Columns, cols: seq<string>)
  {
    exists c :: c in cols && c !in d
  }

  /** Some listed column outside `skip` is missing or not all numbers. */
  predicate CastFails(d: Columns, cols: seq<string>, skip: seq<string>)
  {
    exists c :: c in cols && c !in skip && !(c in d && Castable(d[c]))
  }

  /** The last step: the `id` column; KeyError when player_id or game_id is
      missing. */
  function AddIdentity(t: Table, conv: Conversions): (r: Result<Table>)
    ensures r.Ok? <==> PlayerIdColumn in t.data && GameIdColumn in t.data
    ensures r.Exit? ==> r.message == AnErrorOccurred
    ensures r.Ok? ==> r.value.n == t.n && r.value.data.Keys == t.data.Keys + {IdColumn}
    ensures r.Ok? ==> forall c :: c in t.data && c != IdColumn ==> r.value.data[c] == t.data[c]
    ensures r.Ok? ==> forall i :: 0 <= i < t.n ==>
      r.value.data[IdColumn][i] == Str(CompositeId(AsText(t.data[PlayerIdColumn][i], conv), AsText(t.data[GameIdColumn][i], conv)))
  {
    if PlayerIdColumn in t.data && GameIdColumn in t.data then
      Ok(SetColumn(t, IdColumn, IdentityColumn(t.data[PlayerIdColumn], t.data[GameIdColumn], conv)))
    else Log(AnErrorOccurred, ErrorLevel, t)
  }

  /** The columns outside the list: the ones converted to text. */
  function OtherColumns(d: Columns, numeric: seq<string>): (r: set<string>)
    ensures r <= d.Keys
    ensures forall c :: c in r <==> c in d && c !in numeric
  {
    d.Keys - set c | c in numeric
  }

  /** The columns after the first three steps: the numeric columns coerced,
      the others converted to text, the names changed. */
  function Prepared(t: Table, plan: Plan, conv: Conversions): (r: Columns)
    requires NamesStayDistinct(t.data.Keys, plan.rename)
    ensures Height(r, t.n)
  {
    var coerced := CoerceColumns(t.data, plan.numeric, conv);
    var strung := StringifyColumns(coerced, OtherColumns(t.data, plan.numeric), conv);
    assert Height(t.data, t.n);
    RenameColumns(strung, plan.rename)
  }

  /** The columns after the cast, or the exit of the step that raised. */
  function CastStage(t: Table, plan: Plan, conv: Conversions): (r: Result<Columns>)
    requires NamesStayDistinct(t.data.Keys, plan.rename)
    ensures r.Ok? ==> Height(r.value, t.n)
  {
    if Misses(t.data, plan.numeric) then Log(AnErrorOccurred, ErrorLevel, t.data)
    else
      var renamed := Prepared(t, plan, conv);
      if CastFails(renamed, plan.integer, plan.skip) then Log(AnErrorOccurred, ErrorLevel, t.data)
      else Ok(CastColumns(renamed, plan.integer, plan.skip))
  }

  /** The table the cleaning hands on, or its exit. */
  function CleanedTable(t: Table, conv: Conversions, plan: Plan): Result<Table>
    requires NamesStayDistinct(t.data.Keys, plan.rename)
  {
    var cast :- CastStage(t, plan, conv);
    var frame: Table := Frame(t.n, cast);
    AddIdentity(frame, conv)
  }

  /** Coercing a coerced column changes nothing. */
  lemma CoerceTwice(col: seq<Value>, conv: Conversions)
    ensures CoerceColumn(CoerceColumn(col, conv), conv) == CoerceColumn(col, conv)
  {
  }

  /** After the coercion a column holds its coerced cells when it is listed,
      and its own cells otherwise, however often it is listed. */
  lemma {:induction false} CoercedColumn(d: Columns, cols: seq<string>, conv: Conversions, c: string)
    requires c in d
    ensures CoerceColumns(d, cols, conv)[c] == if c in cols then CoerceColumn(d[c], conv) else d[c]
    decreases |cols|
  {
    if cols != [] {
      var init := cols[..|cols| - 1];
      CoercedColumn(d, init, conv, c);
      assert c in cols <==> c in init || c == cols[|cols| - 1];
      CoerceTwice(d[c], conv);
    }
  }

  /** Converting one more column to text extends the conversion of the
      others. */
  lemma StringifyStep(d: Columns, done: set<string>, c: string, conv: Conversions)
    requires c in d && c !in done
    ensures var prev := StringifyColumns(d, done, conv);
      StringifyColumns(d, done + {c}, conv) == prev[c := StringifyColumn(prev[c], conv)]
  {
    var prev := StringifyColumns(d, done, conv);
    var next := StringifyColumns(d, done + {c}, conv);
    assert forall k :: k in next ==> next[k] == prev[c := StringifyColumn(prev[c], conv)][k];
  }

  /** Casting a cast column changes nothing. */
  lemma CastTwice(col: seq<Value>)
    ensures CastColumn(CastColumn(col)) == CastColumn(col)
  {
    assert forall i :: 0 <= i < |col| ==> CastValue(CastValue(col[i])) == CastValue(col[i]);
  }

  /** After the cast a column holds its cast cells when it is listed and not
      skipped, and its own cells otherwise. */
  lemma {:induction false} CastColumnAt(d: Columns, cols: seq<string>, skip: seq<string>, c: string)
    requires c in d
    ensures CastColumns(d, cols, skip)[c] == if c in cols && c !in skip then CastColumn(d[c]) else d[c]
    decreases |cols|
  {
    if cols != [] {
      var init := cols[..|cols| - 1];
      CastColumnAt(d, init, skip, c);
      assert c in cols <==> c in init || c == cols[|cols| - 1];
      CastTwice(d[c]);
    }
  }

  /** The first loop: each listed column coerced in turn, KeyError on the
      first that is missing. */
  method CoerceListedColumns(d: Columns, cols: seq<string>, conv: Conversions) returns (r: Result<Columns>)
    ensures r.Ok? <==> !Misses(d, cols)
    ensures r.Exit? ==> r.message == AnErrorOccurred
    ensures r.Ok? ==> r.value == CoerceColumns(d, cols, conv)
  {
    var data := d;
    for k := 0 to |cols|
      invariant data == CoerceColumns(d, cols[..k], conv)
      invariant forall j :: 0 <= j < k ==> cols[j] in d
    {
      var c := cols[k];
      if c !in data {
        assert Misses(d, cols);
        return Log(AnErrorOccurred, ErrorLevel, d);
      }
      assert cols[..k + 1][..k] == cols[..k];
      data := data[c := CoerceColumn(data[c], conv)];
    }
    assert cols[..|cols|] == cols;
    r := Ok(data);
  }

  /** The second loop: the given columns converted to text, in whatever
      order the set gives them. */
  method StringifyOtherColumns(d: Columns, others: set<string>, conv: Conversions) returns (r: Columns)
    requires others <= d.Keys
    ensures r == StringifyColumns(d, others, conv)
  {
    r := d;
    var pending := others;
    var done: set<string> := {};
    assert StringifyColumns(d, done, conv) == d;
    while pending != {}
      invariant done + pending == others && done !! pending
      invariant r == StringifyColumns(d, done, conv)
      decreases pending
    {
      var c :| c in pending;
      StringifyStep(d, done, c, conv);
      r := r[c := StringifyColumn(r[c], conv)];
      done := done + {c};
      pending := pending - {c};
    }
  }

  /** While every column cast so far was castable, a column of the partial
      cast is castable exactly when it was before the cast. */
  lemma CastKeepsCastable(d: Columns, cols: seq<string>, skip: seq<string>, c: string)
    requires forall j :: 0 <= j < |cols| && cols[j] !in skip ==> cols[j] in d && Castable(d[cols[j]])
    requires c in d
    ensures Castable(CastColumns(d, cols, skip)[c]) <==> Castable(d[c])
  {
    CastColumnAt(d, cols, skip, c);
    if c in cols && c !in skip {
      var j :| 0 <= j < |cols| && cols[j] == c;
      assert Castable(d[c]);
    }
  }

  /** The third loop: each listed column outside `skip` cast to integers; a
      missing column or one that does not cast raises. */
  method CastListedColumns(d: Columns, cols: seq<string>, skip: seq<string>) returns (r: Result<Columns>)
    ensures r.Ok? <==> !CastFails(d, cols, skip)
    ensures r.Exit? ==> r.message == AnErrorOccurred
    ensures r.Ok? ==> r.value == CastColumns(d, cols, skip)
  {
    var data := d;
    for k := 0 to |cols|
      invariant data == CastColumns(d, cols[..k], skip)
      invariant forall j :: 0 <= j < k && cols[j] !in skip ==> cols[j] in d && Castable(d[cols[j]])
    {
      var c := cols[k];
      assert cols[..k + 1][..k] == cols[..k];
      if c !in skip {
        if c in d {
          CastKeepsCastable(d, cols[..k], skip, c);
        }
        if c !in data || !Castable(data[c]) {
          assert CastFails(d, cols, skip);
          return Log(AnErrorOccurred, ErrorLevel, d);
        }
        data := data[c := CastColumn(data[c])];
      }
    }
    assert cols[..|cols|] == cols;
    r := Ok(data);
  }

  /** The first three steps: coerce the numeric columns, convert the others to
      text, change the names. */
  method PrepareColumns(t: Table, plan: Plan, conv: Conversions) returns (r: Result<Columns>)
    requires NamesStayDistinct(t.data.Keys, plan.rename)
    ensures r.Ok? <==> !Misses(t.data, plan.numeric)
    ensures r.Exit? ==> r.message == AnErrorOccurred
    ensures r.Ok? ==> r.value == Prepared(t, plan, conv)
  {
    var coerced :- CoerceListedColumns(t.data, plan.numeric, conv);
    var strung := StringifyOtherColumns(coerced, OtherColumns(t.data, plan.numeric), conv);
    r := Ok(RenameColumns(strung, plan.rename));
  }

  /** The coercion, the conversion to text, the renaming and the cast. */
  method CastTable(t: Table, plan: Plan, conv: Conversions) returns (r: Result<Columns>)
    requires NamesStayDistinct(t.data.Keys, plan.rename)
    ensures r == CastStage(t, plan, conv)
  {
    var prepared := PrepareColumns(t, plan, conv);
    if prepared.Exit? {
      return Log(AnErrorOccurred, ErrorLevel, t.data);
    }
    r := CastListedColumns(prepared.value, plan.integer, plan.skip);
    if r.Exit? {
      return Log(AnErrorOccurred, ErrorLevel, t.data);
    }
  }

  /** The cleaning, step by step, for any plan. */
  method CleanTable(t: Table, conv: Conversions, plan: Plan) returns (r: Result<Table>)
    requires NamesStayDistinct(t.data.Keys, plan.rename)
    ensures r == CleanedTable(t, conv, plan)
  {
    var cast := CastTable(t, plan, conv);
    if cast.Exit? {
      return Exit(cast.message);
    }
    var frame: Table := Frame(t.n, cast.value);
    r := AddIdentity(frame, conv);
  }

  /** scores.py, get_clean_box_scores. */
  method CleanBoxScores(t: Table, conv: Conversions) returns (r: Result<Table>)
    requires NamesStayDistinct(t.data.Keys, CleanName)
    ensures r == CleanedTable(t, conv, BoxScorePlan)
  {
    r := CleanTable(t, conv, BoxScorePlan);
  }

  // ---------------------------------------------------------------------------
  // What a plan must satisfy, and why the box-score plan does

  /** A column the integer cast converts. */
  predicate IsCastTarget(plan: Plan, c: string)
  {
    c in plan.integer && c !in plan.skip
  }

  /** Every new name is lower case; every column the cast converts is the new
      name of a numeric column; no numeric column is renamed into the
      identity or one of its parts. */
  ghost predicate PlanFits(plan: Plan)
  {
    (forall c :: IsLowerCase(plan.rename(c)))
    && (forall d :: IsCastTarget(plan, d) ==> exists n :: n in plan.numeric && plan.rename(n) == d)
    && (forall n :: n in plan.numeric ==>
          plan.rename(n) != IdColumn && plan.rename(n) != PlayerIdColumn && plan.rename(n) != GameIdColumn)
  }

  /** The cleaning of get_clean_box_scores fits. */
  lemma BoxScorePlanFits()
    ensures PlanFits(BoxScorePlan)
  {
    forall d | IsCastTarget(BoxScorePlan, d)
      ensures exists n :: n in NumericColumns && CleanName(n) == d
    {
      IntegerColumnsAreNumeric(d);
    }
    forall n | n in NumericColumns
      ensures CleanName(n) != IdColumn && CleanName(n) != PlayerIdColumn && CleanName(n) != GameIdColumn
    {
      NumericNamesReserved(n);
    }
  }

  /** Each column the cast visits is the cleaned name of a numeric column. */
  lemma IntegerColumnsAreNumeric(c: string)
    requires c in IntegerColumns
    ensures exists n :: n in NumericColumns && CleanName(n) == c
  {
    var k :| 0 <= k < |IntegerColumns| && IntegerColumns[k] == c;
    IntegerSourcesMatch(k);
    assert NumericColumns[IntegerSources[k]] in NumericColumns;
  }

  /** Where each cast column comes from: IntegerColumns[k] is the cleaned
      name of NumericColumns[IntegerSources[k]]. */
  const IntegerSources: seq<nat> := [0, 1, 2, 3, 4, 5, 7, 8, 10, 11, 12, 13, 14, 15, 16, 17, 18, 19]

  /** The source table is right: every cast column is the cleaned name of the
      numeric column it points to. */
  lemma IntegerSourcesMatch(k: nat)
    requires k < |IntegerColumns|
    ensures |IntegerSources| == |IntegerColumns| && IntegerSources[k] < |NumericColumns|
    ensures CleanName(NumericColumns[IntegerSources[k]]) == IntegerColumns[k]
  {
    if k == 0 {} else if k == 1 {} else if k == 2 {} else if k == 3 {}
    else if k == 4 {} else if k == 5 {} else if k == 6 {} else if k == 7 {}
    else if k == 8 {} else if k == 9 {} else if k == 10 {} else if k == 11 {}
    else if k == 12 {} else if k == 13 {} else if k == 14 {} else if k == 15 {}
    else if k == 16 {} else {}
  }

  /** No numeric column is cleaned into the identity or one of its parts:
      the lengths differ, except for PF and FG3_PCT, whose first letters do. */
  lemma NumericNamesReserved(n: string)
    requires n in NumericColumns
    ensures CleanName(n) != IdColumn && CleanName(n) != PlayerIdColumn && CleanName(n) != GameIdColumn
  {
    assert |CleanName(n)| == if n == "TO" then 3 else |n|;
    if n == "PF" {
      assert CleanName(n)[0] == 'p';
    } else if n == "FG3_PCT" {
      assert CleanName(n)[0] == 'f';
    }
  }

  // ---------------------------------------------------------------------------
  // What the cleaning guarantees, for every plan that fits

  /** After the first three steps a numeric column holds its coerced cells,
      and any other column its cells as text, under its new name. */
  lemma PreparedColumn(t: Table, plan: Plan, conv: Conversions, c: string)
    requires NamesStayDistinct(t.data.Keys, plan.rename) && c in t.data
    ensures var p := Prepared(t, plan, conv);
      plan.rename(c) in p &&
      p[plan.rename(c)] == if c in plan.numeric then CoerceColumn(t.data[c], conv) else StringifyColumn(t.data[c], conv)
  {
    CoercedColumn(t.data, plan.numeric, conv, c);
  }

  /** After the cast a column holds its prepared cells, cast when the cast
      converts it. */
  lemma CastPreparedColumn(t: Table, plan: Plan, conv: Conversions, c: string)
    requires NamesStayDistinct(t.data.Keys, plan.rename) && c in t.data
    ensures var p := Prepared(t, plan, conv); var cast := CastColumns(p, plan.integer, plan.skip);
      var d := plan.rename(c); var prepared := if c in plan.numeric then CoerceColumn(t.data[c], conv) else StringifyColumn(t.data[c], conv);
      d in cast && cast[d] == if IsCastTarget(plan, d) then CastColumn(prepared) else prepared
  {
    PreparedColumn(t, plan, conv, c);
    CastColumnAt(Prepared(t, plan, conv), plan.integer, plan.skip, plan.rename(c));
  }

  /** The prepared columns are the renamed columns of the box scores. */
  lemma PreparedKeys(t: Table, plan: Plan, conv: Conversions)
    requires NamesStayDistinct(t.data.Keys, plan.rename)
    ensures Prepared(t, plan, conv).Keys == set c | c in t.data :: plan.rename(c)
  {
    var coerced := CoerceColumns(t.data, plan.numeric, conv);
    var strung := StringifyColumns(coerced, OtherColumns(t.data, plan.numeric), conv);
    assert strung.Keys == t.data.Keys;
  }

  /** A successful cleaning is the identity step on the cast of the prepared
      columns. */
  lemma CleanedSteps(t: Table, conv: Conversions, plan: Plan)
    requires NamesStayDistinct(t.data.Keys, plan.rename)
    requires CleanedTable(t, conv, plan).Ok?
    ensures !Misses(t.data, plan.numeric)
    ensures var cast := CastColumns(Prepared(t, plan, conv), plan.integer, plan.skip);
      Height(cast, t.n) && CleanedTable(t, conv, plan) == AddIdentity(Frame(t.n, cast), conv)
  {
  }

  /** A coerced cell is a number, and casting it gives an integer. */
  lemma CoercedCells(col: seq<Value>, conv: Conversions)
    ensures forall i :: 0 <= i < |col| ==> IsNumber(CoerceColumn(col, conv)[i])
    ensures forall i :: 0 <= i < |col| ==> CastColumn(CoerceColumn(col, conv))[i].Int?
  {
  }

  /** Names made by a renaming to lower case, and `id`, are lower case. */
  lemma RenamedKeysLowerCase(keys: set<string>, names: set<string>, rename: string -> string)
    requires forall c :: IsLowerCase(rename(c))
    requires keys == (set d | d in names :: rename(d)) + {IdColumn}
    ensures forall c :: c in keys ==> IsLowerCase(c)
  {
    assert IsLowerCase(IdColumn);
  }

  /** The cleaned table has as many rows as the box scores, every column under
      its new (lower-case) name, and `id`. */
  lemma CleanShape(t: Table, conv: Conversions, plan: Plan)
    requires PlanFits(plan)
    requires NamesStayDistinct(t.data.Keys, plan.rename)
    requires CleanedTable(t, conv, plan).Ok?
    ensures var r := CleanedTable(t, conv, plan).value;
      r.n == t.n
      && r.data.Keys == (set c | c in t.data :: plan.rename(c)) + {IdColumn}
      && forall c :: c in r.data ==> IsLowerCase(c)
  {
    CleanedSteps(t, conv, plan);
    PreparedKeys(t, plan, conv);
    var r := CleanedTable(t, conv, plan).value;
    assert r.data.Keys == (set c | c in t.data :: plan.rename(c)) + {IdColumn};
    RenamedKeysLowerCase(r.data.Keys, t.data.Keys, plan.rename);
  }

  /** The cleaning hands on a table with an `id` column and lower-case names,
      or stops with the message of the step that raised. */
  lemma CleanOutcome(t: Table, conv: Conversions, plan: Plan)
    requires PlanFits(plan)
    requires NamesStayDistinct(t.data.Keys, plan.rename)
    ensures var r := CleanedTable(t, conv, plan);
      (r.Exit? ==> r.message == AnErrorOccurred)
      && (r.Ok? ==> IdColumn in r.value.data && forall c :: c in r.value.data ==> IsLowerCase(c))
  {
    CleanFailure(t, conv, plan);
    if CleanedTable(t, conv, plan).Ok? {
      CleanShape(t, conv, plan);
    }
  }

  /** CleanOutcome for the cleaning of get_clean_box_scores. */
  lemma CleanBoxScoresOutcome(t: Table, conv: Conversions)
    requires NamesStayDistinct(t.data.Keys, CleanName)
    ensures var r := CleanedTable(t, conv, BoxScorePlan);
      (r.Exit? ==> r.message == AnErrorOccurred)
      && (r.Ok? ==> IdColumn in r.value.data && forall c :: c in r.value.data ==> IsLowerCase(c))
  {
    BoxScorePlanFits();
    CleanOutcome(t, conv, BoxScorePlan);
  }

  /** Every numeric column comes out coerced, with no missing value left, and
      cast to integers when the cast lists it. */
  lemma CleanNumericColumn(t: Table, conv: Conversions, plan: Plan, n: string)
    requires PlanFits(plan)
    requires NamesStayDistinct(t.data.Keys, plan.rename)
    requires CleanedTable(t, conv, plan).Ok?
    requires n in plan.numeric
    ensures var r := CleanedTable(t, conv, plan).value; var c := plan.rename(n);
      n in t.data && c in r.data
      && r.data[c] == (if IsCastTarget(plan, c) then CastColumn(CoerceColumn(t.data[n], conv))
                       else CoerceColumn(t.data[n], conv))
      && (forall i :: 0 <= i < r.n ==> IsNumber(r.data[c][i]))
      && (IsCastTarget(plan, c) ==> forall i :: 0 <= i < r.n ==> r.data[c][i].Int?)
  {
    CleanedSteps(t, conv, plan);
    CastPreparedColumn(t, plan, conv, n);
    var c := plan.rename(n);
    var cast := CastColumns(Prepared(t, plan, conv), plan.integer, plan.skip);
    var r := CleanedTable(t, conv, plan).value;
    assert c != IdColumn;
    assert r.data[c] == cast[c];
    CoercedCells(t.data[n], conv);
  }

  /** Every other column comes out as the text of its cells. */
  lemma CleanTextColumn(t: Table, conv: Conversions, plan: Plan, c: string)
    requires PlanFits(plan)
    requires NamesStayDistinct(t.data.Keys, plan.rename)
    requires CleanedTable(t, conv, plan).Ok?
    requires c in t.data && c !in plan.numeric && plan.rename(c) != IdColumn
    ensures var r := CleanedTable(t, conv, plan).value;
      plan.rename(c) in r.data && r.data[plan.rename(c)] == StringifyColumn(t.data[c], conv)
  {
    CleanedSteps(t, conv, plan);
    CastPreparedColumn(t, plan, conv, c);
    forall n | n in plan.numeric ensures plan.rename(n) != plan.rename(c) {
      assert n in t.data && n != c;
    }
    assert !IsCastTarget(plan, plan.rename(c));
  }

  /** The `id` of each row is its player id, an underscore and its game id,
      each as text. */
  lemma CleanIdentity(t: Table, conv: Conversions, plan: Plan, player: string, game: string)
    requires PlanFits(plan)
    requires NamesStayDistinct(t.data.Keys, plan.rename)
    requires CleanedTable(t, conv, plan).Ok?
    requires player in t.data && plan.rename(player) == PlayerIdColumn
    requires game in t.data && plan.rename(game) == GameIdColumn
    ensures var r := CleanedTable(t, conv, plan).value;
      IdColumn in r.data && r.data[IdColumn] == IdentityColumn(t.data[player], t.data[game], conv)
  {
    CleanedSteps(t, conv, plan);
    CastPreparedColumn(t, plan, conv, player);
    CastPreparedColumn(t, plan, conv, game);
    var players, games := StringifyColumn(t.data[player], conv), StringifyColumn(t.data[game], conv);
    var cast := CastColumns(Prepared(t, plan, conv), plan.integer, plan.skip);
    assert !IsCastTarget(plan, PlayerIdColumn) && !IsCastTarget(plan, GameIdColumn);
    assert cast[PlayerIdColumn] == players && cast[GameIdColumn] == games;
    TextIdentity(t.data[player], t.data[game], conv);
  }

  /** Building the identity from the text of the ids gives the same column
      as building it from the ids. */
  lemma TextIdentity(players: seq<Value>, games: seq<Value>, conv: Conversions)
    requires |players| == |games|
    ensures IdentityColumn(StringifyColumn(players, conv), StringifyColumn(games, conv), conv)
      == IdentityColumn(players, games, conv)
  {
  }

  /** With integer player ids, two rows get the same `id` exactly when they
      have the same player and the same game id text. */
  lemma IdentityColumnInjective(players: seq<Value>, games: seq<Value>, conv: Conversions, i: nat, j: nat)
    requires |players| == |games| && i < |players| && j < |players|
    requires players[i].Int? && players[j].Int?
    ensures var ids := IdentityColumn(players, games, conv);
      ids[i] == ids[j] <==> players[i] == players[j] && AsText(games[i], conv) == AsText(games[j], conv)
  {
    var ids := IdentityColumn(players, games, conv);
    var p1, p2 := players[i].i, players[j].i;
    var g1, g2 := AsText(games[i], conv), AsText(games[j], conv);
    if ids[i] == ids[j] {
      CompositeIdInjective(DecimalString(p1), g1, DecimalString(p2), g2);
      DecimalInjective(p1, p2);
    }
  }

  /** With integer player ids, two rows of the cleaned table share an `id`
      exactly when they have the same player and the same game id text. */
  lemma IdentityInjective(t: Table, conv: Conversions, plan: Plan, player: string, game: string, i: nat, j: nat)
    requires PlanFits(plan)
    requires NamesStayDistinct(t.data.Keys, plan.rename)
    requires CleanedTable(t, conv, plan).Ok?
    requires player in t.data && plan.rename(player) == PlayerIdColumn
    requires game in t.data && plan.rename(game) == GameIdColumn
    requires i < t.n && j < t.n && t.data[player][i].Int? && t.data[player][j].Int?
    ensures var ids := CleanedTable(t, conv, plan).value.data[IdColumn];
      ids[i] == ids[j] <==>
        t.data[player][i] == t.data[player][j] && AsText(t.data[game][i], conv) == AsText(t.data[game][j], conv)
  {
    CleanIdentity(t, conv, plan, player, game);
    IdentityColumnInjective(t.data[player], t.data[game], conv, i, j);
  }

  /** When every numeric column is there, the cast cannot fail: each column
      it converts holds coerced numbers. */
  lemma CastSucceeds(t: Table, conv: Conversions, plan: Plan)
    requires PlanFits(plan)
    requires NamesStayDistinct(t.data.Keys, plan.rename)
    requires !Misses(t.data, plan.numeric)
    ensures !CastFails(Prepared(t, plan, conv), plan.integer, plan.skip)
  {
    var prepared := Prepared(t, plan, conv);
    forall d | IsCastTarget(plan, d) ensures d in prepared && Castable(prepared[d]) {
      var n :| n in plan.numeric && plan.rename(n) == d;
      PreparedColumn(t, plan, conv, n);
      CoercedCells(t.data[n], conv);
    }
  }

  /** A name is among the renamed names exactly when some name is renamed
      to it. */
  lemma RenamedMember(names: set<string>, rename: string -> string, x: string)
    ensures x in (set c | c in names :: rename(c)) <==> exists c :: c in names && rename(c) == x
  {
  }

  /** The steps before the identity stop exactly when a numeric column is
      missing, and keep every column under its new name. */
  lemma CastStageOutcome(t: Table, conv: Conversions, plan: Plan)
    requires PlanFits(plan)
    requires NamesStayDistinct(t.data.Keys, plan.rename)
    ensures var stage := CastStage(t, plan, conv);
      (stage.Ok? <==> !Misses(t.data, plan.numeric))
      && (stage.Exit? ==> stage.message == AnErrorOccurred)
      && (stage.Ok? ==> stage.value.Keys == set c | c in t.data :: plan.rename(c))
  {
    if !Misses(t.data, plan.numeric) {
      CastSucceeds(t, conv, plan);
      PreparedKeys(t, plan, conv);
    }
  }

  /** The identity step fails exactly when the player id or the game id is
      missing after the cast. */
  lemma IdentityStep(t: Table, conv: Conversions, plan: Plan)
    requires NamesStayDistinct(t.data.Keys, plan.rename)
    ensures var stage := CastStage(t, plan, conv);
      CleanedTable(t, conv, plan).Exit? <==>
        stage.Exit? || PlayerIdColumn !in stage.value || GameIdColumn !in stage.value
  {
  }

  /** The cleaning stops exactly when a numeric column, the player id or the
      game id is missing: the cast after the coercion cannot fail. */
  lemma CleanFailure(t: Table, conv: Conversions, plan: Plan)
    requires PlanFits(plan)
    requires NamesStayDistinct(t.data.Keys, plan.rename)
    ensures CleanedTable(t, conv, plan).Exit? <==>
      Misses(t.data, plan.numeric)
      || !(exists p :: p in t.data && plan.rename(p) == PlayerIdColumn)
      || !(exists g :: g in t.data && plan.rename(g) == GameIdColumn)
    ensures CleanedTable(t, conv, plan).Exit? ==> CleanedTable(t, conv, plan).message == AnErrorOccurred
  {
    CastStageOutcome(t, conv, plan);
    IdentityStep(t, conv, plan);
    RenamedMember(t.data.Keys, plan.rename, PlayerIdColumn);
    RenamedMember(t.data.Keys, plan.rename, GameIdColumn);
  }
}
