/**
 * The registry (DUNS) side before scoring: the frame built from the fetched
 * records, the MATCH column added by label, and the reindex that appends the
 * four score columns.
 */
module DunsTable {
  import opened Values
  import opened MatchKeys

  /** A frame: column labels and rows of cells, addressed by label or by position. */
  datatype Table = Table(columns: seq<string>, rows: seq<seq<Cell>>)

  /** Every row has one cell per column. */
  predicate Rectangular(t: Table)
  {
    forall i :: 0 <= i < |t.rows| ==> |t.rows[i]| == |t.columns|
  }

  /** The labels given to the eleven fetched registry columns. */
  const FetchedColumns: seq<string> :=
    ["DUNS_NBR", "BUS_NAME", "STREET", "CITY", "STATE", "POSTAL_CODE",
     "NAICS", "Lvl1", "Lvl2", "Lvl3", "Segment"]
  const MatchColumn: string := "MATCH"
  /** The score columns, in the order they are appended. */
  const ScoreColumns: seq<string> := ["Ratio", "Partial", "TSort", "TSet"]
  /** The labels after MATCH is added. */
  const MatchedColumns: seq<string> :=
    ["DUNS_NBR", "BUS_NAME", "STREET", "CITY", "STATE", "POSTAL_CODE",
     "NAICS", "Lvl1", "Lvl2", "Lvl3", "Segment", "MATCH"]
  /** The labels after the score columns are appended. */
  const ScoredColumns: seq<string> :=
    ["DUNS_NBR", "BUS_NAME", "STREET", "CITY", "STATE", "POSTAL_CODE",
     "NAICS", "Lvl1", "Lvl2", "Lvl3", "Segment", "MATCH",
     "Ratio", "Partial", "TSort", "TSet"]

  /** A frame as the registry query returns it. */
  predicate Fetched(t: Table)
  {
    t.columns == FetchedColumns && Rectangular(t)
  }

  /** The position of the first column labelled `name`. */
  function ColumnIndex(cols: seq<string>, name: string): (r: Option<nat>)
    ensures r.None? <==> name !in cols
    ensures r.Some? ==> r.value < |cols| && cols[r.value] == name &&
                        forall j :: 0 <= j < r.value ==> cols[j] != name
  {
    if cols == [] then None
    else if cols[0] == name then Some(0)
    else
      match ColumnIndex(cols[1..], name)
      case None => None
      case Some(k) => Some(k + 1)
  }

  /** The cell of `row` under the label `name`. */
  function Get(cols: seq<string>, row: seq<Cell>, name: string): Cell
    requires |row| == |cols| && name in cols
  {
    row[ColumnIndex(cols, name).value]
  }

  /** Appending labels leaves the positions of the existing labels alone. */
  lemma {:induction false} ColumnIndexAppend(cols: seq<string>, more: seq<string>, c: string)
    requires c in cols
    ensures ColumnIndex(cols + more, c) == ColumnIndex(cols, c)
  {
    if cols[0] != c {
      assert (cols + more)[1..] == cols[1..] + more;
      ColumnIndexAppend(cols[1..], more, c);
    }
  }

  /** A label missing from `cols` is found in `cols + more` where `more` has it, shifted. */
  lemma {:induction false} ColumnIndexShift(cols: seq<string>, more: seq<string>, c: string)
    requires c !in cols && c in more
    ensures ColumnIndex(cols + more, c) == Some(|cols| + ColumnIndex(more, c).value)
  {
    if cols == [] {
      assert cols + more == more;
    } else {
      assert (cols + more)[1..] == cols[1..] + more;
      ColumnIndexShift(cols[1..], more, c);
    }
  }

  /** `df[name]`: the column under a label, a KeyError when there is none. */
  function Column(t: Table, name: string): (r: Result<seq<Cell>>)
    requires Rectangular(t)
    ensures r.Err? <==> name !in t.columns
    ensures r.Err? ==> r.error == KeyError(name)
    ensures r.Ok? ==> (|r.value| == |t.rows| &&
      forall i :: 0 <= i < |t.rows| ==> r.value[i] == Get(t.columns, t.rows[i], name))
  {
    match ColumnIndex(t.columns, name)
    case None => Err(KeyError(name))
    case Some(k) => Ok(seq(|t.rows|, i requires 0 <= i < |t.rows| => t.rows[i][k]))
  }

  /**
   * `df[name] = values`: overwrite the column when the label exists, append it
   * otherwise. Afterwards the label reads back `values` and every other column
   * reads back what it held.
   */
  function SetColumn(t: Table, name: string, values: seq<Cell>): (r: Table)
    requires Rectangular(t) && |values| == |t.rows|
    ensures Rectangular(r) && |r.rows| == |t.rows| && name in r.columns
    ensures name in t.columns ==> r.columns == t.columns
    ensures name !in t.columns ==> (r.columns == t.columns + [name] &&
      forall i :: 0 <= i < |t.rows| ==> r.rows[i][..|t.columns|] == t.rows[i])
    ensures forall i :: 0 <= i < |t.rows| ==> Get(r.columns, r.rows[i], name) == values[i]
    ensures forall i, c :: 0 <= i < |t.rows| && c in t.columns && c != name ==>
      Get(r.columns, r.rows[i], c) == Get(t.columns, t.rows[i], c)
  {
    match ColumnIndex(t.columns, name)
    case None =>
      var r := Table(t.columns + [name],
                     seq(|t.rows|, i requires 0 <= i < |t.rows| => t.rows[i] + [values[i]]));
      assert ColumnIndex(r.columns, name) == Some(|t.columns|);
      assert forall c :: c in t.columns ==> ColumnIndex(r.columns, c) == ColumnIndex(t.columns, c) by {
        forall c | c in t.columns { ColumnIndexAppend(t.columns, [name], c); }
      }
      r
    case Some(k) =>
      Table(t.columns, seq(|t.rows|, i requires 0 <= i < |t.rows| => t.rows[i][k := values[i]]))
  }

  /**
   * `t['MATCH'] = t[nameCol] + ' ' + t[streetCol]`: a KeyError for the first
   * label that is missing; otherwise every row's MATCH entry joins its name and
   * street entries.
   */
  function AddMatchColumn(t: Table, nameCol: string, streetCol: string): (r: Result<Table>)
    requires Rectangular(t)
    ensures r.Err? <==> nameCol !in t.columns || streetCol !in t.columns
    ensures r.Err? ==> r.error == KeyError(if nameCol !in t.columns then nameCol else streetCol)
    ensures r.Ok? ==> (Rectangular(r.value) && |r.value.rows| == |t.rows| &&
      MatchColumn in r.value.columns &&
      forall i :: 0 <= i < |t.rows| ==>
        Get(r.value.columns, r.value.rows[i], MatchColumn)
          == JoinCells(Get(t.columns, t.rows[i], nameCol), Get(t.columns, t.rows[i], streetCol)))
    ensures r.Ok? && MatchColumn !in t.columns ==> (
      r.value.columns == t.columns + [MatchColumn] &&
      forall i :: 0 <= i < |t.rows| ==> r.value.rows[i][..|t.columns|] == t.rows[i])
  {
    match Column(t, nameCol)
    case Err(e) => Err(e)
    case Ok(names) =>
      match Column(t, streetCol)
      case Err(e) => Err(e)
      case Ok(streets) =>
        Ok(SetColumn(t, MatchColumn,
                     seq(|t.rows|, i requires 0 <= i < |t.rows| => JoinCells(names[i], streets[i]))))
  }

  /** Line 119 as written: it reads a 'DUNS_NM' column. */
  function AddMatchAsWritten(t: Table): (r: Result<Table>)
    requires Rectangular(t)
    ensures "DUNS_NM" !in t.columns ==> r == Err(KeyError("DUNS_NM"))
  {
    AddMatchColumn(t, "DUNS_NM", "STREET")
  }

  /**
   * Line 119 with the business-name column the query actually provides: a
   * KeyError naming the first of 'BUS_NAME' and 'STREET' the frame lacks;
   * otherwise MATCH joins each row's name and street, appended after the
   * existing columns, which keep their cells.
   */
  function AddMatch(t: Table): (r: Result<Table>)
    requires Rectangular(t)
    ensures r.Err? <==> "BUS_NAME" !in t.columns || "STREET" !in t.columns
    ensures r.Err? ==> r.error == KeyError(if "BUS_NAME" !in t.columns then "BUS_NAME" else "STREET")
    ensures r.Ok? ==> (Rectangular(r.value) && |r.value.rows| == |t.rows| &&
      MatchColumn in r.value.columns &&
      forall i :: 0 <= i < |t.rows| ==>
        Get(r.value.columns, r.value.rows[i], MatchColumn)
          == JoinCells(Get(t.columns, t.rows[i], "BUS_NAME"), Get(t.columns, t.rows[i], "STREET")))
    ensures r.Ok? && MatchColumn !in t.columns ==> (
      r.value.columns == t.columns + [MatchColumn] &&
      forall i :: 0 <= i < |t.rows| ==> r.value.rows[i][..|t.columns|] == t.rows[i])
  {
    AddMatchColumn(t, "BUS_NAME", "STREET")
  }

  /** As written, line 119 fails on every frame the registry query can return. */
  lemma AsWrittenAlwaysFails(t: Table)
    requires Fetched(t)
    ensures AddMatchAsWritten(t) == Err(KeyError("DUNS_NM"))
  {
    FetchedLabels();
  }

  /** MATCH and 'DUNS_NM' are not among the fetched labels; MATCH is appended after them. */
  lemma FetchedLabelsLackMatch()
    ensures MatchColumn !in FetchedColumns && "DUNS_NM" !in FetchedColumns
    ensures MatchedColumns == FetchedColumns + [MatchColumn]
  {
    forall j | 0 <= j < 11 ensures FetchedColumns[j] != MatchColumn {
      assert FetchedColumns[j][0] != 'M';
    }
    forall j | 0 <= j < 11 ensures FetchedColumns[j] != "DUNS_NM" {
      assert |FetchedColumns[j]| != 7 || FetchedColumns[j][0] != 'D';
    }
  }

  // The label facts below are one lemma each, combined in FetchedLabels and
  // ScoredLabels: stated together over the literal label lists they give the
  // solver one large proof obligation instead of several small ones.

  lemma BusNameAt1()
    ensures ColumnIndex(FetchedColumns, "BUS_NAME") == Some(1)
  {
  }

  lemma StreetAt2()
    ensures ColumnIndex(FetchedColumns, "STREET") == Some(2)
  {
  }

  lemma MatchAt11()
    ensures ColumnIndex(MatchedColumns, MatchColumn) == Some(11)
  {
    FetchedLabelsLackMatch();
    ColumnIndexShift(FetchedColumns, [MatchColumn], MatchColumn);
  }

  /** Where the labels line 119 reads and writes sit. */
  lemma FetchedLabels()
    ensures ColumnIndex(FetchedColumns, "BUS_NAME") == Some(1)
    ensures ColumnIndex(FetchedColumns, "STREET") == Some(2)
    ensures MatchColumn !in FetchedColumns && "DUNS_NM" !in FetchedColumns
    ensures MatchedColumns == FetchedColumns + [MatchColumn]
    ensures ColumnIndex(MatchedColumns, MatchColumn) == Some(11)
  {
    BusNameAt1();
    StreetAt2();
    FetchedLabelsLackMatch();
    MatchAt11();
  }

  /**
   * With 'BUS_NAME', a fetched frame gains MATCH as column 11, after the eleven
   * fetched columns, which keep their cells; MATCH joins the name (column 1)
   * and the street (column 2).
   */
  lemma FetchedMatch(t: Table)
    requires Fetched(t)
    ensures AddMatch(t).Ok?
    ensures var m := AddMatch(t).value;
      m.columns == MatchedColumns && Rectangular(m) && |m.rows| == |t.rows| &&
      forall i :: 0 <= i < |t.rows| ==>
        m.rows[i][..11] == t.rows[i] && m.rows[i][11] == JoinCells(t.rows[i][1], t.rows[i][2])
  {
    FetchedLabels();
    var m := AddMatch(t).value;
    forall i | 0 <= i < |t.rows|
      ensures m.rows[i][11] == JoinCells(t.rows[i][1], t.rows[i][2])
    {
      assert Get(m.columns, m.rows[i], MatchColumn) == m.rows[i][11];
    }
  }

  /**
   * `t.reindex(columns = t.columns + extra)`: the existing columns stay in
   * order with their cells, and each appended label reads the cells of the
   * column with that label if there is one, and NaN otherwise.
   */
  function Reindex(t: Table, extra: seq<string>): (r: Table)
    requires Rectangular(t)
    ensures r.columns == t.columns + extra && Rectangular(r) && |r.rows| == |t.rows|
    ensures forall i :: 0 <= i < |t.rows| ==> r.rows[i][..|t.columns|] == t.rows[i]
    ensures forall i, k :: 0 <= i < |t.rows| && 0 <= k < |extra| ==>
      r.rows[i][|t.columns| + k]
        == if extra[k] in t.columns then Get(t.columns, t.rows[i], extra[k]) else Null
  {
    Table(t.columns + extra,
          seq(|t.rows|, i requires 0 <= i < |t.rows| =>
            t.rows[i] + seq(|extra|, k requires 0 <= k < |extra| =>
              if extra[k] in t.columns then Get(t.columns, t.rows[i], extra[k]) else Null)))
  }

  /** None of the score labels is already a column before the reindex. */
  lemma ScoreLabelsAreNew()
    ensures forall k :: 0 <= k < |ScoreColumns| ==> ScoreColumns[k] !in MatchedColumns
    ensures ScoredColumns == MatchedColumns + ScoreColumns
  {
    forall j | 0 <= j < 12 ensures MatchedColumns[j] !in ScoreColumns {
      assert MatchedColumns[j][0] !in "RT";
      assert MatchedColumns[j][0] != 'P' || |MatchedColumns[j]| != 7;
    }
  }

  /**
   * On the frame with MATCH, appending the score labels gives the sixteen
   * scored labels; columns 0-11 keep their cells and columns 12-15 start
   * empty.
   */
  lemma ReindexScoreColumns(t: Table)
    requires t.columns == MatchedColumns && Rectangular(t)
    ensures var r := Reindex(t, ScoreColumns);
      r.columns == ScoredColumns && |r.rows| == |t.rows| &&
      forall i :: 0 <= i < |t.rows| ==>
        |r.rows[i]| == 16 && r.rows[i][..12] == t.rows[i] && r.rows[i][12..] == [Null, Null, Null, Null]
  {
    ScoreLabelsAreNew();
    var r := Reindex(t, ScoreColumns);
    forall i | 0 <= i < |t.rows|
      ensures r.rows[i][12..] == [Null, Null, Null, Null]
    {
      assert r.rows[i][12] == Null && r.rows[i][13] == Null && r.rows[i][14] == Null && r.rows[i][15] == Null;
    }
  }

  // The row layout before the loop is split into three one-fact lemmas,
  // combined in CandidateLayout, for the same reason as the label facts.

  /** In one row before the scoring loop, the fetched cells come first, unchanged. */
  lemma CandidateRowPrefix(t: Table, i: nat)
    requires Fetched(t) && i < |t.rows|
    ensures AddMatch(t).Ok?
    ensures var c := Reindex(AddMatch(t).value, ScoreColumns);
      i < |c.rows| && c.rows[i][..11] == t.rows[i]
  {
    FetchedMatch(t);
    ReindexScoreColumns(AddMatch(t).value);
  }

  /** In one row before the scoring loop, column 11 joins the name and the street. */
  lemma CandidateRowKey(t: Table, i: nat)
    requires Fetched(t) && i < |t.rows|
    ensures AddMatch(t).Ok?
    ensures var c := Reindex(AddMatch(t).value, ScoreColumns);
      i < |c.rows| && c.rows[i][11] == JoinCells(t.rows[i][1], t.rows[i][2])
  {
    FetchedMatch(t);
    ReindexScoreColumns(AddMatch(t).value);
  }

  /** In one row before the scoring loop, the four score cells are empty. */
  lemma CandidateRowScores(t: Table, i: nat)
    requires Fetched(t) && i < |t.rows|
    ensures AddMatch(t).Ok?
    ensures var c := Reindex(AddMatch(t).value, ScoreColumns);
      i < |c.rows| && c.rows[i][12..] == [Null, Null, Null, Null]
  {
    FetchedMatch(t);
    ReindexScoreColumns(AddMatch(t).value);
  }

  /**
   * The registry frame just before the scoring loop: the eleven fetched
   * columns, MATCH joining name and street, and four empty score columns.
   */
  lemma CandidateLayout(t: Table)
    requires Fetched(t)
    ensures AddMatch(t).Ok?
    ensures var c := Reindex(AddMatch(t).value, ScoreColumns);
      c.columns == ScoredColumns && Rectangular(c) && |c.rows| == |t.rows| &&
      forall i :: 0 <= i < |t.rows| ==>
        c.rows[i][..11] == t.rows[i] &&
        c.rows[i][11] == JoinCells(t.rows[i][1], t.rows[i][2]) &&
        c.rows[i][12..] == [Null, Null, Null, Null]
  {
    assert AddMatch(t).Ok? && AddMatch(t).value.columns == MatchedColumns by { FetchedMatch(t); }
    var c := Reindex(AddMatch(t).value, ScoreColumns);
    assert c.columns == ScoredColumns by { ScoreLabelsAreNew(); }
    forall i | 0 <= i < |t.rows|
      ensures c.rows[i][..11] == t.rows[i]
      ensures c.rows[i][11] == JoinCells(t.rows[i][1], t.rows[i][2])
      ensures c.rows[i][12..] == [Null, Null, Null, Null]
    {
      CandidateRowPrefix(t, i);
      CandidateRowKey(t, i);
      CandidateRowScores(t, i);
    }
  }
}
