/**
 * The scoring step: for each candidate row, four similarity scores between the
 * query key and the row's MATCH entry are written into the last four columns.
 */
module Scoring {
  import opened Values
  import opened DunsTable

  /**
   * A similarity metric. The library that implements the four metrics is not
   * part of this model, so a metric is any function of the two values it is
   * given; nothing is assumed about its results.
   */
  type Metric = (Cell, Cell) -> int

  datatype Metrics = Metrics(
    ratio: Metric,
    partialRatio: Metric,
    tokenSortRatio: Metric,
    tokenSetRatio: Metric)

  /** The position the loop reads the candidate's key from (`iloc[i, 11]`). */
  const MatchPosition: nat := 11

  /** Python's reading of a position `k`, possibly negative, in a row of `width` cells. */
  function Position(width: nat, k: int): (p: nat)
    requires -(width as int) <= k < width
    ensures p < width
    ensures k < 0 ==> p - k == width
    ensures k >= 0 ==> p == k
  {
    if k < 0 then width + k else k
  }

  /**
   * One iteration of the loop on one row: the four scores are computed from the
   * row's key before any write, then stored at offsets -1, -2, -3, -4 in that
   * order.
   */
  function ScoreRow(row: seq<Cell>, q: Cell, m: Metrics): (r: seq<Cell>)
    requires |row| > MatchPosition
    ensures |r| == |row|
    ensures forall j :: 0 <= j < |row| - 4 ==> r[j] == row[j]
    ensures r[Position(|row|, -4)] == Num(m.ratio(q, row[MatchPosition]))
    ensures r[Position(|row|, -3)] == Num(m.partialRatio(q, row[MatchPosition]))
    ensures r[Position(|row|, -2)] == Num(m.tokenSortRatio(q, row[MatchPosition]))
    ensures r[Position(|row|, -1)] == Num(m.tokenSetRatio(q, row[MatchPosition]))
  {
    var key := row[MatchPosition];
    var w := |row|;
    row[Position(w, -1) := Num(m.tokenSetRatio(q, key))]
       [Position(w, -2) := Num(m.tokenSortRatio(q, key))]
       [Position(w, -3) := Num(m.partialRatio(q, key))]
       [Position(w, -4) := Num(m.ratio(q, key))]
  }

  /** Every row wide enough for the loop's positional reads and writes. */
  predicate Scorable(rows: seq<seq<Cell>>)
  {
    forall i :: 0 <= i < |rows| ==> |rows[i]| > MatchPosition
  }

  /** What the whole loop leaves behind: every row scored on its own. */
  function ScoreAll(rows: seq<seq<Cell>>, q: Cell, m: Metrics): (r: seq<seq<Cell>>)
    requires Scorable(rows)
    ensures |r| == |rows|
    ensures forall i :: 0 <= i < |rows| ==> r[i] == ScoreRow(rows[i], q, m)
  {
    seq(|rows|, i requires 0 <= i < |rows| => ScoreRow(rows[i], q, m))
  }

  /**
   * On a row laid out under the sixteen scored labels, each score lands in the
   * column named for its metric, computed from the row's MATCH cell, and every
   * column up to and including MATCH keeps its cell.
   */
  lemma ScoresLandInNamedColumns(row: seq<Cell>, q: Cell, m: Metrics)
    requires |row| == |ScoredColumns|
    ensures var r := ScoreRow(row, q, m);
      var key := Get(ScoredColumns, row, MatchColumn);
      Get(ScoredColumns, r, "Ratio") == Num(m.ratio(q, key)) &&
      Get(ScoredColumns, r, "Partial") == Num(m.partialRatio(q, key)) &&
      Get(ScoredColumns, r, "TSort") == Num(m.tokenSortRatio(q, key)) &&
      Get(ScoredColumns, r, "TSet") == Num(m.tokenSetRatio(q, key)) &&
      forall c :: c in MatchedColumns ==> Get(ScoredColumns, r, c) == Get(ScoredColumns, row, c)
  {
    ScoredLabels();
    var r := ScoreRow(row, q, m);
    forall c | c in MatchedColumns
      ensures Get(ScoredColumns, r, c) == Get(ScoredColumns, row, c)
    {
      assert ColumnIndex(ScoredColumns, c).value < 12;
    }
  }

  /** The positions of the labels the loop relies on, among the sixteen scored labels. */
  lemma ScoredLabels()
    ensures ColumnIndex(ScoredColumns, MatchColumn) == Some(MatchPosition)
    ensures ColumnIndex(ScoredColumns, "Ratio") == Some(Position(16, -4))
    ensures ColumnIndex(ScoredColumns, "Partial") == Some(Position(16, -3))
    ensures ColumnIndex(ScoredColumns, "TSort") == Some(Position(16, -2))
    ensures ColumnIndex(ScoredColumns, "TSet") == Some(Position(16, -1))
    ensures forall c :: c in MatchedColumns ==> ColumnIndex(ScoredColumns, c).value < 12
  {
    MatchedLabelsKeepPositions();
    MatchAt11();
    RatioAt12();
    PartialAt13();
    TSortAt14();
    TSetAt15();
  }

  /** The twelve labels before the scores keep their positions once the scores are appended. */
  lemma MatchedLabelsKeepPositions()
    ensures forall c :: c in MatchedColumns ==> ColumnIndex(ScoredColumns, c) == ColumnIndex(MatchedColumns, c)
  {
    ScoreLabelsAreNew();
    forall c | c in MatchedColumns ensures ColumnIndex(ScoredColumns, c) == ColumnIndex(MatchedColumns, c) {
      ColumnIndexAppend(MatchedColumns, ScoreColumns, c);
    }
  }

  /** Score label `k` first occurs at position 12 + `k`. */
  lemma ScoreLabelAt(k: nat)
    requires k < 4
    ensures ColumnIndex(ScoredColumns, ScoreColumns[k]) == Some(12 + k)
  {
    ScoreLabelsAreNew();
    assert ColumnIndex(ScoreColumns, ScoreColumns[k]) == Some(k);
    ColumnIndexShift(MatchedColumns, ScoreColumns, ScoreColumns[k]);
  }

  // One lemma per score label, combined in ScoredLabels (see the label facts in DunsTable).
  lemma RatioAt12() ensures ColumnIndex(ScoredColumns, "Ratio") == Some(12) { ScoreLabelAt(0); }
  lemma PartialAt13() ensures ColumnIndex(ScoredColumns, "Partial") == Some(13) { ScoreLabelAt(1); }
  lemma TSortAt14() ensures ColumnIndex(ScoredColumns, "TSort") == Some(14) { ScoreLabelAt(2); }
  lemma TSetAt15() ensures ColumnIndex(ScoredColumns, "TSet") == Some(15) { ScoreLabelAt(3); }

  /** Scoring a row a second time with the same inputs changes nothing. */
  lemma ScoreRowIdempotent(row: seq<Cell>, q: Cell, m: Metrics)
    requires |row| >= MatchPosition + 5
    ensures ScoreRow(ScoreRow(row, q, m), q, m) == ScoreRow(row, q, m)
  {
  }

  /**
   * A row's scores depend on nothing but the query key and the row's own key:
   * two rows of one width with the same key get the same four scores.
   */
  lemma ScoresDependOnKeyOnly(a: seq<Cell>, b: seq<Cell>, q: Cell, m: Metrics)
    requires |a| == |b| > MatchPosition && a[MatchPosition] == b[MatchPosition]
    ensures ScoreRow(a, q, m)[|a| - 4..] == ScoreRow(b, q, m)[|b| - 4..]
  {
  }

  /** The rows of `rows` at positions `picks`, in that order. */
  function Pick<T>(rows: seq<T>, picks: seq<nat>): (r: seq<T>)
    requires forall k :: 0 <= k < |picks| ==> picks[k] < |rows|
    ensures |r| == |picks|
    ensures forall k :: 0 <= k < |picks| ==> r[k] == rows[picks[k]]
  {
    seq(|picks|, k requires 0 <= k < |picks| => rows[picks[k]])
  }

  /**
   * Scoring does not depend on the order or the company of the rows: scoring
   * any rearrangement (or selection) of the rows gives the same rearrangement
   * of the scored rows.
   */
  lemma ScoreAllCommutesWithPick(rows: seq<seq<Cell>>, picks: seq<nat>, q: Cell, m: Metrics)
    requires Scorable(rows)
    requires forall k :: 0 <= k < |picks| ==> picks[k] < |rows|
    ensures Scorable(Pick(rows, picks))
    ensures ScoreAll(Pick(rows, picks), q, m) == Pick(ScoreAll(rows, q, m), picks)
  {
  }

  /** A whole scored table scored again is unchanged. */
  lemma ScoreAllIdempotent(rows: seq<seq<Cell>>, q: Cell, m: Metrics)
    requires forall i :: 0 <= i < |rows| ==> |rows[i]| >= MatchPosition + 5
    ensures Scorable(ScoreAll(rows, q, m))
    ensures ScoreAll(ScoreAll(rows, q, m), q, m) == ScoreAll(rows, q, m)
  {
    var once := ScoreAll(rows, q, m);
    forall i | 0 <= i < |rows| ensures ScoreAll(once, q, m)[i] == once[i] {
      ScoreRowIdempotent(rows[i], q, m);
    }
  }

  /**
   * The frame the loop works on: its labels and a two-dimensional array of
   * cells that the loop overwrites in place.
   */
  class Frame {
    const columns: seq<string>
    const cells: array2<Cell>

    ghost predicate Valid()
      reads this
    {
      cells.Length1 == |columns|
    }

    /** Row `i`, read out of the array. */
    function RowAt(i: nat): (row: seq<Cell>)
      reads this, cells
      requires i < cells.Length0
      ensures |row| == cells.Length1
      ensures forall j :: 0 <= j < cells.Length1 ==> row[j] == cells[i, j]
    {
      seq(cells.Length1, j requires 0 <= j < cells.Length1 reads cells => cells[i, j])
    }

    /** All rows, read out of the array. */
    function Rows(): (rows: seq<seq<Cell>>)
      reads this, cells
      ensures |rows| == cells.Length0
      ensures forall i :: 0 <= i < cells.Length0 ==> rows[i] == RowAt(i)
    {
      seq(cells.Length0, i requires 0 <= i < cells.Length0 reads this, cells => RowAt(i))
    }

    /** `t.reindex(columns = t.columns + extra)`, as a fresh frame. */
    constructor Reindexed(t: Table, extra: seq<string>)
      requires Rectangular(t)
      ensures Valid() && fresh(cells)
      ensures columns == t.columns + extra
      ensures Rows() == Reindex(t, extra).rows
    {
      var r := Reindex(t, extra);
      columns := r.columns;
      cells := new Cell[|r.rows|, |r.columns|](
        (i, j) requires 0 <= i < |r.rows| && 0 <= j < |r.columns| => r.rows[i][j]);
      new;
      assert forall i :: 0 <= i < |r.rows| ==> RowAt(i) == r.rows[i];
    }

    /**
     * One iteration of the loop on row `i`: compute the four scores from the
     * query key and the row's key, then write them by negative offset. Row `i`
     * becomes its ScoreRow and no other row changes.
     */
    method ScoreRowInPlace(i: nat, q: Cell, m: Metrics)
      requires Valid() && i < cells.Length0 && cells.Length1 > MatchPosition
      modifies cells
      ensures RowAt(i) == ScoreRow(old(RowAt(i)), q, m)
      ensures forall r, j :: 0 <= r < cells.Length0 && r != i && 0 <= j < cells.Length1 ==>
        cells[r, j] == old(cells[r, j])
    {
      var w := cells.Length1;
      var key := cells[i, MatchPosition];
      var ratio := m.ratio(q, key);
      var partial := m.partialRatio(q, key);
      var tokenSort := m.tokenSortRatio(q, key);
      var tokenSet := m.tokenSetRatio(q, key);

      cells[i, Position(w, -1)] := Num(tokenSet);
      cells[i, Position(w, -2)] := Num(tokenSort);
      cells[i, Position(w, -3)] := Num(partial);
      cells[i, Position(w, -4)] := Num(ratio);
      assert RowAt(i) == ScoreRow(old(RowAt(i)), q, m) by {
        assert old(RowAt(i))[MatchPosition] == key;
        assert forall j :: 0 <= j < w - 4 ==> RowAt(i)[j] == old(RowAt(i))[j];
      }
    }

    /**
     * The loop of lines 122-131: score every row in turn, in place. It keeps
     * the shape of the frame and leaves the rows as ScoreAll says.
     */
    method FillScores(q: Cell, m: Metrics)
      requires Valid() && cells.Length1 > MatchPosition
      modifies cells
      ensures Rows() == ScoreAll(old(Rows()), q, m)
    {
      for i := 0 to cells.Length0
        invariant forall r :: 0 <= r < i ==> RowAt(r) == ScoreRow(old(RowAt(r)), q, m)
        invariant forall r, j :: i <= r < cells.Length0 && 0 <= j < cells.Length1 ==>
          cells[r, j] == old(cells[r, j])
      {
        assert RowAt(i) == old(RowAt(i));
        label Before:
        ScoreRowInPlace(i, q, m);
        forall r | 0 <= r < i ensures RowAt(r) == old@Before(RowAt(r)) {
          assert forall j :: 0 <= j < cells.Length1 ==> RowAt(r)[j] == old@Before(RowAt(r))[j];
        }
      }
      assert Rows() == ScoreAll(old(Rows()), q, m) by {
        forall i | 0 <= i < cells.Length0 ensures Rows()[i] == ScoreAll(old(Rows()), q, m)[i] {
          assert old(Rows())[i] == old(RowAt(i));
        }
      }
    }
  }
}
