/**
 * The main sequence of the script from the postal-code subset on: pick the
 * query key from the contacts, build the candidate frame from the registry
 * records, and fill its score columns.
 */
module Pipeline {
  import opened Values
  import opened MatchKeys
  import opened Contacts
  import opened DunsTable
  import opened Scoring

  /**
   * The query key taken from the contact table (subset, MATCH recomputed, first
   * row): an IndexError when no contact is at the target postal code, and
   * otherwise the unfilled join of the first such contact's company and
   * address, missing when either part is.
   */
  function QueryKeyOf(cl: seq<Contact>): (r: Result<Option<string>>)
    ensures r.Err? <==> forall i :: 0 <= i < |cl| ==> cl[i].postalMatch != Some(TargetPostal)
    ensures r.Err? ==> r.error == IndexError
    ensures r.Ok? ==>
      exists i: nat :: FirstWith(cl, TargetPostal, i) && r.value == JoinFields(cl[i].company, cl[i].address)
  {
    PostalSubsetEmpty(cl, TargetPostal);
    PostalSubsetHead(cl, TargetPostal);
    QueryKey(Rekey(PostalSubset(cl, TargetPostal)))
  }

  /** On an unfilled table, a "57401" contact without a company gives a missing query key. */
  lemma QueryKeyOfMissingCompany()
    ensures QueryKeyOf([Contact(None, Some("1 Main"), Some(TargetPostal), None)]) == Ok(None)
  {
  }

  /**
   * The registry frame just before the loop: the fetched columns, MATCH, and
   * four empty score columns.
   */
  function Candidates(fetched: Table): (t: Table)
    requires Fetched(fetched)
    ensures t.columns == ScoredColumns && Rectangular(t) && |t.rows| == |fetched.rows|
    ensures forall i :: 0 <= i < |t.rows| ==> CandidateOf(t.rows[i], fetched.rows[i])
  {
    CandidateLayout(fetched);
    Reindex(AddMatch(fetched).value, ScoreColumns)
  }

  /**
   * Lines 114-131: a failed pick of the query key stops the run with an
   * IndexError before the registry is read; otherwise the result is a fresh
   * frame with the sixteen scored labels, one row per fetched record, each
   * scored against the query key. No fetched records give a frame with no
   * rows, not an error.
   */
  method MatchCandidates(cl: seq<Contact>, fetched: Table, m: Metrics) returns (r: Result<Frame>)
    requires Fetched(fetched)
    ensures r.Err? <==> QueryKeyOf(cl).Err?
    ensures r.Err? ==> r.error == IndexError
    ensures r.Ok? ==> (fresh(r.value.cells) && r.value.Valid() &&
      r.value.columns == ScoredColumns && r.value.cells.Length0 == |fetched.rows| &&
      r.value.Rows() == ScoreAll(Candidates(fetched).rows, ToCell(QueryKeyOf(cl).value), m))
  {
    var key := QueryKeyOf(cl);
    if key.Err? {
      return Err(key.error);
    }
    CandidateLayout(fetched);
    var frame := new Frame.Reindexed(AddMatch(fetched).value, ScoreColumns);
    frame.FillScores(ToCell(key.value), m);
    r := Ok(frame);
  }

  /**
   * `row` is how the registry record `record` looks just before the loop: the
   * record, its MATCH key (name and street joined), four empty score cells.
   */
  predicate CandidateOf(row: seq<Cell>, record: seq<Cell>)
  {
    |record| == 11 && |row| == |ScoredColumns| &&
    row[..11] == record && row[11] == JoinCells(record[1], record[2]) &&
    row[12..] == [Null, Null, Null, Null]
  }

  /**
   * After scoring, a candidate row still holds its registry record unchanged
   * and its MATCH key under the MATCH label.
   */
  lemma ScoredCandidateRecord(row: seq<Cell>, record: seq<Cell>, q: Cell, m: Metrics)
    requires CandidateOf(row, record)
    ensures var scored := ScoreRow(row, q, m);
      |scored| == |ScoredColumns| && scored[..11] == record &&
      Get(ScoredColumns, scored, MatchColumn) == JoinCells(record[1], record[2])
  {
    var scored := ScoreRow(row, q, m);
    assert forall j :: 0 <= j < 12 ==> scored[j] == row[j];
    assert scored[..11] == row[..11];
    ScoredLabels();
  }

  /**
   * After scoring, a candidate row holds under 'Ratio', 'Partial', 'TSort' and
   * 'TSet' the corresponding metric of the query key against the row's own
   * MATCH key, its name and street joined.
   */
  lemma ScoredCandidateScores(row: seq<Cell>, record: seq<Cell>, q: Cell, m: Metrics)
    requires CandidateOf(row, record)
    ensures var scored := ScoreRow(row, q, m);
      var key := JoinCells(record[1], record[2]);
      |scored| == |ScoredColumns| &&
      Get(ScoredColumns, scored, "Ratio") == Num(m.ratio(q, key)) &&
      Get(ScoredColumns, scored, "Partial") == Num(m.partialRatio(q, key)) &&
      Get(ScoredColumns, scored, "TSort") == Num(m.tokenSortRatio(q, key)) &&
      Get(ScoredColumns, scored, "TSet") == Num(m.tokenSetRatio(q, key))
  {
    assert Get(ScoredColumns, row, MatchColumn) == row[11] by { ScoredLabels(); }
    ScoresLandInNamedColumns(row, q, m);
  }

  /**
   * With the filled contact table as input, a contact at the target postal
   * code makes the query key present: the match key of the first such contact.
   */
  lemma QueryKeyOfPrepared(rows: seq<Contact>, i: nat)
    requires FirstWith(rows, TargetPostal, i)
    ensures QueryKeyOf(PrepareContacts(rows)) == Ok(Some(MatchKey(rows[i].company, rows[i].address)))
  {
    QueryKeyOfFirstCandidate(rows, i);
  }

  /**
   * When the contact table is the one lines 106-110 build from the file, the
   * query key is the match key of the first "57401" contact of the slice.
   */
  lemma QueryKeyOfLoaded(df: seq<Contact>, i: nat)
    requires FirstWith(SliceRows(df, SliceStart, SliceEnd), TargetPostal, i)
    ensures SliceStart + i < |df|
    ensures QueryKeyOf(LoadContacts(df))
         == Ok(Some(MatchKey(df[SliceStart + i].company, df[SliceStart + i].address)))
  {
    QueryKeyOfPrepared(SliceRows(df, SliceStart, SliceEnd), i);
  }
}
