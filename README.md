# Eloqua-to-DUNS fuzzy matching: a Dafny model of the scoring step

The script `Eloqua_Script.py` links a marketing contact list (Eloqua IDs) to
the DUNS business registry. It works on one postal code, "57401". It picks a
query key from the contacts at that postal code. It then scores every registry
record at that postal code against the key with four string-similarity metrics
(`ratio`, `partial_ratio`, `token_sort_ratio`, `token_set_ratio`). The scores
are written into four columns appended to the registry frame.

This project models the part of the script that is its own logic:

- **Match keys** (`match_keys.dfy`, module `MatchKeys`). A missing company
  becomes `"NULL Company"` and a missing address becomes `"NULL Address"`. The
  key is then `name + " " + address`. Joining two pandas string columns
  propagates a missing entry, and this is modelled too.
- **Contacts** (`contacts.dfy`, module `Contacts`). This covers the positional
  row slice, the fill and MATCH column, and the postal-code subset. It also
  covers `eloqua_subset`, the recomputed MATCH column and the pick of the query
  key (`iloc[0, -1]`, an IndexError on an empty subset).
- **Registry frame** (`duns_table.dfy`, module `DunsTable`). The frame is a
  `Table` of labels and rows of cells. `df[label]` reads a column by label.
  `df[label] = v` overwrites or appends a column. The MATCH column of line 119
  is built this way, and `reindex` appends the four score columns.
- **Scoring** (`scoring.dfy`, module `Scoring`). The loop of lines 122-131 is
  the method `Frame.FillScores`. It works on a class whose cells are an
  `array2<Cell>` overwritten in place. Writes go by negative offset, as in the
  source. Its contract ties the new contents to the function `ScoreAll` of the
  old contents. Lemmas then state what `ScoreAll` means: each score sits in the
  column named for its metric, columns 0-11 are untouched, a row's scores
  depend only on the query key and that row's MATCH key, the result does not
  depend on row order, and scoring twice changes nothing.
- **Pipeline** (`pipeline.dfy`, module `Pipeline`). Lines 114-131 as one
  method. If no contact has the target postal code, the run stops with an
  IndexError before any scoring. Otherwise the result is a fresh frame with
  sixteen labelled columns and one scored row per registry record. No registry
  records give a frame with no rows, not an error.

The four metrics live in a library that the script neither shows nor imports.
They are modelled as four arbitrary functions in a `Metrics` value, and
nothing is assumed about their results. They take frame cells rather than
strings. As written, both the query key (line 116, which does no fill) and a
registry MATCH entry (line 119, which does no fill) can be missing.

The script as written cannot run, so the model follows its evident data flow:

- `cl_df` (lines 78 and 114) is never defined. The contact table is an input
  of the model. `Contacts.QueryKeyOfFirstCandidate` shows what happens when
  that input is the filled table of lines 108-110: the key is then never
  missing.
- `fuzz` (line 123) is never imported. The metrics are parameters.
- `e_match` is a plain string after line 117, so `.to_string()` (lines
  123-126) would raise. The model passes the key itself.
- Line 119 reads a column `'DUNS_NM'` that the registry frame does not have.
  See Findings. The model uses `'BUS_NAME'`.

The registry key is the business name and the street (`BUS_NAME`,
`STREET`). Where the script cannot run as written (the points above), the
model follows its evident data flow. Elsewhere it follows the text, and
Findings lists the two places where text and intent differ. Nothing is
assumed about the metrics, not even that scores lie in [0, 100].

The contact table of lines 106-110 (the positional slice, the fill and MATCH)
is modelled by `Contacts.LoadContacts`. Lines 114-117 read the undefined
`cl_df` rather than that table. `Pipeline.QueryKeyOf` therefore takes any
contact table, and `Pipeline.QueryKeyOfLoaded` states what the key would be if
`cl_df` were the table of lines 106-110.

## Model

| member | source | states |
|---|---|---|
| `MatchKeys.JoinFields` | Eloqua_Script.py:115-116 | `a + ' ' + b` on two string columns is present exactly when both parts are present, and is then the first part, one space, the second part |
| `MatchKeys.JoinCells` | Eloqua_Script.py:119 | the same join on frame cells: a string exactly when both cells hold strings, NaN otherwise |
| `MatchKeys.MatchKey` | Eloqua_Script.py:108-110 | the key is total; it begins with the company or "NULL Company" when the company is missing, ends with the address or "NULL Address", and splits as name, one space, address; where the plain join is defined, the key equals it |
| `MatchKeys.MatchKeyAmbiguous` | Eloqua_Script.py:108-110 | the key does not identify its record: a missing company and a company literally named "NULL Company" share a key, as do ("A B", "C") and ("A", "B C") |
| `Contacts.SliceRows` | Eloqua_Script.py:107 | `iloc[lo:hi]` with Python's clamped bounds: its length, each row taken from position `lo + k`, and nothing added |
| `Contacts.FillContact` | Eloqua_Script.py:108-110 | after the fill the company, address and MATCH entries are all present; present values are kept, missing ones get their sentinel; MATCH is the join of the filled values; the postal code is unchanged |
| `Contacts.LoadContacts` | Eloqua_Script.py:106-110 | the contact table is the positional slice `[6173:88505]` of the file's rows, each filled and keyed: at most 82332 rows, row `k` is file row `6173 + k` after the fill |
| `Contacts.PrepareContacts` | Eloqua_Script.py:108-110 | the filled table has the same rows in the same order, each with its postal code and a never-missing MATCH key |
| `Contacts.PostalSubset` | Eloqua_Script.py:114 | the boolean-mask subset holds exactly the rows whose postal code is `pc`, each as often as in the input, and none other |
| `Contacts.PostalSubsetAppend` | Eloqua_Script.py:114 | the subset keeps the original order: it distributes over concatenation |
| `Contacts.PostalSubsetFirst` | Eloqua_Script.py:114-117 | the first row of the subset is the first input row with that postal code |
| `Contacts.PostalSubsetHead` | Eloqua_Script.py:114-117 | a non-empty subset begins with the first input row that has the postal code, whatever the input |
| `Contacts.PostalSubsetEmpty` | Eloqua_Script.py:114 | the subset is empty exactly when no row has the postal code |
| `Contacts.EloquaSubset` | Eloqua_Script.py:64-80 | `eloqua_subset(pc)` returns exactly the "57401" rows of the table, each as often as in the table, whatever `pc` is |
| `Contacts.EloquaSubsetAnyArgument` | Eloqua_Script.py:64-80 | two calls of `eloqua_subset` on one table with different arguments return the same rows |
| `Contacts.EloquaSubsetIgnoresArgument` | Eloqua_Script.py:78 | asked for "55401", `eloqua_subset` misses a "55401" row that the subset on its argument returns |
| `Contacts.Rekey` | Eloqua_Script.py:116 | every row's MATCH becomes the unfilled join of its company and address; nothing else changes |
| `Contacts.QueryKey` | Eloqua_Script.py:117 | `iloc[0, -1]` fails with IndexError exactly on an empty table, and otherwise gives the first row's MATCH |
| `Contacts.RekeyPrepared` | Eloqua_Script.py:108-116 | recomputing MATCH on the filled table changes nothing |
| `Contacts.QueryKeyOfFirstCandidate` | Eloqua_Script.py:108-117 | on the filled table, the query key is present and is the match key of the first contact at "57401" |
| `Contacts.QueryKeyWithoutCandidate` | Eloqua_Script.py:114-117 | with no contact at "57401", picking the query key fails with IndexError, with no default |
| `DunsTable.ColumnIndex` | Eloqua_Script.py:119 | label lookup finds the first position holding the label, and fails exactly when the label is absent |
| `DunsTable.Column` | Eloqua_Script.py:119 | `df[label]` is a KeyError exactly when the label is absent, and otherwise the label's cell of every row |
| `DunsTable.SetColumn` | Eloqua_Script.py:119 | `df[label] = v` appends a new label at the end (existing cells kept) or overwrites an existing one; afterwards the label reads back `v` and every other label reads back its old cells |
| `DunsTable.AddMatchColumn` | Eloqua_Script.py:119 | the MATCH assignment fails with KeyError on the first missing source label; otherwise each row's MATCH is its name and street cells joined, appended after the existing columns |
| `DunsTable.AddMatchAsWritten` | Eloqua_Script.py:119 | reading 'DUNS_NM' fails with KeyError on any frame without that label |
| `DunsTable.AddMatch` | Eloqua_Script.py:119 | line 119 with `'BUS_NAME'`: a KeyError naming the first of 'BUS_NAME' and 'STREET' that is missing, exactly when one is; otherwise, in every row, MATCH is that row's name and street joined, appended after the existing columns, which keep their cells |
| `DunsTable.AsWrittenAlwaysFails` | Eloqua_Script.py:119 | line 119 as written fails on every frame the registry query returns |
| `DunsTable.FetchedLabels` | Eloqua_Script.py:96-97 | among the eleven fetched labels, BUS_NAME is column 1 and STREET column 2; neither MATCH nor DUNS_NM is present; once MATCH is appended it is column 11 |
| `DunsTable.FetchedMatch` | Eloqua_Script.py:119 | with 'BUS_NAME', a fetched frame gains MATCH as column 11; the eleven fetched columns keep their cells; MATCH joins column 1 and column 2 |
| `DunsTable.Reindex` | Eloqua_Script.py:120 | `reindex(columns = cols + extra)` keeps the row count and the existing columns in order with their cells; each appended label reads the cells of the column with that label if one exists, and NaN otherwise |
| `DunsTable.ReindexScoreColumns` | Eloqua_Script.py:119-120 | on the frame with MATCH, the labels become the sixteen scored labels; columns 0-11 keep their cells; Ratio, Partial, TSort and TSet are columns 12-15 and start empty |
| `DunsTable.CandidateLayout` | Eloqua_Script.py:118-120 | just before the loop, each row is its fetched record, its MATCH key, and four empty score cells |
| `Scoring.Position` | Eloqua_Script.py:128-131 | a negative position counts from the end: offset `-k` is `width - k`, always inside the row |
| `Scoring.ScoreRow` | Eloqua_Script.py:123-131 | one iteration keeps the row's width and every cell before the last four; offsets -4, -3, -2, -1 hold ratio, partial_ratio, token_sort_ratio and token_set_ratio of the query key against the row's column-11 cell as it was before the writes |
| `Scoring.ScoreAll` | Eloqua_Script.py:122-131 | the loop's result keeps the row count and scores every row on its own |
| `Scoring.ScoredLabels` | Eloqua_Script.py:120-131 | among the sixteen labels, MATCH is at position 11, and Ratio, Partial, TSort and TSet are at offsets -4, -3, -2 and -1; every earlier label sits before column 12 |
| `Scoring.ScoresLandInNamedColumns` | Eloqua_Script.py:120-131 | on a sixteen-column row, the value read under 'Ratio', 'Partial', 'TSort' and 'TSet' is the matching metric of the query key against the value under 'MATCH'; every label up to MATCH reads back its old cell |
| `Scoring.ScoreRowIdempotent` | Eloqua_Script.py:122-131 | on a row of at least sixteen cells (the width the script scores), scoring again with the same key and metrics changes nothing; on narrower rows the -1 write can reach column 11 and change the key |
| `Scoring.ScoresDependOnKeyOnly` | Eloqua_Script.py:123-126 | two rows of one width with the same MATCH cell get the same four scores, whatever their other cells |
| `Scoring.ScoreAllCommutesWithPick` | Eloqua_Script.py:122-131 | scoring a rearrangement or selection of the rows gives the same rearrangement of the scored rows, so no row's scores depend on the other rows or on visiting order |
| `Scoring.ScoreAllIdempotent` | Eloqua_Script.py:122-131 | running the whole scoring loop twice gives the same frame as running it once |
| `Scoring.Frame.Reindexed` | Eloqua_Script.py:120 | the reindexed frame is a fresh array with the extended labels, holding exactly the reindexed table's rows |
| `Scoring.Frame.ScoreRowInPlace` | Eloqua_Script.py:123-131 | one iteration in place: row `i` becomes its `ScoreRow` (scores taken from the key before the writes) and every other row of the array is untouched |
| `Scoring.Frame.FillScores` | Eloqua_Script.py:122-131 | the in-place loop leaves the frame's shape and labels alone and its rows equal to `ScoreAll` of the old rows; invariant: rows before `i` are scored, rows from `i` on are untouched |
| `Pipeline.QueryKeyOf` | Eloqua_Script.py:114-117 | the query key fails with IndexError exactly when no contact has postal code "57401"; otherwise it is the unfilled join (line 116) of the company and address of the first "57401" contact, missing when either part is |
| `Pipeline.QueryKeyOfMissingCompany` | Eloqua_Script.py:114-117 | on a table that was not filled, a "57401" contact with no company gives a missing query key, not an error |
| `Pipeline.Candidates` | Eloqua_Script.py:118-120 | the frame before the loop has the sixteen scored labels, one row per fetched record, each row the record with its MATCH key and four empty score cells |
| `Pipeline.MatchCandidates` | Eloqua_Script.py:114-131 | an IndexError exactly when the query key fails; otherwise a fresh frame with the sixteen labels, as many rows as fetched records (none gives an empty frame, not an error), equal to `ScoreAll` of the candidates against the key |
| `Pipeline.ScoredCandidateRecord` | Eloqua_Script.py:119-131 | after scoring, each row still holds its registry record unchanged and, under MATCH, its name and street joined |
| `Pipeline.ScoredCandidateScores` | Eloqua_Script.py:119-131 | after scoring, each row holds under Ratio, Partial, TSort and TSet the matching metric of the query key against that row's own name-and-street key |
| `Pipeline.QueryKeyOfPrepared` | Eloqua_Script.py:108-117 | when the contacts are the filled table, the query key is the never-missing match key of the first contact at "57401" |
| `Pipeline.QueryKeyOfLoaded` | Eloqua_Script.py:106-117 | if the contact table were the one lines 106-110 build, the query key would be the never-missing match key of the first "57401" contact of the slice |

## Left out

- `execute_small_fetch_query` and the SQL text (Eloqua_Script.py:14-62) are ODBC connection, cursor and fetch I/O. `duns_subset` (lines 82-100) enters the model only through the labels it assigns. The fetched records are an input frame whose labels are the eleven fetched labels.
- `pd.read_csv` (line 106) is file I/O. The contact table is an input sequence of rows.
- Contact rows carry only the columns the script reads or writes (Company, Address 1, postal_match, MATCH). `iloc[0, -1]` is read as the MATCH entry because MATCH is the last column once line 116 has run.
- The internals of the four `fuzz` metrics are not modelled. The library is not part of the repository. Each metric is an arbitrary function of two cells to an integer. Whatever the library does with a missing value is modelled as some integer.
- pandas details: NaN and None are one `Null` cell, and dtypes are not modelled.
- `MatchKeys.JoinCells`: a numeric cell in a name or street column is treated as missing. pandas would raise a TypeError there. The registry columns joined are character columns.
- `DunsTable.ColumnIndex`, `DunsTable.Column` and `DunsTable.SetColumn`: with duplicate labels, pandas reads and overwrites every column under the label. These members read and write only the first. The frames of lines 96-97 and 119 have distinct labels.
- `DunsTable.Reindex`: a frame with duplicate labels is not modelled. pandas refuses to reindex such a frame.
- Line 115 computes an `e_match` series that line 117 overwrites. It has no effect and is not modelled.
- The Python errors of the unrunnable script are not modelled: the undefined `cl_df`, the missing `fuzz` import and `.to_string()` on a string.

## Findings

| source | as written | input that shows it | evidently intended | confidence | as-written member | corrected member |
|---|---|---|---|---|---|---|
| Eloqua_Script.py:119 | `dnb_test['DUNS_NM'] + ' ' + dnb_test['STREET']` | any frame returned by the registry query, whose labels are those of lines 96-97: KeyError('DUNS_NM') | read the business-name column `'BUS_NAME'` | high; not executed | `DunsTable.AsWrittenAlwaysFails` | `DunsTable.FetchedMatch` |
| Eloqua_Script.py:78 | `eloqua_subset(pc)` filters on the literal `'57401'` | `pc = "55401"` with one contact at "55401": the result is empty | filter on `pc` | medium; not executed | `Contacts.EloquaSubsetIgnoresArgument` | `Contacts.PostalSubset` |
