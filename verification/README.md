# FTP CSV validator: the checks of the test script, in Dafny

This project models the checking logic in `TestScript/file_validation_test.py`, the test script of an
FTP-based CSV batch-file validator. That logic has four parts:

- **The column schema** `EXPECTED_HEADERS`. It is `batch_id`, `timestamp` and `reading1` to `reading10`.
- **The keyword search** over a server listing. A file name is kept when the keyword is a substring
  of it.
- **The header check** `headers == EXPECTED_HEADERS`. It is made on the first row that `csv.reader`
  yields.
- **The content check of `test_error_handling`**. It looks at:
  1. blank content;
  2. the header row;
  3. then each data row from row 2 on, checking three things:
     - the field count of 12;
     - that its `batch_id` is not in a set of ids seen so far, which grows row by row;
     - its ten readings. Each must parse as a float and be at most 9.9.

The script reports what it finds by printing messages. Here those messages become a list of
`Validation.Event` values:

| Event | Reported when |
|---|---|
| `Empty` | the content is blank |
| `BadHeaders` | the first row is not the schema |
| `MissingColumns(n)` | data row `n` does not have 12 fields |
| `DuplicateBatch(n)` | data row `n` repeats a batch id |
| `BadReading(n, i, fault)` | reading `i` of row `n` is not a number or is above 9.9 |

A missing-columns or duplicate-batch event ends the row loop. A bad reading ends only the loop over
that row's readings, so one file can yield several events. A clean file yields none.

The model is split by module:

- `CsvText` models `str.splitlines`, `csv.reader` and `csv.writer` for quote-free text, and proves
  the round trips between writing and reading.
- `Schema` holds the schema and the header check.
- `FileSearch` holds the keyword filter.
- `Validation` holds two forms of the content check, proved to agree:
  - `Validate`, the events as a function of the content;
  - `CheckContent`, the loops themselves, with the seen-id set `batchIds`.
- `ValidationProperties` says which contents yield which events.
- `SourceCases` replays the script's own cases: its four header files and its four error contents.

The script uses Python's `float(reading)` and `value > 9.9`. The model does not define them; they
are a parameter, `NumberSemantics`. All reading results hold for every such pair of predicates. A
case that needs particular readings, such as `10.0` being a number above the limit, names them in
its `requires`.

## Model

| member | source | states |
|---|---|---|
| Schema.ReadingNames | TestScript/file_validation_test.py:15 | `[f"reading{i}" for i in range(lo, hi)]` has hi - lo names, and the k-th is `reading` followed by the decimal numeral of lo + k |
| Schema.ExpectedHeadersListed | TestScript/file_validation_test.py:14-15 | the schema is exactly `batch_id, timestamp, reading1, …, reading10`, in that order |
| Schema.ExpectedHeadersDistinct | TestScript/file_validation_test.py:14-15 | the schema has 12 names, no two equal |
| Schema.FirstRow | TestScript/file_validation_test.py:98 | `next(reader, None)` is present exactly when the reader has a row, and is then the first row |
| Schema.HeadersValid | TestScript/file_validation_test.py:99 | a header row is accepted iff it is present, has the schema's length, and has the schema's name at every position |
| Schema.ShorterRejected | TestScript/file_validation_test.py:63-67 | any header row shorter than the schema, such as one with a column missing, is rejected |
| Schema.ExtraRejected | TestScript/file_validation_test.py:68-72 | the schema followed by any non-empty list of extra columns is rejected |
| Schema.SwapRejected | TestScript/file_validation_test.py:73-77 | the schema with any two of its columns swapped is rejected, because its names are pairwise distinct |
| FileSearch.ContainsIff | TestScript/file_validation_test.py:37 | `keyword in f` holds iff the keyword occurs in f at some position |
| FileSearch.MatchingFiles | TestScript/file_validation_test.py:37 | the filter returns only listed names that contain the keyword, and every listed name that contains it |
| FileSearch.MatchingFilesAppend | TestScript/file_validation_test.py:37 | filtering keeps the listing's order: the filter of a concatenation is the concatenation of the filters |
| FileSearch.MatchingFilesCount | TestScript/file_validation_test.py:37 | each matching name is kept as often as it is listed; a non-matching name is never kept |
| FileSearch.EmptyKeywordMatchesAll | TestScript/file_validation_test.py:37 | the empty keyword keeps the whole listing |
| CsvText.LineLength | TestScript/file_validation_test.py:162 | the first line ends at the first line boundary, or at the end of the text |
| CsvText.SplitLines | TestScript/file_validation_test.py:162 | `splitlines` yields lines free of boundaries, and no lines exactly for the empty text |
| CsvText.SplitOnCommas | TestScript/file_validation_test.py:162 | a line splits into at least one field, and no field holds a comma |
| CsvText.SplitFields | TestScript/file_validation_test.py:162 | the reader yields an empty row exactly for an empty line |
| CsvText.ReadRows | TestScript/file_validation_test.py:162-163 | the reader yields no rows exactly for the empty text |
| CsvText.SplitJoinedFields | TestScript/file_validation_test.py:162 | splitting comma-joined comma-free fields gives back the fields |
| CsvText.JoinSplitFields | TestScript/file_validation_test.py:162 | joining the split fields of a line gives back the line |
| CsvText.FieldsRoundTrip | TestScript/file_validation_test.py:90-98 | a row written without quoting is read back as the same row |
| CsvText.ReadWrittenRows | TestScript/file_validation_test.py:89-98 | rows written with `csv.writer` ("\r\n" after each) are read back as the same rows |
| CsvText.ReadJoinedRows | TestScript/file_validation_test.py:152-163 | rows joined by "\n", with no terminator after the last, are read back as the same rows |
| Validation.ReadingFaultOf | TestScript/file_validation_test.py:185-194 | a reading passes iff it is a number not above 9.9; it is non-numeric iff `float` rejects it |
| Validation.ReadingEventFrom | TestScript/file_validation_test.py:184-194 | the readings loop reports at most one event, and it is a bad reading of the row being checked, at a reading index not before the loop's start |
| Validation.ReadingEventFromIff | TestScript/file_validation_test.py:184-194 | the readings loop reports nothing iff every remaining reading passes; otherwise what it reports is a failing reading with its own fault, every reading before it having passed |
| Validation.RowReadingEventIff | TestScript/file_validation_test.py:184-194 | a row reports reading i with a fault iff that is its first failing reading |
| Validation.BatchIdsAppend | TestScript/file_validation_test.py:181 | `batch_ids.add` grows the seen set by exactly the accepted row's id |
| Validation.StopIndex | TestScript/file_validation_test.py:171-181 | every row before the stop row has 12 fields and a new batch id; the stop row, if any, lacks columns or repeats an id |
| Validation.CheckReadings | TestScript/file_validation_test.py:184-194 | the loop over one row's readings computes that row's readings event |
| Validation.ScanRows | TestScript/file_validation_test.py:170-194 | the loop over the data rows, with its growing seen set, computes the scan's events |
| Validation.CheckContent | TestScript/file_validation_test.py:156-194 | the whole check on a content computes `Validate`: blank, then header, then the row loop |
| ValidationProperties.BatchIdsMember | TestScript/file_validation_test.py:176-181 | an id is in the seen set iff some earlier row carries it |
| ValidationProperties.NoStopIff | TestScript/file_validation_test.py:171-181 | none of the first k rows ends the loop iff they all have 12 fields and pairwise distinct batch ids |
| ValidationProperties.ReachesIff | TestScript/file_validation_test.py:171-181 | the loop reaches row index k iff the rows before it have 12 fields and distinct ids |
| ValidationProperties.StopIndexIs | TestScript/file_validation_test.py:171-181 | row index k ends the loop iff it is reached and it lacks columns or repeats an earlier id |
| ValidationProperties.ReadingEventsShape | TestScript/file_validation_test.py:171-194 | readings events are bad readings of reached rows, in strictly increasing row order |
| ValidationProperties.ReadingEventsMember | TestScript/file_validation_test.py:171-194 | a bad reading is reported iff its row was reached and that row reports it |
| ValidationProperties.RowQuietIff | TestScript/file_validation_test.py:184-194 | a 12-field row reports no readings event iff all ten of its readings pass |
| ValidationProperties.ReadingEventsEmpty | TestScript/file_validation_test.py:184-194 | no readings event among the first k rows iff all their readings pass |
| ValidationProperties.QuietWhenReadingsOk | TestScript/file_validation_test.py:184-194 | when every reading of the first k rows passes, none of them reports a readings event |
| ValidationProperties.LoudWhenReadingBad | TestScript/file_validation_test.py:184-194 | one failing reading in any of the first k rows makes the readings events non-empty: a bad reading does not hide behind later rows |
| ValidationProperties.ScanEventsShape | TestScript/file_validation_test.py:170-194 | the loop's events are about rows 2 on, in row order, and only the last can end the loop |
| ValidationProperties.StopEventMember | TestScript/file_validation_test.py:172-180 | a missing-columns or duplicate event is reported iff it is the stop row's event |
| ValidationProperties.EmptyOnlyForBlank | TestScript/file_validation_test.py:158-160 | the empty report is made iff the content is blank (`not content.strip()`), and is then the only report |
| ValidationProperties.BadHeadersOnlyForWrongHeader | TestScript/file_validation_test.py:162-167 | the header report is made iff the content is not blank and its first row is not the schema, and is then the only report |
| ValidationProperties.EventsInRowOrder | TestScript/file_validation_test.py:156-194 | reports come in row order, at most one per row, and only the last may end the loop |
| ValidationProperties.CleanFileIff | TestScript/file_validation_test.py:156-194 | a content yields no report iff it is not blank, has the schema header, and every data row has 12 fields, a unique batch id and ten passing readings |
| ValidationProperties.ScanMissingColumnsIff | TestScript/file_validation_test.py:171-174 | over the data rows, row n is reported for missing columns iff the loop reaches it and it does not have 12 fields |
| ValidationProperties.ScanDuplicateBatchIff | TestScript/file_validation_test.py:171-180 | over the data rows, row n is reported as a duplicate iff the loop reaches it, it has 12 fields, and an earlier row has its batch id |
| ValidationProperties.ScanBadReadingIff | TestScript/file_validation_test.py:171-194 | over the data rows, reading i of row n is reported iff the loop accepts row n and reading i is its first failing reading |
| ValidationProperties.MissingColumnsIff | TestScript/file_validation_test.py:171-174 | row n is reported for missing columns iff the loop reaches it and it does not have 12 fields |
| ValidationProperties.DuplicateBatchIff | TestScript/file_validation_test.py:171-180 | row n is reported as a duplicate iff the loop reaches it, it has 12 fields, and an earlier row has its batch id |
| ValidationProperties.BadReadingIff | TestScript/file_validation_test.py:171-194 | reading i of row n is reported iff the loop accepts row n and reading i is its first failing reading; other rows' readings do not matter |
| SourceCases.HeaderTestReadsBack | TestScript/file_validation_test.py:83-99 | a header row written, followed by the sample row, and read back passes iff it is the schema |
| SourceCases.HeaderTestValid | TestScript/file_validation_test.py:58-62 | the `valid_headers.csv` case passes |
| SourceCases.HeaderTestMissing | TestScript/file_validation_test.py:63-67 | the `missing_headers.csv` case fails |
| SourceCases.HeaderTestExtra | TestScript/file_validation_test.py:68-72 | the `extra_headers.csv` case fails |
| SourceCases.HeaderTestReordered | TestScript/file_validation_test.py:73-77 | the `wrong_order_headers.csv` case fails |
| SourceCases.EmptyFileCase | TestScript/file_validation_test.py:121-125 | `empty_file.csv` yields only the empty report |
| SourceCases.InvalidDataCase | TestScript/file_validation_test.py:126-130 | `invalid_data.csv` yields only the header report |
| SourceCases.DuplicateBatchScan | TestScript/file_validation_test.py:133 | the two data rows of `duplicate_batch.csv` yield only a duplicate report for row 3 |
| SourceCases.DuplicateBatchCase | TestScript/file_validation_test.py:131-135 | `duplicate_batch.csv` yields only a duplicate report for row 3 |
| SourceCases.InvalidReadingsScan | TestScript/file_validation_test.py:138 | the data row of `invalid_readings.csv` yields only an above-limit report for reading 1 of row 2 |
| SourceCases.InvalidReadingsCase | TestScript/file_validation_test.py:136-140 | `invalid_readings.csv` yields only an above-limit report for reading 1 of row 2 |

## Left out

- The FTP session is not modelled: connecting, logging in, `nlst` and `quit`. The listing is the
  `files` parameter of `FileSearch.MatchingFiles`.
- The loop over the keywords `test`, `data`, `invalid` and `csv`, and its per-keyword exception
  handling, are not modelled. Each keyword is one call of `MatchingFiles`.
- Printing, file creation and the directory set-up with `os.makedirs` are not modelled. Messages
  become `Event` values, and file contents are strings.
- The script's `except Exception` handlers are not modelled. The text layer can raise on its own:
  `csv.reader` raises `_csv.Error` on a field longer than `csv.field_size_limit()` (131072
  characters by default), quoted or not. The handler at TestScript/file_validation_test.py:196-197
  then ends that case, and the messages already printed stay. `Validation.Validate` has no field
  limit: it reads such a row like any other and goes on to report on it and on every later row.
- Python's `float` parsing and the comparison with 9.9 are the `NumberSemantics` parameter. They
  are not defined here.
- `CsvText.SplitFields` does not handle csv quoting. A quoted field, a doubled quote and a line
  break inside quotes are read as plain text. The round-trip lemmas require quote-free fields,
  which every case in the script has.
- `SourceCases.HeaderTestReadsBack` reads the header files with `splitlines` semantics. The script
  instead iterates the file object with universal newlines. The two agree on the "\r\n"-terminated,
  quote-free files it writes.
- The script's error contents are string literals. The model writes each one as the rows it holds,
  joined by "\n" (`CsvText.JoinRows`), which is the same text. The case lemmas in `SourceCases`
  take that text, the header row or the rows as parameters whose `requires` fix them to the literals.
- The file validator module, the logger, the GUI and the UUID generation script are not part of
  this model.
- The decimal-format check (at most three fractional digits) is not modelled. It belongs to the
  file validator module, and the test script does not make it.
- Empty content yields `Empty` before any header check, because the script tests
  `content.strip()` first (TestScript/file_validation_test.py:158).
