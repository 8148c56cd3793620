/**
 * The cases the test script runs, stated about the model: the four header
 * files of `test_header_validation` and the four contents of
 * `test_error_handling`.  Each content is written as the rows it holds,
 * joined as the script's string literal joins them.
 */
module SourceCases {
  import opened Wrappers
  import opened CsvText
  import opened Schema
  import opened Validation
  import opened ValidationProperties

  // ---------------------------------------------------------------------------
  // test_header_validation
  // ---------------------------------------------------------------------------

  /** The sample data row written under every header row: `['1', '2024-01-01'] + ['0.1'] * 10`. */
  const SampleRow: seq<string> :=
    ["1", "2024-01-01", "0.1", "0.1", "0.1", "0.1", "0.1", "0.1", "0.1", "0.1", "0.1", "0.1"]

  /** The verdict of the header test on a file written with `headers` and the sample row. */
  function HeaderTest(headers: seq<string>): bool {
    HeadersValid(FirstRow(ReadRows(WriteRows([headers, SampleRow]))))
  }

  /** Letters, digits, `_`, `-` and `.`: characters `csv.writer` never quotes. */
  predicate SimpleChar(c: char) {
    ('a' <= c <= 'z') || ('A' <= c <= 'Z') || ('0' <= c <= '9') || c == '_' || c == '-' || c == '.'
  }

  predicate Simple(f: string) {
    forall j :: 0 <= j < |f| ==> SimpleChar(f[j])
  }

  lemma SimplePlain(f: string)
    requires Simple(f)
    ensures PlainField(f)
  {
    forall j | 0 <= j < |f| ensures f[j] != ',' && f[j] != '"' && !IsLineBreak(f[j]) {
      assert SimpleChar(f[j]);
    }
  }

  /** A row of simple, non-empty fields is written without quoting. */
  lemma SimpleRowPlain(row: seq<string>)
    requires forall i :: 0 <= i < |row| ==> row[i] != [] && Simple(row[i])
    ensures PlainRow(row)
  {
    forall i | 0 <= i < |row| ensures PlainField(row[i]) {
      SimplePlain(row[i]);
    }
    if |row| == 1 {
      assert row[0] != [];
    }
  }

  /** A column name `reading<n>` is written without quoting. */
  lemma ReadingNameSimple(n: nat)
    ensures ReadingName(n) != [] && Simple(ReadingName(n))
  {
    var digits := Decimal(n);
    var name := ReadingName(n);
    forall j | 0 <= j < |name| ensures SimpleChar(name[j]) {
      if j < 7 {
        assert name[j] == "reading"[j];
      } else {
        assert name[j] == digits[j - 7];
      }
    }
  }

  /** Every name `reading<n>` for lo <= n < hi is written without quoting. */
  lemma ReadingNamesSimple(lo: nat, hi: nat)
    ensures var names := ReadingNames(lo, hi);
            forall k :: 0 <= k < |names| ==> names[k] != [] && Simple(names[k])
  {
    var names := ReadingNames(lo, hi);
    forall k | 0 <= k < |names| ensures names[k] != [] && Simple(names[k]) {
      ReadingNameSimple(lo + k);
    }
  }

  /** The schema's names are written without quoting. */
  lemma ExpectedHeadersPlain()
    ensures forall i :: 0 <= i < |ExpectedHeaders| ==> ExpectedHeaders[i] != [] && Simple(ExpectedHeaders[i])
    ensures PlainRow(ExpectedHeaders)
  {
    ReadingNamesSimple(1, ReadingCount + 1);
    assert Simple("batch_id") && Simple("timestamp");
    HeaderRowSimple("batch_id", "timestamp", ReadingNames(1, ReadingCount + 1));
    SimpleRowPlain(ExpectedHeaders);
  }

  /** Two simple names followed by simple names make a row of simple names. */
  lemma HeaderRowSimple(a: string, b: string, names: seq<string>)
    requires a != [] && Simple(a) && b != [] && Simple(b)
    requires forall k :: 0 <= k < |names| ==> names[k] != [] && Simple(names[k])
    ensures var row := [a, b] + names;
            forall i :: 0 <= i < |row| ==> row[i] != [] && Simple(row[i])
  {
    var row := [a, b] + names;
    forall i | 0 <= i < |row| ensures row[i] != [] && Simple(row[i]) {
      if i >= 2 {
        assert row[i] == names[i - 2];
      }
    }
  }

  /** The header test accepts exactly the row it reads back, so a plain header row is judged as written. */
  lemma HeaderTestReadsBack(headers: seq<string>)
    requires PlainRow(headers)
    ensures HeaderTest(headers) <==> headers == ExpectedHeaders
  {
    assert Simple("1") && Simple("2024-01-01") && Simple("0.1");
    SimpleRowPlain(SampleRow);
    ReadWrittenRows([headers, SampleRow]);
  }

  /** `EXPECTED_HEADERS`: the valid file passes. */
  lemma HeaderTestValid()
    ensures HeaderTest(ExpectedHeaders)
  {
    ExpectedHeadersPlain();
    HeaderTestReadsBack(ExpectedHeaders);
  }

  /** `["batch_id", "timestamp"]`: missing columns fail. */
  lemma HeaderTestMissing()
    ensures !HeaderTest(["batch_id", "timestamp"])
  {
    var short := ["batch_id", "timestamp"];
    assert Simple("batch_id") && Simple("timestamp");
    SimpleRowPlain(short);
    HeaderTestReadsBack(short);
  }

  /**
   * `EXPECTED_HEADERS + ["extra_column"]`: an extra column fails.
   * The input is a parameter that the `requires` fixes to the literal: with
   * the literal written into the `ensures`, the verifier would evaluate the
   * functions on it eagerly, which makes the proof far more costly.
   */
  lemma HeaderTestExtra(extra: seq<string>)
    requires extra == ExpectedHeaders + ["extra_column"]
    ensures !HeaderTest(extra)
  {
    ExpectedHeadersPlain();
    forall i | 0 <= i < |extra| ensures extra[i] != [] && Simple(extra[i]) {
      if i < |ExpectedHeaders| {
        assert extra[i] == ExpectedHeaders[i];
      } else {
        assert Simple("extra_column");
      }
    }
    SimpleRowPlain(extra);
    HeaderTestReadsBack(extra);
  }

  /**
   * `["timestamp", "batch_id"] + [f"reading{i}" ...]`: the wrong order fails.
   * The input is a parameter that the `requires` fixes to the literal: with
   * the literal written into the `ensures`, the verifier would evaluate the
   * functions on it eagerly, which makes the proof far more costly.
   */
  lemma HeaderTestReordered(headers: seq<string>)
    requires headers == ["timestamp", "batch_id"] + ReadingNames(1, 11)
    ensures !HeaderTest(headers)
  {
    ReadingNamesSimple(1, ReadingCount + 1);
    assert Simple("batch_id") && Simple("timestamp");
    SwappedHeaderFails("timestamp", "batch_id", ReadingNames(1, 11));
  }

  /** A header row that starts with `timestamp` is plain when the rest is, and fails. */
  lemma SwappedHeaderFails(a: string, b: string, names: seq<string>)
    requires a == "timestamp" && b != [] && Simple(b)
    requires forall k :: 0 <= k < |names| ==> names[k] != [] && Simple(names[k])
    ensures !HeaderTest([a, b] + names)
  {
    assert Simple(a);
    HeaderRowSimple(a, b, names);
    SimpleRowPlain([a, b] + names);
    assert ExpectedHeaders[0] == "batch_id";
    assert ([a, b] + names)[0] != ExpectedHeaders[0];
    HeaderTestReadsBack([a, b] + names);
  }

  // ---------------------------------------------------------------------------
  // test_error_handling
  // ---------------------------------------------------------------------------

  /** The ten readings `0.1` to `1.0` the script's data rows carry. */
  const GoodReadings: seq<string> := ["0.1", "0.2", "0.3", "0.4", "0.5", "0.6", "0.7", "0.8", "0.9", "1.0"]

  /** Numbers no greater than 9.9, as `float` reads them. */
  predicate ReadingsGood(num: NumberSemantics) {
    forall r <- GoodReadings :: num.isNumber(r) && !num.aboveLimit(r)
  }

  /** A 12-field row whose readings all pass has no readings event. */
  lemma GoodRowQuiet(row: seq<string>, n: nat, num: NumberSemantics)
    requires |row| == Columns && row[2..] == GoodReadings && ReadingsGood(num)
    ensures RowReadingEvent(row, n, num) == []
  {
    forall j | 2 <= j < Columns ensures ReadingFaultOf(row[j], num) == None {
      assert row[j] == GoodReadings[j - 2];
    }
    ReadingEventFromIff(row, n, 2, num);
  }

  /** A joined text starts with the first character of its first field. */
  lemma JoinedStart(rows: seq<seq<string>>)
    requires rows != [] && rows[0] != [] && rows[0][0] != []
    ensures |JoinRows(rows)| > 0 && JoinRows(rows)[0] == rows[0][0][0]
  {
    var line := JoinFields(rows[0]);
    assert |line| > 0 && line[0] == rows[0][0][0];
  }

  /** A joined text whose first field is `batch_id` is not blank. */
  lemma SchemaFileNotBlank(rows: seq<seq<string>>)
    requires rows != [] && rows[0] == ExpectedHeaders
    ensures !IsBlank(JoinRows(rows))
  {
    assert rows[0][0] == "batch_id";
    JoinedStart(rows);
    assert !IsSpace(JoinRows(rows)[0]);
  }

  /** A file whose first row is the schema is reported as the scan of its other rows. */
  lemma SchemaFileScan(rows: seq<seq<string>>, num: NumberSemantics)
    requires |rows| >= 2 && rows[0] == ExpectedHeaders
    requires rows[|rows| - 1] != [] && forall r <- rows :: PlainRow(r)
    ensures Validate(JoinRows(rows), num) == ScanEvents(rows[1..], num)
  {
    var content := JoinRows(rows);
    ReadJoinedRows(rows);
    assert ReadRows(content) == rows;
    SchemaFileNotBlank(rows);
    assert HeaderOk(content);
    assert DataRows(content) == rows[1..];
  }

  /** The ten readings are simple, non-empty fields. */
  lemma GoodReadingsSimple()
    ensures forall i :: 0 <= i < |GoodReadings| ==> GoodReadings[i] != [] && Simple(GoodReadings[i])
  {
    forall i | 0 <= i < |GoodReadings| ensures GoodReadings[i] != [] && Simple(GoodReadings[i]) {
      var r := GoodReadings[i];
      assert |r| == 3 && r[1] == '.';
      assert '0' <= r[0] <= '9' && '0' <= r[2] <= '9';
    }
  }

  /** A data row of the script's contents is written without quoting. */
  lemma DataRowPlain(id: string, date: string, readings: seq<string>)
    requires id != [] && Simple(id) && date != [] && Simple(date)
    requires forall i :: 0 <= i < |readings| ==> readings[i] != [] && Simple(readings[i])
    ensures PlainRow([id, date] + readings)
  {
    var row := [id, date] + readings;
    forall i | 0 <= i < |row| ensures row[i] != [] && Simple(row[i]) {
      if i >= 2 {
        assert row[i] == readings[i - 2];
      }
    }
    SimpleRowPlain(row);
  }

  /** `""`: the empty file. */
  lemma EmptyFileCase(num: NumberSemantics)
    ensures Validate("", num) == [Empty]
  {
  }

  /**
   * `"invalid,csv,data\n1,2,3"`: a header row that is not the schema.
   * The input is a parameter that the `requires` fixes to the literal: with
   * the literal written into the `ensures`, the verifier would evaluate the
   * functions on it eagerly, which makes the proof far more costly.
   */
  lemma InvalidDataCase(rows: seq<seq<string>>, content: string, num: NumberSemantics)
    requires rows == [["invalid", "csv", "data"], ["1", "2", "3"]] && content == JoinRows(rows)
    ensures Validate(content, num) == [BadHeaders]
  {
    assert ReadRows(content) == rows by {
      assert Simple("invalid") && Simple("csv") && Simple("data");
      assert Simple("1") && Simple("2") && Simple("3");
      SimpleRowPlain(rows[0]);
      SimpleRowPlain(rows[1]);
      ReadJoinedRows(rows);
    }
    assert !HeaderOk(content) by {
      assert FirstRow(ReadRows(content)) == Some(rows[0]);
      assert |rows[0]| != |ExpectedHeaders|;
    }
    assert !IsBlank(content) by {
      JoinedStart(rows);
      assert !IsSpace(content[0]);
    }
  }

  /** Two 12-field rows with batch id `1`: the first row's readings pass and the second ends the scan. */
  lemma DuplicateBatchScan(num: NumberSemantics)
    requires ReadingsGood(num)
    ensures ScanEvents([["1", "2024-01-01"] + GoodReadings, ["1", "2024-01-02"] + GoodReadings], num)
            == [DuplicateBatch(3)]
  {
    var first := ["1", "2024-01-01"] + GoodReadings;
    var second := ["1", "2024-01-02"] + GoodReadings;
    var data := [first, second];
    assert |first| == Columns && |second| == Columns;
    assert CleanPrefix(data, 1);
    assert data[0][0] == data[1][0];
    StopIndexIs(data, 1);
    assert StopIndex(data) == 1;
    GoodRowQuiet(first, 2, num);
    assert ReadingEvents(data, 1, num) == [];
    assert StopEvent(data, 1) == DuplicateBatch(3);
  }

  /**
   * The schema row and two data rows with batch id `1`: the second is reported as row 3.
   * The input is a parameter that the `requires` fixes to the literal: with
   * the literal written into the `ensures`, the verifier would evaluate the
   * functions on it eagerly, which makes the proof far more costly.
   */
  lemma DuplicateBatchCase(content: string, num: NumberSemantics)
    requires content == JoinRows([ExpectedHeaders,
                                  ["1", "2024-01-01"] + GoodReadings,
                                  ["1", "2024-01-02"] + GoodReadings])
    requires ReadingsGood(num)
    ensures Validate(content, num) == [DuplicateBatch(3)]
  {
    var first := ["1", "2024-01-01"] + GoodReadings;
    var second := ["1", "2024-01-02"] + GoodReadings;
    GoodReadingsSimple();
    assert Simple("1") && Simple("2024-01-01") && Simple("2024-01-02");
    DataRowPlain("1", "2024-01-01", GoodReadings);
    DataRowPlain("1", "2024-01-02", GoodReadings);
    ExpectedHeadersPlain();
    var rows := [ExpectedHeaders, first, second];
    SchemaFileScan(rows, num);
    assert rows[1..] == [first, second];
    DuplicateBatchScan(num);
  }

  /** One 12-field row whose first reading is `10.0`: the scan reports it and goes on to the end. */
  lemma InvalidReadingsScan(num: NumberSemantics)
    requires num.isNumber("10.0") && num.aboveLimit("10.0")
    ensures ScanEvents([["1", "2024-01-01", "10.0"] + GoodReadings[1..]], num) == [BadReading(2, 1, AboveLimit)]
  {
    var row := ["1", "2024-01-01", "10.0"] + GoodReadings[1..];
    var data := [row];
    assert |row| == Columns && row[2] == "10.0";
    assert CleanPrefix(data, 1);
    ReachesIff(data, 1);
    assert StopIndex(data) == 1;
    assert ReadingFaultOf(row[2], num) == Some(AboveLimit);
    assert RowReadingEvent(row, 2, num) == [BadReading(2, 1, AboveLimit)];
    assert ReadingEvents(data, 1, num) == [BadReading(2, 1, AboveLimit)];
  }

  /**
   * The schema row and one data row whose first reading is `10.0`: reading 1
   * of row 2 is above 9.9.
   * The input is a parameter that the `requires` fixes to the literal: with
   * the literal written into the `ensures`, the verifier would evaluate the
   * functions on it eagerly, which makes the proof far more costly.
   */
  lemma InvalidReadingsCase(content: string, num: NumberSemantics)
    requires content == JoinRows([ExpectedHeaders, ["1", "2024-01-01", "10.0"] + GoodReadings[1..]])
    requires num.isNumber("10.0") && num.aboveLimit("10.0")
    ensures Validate(content, num) == [BadReading(2, 1, AboveLimit)]
  {
    var row := ["1", "2024-01-01", "10.0"] + GoodReadings[1..];
    GoodReadingsSimple();
    var readings := ["10.0"] + GoodReadings[1..];
    forall i | 0 <= i < |readings| ensures readings[i] != [] && Simple(readings[i]) {
      if i == 0 {
        assert Simple("10.0");
      } else {
        assert readings[i] == GoodReadings[i];
      }
    }
    assert Simple("1") && Simple("2024-01-01");
    DataRowPlain("1", "2024-01-01", readings);
    assert row == ["1", "2024-01-01"] + readings;
    ExpectedHeadersPlain();
    var rows := [ExpectedHeaders, row];
    SchemaFileScan(rows, num);
    assert rows[1..] == [row];
    InvalidReadingsScan(num);
  }
}
