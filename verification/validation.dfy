/**
 * The content check of `test_error_handling`: blank content, then the header
 * row, then each data row in turn (column count, `batch_id` uniqueness against
 * a growing set, the ten readings).  The lines the check prints become a list
 * of events: a clean file yields none, and one file can yield several, because
 * a bad reading only ends the loop over that row's readings.
 *
 * `Validate` states the result as a function of the content; `CheckContent`
 * is the loop itself, with its set of seen batch ids, proved to compute it.
 */
module Validation {
  import opened Wrappers
  import opened CsvText
  import opened Schema

  /** Why a reading is rejected: `float` raised ValueError, or the value is above 9.9. */
  datatype ReadingFault = NonNumeric | AboveLimit

  /**
   * What the check reports in place of its messages.  Rows are numbered as
   * the check numbers them, the header being row 1; readings count from 1.
   */
  datatype Event =
    | Empty
    | BadHeaders
    | MissingColumns(row: nat)
    | DuplicateBatch(row: nat)
    | BadReading(row: nat, reading: nat, fault: ReadingFault)
  {
    /** The row an event is about: none (0) for empty content, the header row for bad headers. */
    function Row(): nat {
      match this
      case Empty => 0
      case BadHeaders => 1
      case MissingColumns(n) => n
      case DuplicateBatch(n) => n
      case BadReading(n, _, _) => n
    }

    /** The events after which the check reads no further row. */
    predicate EndsScan() {
      !BadReading?
    }
  }

  /**
   * Python's `float(reading)` and `value > 9.9`, which this model does not
   * define: `isNumber(r)` holds when `float(r)` returns instead of raising
   * ValueError, and `aboveLimit(r)` when the value it returns exceeds 9.9.
   */
  datatype NumberSemantics = NumberSemantics(isNumber: string -> bool, aboveLimit: string -> bool)

  /** The verdict on one reading: the `try` around `float` and the comparison with 9.9. */
  function ReadingFaultOf(reading: string, num: NumberSemantics): (fault: Option<ReadingFault>)
    ensures fault == None <==> num.isNumber(reading) && !num.aboveLimit(reading)
    ensures fault == Some(NonNumeric) <==> !num.isNumber(reading)
  {
    if !num.isNumber(reading) then Some(NonNumeric)
    else if num.aboveLimit(reading) then Some(AboveLimit)
    else None
  }

  /** The number of fields a data row must have. */
  const Columns: nat := 12

  /** Every reading of a 12-field row (fields 3 to 12) is numeric and at most 9.9. */
  predicate ReadingsOk(row: seq<string>, num: NumberSemantics)
    requires |row| == Columns
  {
    forall j :: 2 <= j < Columns ==> ReadingFaultOf(row[j], num) == None
  }

  // ---------------------------------------------------------------------------
  // One row's readings
  // ---------------------------------------------------------------------------

  /**
   * What the readings loop reports for row `n` from field `k` on: nothing when
   * every reading from there is good, else exactly the first bad one.
   */
  function ReadingEventFrom(row: seq<string>, n: nat, k: nat, num: NumberSemantics): (events: seq<Event>)
    requires |row| == Columns && 2 <= k <= Columns
    ensures |events| <= 1
    ensures forall e <- events :: e.BadReading? && e.row == n && k - 1 <= e.reading <= Columns - 2
    decreases Columns - k
  {
    if k == Columns then []
    else
      match ReadingFaultOf(row[k], num)
      case Some(fault) => [BadReading(n, k - 1, fault)]
      case None => ReadingEventFrom(row, n, k + 1, num)
  }

  /**
   * The loop from field `k` reports nothing exactly when every reading from
   * there is good, and otherwise the first bad reading with its fault.
   */
  lemma {:induction false} ReadingEventFromIff(row: seq<string>, n: nat, k: nat, num: NumberSemantics)
    requires |row| == Columns && 2 <= k <= Columns
    ensures var events := ReadingEventFrom(row, n, k, num);
            && (events == [] <==> forall j :: k <= j < Columns ==> ReadingFaultOf(row[j], num) == None)
            && forall e <- events ::
                 && ReadingFaultOf(row[e.reading + 1], num) == Some(e.fault)
                 && forall j :: k <= j < e.reading + 1 ==> ReadingFaultOf(row[j], num) == None
    decreases Columns - k
  {
    if k < Columns && ReadingFaultOf(row[k], num) == None {
      ReadingEventFromIff(row, n, k + 1, num);
    }
  }

  /** The readings loop over a whole 12-field row numbered `n`. */
  function RowReadingEvent(row: seq<string>, n: nat, num: NumberSemantics): seq<Event>
    requires |row| == Columns
  {
    ReadingEventFrom(row, n, 2, num)
  }

  /** Reading `i` (field i + 1) of a 12-field row has `fault`, and every reading before it is good. */
  predicate FirstBadReading(row: seq<string>, i: nat, fault: ReadingFault, num: NumberSemantics)
    requires |row| == Columns
  {
    && 1 <= i <= Columns - 2
    && ReadingFaultOf(row[i + 1], num) == Some(fault)
    && forall j :: 2 <= j < i + 1 ==> ReadingFaultOf(row[j], num) == None
  }

  /** Row `n` reports reading `i` with `fault` exactly when that is its first bad reading. */
  lemma RowReadingEventIff(row: seq<string>, n: nat, i: nat, fault: ReadingFault, num: NumberSemantics)
    requires |row| == Columns
    ensures BadReading(n, i, fault) in RowReadingEvent(row, n, num) <==> FirstBadReading(row, i, fault, num)
  {
    var events := RowReadingEvent(row, n, num);
    ReadingEventFromIff(row, n, 2, num);
    if FirstBadReading(row, i, fault, num) {
      assert events != [];
      var e := events[0];
      assert e in events;
    }
  }

  // ---------------------------------------------------------------------------
  // The data rows
  // ---------------------------------------------------------------------------

  /** The batch ids (first fields) of the given rows. */
  function BatchIds(rows: seq<seq<string>>): set<string> {
    set r | r in rows && |r| > 0 :: r[0]
  }

  /** Data row `j` ends the scan: it lacks columns, or its batch id was seen on an earlier row. */
  predicate StopsAt(data: seq<seq<string>>, j: nat)
    requires j < |data|
  {
    |data[j]| != Columns || data[j][0] in BatchIds(data[..j])
  }

  /** The first data row from `j` on that ends the scan, or |data| when none does. */
  function StopIndexFrom(data: seq<seq<string>>, j: nat): (k: nat)
    requires j <= |data|
    requires forall i :: 0 <= i < j ==> !StopsAt(data, i) && |data[i]| == Columns
    ensures j <= k <= |data|
    ensures forall i :: 0 <= i < k ==> !StopsAt(data, i) && |data[i]| == Columns
    ensures k < |data| ==> StopsAt(data, k)
    decreases |data| - j
  {
    if j == |data| || StopsAt(data, j) then j else StopIndexFrom(data, j + 1)
  }

  /** The index of the data row that ends the scan, or |data| when the scan reaches the end. */
  function StopIndex(data: seq<seq<string>>): (k: nat)
    ensures k <= |data|
    ensures forall i :: 0 <= i < k ==> !StopsAt(data, i) && |data[i]| == Columns
    ensures k < |data| ==> StopsAt(data, k)
  {
    StopIndexFrom(data, 0)
  }

  /** The readings events of the first `k` data rows, in row order. */
  function ReadingEvents(data: seq<seq<string>>, k: nat, num: NumberSemantics): seq<Event>
    requires k <= |data|
    requires forall j :: 0 <= j < k ==> |data[j]| == Columns
  {
    if k == 0 then [] else ReadingEvents(data, k - 1, num) + RowReadingEvent(data[k - 1], k + 1, num)
  }

  /** The event of the data row that ends the scan. */
  function StopEvent(data: seq<seq<string>>, k: nat): Event
    requires k < |data|
  {
    if |data[k]| != Columns then MissingColumns(k + 2) else DuplicateBatch(k + 2)
  }

  /** The events of the loop over the data rows (row 2 onward). */
  function ScanEvents(data: seq<seq<string>>, num: NumberSemantics): seq<Event> {
    var k := StopIndex(data);
    ReadingEvents(data, k, num) + (if k < |data| then [StopEvent(data, k)] else [])
  }

  // ---------------------------------------------------------------------------
  // The whole check
  // ---------------------------------------------------------------------------

  /** The first row of the content is the schema. */
  predicate HeaderOk(content: string) {
    HeadersValid(FirstRow(ReadRows(content)))
  }

  /** The rows after the header row. */
  function DataRows(content: string): seq<seq<string>> {
    var rows := ReadRows(content);
    if rows == [] then [] else rows[1..]
  }

  /** What the check reports for one content. */
  function Validate(content: string, num: NumberSemantics): seq<Event> {
    if IsBlank(content) then [Empty]
    else if !HeaderOk(content) then [BadHeaders]
    else ScanEvents(DataRows(content), num)
  }

  /** The set of seen batch ids grows by the id of the row just accepted. */
  lemma BatchIdsAppend(rows: seq<seq<string>>, r: seq<string>)
    requires |r| > 0
    ensures BatchIds(rows + [r]) == BatchIds(rows) + {r[0]}
  {
    assert r in rows + [r];
    forall x | x in BatchIds(rows + [r]) ensures x in BatchIds(rows) + {r[0]} {
      var s :| s in rows + [r] && |s| > 0 && s[0] == x;
      if s != r {
        assert s in rows;
      }
    }
  }

  /** A row the scan reaches and that ends it is the stop row. */
  lemma StopsHere(data: seq<seq<string>>, i: nat, num: NumberSemantics)
    requires i <= StopIndex(data) && i < |data| && StopsAt(data, i)
    ensures StopIndex(data) == i
    ensures ScanEvents(data, num) == ReadingEvents(data, i, num) + [StopEvent(data, i)]
  {
  }

  /** A row the scan reaches and that does not end it lets the scan go on to the next. */
  lemma ScanContinues(data: seq<seq<string>>, i: nat)
    requires i <= StopIndex(data) && i < |data|
    requires |data[i]| == Columns && data[i][0] !in BatchIds(data[..i])
    ensures i + 1 <= StopIndex(data)
  {
    assert !StopsAt(data, i);
  }

  /** The readings events of the first i + 1 rows: those of the first i, then row i's. */
  lemma ReadingEventsStep(data: seq<seq<string>>, i: nat, num: NumberSemantics)
    requires i + 1 <= StopIndex(data)
    ensures ReadingEvents(data, i + 1, num) == ReadingEvents(data, i, num) + RowReadingEvent(data[i], i + 2, num)
  {
  }

  /** Accepting row i adds its batch id to the seen set. */
  lemma SeenIdsGrow(data: seq<seq<string>>, i: nat)
    requires i < |data| && |data[i]| > 0
    ensures BatchIds(data[..i + 1]) == BatchIds(data[..i]) + {data[i][0]}
  {
    assert data[..i + 1] == data[..i] + [data[i]];
    BatchIdsAppend(data[..i], data[i]);
  }

  /** A scan that reaches the end reports the readings events of every row. */
  lemma ScanCompletes(data: seq<seq<string>>, num: NumberSemantics)
    requires StopIndex(data) == |data|
    ensures ScanEvents(data, num) == ReadingEvents(data, |data|, num)
  {
  }

  /**
   * The loop over one row's readings (fields 3 to 12, numbered 1 to 10): the
   * first reading that is not a number or is above 9.9 is reported and ends
   * the loop.
   */
  method CheckReadings(row: seq<string>, rowNum: nat, num: NumberSemantics) returns (found: seq<Event>)
    requires |row| == Columns
    ensures found == RowReadingEvent(row, rowNum, num)
  {
    found := [];
    var k := 2;
    while k < Columns
      invariant 2 <= k <= Columns
      invariant RowReadingEvent(row, rowNum, num) == ReadingEventFrom(row, rowNum, k, num)
    {
      var reading := row[k];
      if !num.isNumber(reading) {
        found := [BadReading(rowNum, k - 1, NonNumeric)];
        break;
      }
      if num.aboveLimit(reading) {
        found := [BadReading(rowNum, k - 1, AboveLimit)];
        break;
      }
      k := k + 1;
    }
  }

  /**
   * The loop over the data rows, row 2 onward.  Its `batchIds` set holds,
   * before row n is checked, exactly the batch ids of rows 2 to n - 1.
   */
  method ScanRows(data: seq<seq<string>>, num: NumberSemantics) returns (events: seq<Event>)
    ensures events == ScanEvents(data, num)
  {
    events := [];
    var batchIds: set<string> := {};
    var i := 0;
    while i < |data|
      invariant i <= StopIndex(data)
      invariant batchIds == BatchIds(data[..i])
      invariant events == ReadingEvents(data, i, num)
    {
      var row := data[i];
      var rowNum := i + 2;
      if |row| != Columns {
        StopsHere(data, i, num);
        events := events + [MissingColumns(rowNum)];
        assert events == ScanEvents(data, num);
        break;
      }
      var batchId := row[0];
      if batchId in batchIds {
        StopsHere(data, i, num);
        events := events + [DuplicateBatch(rowNum)];
        assert events == ScanEvents(data, num);
        break;
      }
      batchIds := batchIds + {batchId};
      var found := CheckReadings(row, rowNum, num);
      ScanContinues(data, i);
      ReadingEventsStep(data, i, num);
      SeenIdsGrow(data, i);
      events := events + found;
      i := i + 1;
    }
    if i == |data| {
      ScanCompletes(data, num);
    }
  }

  /** The whole check on one content: blank content, then the header row, then the data rows. */
  method CheckContent(content: string, num: NumberSemantics) returns (events: seq<Event>)
    ensures events == Validate(content, num)
  {
    if IsBlank(content) {
      return [Empty];
    }
    var rows := ReadRows(content);
    var headers := FirstRow(rows);
    if !HeadersValid(headers) {
      return [BadHeaders];
    }
    events := ScanRows(rows[1..], num);
  }
}
