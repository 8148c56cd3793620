/**
 * What the content check promises, stated about `Validation.Validate`: which
 * contents yield which events, the order of the events, and the clean file.
 */
module ValidationProperties {
  import opened Wrappers
  import opened CsvText
  import opened Schema
  import opened Validation

  /**
   * The first `k` data rows pass the checks that end the scan: each has 12
   * fields, and no two share a batch id.
   */
  ghost predicate CleanPrefix(data: seq<seq<string>>, k: nat)
    requires k <= |data|
  {
    && (forall j :: 0 <= j < k ==> |data[j]| == Columns)
    && (forall a, b :: 0 <= a < b < k ==> data[a][0] != data[b][0])
  }

  /** Every data row has 12 fields, a batch id of its own and ten good readings. */
  ghost predicate WellFormedRows(data: seq<seq<string>>, num: NumberSemantics) {
    && CleanPrefix(data, |data|)
    && forall j :: 0 <= j < |data| ==> |data[j]| == Columns && ReadingsOk(data[j], num)
  }

  // ---------------------------------------------------------------------------
  // The seen set and the row that ends the scan
  // ---------------------------------------------------------------------------

  /** A batch id has been seen exactly when some earlier row carries it. */
  lemma BatchIdsMember(rows: seq<seq<string>>, x: string)
    ensures x in BatchIds(rows) <==> exists a :: 0 <= a < |rows| && |rows[a]| > 0 && rows[a][0] == x
  {
    if x in BatchIds(rows) {
      var r :| r in rows && |r| > 0 && r[0] == x;
      var a :| 0 <= a < |rows| && rows[a] == r;
    }
  }

  /** No row among the first `k` ends the scan exactly when those rows are a clean prefix. */
  lemma {:induction false} NoStopIff(data: seq<seq<string>>, k: nat)
    requires k <= |data|
    ensures (forall j :: 0 <= j < k ==> !StopsAt(data, j)) <==> CleanPrefix(data, k)
  {
    if k > 0 {
      NoStopIff(data, k - 1);
      var last := k - 1;
      if |data[last]| == Columns {
        BatchIdsMember(data[..last], data[last][0]);
      }
      if CleanPrefix(data, k) {
        assert CleanPrefix(data, last);
        assert !StopsAt(data, last);
      }
      if forall j :: 0 <= j < k ==> !StopsAt(data, j) {
        assert !StopsAt(data, last);
        assert CleanPrefix(data, last);
        forall a, b | 0 <= a < b < k ensures data[a][0] != data[b][0] {
          if b == last {
            assert data[..last][a] == data[a];
          }
        }
      }
    }
  }

  /** The scan reaches row index `k` exactly when the rows before it are a clean prefix. */
  lemma ReachesIff(data: seq<seq<string>>, k: nat)
    requires k <= |data|
    ensures k <= StopIndex(data) <==> CleanPrefix(data, k)
  {
    NoStopIff(data, k);
  }

  /** Row index `k` ends the scan exactly when the scan reaches it and it lacks columns or repeats an id. */
  lemma StopIndexIs(data: seq<seq<string>>, k: nat)
    requires k < |data|
    ensures StopIndex(data) == k <==>
              && CleanPrefix(data, k)
              && (|data[k]| != Columns || exists a :: 0 <= a < k && data[a][0] == data[k][0])
  {
    ReachesIff(data, k);
    ReachesIff(data, k + 1);
    NoStopIff(data, k + 1);
    if |data[k]| == Columns {
      BatchIdsMember(data[..k], data[k][0]);
      if CleanPrefix(data, k) && StopsAt(data, k) {
        var a :| 0 <= a < k && |data[..k][a]| > 0 && data[..k][a][0] == data[k][0];
        assert data[a][0] == data[k][0];
      }
      if CleanPrefix(data, k) && exists a :: 0 <= a < k && data[a][0] == data[k][0] {
        var a :| 0 <= a < k && data[a][0] == data[k][0];
        assert data[..k][a] == data[a];
      }
    }
  }

  // ---------------------------------------------------------------------------
  // The readings events
  // ---------------------------------------------------------------------------

  /** Readings events are bad readings of rows 2 to k + 1, in strictly increasing row order. */
  lemma {:induction false} ReadingEventsShape(data: seq<seq<string>>, k: nat, num: NumberSemantics)
    requires k <= |data|
    requires forall j :: 0 <= j < k ==> |data[j]| == Columns
    ensures var ev := ReadingEvents(data, k, num);
            && (forall e <- ev :: e.BadReading? && 2 <= e.row <= k + 1)
            && (forall a, b :: 0 <= a < b < |ev| ==> ev[a].row < ev[b].row)
  {
    if k > 0 {
      ReadingEventsUnfold(data, k, num);
      ReadingEventsShape(data, k - 1, num);
      var prev := ReadingEvents(data, k - 1, num);
      var last := RowReadingEvent(data[k - 1], k + 1, num);
      var ev := prev + last;
      forall a, b | 0 <= a < b < |ev| ensures ev[a].row < ev[b].row {
        if b >= |prev| {
          assert ev[b] in last;
          assert a < |prev|;
          assert ev[a] in prev;
        }
      }
    }
  }

  /** A row's readings event is a bad reading of that row. */
  lemma RowEventIsOfRow(row: seq<string>, n: nat, num: NumberSemantics, e: Event)
    requires |row| == Columns && e in RowReadingEvent(row, n, num)
    ensures e.BadReading? && e.row == n
  {
  }

  /** A bad reading is reported for row n exactly when the scan reached row n and row n reports it. */
  lemma {:induction false} ReadingEventsMember(data: seq<seq<string>>, k: nat, num: NumberSemantics, e: Event)
    requires k <= |data|
    requires forall j :: 0 <= j < k ==> |data[j]| == Columns
    ensures e in ReadingEvents(data, k, num) <==>
              && e.BadReading? && 2 <= e.row <= k + 1
              && e in RowReadingEvent(data[e.row - 2], e.row, num)
  {
    if k > 0 {
      var prev, last := ReadingEvents(data, k - 1, num), RowReadingEvent(data[k - 1], k + 1, num);
      assert e in ReadingEvents(data, k, num) <==> e in prev || e in last by {
        ReadingEventsUnfold(data, k, num);
      }
      assert e in prev <==>
               && e.BadReading? && 2 <= e.row <= k
               && e in RowReadingEvent(data[e.row - 2], e.row, num) by {
        ReadingEventsMember(data, k - 1, num, e);
      }
      if e in last {
        RowEventIsOfRow(data[k - 1], k + 1, num, e);
      }
    }
  }

  /** The readings events of the first k rows: those of the first k - 1, then row k - 1's. */
  lemma ReadingEventsUnfold(data: seq<seq<string>>, k: nat, num: NumberSemantics)
    requires 0 < k <= |data|
    requires forall j :: 0 <= j < k ==> |data[j]| == Columns
    ensures ReadingEvents(data, k, num) == ReadingEvents(data, k - 1, num) + RowReadingEvent(data[k - 1], k + 1, num)
  {
  }

  /** A row reports no readings event exactly when all its readings are good. */
  lemma RowQuietIff(row: seq<string>, n: nat, num: NumberSemantics)
    requires |row| == Columns
    ensures RowReadingEvent(row, n, num) == [] <==> ReadingsOk(row, num)
  {
    ReadingEventFromIff(row, n, 2, num);
  }

  /** Every one of the first `k` rows has ten good readings. */
  ghost predicate AllReadingsOk(data: seq<seq<string>>, k: nat, num: NumberSemantics)
    requires k <= |data|
    requires forall j :: 0 <= j < k ==> |data[j]| == Columns
  {
    forall j :: 0 <= j < k ==> ReadingsOk(data[j], num)
  }

  /** No readings event among the first `k` rows exactly when all their readings are good. */
  lemma ReadingEventsEmpty(data: seq<seq<string>>, k: nat, num: NumberSemantics)
    requires k <= |data|
    requires forall j :: 0 <= j < k ==> |data[j]| == Columns
    ensures ReadingEvents(data, k, num) == [] <==> AllReadingsOk(data, k, num)
  {
    if AllReadingsOk(data, k, num) {
      QuietWhenReadingsOk(data, k, num);
    } else {
      var j :| 0 <= j < k && !ReadingsOk(data[j], num);
      LoudWhenReadingBad(data, k, num, j);
    }
  }

  /** Rows whose readings are all good report no readings event. */
  lemma {:induction false} QuietWhenReadingsOk(data: seq<seq<string>>, k: nat, num: NumberSemantics)
    requires k <= |data|
    requires forall j :: 0 <= j < k ==> |data[j]| == Columns
    requires AllReadingsOk(data, k, num)
    ensures ReadingEvents(data, k, num) == []
  {
    if k > 0 {
      QuietWhenReadingsOk(data, k - 1, num);
      RowQuietIff(data[k - 1], k + 1, num);
      ReadingEventsUnfold(data, k, num);
    }
  }

  /** A row among the first `k` with a bad reading makes their readings events non-empty. */
  lemma {:induction false} LoudWhenReadingBad(data: seq<seq<string>>, k: nat, num: NumberSemantics, j: nat)
    requires j < k <= |data|
    requires forall i :: 0 <= i < k ==> |data[i]| == Columns
    requires !ReadingsOk(data[j], num)
    ensures ReadingEvents(data, k, num) != []
  {
    if j == k - 1 {
      LoudWhenLastRowBad(data, k, num);
    } else {
      LoudWhenReadingBad(data, k - 1, num, j);
      LoudStaysLoud(data, k, num);
    }
  }

  /** Readings events of the first k - 1 rows remain among those of the first k. */
  lemma LoudStaysLoud(data: seq<seq<string>>, k: nat, num: NumberSemantics)
    requires 0 < k <= |data|
    requires forall i :: 0 <= i < k ==> |data[i]| == Columns
    requires ReadingEvents(data, k - 1, num) != []
    ensures ReadingEvents(data, k, num) != []
  {
    ReadingEventsUnfold(data, k, num);
  }

  /** The last of the first `k` rows having a bad reading makes their readings events non-empty. */
  lemma LoudWhenLastRowBad(data: seq<seq<string>>, k: nat, num: NumberSemantics)
    requires 0 < k <= |data|
    requires forall i :: 0 <= i < k ==> |data[i]| == Columns
    requires !ReadingsOk(data[k - 1], num)
    ensures ReadingEvents(data, k, num) != []
  {
    RowQuietIff(data[k - 1], k + 1, num);
    ReadingEventsUnfold(data, k, num);
  }

  /** The scan's events: bad readings in row order, then at most one event that ends the scan. */
  lemma ScanEventsShape(data: seq<seq<string>>, num: NumberSemantics)
    ensures var ev := ScanEvents(data, num);
            && (forall e <- ev :: 2 <= e.Row() && !e.Empty? && !e.BadHeaders?)
            && (forall a, b :: 0 <= a < b < |ev| ==> ev[a].Row() < ev[b].Row())
            && (forall a :: 0 <= a < |ev| - 1 ==> !ev[a].EndsScan())
  {
    var k := StopIndex(data);
    ReadingEventsShape(data, k, num);
    var prev := ReadingEvents(data, k, num);
    var ev := ScanEvents(data, num);
    forall a, b | 0 <= a < b < |ev| ensures ev[a].Row() < ev[b].Row() {
      assert ev[a] in prev;
      if b >= |prev| {
        assert ev[b] == StopEvent(data, k);
      }
    }
    forall a | 0 <= a < |ev| - 1 ensures !ev[a].EndsScan() {
      assert ev[a] in prev;
    }
  }

  /** An event other than a bad reading is in the scan's events exactly when it is the stop event. */
  lemma StopEventMember(data: seq<seq<string>>, num: NumberSemantics, e: Event)
    requires !e.BadReading?
    ensures e in ScanEvents(data, num) <==>
              StopIndex(data) < |data| && e == StopEvent(data, StopIndex(data))
  {
    var k := StopIndex(data);
    ReadingEventsShape(data, k, num);
    if e in ReadingEvents(data, k, num) {
      assert false;
    }
  }

  // ---------------------------------------------------------------------------
  // The check on a whole content
  // ---------------------------------------------------------------------------

  /** Empty content is reported exactly for blank content, and then nothing else is. */
  lemma EmptyOnlyForBlank(content: string, num: NumberSemantics)
    ensures Empty in Validate(content, num) <==> IsBlank(content)
    ensures IsBlank(content) ==> Validate(content, num) == [Empty]
  {
    ScanEventsShape(DataRows(content), num);
  }

  /**
   * Bad headers are reported exactly when the content is not blank and its
   * first row is not the schema; then no data row is looked at.
   */
  lemma BadHeadersOnlyForWrongHeader(content: string, num: NumberSemantics)
    ensures BadHeaders in Validate(content, num) <==> !IsBlank(content) && !HeaderOk(content)
    ensures BadHeaders in Validate(content, num) ==> Validate(content, num) == [BadHeaders]
  {
    ScanEventsShape(DataRows(content), num);
  }

  /**
   * Events come in row order, at most one per row, and only the last may be
   * one that ends the scan.
   */
  lemma EventsInRowOrder(content: string, num: NumberSemantics)
    ensures var ev := Validate(content, num);
            && (forall a, b :: 0 <= a < b < |ev| ==> ev[a].Row() < ev[b].Row())
            && (forall a :: 0 <= a < |ev| - 1 ==> !ev[a].EndsScan())
  {
    ScanEventsShape(DataRows(content), num);
  }

  /**
   * A content yields no event exactly when it is not blank, its header row is
   * the schema, and every data row has 12 fields, a batch id of its own and
   * ten good readings.
   */
  lemma CleanFileIff(content: string, num: NumberSemantics)
    ensures Validate(content, num) == [] <==>
              !IsBlank(content) && HeaderOk(content) && WellFormedRows(DataRows(content), num)
  {
    var data := DataRows(content);
    var k := StopIndex(data);
    ReachesIff(data, |data|);
    ReadingEventsEmpty(data, k, num);
  }

  /** The loop reports `MissingColumns(n)` iff it reaches row n and row n does not have 12 fields. */
  lemma ScanMissingColumnsIff(data: seq<seq<string>>, num: NumberSemantics, n: nat)
    ensures MissingColumns(n) in ScanEvents(data, num) <==>
              2 <= n && n - 2 < |data| && CleanPrefix(data, n - 2) && |data[n - 2]| != Columns
  {
    StopEventMember(data, num, MissingColumns(n));
    if 2 <= n && n - 2 < |data| {
      StopIndexIs(data, n - 2);
    }
  }

  /** The loop reports `DuplicateBatch(n)` iff it reaches row n, which has 12 fields and an id seen before. */
  lemma ScanDuplicateBatchIff(data: seq<seq<string>>, num: NumberSemantics, n: nat)
    ensures DuplicateBatch(n) in ScanEvents(data, num) <==>
              && 2 <= n && n - 2 < |data| && CleanPrefix(data, n - 2)
              && |data[n - 2]| == Columns
              && exists a :: 0 <= a < n - 2 && data[a][0] == data[n - 2][0]
  {
    StopEventMember(data, num, DuplicateBatch(n));
    if 2 <= n && n - 2 < |data| {
      StopIndexIs(data, n - 2);
    }
  }

  /**
   * `MissingColumns(n)` is reported exactly when row n is reached (rows 2 to
   * n - 1 have 12 fields and distinct batch ids) and has another field count.
   */
  lemma MissingColumnsIff(content: string, num: NumberSemantics, n: nat)
    ensures var data := DataRows(content);
            MissingColumns(n) in Validate(content, num) <==>
              && !IsBlank(content) && HeaderOk(content)
              && 2 <= n && n - 2 < |data| && CleanPrefix(data, n - 2)
              && |data[n - 2]| != Columns
  {
    if !IsBlank(content) && HeaderOk(content) {
      ScanMissingColumnsIff(DataRows(content), num, n);
    }
  }

  /**
   * `DuplicateBatch(n)` is reported exactly when row n is reached, has 12
   * fields, and repeats the batch id of an earlier row: the report names the
   * second occurrence, and the first duplicate in the file.
   */
  lemma DuplicateBatchIff(content: string, num: NumberSemantics, n: nat)
    ensures var data := DataRows(content);
            DuplicateBatch(n) in Validate(content, num) <==>
              && !IsBlank(content) && HeaderOk(content)
              && 2 <= n && n - 2 < |data| && CleanPrefix(data, n - 2)
              && |data[n - 2]| == Columns
              && exists a :: 0 <= a < n - 2 && data[a][0] == data[n - 2][0]
  {
    if !IsBlank(content) && HeaderOk(content) {
      ScanDuplicateBatchIff(DataRows(content), num, n);
    }
  }

  /** The loop reports a bad reading of row n iff it accepts row n and that reading is the row's first bad one. */
  lemma ScanBadReadingIff(data: seq<seq<string>>, num: NumberSemantics, n: nat, i: nat, fault: ReadingFault)
    ensures BadReading(n, i, fault) in ScanEvents(data, num) <==>
              && 2 <= n && n - 2 < |data| && CleanPrefix(data, n - 1)
              && FirstBadReading(data[n - 2], i, fault, num)
  {
    var k := StopIndex(data);
    var e := BadReading(n, i, fault);
    var readings := ReadingEvents(data, k, num);
    assert e in ScanEvents(data, num) <==> e in readings;
    assert e in readings <==> 2 <= n <= k + 1 && e in RowReadingEvent(data[n - 2], n, num) by {
      ReadingEventsMember(data, k, num, e);
    }
    if 2 <= n && n - 2 < |data| {
      assert n - 1 <= k <==> CleanPrefix(data, n - 1) by { ReachesIff(data, n - 1); }
      if CleanPrefix(data, n - 1) {
        RowReadingEventIff(data[n - 2], n, i, fault, num);
      }
    }
  }

  /**
   * `BadReading(n, i, fault)` is reported exactly when row n is reached and
   * accepted (so its batch id joins the seen set), reading i has that fault
   * and readings 1 to i - 1 are good.  Nothing about other rows' readings
   * enters: a bad reading does not stop the scan of later rows.
   */
  lemma BadReadingIff(content: string, num: NumberSemantics, n: nat, i: nat, fault: ReadingFault)
    ensures var data := DataRows(content);
            BadReading(n, i, fault) in Validate(content, num) <==>
              && !IsBlank(content) && HeaderOk(content)
              && 2 <= n && n - 2 < |data| && CleanPrefix(data, n - 1)
              && FirstBadReading(data[n - 2], i, fault, num)
  {
    if !IsBlank(content) && HeaderOk(content) {
      ScanBadReadingIff(DataRows(content), num, n, i, fault);
    }
  }
}
