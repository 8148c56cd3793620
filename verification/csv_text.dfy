/**
 * The text layer under the validation scan: `str.strip`, `str.splitlines` and
 * `csv.reader` as the scan uses them, and `csv.writer` for the rows the header
 * test writes.  Rows are read from text without quote characters, so a row is
 * the comma split of its line and a blank line is a row of no fields.
 */
module CsvText {

  // ---------------------------------------------------------------------------
  // Whitespace and `str.strip()`
  // ---------------------------------------------------------------------------

  /** The characters `str.isspace` accepts, which `str.strip()` removes from both ends. */
  predicate IsSpace(c: char) {
    var k := c as int;
    (0x09 <= k <= 0x0D) || (0x1C <= k <= 0x20) || k == 0x85 || k == 0xA0 || k == 0x1680
    || (0x2000 <= k <= 0x200A) || k == 0x2028 || k == 0x2029 || k == 0x202F
    || k == 0x205F || k == 0x3000
  }

  /** `not content.strip()`: stripping leaves nothing exactly when every character is whitespace. */
  predicate IsBlank(s: string) {
    forall i :: 0 <= i < |s| ==> IsSpace(s[i])
  }

  // ---------------------------------------------------------------------------
  // Lines: `str.splitlines()`
  // ---------------------------------------------------------------------------

  /** The line boundaries of `str.splitlines`; "\r\n" counts as one boundary (see BreakWidth). */
  predicate IsLineBreak(c: char) {
    c as int in {0x0A, 0x0B, 0x0C, 0x0D, 0x1C, 0x1D, 0x1E, 0x85, 0x2028, 0x2029}
  }

  predicate NoLineBreak(s: string) {
    forall j :: 0 <= j < |s| ==> !IsLineBreak(s[j])
  }

  /** The length of the first line of `s`: the index of its first boundary, or |s|. */
  function LineLength(s: string): (k: nat)
    ensures k <= |s|
    ensures forall j :: 0 <= j < k ==> !IsLineBreak(s[j])
    ensures k < |s| ==> IsLineBreak(s[k])
  {
    if s == [] || IsLineBreak(s[0]) then 0 else 1 + LineLength(s[1..])
  }

  /** How many characters the boundary at `s[k]` takes: two for "\r\n", one otherwise. */
  function BreakWidth(s: string, k: nat): (w: nat)
    requires k < |s|
    ensures 1 <= w <= |s| - k
  {
    if s[k] == '\r' && k + 1 < |s| && s[k + 1] == '\n' then 2 else 1
  }

  /**
   * `s.splitlines()`: the text between boundaries, without the boundaries; a
   * boundary at the very end does not open another (empty) line.
   */
  function SplitLines(s: string): (lines: seq<string>)
    ensures forall l <- lines :: NoLineBreak(l)
    ensures lines == [] <==> s == []
    decreases |s|
  {
    if s == [] then []
    else
      var k := LineLength(s);
      if k == |s| then [s]
      else [s[..k]] + SplitLines(s[k + BreakWidth(s, k)..])
  }

  // ---------------------------------------------------------------------------
  // Fields: `csv.reader` over one line
  // ---------------------------------------------------------------------------

  /** The length of the first field of `s`: the index of its first comma, or |s|. */
  function FieldLength(s: string): (k: nat)
    ensures k <= |s|
    ensures forall j :: 0 <= j < k ==> s[j] != ','
    ensures k < |s| ==> s[k] == ','
  {
    if s == [] || s[0] == ',' then 0 else 1 + FieldLength(s[1..])
  }

  /** The pieces of `s` between commas; n commas give n + 1 pieces. */
  function SplitOnCommas(s: string): (fields: seq<string>)
    ensures |fields| >= 1
    ensures forall f <- fields :: ',' !in f
    decreases |s|
  {
    var k := FieldLength(s);
    if k == |s| then [s] else [s[..k]] + SplitOnCommas(s[k + 1..])
  }

  /** The row `csv.reader` yields for one quote-free line: no fields for a blank line. */
  function SplitFields(line: string): (row: seq<string>)
    ensures row == [] <==> line == []
  {
    if line == [] then [] else SplitOnCommas(line)
  }

  /** `csv.reader(content.splitlines())` as a list of rows. */
  function ReadRows(content: string): (rows: seq<seq<string>>)
    ensures rows == [] <==> content == []
  {
    var lines := SplitLines(content);
    seq(|lines|, i requires 0 <= i < |lines| => SplitFields(lines[i]))
  }

  // ---------------------------------------------------------------------------
  // Writing: `csv.writer` and newline-joined content
  // ---------------------------------------------------------------------------

  /** A field `csv.writer` writes as it is, without quoting it. */
  predicate PlainField(f: string) {
    forall j :: 0 <= j < |f| ==> f[j] != ',' && f[j] != '"' && !IsLineBreak(f[j])
  }

  /** A row written without quotes: plain fields, and not the single empty field (written as `""`). */
  predicate PlainRow(row: seq<string>) {
    row != [""] && forall f <- row :: PlainField(f)
  }

  /** The fields of a row joined by commas, as `csv.writer.writerow` writes them. */
  function JoinFields(fields: seq<string>): string {
    if fields == [] then []
    else if |fields| == 1 then fields[0]
    else fields[0] + "," + JoinFields(fields[1..])
  }

  /** A file written row by row with `csv.writer`, whose line terminator is "\r\n". */
  function WriteRows(rows: seq<seq<string>>): string {
    if rows == [] then [] else JoinFields(rows[0]) + "\r\n" + WriteRows(rows[1..])
  }

  /** Rows written as one text with "\n" between them and none after the last. */
  function JoinRows(rows: seq<seq<string>>): string {
    if rows == [] then []
    else if |rows| == 1 then JoinFields(rows[0])
    else JoinFields(rows[0]) + "\n" + JoinRows(rows[1..])
  }

  // ---------------------------------------------------------------------------
  // Round trips
  // ---------------------------------------------------------------------------

  /** Splitting joined comma-free fields gives the fields back. */
  lemma {:induction false} SplitJoinedFields(fields: seq<string>)
    requires |fields| >= 1
    requires forall f <- fields :: ',' !in f
    ensures SplitOnCommas(JoinFields(fields)) == fields
  {
    var s := JoinFields(fields);
    if |fields| == 1 {
      assert fields[0] in fields;
    } else {
      var rest := JoinFields(fields[1..]);
      assert s == fields[0] + "," + rest;
      assert s[|fields[0]|] == ',';
      assert fields[0] in fields;
      assert FieldLength(s) == |fields[0]|;
      assert s[..|fields[0]|] == fields[0];
      assert s[|fields[0]| + 1..] == rest;
      SplitJoinedFields(fields[1..]);
    }
  }

  /** A text is the part before index k, the character at k, and the part after. */
  lemma SplitAround(s: string, k: nat)
    requires k < |s|
    ensures s == s[..k] + [s[k]] + s[k + 1..]
  {
  }

  /** Joining a field in front of at least one more puts a comma between. */
  lemma JoinCons(head: string, tail: seq<string>)
    requires tail != []
    ensures JoinFields([head] + tail) == head + "," + JoinFields(tail)
  {
    assert ([head] + tail)[1..] == tail;
  }

  /** Joining the pieces of a split line gives the line back: the split loses nothing. */
  lemma {:induction false} JoinSplitFields(s: string)
    ensures JoinFields(SplitOnCommas(s)) == s
    decreases |s|
  {
    var k := FieldLength(s);
    if k < |s| {
      var head, rest := s[..k], s[k + 1..];
      var tail := SplitOnCommas(rest);
      assert SplitOnCommas(s) == [head] + tail;
      JoinCons(head, tail);
      JoinSplitFields(rest);
      SplitAround(s, k);
    }
  }

  /** A plain row written by `csv.writer` is read back by `csv.reader` unchanged. */
  lemma FieldsRoundTrip(fields: seq<string>)
    requires PlainRow(fields)
    ensures SplitFields(JoinFields(fields)) == fields
  {
    if fields != [] {
      if |fields| == 1 {
        assert fields[0] != [];
      } else {
        assert JoinFields(fields) == fields[0] + "," + JoinFields(fields[1..]);
      }
      forall f <- fields ensures ',' !in f {
        assert PlainField(f);
      }
      SplitJoinedFields(fields);
    }
  }

  /** The line of a plain row holds no line boundary. */
  lemma {:induction false} JoinedFieldsHaveNoBreak(fields: seq<string>)
    requires forall f <- fields :: PlainField(f)
    ensures NoLineBreak(JoinFields(fields))
  {
    if |fields| > 1 {
      JoinedFieldsHaveNoBreak(fields[1..]);
      assert PlainField(fields[0]);
    } else if |fields| == 1 {
      assert PlainField(fields[0]);
    }
  }

  /** A line followed by "\n" or "\r\n" is split off as one line. */
  lemma SplitLinesCons(line: string, brk: string, rest: string)
    requires NoLineBreak(line)
    requires brk == "\n" || brk == "\r\n"
    ensures SplitLines(line + brk + rest) == [line] + SplitLines(rest)
  {
    var s := line + brk + rest;
    assert s[|line|] == brk[0];
    assert IsLineBreak(brk[0]);
    assert LineLength(s) == |line|;
    assert BreakWidth(s, |line|) == |brk|;
    assert s[..|line|] == line;
    assert s[|line| + |brk|..] == rest;
  }

  /** A non-empty text without boundaries is one line. */
  lemma SplitLinesSingle(line: string)
    requires NoLineBreak(line) && line != []
    ensures SplitLines(line) == [line]
  {
    assert LineLength(line) == |line|;
  }

  /** The lines of a file written by `csv.writer` are the joined rows, one per row. */
  lemma {:induction false} WrittenLines(rows: seq<seq<string>>)
    requires forall r <- rows :: PlainRow(r)
    ensures |SplitLines(WriteRows(rows))| == |rows|
    ensures forall i :: 0 <= i < |rows| ==> SplitLines(WriteRows(rows))[i] == JoinFields(rows[i])
  {
    if rows != [] {
      var head, tail := JoinFields(rows[0]), WriteRows(rows[1..]);
      assert WriteRows(rows) == head + "\r\n" + tail;
      assert rows[0] in rows;
      JoinedFieldsHaveNoBreak(rows[0]);
      assert forall r <- rows[1..] :: r in rows;
      WrittenLines(rows[1..]);
      LinesCons(rows, "\r\n", tail);
    }
  }

  /** A single non-empty quote-free row, joined, is one line. */
  lemma JoinedLineSingle(row: seq<string>)
    requires row != [] && PlainRow(row)
    ensures SplitLines(JoinFields(row)) == [JoinFields(row)]
  {
    JoinedFieldsHaveNoBreak(row);
    FieldsRoundTrip(row);
    SplitLinesSingle(JoinFields(row));
  }

  /** The lines of newline-joined rows are the joined rows, one per row. */
  lemma {:induction false} JoinedLines(rows: seq<seq<string>>)
    requires rows != [] && rows[|rows| - 1] != []
    requires forall r <- rows :: PlainRow(r)
    ensures |SplitLines(JoinRows(rows))| == |rows|
    ensures forall i :: 0 <= i < |rows| ==> SplitLines(JoinRows(rows))[i] == JoinFields(rows[i])
  {
    assert rows[0] in rows;
    if |rows| == 1 {
      JoinedLineSingle(rows[0]);
    } else {
      JoinedFieldsHaveNoBreak(rows[0]);
      var head, tail := JoinFields(rows[0]), JoinRows(rows[1..]);
      assert JoinRows(rows) == head + "\n" + tail;
      assert forall r <- rows[1..] :: r in rows;
      JoinedLines(rows[1..]);
      LinesCons(rows, "\n", tail);
    }
  }

  /** The step of both: the first row's line, a line break, then the lines of the other rows. */
  lemma LinesCons(rows: seq<seq<string>>, brk: string, tail: string)
    requires rows != [] && NoLineBreak(JoinFields(rows[0]))
    requires brk == "\n" || brk == "\r\n"
    requires |SplitLines(tail)| == |rows| - 1
    requires forall i :: 0 <= i < |rows| - 1 ==> SplitLines(tail)[i] == JoinFields(rows[1..][i])
    ensures var lines := SplitLines(JoinFields(rows[0]) + brk + tail);
            |lines| == |rows| && forall i :: 0 <= i < |rows| ==> lines[i] == JoinFields(rows[i])
  {
    var head := JoinFields(rows[0]);
    SplitLinesCons(head, brk, tail);
    var lines, rest := SplitLines(head + brk + tail), SplitLines(tail);
    assert lines == [head] + rest;
    forall i | 0 <= i < |rows| ensures lines[i] == JoinFields(rows[i]) {
      if i > 0 {
        assert lines[i] == rest[i - 1] && rows[i] == rows[1..][i - 1];
      }
    }
  }

  /** Reading a file that `csv.writer` wrote gives back the rows it was given. */
  lemma ReadWrittenRows(rows: seq<seq<string>>)
    requires forall r <- rows :: PlainRow(r)
    ensures ReadRows(WriteRows(rows)) == rows
  {
    WrittenLines(rows);
    var read := ReadRows(WriteRows(rows));
    forall i | 0 <= i < |rows| ensures read[i] == rows[i] {
      FieldsRoundTrip(rows[i]);
    }
  }

  /** Reading newline-joined rows gives back the rows, when the last row is not blank. */
  lemma ReadJoinedRows(rows: seq<seq<string>>)
    requires rows != [] && rows[|rows| - 1] != []
    requires forall r <- rows :: PlainRow(r)
    ensures ReadRows(JoinRows(rows)) == rows
  {
    JoinedLines(rows);
    var read := ReadRows(JoinRows(rows));
    forall i | 0 <= i < |rows| ensures read[i] == rows[i] {
      FieldsRoundTrip(rows[i]);
    }
  }
}
