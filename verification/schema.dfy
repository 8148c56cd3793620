/**
 * The fixed column schema of a batch file, `EXPECTED_HEADERS`, and the header
 * check `headers == EXPECTED_HEADERS` made on the first row a reader yields.
 */
module Schema {
  import opened Wrappers

  /** The character of the decimal digit `d`. */
  function DigitChar(d: nat): (c: char)
    requires d < 10
    ensures '0' <= c <= '9'
  {
    ('0' as int + d) as char
  }

  /** `str(n)` for a natural number: its decimal numeral, without leading zeros. */
  function Decimal(n: nat): (s: string)
    ensures |s| >= 1
    ensures forall j :: 0 <= j < |s| ==> '0' <= s[j] <= '9'
    ensures s[0] == '0' <==> n == 0
    decreases n
  {
    if n < 10 then [DigitChar(n)] else Decimal(n / 10) + [DigitChar(n % 10)]
  }

  /** The column name `f"reading{i}"`. */
  function ReadingName(i: nat): string {
    "reading" + Decimal(i)
  }

  /** `[f"reading{i}" for i in range(lo, hi)]`. */
  function ReadingNames(lo: nat, hi: nat): (names: seq<string>)
    ensures |names| == if lo <= hi then hi - lo else 0
    ensures forall k :: 0 <= k < |names| ==> names[k] == ReadingName(lo + k)
    decreases hi - lo
  {
    if lo >= hi then [] else [ReadingName(lo)] + ReadingNames(lo + 1, hi)
  }

  /** The number of reading columns. */
  const ReadingCount: nat := 10

  /** `["batch_id", "timestamp"] + [f"reading{i}" for i in range(1, 11)]`. */
  const ExpectedHeaders: seq<string> := ["batch_id", "timestamp"] + ReadingNames(1, ReadingCount + 1)

  /** The column name of a one-digit reading number. */
  lemma ShortReadingName(n: nat)
    requires n < 10
    ensures ReadingName(n) == "reading" + [DigitChar(n)]
  {
  }

  /** The schema is exactly these twelve names, in this order. */
  lemma ExpectedHeadersListed()
    ensures |ExpectedHeaders| == 12
    ensures ExpectedHeaders[0] == "batch_id" && ExpectedHeaders[1] == "timestamp"
    ensures ExpectedHeaders[2] == "reading1" && ExpectedHeaders[3] == "reading2"
    ensures ExpectedHeaders[4] == "reading3" && ExpectedHeaders[5] == "reading4"
    ensures ExpectedHeaders[6] == "reading5" && ExpectedHeaders[7] == "reading6"
    ensures ExpectedHeaders[8] == "reading7" && ExpectedHeaders[9] == "reading8"
    ensures ExpectedHeaders[10] == "reading9" && ExpectedHeaders[11] == "reading10"
  {
    var names := ReadingNames(1, ReadingCount + 1);
    assert names[0] == "reading1" by { ShortReadingName(1); }
    assert names[1] == "reading2" by { ShortReadingName(2); }
    assert names[2] == "reading3" by { ShortReadingName(3); }
    assert names[3] == "reading4" by { ShortReadingName(4); }
    assert names[4] == "reading5" by { ShortReadingName(5); }
    assert names[5] == "reading6" by { ShortReadingName(6); }
    assert names[6] == "reading7" by { ShortReadingName(7); }
    assert names[7] == "reading8" by { ShortReadingName(8); }
    assert names[8] == "reading9" by { ShortReadingName(9); }
    assert names[9] == "reading10" by { assert Decimal(10) == "10"; }
  }

  /** The numerals of 1 to 10 are pairwise different. */
  lemma DecimalsDiffer(a: nat, b: nat)
    requires a < b <= 10
    ensures Decimal(a) != Decimal(b)
  {
    if b < 10 {
      assert Decimal(a)[0] == DigitChar(a) && Decimal(b)[0] == DigitChar(b);
    } else {
      assert |Decimal(a)| == 1 && |Decimal(b)| == 2;
    }
  }

  /** No column name occurs twice in the schema. */
  lemma ExpectedHeadersDistinct()
    ensures |ExpectedHeaders| == 12
    ensures forall i, j :: 0 <= i < j < |ExpectedHeaders| ==> ExpectedHeaders[i] != ExpectedHeaders[j]
  {
    var names := ReadingNames(1, ReadingCount + 1);
    forall i, j | 0 <= i < j < |ExpectedHeaders| ensures ExpectedHeaders[i] != ExpectedHeaders[j] {
      if i >= 2 {
        var x, y := ExpectedHeaders[i], ExpectedHeaders[j];
        assert x == names[i - 2] == "reading" + Decimal(i - 1);
        assert y == names[j - 2] == "reading" + Decimal(j - 1);
        DecimalsDiffer(i - 1, j - 1);
        assert x[7..] == Decimal(i - 1) && y[7..] == Decimal(j - 1);
      } else if j >= 2 {
        assert ExpectedHeaders[j] == names[j - 2] == "reading" + Decimal(j - 1);
        assert ExpectedHeaders[j][0] == 'r';
        assert ExpectedHeaders[i][0] != 'r';
      } else {
        assert ExpectedHeaders[0][0] == 'b' && ExpectedHeaders[1][0] == 't';
      }
    }
  }

  /** `next(reader, None)`: the first row, or nothing for a text with no rows. */
  function FirstRow(rows: seq<seq<string>>): (first: Option<seq<string>>)
    ensures first.Some? <==> rows != []
    ensures first.Some? ==> first.value == rows[0]
  {
    if rows == [] then None else Some(rows[0])
  }

  /**
   * `headers == EXPECTED_HEADERS`: a header row is accepted only when it has
   * the schema's length and the schema's name at every position; a missing
   * row (`None`) is rejected.
   */
  function HeadersValid(headers: Option<seq<string>>): (ok: bool)
    ensures ok <==> headers.Some? && |headers.value| == |ExpectedHeaders|
                    && forall i :: 0 <= i < |headers.value| ==> headers.value[i] == ExpectedHeaders[i]
  {
    headers.Some? && headers.value == ExpectedHeaders
  }

  /** A header row shorter than the schema, such as one with a column missing, is rejected. */
  lemma ShorterRejected(headers: seq<string>)
    requires |headers| < |ExpectedHeaders|
    ensures !HeadersValid(Some(headers))
  {
  }

  /** The schema followed by any extra columns is rejected. */
  lemma ExtraRejected(extra: seq<string>)
    requires extra != []
    ensures !HeadersValid(Some(ExpectedHeaders + extra))
  {
  }

  /** The schema with any two of its columns swapped is rejected. */
  lemma SwapRejected(i: nat, j: nat)
    requires i < j < |ExpectedHeaders|
    ensures !HeadersValid(Some(ExpectedHeaders[i := ExpectedHeaders[j]][j := ExpectedHeaders[i]]))
  {
    ExpectedHeadersDistinct();
    var swapped := ExpectedHeaders[i := ExpectedHeaders[j]][j := ExpectedHeaders[i]];
    assert swapped[i] != ExpectedHeaders[i];
  }
}
