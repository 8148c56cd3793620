/**
 * The keyword search over a server listing: `[f for f in files if keyword in f]`.
 * The listing itself (`ftp.nlst()`) is a parameter.
 */
module FileSearch {

  /** `keyword` occurs in `text` starting at index `i`. */
  ghost predicate OccursAt(text: string, keyword: string, i: int) {
    0 <= i && i + |keyword| <= |text| && text[i..i + |keyword|] == keyword
  }

  /** Python's `keyword in text` on strings: try each starting position in turn. */
  predicate Contains(text: string, keyword: string)
    decreases |text|
  {
    |keyword| <= |text|
    && (text[..|keyword|] == keyword || (|text| > 0 && Contains(text[1..], keyword)))
  }

  /** The substring test holds exactly when the keyword occurs at some position. */
  lemma {:induction false} ContainsIff(text: string, keyword: string)
    ensures Contains(text, keyword) <==> exists i :: OccursAt(text, keyword, i)
    decreases |text|
  {
    if |keyword| <= |text| {
      if text[..|keyword|] == keyword {
        assert OccursAt(text, keyword, 0);
      } else if |text| > 0 {
        ContainsIff(text[1..], keyword);
        if Contains(text[1..], keyword) {
          var i :| OccursAt(text[1..], keyword, i);
          assert text[i + 1..i + 1 + |keyword|] == text[1..][i..i + |keyword|];
          assert OccursAt(text, keyword, i + 1);
        }
        forall i | OccursAt(text, keyword, i) ensures OccursAt(text[1..], keyword, i - 1) {
          assert i != 0;
          assert text[1..][i - 1..i - 1 + |keyword|] == text[i..i + |keyword|];
        }
      }
    }
  }

  /** `[f for f in files if keyword in f]`. */
  function MatchingFiles(files: seq<string>, keyword: string): (matched: seq<string>)
    ensures |matched| <= |files|
    ensures forall f <- matched :: f in files && Contains(f, keyword)
    ensures forall f <- files :: Contains(f, keyword) ==> f in matched
  {
    if files == [] then []
    else (if Contains(files[0], keyword) then [files[0]] else []) + MatchingFiles(files[1..], keyword)
  }

  /** The filter keeps the listing's order: filtering a concatenation filters each part. */
  lemma {:induction false} MatchingFilesAppend(a: seq<string>, b: seq<string>, keyword: string)
    ensures MatchingFiles(a + b, keyword) == MatchingFiles(a, keyword) + MatchingFiles(b, keyword)
  {
    if a != [] {
      assert (a + b)[1..] == a[1..] + b;
      MatchingFilesAppend(a[1..], b, keyword);
    } else {
      assert a + b == b;
    }
  }

  /** Every matching name is kept as many times as it is listed; no other name is kept. */
  lemma {:induction false} MatchingFilesCount(files: seq<string>, keyword: string, f: string)
    ensures multiset(MatchingFiles(files, keyword))[f]
            == if Contains(f, keyword) then multiset(files)[f] else 0
  {
    if files != [] {
      MatchingFilesCount(files[1..], keyword, f);
      assert files == [files[0]] + files[1..];
    }
  }

  /** The empty keyword is in every name (`"" in f` holds), so the whole listing matches. */
  lemma {:induction false} EmptyKeywordMatchesAll(files: seq<string>)
    ensures MatchingFiles(files, "") == files
  {
    if files != [] {
      EmptyKeywordMatchesAll(files[1..]);
    }
  }
}
