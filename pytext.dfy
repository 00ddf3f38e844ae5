/**
 * The handful of Python string operations the scraper relies on:
 * `str.split(sep)` with a one-character separator (and the two expressions
 * built on it, `url.split('/')[-1]` and `url.split('?')[0]`),
 * `str.strip()`, `str.startswith(prefix)` and the decimal rendering of a
 * non-negative `int` inside an f-string.
 */
module PyText {

  // ---------------------------------------------------------------------
  // str.split(sep)
  // ---------------------------------------------------------------------

  /** `s.split(sep)`: the pieces between separators, empty pieces included. */
  function Split(s: string, sep: char): (parts: seq<string>)
    ensures |parts| >= 1
  {
    if s == [] then [[]]
    else
      var rest := Split(s[1..], sep);
      if s[0] == sep then [[]] + rest
      else [[s[0]] + rest[0]] + rest[1..]
  }

  /** `sep.join(parts)`, the inverse of Split. */
  function Join(parts: seq<string>, sep: char): string
    requires |parts| >= 1
  {
    if |parts| == 1 then parts[0] else parts[0] + [sep] + Join(parts[1..], sep)
  }

  /** Joining the pieces with the separator gives back the string. */
  lemma {:induction false} JoinSplit(s: string, sep: char)
    ensures Join(Split(s, sep), sep) == s
  {
    if s != [] {
      var rest := Split(s[1..], sep);
      JoinSplit(s[1..], sep);
      if s[0] == sep {
        assert Split(s, sep)[1..] == rest;
      } else if |rest| > 1 {
        assert Split(s, sep)[1..] == rest[1..];
        assert Join(rest, sep) == rest[0] + [sep] + Join(rest[1..], sep);
      }
    }
  }

  /** No piece contains the separator. */
  lemma {:induction false} SplitPiecesHaveNoSep(s: string, sep: char)
    ensures forall p :: p in Split(s, sep) ==> sep !in p
  {
    if s != [] {
      SplitPiecesHaveNoSep(s[1..], sep);
      var rest := Split(s[1..], sep);
      if s[0] != sep {
        assert rest[0] in rest;
        forall p | p in Split(s, sep) ensures sep !in p {
          if p != [s[0]] + rest[0] {
            assert p in rest[1..];
          }
        }
      }
    }
  }

  /** A string without the separator is a single piece. */
  lemma {:induction false} SplitWithoutSep(s: string, sep: char)
    requires sep !in s
    ensures Split(s, sep) == [s]
  {
    if s != [] {
      SplitWithoutSep(s[1..], sep);
      assert s[0] in s && [s[0]] + s[1..] == s;
    }
  }

  /** Splitting at one occurrence of the separator splits the pieces there. */
  lemma {:induction false} SplitAtSep(a: string, b: string, sep: char)
    ensures Split(a + [sep] + b, sep) == Split(a, sep) + Split(b, sep)
  {
    if a == [] {
      assert a + [sep] + b == [sep] + b;
      assert ([sep] + b)[1..] == b;
    } else {
      assert (a + [sep] + b)[1..] == a[1..] + [sep] + b;
      assert (a + [sep] + b)[0] == a[0];
      SplitAtSep(a[1..], b, sep);
    }
  }

  // ---------------------------------------------------------------------
  // url.split('/')[-1] and url.split('?')[0]
  // ---------------------------------------------------------------------

  /** `s.split('/')[-1]`: the station identifier at the end of a URL path. */
  function TrailingSegment(s: string): string
  {
    var parts := Split(s, '/');
    parts[|parts| - 1]
  }

  /**
   * The trailing segment is the longest suffix of `s` without a `/`:
   * it is a suffix, holds no `/`, and is either all of `s` or preceded by `/`.
   */
  lemma {:induction false} TrailingSegmentIsLastPiece(s: string)
    ensures var r := TrailingSegment(s);
      '/' !in r && |r| <= |s| && r == s[|s| - |r|..] &&
      (|r| < |s| ==> s[|s| - |r| - 1] == '/')
    decreases |s|
  {
    if '/' !in s {
      SplitWithoutSep(s, '/');
    } else {
      var i :| 0 <= i < |s| && s[i] == '/';
      var a, b := s[..i], s[i + 1..];
      assert s == a + ['/'] + b;
      SplitAtSep(a, b, '/');
      assert TrailingSegment(s) == TrailingSegment(b);
      TrailingSegmentIsLastPiece(b);
    }
  }

  /** Extracting the trailing segment twice is the same as once. */
  lemma TrailingSegmentIdempotent(s: string)
    ensures TrailingSegment(TrailingSegment(s)) == TrailingSegment(s)
  {
    TrailingSegmentIsLastPiece(s);
    SplitWithoutSep(TrailingSegment(s), '/');
  }

  /** `s.split('?')[0]`: the URL with its query string cut off. */
  function QueryStrip(s: string): string
  {
    Split(s, '?')[0]
  }

  /**
   * The stripped URL is the longest prefix of `s` without a `?`: it is a
   * prefix, holds no `?`, is either all of `s` or followed by `?`, and so
   * leaves a URL without `?` unchanged.
   */
  lemma {:induction false} QueryStripIsFirstPiece(s: string)
    ensures var r := QueryStrip(s);
      '?' !in r && |r| <= |s| && r == s[..|r|] &&
      (|r| < |s| ==> s[|r|] == '?') &&
      ('?' !in s ==> r == s)
  {
    if s != [] && s[0] != '?' {
      QueryStripIsFirstPiece(s[1..]);
      assert QueryStrip(s) == [s[0]] + QueryStrip(s[1..]);
    }
  }

  /** Stripping the query twice is the same as once. */
  lemma QueryStripIdempotent(s: string)
    ensures QueryStrip(QueryStrip(s)) == QueryStrip(s)
  {
    QueryStripIsFirstPiece(s);
    QueryStripIsFirstPiece(QueryStrip(s));
  }

  // ---------------------------------------------------------------------
  // str.startswith(prefix)
  // ---------------------------------------------------------------------

  predicate StartsWith(s: string, prefix: string)
  {
    |prefix| <= |s| && s[..|prefix|] == prefix
  }

  // ---------------------------------------------------------------------
  // str.strip()
  // ---------------------------------------------------------------------

  /** The characters Python's `str.isspace` accepts, which `str.strip()` removes. */
  predicate IsSpace(c: char)
  {
    ('\t' <= c <= '\r') || ('\U{001C}' <= c <= ' ') ||
    c == '\U{0085}' || c == '\U{00A0}' || c == '\U{1680}' ||
    ('\U{2000}' <= c <= '\U{200A}') || c == '\U{2028}' || c == '\U{2029}' ||
    c == '\U{202F}' || c == '\U{205F}' || c == '\U{3000}'
  }

  function StripLeft(s: string): string
  {
    if s != [] && IsSpace(s[0]) then StripLeft(s[1..]) else s
  }

  function StripRight(s: string): string
  {
    if s != [] && IsSpace(s[|s| - 1]) then StripRight(s[..|s| - 1]) else s
  }

  /** `s.strip()` */
  function Strip(s: string): string
  {
    StripRight(StripLeft(s))
  }

  lemma {:induction false} StripLeftBounds(s: string) returns (i: nat)
    ensures i <= |s| && StripLeft(s) == s[i..]
    ensures forall k :: 0 <= k < i ==> IsSpace(s[k])
    ensures i < |s| ==> !IsSpace(s[i])
  {
    if s != [] && IsSpace(s[0]) {
      var i' := StripLeftBounds(s[1..]);
      i := i' + 1;
      assert s[1..][i'..] == s[i..];
    } else {
      i := 0;
    }
  }

  lemma {:induction false} StripRightBounds(s: string) returns (j: nat)
    ensures j <= |s| && StripRight(s) == s[..j]
    ensures forall k :: j <= k < |s| ==> IsSpace(s[k])
    ensures 0 < j ==> !IsSpace(s[j - 1])
  {
    if s != [] && IsSpace(s[|s| - 1]) {
      j := StripRightBounds(s[..|s| - 1]);
      assert s[..|s| - 1][..j] == s[..j];
    } else {
      j := |s|;
    }
  }

  /**
   * `s.strip()` is the slice `s[i..j]` that remains after removing the
   * whitespace at both ends: everything cut off is whitespace, and a
   * non-empty result neither starts nor ends with whitespace.
   */
  lemma StripBounds(s: string) returns (i: nat, j: nat)
    ensures i <= j <= |s| && Strip(s) == s[i..j]
    ensures forall k :: 0 <= k < i || j <= k < |s| ==> IsSpace(s[k])
    ensures i < j ==> !IsSpace(s[i]) && !IsSpace(s[j - 1])
  {
    i := StripLeftBounds(s);
    var j' := StripRightBounds(s[i..]);
    j := i + j';
    assert s[i..][..j'] == s[i..j];
    forall k | j <= k < |s| ensures IsSpace(s[k]) {
      assert s[k] == s[i..][k - i];
    }
  }

  // ---------------------------------------------------------------------
  // f'{n}' for a non-negative int
  // ---------------------------------------------------------------------

  predicate IsDigit(c: char)
  {
    '0' as int <= c as int <= '9' as int
  }

  function DigitChar(d: nat): (c: char)
    requires d < 10
    ensures IsDigit(c) && c as int - '0' as int == d
  {
    (d + '0' as int) as char
  }

  /** The decimal digits of `n`, most significant first, with no leading zero. */
  function Decimal(n: nat): (s: string)
    ensures |s| >= 1 && forall c :: c in s ==> IsDigit(c)
    ensures s[0] == '0' ==> n == 0
  {
    if n < 10 then [DigitChar(n)] else Decimal(n / 10) + [DigitChar(n % 10)]
  }

  /** The number a string of decimal digits denotes. */
  function DecimalValue(s: string): nat
    requires forall c :: c in s ==> IsDigit(c)
  {
    if s == [] then 0
    else
      assert IsDigit(s[|s| - 1]);
      DecimalValue(s[..|s| - 1]) * 10 + (s[|s| - 1] as int - '0' as int)
  }

  /** Reading the rendered digits back gives the number. */
  lemma {:induction false} DecimalRoundTrip(n: nat)
    ensures DecimalValue(Decimal(n)) == n
  {
    if n >= 10 {
      DecimalRoundTrip(n / 10);
      var s := Decimal(n);
      assert s[..|s| - 1] == Decimal(n / 10);
    }
  }
}
