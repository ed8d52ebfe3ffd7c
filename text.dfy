/**
 * JavaScript's `String.prototype.trim`, the only string operation the feed
 * logic depends on: it removes leading and trailing characters that are
 * WhiteSpace or LineTerminator in the ECMAScript sense.
 */
module Text {

  /** ECMAScript WhiteSpace and LineTerminator code points. */
  const Whitespace: set<char> := {
    '\t', '\n', '\U{000B}', '\U{000C}', '\r', ' ', '\U{00A0}', '\U{1680}',
    '\U{2000}', '\U{2001}', '\U{2002}', '\U{2003}', '\U{2004}', '\U{2005}',
    '\U{2006}', '\U{2007}', '\U{2008}', '\U{2009}', '\U{200A}',
    '\U{2028}', '\U{2029}', '\U{202F}', '\U{205F}', '\U{3000}', '\U{FEFF}'
  }

  predicate IsWhitespace(c: char) {
    c in Whitespace
  }

  predicate AllWhitespace(s: string) {
    forall i :: 0 <= i < |s| ==> IsWhitespace(s[i])
  }

  /** True when `s` neither begins nor ends with whitespace. */
  predicate IsTrimmed(s: string) {
    s == [] || (!IsWhitespace(s[0]) && !IsWhitespace(s[|s| - 1]))
  }

  /** The first position at or after `i` that does not hold whitespace (`|s|` if none). */
  function SkipWhitespace(s: string, i: nat): (k: nat)
    requires i <= |s|
    ensures i <= k <= |s|
    ensures forall j :: i <= j < k ==> IsWhitespace(s[j])
    ensures k < |s| ==> !IsWhitespace(s[k])
    decreases |s| - i
  {
    if i < |s| && IsWhitespace(s[i]) then SkipWhitespace(s, i + 1) else i
  }

  /** Moving back from `j`, but not past `lo`, the end of the last character that is not whitespace. */
  function SkipWhitespaceBack(s: string, lo: nat, j: nat): (k: nat)
    requires lo <= j <= |s|
    ensures lo <= k <= j
    ensures forall m :: k <= m < j ==> IsWhitespace(s[m])
    ensures k > lo ==> !IsWhitespace(s[k - 1])
    decreases j
  {
    if j > lo && IsWhitespace(s[j - 1]) then SkipWhitespaceBack(s, lo, j - 1) else j
  }

  /** Where the trimmed text starts: everything before it is whitespace. */
  function TrimStartIndex(s: string): (a: nat)
    ensures a <= |s|
    ensures AllWhitespace(s[..a])
    ensures a < |s| ==> !IsWhitespace(s[a])
  {
    var a := SkipWhitespace(s, 0);
    assert forall j :: 0 <= j < a ==> s[..a][j] == s[j];
    a
  }

  /** Where the trimmed text ends: everything from it on is whitespace. */
  function TrimEndIndex(s: string): (b: nat)
    ensures TrimStartIndex(s) <= b <= |s|
    ensures AllWhitespace(s[b..])
    ensures b > TrimStartIndex(s) ==> !IsWhitespace(s[b - 1])
  {
    var b := SkipWhitespaceBack(s, TrimStartIndex(s), |s|);
    assert forall j :: 0 <= j < |s| - b ==> s[b..][j] == s[b + j];
    b
  }

  /** `trim`: the result neither begins nor ends with whitespace. */
  function Trim(s: string): (r: string)
    ensures IsTrimmed(r)
  {
    s[TrimStartIndex(s)..TrimEndIndex(s)]
  }

  /** What `trim` removes is whitespace on either side of a contiguous slice of the input. */
  lemma TrimIsSlice(s: string)
    ensures exists a, b :: 0 <= a <= b <= |s| && Trim(s) == s[a..b] &&
                           AllWhitespace(s[..a]) && AllWhitespace(s[b..])
  {
    var a, b := TrimStartIndex(s), TrimEndIndex(s);
    assert Trim(s) == s[a..b];
  }

  /** Trimming leaves nothing exactly when the text is all whitespace. */
  lemma TrimEmptyIff(s: string)
    ensures Trim(s) == [] <==> AllWhitespace(s)
  {
    var a, b := TrimStartIndex(s), TrimEndIndex(s);
    if a == b {
      forall j | 0 <= j < |s| ensures IsWhitespace(s[j]) {
        assert s[..a][j] == s[j];
      }
    }
  }

  /** A text with no whitespace at either end is its own trim. */
  lemma TrimOfTrimmed(s: string)
    requires IsTrimmed(s)
    ensures Trim(s) == s
  {
    if s != [] {
      assert TrimStartIndex(s) == 0;
      assert TrimEndIndex(s) == |s|;
    }
  }

  /** `trim` is idempotent. */
  lemma TrimIdempotent(s: string)
    ensures Trim(Trim(s)) == Trim(s)
  {
    TrimOfTrimmed(Trim(s));
  }
}
