/**
 * String helpers shared by the viewset: the one case-folding function used
 * both for the duplicate-marker key (Python's `str.lower`) and for the
 * case-insensitive store lookup (the ORM's `iexact`), and the decimal digit
 * strings accepted as record ids (`str.isdigit` followed by `int`), and
 * the whitespace trimming of the serializer's character fields
 * (`str.strip`). Folding and digits are ASCII only.
 */
module Text {

  /** Folds one ASCII upper-case letter to lower case; every other character is kept. */
  function LowerChar(c: char): char {
    if 'A' <= c <= 'Z' then (c as int + 32) as char else c
  }

  /** Case folding of a whole string, character by character. */
  function Lower(s: string): (r: string)
    ensures |r| == |s|
    ensures forall i :: 0 <= i < |s| ==> r[i] == LowerChar(s[i])
  {
    if s == [] then [] else [LowerChar(s[0])] + Lower(s[1..])
  }

  /** Folding a folded string changes nothing. */
  lemma LowerIdempotent(s: string)
    ensures Lower(Lower(s)) == Lower(s)
  {
  }

  predicate IsDigit(c: char) {
    '0' <= c <= '9'
  }

  /** Python's `str.isdigit` on ASCII: non-empty and made of digits only. */
  predicate IsDigitString(s: string) {
    |s| > 0 && forall i :: 0 <= i < |s| ==> IsDigit(s[i])
  }

  function DigitValue(c: char): nat
    requires IsDigit(c)
  {
    c as int - '0' as int
  }

  function DigitChar(d: nat): (c: char)
    requires d < 10
    ensures IsDigit(c) && DigitValue(c) == d
  {
    ('0' as int + d) as char
  }

  /** The decimal value of a string of digits, read most significant digit first (Python's `int`). */
  function DecimalValue(s: string): nat
    requires forall i :: 0 <= i < |s| ==> IsDigit(s[i])
  {
    if s == [] then 0 else 10 * DecimalValue(s[..|s| - 1]) + DigitValue(s[|s| - 1])
  }

  /** The canonical decimal rendering of a natural number (Python's `str` on an `int`). */
  function DecimalString(n: nat): (r: string)
    ensures IsDigitString(r)
    ensures |r| == 1 || r[0] != '0'
  {
    if n < 10 then [DigitChar(n)] else DecimalString(n / 10) + [DigitChar(n % 10)]
  }

  /** Reading back a rendered number gives the number. */
  lemma {:induction false} DecimalRoundTrip(n: nat)
    ensures DecimalValue(DecimalString(n)) == n
  {
    var s := DecimalString(n);
    if n < 10 {
      assert s[..|s| - 1] == [];
    } else {
      assert s[..|s| - 1] == DecimalString(n / 10);
      DecimalRoundTrip(n / 10);
    }
  }

  /** Leading zeros do not change the value, so "007" and "7" name the same id. */
  lemma {:induction false} LeadingZeroIgnored(s: string)
    requires forall i :: 0 <= i < |s| ==> IsDigit(s[i])
    ensures DecimalValue("0" + s) == DecimalValue(s)
  {
    if s == [] {
      assert ("0" + s)[..0] == [];
    } else {
      var t := s[..|s| - 1];
      assert ("0" + s)[..|"0" + s| - 1] == "0" + t;
      LeadingZeroIgnored(t);
    }
  }

  /** The characters Python's `str.isspace` accepts, which `str.strip` removes. */
  predicate IsSpace(c: char) {
    || c == ' ' || '\t' <= c <= '\r' || '\U{1c}' <= c <= '\U{1f}'
    || c == '\U{85}' || c == '\U{a0}' || c == '\U{1680}' || '\U{2000}' <= c <= '\U{200a}'
    || c == '\U{2028}' || c == '\U{2029}' || c == '\U{202f}' || c == '\U{205f}' || c == '\U{3000}'
  }

  /** Whether a string has no whitespace at either end. */
  predicate Trimmed(s: string) {
    s == [] || (!IsSpace(s[0]) && !IsSpace(s[|s| - 1]))
  }

  /** The string without its leading whitespace. */
  function TrimStart(s: string): (r: string)
    ensures |r| <= |s|
    ensures |r| == |s| ==> r == s
    ensures r == [] || !IsSpace(r[0])
  {
    if s != [] && IsSpace(s[0]) then TrimStart(s[1..]) else s
  }

  /** The string without its trailing whitespace. */
  function TrimEnd(s: string): (r: string)
    ensures r <= s
    ensures r == [] || !IsSpace(r[|r| - 1])
  {
    if s != [] && IsSpace(s[|s| - 1]) then TrimEnd(s[..|s| - 1]) else s
  }

  /**
   * Python's `str.strip()`: the leading and then the trailing whitespace
   * removed; what is left has none at either end.
   */
  function Trim(s: string): (r: string)
    ensures Trimmed(r)
    ensures |r| <= |s|
    ensures |r| == |s| ==> r == s
  {
    TrimEnd(TrimStart(s))
  }

  /** Stripping leaves a string alone exactly when it has no whitespace at either end. */
  lemma {:induction false} TrimKeepsTrimmed(s: string)
    ensures Trim(s) == s <==> Trimmed(s)
  {
    if Trimmed(s) && s != [] {
      assert TrimStart(s) == s;
      assert TrimEnd(s) == s;
    }
  }

  /** Stripping twice is stripping once. */
  lemma TrimIdempotent(s: string)
    ensures Trim(Trim(s)) == Trim(s)
  {
    TrimKeepsTrimmed(Trim(s));
  }

  /** Whether every character of a string is whitespace. */
  predicate AllSpace(u: string) {
    forall k :: 0 <= k < |u| ==> IsSpace(u[k])
  }

  /** Leading-whitespace removal cuts a prefix of whitespace only. */
  lemma {:induction false} TrimStartCut(s: string)
    ensures exists i :: 0 <= i <= |s| && TrimStart(s) == s[i..] && AllSpace(s[..i])
  {
    if s != [] && IsSpace(s[0]) {
      TrimStartCut(s[1..]);
      var i :| 0 <= i <= |s[1..]| && TrimStart(s[1..]) == s[1..][i..] && AllSpace(s[1..][..i]);
      SuffixSlices(s, 1, i);
      SpacePrefixGrows(s, i);
    } else {
      assert s[0..] == s && s[..0] == [];
    }
  }

  /** Trailing-whitespace removal cuts a suffix of whitespace only. */
  lemma {:induction false} TrimEndCut(s: string)
    ensures exists j :: 0 <= j <= |s| && TrimEnd(s) == s[..j] && AllSpace(s[j..])
  {
    if s != [] && IsSpace(s[|s| - 1]) {
      var t := s[..|s| - 1];
      TrimEndCut(t);
      var j :| 0 <= j <= |t| && TrimEnd(t) == t[..j] && AllSpace(t[j..]);
      SpaceSuffixGrows(s, j);
    } else {
      assert s[..|s|] == s && s[|s|..] == [];
    }
  }

  /**
   * Stripping removes whitespace at the two ends and nothing else: the
   * result is a slice of the string, and what is cut off before and after
   * it is whitespace. With `Trimmed`, the cut is the largest one.
   */
  lemma TrimCut(s: string)
    ensures exists i, j :: 0 <= i <= j <= |s| && Trim(s) == s[i..j] && AllSpace(s[..i]) && AllSpace(s[j..])
  {
    TrimStartCut(s);
    var i :| 0 <= i <= |s| && TrimStart(s) == s[i..] && AllSpace(s[..i]);
    var t := s[i..];
    TrimEndCut(t);
    var j :| 0 <= j <= |t| && TrimEnd(t) == t[..j] && AllSpace(t[j..]);
    SuffixSlices(s, i, j);
  }

  /** A whitespace prefix of the tail, after a whitespace head, is a whitespace prefix of the string. */
  lemma SpacePrefixGrows(s: string, i: nat)
    requires s != [] && IsSpace(s[0]) && i <= |s| - 1 && AllSpace(s[1..][..i])
    ensures AllSpace(s[..i + 1])
  {
    var p := s[..i + 1];
    forall k | 0 <= k < |p| ensures IsSpace(p[k]) {
      if k > 0 {
        assert p[k] == s[1..][..i][k - 1];
      }
    }
  }

  /** A whitespace suffix of all but a whitespace last character, with that character, is a whitespace suffix of the string. */
  lemma SpaceSuffixGrows(s: string, j: nat)
    requires s != [] && IsSpace(s[|s| - 1]) && j <= |s| - 1 && AllSpace(s[..|s| - 1][j..])
    ensures s[..|s| - 1][..j] == s[..j]
    ensures AllSpace(s[j..])
  {
    forall k | 0 <= k < |s| - j ensures IsSpace(s[j..][k]) {
      if j + k < |s| - 1 {
        assert s[j..][k] == s[..|s| - 1][j..][k];
      }
    }
  }

  /** Slicing a suffix is slicing the string at shifted positions. */
  lemma SuffixSlices(s: string, i: nat, j: nat)
    requires i <= |s| && j <= |s| - i
    ensures s[i..][..j] == s[i..i + j] && s[i..][j..] == s[i + j..]
  {
  }

  /** Case folding neither creates nor removes whitespace. */
  lemma LowerKeepsSpace(c: char)
    ensures IsSpace(LowerChar(c)) <==> IsSpace(c)
  {
  }
}
