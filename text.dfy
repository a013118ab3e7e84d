/**
 * The string operations of the JavaScript runtime that the core relies on:
 * `String.prototype.trim`, `startsWith`, `Array.prototype.join` and the
 * decimal rendering of a non-negative integer inside a template literal.
 */
module Text {

  /**
   * The characters `trim()` removes: the ECMAScript WhiteSpace set (tab,
   * vertical tab, form feed, space, no-break space, the byte order mark and
   * the other space separators) and the LineTerminator set.
   */
  predicate IsWhitespace(c: char) {
    || c == '\t' || c == '\U{000B}' || c == '\U{000C}' || c == ' '
    || c == '\U{00A0}' || c == '\U{FEFF}' || c == '\U{1680}'
    || ('\U{2000}' <= c <= '\U{200A}')
    || c == '\U{202F}' || c == '\U{205F}' || c == '\U{3000}'
    || c == '\n' || c == '\r' || c == '\U{2028}' || c == '\U{2029}'
  }

  /** Every character is whitespace (the empty string included). */
  predicate IsBlank(s: string) {
    forall i :: 0 <= i < |s| ==> IsWhitespace(s[i])
  }

  /** `s` begins and ends with a character that `trim()` keeps (or is empty). */
  predicate HasTrimmedEnds(s: string) {
    s == [] || (!IsWhitespace(s[0]) && !IsWhitespace(s[|s| - 1]))
  }

  /** Drops the leading whitespace: what is left is a suffix of `s`. */
  function TrimStart(s: string): (r: string)
    ensures |r| <= |s| && r == s[|s| - |r|..]
    ensures IsBlank(s[..|s| - |r|])
    ensures r == [] || !IsWhitespace(r[0])
  {
    if |s| > 0 && IsWhitespace(s[0]) then
      var r := TrimStart(s[1..]);
      assert s[..|s| - |r|] == [s[0]] + s[1..][..|s| - 1 - |r|];
      r
    else s
  }

  /** Drops the trailing whitespace: what is left is a prefix of `s`. */
  function TrimEnd(s: string): (r: string)
    ensures |r| <= |s| && r == s[..|r|]
    ensures IsBlank(s[|r|..])
    ensures r == [] || !IsWhitespace(r[|r| - 1])
  {
    if |s| > 0 && IsWhitespace(s[|s| - 1]) then
      var r := TrimEnd(s[..|s| - 1]);
      assert s[|r|..] == s[..|s| - 1][|r|..] + [s[|s| - 1]];
      r
    else s
  }

  /** `s.trim()`: whitespace removed from both ends. */
  function Trim(s: string): (r: string)
    ensures HasTrimmedEnds(r)
    ensures r == [] <==> IsBlank(s)
    ensures |r| <= |s|
  {
    var t := TrimStart(s);
    var r := TrimEnd(t);
    assert r == [] ==> t == [] && s[..|s|] == s;
    r
  }

  /** A string whose ends are not whitespace is left alone by `trim()`. */
  lemma TrimFixedPoint(s: string)
    ensures Trim(s) == s <==> HasTrimmedEnds(s)
  {
    if HasTrimmedEnds(s) {
      assert TrimStart(s) == s;
      assert TrimEnd(s) == s;
    }
  }

  /** `trim()` is idempotent. */
  lemma TrimIdempotent(s: string)
    ensures Trim(Trim(s)) == Trim(s)
  {
    TrimFixedPoint(Trim(s));
  }

  lemma {:induction false} TrimStartSkipsBlank(w: string, t: string)
    requires IsBlank(w)
    requires t == [] || !IsWhitespace(t[0])
    ensures TrimStart(w + t) == t
  {
    if w != [] {
      assert (w + t)[1..] == w[1..] + t;
      TrimStartSkipsBlank(w[1..], t);
    }
  }

  lemma {:induction false} TrimEndSkipsBlank(t: string, w: string)
    requires IsBlank(w)
    requires t == [] || !IsWhitespace(t[|t| - 1])
    ensures TrimEnd(t + w) == t
  {
    if w != [] {
      var w' := w[..|w| - 1];
      assert (t + w)[..|t + w| - 1] == t + w';
      TrimEndSkipsBlank(t, w');
    }
  }

  /**
   * Whitespace around a text whose own ends are not whitespace is exactly
   * what `trim()` takes away.
   */
  lemma TrimSurrounded(before: string, k: string, after: string)
    requires IsBlank(before) && IsBlank(after)
    requires k != [] && HasTrimmedEnds(k)
    ensures Trim(before + k + after) == k
  {
    assert before + k + after == before + (k + after);
    TrimStartSkipsBlank(before, k + after);
    TrimEndSkipsBlank(k, after);
  }

  /** `s.startsWith(prefix)`, case-sensitive. */
  predicate StartsWith(s: string, prefix: string)
    ensures StartsWith(s, prefix) <==> exists rest :: s == prefix + rest
  {
    assert |prefix| <= |s| ==> s == s[..|prefix|] + s[|prefix|..];
    |prefix| <= |s| && s[..|prefix|] == prefix
  }

  /** `parts.join(sep)`. */
  function Join(parts: seq<string>, sep: string): (joined: string)
    ensures |parts| == 0 ==> joined == ""
    ensures |parts| == 1 ==> joined == parts[0]
    ensures |parts| > 1 ==> StartsWith(joined, parts[0] + sep)
  {
    if |parts| == 0 then ""
    else if |parts| == 1 then parts[0]
    else parts[0] + sep + Join(parts[1..], sep)
  }

  /**
   * Joining grows at the end: one more part adds the separator and that part.
   * With the empty and one-part cases this fixes `Join` for every list.
   */
  lemma {:induction false} JoinAppend(parts: seq<string>, p: string, sep: string)
    ensures Join(parts + [p], sep) == if parts == [] then p else Join(parts, sep) + sep + p
  {
    if |parts| >= 2 {
      assert (parts + [p])[1..] == parts[1..] + [p];
      JoinAppend(parts[1..], p, sep);
    } else if |parts| == 1 {
      assert (parts + [p])[1..] == [p];
    }
  }

  /** A four-part list joins as its parts with the separator between neighbours. */
  lemma JoinFour(parts: seq<string>, sep: string)
    requires |parts| == 4
    ensures Join(parts, sep) == parts[0] + sep + parts[1] + sep + parts[2] + sep + parts[3]
  {
    assert parts == [parts[0], parts[1], parts[2]] + [parts[3]];
    JoinAppend([parts[0], parts[1], parts[2]], parts[3], sep);
    assert [parts[0], parts[1], parts[2]] == [parts[0], parts[1]] + [parts[2]];
    JoinAppend([parts[0], parts[1]], parts[2], sep);
    assert [parts[0], parts[1]] == [parts[0]] + [parts[1]];
    JoinAppend([parts[0]], parts[1], sep);
  }

  /** The number a string of decimal digits denotes, most significant digit first. */
  function DecimalValue(digits: string): (v: int)
    ensures digits == [] ==> v == 0
  {
    if digits == [] then 0
    else 10 * DecimalValue(digits[..|digits| - 1]) + (digits[|digits| - 1] as int - '0' as int)
  }

  /**
   * The decimal digits of `n`, as a template literal renders a non-negative
   * integer below 10^21: digits only, no leading zero, denoting `n`.
   */
  function NatToString(n: nat): (digits: string)
    ensures 1 <= |digits|
    ensures forall i :: 0 <= i < |digits| ==> '0' <= digits[i] <= '9'
    ensures digits[0] == '0' ==> n == 0 && digits == "0"
    ensures DecimalValue(digits) == n
  {
    var digit := ('0' as int + n % 10) as char;
    if n < 10 then [digit]
    else
      var init := NatToString(n / 10);
      assert (init + [digit])[..|init|] == init;
      init + [digit]
  }
}
