/**
 * The few pieces of Python's string handling the watch-list loader relies on:
 * `str.strip()` with no argument, `str.split(sep)` with a one-character separator,
 * and `int(s)` in base 10.
 */
module Text {
  import opened Wrappers

  /** `c.isspace()`: the characters Python's `str.strip()` removes by default. */
  predicate IsSpace(c: char) {
    || '\t' <= c <= '\r'
    || '\U{1C}' <= c <= ' '
    || c == '\U{85}' || c == '\U{A0}' || c == '\U{1680}'
    || '\U{2000}' <= c <= '\U{200A}'
    || c == '\U{2028}' || c == '\U{2029}' || c == '\U{202F}' || c == '\U{205F}' || c == '\U{3000}'
  }

  /** Removes the longest whitespace prefix. */
  function StripLeft(s: string): (r: string)
    ensures |r| <= |s| && r == s[|s| - |r|..]
    ensures forall i :: 0 <= i < |s| - |r| ==> IsSpace(s[i])
    ensures r == [] || !IsSpace(r[0])
  {
    if s != [] && IsSpace(s[0]) then StripLeft(s[1..]) else s
  }

  /** Removes the longest whitespace suffix. */
  function StripRight(s: string): (r: string)
    ensures |r| <= |s| && r == s[..|r|]
    ensures forall i :: |r| <= i < |s| ==> IsSpace(s[i])
    ensures r == [] || !IsSpace(r[|r| - 1])
  {
    if s != [] && IsSpace(s[|s| - 1]) then StripRight(s[..|s| - 1]) else s
  }

  /**
   * `s.strip()`: the slice of `s` left once the whitespace at both ends is cut;
   * empty exactly when `s` is all whitespace.
   */
  function Strip(s: string): (r: string)
    ensures r == [] <==> forall i :: 0 <= i < |s| ==> IsSpace(s[i])
    ensures r != [] ==> !IsSpace(r[0]) && !IsSpace(r[|r| - 1])
    ensures exists k :: CutAt(s, r, k, IsSpace)
  {
    TrimCut(s, StripLeft(s), StripRight(StripLeft(s)), IsSpace);
    StripRight(StripLeft(s))
  }

  /**
   * The facts a two-sided trim promises, from those its left and right halves
   * promise, for any set `ws` of characters to cut.
   */
  lemma TrimCut(s: string, left: string, r: string, ws: char -> bool)
    requires |left| <= |s| && left == s[|s| - |left|..]
    requires forall i :: 0 <= i < |s| - |left| ==> ws(s[i])
    requires left == [] || !ws(left[0])
    requires |r| <= |left| && r == left[..|r|]
    requires forall i :: |r| <= i < |left| ==> ws(left[i])
    requires r == [] || !ws(r[|r| - 1])
    ensures r == [] <==> forall i :: 0 <= i < |s| ==> ws(s[i])
    ensures r != [] ==> !ws(r[0]) && !ws(r[|r| - 1])
    ensures CutAt(s, r, |s| - |left|, ws)
  {
    var k := |s| - |left|;
    assert r == s[k..k + |r|];
    forall i | k + |r| <= i < |s| ensures ws(s[i]) {
      assert s[i] == left[i - k];
    }
    if r != [] {
      assert r[0] == left[0] == s[k];
    }
  }

  /** `r` is `s` with `k` characters of `ws` cut from its front and only characters of `ws` cut from its back. */
  predicate CutAt(s: string, r: string, k: int, ws: char -> bool) {
    && 0 <= k <= |s| - |r| && r == s[k..k + |r|]
    && (forall i :: 0 <= i < k ==> ws(s[i]))
    && (forall i :: k + |r| <= i < |s| ==> ws(s[i]))
  }

  /** A string with no whitespace at either end is its own strip. */
  lemma StripNoEdgeSpace(s: string)
    requires s != [] ==> !IsSpace(s[0]) && !IsSpace(s[|s| - 1])
    ensures Strip(s) == s
  {
  }

  /** Trailing whitespace (a line terminator, say) does not change the strip of a string. */
  lemma {:induction false} StripTrailingSpace(s: string, c: char)
    requires IsSpace(c)
    ensures Strip(s + [c]) == Strip(s)
  {
    if s == [] {
    } else if IsSpace(s[0]) {
      assert (s + [c])[1..] == s[1..] + [c];
      StripTrailingSpace(s[1..], c);
    } else {
      assert (s + [c])[..|s|] == s;
    }
  }

  /** Joins `ps` with `sep` between consecutive pieces: the inverse of `Split`. */
  function Join(ps: seq<string>, sep: char): string
    requires |ps| >= 1
  {
    if |ps| == 1 then ps[0] else ps[0] + [sep] + Join(ps[1..], sep)
  }

  /**
   * `s.split(sep)`: the pieces between occurrences of `sep`, always at least one
   * (`"".split(",") == [""]`, `"a,".split(",") == ["a", ""]`).
   */
  function Split(s: string, sep: char): (r: seq<string>)
    ensures |r| >= 1
    ensures forall i :: 0 <= i < |r| ==> sep !in r[i]
    ensures Join(r, sep) == s
  {
    if s == [] then [[]]
    else
      var rest := Split(s[1..], sep);
      if s[0] == sep then
        assert Join([[]] + rest, sep) == [sep] + Join(rest, sep) by {
          assert ([[]] + rest)[1..] == rest;
        }
        [[]] + rest
      else
        var r := [[s[0]] + rest[0]] + rest[1..];
        assert Join(r, sep) == [s[0]] + Join(rest, sep) by {
          if |rest| > 1 {
            assert r[1..] == rest[1..];
          }
        }
        assert s == [s[0]] + s[1..];
        r
  }

  /** A separator-free prefix followed by the separator becomes the first piece. */
  lemma {:induction false} SplitAtSeparator(w: string, sep: char, t: string)
    requires sep !in w
    ensures Split(w + [sep] + t, sep) == [w] + Split(t, sep)
  {
    if w == [] {
      assert ([sep] + t)[1..] == t;
    } else {
      assert (w + [sep] + t)[1..] == w[1..] + [sep] + t;
      SplitAtSeparator(w[1..], sep, t);
      assert [w[0]] + w[1..] == w;
    }
  }

  /** A separator-free string splits into itself. */
  lemma {:induction false} SplitNoSeparator(w: string, sep: char)
    requires sep !in w
    ensures Split(w, sep) == [w]
  {
    if w != [] {
      SplitNoSeparator(w[1..], sep);
      assert [w[0]] + w[1..] == w;
    }
  }

  /** `Split` undoes `Join` whenever no piece contains the separator. */
  lemma {:induction false} SplitJoin(ps: seq<string>, sep: char)
    requires |ps| >= 1
    requires forall i :: 0 <= i < |ps| ==> sep !in ps[i]
    ensures Split(Join(ps, sep), sep) == ps
  {
    if |ps| == 1 {
      SplitNoSeparator(ps[0], sep);
    } else {
      SplitJoin(ps[1..], sep);
      SplitAtSeparator(ps[0], sep, Join(ps[1..], sep));
      assert [ps[0]] + ps[1..] == ps;
    }
  }

  predicate IsDigit(c: char) {
    '0' <= c <= '9'
  }

  function DigitValue(c: char): nat
    requires IsDigit(c)
  {
    (c as int) - ('0' as int)
  }

  function DigitChar(d: nat): (c: char)
    requires d < 10
    ensures IsDigit(c) && DigitValue(c) == d
  {
    ('0' as int + d) as char
  }

  predicate AllDigits(s: string) {
    forall i :: 0 <= i < |s| ==> IsDigit(s[i])
  }

  /** The number a string of decimal digits denotes, most significant digit first. */
  function DecimalValue(s: string): nat
    requires AllDigits(s)
  {
    if s == [] then 0 else DecimalValue(s[..|s| - 1]) * 10 + DigitValue(s[|s| - 1])
  }

  /** The canonical decimal spelling of `n` (no sign, no leading zero). */
  function Decimal(n: nat): (r: string)
    ensures |r| >= 1 && AllDigits(r)
  {
    if n < 10 then [DigitChar(n)] else Decimal(n / 10) + [DigitChar(n % 10)]
  }

  lemma {:induction false} DecimalRoundTrip(n: nat)
    ensures DecimalValue(Decimal(n)) == n
  {
    if n >= 10 {
      DecimalRoundTrip(n / 10);
      var r := Decimal(n);
      assert r[..|r| - 1] == Decimal(n / 10);
    }
  }

  /**
   * A run of decimal digits in which single underscores may separate digits
   * (`1_000`), as `int()` accepts: no leading, trailing or doubled underscore.
   */
  predicate IsDigitGroup(s: string) {
    && |s| > 0
    && (forall i :: 0 <= i < |s| ==> IsDigit(s[i]) || s[i] == '_')
    && (forall i :: 0 <= i < |s| && s[i] == '_' ==> 0 < i < |s| - 1 && IsDigit(s[i + 1]))
  }

  function RemoveUnderscores(s: string): (r: string)
    ensures (forall i :: 0 <= i < |s| ==> IsDigit(s[i]) || s[i] == '_') ==> AllDigits(r)
    ensures AllDigits(s) ==> r == s
  {
    if s == [] then []
    else if s[0] == '_' then RemoveUnderscores(s[1..])
    else [s[0]] + RemoveUnderscores(s[1..])
  }

  /**
   * The whitespace `int()` skips around a number: the ASCII ` \t\n\v\f\r` and every
   * non-ASCII `str.isspace()` character. The separators U+001C..U+001F, which
   * `str.strip()` cuts, are not skipped.
   */
  predicate IsIntSpace(c: char) {
    IsSpace(c) && !('\U{1C}' <= c <= '\U{1F}')
  }

  /** Removes the longest prefix of `int()` whitespace. */
  function IntTrimLeft(s: string): (r: string)
    ensures |r| <= |s| && r == s[|s| - |r|..]
    ensures forall i :: 0 <= i < |s| - |r| ==> IsIntSpace(s[i])
    ensures r == [] || !IsIntSpace(r[0])
  {
    if s != [] && IsIntSpace(s[0]) then IntTrimLeft(s[1..]) else s
  }

  /** Removes the longest suffix of `int()` whitespace. */
  function IntTrimRight(s: string): (r: string)
    ensures |r| <= |s| && r == s[..|r|]
    ensures forall i :: |r| <= i < |s| ==> IsIntSpace(s[i])
    ensures r == [] || !IsIntSpace(r[|r| - 1])
  {
    if s != [] && IsIntSpace(s[|s| - 1]) then IntTrimRight(s[..|s| - 1]) else s
  }

  /**
   * The text `int(s)` reads: `s` with the `int()` whitespace at both ends skipped;
   * empty exactly when `s` is all such whitespace.
   */
  function IntTrim(s: string): (r: string)
    ensures r == [] <==> forall i :: 0 <= i < |s| ==> IsIntSpace(s[i])
    ensures r != [] ==> !IsIntSpace(r[0]) && !IsIntSpace(r[|r| - 1])
    ensures exists k :: CutAt(s, r, k, IsIntSpace)
  {
    TrimCut(s, IntTrimLeft(s), IntTrimRight(IntTrimLeft(s)), IsIntSpace);
    IntTrimRight(IntTrimLeft(s))
  }

  /** A string with no `int()` whitespace at either end is its own trim. */
  lemma IntTrimNoEdgeSpace(s: string)
    requires s != [] ==> !IsIntSpace(s[0]) && !IsIntSpace(s[|s| - 1])
    ensures IntTrim(s) == s
  {
  }

  /**
   * `int(s)` in base 10; `None` stands for the `ValueError` Python raises. Once the
   * surrounding whitespace is skipped, a result comes only from text made of digits
   * and underscores after at most one leading sign, ending in a digit; a negative
   * one only from text starting with `-`. Blank text is rejected, and a plain run
   * of digits reads as its decimal value.
   */
  function ParseInt(s: string): (r: Option<int>)
    ensures IntTrim(s) == [] ==> r.None?
    ensures r.Some? ==> var t := IntTrim(s);
                        && t != [] && IsDigit(t[|t| - 1])
                        && forall k :: 0 <= k < |t| ==>
                             IsDigit(t[k]) || t[k] == '_' || (k == 0 && (t[0] == '+' || t[0] == '-'))
    ensures r.Some? && r.value < 0 ==> IntTrim(s)[0] == '-'
    ensures IntTrim(s) != [] && AllDigits(IntTrim(s)) ==> r == Some(DecimalValue(IntTrim(s)))
  {
    var t := IntTrim(s);
    var signed := |t| > 0 && (t[0] == '+' || t[0] == '-');
    var digits := if signed then t[1..] else t;
    if !IsDigitGroup(digits) then None
    else
      assert forall k :: 0 < k < |t| && signed ==> t[k] == digits[k - 1];
      var magnitude: int := DecimalValue(RemoveUnderscores(digits));
      Some(if signed && t[0] == '-' then -magnitude else magnitude)
  }

  /** `str(i)`: the decimal spelling of an integer, with a minus sign when it is negative. */
  function Show(i: int): (r: string)
    ensures r != [] && !IsSpace(r[0]) && IsDigit(r[|r| - 1])
    ensures forall k :: 0 <= k < |r| ==> IsDigit(r[k]) || r[k] == '-'
  {
    if i < 0 then ['-'] + Decimal(-i) else Decimal(i)
  }

  /** A plain run of digits is a digit group that `int()` reads as its decimal value. */
  lemma PlainDigitsGroup(d: string)
    requires |d| > 0 && AllDigits(d)
    ensures IsDigitGroup(d) && RemoveUnderscores(d) == d
  {
  }

  /** `int(str(i)) == i` */
  lemma ParseShow(i: int)
    ensures ParseInt(Show(i)) == Some(i)
  {
    var r := Show(i);
    IntTrimNoEdgeSpace(r);
    var n: nat := if i < 0 then -i else i;
    var d := Decimal(n);
    DecimalRoundTrip(n);
    PlainDigitsGroup(d);
    if i < 0 {
      assert r == ['-'] + d && r[1..] == d;
    } else {
      assert r == d && IsDigit(r[0]);
    }
  }
}
