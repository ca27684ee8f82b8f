/**
 * The Python `str` operations the bill-sync scripts rely on, over `seq<char>`:
 * `isspace`, `strip`, `split()`, `endswith`, `replace(" ", "")`, `isdigit`,
 * `int(...)`, `str(n)` and the `<` ordering of strings.
 */
module Text {
  import opened Wrappers

  /** `c.isspace()`: the characters Python treats as whitespace. */
  predicate IsSpace(c: char)
  {
    || c == ' '
    || '\t' <= c <= '\r'
    || '\U{1C}' <= c <= '\U{1F}'
    || c == '\U{85}' || c == '\U{A0}' || c == '\U{1680}'
    || '\U{2000}' <= c <= '\U{200A}'
    || c == '\U{2028}' || c == '\U{2029}' || c == '\U{202F}' || c == '\U{205F}' || c == '\U{3000}'
  }

  /** No character of `s` is whitespace. */
  predicate NoSpace(s: string)
  {
    forall k :: 0 <= k < |s| ==> !IsSpace(s[k])
  }

  /** `s.endswith(suffix)`; every string ends with "". */
  predicate EndsWith(s: string, suffix: string)
  {
    |suffix| <= |s| && s[|s| - |suffix|..] == suffix
  }

  /** `s.lstrip()` */
  function LStrip(s: string): (r: string)
    ensures |r| <= |s| && r == s[|s| - |r|..]
    ensures forall k :: 0 <= k < |s| - |r| ==> IsSpace(s[k])
    ensures r != [] ==> !IsSpace(r[0])
  {
    if s != [] && IsSpace(s[0]) then LStrip(s[1..]) else s
  }

  /** `s.rstrip()` */
  function RStrip(s: string): (r: string)
    ensures |r| <= |s| && r == s[..|r|]
    ensures forall k :: |r| <= k < |s| ==> IsSpace(s[k])
    ensures r != [] ==> !IsSpace(r[|r| - 1])
  {
    if s != [] && IsSpace(s[|s| - 1]) then RStrip(s[..|s| - 1]) else s
  }

  /**
   * `r` is `s` without its leading and trailing whitespace: `r` sits in `s` at some
   * offset, everything before and after it is whitespace, and `r` neither starts nor
   * ends with whitespace.
   */
  ghost predicate IsStripOf(r: string, s: string)
  {
    && (r != [] ==> !IsSpace(r[0]) && !IsSpace(r[|r| - 1]))
    && exists i :: StrippedAt(r, s, i)
  }

  /** `r` is the infix of `s` at offset `i`, with only whitespace around it. */
  ghost predicate StrippedAt(r: string, s: string, i: int)
  {
    && 0 <= i && i + |r| <= |s| && s[i..i + |r|] == r
    && (forall k :: 0 <= k < i ==> IsSpace(s[k]))
    && (forall k :: i + |r| <= k < |s| ==> IsSpace(s[k]))
  }

  /** `s.strip()`: the longest infix of `s` that neither starts nor ends with whitespace. */
  function Strip(s: string): (r: string)
    ensures |r| <= |s|
    ensures r != [] ==> !IsSpace(r[0]) && !IsSpace(r[|r| - 1])
    ensures NoSpace(s) ==> r == s
  {
    var l := LStrip(s);
    var r := RStrip(l);
    assert r != [] ==> r[0] == l[0];
    r
  }

  /** `strip` removes whitespace around the text and nothing else. */
  lemma StripIsStripOf(s: string)
    ensures IsStripOf(Strip(s), s)
  {
    var l := LStrip(s);
    var r := RStrip(l);
    assert StrippedAt(r, s, |s| - |l|) by {
      assert s[|s| - |l|..][..|r|] == r;
      assert forall k :: |s| - |l| + |r| <= k < |s| ==> s[k] == l[k - (|s| - |l|)];
    }
  }

  /** Any infix with only whitespace around it and none at its ends is what `strip` returns. */
  lemma StripUnique(r: string, s: string)
    requires IsStripOf(r, s)
    ensures r == Strip(s)
  {
    var i :| StrippedAt(r, s, i);
    StripOfStrippedAt(r, s, i);
  }

  /** `StripUnique` at a given offset, by peeling the leading whitespace off one character at a time. */
  lemma {:induction false} StripOfStrippedAt(r: string, s: string, i: int)
    requires StrippedAt(r, s, i)
    requires r != [] ==> !IsSpace(r[0]) && !IsSpace(r[|r| - 1])
    ensures Strip(s) == r
    decreases i
  {
    if i > 0 {
      var t := s[1..];
      assert IsSpace(s[0]);
      assert t[i - 1..i - 1 + |r|] == s[i..i + |r|];
      assert StrippedAt(r, t, i - 1);
      StripOfStrippedAt(r, t, i - 1);
      assert LStrip(s) == LStrip(t);
    } else if r == [] {
      assert forall k :: 0 <= k < |s| ==> IsSpace(s[k]);
      assert LStrip(s) == [];
    } else {
      assert s[0] == r[0];
      assert LStrip(s) == s;
      RStripSpaces(r, s);
    }
  }

  /** Trailing whitespace after a text that does not end with whitespace is all `rstrip` removes. */
  lemma {:induction false} RStripSpaces(r: string, s: string)
    requires |r| <= |s| && s[..|r|] == r
    requires forall k :: |r| <= k < |s| ==> IsSpace(s[k])
    requires r != [] ==> !IsSpace(r[|r| - 1])
    ensures RStrip(s) == r
    decreases |s|
  {
    if |s| > |r| {
      var t := s[..|s| - 1];
      assert IsSpace(s[|s| - 1]);
      assert t[..|r|] == r;
      RStripSpaces(r, t);
    } else {
      assert s == r;
    }
  }

  /** `s.replace(" ", "")`: drops every U+0020 space, keeps everything else in order. */
  function RemoveSpaces(s: string): (r: string)
    ensures |r| <= |s|
    ensures forall k :: 0 <= k < |r| ==> r[k] != ' '
    ensures (forall k :: 0 <= k < |s| ==> s[k] != ' ') ==> r == s
  {
    if s == [] then [] else (if s[0] == ' ' then [] else [s[0]]) + RemoveSpaces(s[1..])
  }

  /**
   * Taking the spaces out of a concatenation takes them out of each part, so the
   * characters that are kept stay in their order; a space disappears and any other
   * character is kept.
   */
  lemma {:induction false} RemoveSpacesAppend(a: string, b: string)
    ensures RemoveSpaces(a + b) == RemoveSpaces(a) + RemoveSpaces(b)
    ensures RemoveSpaces([' ']) == []
    ensures forall c :: c != ' ' ==> RemoveSpaces([c]) == [c]
  {
    if a != [] {
      assert (a + b)[1..] == a[1..] + b;
      RemoveSpacesAppend(a[1..], b);
    } else {
      assert a + b == b;
    }
  }

  predicate IsDigit(c: char)
  {
    '0' <= c <= '9'
  }

  /** `s.isdigit()` for ASCII digits: the empty string is not all digits. */
  predicate IsDigits(s: string)
  {
    |s| > 0 && forall k :: 0 <= k < |s| ==> IsDigit(s[k])
  }

  function DigitValue(c: char): (d: nat)
    requires IsDigit(c)
    ensures d < 10
  {
    (c as int) - ('0' as int)
  }

  function DigitChar(d: nat): (c: char)
    requires d < 10
    ensures IsDigit(c) && DigitValue(c) == d
  {
    (('0' as int) + d) as char
  }

  /** The decimal value of a string of digits, with underscores (digit separators) ignored. */
  function DigitsValue(s: string): nat
    requires forall k :: 0 <= k < |s| ==> IsDigit(s[k]) || s[k] == '_'
  {
    if s == [] then 0
    else if s[|s| - 1] == '_' then DigitsValue(s[..|s| - 1])
    else DigitsValue(s[..|s| - 1]) * 10 + DigitValue(s[|s| - 1])
  }

  /** `str(n)` for a natural number: its decimal digits, no leading zero. */
  function NatToString(n: nat): (r: string)
    ensures IsDigits(r)
    ensures |r| > 1 ==> r[0] != '0'
  {
    if n < 10 then [DigitChar(n)] else NatToString(n / 10) + [DigitChar(n % 10)]
  }

  /** The digit groups Python's `int()` accepts: digits, single underscores only between digits. */
  predicate IsDigitGroups(s: string)
  {
    && |s| > 0
    && IsDigit(s[0])
    && IsDigit(s[|s| - 1])
    && (forall k :: 0 <= k < |s| ==> IsDigit(s[k]) || s[k] == '_')
    && (forall k :: 0 <= k < |s| - 1 ==> s[k] == '_' ==> IsDigit(s[k + 1]))
  }

  /**
   * `int(s)` for a token with no surrounding whitespace (as `split()` produces):
   * an optional sign followed by digit groups; anything else raises, here `None`.
   */
  function ParseInt(s: string): (r: Option<int>)
    ensures IsDigits(s) ==> r == Some(DigitsValue(s))
    ensures r.Some? ==> s != [] && (IsDigit(s[0]) || s[0] == '+' || s[0] == '-')
  {
    if |s| > 0 && (s[0] == '+' || s[0] == '-') then
      var body := s[1..];
      var v: int := if IsDigitGroups(body) then DigitsValue(body) else 0;
      if IsDigitGroups(body) then Some(if s[0] == '-' then -v else v)
      else None
    else if IsDigitGroups(s) then Some(DigitsValue(s))
    else None
  }

  /** Reading back the digits `str(n)` writes gives `n` again. */
  lemma {:induction false} NatToStringRoundTrip(n: nat)
    ensures DigitsValue(NatToString(n)) == n
    ensures ParseInt(NatToString(n)) == Some(n)
  {
    var s := NatToString(n);
    if n >= 10 {
      NatToStringRoundTrip(n / 10);
      assert s[..|s| - 1] == NatToString(n / 10);
    }
  }

  /** Length of the run of non-whitespace characters that `s` starts with. */
  function WordLength(s: string): (n: nat)
    ensures n <= |s|
    ensures forall k :: 0 <= k < n ==> !IsSpace(s[k])
    ensures n < |s| ==> IsSpace(s[n])
  {
    if s == [] || IsSpace(s[0]) then 0 else 1 + WordLength(s[1..])
  }

  /** `s.split()`: the maximal runs of non-whitespace characters, in order. */
  function Words(s: string): (r: seq<string>)
    ensures forall w :: w in r ==> w != [] && NoSpace(w)
    decreases |s|
  {
    if s == [] then []
    else if IsSpace(s[0]) then Words(s[1..])
    else
      var n := WordLength(s);
      [s[..n]] + Words(s[n..])
  }

  /** Splitting `a + " " + b` gives back `a` and `b` when neither is empty nor holds whitespace. */
  lemma WordsOfPair(a: string, b: string)
    requires a != [] && NoSpace(a)
    requires b != [] && NoSpace(b)
    ensures Words(a + " " + b) == [a, b]
  {
    var s := a + " " + b;
    assert s[|a|] == ' ';
    assert forall k :: 0 <= k < |a| ==> s[k] == a[k];
    assert WordLength(s) == |a|;
    assert s[..|a|] == a;
    assert s[|a|..][1..] == b;
    assert WordLength(b) == |b|;
    assert b[..|b|] == b && b[|b|..] == [];
    assert Words(b) == [b];
  }

  /** Python's `a < b` on strings: lexicographic by code point; a proper prefix is smaller. */
  predicate Less(a: string, b: string)
    decreases |a|
  {
    if a == [] then b != []
    else b != [] && (if a[0] == b[0] then Less(a[1..], b[1..]) else a[0] < b[0])
  }

  lemma {:induction false} LessIrreflexive(a: string)
    ensures !Less(a, a)
    decreases |a|
  {
    if a != [] { LessIrreflexive(a[1..]); }
  }

  lemma {:induction false} LessTransitive(a: string, b: string, c: string)
    requires Less(a, b) && Less(b, c)
    ensures Less(a, c)
    decreases |a|
  {
    if a != [] && b != [] && c != [] && a[0] == b[0] && b[0] == c[0] {
      LessTransitive(a[1..], b[1..], c[1..]);
    }
  }

  /** Python's string order is total: any two different strings are ordered one way. */
  lemma {:induction false} LessTotal(a: string, b: string)
    ensures a == b || Less(a, b) || Less(b, a)
    decreases |a|
  {
    if a != [] && b != [] && a[0] == b[0] {
      LessTotal(a[1..], b[1..]);
      if a[1..] == b[1..] {
        assert a == [a[0]] + a[1..] && b == [b[0]] + b[1..];
      }
    }
  }
}
