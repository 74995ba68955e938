/**
 * The Python text primitives the bot relies on, with Python's own rules:
 * str.isspace, str.strip(), str.split() without arguments, str.replace of
 * one character, str.split(sep, n)[n], str.replace(pattern, ""),
 * str.lower() as far as ASCII letters go, int(str) and str(int).
 */
module PyText {
  import opened Wrappers

  /** Python's str.isspace for a single character. */
  predicate IsSpace(c: char) {
    ('\t' <= c <= '\r') || ('\U{1C}' <= c <= '\U{1F}') || c == ' ' || c == '\U{85}' || c == '\U{A0}'
    || c == '\U{1680}' || ('\U{2000}' <= c <= '\U{200A}') || c == '\U{2028}' || c == '\U{2029}'
    || c == '\U{202F}' || c == '\U{205F}' || c == '\U{3000}'
  }

  predicate AllSpace(s: string) {
    forall i :: 0 <= i < |s| ==> IsSpace(s[i])
  }

  /** Neither end of `s` is whitespace (the empty string qualifies). */
  predicate Trimmed(s: string) {
    s == [] || (!IsSpace(s[0]) && !IsSpace(s[|s| - 1]))
  }

  /** str.lstrip(): drop the leading whitespace. */
  function StripLeft(s: string): (r: string)
    ensures |r| <= |s| && r == s[|s| - |r|..]
    ensures AllSpace(s[..|s| - |r|])
    ensures r == [] || !IsSpace(r[0])
    decreases |s|
  {
    if s != [] && IsSpace(s[0]) then
      var r := StripLeft(s[1..]);
      assert s[|s| - |r|..] == s[1..][|s| - 1 - |r|..];
      assert s[..|s| - |r|] == [s[0]] + s[1..][..|s| - 1 - |r|];
      r
    else s
  }

  /** str.rstrip(): drop the trailing whitespace. */
  function StripRight(s: string): (r: string)
    ensures |r| <= |s| && r == s[..|r|]
    ensures AllSpace(s[|r|..])
    ensures r == [] || !IsSpace(r[|r| - 1])
    decreases |s|
  {
    if s != [] && IsSpace(s[|s| - 1]) then
      var init := s[..|s| - 1];
      var r := StripRight(init);
      assert init[..|r|] == s[..|r|];
      assert s[|r|..] == init[|r|..] + [s[|s| - 1]];
      r
    else s
  }

  /** str.strip(): a slice of `s` between two all-whitespace margins, itself trimmed. */
  function Strip(s: string): (r: string)
    ensures Trimmed(r)
    ensures |r| <= |s|
  {
    StripRight(StripLeft(s))
  }

  lemma {:induction false} StripLeftOfSpaces(a: string, rest: string)
    requires AllSpace(a)
    requires rest == [] || !IsSpace(rest[0])
    ensures StripLeft(a + rest) == rest
    decreases |a|
  {
    if a != [] {
      assert (a + rest)[1..] == a[1..] + rest;
      StripLeftOfSpaces(a[1..], rest);
    }
  }

  lemma {:induction false} StripRightOfSpaces(rest: string, b: string)
    requires AllSpace(b)
    requires rest == [] || !IsSpace(rest[|rest| - 1])
    ensures StripRight(rest + b) == rest
    decreases |b|
  {
    if b != [] {
      assert (rest + b)[..|rest + b| - 1] == rest + b[..|b| - 1];
      StripRightOfSpaces(rest, b[..|b| - 1]);
    }
  }

  /** Stripping removes exactly whitespace margins: a trimmed text padded with whitespace strips back to itself. */
  lemma StripPadded(a: string, t: string, b: string)
    requires AllSpace(a) && AllSpace(b) && Trimmed(t)
    ensures Strip(a + t + b) == t
  {
    if t == [] {
      assert a + t + b == (a + b) + [];
      StripLeftOfSpaces(a + b, []);
    } else {
      assert a + t + b == a + (t + b);
      StripLeftOfSpaces(a, t + b);
      StripRightOfSpaces(t, b);
    }
  }

  lemma AllSpaceConcat(x: string, y: string)
    requires AllSpace(x) && AllSpace(y)
    ensures AllSpace(x + y)
  {
    forall i | 0 <= i < |x + y| ensures IsSpace((x + y)[i]) {
      if i < |x| { assert (x + y)[i] == x[i]; } else { assert (x + y)[i] == y[i - |x|]; }
    }
  }

  /** A text is its strip() between two all-whitespace margins. */
  lemma StripMargins(s: string) returns (l: string, r: string)
    ensures AllSpace(l) && AllSpace(r) && s == l + Strip(s) + r
  {
    var sl := StripLeft(s);
    var t := StripRight(sl);
    l := s[..|s| - |sl|];
    r := sl[|t|..];
    SplitAt(s, |s| - |sl|);
    SplitAt(sl, |t|);
    Associate(l, t, r);
  }

  lemma SplitAt(x: string, k: nat)
    requires k <= |x|
    ensures x == x[..k] + x[k..]
  {
  }

  lemma Associate(x: string, y: string, z: string)
    ensures x + (y + z) == x + y + z
  {
  }

  lemma Regroup(a: string, l: string, t: string, r: string, b: string)
    ensures a + (l + t + r) + b == (a + l) + t + (r + b)
  {
  }

  /** Whitespace around a text makes no difference to its strip(). */
  lemma StripIgnoresPadding(a: string, s: string, b: string)
    requires AllSpace(a) && AllSpace(b)
    ensures Strip(a + s + b) == Strip(s)
  {
    var l, r := StripMargins(s);
    Regroup(a, l, Strip(s), r, b);
    AllSpaceConcat(a, l);
    AllSpaceConcat(r, b);
    StripPadded(a + l, Strip(s), r + b);
  }

  /** strip() leaves nothing exactly when the text is all whitespace. */
  lemma StripEmptyIffSpace(s: string)
    ensures Strip(s) == [] <==> AllSpace(s)
  {
    if AllSpace(s) {
      assert s == s + [];
      StripLeftOfSpaces(s, []);
    }
    if Strip(s) == [] {
      var sl := StripLeft(s);
      assert sl[0..] == sl;
      assert s == s[..|s| - |sl|] + sl;
      AllSpaceConcat(s[..|s| - |sl|], sl);
    }
  }

  /** A non-empty run of non-whitespace characters: what str.split() yields. */
  predicate IsWord(w: string) {
    w != [] && forall i :: 0 <= i < |w| ==> !IsSpace(w[i])
  }

  /** Length of the leading run of non-whitespace characters. */
  function WordLength(s: string): (n: nat)
    ensures n <= |s|
    ensures forall i :: 0 <= i < n ==> !IsSpace(s[i])
    ensures n < |s| ==> IsSpace(s[n])
  {
    if s == [] || IsSpace(s[0]) then 0 else 1 + WordLength(s[1..])
  }

  /** Python's str.split() with no argument: the maximal runs of non-whitespace, in order. */
  function Words(s: string): (ws: seq<string>)
    ensures forall i :: 0 <= i < |ws| ==> IsWord(ws[i])
    decreases |s|
  {
    if s == [] then []
    else if IsSpace(s[0]) then Words(s[1..])
    else
      var n := WordLength(s);
      [s[..n]] + Words(s[n..])
  }

  lemma {:induction false} WordLengthOfWord(w: string, rest: string)
    requires IsWord(w)
    requires rest == [] || IsSpace(rest[0])
    ensures WordLength(w + rest) == |w|
    decreases |w|
  {
    if |w| > 1 {
      assert (w + rest)[1..] == w[1..] + rest;
      WordLengthOfWord(w[1..], rest);
    } else {
      assert (w + rest)[1..] == rest;
    }
  }

  lemma {:induction false} WordsSkipSpaces(a: string, rest: string)
    requires AllSpace(a)
    ensures Words(a + rest) == Words(rest)
    decreases |a|
  {
    if a != [] {
      assert (a + rest)[0] == a[0];
      assert (a + rest)[1..] == a[1..] + rest;
      assert Words(a + rest) == Words((a + rest)[1..]);
      WordsSkipSpaces(a[1..], rest);
    } else {
      assert a + rest == rest;
    }
  }

  /** str.split() peels off a leading word that is followed by whitespace. */
  lemma WordsCons(w: string, gap: string, rest: string)
    requires IsWord(w) && gap != [] && AllSpace(gap)
    ensures Words(w + gap + rest) == [w] + Words(rest)
  {
    var s := w + gap + rest;
    assert s == w + (gap + rest);
    WordLengthOfWord(w, gap + rest);
    assert s[..|w|] == w;
    assert s[|w|..] == gap + rest;
    WordsSkipSpaces(gap, rest);
  }

  /** str.split() of a single word is that word. */
  lemma WordsSingle(w: string)
    requires IsWord(w)
    ensures Words(w) == [w]
  {
    WordLengthOfWord(w, []);
    assert w + [] == w;
    assert w[|w|..] == [];
  }

  /** str.replace(a, b) for single characters. */
  function ReplaceChar(s: string, a: char, b: char): (r: string)
    ensures |r| == |s|
    ensures forall i :: 0 <= i < |s| ==> r[i] == (if s[i] == a then b else s[i])
  {
    seq(|s|, i requires 0 <= i < |s| => if s[i] == a then b else s[i])
  }

  lemma ReplaceCharAppend(x: string, y: string, a: char, b: char)
    ensures ReplaceChar(x + y, a, b) == ReplaceChar(x, a, b) + ReplaceChar(y, a, b)
  {
    assert |ReplaceChar(x + y, a, b)| == |ReplaceChar(x, a, b) + ReplaceChar(y, a, b)|;
    forall i | 0 <= i < |x + y|
      ensures ReplaceChar(x + y, a, b)[i] == (ReplaceChar(x, a, b) + ReplaceChar(y, a, b))[i]
    {
      if i < |x| {
        assert (x + y)[i] == x[i];
      } else {
        assert (x + y)[i] == y[i - |x|];
      }
    }
  }

  /** `s` does not contain the character `c`. */
  predicate Avoids(s: string, c: char) {
    forall i :: 0 <= i < |s| ==> s[i] != c
  }

  lemma ReplaceCharAbsent(s: string, a: char, b: char)
    requires Avoids(s, a)
    ensures ReplaceChar(s, a, b) == s
  {
  }

  /** What follows the n-th occurrence of `sep`: Python's s.split(sep, n)[n], None where that index does not exist. */
  function AfterSeparators(s: string, sep: char, n: nat): Option<string>
    decreases |s|
  {
    if n == 0 then Some(s)
    else if s == [] then None
    else if s[0] == sep then AfterSeparators(s[1..], sep, n - 1)
    else AfterSeparators(s[1..], sep, n)
  }

  lemma {:induction false} AfterSeparatorsSkip(a: string, sep: char, b: string, n: nat)
    requires Avoids(a, sep)
    ensures AfterSeparators(a + [sep] + b, sep, n + 1) == AfterSeparators(b, sep, n)
    decreases |a|
  {
    if a == [] {
      assert a + [sep] + b == [sep] + b;
      assert ([sep] + b)[1..] == b;
    } else {
      assert (a + [sep] + b)[1..] == a[1..] + [sep] + b;
      AfterSeparatorsSkip(a[1..], sep, b, n);
    }
  }

  /** Fewer than n separators: Python's split(sep, n)[n] raises IndexError. */
  lemma {:induction false} AfterSeparatorsShort(s: string, sep: char, n: nat)
    requires n > 0 && Avoids(s, sep)
    ensures AfterSeparators(s, sep, n) == None
    decreases |s|
  {
    if s != [] {
      AfterSeparatorsShort(s[1..], sep, n);
    }
  }

  /** `p` occurs in `s` starting at index i. */
  predicate OccursAt(s: string, p: string, i: nat) {
    i + |p| <= |s| && s[i..i + |p|] == p
  }

  /** str.replace(p, ""): every non-overlapping occurrence of p, scanning left to right, is removed. */
  function RemoveAll(s: string, p: string): (r: string)
    requires p != []
    ensures |r| <= |s|
    decreases |s|
  {
    if s == [] then []
    else if p <= s then RemoveAll(s[|p|..], p)
    else [s[0]] + RemoveAll(s[1..], p)
  }

  lemma {:induction false} RemoveAllAbsent(s: string, p: string)
    requires p != []
    requires forall i :: 0 <= i < |s| ==> !OccursAt(s, p, i)
    ensures RemoveAll(s, p) == s
    decreases |s|
  {
    if s != [] {
      assert !OccursAt(s, p, 0);
      assert !(p <= s);
      forall i | 0 <= i < |s[1..]| ensures !OccursAt(s[1..], p, i) {
        assert !OccursAt(s, p, i + 1);
        if i + |p| <= |s[1..]| {
          assert s[1..][i..i + |p|] == s[i + 1..i + 1 + |p|];
        }
      }
      RemoveAllAbsent(s[1..], p);
    }
  }

  /** Removing a pattern from `p + rest` removes the prefix and then works on `rest`. */
  lemma RemoveAllPrefix(p: string, rest: string)
    requires p != []
    ensures RemoveAll(p + rest, p) == RemoveAll(rest, p)
  {
    assert p <= p + rest;
    assert (p + rest)[|p|..] == rest;
  }

  /** Python's str.lower() restricted to the ASCII letters. */
  function LowerAscii(s: string): (r: string)
    ensures |r| == |s|
    ensures forall i :: 0 <= i < |s| ==> r[i] == (if 'A' <= s[i] <= 'Z' then (s[i] as int + 32) as char else s[i])
  {
    seq(|s|, i requires 0 <= i < |s| => if 'A' <= s[i] <= 'Z' then (s[i] as int + 32) as char else s[i])
  }

  // ---------------------------------------------------------------------
  // int(str) and str(int)

  predicate IsDigit(c: char) {
    '0' <= c <= '9'
  }

  function DigitValue(c: char): nat
    requires IsDigit(c)
  {
    (c as int) - ('0' as int)
  }

  function DigitChar(d: nat): (c: char)
    requires d < 10
    ensures IsDigit(c) && DigitValue(c) == d
  {
    (('0' as int) + d) as char
  }

  /** Python's decimal integer body: a digit, then digits each optionally preceded by one underscore. */
  predicate IsDigitString(d: string)
    decreases |d|
  {
    |d| > 0 && IsDigit(d[0]) &&
    (|d| == 1 || IsDigitString(d[1..]) || (d[1] == '_' && IsDigitString(d[2..])))
  }

  /** A non-empty run of plain digits is a digit string. */
  lemma {:induction false} DigitsAreDigitString(d: string)
    requires |d| > 0 && forall i :: 0 <= i < |d| ==> IsDigit(d[i])
    ensures IsDigitString(d)
    decreases |d|
  {
    if |d| > 1 {
      DigitsAreDigitString(d[1..]);
    }
  }

  /** The value of the digits of `d`, underscores ignored. */
  function DigitsValue(d: string): nat {
    if d == [] then 0
    else if IsDigit(d[|d| - 1]) then 10 * DigitsValue(d[..|d| - 1]) + DigitValue(d[|d| - 1])
    else DigitsValue(d[..|d| - 1])
  }

  /**
   * Python's int(s) for a str: surrounding whitespace is ignored, an optional
   * sign, then a digit string; anything else raises ValueError (None here).
   * The whitespace is str.isspace's, which also counts U+001C..U+001F; Python's
   * int() does not skip those four, but every caller strips or splits first.
   */
  function ParseInt(s: string): Option<int>
  {
    ParseSigned(Strip(s))
  }

  /** An optional sign, then a digit string. */
  function ParseSigned(t: string): (r: Option<int>)
    ensures r.Some? && t != [] && t[0] == '-' ==> r.value <= 0
  {
    if |t| > 0 && (t[0] == '+' || t[0] == '-') then
      var v: int := DigitsValue(t[1..]);
      if IsDigitString(t[1..]) then Some(if t[0] == '-' then -v else v)
      else None
    else if IsDigitString(t) then Some(DigitsValue(t))
    else None
  }

  /** str(n) for a natural number. */
  function ShowNat(n: nat): (r: string)
    ensures |r| > 0
    ensures forall i :: 0 <= i < |r| ==> IsDigit(r[i])
  {
    if n < 10 then [DigitChar(n)] else ShowNat(n / 10) + [DigitChar(n % 10)]
  }

  /** str(n) for an integer. */
  function Show(n: int): (r: string)
    ensures |r| > 0
    ensures r[0] == '-' <==> n < 0
    ensures forall i :: 0 <= i < |r| ==> IsDigit(r[i]) || (i == 0 && n < 0 && r[i] == '-')
  {
    if n < 0 then "-" + ShowNat(-n) else ShowNat(n)
  }

  lemma {:induction false} ShowNatValue(n: nat)
    ensures DigitsValue(ShowNat(n)) == n
  {
    if n >= 10 {
      var r := ShowNat(n);
      assert r[..|r| - 1] == ShowNat(n / 10);
      ShowNatValue(n / 10);
    }
  }

  lemma ShowNatIsDigitString(n: nat)
    ensures IsDigitString(ShowNat(n))
  {
    DigitsAreDigitString(ShowNat(n));
  }

  lemma ShowTrimmed(n: int)
    ensures Trimmed(Show(n)) && IsWord(Show(n))
  {
  }

  /** strip() leaves a stripped text as it is. */
  lemma StripStripped(s: string)
    ensures Strip(Strip(s)) == Strip(s)
  {
    var t := Strip(s);
    assert "" + t + "" == t;
    StripPadded("", t, "");
  }

  /** int() strips its argument itself; a result read after a leading '-' is never positive. */
  lemma ParseIntOfStrip(s: string)
    ensures ParseInt(Strip(s)) == ParseInt(s)
    ensures ParseInt(s).Some? && Strip(s) != [] && Strip(s)[0] == '-' ==> ParseInt(s).value <= 0
  {
    StripStripped(s);
  }

  /** int(str(n)) == n, whitespace padding included. */
  lemma ParseShow(n: int, a: string, b: string)
    requires AllSpace(a) && AllSpace(b)
    ensures ParseInt(a + Show(n) + b) == Some(n)
  {
    ShowTrimmed(n);
    StripPadded(a, Show(n), b);
    ParseSignedShow(n);
  }

  /** int(str(n)) == n. */
  lemma ParseShown(n: int)
    ensures ParseInt(Show(n)) == Some(n)
  {
    assert "" + Show(n) + "" == Show(n);
    ParseShow(n, "", "");
  }

  lemma ParseSignedShow(n: int)
    ensures ParseSigned(Show(n)) == Some(n)
  {
    if n < 0 {
      ParseSignedNegative(-n);
    } else {
      ParseSignedNat(n);
    }
  }

  lemma ParseSignedNat(n: nat)
    ensures ParseSigned(ShowNat(n)) == Some(n)
  {
    ShowNatValue(n);
    ShowNatIsDigitString(n);
  }

  lemma ParseSignedNegative(n: nat)
    requires n > 0
    ensures ParseSigned("-" + ShowNat(n)) == Some(-(n as int))
  {
    var t := "-" + ShowNat(n);
    assert t[1..] == ShowNat(n);
    ShowNatValue(n);
    ShowNatIsDigitString(n);
  }
}
