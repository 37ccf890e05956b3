/**
 * The text primitives the scraper and its manager lean on, with Python's
 * meaning: `str.split()` with no separator, `str.strip()`, `" ".join`,
 * `str.replace(pat, "")`, the `in` test on strings, `int(str)` and `str(int)`.
 */
module Text {
  import opened Wrappers

  /** Concatenation regroups; stated once so that callers need not prove it element by element. */
  lemma AppendAssociates<T>(a: seq<T>, b: seq<T>, c: seq<T>)
    ensures a + b + c == a + (b + c)
  {
  }

  /** Python's `str.isspace` set: the characters `split()` and `strip()` treat as whitespace. */
  predicate IsSpace(c: char) {
    || ('\U{09}' <= c <= '\U{0D}')
    || ('\U{1C}' <= c <= '\U{20}')
    || c == '\U{85}' || c == '\U{A0}' || c == '\U{1680}'
    || ('\U{2000}' <= c <= '\U{200A}')
    || c == '\U{2028}' || c == '\U{2029}' || c == '\U{202F}' || c == '\U{205F}' || c == '\U{3000}'
  }

  predicate IsDigit(c: char) {
    '0' <= c <= '9'
  }

  predicate NoSpace(s: string) {
    forall i :: 0 <= i < |s| ==> !IsSpace(s[i])
  }

  predicate AllSpace(s: string) {
    forall i :: 0 <= i < |s| ==> IsSpace(s[i])
  }

  predicate AllDigits(s: string) {
    forall i :: 0 <= i < |s| ==> IsDigit(s[i])
  }

  /** A token of `split()`: non-empty and free of whitespace. */
  predicate IsToken(t: string) {
    |t| > 0 && NoSpace(t)
  }

  /** Leading whitespace dropped. */
  function SkipSpace(s: string): (r: string)
    ensures |r| <= |s| && r == s[|s| - |r|..]
    ensures r == [] || !IsSpace(r[0])
  {
    if s != [] && IsSpace(s[0]) then SkipSpace(s[1..]) else s
  }

  /** Length of the leading run of non-whitespace characters. */
  function WordLen(s: string): (n: nat)
    ensures n <= |s| && NoSpace(s[..n])
    ensures n < |s| ==> IsSpace(s[n])
  {
    if s == [] || IsSpace(s[0]) then 0
    else
      var n := WordLen(s[1..]);
      assert s[..n + 1] == [s[0]] + s[1..][..n];
      1 + n
  }

  /** `s.split()`: the maximal runs of non-whitespace, in order. */
  function Split(s: string): (r: seq<string>)
    ensures forall t :: t in r ==> IsToken(t)
    decreases |s|
  {
    var t := SkipSpace(s);
    if t == [] then []
    else
      var n := WordLen(t);
      [t[..n]] + Split(t[n..])
  }

  /** Trailing whitespace dropped. */
  function RStrip(s: string): (r: string)
    ensures |r| <= |s| && r == s[..|r|]
    ensures r == [] || !IsSpace(r[|r| - 1])
  {
    if s != [] && IsSpace(s[|s| - 1]) then RStrip(s[..|s| - 1]) else s
  }

  /** `s.strip()`: leading and trailing whitespace dropped. */
  function Strip(s: string): (r: string)
    ensures |r| <= |s|
    ensures r == [] || (!IsSpace(r[0]) && !IsSpace(r[|r| - 1]))
  {
    RStrip(SkipSpace(s))
  }

  /** `sep.join(parts)`. */
  function Join(parts: seq<string>, sep: string): string
  {
    if |parts| == 0 then ""
    else if |parts| == 1 then parts[0]
    else parts[0] + sep + Join(parts[1..], sep)
  }

  predicate StartsWith(s: string, prefix: string) {
    |prefix| <= |s| && s[..|prefix|] == prefix
  }

  /** `pat in s`. */
  predicate Contains(s: string, pat: string)
    decreases |s|
  {
    StartsWith(s, pat) || (s != [] && Contains(s[1..], pat))
  }

  /** `s.replace(pat, "")`: every occurrence found scanning left to right, without overlap, removed. */
  function RemoveAll(s: string, pat: string): (r: string)
    requires pat != []
    ensures |r| <= |s|
    ensures !Contains(s, pat) ==> r == s
    decreases |s|
  {
    if |s| < |pat| then s
    else if s[..|pat|] == pat then RemoveAll(s[|pat|..], pat)
    else [s[0]] + RemoveAll(s[1..], pat)
  }

  function DigitValue(c: char): nat
    requires IsDigit(c)
  {
    c as int - '0' as int
  }

  /** The value of a string of decimal digits, most significant first. */
  function DigitsValue(s: string): nat
    requires AllDigits(s)
  {
    if s == [] then 0 else DigitsValue(s[..|s| - 1]) * 10 + DigitValue(s[|s| - 1])
  }

  /**
   * `int(s)`: surrounding whitespace is ignored, then an optional sign and
   * at least one ASCII digit; anything else is a ValueError, here None.
   */
  function ParseInt(s: string): Option<int>
  {
    ParseSigned(Strip(s))
  }

  /** An optional sign and at least one ASCII digit, with nothing around them. */
  function ParseSigned(t: string): Option<int>
  {
    if |t| >= 2 && (t[0] == '+' || t[0] == '-') && AllDigits(t[1..]) then
      Some(if t[0] == '-' then -(DigitsValue(t[1..]) as int) else DigitsValue(t[1..]))
    else if |t| >= 1 && AllDigits(t) then
      Some(DigitsValue(t))
    else
      None
  }

  function DigitChar(d: nat): (c: char)
    requires d < 10
    ensures IsDigit(c) && DigitValue(c) == d
  {
    ('0' as int + d) as char
  }

  /** `str(n)` for a natural number: decimal digits, no leading zero. */
  function NatToString(n: nat): (r: string)
    ensures |r| > 0 && AllDigits(r)
    ensures |r| > 1 ==> r[0] != '0'
  {
    if n < 10 then [DigitChar(n)] else NatToString(n / 10) + [DigitChar(n % 10)]
  }

  /** `str(i)`: a minus sign before the digits of a negative number. */
  function IntToString(i: int): (r: string)
    ensures IsToken(r)
  {
    if i < 0 then "-" + NatToString(-i) else NatToString(i)
  }

  // ----- Lemmas -----

  lemma {:induction false} DigitsRoundTrip(n: nat)
    ensures DigitsValue(NatToString(n)) == n
  {
    if n >= 10 {
      var s := NatToString(n);
      assert s[..|s| - 1] == NatToString(n / 10);
      DigitsRoundTrip(n / 10);
    }
  }

  /** Leading whitespace before a non-whitespace start is skipped entirely. */
  lemma {:induction false} SkipSpaceOver(pad: string, x: string)
    requires AllSpace(pad)
    requires x == [] || !IsSpace(x[0])
    ensures SkipSpace(pad + x) == x
  {
    if pad != [] {
      assert (pad + x)[1..] == pad[1..] + x;
      SkipSpaceOver(pad[1..], x);
    }
  }

  /** Trailing whitespace after a non-whitespace end is dropped entirely. */
  lemma {:induction false} RStripOver(x: string, pad: string)
    requires AllSpace(pad)
    requires x == [] || !IsSpace(x[|x| - 1])
    ensures RStrip(x + pad) == x
  {
    if pad != [] {
      assert (x + pad)[..|x + pad| - 1] == x + pad[..|pad| - 1];
      RStripOver(x, pad[..|pad| - 1]);
    }
  }

  /** `strip()` removes exactly the whitespace around a text that neither starts nor ends with whitespace. */
  lemma StripPadded(before: string, t: string, after: string)
    requires AllSpace(before) && AllSpace(after)
    requires t == [] || (!IsSpace(t[0]) && !IsSpace(t[|t| - 1]))
    ensures Strip(before + t + after) == t
  {
    if t == [] {
      assert before + t + after == before + after;
      SkipSpaceOver(before + after, []);
      assert before + after + [] == before + after;
    } else {
      assert before + t + after == before + (t + after);
      SkipSpaceOver(before, t + after);
      RStripOver(t, after);
    }
  }

  /** A text that neither starts nor ends with whitespace is its own strip. */
  lemma StripTrimmed(t: string)
    requires t == [] || (!IsSpace(t[0]) && !IsSpace(t[|t| - 1]))
    ensures Strip(t) == t
  {
    StripPadded([], t, []);
    assert [] + t + [] == t;
  }

  /** The word at the start of `t + rest` is exactly `t` when `rest` is empty or starts with whitespace. */
  lemma {:induction false} WordLenOfToken(t: string, rest: string)
    requires NoSpace(t)
    requires rest == [] || IsSpace(rest[0])
    ensures WordLen(t + rest) == |t|
  {
    if t != [] {
      assert (t + rest)[1..] == t[1..] + rest;
      WordLenOfToken(t[1..], rest);
    }
  }

  /** Splitting a text that starts with a token takes that token first. */
  lemma SplitFirstToken(pad: string, t: string, rest: string)
    requires AllSpace(pad) && IsToken(t)
    requires rest == [] || IsSpace(rest[0])
    ensures Split(pad + t + rest) != [] && Split(pad + t + rest)[0] == t
  {
    assert pad + t + rest == pad + (t + rest);
    SkipSpaceOver(pad, t + rest);
    WordLenOfToken(t, rest);
    assert (t + rest)[..|t|] == t;
  }

  lemma SplitAllSpace(s: string)
    requires AllSpace(s)
    ensures Split(s) == []
  {
    SkipSpaceOver(s, []);
    assert s + [] == s;
  }

  /** Splitting a token followed by whitespace and more text: the token, then the split of the rest. */
  lemma SplitCons(t: string, x: string)
    requires IsToken(t)
    ensures Split(t + " " + x) == [t] + Split(x)
  {
    var j := t + " " + x;
    AppendAssociates(t, " ", x);
    WordLenOfToken(t, " " + x);
    SplitAtWord(j);
    assert j[..|t|] == t;
    assert j[|t|..] == " " + x;
    SplitLeadingSpace(x);
  }

  /** A text that starts with a non-whitespace character splits into its first word and the split of the rest. */
  lemma SplitAtWord(s: string)
    requires s != [] && !IsSpace(s[0])
    ensures Split(s) == [s[..WordLen(s)]] + Split(s[WordLen(s)..])
  {
    assert SkipSpace(s) == s;
  }

  /** One leading space does not change a split. */
  lemma SplitLeadingSpace(x: string)
    ensures Split(" " + x) == Split(x)
  {
    assert (" " + x)[1..] == x;
    assert SkipSpace(" " + x) == SkipSpace(x);
  }

  /** A lone token splits to itself. */
  lemma SplitToken(t: string)
    requires IsToken(t)
    ensures Split(t) == [t]
  {
    SkipSpaceOver([], t);
    assert [] + t == t;
    WordLenOfToken(t, []);
    assert t + [] == t;
    assert t[|t|..] == [];
  }

  lemma SplitJoinStep(toks: seq<string>)
    requires |toks| > 1 && IsToken(toks[0])
    ensures Split(Join(toks, " ")) == [toks[0]] + Split(Join(toks[1..], " "))
  {
    SplitCons(toks[0], Join(toks[1..], " "));
  }

  /** Joining tokens with single spaces and splitting again gives the tokens back. */
  lemma {:induction false} SplitJoin(toks: seq<string>)
    requires forall t :: t in toks ==> IsToken(t)
    ensures Split(Join(toks, " ")) == toks
  {
    if |toks| == 0 {
      assert Join(toks, " ") == "";
      assert SkipSpace("") == "";
    } else if |toks| == 1 {
      assert Join(toks, " ") == toks[0];
      SplitToken(toks[0]);
    } else {
      var rest := toks[1..];
      assert forall t :: t in rest ==> t in toks;
      SplitJoinStep(toks);
      SplitJoin(rest);
      assert [toks[0]] + rest == toks;
    }
  }

  /** A single-space join of tokens neither starts nor ends with whitespace. */
  lemma {:induction false} JoinTrimmed(toks: seq<string>)
    requires forall t :: t in toks ==> IsToken(t)
    ensures var j := Join(toks, " "); j == [] || (!IsSpace(j[0]) && !IsSpace(j[|j| - 1]))
    ensures |toks| > 0 ==> Join(toks, " ") != []
  {
    if |toks| > 0 {
      assert toks[0] in toks && IsToken(toks[0]);
    }
    if |toks| > 1 {
      assert forall t :: t in toks[1..] ==> t in toks;
      JoinTrimmed(toks[1..]);
      var x := Join(toks[1..], " ");
      assert Join(toks, " ") == toks[0] + " " + x;
    }
  }

  /** A token that opens with neither a digit nor a sign is not an integer. */
  lemma ParseIntRejects(t: string)
    requires IsToken(t) && !IsDigit(t[0]) && t[0] != '+' && t[0] != '-'
    ensures ParseInt(t) == None
  {
    assert !IsSpace(t[|t| - 1]);
    StripTrimmed(t);
    assert !AllDigits(t);
  }

  /** `int` of a plain digit string is its decimal value. */
  lemma ParseDigits(d: string)
    requires |d| > 0 && AllDigits(d)
    ensures ParseInt(d) == Some(DigitsValue(d))
  {
    assert !IsSpace(d[0]) && !IsSpace(d[|d| - 1]);
    StripTrimmed(d);
    assert ParseSigned(d) == Some(DigitsValue(d));
  }

  /** `int` of a minus sign and a digit string is the negated decimal value. */
  lemma ParseNegative(d: string, n: nat)
    requires |d| > 0 && AllDigits(d) && DigitsValue(d) == n
    ensures ParseInt("-" + d) == Some(-(n as int))
  {
    StripSigned(d);
    ParseSignedNegative("-" + d, d, n);
  }

  lemma StripSigned(d: string)
    requires |d| > 0 && AllDigits(d)
    ensures Strip("-" + d) == "-" + d
  {
    var s := "-" + d;
    assert s[|s| - 1] == d[|d| - 1];
    StripTrimmed(s);
  }

  lemma ParseSignedNegative(s: string, d: string, n: nat)
    requires |d| > 0 && AllDigits(d) && DigitsValue(d) == n && s == "-" + d
    ensures ParseSigned(s) == Some(-(n as int))
  {
    assert s[1..] == d;
  }

  /** `int(str(i)) == i`. */
  lemma ParseIntRoundTrip(i: int)
    ensures ParseInt(IntToString(i)) == Some(i)
  {
    if i < 0 {
      NegativeRoundTrip(-i);
    } else {
      DigitsRoundTrip(i);
      PositiveOfDigits(NatToString(i), i);
    }
  }

  lemma PositiveOfDigits(d: string, n: nat)
    requires |d| > 0 && AllDigits(d) && DigitsValue(d) == n
    ensures ParseInt(d) == Some(n)
  {
    ParseDigits(d);
    assert Some(DigitsValue(d) as int) == Some(n as int);
  }

  lemma NegativeRoundTrip(n: nat)
    requires n > 0
    ensures ParseInt(IntToString(-(n as int))) == Some(-(n as int))
  {
    NegativeToString(n);
    NegativeParse(n);
  }

  lemma NegativeToString(n: nat)
    requires n > 0
    ensures IntToString(-(n as int)) == "-" + NatToString(n)
  {
  }

  lemma NegativeParse(n: nat)
    ensures ParseInt("-" + NatToString(n)) == Some(-(n as int))
  {
    DigitsRoundTrip(n);
    ParseNegative(NatToString(n), n);
  }

  /** Removing a pattern that opens the text is removing it from the remainder. */
  lemma RemoveAllLeading(pat: string, s: string)
    requires pat != []
    ensures RemoveAll(pat + s, pat) == RemoveAll(s, pat)
  {
    assert (pat + s)[..|pat|] == pat;
    assert (pat + s)[|pat|..] == s;
  }

  /** A text that starts with a pattern at some position contains it. */
  lemma {:induction false} ContainsAt(s: string, q: nat, pat: string)
    requires q <= |s| && StartsWith(s[q..], pat)
    ensures Contains(s, pat)
    decreases q
  {
    if q > 0 {
      assert s[1..][q - 1..] == s[q..];
      ContainsAt(s[1..], q - 1, pat);
    } else {
      assert s[0..] == s;
    }
  }

  /**
   * The first occurrence of the pattern is removed wherever it stands: when
   * no occurrence starts inside `x` (not even one running into the pattern
   * itself), `x` is kept and the scan goes on after the pattern.
   */
  lemma {:induction false} RemoveAllFirst(x: string, pat: string, y: string)
    requires pat != [] && !Contains(x + pat[..|pat| - 1], pat)
    ensures RemoveAll(x + pat + y, pat) == x + RemoveAll(y, pat)
    decreases |x|
  {
    if x == [] {
      assert x + pat + y == pat + y;
      RemoveAllLeading(pat, y);
    } else {
      var s := x + pat + y;
      assert StartsWith(x + pat[..|pat| - 1], pat) == false;
      assert s[..|pat|] == (x + pat[..|pat| - 1])[..|pat|];
      assert s[1..] == x[1..] + pat + y;
      assert (x + pat[..|pat| - 1])[1..] == x[1..] + pat[..|pat| - 1];
      RemoveAllFirst(x[1..], pat, y);
      assert [s[0]] + (x[1..] + RemoveAll(y, pat)) == x + RemoveAll(y, pat);
    }
  }
}
