/**
 * The Python string operations the pipeline relies on, over Dafny's Unicode
 * `string` (one `char` per code point, as Python's `str` indexes them):
 * `str.strip`, `sep.join`, and the decimal rendering of an `int` in an f-string.
 */
module Text {
  import opened Wrappers

  /** Python's `str.isspace()` for one code point. */
  predicate IsSpace(c: char) {
    || ('\t' <= c <= '\r')
    || ('\U{1C}' <= c <= '\U{1F}')
    || c == ' ' || c == '\U{85}' || c == '\U{A0}' || c == '\U{1680}'
    || ('\U{2000}' <= c <= '\U{200A}')
    || c == '\U{2028}' || c == '\U{2029}' || c == '\U{202F}' || c == '\U{205F}' || c == '\U{3000}'
  }

  predicate AllSpace(s: string) {
    forall k :: 0 <= k < |s| ==> IsSpace(s[k])
  }

  /** `s.rstrip()`: the longest prefix that does not end in whitespace. */
  function RStrip(s: string): (r: string)
    ensures |r| <= |s| && r == s[..|r|]
    ensures r == [] || !IsSpace(r[|r| - 1])
    ensures AllSpace(s[|r|..])
    decreases |s|
  {
    if s != [] && IsSpace(s[|s| - 1]) then
      var r := RStrip(s[..|s| - 1]);
      assert s[|r|..] == s[..|s| - 1][|r|..] + [s[|s| - 1]];
      r
    else s
  }

  /** `s.lstrip()`: the longest suffix that does not start with whitespace. */
  function LStrip(s: string): (r: string)
    ensures |r| <= |s| && r == s[|s| - |r|..]
    ensures r == [] || !IsSpace(r[0])
    ensures AllSpace(s[..|s| - |r|])
    decreases |s|
  {
    if s != [] && IsSpace(s[0]) then
      var r := LStrip(s[1..]);
      assert forall k :: 1 <= k < |s| - |r| ==> s[k] == s[1..][..|s[1..]| - |r|][k - 1];
      r
    else s
  }

  /** `s.strip()`: whitespace removed at both ends. */
  function Strip(s: string): (r: string)
    ensures |r| <= |s|
    ensures r == [] || (!IsSpace(r[0]) && !IsSpace(r[|r| - 1]))
  {
    var t := RStrip(s);
    var r := LStrip(t);
    assert r != [] ==> r[|r| - 1] == t[|t| - 1];
    r
  }

  /**
   * `s.strip()` is a slice of `s`: it ends where the right-stripped text ends,
   * and only whitespace lies before and after it.
   */
  lemma StripOuterSpace(s: string)
    ensures |Strip(s)| <= |RStrip(s)| <= |s|
    ensures Strip(s) == s[|RStrip(s)| - |Strip(s)|..|RStrip(s)|]
    ensures forall k :: 0 <= k < |RStrip(s)| - |Strip(s)| ==> IsSpace(s[k])
    ensures forall k :: |RStrip(s)| <= k < |s| ==> IsSpace(s[k])
  {
    StripSlice(s, RStrip(s), Strip(s));
  }

  /** Stripping the right end, then the left, removes only outer whitespace of the original. */
  lemma StripSlice(s: string, t: string, r: string)
    requires |t| <= |s| && t == s[..|t|] && AllSpace(s[|t|..]) && (t == [] || !IsSpace(t[|t| - 1]))
    requires |r| <= |t| && r == t[|t| - |r|..] && AllSpace(t[..|t| - |r|]) && (r == [] || !IsSpace(r[0]))
    ensures r == [] || (!IsSpace(r[0]) && !IsSpace(r[|r| - 1]))
    ensures |r| <= |t| <= |s|
    ensures r == s[|t| - |r|..|t|]
    ensures forall k :: 0 <= k < |t| - |r| ==> IsSpace(s[k])
    ensures forall k :: |t| <= k < |s| ==> IsSpace(s[k])
  {
    var i := |t| - |r|;
    assert r != [] ==> r[|r| - 1] == t[|t| - 1];
    forall k | 0 <= k < i
      ensures IsSpace(s[k])
    {
      assert s[k] == t[..i][k];
    }
    forall k | |t| <= k < |s|
      ensures IsSpace(s[k])
    {
      assert s[k] == s[|t|..][k - |t|];
    }
    forall k | 0 <= k < |r|
      ensures r[k] == s[i + k]
    {
      assert r[k] == t[i + k];
    }
    assert r == s[i..|t|];
  }

  /** The right-strip of `s` is the only prefix that ends in a non-space and leaves only spaces. */
  lemma RStripUnique(s: string, r: string)
    requires |r| <= |s| && r == s[..|r|]
    requires r == [] || !IsSpace(r[|r| - 1])
    requires AllSpace(s[|r|..])
    ensures RStrip(s) == r
  {
    var t := RStrip(s);
  }

  /** Trailing text that is not all whitespace shields what precedes it from `rstrip`. */
  lemma RStripAppendSolid(a: string, b: string)
    requires !AllSpace(b)
    ensures RStrip(a + b) == a + RStrip(b)
  {
    var rb := RStrip(b);
    assert (a + b)[|a + rb|..] == b[|rb|..];
    assert a + rb == (a + b)[..|a + rb|];
    RStripUnique(a + b, a + rb);
  }

  /** Trailing whitespace is removed together with whatever whitespace precedes it. */
  lemma RStripAppendSpace(a: string, b: string)
    requires AllSpace(b)
    ensures RStrip(a + b) == RStrip(a)
  {
    var ra := RStrip(a);
    assert (a + b)[|ra|..] == a[|ra|..] + b;
    assert ra == (a + b)[..|ra|];
    RStripUnique(a + b, ra);
  }

  /** After text ending in a non-space, `rstrip` only works on what follows. */
  lemma RStripAfterSolid(a: string, b: string)
    requires a != [] && !IsSpace(a[|a| - 1])
    ensures RStrip(a + b) == a + RStrip(b)
  {
    if AllSpace(b) {
      RStripAppendSpace(a, b);
      RStripUnique(a, a);
      RStripUnique(b, []);
    } else {
      RStripAppendSolid(a, b);
    }
  }

  /** Text that starts with a non-space is left alone by `lstrip`. */
  lemma LStripSolid(s: string)
    requires s != [] && !IsSpace(s[0])
    ensures LStrip(s) == s
  {
  }

  /** `sep.join(xs)`. */
  function Join(xs: seq<string>, sep: string): (r: string)
    ensures xs == [] ==> r == ""
    ensures |xs| > 0 ==> |xs[0]| <= |r| && r[..|xs[0]|] == xs[0]
    decreases |xs|
  {
    if |xs| == 0 then ""
    else if |xs| == 1 then xs[0]
    else xs[0] + sep + Join(xs[1..], sep)
  }

  /** Appending one more element to a non-empty join adds the separator and the element. */
  lemma {:induction false} JoinSnoc(xs: seq<string>, x: string, sep: string)
    requires xs != []
    ensures Join(xs + [x], sep) == Join(xs, sep) + sep + x
    decreases |xs|
  {
    if |xs| == 1 {
      assert (xs + [x])[1..] == [x];
    } else {
      assert (xs + [x])[1..] == xs[1..] + [x];
      JoinSnoc(xs[1..], x, sep);
    }
  }

  /** The position of the last `c` in `s`, if any. */
  function LastIndexOf(s: string, c: char): (r: Option<nat>)
    ensures r.None? ==> c !in s
    ensures r.Some? ==> r.value < |s| && s[r.value] == c && c !in s[r.value + 1..]
    decreases |s|
  {
    if s == [] then None
    else if s[|s| - 1] == c then Some(|s| - 1)
    else
      var r := LastIndexOf(s[..|s| - 1], c);
      assert s == s[..|s| - 1] + [s[|s| - 1]];
      assert r.Some? ==> s[r.value + 1..] == s[..|s| - 1][r.value + 1..] + [s[|s| - 1]];
      r
  }

  /** The position of the first `c` in `s`, if any (`s.find(c)`). */
  function FirstIndexOf(s: string, c: char): (r: Option<nat>)
    ensures r.None? ==> c !in s
    ensures r.Some? ==> r.value < |s| && s[r.value] == c && c !in s[..r.value]
    decreases |s|
  {
    if s == [] then None
    else if s[0] == c then Some(0)
    else
      var r := FirstIndexOf(s[1..], c);
      assert r.Some? ==> s[..r.value + 1] == [s[0]] + s[1..][..r.value];
      if r.Some? then Some(r.value + 1) else None
  }

  predicate IsDigit(c: char) {
    '0' <= c <= '9'
  }

  function DigitChar(d: nat): (c: char)
    requires d < 10
    ensures IsDigit(c)
  {
    (48 + d) as char
  }

  /** The decimal text of a non-negative `int`, as `f"{n}"` renders it. */
  function Digits(n: nat): (r: string)
    ensures r != []
    ensures forall k :: 0 <= k < |r| ==> IsDigit(r[k])
    ensures |r| > 1 ==> r[0] != '0'
  {
    if n < 10 then [DigitChar(n)] else Digits(n / 10) + [DigitChar(n % 10)]
  }

  /** Reads decimal text back; the partner of `Digits`. */
  function ParseDigits(s: string): nat
    requires forall k :: 0 <= k < |s| ==> IsDigit(s[k])
  {
    if s == [] then 0
    else
      var c := s[|s| - 1];
      assert IsDigit(c);
      ParseDigits(s[..|s| - 1]) * 10 + ((c as int) - 48)
  }

  /** Rendering a number in decimal loses nothing. */
  lemma {:induction false} DigitsRoundTrip(n: nat)
    ensures ParseDigits(Digits(n)) == n
  {
    if n >= 10 {
      var d := Digits(n / 10) + [DigitChar(n % 10)];
      assert d[..|d| - 1] == Digits(n / 10);
      DigitsRoundTrip(n / 10);
    }
  }
}
