/**
 * The string primitives the quiz relies on: Python's `str.strip()`, `str.lower()`,
 * the `in` substring test, `int(...)` on a string and `str(...)` on an integer.
 * Everything is over ASCII; see README for what that leaves out.
 */
module Text {
  import opened Wrappers

  /** Python's `str.isspace()` on ASCII: tab, line feed, vertical tab, form feed,
      carriage return, the separators 0x1C-0x1F and the space. This is what
      `str.strip()` drops. */
  predicate IsSpace(c: char) {
    (9 <= c as int <= 13) || (28 <= c as int <= 32)
  }

  /** The white space `int(...)` skips around a numeral of ASCII text: tab,
      line feed, vertical tab, form feed, carriage return and the space, but
      not the separators 0x1C-0x1F. */
  predicate IntSpace(c: char) {
    (9 <= c as int <= 13) || c == ' '
  }

  /** Which white space a trim drops: that of `str.strip()` or that of `int(...)`. */
  datatype Whitespace = StripSpace | NumeralSpace

  /** `c` is white space of kind `space`. */
  predicate IsBlank(space: Whitespace, c: char) {
    match space
    case StripSpace => IsSpace(c)
    case NumeralSpace => IntSpace(c)
  }

  /** Every character of `p` is white space of kind `space`. */
  ghost predicate AllSpace(p: string, space: Whitespace) {
    forall i :: 0 <= i < |p| ==> IsBlank(space, p[i])
  }

  /** `s` holds at least one character that is not white space. */
  ghost predicate HasVisible(s: string) {
    exists i :: 0 <= i < |s| && !IsSpace(s[i])
  }

  /** Where `lstrip()` cuts `s[k..]`: the first position from `k` on that does
      not hold white space of kind `space`, or `|s|` when there is none. */
  function SkipLeading(s: string, space: Whitespace, k: nat): (i: nat)
    requires k <= |s|
    ensures k <= i <= |s|
    ensures forall m :: k <= m < i ==> IsBlank(space, s[m])
    ensures i == |s| || !IsBlank(space, s[i])
    decreases |s| - k
  {
    if k == |s| || !IsBlank(space, s[k]) then k else SkipLeading(s, space, k + 1)
  }

  /** Where `rstrip()` cuts `s[lo..end]`: the end of what is left once its
      trailing white space of kind `space` is dropped. */
  function SkipTrailing(s: string, space: Whitespace, lo: nat, end: nat): (j: nat)
    requires lo <= end <= |s|
    ensures lo <= j <= end
    ensures forall m :: j <= m < end ==> IsBlank(space, s[m])
    ensures j == lo || !IsBlank(space, s[j - 1])
    decreases end - lo
  {
    if end == lo || !IsBlank(space, s[end - 1]) then end else SkipTrailing(s, space, lo, end - 1)
  }

  /** `s.strip()` for white space of kind `space`: `lstrip()`, then `rstrip()`
      of what is left. */
  function Trim(s: string, space: Whitespace): string {
    var i := SkipLeading(s, space, 0);
    s[i..SkipTrailing(s, space, i, |s|)]
  }

  /** White space around a string that neither starts nor ends with white
      space: the trim gives back exactly that string. */
  lemma TrimPadded(pre: string, t: string, post: string, space: Whitespace)
    requires AllSpace(pre, space) && AllSpace(post, space)
    requires t != [] && !IsBlank(space, t[0]) && !IsBlank(space, t[|t| - 1])
    ensures Trim(pre + t + post, space) == t
  {
    var s := pre + t + post;
    var i := SkipLeading(s, space, 0);
    assert s[|pre|] == t[0];
    forall m | 0 <= m < |pre|
      ensures IsBlank(space, s[m])
    {
      assert s[m] == pre[m];
    }
    assert i == |pre|;
    var j := SkipTrailing(s, space, i, |s|);
    assert s[|pre| + |t| - 1] == t[|t| - 1];
    forall m | |pre| + |t| <= m < |s|
      ensures IsBlank(space, s[m])
    {
      assert s[m] == post[m - |pre| - |t|];
    }
    assert j == |pre| + |t|;
    assert s[i..j] == t;
  }

  /** The trim leaves nothing exactly when `s` has no visible character. */
  lemma TrimmedEmptyIffBlank(s: string)
    ensures Trim(s, StripSpace) == [] <==> !HasVisible(s)
  {
    var i := SkipLeading(s, StripSpace, 0);
    var j := SkipTrailing(s, StripSpace, i, |s|);
    if HasVisible(s) {
      var k :| 0 <= k < |s| && !IsSpace(s[k]);
      assert !IsBlank(StripSpace, s[k]);
      assert i < |s| && !IsBlank(StripSpace, s[i]);
    }
    if i < j {
      assert !IsBlank(StripSpace, s[i]);
    }
  }

  /** `s.strip()`: empty exactly when `s` is blank. */
  function Strip(s: string): (r: string)
    ensures r == [] <==> !HasVisible(s)
  {
    TrimmedEmptyIffBlank(s);
    Trim(s, StripSpace)
  }

  /** Python truthiness of `s.strip()`: the field is filled in. */
  function Filled(s: string): (b: bool)
    ensures b <==> HasVisible(s)
  {
    Strip(s) != []
  }

  /** ASCII `str.lower()` on one character. */
  function LowerChar(c: char): char {
    if 'A' <= c <= 'Z' then (c as int + 32) as char else c
  }

  /** ASCII `str.lower()`. */
  function Lower(s: string): (r: string)
    ensures |r| == |s|
    ensures forall i :: 0 <= i < |s| ==> r[i] == LowerChar(s[i])
  {
    if s == [] then [] else [LowerChar(s[0])] + Lower(s[1..])
  }

  /** `t` occurs in `s` starting at position `i`. */
  ghost predicate OccursAt(s: string, t: string, i: int) {
    0 <= i && i + |t| <= |s| && s[i..i + |t|] == t
  }

  /** Python's `t in s` for strings, scanning start positions left to right. */
  function Contains(s: string, t: string): (b: bool)
    decreases |s|
  {
    t <= s || (|s| > 0 && Contains(s[1..], t))
  }

  /** A slice of the tail is the slice of `s` one position further on. */
  lemma TailSlice(s: string, i: nat, n: nat)
    requires i + n < |s|
    ensures s[1..][i..i + n] == s[i + 1..i + 1 + n]
  {
  }

  /** The scan agrees with the substring definition. */
  lemma {:induction false} ContainsIffOccurs(s: string, t: string)
    ensures Contains(s, t) <==> exists i :: OccursAt(s, t, i)
    decreases |s|
  {
    if t <= s {
      assert OccursAt(s, t, 0);
    } else if |s| == 0 {
      assert |t| > 0;
    } else {
      ContainsIffOccurs(s[1..], t);
      if exists i :: OccursAt(s[1..], t, i) {
        var i :| OccursAt(s[1..], t, i);
        TailSlice(s, i, |t|);
        assert OccursAt(s, t, i + 1);
      }
      assert !OccursAt(s, t, 0);
      if exists i :: OccursAt(s, t, i) {
        var i :| OccursAt(s, t, i);
        TailSlice(s, i - 1, |t|);
        assert OccursAt(s[1..], t, i - 1);
      }
    }
  }

  predicate IsDigit(c: char) {
    '0' <= c <= '9'
  }

  predicate AllDigits(s: string) {
    forall i :: 0 <= i < |s| ==> IsDigit(s[i])
  }

  function DigitValue(c: char): nat
    requires IsDigit(c)
  {
    c as int - '0' as int
  }

  function DigitChar(d: nat): (c: char)
    requires d < 10
    ensures IsDigit(c) && DigitValue(c) == d
  {
    (d + '0' as int) as char
  }

  /** The value of a string of decimal digits, most significant first. */
  function DigitsValue(s: string): nat
    requires AllDigits(s)
  {
    if s == [] then 0 else 10 * DigitsValue(s[..|s| - 1]) + DigitValue(s[|s| - 1])
  }

  /** A numeral as `int(...)` reads it: an optional sign, then one or more
      decimal digits. */
  predicate Numeral(t: string) {
    if |t| > 0 && (t[0] == '-' || t[0] == '+') then |t| > 1 && AllDigits(t[1..])
    else |t| > 0 && AllDigits(t)
  }

  /** The value of a numeral. */
  function NumeralValue(t: string): int
    requires Numeral(t)
  {
    if t[0] == '-' then -(DigitsValue(t[1..]) as int)
    else if t[0] == '+' then DigitsValue(t[1..])
    else DigitsValue(t)
  }

  /** A numeral starts and ends with a character that is not white space. */
  lemma NumeralEnds(t: string)
    requires Numeral(t)
    ensures !IntSpace(t[0]) && IsDigit(t[|t| - 1])
  {
    if t[0] == '-' || t[0] == '+' {
      assert t[|t| - 1] == t[1..][|t| - 2];
    }
  }

  /** Python's `int(s)` on a string: white space around a numeral; anything
      else raises, here `None`. */
  function ParseInt(s: string): (r: Option<int>)
    ensures r.Some? ==> exists i :: 0 <= i < |s| && IsDigit(s[i])
  {
    var t := Trim(s, NumeralSpace);
    if Numeral(t) then
      NumeralEnds(t);
      Some(NumeralValue(t))
    else
      None
  }

  /** A numeral padded with `int(...)` white space on both sides parses to its
      value. */
  lemma ParseIntPadded(pre: string, t: string, post: string)
    requires AllSpace(pre, NumeralSpace) && AllSpace(post, NumeralSpace) && Numeral(t)
    ensures ParseInt(pre + t + post) == Some(NumeralValue(t))
  {
    NumeralEnds(t);
    TrimPadded(pre, t, post, NumeralSpace);
  }

  /** Whatever parses is a numeral padded with `int(...)` white space, and the
      result is that numeral's value. With `ParseIntPadded` this is the whole
      grammar: nothing else parses. */
  lemma ParseIntShape(s: string)
    requires ParseInt(s).Some?
    ensures exists i, j :: 0 <= i <= j <= |s| && AllSpace(s[..i], NumeralSpace) && AllSpace(s[j..], NumeralSpace)
              && Numeral(s[i..j]) && ParseInt(s) == Some(NumeralValue(s[i..j]))
  {
    var i := SkipLeading(s, NumeralSpace, 0);
    var j := SkipTrailing(s, NumeralSpace, i, |s|);
    forall m | 0 <= m < i
      ensures IsBlank(NumeralSpace, s[..i][m])
    {
      assert s[..i][m] == s[m];
    }
    forall m | 0 <= m < |s| - j
      ensures IsBlank(NumeralSpace, s[j..][m])
    {
      assert s[j..][m] == s[j + m];
    }
  }

  /** A bare numeral parses to its value. */
  lemma ParseNumeral(t: string)
    requires Numeral(t)
    ensures ParseInt(t) == Some(NumeralValue(t))
  {
    assert [] + t + [] == t;
    ParseIntPadded([], t, []);
  }

  /** The decimal digits of `n`, as Python's `str(n)` writes them: no sign and
      no leading zero. */
  function NatDigits(n: nat): (r: string)
    ensures r != [] && AllDigits(r) && DigitsValue(r) == n
    ensures r[0] == '0' <==> n == 0
    ensures n == 0 ==> r == "0"
    decreases n
  {
    if n < 10 then
      [DigitChar(n)]
    else
      var front := NatDigits(n / 10);
      var r := front + [DigitChar(n % 10)];
      assert r[..|r| - 1] == front;
      r
  }

  /** Python's `str(n)` for an integer: a minus sign exactly for negative `n`,
      and reading it back with `int(...)` gives `n`. */
  function Show(n: int): (r: string)
    ensures r != [] && (r[0] == '-' <==> n < 0)
    ensures n >= 0 ==> AllDigits(r) && (r[0] == '0' <==> n == 0)
    ensures n < 0 ==> |r| > 1 && AllDigits(r[1..]) && r[1] != '0'
    ensures ParseInt(r) == Some(n)
  {
    if n < 0 then
      var digits := NatDigits(-n);
      var r := "-" + digits;
      assert r[1..] == digits;
      ParseNumeral(r);
      r
    else
      var digits := NatDigits(n);
      ParseNumeral(digits);
      digits
  }
}
