/** Character-level behaviour of the JavaScript built-ins the pages rely on:
    the whitespace that `String.prototype.trim` strips, the decimal rendering of
    `Number.prototype.toString` and `String.prototype.padStart`, and the reading of
    an "HH:MM" string with `split(':').map(Number)`. */
module Text {

  datatype Option<+T> = None | Some(value: T)

  /** ECMAScript WhiteSpace and LineTerminator code points: exactly what `trim` removes. */
  predicate IsJsWhitespace(c: char) {
    || c == '\t' || c == '\n' || c == '\U{000B}' || c == '\U{000C}' || c == '\r' || c == ' '
    || c == '\U{00A0}' || c == '\U{1680}' || ('\U{2000}' <= c <= '\U{200A}')
    || c == '\U{2028}' || c == '\U{2029}' || c == '\U{202F}' || c == '\U{205F}'
    || c == '\U{3000}' || c == '\U{FEFF}'
  }

  /** Every character of `s` is whitespace (the empty string included). */
  predicate IsBlank(s: string) {
    forall i :: 0 <= i < |s| ==> IsJsWhitespace(s[i])
  }

  /** `s` with its leading whitespace removed. */
  function TrimStart(s: string): string {
    if s != [] && IsJsWhitespace(s[0]) then TrimStart(s[1..]) else s
  }

  /** `s` with its trailing whitespace removed. */
  function TrimEnd(s: string): string {
    if s != [] && IsJsWhitespace(s[|s| - 1]) then TrimEnd(s[..|s| - 1]) else s
  }

  /** `TrimStart` removes a whitespace prefix, and exactly all of it. */
  lemma {:induction false} TrimStartRemovesLeading(s: string)
    ensures var r := TrimStart(s);
      && |r| <= |s| && r == s[|s| - |r|..]
      && (forall i :: 0 <= i < |s| - |r| ==> IsJsWhitespace(s[i]))
      && (r != [] ==> !IsJsWhitespace(r[0]))
  {
    if s != [] && IsJsWhitespace(s[0]) {
      TrimStartRemovesLeading(s[1..]);
    }
  }

  /** `TrimEnd` removes a whitespace suffix, and exactly all of it. */
  lemma {:induction false} TrimEndRemovesTrailing(s: string)
    ensures var r := TrimEnd(s);
      && |r| <= |s| && r == s[..|r|]
      && (forall i :: |r| <= i < |s| ==> IsJsWhitespace(s[i]))
      && (r != [] ==> !IsJsWhitespace(r[|r| - 1]))
  {
    if s != [] && IsJsWhitespace(s[|s| - 1]) {
      TrimEndRemovesTrailing(s[..|s| - 1]);
    }
  }

  /** `String.prototype.trim`: no longer than `s`, and a non-empty result neither
      starts nor ends with whitespace. */
  function Trim(s: string): (r: string)
    ensures |r| <= |s|
    ensures r != [] ==> !IsJsWhitespace(r[0]) && !IsJsWhitespace(r[|r| - 1])
  {
    TrimStartRemovesLeading(s);
    TrimEndRemovesTrailing(TrimStart(s));
    TrimEnd(TrimStart(s))
  }

  /** The pages reject a title or subject when `!x.trim()`, that is when trimming
      leaves the empty string: exactly the blank strings. */
  lemma TrimEmptyIffBlank(s: string)
    ensures Trim(s) == [] <==> IsBlank(s)
  {
    var t := TrimStart(s);
    TrimStartRemovesLeading(s);
    TrimEndRemovesTrailing(t);
    if !IsBlank(s) {
      var k :| 0 <= k < |s| && !IsJsWhitespace(s[k]);
      assert t[k - (|s| - |t|)] == s[k];
    }
  }

  predicate IsDigit(c: char) {
    '0' <= c <= '9'
  }

  predicate AllDigits(s: string) {
    forall i :: 0 <= i < |s| ==> IsDigit(s[i])
  }

  function DigitValue(c: char): (d: nat)
    requires IsDigit(c)
    ensures d < 10
  {
    c as int - '0' as int
  }

  function DigitChar(d: nat): (c: char)
    requires d < 10
    ensures IsDigit(c) && DigitValue(c) == d
  {
    ('0' as int + d) as char
  }

  /** `n.toString()` for a non-negative integer: its decimal digits, no leading zero. */
  function Decimal(n: nat): (r: string)
    ensures 1 <= |r| && AllDigits(r)
    ensures n < 10 ==> |r| == 1
    ensures n < 100 ==> |r| <= 2
    ensures 10 <= n ==> r[0] != '0'
  {
    if n < 10 then [DigitChar(n)] else Decimal(n / 10) + [DigitChar(n % 10)]
  }

  /** The number a string of decimal digits denotes; as with `Number("")`, the
      empty string denotes 0 and leading zeros are ignored. */
  function DigitsValue(s: string): nat
    requires AllDigits(s)
  {
    if s == [] then 0 else DigitsValue(s[..|s| - 1]) * 10 + DigitValue(s[|s| - 1])
  }

  /** Reading back the decimal rendering of `n` gives `n`. */
  lemma {:induction false} DecimalRoundTrip(n: nat)
    ensures DigitsValue(Decimal(n)) == n
  {
    if n >= 10 {
      var s := Decimal(n);
      assert s[..|s| - 1] == Decimal(n / 10);
      DecimalRoundTrip(n / 10);
    }
  }

  function Repeat(c: char, k: nat): (r: string)
    ensures |r| == k && forall i :: 0 <= i < k ==> r[i] == c
  {
    if k == 0 then [] else [c] + Repeat(c, k - 1)
  }

  /** `s.padStart(width, fill)` for a one-character `fill`. */
  function PadStart(s: string, width: nat, fill: char): (r: string)
    ensures |r| == if |s| < width then width else |s|
    ensures r[|r| - |s|..] == s
    ensures forall i :: 0 <= i < |r| - |s| ==> r[i] == fill
  {
    if |s| < width then Repeat(fill, width - |s|) + s else s
  }

  /** Leading zeros do not change the value of a digit string. */
  lemma {:induction false} LeadingZeros(k: nat, s: string)
    requires AllDigits(s)
    ensures AllDigits(Repeat('0', k) + s)
    ensures DigitsValue(Repeat('0', k) + s) == DigitsValue(s)
  {
    var z := Repeat('0', k) + s;
    if s == [] {
      assert z == Repeat('0', k);
      if k > 0 {
        assert z[..|z| - 1] == Repeat('0', k - 1) + [];
        LeadingZeros(k - 1, []);
      }
    } else {
      assert z[..|z| - 1] == Repeat('0', k) + s[..|s| - 1];
      LeadingZeros(k, s[..|s| - 1]);
    }
  }

  /** Zero-padding a digit string keeps its value. */
  lemma PadStartValue(s: string, width: nat)
    requires AllDigits(s)
    ensures AllDigits(PadStart(s, width, '0'))
    ensures DigitsValue(PadStart(s, width, '0')) == DigitsValue(s)
  {
    if |s| < width {
      LeadingZeros(width - |s|, s);
    }
  }

  /** Index of the first `c` in `s`, or |s| when there is none. */
  function FirstIndexOf(s: string, c: char): (i: nat)
    ensures i <= |s|
    ensures i < |s| ==> s[i] == c
    ensures forall j :: 0 <= j < i ==> s[j] != c
  {
    if s == [] || s[0] == c then 0 else 1 + FirstIndexOf(s[1..], c)
  }

  /** The first two fields of `t.split(':').map(Number)`, destructured as
      `[hours, minutes]`: a string without ':' has no second field and a field
      that is not a digit string is not a number; both give None (NaN). */
  function ParseClock(t: string): (r: Option<(nat, nat)>)
    ensures ':' !in t ==> r.None?
    ensures r.Some? ==> AllDigits(t[..FirstIndexOf(t, ':')])
  {
    var i := FirstIndexOf(t, ':');
    if i == |t| then None
    else
      var rest := t[i + 1..];
      var hours, minutes := t[..i], rest[..FirstIndexOf(rest, ':')];
      if AllDigits(hours) && AllDigits(minutes)
      then Some((DigitsValue(hours), DigitsValue(minutes)))
      else None
  }

  /** Two digit strings joined by ':' read back as their two values. */
  lemma ParseClockJoin(hours: string, minutes: string)
    requires AllDigits(hours) && AllDigits(minutes)
    ensures ParseClock(hours + ":" + minutes) == Some((DigitsValue(hours), DigitsValue(minutes)))
  {
    var t := hours + ":" + minutes;
    assert forall j :: 0 <= j < |hours| ==> t[j] == hours[j];
    assert t[|hours|] == ':';
    var i := FirstIndexOf(t, ':');
    assert i == |hours|;
    var rest := t[i + 1..];
    assert rest == minutes;
    var j := FirstIndexOf(rest, ':');
    assert j == |minutes|;
    assert t[..i] == hours;
    assert rest[..j] == minutes;
  }
}
