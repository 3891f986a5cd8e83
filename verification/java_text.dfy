/**
  The handful of java.lang text conversions the programs lean on:
  `Integer.toString`, `Integer.parseInt`, `String.trim` and the `%02d`
  conversion of `String.format`. Strings are sequences of chars; only the
  ASCII digits '0'..'9' are treated as digits.
 */
module JavaText {
  import opened Wrappers

  const IntMin: int := -0x8000_0000
  const IntMax: int := 0x7fff_ffff

  /** The range of a Java `int`. */
  predicate IsInt32(n: int) {
    IntMin <= n <= IntMax
  }

  predicate IsDigit(ch: char) {
    '0' <= ch <= '9'
  }

  function DigitValue(ch: char): (d: nat)
    requires IsDigit(ch)
    ensures d < 10
  {
    (ch as int - '0' as int) as nat
  }

  function DigitChar(d: nat): (ch: char)
    requires d < 10
    ensures IsDigit(ch) && DigitValue(ch) == d
  {
    ('0' as int + d) as char
  }

  predicate AllDigits(s: string) {
    forall i :: 0 <= i < |s| ==> IsDigit(s[i])
  }

  /** The value of a run of decimal digits, most significant digit first. */
  function DigitsValue(s: string): nat
    requires AllDigits(s)
    decreases |s|
  {
    if |s| == 0 then 0 else DigitsValue(s[..|s| - 1]) * 10 + DigitValue(s[|s| - 1])
  }

  /** Decimal rendering of a natural number, without leading zeros. */
  function NatToString(n: nat): (s: string)
    ensures 0 < |s| && AllDigits(s)
    ensures DigitsValue(s) == n
    ensures n < 10 <==> |s| == 1
    decreases n
  {
    if n < 10 then [DigitChar(n)]
    else
      var front := NatToString(n / 10);
      var s := front + [DigitChar(n % 10)];
      assert s[..|s| - 1] == front;
      s
  }

  /** `Integer.toString(n)` / `String.valueOf(n)`. */
  function IntToString(n: int): (s: string)
    ensures 0 < |s|
    ensures n >= 0 ==> AllDigits(s) && DigitsValue(s) == n
    ensures n < 0 ==> s[0] == '-' && AllDigits(s[1..]) && DigitsValue(s[1..]) == -n
  {
    if n < 0 then
      var s := "-" + NatToString(-n);
      assert s[1..] == NatToString(-n);
      s
    else NatToString(n)
  }

  /**
    `Integer.parseInt(s)`: an optional '-' or '+' sign followed by at least
    one digit, whose value must fit in an `int`; anything else is a
    NumberFormatException, modelled as None.
   */
  function ParseInt(s: string): (r: Option<int>)
    ensures r.Some? ==> 0 < |s| && IsInt32(r.value)
    ensures r.Some? && AllDigits(s) ==> r.value == DigitsValue(s)
  {
    if |s| == 0 then None
    else if s[0] == '-' || s[0] == '+' then
      if |s| == 1 || !AllDigits(s[1..]) then None
      else
        var magnitude := DigitsValue(s[1..]);
        var v: int := if s[0] == '-' then 0 - magnitude else magnitude;
        if IsInt32(v) then Some(v) else None
    else if !AllDigits(s) then None
    else
      var v := DigitsValue(s);
      if IsInt32(v) then Some(v) else None
  }

  /** Parsing the text `Integer.toString` produces gives the number back. */
  lemma ParseIntToString(n: int)
    requires IsInt32(n)
    ensures ParseInt(IntToString(n)) == Some(n)
  {
    var s := IntToString(n);
    if n < 0 {
      assert s[0] == '-';
    } else {
      assert IsDigit(s[0]);
    }
  }

  /** Characters `String.trim` removes: every char up to and including ' '. */
  predicate IsBlank(ch: char) {
    ch <= ' '
  }

  function TrimStart(s: string): (r: string)
    ensures |r| <= |s| && r == s[|s| - |r|..]
    ensures forall k :: 0 <= k < |s| - |r| ==> IsBlank(s[k])
    ensures 0 < |r| ==> !IsBlank(r[0])
    decreases |s|
  {
    if 0 < |s| && IsBlank(s[0]) then TrimStart(s[1..]) else s
  }

  function TrimEnd(s: string): (r: string)
    ensures |r| <= |s| && r == s[..|r|]
    ensures forall k :: |r| <= k < |s| ==> IsBlank(s[k])
    ensures 0 < |r| ==> !IsBlank(r[|r| - 1])
    decreases |s|
  {
    if 0 < |s| && IsBlank(s[|s| - 1]) then TrimEnd(s[..|s| - 1]) else s
  }

  /** `String.trim()`: the text with its blank characters cut from both ends, and nothing else. */
  function Trim(s: string): (r: string)
    ensures |r| == 0 <==> forall k :: 0 <= k < |s| ==> IsBlank(s[k])
    ensures 0 < |r| ==> !IsBlank(r[0]) && !IsBlank(r[|r| - 1])
    ensures (|s| == 0 || (!IsBlank(s[0]) && !IsBlank(s[|s| - 1]))) ==> r == s
    ensures exists a, b :: TrimCut(s, r, a, b)
  {
    var t := TrimStart(s);
    var r := TrimEnd(t);
    TrimEndCut(s, t, r);
    r
  }

  /** `r` is `s[a..b]` and everything cut off at either end is blank. */
  predicate TrimCut(s: string, r: string, a: int, b: int) {
    0 <= a <= b <= |s| && r == s[a..b] &&
    (forall k :: 0 <= k < a ==> IsBlank(s[k])) && (forall k :: b <= k < |s| ==> IsBlank(s[k]))
  }

  /** Cutting blanks from the front and then from the back keeps a middle slice. */
  lemma TrimEndCut(s: string, t: string, r: string)
    requires |t| <= |s| && t == s[|s| - |t|..] && forall k :: 0 <= k < |s| - |t| ==> IsBlank(s[k])
    requires |r| <= |t| && r == t[..|r|] && forall k :: |r| <= k < |t| ==> IsBlank(t[k])
    ensures TrimCut(s, r, |s| - |t|, |s| - |t| + |r|)
  {
    var a := |s| - |t|;
    forall k | a + |r| <= k < |s| ensures IsBlank(s[k]) {
      assert s[k] == t[k - a];
    }
  }

  /** The `%02d` conversion: at least two characters, zero-padded after any sign. */
  function Pad2(n: int): (s: string)
    ensures 0 <= n ==> 2 <= |s| && AllDigits(s) && DigitsValue(s) == n
    ensures 0 <= n < 100 ==> |s| == 2
  {
    if 0 <= n < 10 then "0" + NatToString(n) else IntToString(n)
  }
}
