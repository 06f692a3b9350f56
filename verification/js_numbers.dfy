/** The two JavaScript string-to-number conversions `parsePages` uses: `Number(s)`
    (the whole text must be a numeral) and `Number.parseInt(s)` (the longest leading
    integer). Only integer-valued results are modelled. */
module JsNumbers {
  import opened Wrappers
  import opened Text

  /** A conversion's result: `NaN`, or an integer value. */
  datatype Num = NaN | Int(value: int)

  /** The value of a digit character in radix 36 (`0`-`9`, then `a`/`A` = 10 ...). */
  function DigitValue(c: char): Option<nat> {
    if '0' <= c <= '9' then Some(c as int - '0' as int)
    else if 'a' <= c <= 'z' then Some(c as int - 'a' as int + 10)
    else if 'A' <= c <= 'Z' then Some(c as int - 'A' as int + 10)
    else None
  }

  predicate IsDigit(c: char, radix: nat) {
    DigitValue(c).Some? && DigitValue(c).value < radix
  }

  predicate AllDigits(s: string, radix: nat) {
    forall i :: 0 <= i < |s| ==> IsDigit(s[i], radix)
  }

  /** The number a string of digits denotes, most significant digit first. */
  function DigitsValue(s: string, radix: nat): nat
    requires AllDigits(s, radix)
    decreases |s|
  {
    if |s| == 0 then 0
    else DigitsValue(s[..|s| - 1], radix) * radix + DigitValue(s[|s| - 1]).value
  }

  /** The length of the longest prefix of `s` made of digits of `radix`. */
  function DigitPrefixLen(s: string, radix: nat): (n: nat)
    ensures n <= |s|
    ensures AllDigits(s[..n], radix)
    ensures n < |s| ==> !IsDigit(s[n], radix)
    decreases |s|
  {
    if |s| > 0 && IsDigit(s[0], radix) then
      var n := 1 + DigitPrefixLen(s[1..], radix);
      assert forall i :: 1 <= i < n ==> s[..n][i] == s[1..][..n - 1][i - 1];
      n
    else 0
  }

  /** `0x`/`0X`, `0o`/`0O` or `0b`/`0B`: the radix a numeric-literal prefix selects. */
  function PrefixRadix(t: string): Option<nat> {
    if |t| < 2 || t[0] != '0' then None
    else if t[1] == 'x' || t[1] == 'X' then Some(16)
    else if t[1] == 'o' || t[1] == 'O' then Some(8)
    else if t[1] == 'b' || t[1] == 'B' then Some(2)
    else None
  }

  /** `Number(s)`: surrounding white space is ignored, the empty text is 0, and the rest
      must be a signed decimal integer or an unsigned `0x`/`0o`/`0b` integer. */
  function StringToNumber(s: string): Num {
    NumeralValue(Trim(s))
  }

  /** The value of a numeral with no surrounding white space. */
  function NumeralValue(t: string): Num {
    if |t| == 0 then Int(0)
    else if PrefixRadix(t).Some? then
      var body := t[2..];
      if |body| > 0 && AllDigits(body, PrefixRadix(t).value) then Int(DigitsValue(body, PrefixRadix(t).value))
      else NaN
    else
      var negative := t[0] == '-';
      var body := if t[0] == '-' || t[0] == '+' then t[1..] else t;
      if |body| > 0 && AllDigits(body, 10) then
        Int(if negative then 0 - DigitsValue(body, 10) else DigitsValue(body, 10))
      else NaN
  }

  /** What `Number.parseInt` reads after skipping leading white space: whether one
      `-` sign was seen, the radix (16 after a `0x`/`0X` prefix, else 10) and the text
      the digits are taken from, which is a suffix of the input. */
  datatype IntScan = IntScan(negative: bool, radix: nat, digits: string)

  function ScanInt(s: string): (sc: IntScan)
    ensures sc.radix == 10 || sc.radix == 16
    ensures |sc.digits| <= |s| && sc.digits == s[|s| - |sc.digits|..]
  {
    var t := TrimStart(s);
    var u := Unsigned(t);
    IntScan(|t| > 0 && t[0] == '-', if IsHex(u) then 16 else 10, if IsHex(u) then u[2..] else u)
  }

  /** The text after one leading sign, if there is one. */
  function Unsigned(t: string): (u: string)
    ensures |u| <= |t| && u == t[|t| - |u|..]
  {
    if |t| > 0 && (t[0] == '-' || t[0] == '+') then t[1..] else t
  }

  predicate IsHex(u: string) {
    |u| >= 2 && u[0] == '0' && (u[1] == 'x' || u[1] == 'X')
  }

  /** `Number.parseInt(s)` with no radix: leading white space and one sign are skipped,
      a `0x`/`0X` prefix selects hexadecimal, and the longest run of digits that follows
      is read; with no digit at all the result is NaN. */
  function ParseInt(s: string): (r: Num)
    ensures var sc := ScanInt(s);
      r.NaN? <==> |sc.digits| == 0 || !IsDigit(sc.digits[0], sc.radix)
    ensures var sc := ScanInt(s); var n := DigitPrefixLen(sc.digits, sc.radix);
      r.Int? ==> r.value == (if sc.negative then 0 - DigitsValue(sc.digits[..n], sc.radix)
                             else DigitsValue(sc.digits[..n], sc.radix))
  {
    ReadDigits(ScanInt(s))
  }

  /** `parseInt` yields a number only for text that contains a digit. */
  lemma ParseIntNeedsDigit(s: string)
    requires ParseInt(s).Int?
    ensures exists i :: 0 <= i < |s| && IsDigit(s[i], 16)
  {
    var sc := ScanInt(s);
    var i := |s| - |sc.digits|;
    assert sc.digits[0] == s[i];
  }

  /** The longest run of digits at the start of `sc.digits`, with its sign. */
  function ReadDigits(sc: IntScan): (r: Num)
    requires sc.radix == 10 || sc.radix == 16
    ensures r.NaN? <==> |sc.digits| == 0 || !IsDigit(sc.digits[0], sc.radix)
    ensures r.Int? ==> IsDigit(sc.digits[0], 16)
    ensures var n := DigitPrefixLen(sc.digits, sc.radix);
      r.Int? ==> r.value == (if sc.negative then 0 - DigitsValue(sc.digits[..n], sc.radix)
                             else DigitsValue(sc.digits[..n], sc.radix))
  {
    var n := DigitPrefixLen(sc.digits, sc.radix);
    if n == 0 then NaN
    else
      var v := DigitsValue(sc.digits[..n], sc.radix);
      Int(if sc.negative then 0 - v else v)
  }

  /** Text after the longest run of digits does not change what `parseInt` reads. */
  lemma ParseIntIgnoresTail(s: string, tail: string)
    requires ParseInt(s).Int?
    requires var sc := ScanInt(s); DigitPrefixLen(sc.digits, sc.radix) == |sc.digits|
    requires |tail| > 0 && !IsDigit(tail[0], 36)
    ensures ParseInt(s + tail) == ParseInt(s)
  {
    var sc := ScanInt(s);
    ScanIntAppend(s, tail);
    assert sc.digits[..|sc.digits|] == sc.digits;
    assert !IsDigit(tail[0], sc.radix);
    DigitPrefixAppend(sc.digits, tail, sc.radix);
    ReadDigitsAppend(sc, tail);
  }

  lemma ReadDigitsAppend(sc: IntScan, tail: string)
    requires sc.radix == 10 || sc.radix == 16
    requires DigitPrefixLen(sc.digits, sc.radix) == |sc.digits|
    requires DigitPrefixLen(sc.digits + tail, sc.radix) == |sc.digits|
    requires (sc.digits + tail)[..|sc.digits|] == sc.digits
    ensures ReadDigits(sc.(digits := sc.digits + tail)) == ReadDigits(sc)
  {
    assert sc.digits[..|sc.digits|] == sc.digits;
  }

  /** Appending text that starts with neither a digit nor a letter only extends the
      text the digits are read from. */
  lemma ScanIntAppend(s: string, tail: string)
    requires |ScanInt(s).digits| > 0
    requires |tail| > 0 && !IsDigit(tail[0], 36)
    ensures ScanInt(s + tail) == ScanInt(s).(digits := ScanInt(s).digits + tail)
  {
    var t := TrimStart(s);
    TrimStartAppend(s, tail);
    UnsignedAppend(t, tail);
    var u := Unsigned(t);
    assert tail[0] != 'x' && tail[0] != 'X' by {
      assert IsDigit('x', 36) && IsDigit('X', 36);
    }
    HexAppend(u, tail);
  }

  lemma UnsignedAppend(t: string, tail: string)
    requires |t| > 0
    ensures Unsigned(t + tail) == Unsigned(t) + tail
    ensures (t + tail)[0] == t[0]
  {
    if t[0] == '-' || t[0] == '+' {
      DropAppend(t, tail, 1);
    }
  }

  lemma HexAppend(u: string, tail: string)
    requires |u| > 0 && |tail| > 0 && tail[0] != 'x' && tail[0] != 'X'
    ensures IsHex(u + tail) == IsHex(u)
    ensures IsHex(u) ==> (u + tail)[2..] == u[2..] + tail
  {
    if |u| == 1 {
      assert (u + tail)[1] == tail[0];
    } else {
      assert (u + tail)[1] == u[1];
    }
    if IsHex(u) {
      DropAppend(u, tail, 2);
    }
  }

  lemma DropAppend(a: string, b: string, k: nat)
    requires k <= |a|
    ensures (a + b)[k..] == a[k..] + b
  {
  }

  /** A run of digits stays the longest one when a non-digit follows it. */
  lemma {:induction false} DigitPrefixAppend(d: string, tail: string, radix: nat)
    requires AllDigits(d, radix)
    requires |tail| > 0 && !IsDigit(tail[0], radix)
    ensures DigitPrefixLen(d + tail, radix) == |d|
    ensures (d + tail)[..|d|] == d
    decreases |d|
  {
    var s := d + tail;
    assert s[..|d|] == d;
    if |d| > 0 {
      assert s[1..] == d[1..] + tail;
      assert AllDigits(d[1..], radix) by {
        forall i | 0 <= i < |d| - 1
          ensures IsDigit(d[1..][i], radix)
        {
          assert d[1..][i] == d[i + 1];
        }
      }
      DigitPrefixAppend(d[1..], tail, radix);
    }
  }

  lemma {:induction false} DigitsOfNat(n: nat)
    ensures AllDigits(NatToString(n), 10)
    ensures DigitsValue(NatToString(n), 10) == n
  {
    var s := NatToString(n);
    if n >= 10 {
      DigitsOfNat(n / 10);
      assert s[..|s| - 1] == NatToString(n / 10);
    }
  }

  lemma AllDigitsPrefix(s: string, radix: nat)
    requires AllDigits(s, radix)
    ensures DigitPrefixLen(s, radix) == |s|
  {
  }

  /** Reading back the decimal text of a natural number with `parseInt` gives the number. */
  lemma ParseIntNatToString(n: nat)
    ensures ParseInt(NatToString(n)) == Int(n)
  {
    var s := NatToString(n);
    DigitsOfNat(n);
    NatToStringTrimmed(n);
    assert !(s[0] == '-' || s[0] == '+');
    assert |s| >= 2 ==> s[0] != '0';
    AllDigitsPrefix(s, 10);
    assert s[..|s|] == s;
  }

  lemma NatToStringTrimmed(n: nat)
    ensures TrimStart(NatToString(n)) == NatToString(n)
    ensures Trim(NatToString(n)) == NatToString(n)
  {
    var s := NatToString(n);
    assert '0' <= s[0] <= '9';
    assert '0' <= s[|s| - 1] <= '9';
    assert !IsWhitespace(s[|s| - 1]);
  }

  lemma NumeralOfNat(n: nat)
    ensures NumeralValue(NatToString(n)) == Int(n)
  {
    var s := NatToString(n);
    DigitsOfNat(n);
    assert |s| >= 2 ==> s[0] != '0';
    assert PrefixRadix(s).None?;
    assert !(s[0] == '-' || s[0] == '+');
  }

  /** Reading back the decimal text of a natural number with `Number` gives the number. */
  lemma NumberNatToString(n: nat)
    ensures StringToNumber(NatToString(n)) == Int(n)
  {
    NatToStringTrimmed(n);
    NumeralOfNat(n);
  }
}
