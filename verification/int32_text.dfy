/** 32-bit integer arithmetic and text conversions of the .NET runtime that the
    system-attribute index allocation relies on: `int.TryParse` (default
    integer style: surrounding white space, one leading sign, decimal digits,
    Int32 range), `Int32.ToString()`, and unchecked `+ 1`. */
module Int32Text {
  import opened Common

  const Int32Min: int := -0x8000_0000
  const Int32Max: int := 0x7FFF_FFFF

  predicate IsInt32(n: int) {
    Int32Min <= n <= Int32Max
  }

  /** C#'s unchecked `n + 1` on an `int`: the Int32 congruent to n + 1 modulo 2^32. */
  function Int32Increment(n: int): (r: int)
    requires IsInt32(n)
    ensures IsInt32(r)
    ensures (r - (n + 1)) % 0x1_0000_0000 == 0
  {
    if n == Int32Max then Int32Min else n + 1
  }

  predicate IsDigit(c: char) {
    '0' <= c <= '9'
  }

  /** The white space `int.TryParse` skips around a number: U+0009 to U+000D and U+0020. */
  predicate IsWhite(c: char) {
    c == ' ' || ('\t' <= c <= '\r')
  }

  predicate AllDigits(s: string) {
    forall i :: 0 <= i < |s| ==> IsDigit(s[i])
  }

  function DigitValue(c: char): nat
    requires IsDigit(c)
  {
    (c as int) - ('0' as int)
  }

  function DigitChar(d: nat): (c: char)
    requires d < 10
    ensures IsDigit(c) && DigitValue(c) == d
  {
    (('0' as int) + d) as char
  }

  /** The value of a string of decimal digits, most significant first. */
  function DigitsValue(s: string): nat
    requires AllDigits(s)
  {
    if s == [] then 0 else DigitsValue(s[..|s| - 1]) * 10 + DigitValue(s[|s| - 1])
  }

  function TrimStart(s: string): (r: string)
    ensures |r| <= |s| && r == s[|s| - |r|..]
    ensures r != [] ==> !IsWhite(r[0])
  {
    if s != [] && IsWhite(s[0]) then TrimStart(s[1..]) else s
  }

  function TrimEnd(s: string): (r: string)
    ensures |r| <= |s| && r == s[..|r|]
    ensures r != [] ==> !IsWhite(r[|r| - 1])
  {
    if s != [] && IsWhite(s[|s| - 1]) then TrimEnd(s[..|s| - 1]) else s
  }

  /** `int.TryParse(s, out v)`: `Some(v)` on success, `None` when it returns false. */
  function ParseInt32(s: string): (r: Option<int>)
    ensures r.Some? ==> IsInt32(r.value)
  {
    ParseTrimmed(TrimEnd(TrimStart(s)))
  }

  /** An optional sign and at least one digit, with nothing around them. */
  function ParseTrimmed(t: string): (r: Option<int>)
    ensures r.Some? ==> IsInt32(r.value)
  {
    var negative := t != [] && t[0] == '-';
    var digits := if t != [] && (t[0] == '-' || t[0] == '+') then t[1..] else t;
    if digits == [] || !AllDigits(digits) then None
    else
      var magnitude: int := DigitsValue(digits);
      var v := if negative then -magnitude else magnitude;
      if IsInt32(v) then Some(v) else None
  }

  /** The decimal digits of a natural number, without leading zeros. */
  function NatDigits(n: nat): (s: string)
    ensures s != [] && AllDigits(s)
    ensures s[0] != '0' || n == 0
    decreases n
  {
    if n < 10 then [DigitChar(n)] else NatDigits(n / 10) + [DigitChar(n % 10)]
  }

  /** `Int32.ToString()`: a minus sign for negatives, then the digits. */
  function FormatInt(n: int): (s: string)
    ensures s != [] && !IsWhite(s[0]) && !IsWhite(s[|s| - 1])
    ensures s[0] == '-' <==> n < 0
  {
    if n < 0 then "-" + NatDigits(-n) else NatDigits(n)
  }

  lemma {:induction false} DigitsValueOfNatDigits(n: nat)
    ensures DigitsValue(NatDigits(n)) == n
    decreases n
  {
    var s := NatDigits(n);
    if n >= 10 {
      DigitsValueOfNatDigits(n / 10);
      assert s[..|s| - 1] == NatDigits(n / 10);
    }
  }

  lemma TrimsOfUntrimmed(s: string)
    requires s != [] && !IsWhite(s[0]) && !IsWhite(s[|s| - 1])
    ensures TrimEnd(TrimStart(s)) == s
  {
  }

  /** A run of digits alone parses as its value. */
  lemma ParseUnsignedDigits(d: string)
    requires d != [] && AllDigits(d) && d[0] != '-' && d[0] != '+' && IsInt32(DigitsValue(d))
    ensures ParseTrimmed(d) == Some(DigitsValue(d))
  {
  }

  /** A minus sign followed by a run of digits parses as the negated value. */
  lemma ParseNegatedDigits(d: string)
    requires d != [] && AllDigits(d) && IsInt32(0 - DigitsValue(d))
    ensures ParseTrimmed("-" + d) == Some(0 - DigitsValue(d))
  {
    assert ("-" + d)[1..] == d;
  }

  /** Reading back what `ToString` wrote gives the same Int32. */
  lemma {:induction false} ParseFormatRoundTrip(n: int)
    requires IsInt32(n)
    ensures ParseInt32(FormatInt(n)) == Some(n)
  {
    var s := FormatInt(n);
    TrimsOfUntrimmed(s);
    assert ParseInt32(s) == ParseTrimmed(s);
    if n < 0 {
      var d := NatDigits(-n);
      assert s == "-" + d;
      DigitsValueOfNatDigits(-n);
      ParseNegatedDigits(d);
    } else {
      var d := NatDigits(n);
      assert s == d;
      DigitsValueOfNatDigits(n);
      ParseUnsignedDigits(d);
    }
  }
}
