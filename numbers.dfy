/** Decimal text and 32-bit integers: `int.TryParse` with the default integer style
    (leading and trailing white space, one optional sign, decimal digits, result in the
    range of `int`) and the decimal rendering of `int.ToString()`. */
module Numbers {
  import opened Wrappers

  const Int32Min: int := -0x8000_0000
  const Int32Max: int := 0x7FFF_FFFF

  /** The white space `NumberStyles.Integer` skips: U+0009..U+000D and U+0020. */
  predicate IsWhite(c: char) {
    c == ' ' || '\t' <= c <= '\r'
  }

  predicate IsDigit(c: char) {
    '0' <= c <= '9'
  }

  predicate AllDigits(s: string) {
    forall i :: 0 <= i < |s| ==> IsDigit(s[i])
  }

  function TrimStart(s: string): (r: string)
    ensures |r| <= |s| && r == s[|s| - |r|..]
    ensures r != [] ==> !IsWhite(r[0])
    decreases |s|
  {
    if |s| > 0 && IsWhite(s[0]) then TrimStart(s[1..]) else s
  }

  function TrimEnd(s: string): (r: string)
    ensures |r| <= |s| && r == s[..|r|]
    ensures r != [] ==> !IsWhite(r[|r| - 1])
    decreases |s|
  {
    if |s| > 0 && IsWhite(s[|s| - 1]) then TrimEnd(s[..|s| - 1]) else s
  }

  function DigitValue(c: char): nat
    requires IsDigit(c)
  {
    c as int - '0' as int
  }

  /** The value of a string of decimal digits, most significant first. */
  function DigitsValue(ds: string): nat
    requires AllDigits(ds)
    decreases |ds|
  {
    if ds == [] then 0 else DigitsValue(ds[..|ds| - 1]) * 10 + DigitValue(ds[|ds| - 1])
  }

  /** `int.TryParse(s, out n)`: `Some(n)` on success, `None` when it returns false. */
  function ParseInt(s: string): (r: Option<int>)
    ensures r.Some? ==> Int32Min <= r.value <= Int32Max
  {
    ParseSigned(TrimEnd(TrimStart(s)))
  }

  /** Parses one optional sign followed by at least one decimal digit. */
  function ParseSigned(t: string): (r: Option<int>)
    ensures r.Some? ==> Int32Min <= r.value <= Int32Max
  {
    if t == [] then None
    else
      var digits := if t[0] == '-' || t[0] == '+' then t[1..] else t;
      if digits == [] || !AllDigits(digits) then None
      else
        var v: int := if t[0] == '-' then -(DigitsValue(digits) as int) else DigitsValue(digits);
        if Int32Min <= v <= Int32Max then Some(v) else None
  }

  function DigitChar(d: nat): (c: char)
    requires d < 10
    ensures IsDigit(c) && DigitValue(c) == d
  {
    ('0' as int + d) as char
  }

  /** Decimal digits of `n`, most significant first, without leading zeros. */
  function FormatNat(n: nat): (s: string)
    ensures s != [] && AllDigits(s)
    decreases n
  {
    if n < 10 then [DigitChar(n)] else FormatNat(n / 10) + [DigitChar(n % 10)]
  }

  /** `n.ToString()` for an integer, with `-` before a negative value. */
  function FormatInt(n: int): (s: string)
    ensures s != [] && (s[0] == '-' <==> n < 0)
    ensures n >= 0 ==> AllDigits(s)
    ensures n < 0 ==> AllDigits(s[1..])
  {
    if n < 0 then "-" + FormatNat(-n) else FormatNat(n)
  }

  lemma {:induction false} DigitsValueOfFormatNat(n: nat)
    ensures DigitsValue(FormatNat(n)) == n
    decreases n
  {
    var s := FormatNat(n);
    if n >= 10 {
      DigitsValueOfFormatNat(n / 10);
      assert s[..|s| - 1] == FormatNat(n / 10);
    }
  }

  lemma TrimKeepsUnpadded(s: string)
    requires s != [] && !IsWhite(s[0]) && !IsWhite(s[|s| - 1])
    ensures TrimEnd(TrimStart(s)) == s
  {
  }

  lemma ParseSignedDigits(ds: string)
    requires ds != [] && AllDigits(ds)
    ensures ParseSigned(ds) == if DigitsValue(ds) <= Int32Max then Some(DigitsValue(ds) as int) else None
    ensures ParseSigned("-" + ds) == if DigitsValue(ds) <= -Int32Min then Some(-(DigitsValue(ds) as int)) else None
  {
    assert ("-" + ds)[1..] == ds;
  }

  /** Parsing the rendering of an integer gives it back when it fits in an `int`,
      and fails otherwise. */
  lemma {:induction false} ParseFormatRoundTrip(n: int)
    ensures ParseInt(FormatInt(n)) == if Int32Min <= n <= Int32Max then Some(n) else None
  {
    var m: nat := if n < 0 then -n else n;
    var ds := FormatNat(m);
    DigitsValueOfFormatNat(m);
    ParseSignedDigits(ds);
    assert IsDigit(ds[0]) && IsDigit(ds[|ds| - 1]);
    if n < 0 {
      var s := "-" + ds;
      assert s == FormatInt(n);
      assert s[|s| - 1] == ds[|ds| - 1];
      TrimKeepsUnpadded(s);
      assert ParseInt(s) == ParseSigned(s);
    } else {
      assert ds == FormatInt(n);
      TrimKeepsUnpadded(ds);
      assert ParseInt(ds) == ParseSigned(ds);
    }
  }
}
