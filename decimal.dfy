/** Base-10 rendering and parsing of 64-bit signed integers: the `%d` verb of
    fmt.Sprintf and strconv.ParseInt(s, 10, 64), which object/object.go and
    evaluator/builtins.go rely on. */
module Decimal {

  const MIN_INT64: int := -0x8000_0000_0000_0000
  const MAX_INT64: int := 0x7FFF_FFFF_FFFF_FFFF

  /** The source's int64. */
  newtype int64 = x: int | -0x8000_0000_0000_0000 <= x <= 0x7FFF_FFFF_FFFF_FFFF

  /** Go's two's-complement conversion of an integer to int64 (wrap-around). */
  function Wrap64(x: int): (r: int64)
    ensures MIN_INT64 <= x <= MAX_INT64 ==> r as int == x
    ensures (r as int - x) % 0x1_0000_0000_0000_0000 == 0
  {
    ((x - MIN_INT64) % 0x1_0000_0000_0000_0000 + MIN_INT64) as int64
  }

  predicate IsDigit(c: char) {
    '0' <= c <= '9'
  }

  predicate AllDigits(s: string) {
    forall i :: 0 <= i < |s| ==> IsDigit(s[i])
  }

  function DigitChar(d: nat): (c: char)
    requires d < 10
    ensures IsDigit(c)
  {
    "0123456789"[d]
  }

  function DigitValue(c: char): (d: nat)
    requires IsDigit(c)
    ensures d < 10
  {
    (c as int - '0' as int)
  }

  /** The digits of a natural number, most significant first. */
  function Digits(n: nat): string
    decreases n
  {
    if n < 10 then [DigitChar(n)] else Digits(n / 10) + [DigitChar(n % 10)]
  }

  /** The value of a string of digits, read as base 10. */
  function DigitsValue(s: string): nat
    requires AllDigits(s)
  {
    if s == [] then 0 else 10 * DigitsValue(s[..|s| - 1]) + DigitValue(s[|s| - 1])
  }

  /** `fmt.Sprintf("%d", n)`: an optional minus sign, then the digits of |n|. */
  function Render(n: int): (r: string)
    ensures |r| >= 1 && (r[0] == '-' <==> n < 0)
    ensures AllDigits(if n < 0 then r[1..] else r)
  {
    DigitsShape(if n < 0 then -n else n);
    if n < 0 then "-" + Digits(-n) else Digits(n)
  }

  /** The outcome of strconv.ParseInt: a value, or failure. Go tells a syntax
      error from a range error (and reports the range error first when an
      overflowing digit prefix precedes a bad character); the model does not
      tell them apart, as `int` treats every failure alike. */
  datatype ParseResult = Parsed(value: int64) | Failed

  /** strconv.ParseInt(s, 10, 64): succeeds when s is an optional '+' or '-',
      then at least one decimal digit and nothing else, and the value fits in
      64 bits. Leading
      zeros are accepted. Underscores are only accepted for base 0, so never here. */
  function ParseInt64(s: string): (r: ParseResult)
    ensures r.Parsed? ==> s != [] && AllDigits(if s[0] == '+' || s[0] == '-' then s[1..] else s)
    ensures r.Parsed? ==> r.value as int == (if s[0] == '-' then -1 else 1) * DigitsValue(if s[0] == '+' || s[0] == '-' then s[1..] else s)
    ensures s == [] || s == "+" || s == "-" ==> r == Failed
    ensures r.Parsed? <==>
      s != [] &&
      var body := if s[0] == '+' || s[0] == '-' then s[1..] else s;
      body != [] && AllDigits(body) &&
      MIN_INT64 <= (if s[0] == '-' then -1 else 1) * DigitsValue(body) <= MAX_INT64
  {
    if s == [] then Failed
    else
      var neg := s[0] == '-';
      var body := if s[0] == '+' || s[0] == '-' then s[1..] else s;
      if body == [] || !AllDigits(body) then Failed
      else
        var mag: int := DigitsValue(body);
        var v := if neg then -mag else mag;
        if MIN_INT64 <= v <= MAX_INT64 then Parsed(v as int64) else Failed
  }

  /** The digits of a number are digits, never empty, and start with '0' only for 0. */
  lemma {:induction false} DigitsShape(n: nat)
    ensures AllDigits(Digits(n))
    ensures |Digits(n)| >= 1
    ensures Digits(n)[0] == '0' <==> n == 0
    decreases n
  {
    if n >= 10 {
      DigitsShape(n / 10);
      assert Digits(n)[0] == Digits(n / 10)[0];
    }
  }

  /** Reading the digits of n back gives n. */
  lemma {:induction false} DigitsValueOfDigits(n: nat)
    ensures AllDigits(Digits(n))
    ensures DigitsValue(Digits(n)) == n
    decreases n
  {
    DigitsShape(n);
    if n >= 10 {
      var s := Digits(n);
      DigitsValueOfDigits(n / 10);
      assert s[..|s| - 1] == Digits(n / 10);
      assert s[|s| - 1] == DigitChar(n % 10);
    }
  }

  /** The rendering has a leading '-' exactly when the value is negative, and
      a leading zero only when it is "0". */
  lemma RenderShape(n: int)
    ensures |Render(n)| >= 1
    ensures Render(n)[0] == '-' <==> n < 0
    ensures n == 0 <==> Render(n) == "0"
    ensures n != 0 ==> Render(n)[if n < 0 then 1 else 0] != '0'
    ensures AllDigits(if n < 0 then Render(n)[1..] else Render(n))
  {
    if n < 0 {
      DigitsShape(-n);
      assert Render(n)[1..] == Digits(-n);
    } else {
      DigitsShape(n);
      if n != 0 {
        assert Render(n)[0] != '0';
      }
    }
  }

  /** Parsing a rendered int64 gives the same value back. */
  lemma ParseRender(n: int64)
    ensures ParseInt64(Render(n as int)) == Parsed(n)
  {
    var m: nat := if n < 0 then -(n as int) else n as int;
    var s := Render(n as int);
    DigitsShape(m);
    DigitsValueOfDigits(m);
    var body := if s[0] == '+' || s[0] == '-' then s[1..] else s;
    if n < 0 {
      assert s == "-" + Digits(m) && s[0] == '-';
      assert body == Digits(m);
    } else {
      assert s == Digits(m);
      assert s[0] != '+' && s[0] != '-';
      assert body == Digits(m);
    }
    assert body != [] && AllDigits(body) && DigitsValue(body) == m;
  }
}
