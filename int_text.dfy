/** The integer reading of one token (Shape._parse_int) and, as its inverse, the
    decimal text of an integer. */
module IntText {
  import opened Optional

  predicate IsDigit(c: char) {
    '0' <= c <= '9'
  }

  /** A non-empty run of ASCII decimal digits. */
  predicate IsDigits(s: string) {
    |s| > 0 && forall k :: 0 <= k < |s| ==> IsDigit(s[k])
  }

  function DigitChar(d: nat): (c: char)
    requires d < 10
    ensures IsDigit(c) && c as int - '0' as int == d
  {
    ('0' as int + d) as char
  }

  /** The value of a numeral, most significant digit first. */
  function DigitsValue(s: string): nat
    requires forall k :: 0 <= k < |s| ==> IsDigit(s[k])
  {
    if s == [] then 0
    else
      assert IsDigit(s[|s| - 1]);
      10 * DigitsValue(s[..|s| - 1]) + (s[|s| - 1] as int - '0' as int)
  }

  /** The integer numerals this model reads: ASCII decimal digits, optionally after one
      sign character. */
  predicate IsIntegerText(text: string) {
    IsDigits(text) || (|text| > 1 && (text[0] == '-' || text[0] == '+') && IsDigits(text[1..]))
  }

  /** Python's int(text) on one token: a numeral gives its value, negated after a '-';
      any other text gives None instead of an error. Python's cap on the number of
      digits is not modelled. */
  function ParseInt(text: string): (r: Option<int>)
    ensures r.Some? <==> IsIntegerText(text)
    ensures r.Some? && IsDigits(text) ==> r.value == DigitsValue(text)
    ensures r.Some? && !IsDigits(text) ==>
      r.value == if text[0] == '-' then 0 - DigitsValue(text[1..]) else DigitsValue(text[1..])
    ensures r.Some? && r.value < 0 ==> text[0] == '-'
  {
    if IsDigits(text) then Some(DigitsValue(text))
    else if |text| > 1 && (text[0] == '-' || text[0] == '+') && IsDigits(text[1..]) then
      var magnitude: int := DigitsValue(text[1..]);
      Some(if text[0] == '-' then -magnitude else magnitude)
    else None
  }

  /** The shortest decimal numeral of n. */
  function NatText(n: nat): (s: string)
    ensures IsDigits(s)
    ensures s[0] == '0' ==> n == 0
  {
    if n < 10 then [DigitChar(n)] else NatText(n / 10) + [DigitChar(n % 10)]
  }

  /** The text str(n) that Python prints for an integer. */
  function Decimal(n: int): string {
    if n < 0 then "-" + NatText(-n) else NatText(n)
  }

  lemma {:induction false} DigitsValueNatText(n: nat)
    ensures DigitsValue(NatText(n)) == n
  {
    var s := NatText(n);
    if n >= 10 {
      DigitsValueNatText(n / 10);
      assert s[..|s| - 1] == NatText(n / 10);
    } else {
      assert s[..|s| - 1] == [];
    }
  }

  /** A minus sign in front of a numeral. */
  lemma MinusSign(digits: string)
    ensures ("-" + digits)[0] == '-' && ("-" + digits)[1..] == digits
  {
  }

  /** Reading back the decimal text of any integer gives that integer. */
  lemma ParseIntDecimal(n: int)
    ensures ParseInt(Decimal(n)) == Some(n)
  {
    if n < 0 {
      MinusSign(NatText(-n));
      assert !IsDigit(Decimal(n)[0]);
      DigitsValueNatText(-n);
    } else {
      DigitsValueNatText(n);
    }
  }

  /** The decimal texts the shapes' test cases use. */
  lemma SmallDecimals()
    ensures Decimal(0) == "0" && Decimal(1) == "1" && Decimal(2) == "2" && Decimal(4) == "4"
  {
  }

  /** The keyword tokens of every shape are not integers. */
  lemma KeywordsAreNotIntegers()
    ensures ParseInt("TopRight") == None && ParseInt("BottomLeft") == None
    ensures ParseInt("Side") == None && ParseInt("Center") == None
    ensures ParseInt("Radius") == None
  {
    assert !IsDigit("TopRight"[0]) && !IsDigit("BottomLeft"[0]) && !IsDigit("Side"[0]);
    assert !IsDigit("Center"[0]) && !IsDigit("Radius"[0]);
  }
}
