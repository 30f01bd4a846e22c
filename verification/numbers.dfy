/** Python's `str()` of an integer and the integer spellings `float()`
    accepts. The engine's numeric comparators are modelled over `int`. */
module Numbers {
  import opened Results
  import opened Text

  predicate IsDigit(c: char) {
    '0' <= c <= '9'
  }

  predicate AllDigits(s: string) {
    forall i | 0 <= i < |s| :: IsDigit(s[i])
  }

  function DigitChar(d: nat): (c: char)
    requires d < 10
    ensures IsDigit(c)
  {
    ('0' as int + d) as char
  }

  /** The value of a run of decimal digits, most significant first. */
  function DigitsValue(s: string): nat
    requires AllDigits(s)
  {
    if |s| == 0 then 0
    else DigitsValue(s[..|s| - 1]) * 10 + (s[|s| - 1] as int - '0' as int)
  }

  /** The decimal spelling of a natural number, without leading zeros. */
  function NatText(n: nat): (s: string)
    ensures |s| > 0 && AllDigits(s)
  {
    if n < 10 then [DigitChar(n)] else NatText(n / 10) + [DigitChar(n % 10)]
  }

  /** Python's `str(n)` for an `int`. */
  function DecimalText(n: int): (s: string)
    ensures IsField(s)
  {
    if n < 0 then "-" + NatText(-n) else NatText(n)
  }

  /** One field `float()` accepts as a whole number: an optional sign
      followed by at least one ASCII digit. */
  function ParseInteger(w: string): Option<int> {
    if |w| > 1 && (w[0] == '-' || w[0] == '+') && AllDigits(w[1..]) then
      var v: int := DigitsValue(w[1..]);
      Some(if w[0] == '-' then -v else v)
    else if |w| > 0 && AllDigits(w) then
      Some(DigitsValue(w))
    else
      None
  }

  /** `float(s)` on integer spellings: surrounding whitespace is ignored, so
      the text must split into exactly one field, which must be an integer. */
  function ParseNumber(s: string): Option<int> {
    var fields := Split(s);
    if |fields| == 1 then ParseInteger(fields[0]) else None
  }

  lemma {:induction false} NatTextRoundTrip(n: nat)
    ensures DigitsValue(NatText(n)) == n
  {
    if n >= 10 {
      var s := NatText(n);
      assert s[..|s| - 1] == NatText(n / 10);
      NatTextRoundTrip(n / 10);
    }
  }

  /** Reading back what `str()` printed gives the same number. */
  lemma ParseDecimalText(n: int)
    ensures ParseNumber(DecimalText(n)) == Some(n)
  {
    var s := DecimalText(n);
    SplitFieldThen(s, []);
    assert s + [] == s;
    NatTextRoundTrip(if n < 0 then -n else n);
    if n < 0 {
      assert s[1..] == NatText(-n);
    } else {
      assert s[0] != '-' && s[0] != '+';
    }
  }

  /** Distinct numbers print differently. */
  lemma DecimalTextInjective(m: int, n: int)
    ensures DecimalText(m) == DecimalText(n) <==> m == n
  {
    ParseDecimalText(m);
    ParseDecimalText(n);
  }
}
