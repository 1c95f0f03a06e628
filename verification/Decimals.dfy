/** Decimal text of natural numbers. */
module Decimals {
  import opened Options

  function Digit(d: nat): (c: char)
    requires d < 10
    ensures '0' <= c <= '9'
  {
    '0' + d as char
  }

  function Decimal(n: nat): (text: string)
    ensures text != []
    ensures forall c | c in text :: '0' <= c <= '9'
  {
    if n < 10 then [Digit(n)] else Decimal(n / 10) + [Digit(n % 10)]
  }

  /** The value of a non-empty run of digits. */
  function DigitsValue(text: string): Option<nat> {
    if text == [] then None
    else
      var last := text[|text| - 1];
      if !('0' <= last <= '9') then None
      else if |text| == 1 then Some((last - '0') as nat)
      else
        var rest := DigitsValue(text[..|text| - 1]);
        if rest.None? then None else Some(10 * rest.value + (last - '0') as nat)
  }

  /** Parsing accepts one leading plus sign and leading zeros, and rejects overflow. */
  function Parse(text: string, max: nat): Option<nat> {
    var value := DigitsValue(if text != [] && text[0] == '+' then text[1..] else text);
    if value.Some? && value.value <= max then value else None
  }

  lemma {:induction false} DecimalHasItsValue(n: nat)
    ensures DigitsValue(Decimal(n)) == Some(n)
  {
    if n >= 10 {
      DecimalHasItsValue(n / 10);
      var text := Decimal(n);
      assert text[..|text| - 1] == Decimal(n / 10);
    }
  }

  lemma ParseDecimal(n: nat, max: nat)
    requires n <= max
    ensures Parse(Decimal(n), max) == Some(n)
  {
    DecimalHasItsValue(n);
    assert Decimal(n)[0] in Decimal(n);
  }

  lemma DecimalIsInjective(m: nat, n: nat)
    requires Decimal(m) == Decimal(n)
    ensures m == n
  {
    DecimalHasItsValue(m);
    DecimalHasItsValue(n);
  }

  /** Decimal text parses to its number exactly when that is within the width; a plus sign or a zero in front
      makes no difference. */
  lemma DecimalTextIsRead(n: nat, max: nat)
    ensures Parse(Decimal(n), max) == (if n <= max then Some(n) else None)
    ensures Parse("+" + Decimal(n), max) == Parse(Decimal(n), max) == Parse("0" + Decimal(n), max)
  {
    DecimalHasItsValue(n);
    LeadingZero(Decimal(n));
    assert Decimal(n)[0] in Decimal(n);
    assert ("+" + Decimal(n))[1..] == Decimal(n);
    hide Decimal, DigitsValue;
  }

  lemma {:induction false} LeadingZero(text: string)
    requires DigitsValue(text).Some?
    ensures DigitsValue("0" + text) == DigitsValue(text)
  {
    var n := |text| - 1;
    assert ("0" + text)[..n + 1] == "0" + text[..n];
    if n > 0 {
      LeadingZero(text[..n]);
    } else {
      assert "0" + text[..n] == "0";
    }
  }

  /** Only digits parse, after at most one plus sign. */
  lemma {:induction false} OnlyDigitsHaveAValue(text: string)
    ensures DigitsValue(text).Some? <==> text != "" && forall c | c in text :: '0' <= c <= '9'
  {
    if |text| > 1 {
      var n := |text| - 1;
      OnlyDigitsHaveAValue(text[..n]);
      assert text[n] in text && forall c :: c in text <==> c in text[..n] || c == text[n];
    } else if |text| == 1 {
      assert text[0] in text && forall c :: c in text <==> c == text[0];
    }
  }
}
