/** Character classes and decimal digit strings, as the grammar and the
    ISO 8601 rendering see them (ASCII only). */
module Text {

  /** pyparsing's default whitespace, skipped before every grammar element. */
  predicate IsWhite(c: char) { c == ' ' || c == '\t' || c == '\n' || c == '\r' }

  predicate IsDigit(c: char) { '0' <= c <= '9' }
  predicate IsUpper(c: char) { 'A' <= c <= 'Z' }
  predicate IsLower(c: char) { 'a' <= c <= 'z' }
  predicate IsLetter(c: char) { IsUpper(c) || IsLower(c) }

  predicate AllDigits(s: string) { forall k :: 0 <= k < |s| ==> IsDigit(s[k]) }
  predicate AllWhite(s: string) { forall k :: 0 <= k < |s| ==> IsWhite(s[k]) }

  /** ASCII case mapping of one character; everything else is left alone. */
  function LowerChar(c: char): char { if IsUpper(c) then (c as int + 32) as char else c }
  function UpperChar(c: char): char { if IsLower(c) then (c as int - 32) as char else c }

  function DigitValue(c: char): (d: nat)
    requires IsDigit(c)
    ensures d < 10
  {
    (c as int) - ('0' as int)
  }

  function DigitChar(d: nat): (c: char)
    requires d < 10
    ensures IsDigit(c) && DigitValue(c) == d
  {
    ('0' as int + d) as char
  }

  function Pow10(n: nat): (p: nat)
    ensures p >= 1
  {
    if n == 0 then 1 else 10 * Pow10(n - 1)
  }

  /** The decimal value of a digit string, as Python's `int()` reads it
      (leading zeros allowed). */
  function DigitsValue(ds: string): nat
    requires AllDigits(ds)
  {
    if |ds| == 0 then 0 else 10 * DigitsValue(ds[..|ds| - 1]) + DigitValue(ds[|ds| - 1])
  }

  /** `n` written with exactly `width` decimal digits, zero-padded on the
      left (`%0<width>d` for a value below 10^width). */
  function Decimal(n: nat, width: nat): (r: string)
    ensures |r| == width && AllDigits(r)
  {
    if width == 0 then [] else Decimal(n / 10, width - 1) + [DigitChar(n % 10)]
  }

  /** Reading back a zero-padded rendering gives the number, when it fits. */
  lemma {:induction false} ValueOfDecimal(n: nat, width: nat)
    requires n < Pow10(width)
    ensures DigitsValue(Decimal(n, width)) == n
  {
    if width > 0 {
      var r := Decimal(n, width);
      var q, d := n / 10, n % 10;
      assert n == 10 * q + d;
      assert q < Pow10(width - 1) by {
        assert Pow10(width) == 10 * Pow10(width - 1);
      }
      assert r[..width - 1] == Decimal(q, width - 1);
      assert DigitValue(r[width - 1]) == d;
      ValueOfDecimal(q, width - 1);
    }
  }

  /** Rendering the value of a digit string at its own width gives the string back. */
  lemma {:induction false} DecimalOfValue(ds: string)
    requires AllDigits(ds)
    ensures Decimal(DigitsValue(ds), |ds|) == ds
  {
    if |ds| > 0 {
      var init := ds[..|ds| - 1];
      DecimalOfValue(init);
      var d := DigitValue(ds[|ds| - 1]);
      assert DigitsValue(ds) / 10 == DigitsValue(init) && DigitsValue(ds) % 10 == d;
      assert DigitChar(d) == ds[|ds| - 1];
      assert ds == init + [ds[|ds| - 1]];
    }
  }
}
