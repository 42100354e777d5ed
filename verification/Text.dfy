/** Decimal numerals, and the little string handling the system does. */
module Text {

  predicate IsDigit(c: char) { '0' <= c <= '9' }

  predicate IsSpace(c: char) { c == ' ' || c == '\t' || c == '\n' || c == '\r' }

  predicate AllDigits(s: string) {
    forall i :: 0 <= i < |s| ==> IsDigit(s[i])
  }

  function DecimalNat(n: nat): (s: string)
    ensures s != "" && AllDigits(s)
  {
    var digit := [(n % 10) as char + '0'];
    if n < 10 then digit else DecimalNat(n / 10) + digit
  }

  function Decimal(n: int): string {
    if n < 0 then "-" + DecimalNat(-n) else DecimalNat(n)
  }

  function DigitsToNat(s: string): (n: nat)
    requires AllDigits(s)
  {
    if s == "" then 0
    else 10 * DigitsToNat(s[..|s| - 1]) + (s[|s| - 1] as int - '0' as int)
  }

  /** A numeral reads back as its number. */
  lemma {:induction false} DecimalReadsBack(n: nat)
    ensures DigitsToNat(DecimalNat(n)) == n
  {
    if n >= 10 {
      DecimalReadsBack(n / 10);
      var s := DecimalNat(n);
      assert s[..|s| - 1] == DecimalNat(n / 10);
    }
  }

  lemma DecimalInjective(m: nat, n: nat)
    requires DecimalNat(m) == DecimalNat(n)
    ensures m == n
  {
    DecimalReadsBack(m);
    DecimalReadsBack(n);
  }

  /** No leading zero, unless the numeral is zero itself. */
  lemma {:induction false} DecimalHasNoLeadingZero(n: nat)
    ensures n > 0 ==> DecimalNat(n)[0] != '0'
  {
    if n >= 10 { DecimalHasNoLeadingZero(n / 10); }
  }

  /** Two numerals without leading zeros that read the same are the same. */
  lemma {:induction false} ReadsBackDecimal(s: string)
    requires s != "" && AllDigits(s) && (|s| > 1 ==> s[0] != '0')
    ensures DecimalNat(DigitsToNat(s)) == s
    ensures |s| > 1 ==> DigitsToNat(s) >= 10
    ensures s[0] != '0' ==> DigitsToNat(s) > 0
  {
    var init := s[..|s| - 1];
    var last := s[|s| - 1] as int - '0' as int;
    assert s == init + [s[|s| - 1]];
    if init == "" {
      assert DigitsToNat(s) == last;
      assert s == [last as char + '0'];
    } else {
      ReadsBackDecimal(init);
      assert DigitsToNat(s) / 10 == DigitsToNat(init);
      assert DigitsToNat(s) % 10 == last;
    }
  }
}
