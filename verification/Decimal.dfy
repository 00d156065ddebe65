/** Decimal text of natural numbers, as `std::to_string` writes it. */
module Decimal {

  predicate IsDigit(c: char) { '0' <= c <= '9' }

  predicate AllDigits(s: string) { forall i :: 0 <= i < |s| ==> IsDigit(s[i]) }

  function Digit(d: nat): (c: char)
    requires d < 10
    ensures IsDigit(c)
  {
    '0' + d as char
  }

  function ToDec(n: nat): (s: string)
    ensures |s| > 0 && AllDigits(s)
  {
    if n < 10 then [Digit(n)] else ToDec(n / 10) + [Digit(n % 10)]
  }

  function FromDec(s: string): nat
    requires AllDigits(s)
  {
    if s == "" then 0 else FromDec(s[..|s| - 1]) * 10 + (s[|s| - 1] - '0') as nat
  }

  /** Reading back what was written, which is also free of leading zeros. */
  lemma {:induction false} DecRoundTrip(n: nat)
    ensures FromDec(ToDec(n)) == n
    ensures |ToDec(n)| > 1 ==> ToDec(n)[0] != '0'
  {
    if n >= 10 {
      DecRoundTrip(n / 10);
      var s := ToDec(n);
      assert s[..|s| - 1] == ToDec(n / 10);
      if n / 10 < 10 { assert ToDec(n / 10)[0] != '0'; }
    } else {
      assert ToDec(n)[..0] == "";
    }
  }

  /** Digits without a needless leading zero are what is written for their number. */
  lemma {:induction false} DecIsWritten(s: string)
    requires s != "" && AllDigits(s) && (|s| > 1 ==> s[0] != '0')
    ensures ToDec(FromDec(s)) == s
  {
    var init := s[..|s| - 1];
    var d := (s[|s| - 1] - '0') as nat;
    assert s == init + [Digit(d)];
    if init != "" {
      DecIsWritten(init);
      assert FromDec(init) == 0 ==> init == "0";
      assert FromDec(s) == FromDec(init) * 10 + d && FromDec(s) / 10 == FromDec(init) && FromDec(s) % 10 == d;
    } else {
      assert FromDec(s) == d;
    }
  }
}
