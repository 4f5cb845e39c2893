/** Real and decimal arithmetic the models share. */
module Arithmetic {

  function MaxReal(a: real, b: real): real { if a >= b then a else b }

  function MinReal(a: real, b: real): real { if a <= b then a else b }

  lemma MulMonotone(a: real, x: real, y: real)
    requires a >= 0.0 && x <= y
    ensures a * x <= a * y
  {
    assert a * (y - x) >= 0.0;
  }

  /** What String(n) gives. */
  function Decimal(n: nat): string {
    if n < 10 then [('0' as int + n) as char] else Decimal(n / 10) + [('0' as int + n % 10) as char]
  }

  lemma {:induction false} DecimalShape(n: nat)
    ensures Decimal(n) != "" && Decimal(n)[0] != '-' && (|Decimal(n)| > 1 <==> n >= 10)
    decreases n
  {
    if n >= 10 { DecimalShape(n / 10); }
  }

  lemma {:induction false} DecimalHasNoColon(n: nat)
    ensures forall i :: 0 <= i < |Decimal(n)| ==> Decimal(n)[i] != ':'
    decreases n
  {
    if n >= 10 { DecimalHasNoColon(n / 10); }
  }

  lemma {:induction false} DecimalInjective(m: nat, n: nat)
    requires Decimal(m) == Decimal(n)
    ensures m == n
    decreases m
  {
    var dm, dn := Decimal(m), Decimal(n);
    DecimalShape(m);
    DecimalShape(n);
    assert dm[|dm| - 1] == ('0' as int + m % 10) as char;
    assert dn[|dn| - 1] == ('0' as int + n % 10) as char;
    if m >= 10 {
      assert dm[..|dm| - 1] == Decimal(m / 10) && dn[..|dn| - 1] == Decimal(n / 10);
      DecimalInjective(m / 10, n / 10);
    }
  }
}
