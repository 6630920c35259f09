/** Decimal numerals, as reports print them and control sequences read them. */
module Numerals {
  import opened Sequences

  const ZERO: CodeUnit := 48

  predicate IsDigit(u: CodeUnit) { 48 <= u <= 57 }

  function Decimal(n: nat): (t: Text)
    ensures |t| >= 1 && forall i :: 0 <= i < |t| ==> IsDigit(t[i])
  {
    if n < 10 then [ZERO + n] else Decimal(n / 10) + [ZERO + n % 10]
  }

  /** `cur * 10 + digit` over a run of digits. */
  function Accumulate(cur: nat, digits: Text): nat
    requires forall i :: 0 <= i < |digits| ==> IsDigit(digits[i])
  {
    if digits == [] then cur
    else
      assert IsDigit(digits[|digits| - 1]);
      var last: int := digits[|digits| - 1] - ZERO;
      Accumulate(cur, digits[..|digits| - 1]) * 10 + last
  }

  lemma {:induction false} DecimalReadsBack(n: nat)
    ensures Accumulate(0, Decimal(n)) == n
  {
    if n < 10 {
      assert Accumulate(0, []) == 0;
      assert Decimal(n)[..0] == [];
    } else {
      DecimalReadsBack(n / 10);
      var t := Decimal(n);
      assert t[..|t| - 1] == Decimal(n / 10);
    }
  }
}
