/** Decimal numerals: what the lexer computes from a run of digits is the number they spell. */
module Numerals {
  import opened Lexer

  /** The usual decimal numeral of a number. */
  function Numeral(n: nat): (r: seq<Byte>)
    ensures r != [] && forall k :: 0 <= k < |r| ==> Digit(r[k])
  {
    if n < 10 then [48 + n] else Numeral(n / 10) + [48 + n % 10]
  }

  function Zeros(n: nat): (r: seq<Byte>)
    ensures |r| == n && forall k :: 0 <= k < n ==> Digit(r[k])
  {
    seq(n, _ => 48)
  }

  /** The digits are the numeral, after any number of leading zeros. */
  ghost predicate IsDecimal(digits: seq<Byte>, n: nat) {
    exists zeros: nat :: digits == Zeros(zeros) + Numeral(n)
  }

  lemma DecimalIsDigits(digits: seq<Byte>, n: nat)
    requires IsDecimal(digits, n)
    ensures digits != [] && forall k :: 0 <= k < |digits| ==> Digit(digits[k])
  {
    hide Numeral;
    hide Zeros;
  }

  /** The value of some digits does not depend on the text around them. */
  lemma {:induction false} ValueShift(source: seq<Byte>, i: nat, ds: seq<Byte>, n: nat)
    requires i + |ds| <= |source| && source[i..i + |ds|] == ds && n <= |ds|
    requires forall k :: 0 <= k < |ds| ==> Digit(ds[k])
    ensures forall k :: i <= k < i + |ds| ==> Digit(source[k])
    ensures Value(source, i, i + n) == Value(ds, 0, n)
  {
    forall k | i <= k < i + |ds| ensures source[k] == ds[k - i] {
      assert source[i..i + |ds|][k - i] == source[k];
    }
    if n > 0 {
      ValueShift(source, i, ds, n - 1);
    }
  }

  lemma ValueSnoc(front: seq<Byte>, d: Byte)
    requires Digit(d) && forall k :: 0 <= k < |front| ==> Digit(front[k])
    ensures var ds := front + [d];
      (forall k :: 0 <= k < |ds| ==> Digit(ds[k])) && Value(ds, 0, |ds|) == Value(front, 0, |front|) * 10 + (d - 48)
  {
    var ds := front + [d];
    assert ds[0..0 + |front|] == front;
    ValueShift(ds, 0, front, |front|);
  }

  lemma {:induction false} ZerosValue(n: nat)
    ensures Value(Zeros(n), 0, n) == 0
  {
    if n > 0 {
      ZerosValue(n - 1);
      ValueSnoc(Zeros(n - 1), 48);
      assert Zeros(n) == Zeros(n - 1) + [48];
    }
  }

  lemma {:induction false} NumeralValue(zeros: nat, n: nat)
    ensures var ds := Zeros(zeros) + Numeral(n);
      (forall k :: 0 <= k < |ds| ==> Digit(ds[k])) && Value(ds, 0, |ds|) == n
  {
    if n < 10 {
      ZerosValue(zeros);
      ValueSnoc(Zeros(zeros), 48 + n);
    } else {
      hide Zeros;
      NumeralValue(zeros, n / 10);
      ValueSnoc(Zeros(zeros) + Numeral(n / 10), 48 + n % 10);
      assert Zeros(zeros) + Numeral(n) == Zeros(zeros) + Numeral(n / 10) + [48 + n % 10];
    }
  }

  lemma {:induction false} DigitsAreNumeral(ds: seq<Byte>) returns (zeros: nat)
    requires ds != [] && forall k :: 0 <= k < |ds| ==> Digit(ds[k])
    ensures ds == Zeros(zeros) + Numeral(Value(ds, 0, |ds|))
  {
    var (front, d) := (ds[..|ds| - 1], ds[|ds| - 1]);
    assert ds == front + [d];
    ValueSnoc(front, d);
    if front == [] {
      zeros := 0;
      assert Zeros(0) + Numeral(d - 48) == [d];
    } else {
      zeros := DigitsAreNumeral(front);
      zeros := OneMoreDigit(front, d, zeros, Value(front, 0, |front|));
    }
  }

  lemma OneMoreDigit(front: seq<Byte>, d: Byte, zeros: nat, value: nat) returns (zeros': nat)
    requires front == Zeros(zeros) + Numeral(value) && Digit(d)
    ensures front + [d] == Zeros(zeros') + Numeral(value * 10 + (d - 48))
  {
    if value == 0 {
      zeros' := zeros + 1;
      assert Zeros(zeros) + [48] == Zeros(zeros + 1);
    } else {
      zeros' := zeros;
      assert Numeral(value * 10 + (d - 48)) == Numeral(value) + [d];
    }
  }

  /** A run of digits spells exactly the number that is computed from it. */
  lemma DecimalIsValue(digits: seq<Byte>, n: nat)
    requires digits != [] && forall k :: 0 <= k < |digits| ==> Digit(digits[k])
    ensures IsDecimal(digits, n) <==> Value(digits, 0, |digits|) == n
  {
    hide Zeros;
    hide Numeral;
    hide Value;
    if zeros: nat :| digits == Zeros(zeros) + Numeral(n) {
      NumeralValue(zeros, n);
    }
    var z := DigitsAreNumeral(digits);
  }
}
