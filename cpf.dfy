/**
 * The CPF (Cadastro de Pessoas Físicas) check-digit scheme, as a
 * specification: eleven digits, not all equal, whose last two digits are the
 * modulo-11 check digits of the digits before them. Every validator in the
 * program is proved equal to `IsValid`.
 */
module Cpf {
  import opened Digits
  import Masks

  /** Σ_{i<n} d[i]·(top − i): the accumulator `soma` after `n` rounds of the loop. */
  function WeightedSum(d: string, n: nat, top: int): int
    requires n <= |d| && AllDigits(d)
  {
    if n == 0 then 0
    else WeightedSum(d, n - 1, top) + DigitValue(d[n - 1]) * (top - (n - 1))
  }

  /** A weighted sum with positive weights is never negative. */
  lemma {:induction false} WeightedSumNonNegative(d: string, n: nat, top: int)
    requires n <= |d| && AllDigits(d) && n <= top
    ensures WeightedSum(d, n, top) >= 0
  {
    if n > 0 {
      WeightedSumNonNegative(d, n - 1, top);
    }
  }

  /** The check digit of a sum: `resto = 11 - soma % 11`, then `resto > 9 ? 0 : resto`. */
  function CheckDigit(soma: int): (dv: nat)
    ensures dv <= 9
    ensures dv == 0 <==> soma % 11 <= 1
    ensures dv != 0 ==> (soma + dv) % 11 == 0
  {
    var resto := 11 - soma % 11;
    if resto > 9 then 0 else resto
  }

  /** The first check digit: weights 10 down to 2 over the first nine digits. */
  function FirstCheckDigit(d: string): nat
    requires |d| == 11 && AllDigits(d)
  {
    CheckDigit(WeightedSum(d, 9, 10))
  }

  /** The second check digit: weights 11 down to 2 over the first ten digits. */
  function SecondCheckDigit(d: string): nat
    requires |d| == 11 && AllDigits(d)
  {
    CheckDigit(WeightedSum(d, 10, 11))
  }

  /** The regular expression `^(\d)\1{10}$`: one digit repeated eleven times. */
  predicate RepeatedDigit(d: string) {
    |d| == 11 && IsDigit(d[0]) && forall i | 0 <= i < 11 :: d[i] == d[0]
  }

  /** Validity of an already cleaned digit string. */
  predicate ValidDigits(d: string) {
    && |d| == 11
    && AllDigits(d)
    && !RepeatedDigit(d)
    && FirstCheckDigit(d) == DigitValue(d[9])
    && SecondCheckDigit(d) == DigitValue(d[10])
  }

  /**
   * A CPF, in any punctuation, is valid when its digits are. Each check digit
   * then completes its weighted sum to a multiple of 11, except where the sum
   * leaves remainder 1 and the digit 10 is written as 0.
   */
  predicate IsValid(s: string)
    ensures IsValid(s) ==>
      var d := LimparNumeros(s);
      && |d| == 11
      && ((WeightedSum(d, 9, 10) + DigitValue(d[9])) % 11 == 0
          || (DigitValue(d[9]) == 0 && WeightedSum(d, 9, 10) % 11 == 1))
      && ((WeightedSum(d, 10, 11) + DigitValue(d[10])) % 11 == 0
          || (DigitValue(d[10]) == 0 && WeightedSum(d, 10, 11) % 11 == 1))
  {
    ValidDigits(LimparNumeros(s))
  }

  /** Wrong digit count: invalid, whatever the digits. */
  lemma InvalidUnlessElevenDigits(s: string)
    requires |LimparNumeros(s)| != 11
    ensures !IsValid(s)
  {
  }

  /** Eleven equal digits: invalid, even though their check digits may match. */
  lemma InvalidWhenRepeated(s: string)
    requires RepeatedDigit(LimparNumeros(s))
    ensures !IsValid(s)
  {
  }

  /** The full rule, spelled out on the cleaned digits. */
  lemma IsValidIff(s: string)
    ensures IsValid(s) <==>
      var d := LimparNumeros(s);
      && |d| == 11
      && !(forall i | 0 <= i < 11 :: d[i] == d[0])
      && CheckDigit(WeightedSum(d, 9, 10)) == DigitValue(d[9])
      && CheckDigit(WeightedSum(d, 10, 11)) == DigitValue(d[10])
  {
  }

  /** Punctuation does not matter: validating the cleaned string gives the same answer. */
  lemma InvariantUnderCleaning(s: string)
    ensures IsValid(LimparNumeros(s)) == IsValid(s)
  {
    LimparNumerosIdempotent(s);
  }

  /**
   * The alternative formula of the browser validator: `resto = (soma * 10) % 11`,
   * with 10 (and 11) read as 0, gives the same check digit for every
   * non-negative sum.
   */
  function AltCheckDigit(soma: int): (dv: int)
    ensures 0 <= dv <= 9
  {
    var resto := (soma * 10) % 11;
    if resto == 10 || resto == 11 then 0 else resto
  }

  lemma {:induction false} AltCheckDigitAgrees(soma: int)
    requires soma >= 0
    ensures AltCheckDigit(soma) == CheckDigit(soma)
  {
    var q, m := soma / 11, soma % 11;
    assert soma == 11 * q + m;
    assert soma * 10 == 11 * (10 * q) + 10 * m;
    assert (soma * 10) % 11 == (10 * m) % 11 by {
      ModOfMultiplePlus(10 * q, 10 * m);
    }
    assert 0 <= m < 11;
    if m == 0 {} else if m == 1 {} else if m == 2 {} else if m == 3 {}
    else if m == 4 {} else if m == 5 {} else if m == 6 {} else if m == 7 {}
    else if m == 8 {} else if m == 9 {} else {}
  }

  lemma ModOfMultiplePlus(k: int, r: int)
    ensures (11 * k + r) % 11 == r % 11
  {
  }

  /** `(x * 10) % 11` is below 11, so the `resto === 11` test never fires. */
  lemma AltRemainderBelowEleven(soma: int)
    ensures (soma * 10) % 11 != 11
  {
  }

  /** The digits 5 2 9 9 8 2 2 4 7 2 5 form a valid CPF: the sums are 295 and 347. */
  lemma ValidSample(v: string)
    requires |v| == 11 && AllDigits(v)
    requires DigitValue(v[0]) == 5 && DigitValue(v[1]) == 2 && DigitValue(v[2]) == 9
    requires DigitValue(v[3]) == 9 && DigitValue(v[4]) == 8 && DigitValue(v[5]) == 2
    requires DigitValue(v[6]) == 2 && DigitValue(v[7]) == 4 && DigitValue(v[8]) == 7
    requires DigitValue(v[9]) == 2 && DigitValue(v[10]) == 5
    ensures IsValid(v)
  {
    LimparNumerosOfDigits(v);
    assert WeightedSum(v, 1, 10) == 50;
    assert WeightedSum(v, 2, 10) == 68;
    assert WeightedSum(v, 3, 10) == 140;
    assert WeightedSum(v, 4, 10) == 203;
    assert WeightedSum(v, 5, 10) == 251;
    assert WeightedSum(v, 6, 10) == 261;
    assert WeightedSum(v, 7, 10) == 269;
    assert WeightedSum(v, 8, 10) == 281;
    assert WeightedSum(v, 9, 10) == 295;
    assert WeightedSum(v, 1, 11) == 55;
    assert WeightedSum(v, 2, 11) == 75;
    assert WeightedSum(v, 3, 11) == 156;
    assert WeightedSum(v, 4, 11) == 228;
    assert WeightedSum(v, 5, 11) == 284;
    assert WeightedSum(v, 6, 11) == 296;
    assert WeightedSum(v, 7, 11) == 306;
    assert WeightedSum(v, 8, 11) == 322;
    assert WeightedSum(v, 9, 11) == 343;
    assert WeightedSum(v, 10, 11) == 347;
    assert v[1] != v[0];
  }

  /** The digits 1 2 3 4 5 6 7 8 9 0 0: the first check digit matches, the second is 9, not 0. */
  lemma MismatchSample(v: string)
    requires |v| == 11 && AllDigits(v)
    requires DigitValue(v[0]) == 1 && DigitValue(v[1]) == 2 && DigitValue(v[2]) == 3
    requires DigitValue(v[3]) == 4 && DigitValue(v[4]) == 5 && DigitValue(v[5]) == 6
    requires DigitValue(v[6]) == 7 && DigitValue(v[7]) == 8 && DigitValue(v[8]) == 9
    requires DigitValue(v[9]) == 0 && DigitValue(v[10]) == 0
    ensures FirstCheckDigit(v) == 0 && SecondCheckDigit(v) == 9
    ensures !IsValid(v)
  {
    LimparNumerosOfDigits(v);
    assert WeightedSum(v, 1, 10) == 10;
    assert WeightedSum(v, 2, 10) == 28;
    assert WeightedSum(v, 3, 10) == 52;
    assert WeightedSum(v, 4, 10) == 80;
    assert WeightedSum(v, 5, 10) == 110;
    assert WeightedSum(v, 6, 10) == 140;
    assert WeightedSum(v, 7, 10) == 168;
    assert WeightedSum(v, 8, 10) == 192;
    assert WeightedSum(v, 9, 10) == 210;
    assert WeightedSum(v, 1, 11) == 11;
    assert WeightedSum(v, 2, 11) == 31;
    assert WeightedSum(v, 3, 11) == 58;
    assert WeightedSum(v, 4, 11) == 90;
    assert WeightedSum(v, 5, 11) == 125;
    assert WeightedSum(v, 6, 11) == 161;
    assert WeightedSum(v, 7, 11) == 196;
    assert WeightedSum(v, 8, 11) == 228;
    assert WeightedSum(v, 9, 11) == 255;
    assert WeightedSum(v, 10, 11) == 255;
  }

  /** "52998224725" is a valid CPF. */
  lemma ValidVector()
    ensures IsValid("52998224725")
  {
    var v := "52998224725";
    assert AllDigits(v);
    assert DigitValue(v[0]) == 5 && DigitValue(v[1]) == 2 && DigitValue(v[2]) == 9;
    assert DigitValue(v[3]) == 9 && DigitValue(v[4]) == 8 && DigitValue(v[5]) == 2;
    assert DigitValue(v[6]) == 2 && DigitValue(v[7]) == 4 && DigitValue(v[8]) == 7;
    assert DigitValue(v[9]) == 2 && DigitValue(v[10]) == 5;
    ValidSample(v);
    assert IsValid(v);
  }

  /** Masking does not change validity: the mask only adds punctuation. */
  lemma MaskedValidity(d: string)
    requires |d| == 11 && AllDigits(d)
    ensures IsValid(Masks.CpfMask(d)) == IsValid(d)
  {
    Masks.CpfMaskDigits(d);
    LimparNumerosOfDigits(d);
  }

  /** Eleven ones are rejected, whatever their check digits. */
  lemma RepeatedVector()
    ensures !IsValid("11111111111")
  {
    var d := "11111111111";
    assert AllDigits(d);
    LimparNumerosOfDigits(d);
    assert RepeatedDigit(d);
  }

  /**
   * "12345678900" is rejected: the second check digit of 123456789-0 is 9,
   * not 0.
   */
  lemma MismatchVector()
    ensures !IsValid("12345678900")
  {
    var w := "12345678900";
    assert AllDigits(w);
    assert DigitValue(w[0]) == 1 && DigitValue(w[1]) == 2 && DigitValue(w[2]) == 3;
    assert DigitValue(w[3]) == 4 && DigitValue(w[4]) == 5 && DigitValue(w[5]) == 6;
    assert DigitValue(w[6]) == 7 && DigitValue(w[7]) == 8 && DigitValue(w[8]) == 9;
    assert DigitValue(w[9]) == 0 && DigitValue(w[10]) == 0;
    MismatchSample(w);
    assert !IsValid(w);
  }
}
