/**
 * Digit characters and `limparNumeros`, the `str.replace(/\D/g, '')` that
 * every validator and formatter starts with. Without the `u` flag, `\d` in a
 * JavaScript regular expression is exactly the ASCII range '0'..'9'.
 */
module Digits {

  predicate IsDigit(c: char) {
    '0' <= c <= '9'
  }

  predicate AllDigits(s: string) {
    forall i | 0 <= i < |s| :: IsDigit(s[i])
  }

  /** `parseInt` of a one-character digit string. */
  function DigitValue(c: char): (v: nat)
    requires IsDigit(c)
    ensures v <= 9
  {
    c as int - '0' as int
  }

  /** `limparNumeros(str)`: the digit characters of `str`, in order. */
  function LimparNumeros(s: string): (r: string)
    ensures |r| <= |s|
    ensures AllDigits(r)
  {
    if s == [] then []
    else
      (if IsDigit(s[0]) then [s[0]] else []) + LimparNumeros(s[1..])
  }

  /** Every digit of the input is kept, as often as it occurs; nothing else is. */
  lemma {:induction false} LimparNumerosKeepsDigits(s: string)
    ensures forall c | IsDigit(c) :: multiset(LimparNumeros(s))[c] == multiset(s)[c]
    ensures forall c | !IsDigit(c) :: multiset(LimparNumeros(s))[c] == 0
  {
    if s != [] {
      LimparNumerosKeepsDigits(s[1..]);
      assert s == [s[0]] + s[1..];
    }
  }

  /** Cleaning distributes over concatenation: the digits are kept in their order. */
  lemma {:induction false} LimparNumerosAppend(a: string, b: string)
    ensures LimparNumeros(a + b) == LimparNumeros(a) + LimparNumeros(b)
  {
    if a == [] {
      assert a + b == b;
    } else {
      var head := if IsDigit(a[0]) then [a[0]] else [];
      assert (a + b)[0] == a[0];
      assert (a + b)[1..] == a[1..] + b;
      calc {
        LimparNumeros(a + b);
        head + LimparNumeros(a[1..] + b);
        { LimparNumerosAppend(a[1..], b); }
        head + (LimparNumeros(a[1..]) + LimparNumeros(b));
        (head + LimparNumeros(a[1..])) + LimparNumeros(b);
      }
    }
  }

  /** A string made of digits only comes back unchanged. */
  lemma {:induction false} LimparNumerosOfDigits(s: string)
    requires AllDigits(s)
    ensures LimparNumeros(s) == s
  {
    if s != [] {
      LimparNumerosOfDigits(s[1..]);
    }
  }

  /** A string without digits is cleaned to the empty string. */
  lemma {:induction false} LimparNumerosOfNonDigits(s: string)
    requires forall i | 0 <= i < |s| :: !IsDigit(s[i])
    ensures LimparNumeros(s) == []
  {
    if s != [] {
      LimparNumerosOfNonDigits(s[1..]);
    }
  }

  /** Cleaning is idempotent. */
  lemma LimparNumerosIdempotent(s: string)
    ensures LimparNumeros(LimparNumeros(s)) == LimparNumeros(s)
  {
    LimparNumerosOfDigits(LimparNumeros(s));
  }
}
