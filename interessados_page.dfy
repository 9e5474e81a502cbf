/**
 * The pure helpers of the adopter page, `src/public/assets/js/interessados.js`:
 * its own `formatarCPF`, `validarCPF` and `formatarTelefone`, and the
 * transformation the CPF field's `input` listener applies to what was typed.
 */
module InteressadosPage {
  import opened Digits
  import opened Masks
  import Cpf
  import BrowserUtils

  /** `formatarCPF`: '' for an empty value, the mask for exactly eleven digits, the bare digits otherwise. */
  function FormatarCpf(s: string): string {
    if s == "" then ""
    else
      var cpf := LimparNumeros(s);
      if |cpf| != 11 then cpf else ReplaceCpf(cpf)
  }

  /** `formatarTelefone`: only eleven digits are masked; ten come back bare. */
  function FormatarTelefone(s: string): string {
    if s == "" then ""
    else
      var telefone := LimparNumeros(s);
      if |telefone| == 11 then ReplacePhone(telefone, 5) else telefone
  }

  /**
   * The `input` listener: keep the digits typed, drop any beyond the
   * eleventh, and show them through `formatarCPF`.
   */
  function CpfInputMask(typed: string): string {
    var value := LimparNumeros(typed);
    var value' := if |value| > 11 then value[..11] else value;
    FormatarCpf(value')
  }

  /** The regular expression `^(\d)\1+$`: two or more copies of one digit. */
  predicate RepeatedAny(d: string) {
    |d| >= 2 && IsDigit(d[0]) && forall i | 0 <= i < |d| :: d[i] == d[0]
  }

  /** On eleven characters `^(\d)\1+$` and `^(\d)\1{10}$` agree. */
  lemma RepeatedAnyOnEleven(d: string)
    requires |d| == 11
    ensures RepeatedAny(d) == Cpf.RepeatedDigit(d)
  {
  }

  /**
   * `validarCPF`: both check digits are computed before either is compared,
   * and the result is the conjunction of the two comparisons.
   */
  method ValidarCpf(input: string) returns (valid: bool)
    ensures valid == Cpf.IsValid(input)
  {
    var cpf := LimparNumeros(input);
    if |cpf| != 11 {
      return false;
    }
    if RepeatedAny(cpf) {
      return false;
    }
    var soma := 0;
    for i := 0 to 9
      invariant soma == Cpf.WeightedSum(cpf, i, 10)
    {
      soma := soma + DigitValue(cpf[i]) * (10 - i);
    }
    var resto := 11 - soma % 11;
    var digitoVerificador1 := if resto > 9 then 0 else resto;
    soma := 0;
    for i := 0 to 10
      invariant soma == Cpf.WeightedSum(cpf, i, 11)
    {
      soma := soma + DigitValue(cpf[i]) * (11 - i);
    }
    resto := 11 - soma % 11;
    var digitoVerificador2 := if resto > 9 then 0 else resto;
    valid := digitoVerificador1 == DigitValue(cpf[9]) && digitoVerificador2 == DigitValue(cpf[10]);
  }

  /** The page's formatter agrees with `utils.formatarCPF` unless more than eleven digits were given. */
  lemma FormatarCpfAgreesWithUtils(s: string)
    ensures |LimparNumeros(s)| <= 11 ==> FormatarCpf(s) == BrowserUtils.FormatarCpf(s)
    ensures |LimparNumeros(s)| > 11 ==> FormatarCpf(s) == LimparNumeros(s)
  {
    BrowserUtils.FormatarCpfShape(s);
    if s == "" {
      assert LimparNumeros(s) == [];
    }
  }

  /** The page's formatter only adds punctuation. */
  lemma FormatarCpfKeepsDigits(s: string)
    ensures LimparNumeros(FormatarCpf(s)) == LimparNumeros(s)
  {
    if s != "" {
      var cpf := LimparNumeros(s);
      LimparNumerosIdempotent(s);
      if |cpf| == 11 {
        ReplaceCpfKeepsDigits(cpf);
      }
    }
  }

  /** Ten digits stay bare on this page, where `utils.formatarTelefone` would mask them. */
  lemma FormatarTelefoneShape(s: string)
    ensures var d := LimparNumeros(s);
      && (|d| == 11 ==> FormatarTelefone(s) == PhoneMask(d))
      && (|d| != 11 ==> FormatarTelefone(s) == d)
  {
    var d := LimparNumeros(s);
    if |d| == 11 {
      ReplacePhoneOfDigits(d, 5);
    }
    if s == "" {
      assert d == [];
    }
  }

  /** The field never shows more than eleven digits, and shows the first ones typed. */
  lemma CpfInputMaskDigits(typed: string)
    ensures var shown := LimparNumeros(CpfInputMask(typed));
      && |shown| <= 11
      && shown == (var d := LimparNumeros(typed); if |d| > 11 then d[..11] else d)
  {
    var d := LimparNumeros(typed);
    var v := if |d| > 11 then d[..11] else d;
    assert AllDigits(v);
    LimparNumerosOfDigits(v);
    FormatarCpfKeepsDigits(v);
  }

  /** Once eleven digits have been typed, the field shows the complete mask. */
  lemma CpfInputMaskComplete(typed: string)
    requires |LimparNumeros(typed)| >= 11
    ensures CpfInputMask(typed) == CpfMask(LimparNumeros(typed)[..11])
  {
    var value := LimparNumeros(typed);
    var d := value[..11];
    assert (if |value| > 11 then value[..11] else value) == d;
    assert AllDigits(d);
    LimparNumerosOfDigits(d);
    ReplaceCpfOfDigits(d);
    assert d[..11] == d && d[11..] == [];
    assert FormatarCpf(d) == CpfMask(d);
  }

  /** A second `input` event on the masked text changes nothing. */
  lemma CpfInputMaskIdempotent(typed: string)
    ensures CpfInputMask(CpfInputMask(typed)) == CpfInputMask(typed)
  {
    CpfInputMaskDigits(typed);
    var d := LimparNumeros(typed);
    var v := if |d| > 11 then d[..11] else d;
    assert LimparNumeros(CpfInputMask(typed)) == v;
  }

  /** The form's CPF input, whose text the `input` listener rewrites. */
  class CpfField {
    var value: string

    constructor (typed: string)
      ensures value == typed
    {
      value := typed;
    }

    /** The `input` listener: keep the first eleven digits and mask them. */
    method OnInput()
      modifies this
      ensures value == CpfInputMask(old(value))
      ensures |LimparNumeros(value)| <= 11
    {
      CpfInputMaskDigits(value);
      var digits := LimparNumeros(value);
      if |digits| > 11 {
        digits := digits[..11];
      }
      value := FormatarCpf(digits);
    }
  }
}
