/**
 * The formatters of `src/public/assets/js/utils.js`. Its `limparNumeros`,
 * `validarCPF`, `validarEmail` and `validarTelefone` are the server's, see
 * `Digits` and `ServerValidators`.
 */
module BrowserUtils {
  import opened Digits
  import opened Masks
  import ServerValidators
  import Cpf

  /** `formatarCPF`: clean, then mask the first run of eleven digits. */
  function FormatarCpf(s: string): string {
    ReplaceCpf(LimparNumeros(s))
  }

  /**
   * `formatarTelefone`: clean, then mask eleven digits as `(dd) ddddd-dddd`
   * and ten as `(dd) dddd-dddd`; any other count is returned cleaned.
   */
  function FormatarTelefone(s: string): string {
    var telefone := LimparNumeros(s);
    if |telefone| == 11 then ReplacePhone(telefone, 5)
    else if |telefone| == 10 then ReplacePhone(telefone, 4)
    else telefone
  }

  /** The shape of `formatarCPF`: the mask on eleven digits, the bare digits below that. */
  lemma FormatarCpfShape(s: string)
    ensures var d := LimparNumeros(s);
      && (|d| == 11 ==> FormatarCpf(s) == CpfMask(d))
      && (|d| < 11 ==> FormatarCpf(s) == d)
      && (|d| > 11 ==> FormatarCpf(s) == CpfMask(d[..11]) + d[11..])
  {
    var d := LimparNumeros(s);
    ReplaceCpfOfDigits(d);
    if |d| == 11 {
      assert d[..11] == d && d[11..] == [];
    }
  }

  /** `formatarCPF` only adds punctuation: cleaning its output gives the cleaned input. */
  lemma FormatarCpfKeepsDigits(s: string)
    ensures LimparNumeros(FormatarCpf(s)) == LimparNumeros(s)
  {
    ReplaceCpfKeepsDigits(LimparNumeros(s));
    LimparNumerosIdempotent(s);
  }

  /** Formatting never changes whether a CPF is valid. */
  lemma FormatarCpfKeepsValidity(s: string)
    ensures Cpf.IsValid(FormatarCpf(s)) == Cpf.IsValid(s)
  {
    FormatarCpfKeepsDigits(s);
  }

  /** Eleven bare digits are shown as `ddd.ddd.ddd-dd`. */
  lemma FormatarCpfOfDigits(d: string)
    requires |d| == 11 && AllDigits(d)
    ensures FormatarCpf(d) == CpfMask(d)
  {
    LimparNumerosOfDigits(d);
    FormatarCpfShape(d);
  }

  /** '12345678900' is shown as '123.456.789-00'. */
  lemma FormatarCpfExample()
    ensures FormatarCpf("12345678900") == "123.456.789-00"
  {
    var d := "12345678900";
    assert AllDigits(d);
    assert CpfMask(d) == "123.456.789-00" by {
      assert d[..3] == "123" && d[3..6] == "456" && d[6..9] == "789" && d[9..] == "00";
    }
    FormatarCpfOfDigits(d);
  }

  /** The shape of `formatarTelefone` for each digit count. */
  lemma FormatarTelefoneShape(s: string)
    ensures var d := LimparNumeros(s);
      && (|d| == 10 || |d| == 11 ==> FormatarTelefone(s) == PhoneMask(d))
      && (|d| != 10 && |d| != 11 ==> FormatarTelefone(s) == d)
  {
    var d := LimparNumeros(s);
    if |d| == 11 {
      ReplacePhoneOfDigits(d, 5);
    } else if |d| == 10 {
      ReplacePhoneOfDigits(d, 4);
    }
  }

  /** `formatarTelefone` only adds punctuation. */
  lemma FormatarTelefoneKeepsDigits(s: string)
    ensures LimparNumeros(FormatarTelefone(s)) == LimparNumeros(s)
  {
    var d := LimparNumeros(s);
    FormatarTelefoneShape(s);
    if |d| == 10 || |d| == 11 {
      PhoneMaskDigits(d);
    } else {
      LimparNumerosIdempotent(s);
    }
  }

  /** Formatting a telephone number never changes whether `validarTelefone` accepts it. */
  lemma FormatarTelefoneKeepsValidity(s: string)
    ensures ServerValidators.ValidarTelefone(FormatarTelefone(s)) == ServerValidators.ValidarTelefone(s)
  {
    FormatarTelefoneKeepsDigits(s);
  }

  /** Ten or eleven bare digits are shown as a masked telephone number. */
  lemma FormatarTelefoneOfDigits(d: string)
    requires (|d| == 10 || |d| == 11) && AllDigits(d)
    ensures FormatarTelefone(d) == PhoneMask(d)
  {
    LimparNumerosOfDigits(d);
    FormatarTelefoneShape(d);
  }

  /** '11987654321' is shown as '(11) 98765-4321'. */
  lemma FormatarTelefoneExample()
    ensures FormatarTelefone("11987654321") == "(11) 98765-4321"
  {
    var d := "11987654321";
    assert AllDigits(d);
    assert PhoneMask(d) == "(11) 98765-4321" by {
      assert d[..2] == "11" && d[2..7] == "98765" && d[7..] == "4321";
    }
    FormatarTelefoneOfDigits(d);
  }
}
