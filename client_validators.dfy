/**
 * The `validators` object of `src/public/assets/js/utils/validators.js`: a
 * second CPF validator with a different check-digit formula, looser email
 * and stricter (masked) telephone patterns, and two formatters that mask the
 * string as it is, without cleaning it first.
 */
module ClientValidators {
  import opened Common
  import opened Digits
  import opened Masks
  import CpfScheme = Cpf
  import ServerValidators
  import BrowserUtils

  /**
   * `validators.cpf`: loops over `i` from 1, and computes each check digit as
   * `(soma * 10) % 11`, with 10 and 11 read as 0.
   */
  method Cpf(input: string) returns (valid: bool)
    ensures valid == CpfScheme.IsValid(input)
  {
    var cpf := LimparNumeros(input);
    if |cpf| != 11 {
      return false;
    }
    if CpfScheme.RepeatedDigit(cpf) {
      return false;
    }
    var soma := 0;
    var resto;
    for i := 1 to 10
      invariant soma == CpfScheme.WeightedSum(cpf, i - 1, 10)
    {
      soma := soma + DigitValue(cpf[i - 1]) * (11 - i);
    }
    CpfScheme.WeightedSumNonNegative(cpf, 9, 10);
    CpfScheme.AltCheckDigitAgrees(soma);
    resto := (soma * 10) % 11;
    if resto == 10 || resto == 11 {
      resto := 0;
    }
    if resto != DigitValue(cpf[9]) {
      return false;
    }
    soma := 0;
    for i := 1 to 11
      invariant soma == CpfScheme.WeightedSum(cpf, i - 1, 11)
    {
      soma := soma + DigitValue(cpf[i - 1]) * (12 - i);
    }
    CpfScheme.WeightedSumNonNegative(cpf, 10, 11);
    CpfScheme.AltCheckDigitAgrees(soma);
    resto := (soma * 10) % 11;
    if resto == 10 || resto == 11 {
      resto := 0;
    }
    if resto != DigitValue(cpf[10]) {
      return false;
    }
    return true;
  }

  // ----- validators.email: /^[^\s@]+@[^\s@]+\.[^\s@]+$/ -----

  /** JavaScript's `\s`: the ASCII and the Unicode white-space and line-terminator characters. */
  predicate JsSpace(c: char) {
    var n := c as int;
    || (9 <= n <= 13) || n == 32 || n == 0xA0 || n == 0x1680
    || (0x2000 <= n <= 0x200A) || n == 0x2028 || n == 0x2029
    || n == 0x202F || n == 0x205F || n == 0x3000 || n == 0xFEFF
  }

  /** The class `[^\s@]`. */
  predicate Plain(c: char) {
    !JsSpace(c) && c != '@'
  }

  /** The pattern matches `s` with its `@` at `at` and the literal `.` at `dot`. */
  predicate EmailSplit(s: string, at: nat, dot: nat) {
    && 0 < at && at + 1 < dot && dot + 1 < |s|
    && s[at] == '@' && s[dot] == '.'
    && (forall i | 0 <= i < |s| && i != at :: Plain(s[i]))
  }

  ghost predicate EmailPattern(s: string) {
    exists at: nat, dot: nat | at < dot < |s| :: EmailSplit(s, at, dot)
  }

  /** The position of the first `c` in `s`, if any. */
  function IndexOf(s: string, c: char): (r: Option<nat>)
    ensures r.Some? ==> r.value < |s| && s[r.value] == c
    ensures r.Some? ==> forall i | 0 <= i < r.value :: s[i] != c
    ensures r.None? ==> forall i | 0 <= i < |s| :: s[i] != c
  {
    if s == [] then None
    else if s[0] == c then Some(0)
    else match IndexOf(s[1..], c)
      case None => None
      case Some(k) => Some(k + 1)
  }

  /**
   * `validators.email`: one `@`, not first, no white space anywhere, and a
   * `.` with at least one character on each side between the `@` and the end.
   */
  function Email(s: string): bool {
    match IndexOf(s, '@')
    case None => false
    case Some(at) =>
      && 0 < at
      && (forall i | 0 <= i < |s| && i != at :: Plain(s[i]))
      && exists dot | at + 1 < dot < |s| - 1 :: s[dot] == '.'
  }

  /** `validators.email` accepts exactly the strings the regular expression matches. */
  lemma EmailIsPattern(s: string)
    ensures Email(s) <==> EmailPattern(s)
  {
    if Email(s) {
      var at := IndexOf(s, '@').value;
      var dot :| at + 1 < dot < |s| - 1 && s[dot] == '.';
      assert EmailSplit(s, at, dot);
    }
    if EmailPattern(s) {
      var at: nat, dot: nat :| at < dot < |s| && EmailSplit(s, at, dot);
      assert IndexOf(s, '@') == Some(at) by {
        assert !Plain(s[at]);
      }
    }
  }

  /** Every address the server accepts, the browser accepts too. */
  lemma ServerEmailImpliesClientEmail(s: string)
    requires ServerValidators.ValidarEmail(s)
    ensures Email(s)
  {
    ServerValidators.ValidarEmailIsPattern(s);
    var at: nat, dot: nat :| at < dot < |s| && ServerValidators.EmailSplit(s, at, dot);
    assert EmailSplit(s, at, dot);
    EmailIsPattern(s);
  }

  /** Not conversely: a one-letter ending satisfies the browser pattern but not the server's. */
  lemma ClientEmailLooser(s: string)
    requires s == "a@b.c"
    ensures Email(s) && !ServerValidators.ValidarEmail(s)
  {
    assert EmailSplit(s, 1, 3);
    EmailIsPattern(s);
    ServerValidators.ValidarEmailIsPattern(s);
  }

  // ----- validators.telefone: /^\(\d{2}\) \d{4,5}-\d{4}$/ -----

  /** `validators.telefone`, character by character. */
  function Telefone(s: string): bool {
    && (|s| == 14 || |s| == 15)
    && s[0] == '(' && AllDigits(s[1..3]) && s[3] == ')' && s[4] == ' '
    && AllDigits(s[5..|s| - 5]) && s[|s| - 5] == '-' && AllDigits(s[|s| - 4..])
  }

  /** Ten or eleven digits: what the telephone masks are applied to. */
  predicate PhoneDigits(d: string) {
    (|d| == 10 || |d| == 11) && AllDigits(d)
  }

  /** The accepted strings are exactly the masks of ten or eleven digits. */
  lemma TelefoneIsMask(s: string)
    ensures Telefone(s) <==> exists d :: PhoneDigits(d) && s == PhoneMask(d)
  {
    if Telefone(s) {
      var d := s[1..3] + s[5..|s| - 5] + s[|s| - 4..];
      assert PhoneDigits(d);
      assert s == PhoneMask(d);
    }
    if exists d :: PhoneDigits(d) && s == PhoneMask(d) {
      var d :| PhoneDigits(d) && s == PhoneMask(d);
      TelefoneOfMask(d);
    }
  }

  /** The mask of ten or eleven digits is accepted. */
  lemma TelefoneOfMask(d: string)
    requires PhoneDigits(d)
    ensures Telefone(PhoneMask(d))
  {
    var s := PhoneMask(d);
    assert s[1..3] == d[..2];
    assert s[5..|s| - 5] == d[2..|d| - 4];
    assert s[|s| - 4..] == d[|d| - 4..];
  }

  /** `validators.formatCPF`: the CPF mask on the first run of eleven digits, without cleaning. */
  function FormatCpf(s: string): string {
    ReplaceCpf(s)
  }

  /** `validators.formatTelefone`: the telephone mask on the first run of ten digits. */
  function FormatTelefone(s: string): string {
    ReplacePhoneFlexible(s)
  }

  /** On eleven bare digits `formatCPF` gives `ddd.ddd.ddd-dd`. */
  lemma FormatCpfOfDigits(d: string)
    requires |d| == 11 && AllDigits(d)
    ensures FormatCpf(d) == CpfMask(d)
  {
    ReplaceCpfOfDigits(d);
    assert d[..11] == d && d[11..] == [];
  }

  /** Masking does not change the answer of the CPF validator. */
  lemma FormatCpfKeepsValidity(s: string)
    ensures CpfScheme.IsValid(FormatCpf(s)) == CpfScheme.IsValid(s)
  {
    ReplaceCpfKeepsDigits(s);
  }

  /** A masked ten- or eleven-digit number passes `validators.telefone`. */
  lemma TelefoneOfFormatTelefone(d: string)
    requires PhoneDigits(d)
    ensures Telefone(FormatTelefone(d))
  {
    ReplacePhoneFlexibleOfDigits(d);
    TelefoneOfMask(d);
  }

  /**
   * The masked pattern accepts what `utils.formatarTelefone` produces exactly
   * when the digit-count check of `validarTelefone` accepts the input.
   */
  lemma TelefoneOfFormatarTelefone(s: string)
    ensures Telefone(BrowserUtils.FormatarTelefone(s)) == ServerValidators.ValidarTelefone(s)
  {
    var d := LimparNumeros(s);
    BrowserUtils.FormatarTelefoneShape(s);
    if PhoneDigits(d) {
      TelefoneOfMask(d);
    } else if |d| > 0 {
      assert IsDigit(d[0]);
    }
  }
}
