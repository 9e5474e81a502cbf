/**
 * The server-side validators of `src/server/utils/validators.js`. The browser
 * helpers of `src/public/assets/js/utils.js` repeat `limparNumeros`,
 * `validarCPF`, `validarEmail` and `validarTelefone` character for character,
 * so the members here stand for both copies.
 */
module ServerValidators {
  import opened Common
  import opened Digits
  import Cpf
  import Masks

  /**
   * `validarCPF`: clean, check the length, reject a repeated digit, then
   * accumulate the two weighted sums and compare each check digit, returning
   * `false` at the first test that fails.
   */
  method ValidarCpf(input: string) returns (valid: bool)
    ensures valid == Cpf.IsValid(input)
  {
    var cpf := LimparNumeros(input);
    if |cpf| != 11 {
      return false;
    }
    if Cpf.RepeatedDigit(cpf) {
      return false;
    }
    var soma := 0;
    for i := 0 to 9
      invariant soma == Cpf.WeightedSum(cpf, i, 10)
    {
      soma := soma + DigitValue(cpf[i]) * (10 - i);
    }
    var resto := 11 - soma % 11;
    var digitoVerificador1 := if resto > 9 then 0 else resto;
    if digitoVerificador1 != DigitValue(cpf[9]) {
      return false;
    }
    soma := 0;
    for i := 0 to 10
      invariant soma == Cpf.WeightedSum(cpf, i, 11)
    {
      soma := soma + DigitValue(cpf[i]) * (11 - i);
    }
    resto := 11 - soma % 11;
    var digitoVerificador2 := if resto > 9 then 0 else resto;
    if digitoVerificador2 != DigitValue(cpf[10]) {
      return false;
    }
    return true;
  }

  // ----- validarEmail: /^[a-zA-Z0-9._%+-]+@[a-zA-Z0-9.-]+\.[a-zA-Z]{2,}$/ -----

  predicate Letter(c: char) {
    'a' <= c <= 'z' || 'A' <= c <= 'Z'
  }

  /** The class `[a-zA-Z0-9._%+-]` of the local part. */
  predicate LocalChar(c: char) {
    Letter(c) || IsDigit(c) || c == '.' || c == '_' || c == '%' || c == '+' || c == '-'
  }

  /** The class `[a-zA-Z0-9.-]` of the domain. */
  predicate DomainChar(c: char) {
    Letter(c) || IsDigit(c) || c == '.' || c == '-'
  }

  /**
   * The pattern matches `s` with its `@` at `at` and its last literal `.` at
   * `dot`: a non-empty local part, a non-empty domain, and two or more letters.
   */
  predicate EmailSplit(s: string, at: nat, dot: nat) {
    && 0 < at && at + 1 < dot && dot + 3 <= |s|
    && s[at] == '@' && s[dot] == '.'
    && (forall i | 0 <= i < at :: LocalChar(s[i]))
    && (forall i | at < i < dot :: DomainChar(s[i]))
    && (forall i | dot < i < |s| :: Letter(s[i]))
  }

  /** What the anchored regular expression accepts: some way to split `s`. */
  ghost predicate EmailPattern(s: string) {
    exists at: nat, dot: nat | at < dot < |s| :: EmailSplit(s, at, dot)
  }

  /** The length of the longest prefix of `s` made of local-part characters. */
  function LocalSpan(s: string): (n: nat)
    ensures n <= |s|
    ensures forall i | 0 <= i < n :: LocalChar(s[i])
    ensures n < |s| ==> !LocalChar(s[n])
  {
    if s == [] || !LocalChar(s[0]) then 0 else 1 + LocalSpan(s[1..])
  }

  /** The position of the last `c` in `s`, if any. */
  function LastIndexOf(s: string, c: char): (r: Option<nat>)
    ensures r.Some? ==> r.value < |s| && s[r.value] == c
    ensures r.Some? ==> forall i | r.value < i < |s| :: s[i] != c
    ensures r.None? ==> forall i | 0 <= i < |s| :: s[i] != c
  {
    if s == [] then None
    else if s[|s| - 1] == c then Some(|s| - 1)
    else LastIndexOf(s[..|s| - 1], c)
  }

  /**
   * `validarEmail`. The `@` cannot occur in the local part, and no `.` occurs
   * among the final letters, so the only candidate split is the end of the
   * longest local prefix and the last `.` of the string.
   */
  function ValidarEmail(s: string): (ok: bool)
    ensures ok ==> EmailPattern(s)
  {
    match LastIndexOf(s, '.')
    case None => false
    case Some(dot) => LocalSpan(s) < dot && EmailSplit(s, LocalSpan(s), dot)
  }

  /** `validarEmail` accepts exactly the strings the regular expression matches. */
  lemma ValidarEmailIsPattern(s: string)
    ensures ValidarEmail(s) <==> EmailPattern(s)
  {
    if EmailPattern(s) {
      var at: nat, dot: nat :| at < dot < |s| && EmailSplit(s, at, dot);
      assert !LocalChar(s[at]);
      assert LocalSpan(s) == at;
      assert forall i | dot < i < |s| :: s[i] != '.';
      assert LastIndexOf(s, '.') == Some(dot);
    }
  }

  /** An accepted address has exactly one `@`, the one that splits it. */
  lemma EmailHasOneAt(s: string, at: nat, dot: nat)
    requires at < dot < |s| && EmailSplit(s, at, dot)
    ensures forall i | 0 <= i < |s| && s[i] == '@' :: i == at
  {
  }

  /** The address of the usage comment is accepted. */
  lemma EmailAccepted()
    ensures ValidarEmail("usuario@dominio.com")
  {
    var s := "usuario@dominio.com";
    assert EmailSplit(s, 7, 15);
    ValidarEmailIsPattern(s);
  }

  /** A string without `@` is rejected, e.g. "email.invalido". */
  lemma EmailWithoutAtRejected(s: string)
    requires forall i | 0 <= i < |s| :: s[i] != '@'
    ensures !ValidarEmail(s)
  {
    ValidarEmailIsPattern(s);
  }

  lemma EmailRejected()
    ensures !ValidarEmail("email.invalido")
  {
    var s := "email.invalido";
    assert forall i | 0 <= i < |s| :: s[i] != '@';
    EmailWithoutAtRejected(s);
  }

  // ----- validarTelefone -----

  /** `validarTelefone`: ten or eleven digits once the punctuation is removed. */
  function ValidarTelefone(s: string): (ok: bool)
    ensures ok ==> |s| >= 10
    ensures AllDigits(s) ==> (ok <==> |s| == 10 || |s| == 11)
  {
    var numero := LimparNumeros(s);
    if AllDigits(s) then
      LimparNumerosOfDigits(s);
      |numero| >= 10 && |numero| <= 11
    else
      |numero| >= 10 && |numero| <= 11
  }

  /** '(11) 98765-4321' is accepted. */
  lemma TelefoneAccepted()
    ensures ValidarTelefone("(11) 98765-4321")
  {
    var d := "11987654321";
    assert AllDigits(d);
    var m := Masks.PhoneMask(d);
    assert m == "(11) 98765-4321" by {
      assert d[..2] == "11" && d[2..7] == "98765" && d[7..] == "4321";
    }
    Masks.PhoneMaskDigits(d);
    assert ValidarTelefone(m);
  }

  /** '123' is rejected. */
  lemma TelefoneRejected()
    ensures !ValidarTelefone("123")
  {
    assert |LimparNumeros("123")| <= 3;
  }
}
