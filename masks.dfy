/**
 * The display masks and what `String.prototype.replace` does with them. Each
 * mask regular expression is a fixed run of `\d` groups, without the `g` flag
 * and without anchors, so `replace` rewrites the LEFTMOST place where the run
 * of digits occurs and leaves the rest of the string as it was.
 */
module Masks {
  import opened Common
  import opened Digits

  /** `n` digits in a row start at position `j` of `s`. */
  predicate RunAt(s: string, n: nat, j: nat) {
    j + n <= |s| && AllDigits(s[j..j + n])
  }

  /** Where a regular expression made of `n` consecutive `\d` first matches, searching from `from`. */
  function FirstRun(s: string, n: nat, from: nat): (r: Option<nat>)
    ensures r.Some? ==> from <= r.value && RunAt(s, n, r.value)
    ensures r.Some? ==> forall j | from <= j < r.value :: !RunAt(s, n, j)
    ensures r.None? ==> forall j | from <= j :: !RunAt(s, n, j)
    decreases |s| - from
  {
    if from + n > |s| then None
    else if RunAt(s, n, from) then Some(from)
    else FirstRun(s, n, from + 1)
  }

  /** `'$1.$2.$3-$4'` applied to eleven digits: `ddd.ddd.ddd-dd`. */
  function CpfMask(d: string): string
    requires |d| == 11
  {
    d[..3] + "." + d[3..6] + "." + d[6..9] + "-" + d[9..]
  }

  /** `'($1) $2-$3'` applied to ten or eleven digits: `(dd) dddd-dddd` or `(dd) ddddd-dddd`. */
  function PhoneMask(d: string): string
    requires |d| == 10 || |d| == 11
  {
    "(" + d[..2] + ") " + d[2..|d| - 4] + "-" + d[|d| - 4..]
  }

  /** `s.replace(/(\d{3})(\d{3})(\d{3})(\d{2})/, '$1.$2.$3-$4')` */
  function ReplaceCpf(s: string): string {
    match FirstRun(s, 11, 0)
    case None => s
    case Some(i) => s[..i] + CpfMask(s[i..i + 11]) + s[i + 11..]
  }

  /**
   * `s.replace(/(\d{2})(\d{m})(\d{4})/, '($1) $2-$3')` for a fixed middle
   * width `m` of 4 or 5: the pattern is a run of `6 + m` digits.
   */
  function ReplacePhone(s: string, m: nat): string
    requires m == 4 || m == 5
  {
    match FirstRun(s, 6 + m, 0)
    case None => s
    case Some(i) => s[..i] + PhoneMask(s[i..i + 6 + m]) + s[i + 6 + m..]
  }

  /**
   * `s.replace(/(\d{2})(\d{4,5})(\d{4})/, '($1) $2-$3')`: the pattern matches
   * where ten digits in a row start; the greedy `\d{4,5}` takes five digits
   * when an eleventh digit follows.
   */
  function ReplacePhoneFlexible(s: string): string {
    match FirstRun(s, 10, 0)
    case None => s
    case Some(i) =>
      var n := if RunAt(s, 11, i) then 11 else 10;
      s[..i] + PhoneMask(s[i..i + n]) + s[i + n..]
  }

  lemma LimparNumerosOfPunctuation()
    ensures LimparNumeros(".") == [] && LimparNumeros("-") == []
    ensures LimparNumeros("(") == [] && LimparNumeros(") ") == []
  {
    LimparNumerosOfNonDigits(") ");
  }

  /** Cleaning the CPF mask gives back its eleven digits. */
  lemma {:induction false} CpfMaskDigits(d: string)
    requires |d| == 11 && AllDigits(d)
    ensures LimparNumeros(CpfMask(d)) == d
  {
    LimparNumerosOfPunctuation();
    var a, b, c, e := d[..3], d[3..6], d[6..9], d[9..];
    LimparNumerosOfDigits(a);
    LimparNumerosOfDigits(b);
    LimparNumerosOfDigits(c);
    LimparNumerosOfDigits(e);
    LimparNumerosAppend(a, ".");
    LimparNumerosAppend(a + ".", b);
    LimparNumerosAppend(a + "." + b, ".");
    LimparNumerosAppend(a + "." + b + ".", c);
    LimparNumerosAppend(a + "." + b + "." + c, "-");
    LimparNumerosAppend(a + "." + b + "." + c + "-", e);
    assert a + b + c + e == d;
  }

  /** Cleaning the phone mask gives back its digits. */
  lemma {:induction false} PhoneMaskDigits(d: string)
    requires (|d| == 10 || |d| == 11) && AllDigits(d)
    ensures LimparNumeros(PhoneMask(d)) == d
  {
    LimparNumerosOfPunctuation();
    var a, b, c := d[..2], d[2..|d| - 4], d[|d| - 4..];
    LimparNumerosOfDigits(a);
    LimparNumerosOfDigits(b);
    LimparNumerosOfDigits(c);
    LimparNumerosAppend("(", a);
    LimparNumerosAppend("(" + a, ") ");
    LimparNumerosAppend("(" + a + ") ", b);
    LimparNumerosAppend("(" + a + ") " + b, "-");
    LimparNumerosAppend("(" + a + ") " + b + "-", c);
    assert a + b + c == d;
  }

  /** Replacing a slice of digits by its mask keeps the digits of the whole string. */
  lemma SpliceKeepsDigits(s: string, i: nat, j: nat, masked: string)
    requires i <= j <= |s|
    requires LimparNumeros(masked) == LimparNumeros(s[i..j])
    ensures LimparNumeros(s[..i] + masked + s[j..]) == LimparNumeros(s)
  {
    LimparNumerosAppend(s[..i], masked);
    LimparNumerosAppend(s[..i] + masked, s[j..]);
    LimparNumerosAppend(s[..i], s[i..j]);
    LimparNumerosAppend(s[..i] + s[i..j], s[j..]);
    assert s[..i] + s[i..j] + s[j..] == s;
  }

  /** The CPF mask only inserts punctuation: the digits, in order, are unchanged. */
  lemma ReplaceCpfKeepsDigits(s: string)
    ensures LimparNumeros(ReplaceCpf(s)) == LimparNumeros(s)
  {
    match FirstRun(s, 11, 0)
    case None =>
    case Some(i) =>
      var d := s[i..i + 11];
      CpfMaskDigits(d);
      LimparNumerosOfDigits(d);
      SpliceKeepsDigits(s, i, i + 11, CpfMask(d));
  }

  /** The fixed-width phone masks only insert punctuation. */
  lemma ReplacePhoneKeepsDigits(s: string, m: nat)
    requires m == 4 || m == 5
    ensures LimparNumeros(ReplacePhone(s, m)) == LimparNumeros(s)
  {
    match FirstRun(s, 6 + m, 0)
    case None =>
    case Some(i) =>
      var d := s[i..i + 6 + m];
      PhoneMaskDigits(d);
      LimparNumerosOfDigits(d);
      SpliceKeepsDigits(s, i, i + 6 + m, PhoneMask(d));
  }

  /** The flexible phone mask only inserts punctuation. */
  lemma ReplacePhoneFlexibleKeepsDigits(s: string)
    ensures LimparNumeros(ReplacePhoneFlexible(s)) == LimparNumeros(s)
  {
    match FirstRun(s, 10, 0)
    case None =>
    case Some(i) =>
      var n := if RunAt(s, 11, i) then 11 else 10;
      var d := s[i..i + n];
      PhoneMaskDigits(d);
      LimparNumerosOfDigits(d);
      SpliceKeepsDigits(s, i, i + n, PhoneMask(d));
  }

  /** On a string of digits the CPF pattern matches at the start, if at all. */
  lemma ReplaceCpfOfDigits(d: string)
    requires AllDigits(d)
    ensures |d| < 11 ==> ReplaceCpf(d) == d
    ensures |d| >= 11 ==> ReplaceCpf(d) == CpfMask(d[..11]) + d[11..]
  {
    if |d| >= 11 {
      RunAtStart(d, 11);
      var m := CpfMask(d[..11]);
      assert ReplaceCpf(d) == d[..0] + m + d[11..];
      assert d[..0] + m == m;
    }
  }

  /** A string of at least `n` digits has its first run of `n` digits at the start. */
  lemma RunAtStart(d: string, n: nat)
    requires AllDigits(d) && n <= |d|
    ensures FirstRun(d, n, 0) == Some(0)
    ensures d[0..n] == d[..n]
  {
    assert forall i | 0 <= i < n :: d[0..n][i] == d[i];
    assert RunAt(d, n, 0);
  }

  /** On a string of exactly `6 + m` digits the phone pattern masks the whole string. */
  lemma ReplacePhoneOfDigits(d: string, m: nat)
    requires m == 4 || m == 5
    requires AllDigits(d) && |d| == 6 + m
    ensures ReplacePhone(d, m) == PhoneMask(d)
  {
    assert RunAt(d, 6 + m, 0);
    assert d[..0] == [] && d[0..|d|] == d && d[|d|..] == [];
  }

  /** On a string of ten or eleven digits the flexible phone pattern masks the whole string. */
  lemma ReplacePhoneFlexibleOfDigits(d: string)
    requires AllDigits(d) && (|d| == 10 || |d| == 11)
    ensures ReplacePhoneFlexible(d) == PhoneMask(d)
  {
    assert RunAt(d, 10, 0);
    assert d[..0] == [] && d[0..|d|] == d && d[|d|..] == [];
  }
}
