/** `@SemNumero`: a string constraint that rejects values containing a digit,
    implemented with `String.matches(".*\\d.*")`. */
module SemNumeroValidator {
  import opened JavaLang
  import opened JavaRegex

  /** `isValid`: a null value is left to `@NotNull`/`@NotBlank`; otherwise the
      value is rejected exactly when `.*\d.*` matches the WHOLE of it. Because
      `.` stops at line terminators, a value holding both a digit and a line
      terminator is accepted. */
  function IsValid(valor: Option<string>): (ok: bool)
    ensures ok <==> valor.None? || !HasDigit(valor.value) || HasLineTerminator(valor.value)
  {
    match valor
    case None => true
    case Some(s) =>
      ContainsDigitPatternMatches(s);
      !Matches(ContainsDigitPattern, s)
  }

  /** On single-line values the validator is exactly "contains no digit". */
  lemma SingleLineMeansNoDigit(s: string)
    requires !HasLineTerminator(s)
    ensures IsValid(Some(s)) <==> forall i :: 0 <= i < |s| ==> !IsAsciiDigit(s[i])
  {
  }

  /** The rejected names of the persistence tests. */
  lemma RejectsNamesWithDigits()
    ensures !IsValid(Some("Farinha Tipo 1"))
    ensures !IsValid(Some("Banco 24 Horas"))
  {
    var a := "Farinha Tipo 1";
    assert IsAsciiDigit(a[13]);
    var b := "Banco 24 Horas";
    assert IsAsciiDigit(b[6]);
  }

  /** A digit on the second line escapes the pattern. */
  lemma AcceptsDigitAfterLineBreak()
    ensures IsValid(Some("Farinha\nTipo 1"))
  {
    var s := "Farinha\nTipo 1";
    assert IsLineTerminator(s[7]);
  }
}
