/** `@CepPernambuco`: a postal code (CEP) constraint accepting codes of the
    region whose codes begin with 5. */
module CepPernambucoValidator {
  import opened JavaLang

  /** `isValid`: a null value is accepted (left to `@NotNull`); otherwise every
      hyphen is removed (`replace("-", "")`), the result is trimmed, and the
      code is valid when what remains starts with "5". */
  function IsValid(cep: Option<string>): (ok: bool)
    ensures ok <==> cep.None? || FirstSignificant(cep.value) == Some('5')
  {
    match cep
    case None => true
    case Some(s) =>
      var cleaned := Trim(DeleteAll(s, '-'));
      TrimBeginsWithFirstVisible(DeleteAll(s, '-'));
      FirstVisibleIgnoresHyphens(s);
      |cleaned| >= 1 && cleaned[0] == '5'
  }

  /** Reference reading of the rule: the first character that is neither a
      hyphen nor one `trim` would strip. */
  function FirstSignificant(s: string): Option<char> {
    if s == [] then None
    else if s[0] != '-' && !IsTrimmed(s[0]) then Some(s[0])
    else FirstSignificant(s[1..])
  }

  /** Deleting hyphens and then looking for the first visible character finds
      the first significant character of the raw code. */
  lemma {:induction false} FirstVisibleIgnoresHyphens(s: string)
    ensures FirstVisible(DeleteAll(s, '-')) == FirstSignificant(s)
  {
    if s != [] {
      FirstVisibleIgnoresHyphens(s[1..]);
      if s[0] != '-' {
        assert ([s[0]] + DeleteAll(s[1..], '-'))[1..] == DeleteAll(s[1..], '-');
      }
    }
  }

  /** A code with nothing but hyphens and blanks is rejected, the empty code
      included. */
  lemma RejectsBlankCodes(s: string)
    requires forall k :: 0 <= k < |s| ==> s[k] == '-' || IsTrimmed(s[k])
    ensures !IsValid(Some(s))
  {
    NothingSignificant(s);
  }

  lemma {:induction false} NothingSignificant(s: string)
    requires forall k :: 0 <= k < |s| ==> s[k] == '-' || IsTrimmed(s[k])
    ensures FirstSignificant(s) == None
  {
    if s != [] {
      NothingSignificant(s[1..]);
    }
  }

  /** Only the first significant character decides: once a code has one,
      appending characters never changes the verdict. */
  lemma {:induction false} AppendKeepsVerdict(s: string, t: string)
    requires FirstSignificant(s).Some?
    ensures FirstSignificant(s + t) == FirstSignificant(s)
    ensures IsValid(Some(s + t)) == IsValid(Some(s))
  {
    assert (s + t)[0] == s[0];
    if s[0] == '-' || IsTrimmed(s[0]) {
      assert (s + t)[1..] == s[1..] + t;
      AppendKeepsVerdict(s[1..], t);
    }
  }

  /** The codes of the bakery persistence tests, as validator inputs: a
      Recife code is accepted, Sao Paulo and Rio de Janeiro codes are not. */
  lemma Examples()
    ensures IsValid(Some("51020-000"))
    ensures !IsValid(Some("01310-100"))
    ensures !IsValid(Some("22041-001"))
  {
    Verdict("51020-000");
    Verdict("01310-100");
    Verdict("22041-001");
  }

  /** The verdict on a code that starts with a digit is read off that digit. */
  lemma Verdict(s: string)
    requires |s| > 0 && '0' <= s[0] <= '9'
    ensures IsValid(Some(s)) <==> s[0] == '5'
  {
  }
}
