/** `Padaria` (table TB_PADARIA): a bakery, identified by its unique CNPJ,
    owning its employees and its batches. */
module PadariaEntity {
  import opened JavaLang
  import opened BeanValidation
  import opened ConstraintSets
  import CepPernambucoValidator

  /** The persistent state of a `Padaria`. Its `funcionarios` and `fornadas`
      lists are the inverse sides of `Funcionario.padaria` and
      `Fornada.padaria`: the store derives them from the foreign keys. */
  datatype Padaria = Padaria(
    id: Option<Long>,
    nome: Option<string>,
    cep: Option<string>,
    cnpj: Option<string>)

  function NomeProperty(p: Padaria): Property {
    Property("nome", TextValue(p.nome), [NotBlank, SizeMax(255)])
  }

  /** Only `@Size(min = 9, max = 9)` is declared on the postal code: the
      `@CepPernambuco` constraint exists but is not attached to the field. */
  function CepProperty(p: Padaria): Property {
    Property("cep", TextValue(p.cep), [Size(9, 9)])
  }

  /** No check-digit constraint is declared on the CNPJ. */
  function CnpjProperty(p: Padaria): Property {
    Property("cnpj", TextValue(p.cnpj), [NotBlank, Size(14, 14)])
  }

  /** The postal code is optional; when present its `length()` is exactly 9. */
  predicate CepOk(c: Option<string>) {
    c.None? || Utf16Length(c.value) == 9
  }

  /** The CNPJ is present, not blank and of `length()` exactly 14. */
  predicate CnpjOk(c: Option<string>) {
    c.Some? && |Trim(c.value)| > 0 && Utf16Length(c.value) == 14
  }

  lemma CepRules(p: Padaria, now: int, lib: Library)
    ensures WellTyped(CepProperty(p))
    ensures ReportsAs(PropertyViolations(CepProperty(p), now, lib), "cep",
                      CepOk(p.cep))
  {
    AllHoldUnfolds(CepProperty(p), now, lib);
    ReportAs(CepProperty(p), CepOk(p.cep), now, lib);
  }

  lemma CnpjRules(p: Padaria, now: int, lib: Library)
    ensures WellTyped(CnpjProperty(p))
    ensures ReportsAs(PropertyViolations(CnpjProperty(p), now, lib), "cnpj",
                      CnpjOk(p.cnpj))
  {
    var cp := CnpjProperty(p);
    AllHoldUnfolds(cp, now, lib);
    assert Holds(NotBlank, cp.value, now, lib) <==> p.cnpj.Some? && |Trim(p.cnpj.value)| > 0;
    assert Holds(Size(14, 14), cp.value, now, lib) <==> p.cnpj.None? || Utf16Length(p.cnpj.value) == 14;
    ReportAs(CnpjProperty(p), CnpjOk(p.cnpj), now, lib);
  }

  predicate Admissible(p: Padaria) {
    TextOk(p.nome, 255) && CepOk(p.cep) && CnpjOk(p.cnpj)
  }

  /** `validate`: the name is reported exactly when it is missing, blank or
      over 255 UTF-16 units, the postal code exactly when it is present with
      a length other than 9, the CNPJ exactly when it is missing, blank or
      not 14 units long. */
  function Validate(p: Padaria, now: int, lib: Library): (vs: set<Violation>)
    ensures FieldsOf(vs) <= {"nome", "cep", "cnpj"}
    ensures "nome" in FieldsOf(vs) <==> !TextOk(p.nome, 255)
    ensures "cep" in FieldsOf(vs) <==> !CepOk(p.cep)
    ensures "cnpj" in FieldsOf(vs) <==> !CnpjOk(p.cnpj)
    ensures vs == {} <==> Admissible(p)
  {
    TextRules(NomeProperty(p), p.nome, 255, now, lib);
    CepRules(p, now, lib);
    CnpjRules(p, now, lib);
    var nome := PropertyViolations(NomeProperty(p), now, lib);
    var cep := PropertyViolations(CepProperty(p), now, lib);
    var cnpj := PropertyViolations(CnpjProperty(p), now, lib);
    Report3(nome, cep, cnpj, "nome", "cep", "cnpj", TextOk(p.nome, 255), CepOk(p.cep), CnpjOk(p.cnpj));
    nome + cep + cnpj
  }

  /** The bakery of the persistence tests, in Recife. */
  function Sample(): Padaria {
    Padaria(None, Some("Padaria Boa Viagem"), Some("51020-000"), Some("72980105000165"))
  }

  lemma SampleIsValid(now: int, lib: Library)
    ensures Validate(Sample(), now, lib) == {}
  {
    assert !IsTrimmed(Sample().nome.value[0]);
    assert !IsTrimmed(Sample().cnpj.value[0]);
    BmpLength(Sample().cep.value);
    BmpLength(Sample().cnpj.value);
  }

  /** Any postal code of length 9 is accepted, whatever region it belongs
      to. */
  lemma AnyCepOfLengthNine(cep: string, now: int, lib: Library)
    requires Utf16Length(cep) == 9
    ensures Validate(Sample().(cep := Some(cep)), now, lib) == {}
  {
    SampleIsValid(now, lib);
    assert Admissible(Sample().(cep := Some(cep)));
  }

  /** The Sao Paulo and Rio de Janeiro codes of the tests pass validation
      although `@CepPernambuco` would reject both. */
  lemma OutOfStateCepAccepted(now: int, lib: Library)
    ensures Validate(Sample().(cep := Some("01310-100")), now, lib) == {}
    ensures Validate(Sample().(cep := Some("22041-001")), now, lib) == {}
    ensures !CepPernambucoValidator.IsValid(Some("01310-100"))
    ensures !CepPernambucoValidator.IsValid(Some("22041-001"))
  {
    BmpLength("01310-100");
    AnyCepOfLengthNine("01310-100", now, lib);
    BmpLength("22041-001");
    AnyCepOfLengthNine("22041-001", now, lib);
    CepPernambucoValidator.Examples();
  }

  /** Only the presence and the length of the CNPJ are checked: any
      visible value of length 14 is accepted, check digits and letters
      alike. */
  lemma CnpjCheckDigitsIgnored(cnpj: string, now: int, lib: Library)
    requires |Trim(cnpj)| > 0 && Utf16Length(cnpj) == 14
    ensures Validate(Sample().(cnpj := Some(cnpj)), now, lib) == {}
  {
    var p := Sample().(cnpj := Some(cnpj));
    SampleIsValid(now, lib);
    assert Admissible(p);
  }

  /** The number with wrong check digits of the persistence test,
      "11122233300099", is accepted. */
  lemma TestCnpjAccepted(now: int, lib: Library)
    ensures Validate(Sample().(cnpj := Some("11122233300099")), now, lib) == {}
  {
    var c := "11122233300099";
    assert !IsTrimmed(c[0]);
    BmpLength(c);
    CnpjCheckDigitsIgnored(c, now, lib);
  }

  /** A postal code present with a length other than 9 breaks `@Size` and
      nothing else on `cep`. */
  lemma CepOfWrongLength(p: Padaria, now: int, lib: Library)
    requires p.cep.Some? && Utf16Length(p.cep.value) != 9
    ensures WellTyped(CepProperty(p))
    ensures PropertyViolations(CepProperty(p), now, lib) == {Violation("cep", Size(9, 9))}
  {
    var cp := CepProperty(p);
    assert !Holds(Size(9, 9), cp.value, now, lib);
    FailsOnlyAt(cp, 0, now, lib);
  }

  /** The unhyphenated code "55000000" has 8 characters and breaks only
      `@Size`. */
  lemma UnhyphenatedCepRejected(now: int, lib: Library)
    ensures Validate(Sample().(cep := Some("55000000")), now, lib) == {Violation("cep", Size(9, 9))}
  {
    var p := Sample().(cep := Some("55000000"));
    SampleIsValid(now, lib);
    BmpLength("55000000");
    TextRules(NomeProperty(p), p.nome, 255, now, lib);
    CnpjRules(p, now, lib);
    CepOfWrongLength(p, now, lib);
  }
}
