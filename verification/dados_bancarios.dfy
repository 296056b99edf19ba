/** `DadosBancarios` (table TB_DADOS_BANCARIOS): the bank account of one
    employee, with its three constrained text fields. */
module DadosBancariosEntity {
  import opened JavaLang
  import opened JavaRegex
  import opened BeanValidation
  import opened ConstraintSets
  import SemNumeroValidator

  /** The persistent state of a `DadosBancarios`. The `funcionario` field is
      the inverse (`mappedBy`) side of `Funcionario.dadosBancarios`: it owns
      no column and carries no constraint, so the record leaves it out and
      the store derives it from the employee's foreign key. */
  datatype DadosBancarios = DadosBancarios(
    id: Option<Long>,
    banco: Option<string>,
    agencia: Option<string>,
    conta: Option<string>)

  function BancoProperty(d: DadosBancarios): Property {
    Property("banco", TextValue(d.banco), [NotBlank, SizeMax(100), SemNumero])
  }

  function AgenciaProperty(d: DadosBancarios): Property {
    Property("agencia", TextValue(d.agencia), [NotBlank, SizeMax(10), Pattern(DigitsAndHyphens)])
  }

  function ContaProperty(d: DadosBancarios): Property {
    Property("conta", TextValue(d.conta), [NotBlank, SizeMax(20), Pattern(DigitsAndHyphens)])
  }

  /** Every field rule of a `DadosBancarios` satisfied. */
  predicate Admissible(d: DadosBancarios) {
    NameOk(d.banco, 100) && NumberOk(d.agencia, 10) && NumberOk(d.conta, 20)
  }

  /** `validate`: the violations of a `DadosBancarios`. Each field is
      reported exactly when its reference rule fails, and no other property
      path is ever reported. */
  function Validate(d: DadosBancarios, now: int, lib: Library): (vs: set<Violation>)
    ensures FieldsOf(vs) <= {"banco", "agencia", "conta"}
    ensures "banco" in FieldsOf(vs) <==> !NameOk(d.banco, 100)
    ensures "agencia" in FieldsOf(vs) <==> !NumberOk(d.agencia, 10)
    ensures "conta" in FieldsOf(vs) <==> !NumberOk(d.conta, 20)
    ensures vs == {} <==> Admissible(d)
  {
    NameRules(BancoProperty(d), d.banco, 100, now, lib);
    NumberRules(AgenciaProperty(d), d.agencia, 10, now, lib);
    NumberRules(ContaProperty(d), d.conta, 20, now, lib);
    var banco := PropertyViolations(BancoProperty(d), now, lib);
    var agencia := PropertyViolations(AgenciaProperty(d), now, lib);
    var conta := PropertyViolations(ContaProperty(d), now, lib);
    Report3(banco, agencia, conta, "banco", "agencia", "conta",
            NameOk(d.banco, 100), NumberOk(d.agencia, 10), NumberOk(d.conta, 20));
    banco + agencia + conta
  }

  /** The account of the validation tests. */
  function Sample(): DadosBancarios {
    DadosBancarios(None, Some("Banco Digital Nubank"), Some("0001"), Some("12345-6"))
  }

  /** The sample's bank name passes its three constraints. */
  lemma SampleBancoClean(d: DadosBancarios, now: int, lib: Library)
    requires d.banco == Sample().banco
    ensures WellTyped(BancoProperty(d)) && PropertyViolations(BancoProperty(d), now, lib) == {}
  {
    var b := d.banco.value;
    assert !IsTrimmed(b[0]);
    assert !HasDigit(b) by {
      forall i | 0 <= i < |b| ensures !IsAsciiDigit(b[i]) {
      }
    }
    NameRules(BancoProperty(d), d.banco, 100, now, lib);
  }

  /** The sample's branch number passes its three constraints. */
  lemma SampleAgenciaClean(d: DadosBancarios, now: int, lib: Library)
    requires d.agencia == Sample().agencia
    ensures WellTyped(AgenciaProperty(d)) && PropertyViolations(AgenciaProperty(d), now, lib) == {}
  {
    assert NumberOk(d.agencia, 10);
    NumberRules(AgenciaProperty(d), d.agencia, 10, now, lib);
  }

  /** The sample's account number passes its three constraints. */
  lemma SampleContaClean(d: DadosBancarios, now: int, lib: Library)
    requires d.conta == Sample().conta
    ensures WellTyped(ContaProperty(d)) && PropertyViolations(ContaProperty(d), now, lib) == {}
  {
    assert NumberOk(d.conta, 20);
    NumberRules(ContaProperty(d), d.conta, 20, now, lib);
  }

  /** The sample is fully valid although no employee is attached: the
      back-reference carries no constraint. */
  lemma SampleIsValid(now: int, lib: Library)
    ensures Validate(Sample(), now, lib) == {}
  {
    SampleBancoClean(Sample(), now, lib);
    SampleAgenciaClean(Sample(), now, lib);
    SampleContaClean(Sample(), now, lib);
  }

  /** A branch number with letters breaks only the pattern. */
  lemma LettersInAgencia(now: int, lib: Library)
    ensures Validate(Sample().(agencia := Some("00AB")), now, lib)
         == {Violation("agencia", Pattern(DigitsAndHyphens))}
  {
    var d := Sample().(agencia := Some("00AB"));
    SampleBancoClean(d, now, lib);
    SampleContaClean(d, now, lib);
    PatternIsOnlyFailure(AgenciaProperty(d), "00AB", 10, 2, now, lib);
  }

  /** A blank bank name breaks only `@NotBlank`. */
  lemma BlankBanco(now: int, lib: Library)
    ensures Validate(Sample().(banco := Some("   ")), now, lib)
         == {Violation("banco", NotBlank)}
  {
    var d := Sample().(banco := Some("   "));
    SampleAgenciaClean(d, now, lib);
    SampleContaClean(d, now, lib);
    BlankIsOnlyFailure(BancoProperty(d), d.banco.value, 100, now, lib);
  }

  /** An account number with a letter breaks only the pattern. */
  lemma LetterInConta(now: int, lib: Library)
    ensures Validate(Sample().(conta := Some("123A5-6")), now, lib)
         == {Violation("conta", Pattern(DigitsAndHyphens))}
  {
    var d := Sample().(conta := Some("123A5-6"));
    SampleBancoClean(d, now, lib);
    SampleAgenciaClean(d, now, lib);
    PatternIsOnlyFailure(ContaProperty(d), "123A5-6", 20, 3, now, lib);
  }

  /** A bank name with a digit is rejected by `@SemNumero`. */
  lemma DigitInBanco(now: int, lib: Library)
    ensures Violation("banco", SemNumero)
         in Validate(Sample().(banco := Some("Banco 24 Horas")), now, lib)
  {
    SemNumeroValidator.RejectsNamesWithDigits();
    var d := Sample().(banco := Some("Banco 24 Horas"));
    assert Violation("banco", SemNumero) in PropertyViolations(BancoProperty(d), now, lib);
  }
}
