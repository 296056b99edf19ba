/** `Funcionario` (table TB_FUNCIONARIO): an employee of one bakery, with
    personal data, an employment record, tasks and an optional bank
    account. */
module FuncionarioEntity {
  import opened JavaLang
  import opened BeanValidation
  import opened ConstraintSets

  /** The persistent state of a `Funcionario`. `padaria` is the foreign key
      ID_PADARIA and `dadosBancarios` the unique foreign key
      ID_DADOS_BANCARIOS; the `tarefas` list is the inverse side of
      `Tarefa.funcionario`, which the store derives. */
  datatype Funcionario = Funcionario(
    id: Option<Long>,
    padaria: Option<Long>,
    nome: Option<string>,
    cpf: Option<string>,
    email: Option<string>,
    cargo: Option<string>,
    dataContratacao: Option<int>,
    salario: Option<real>,
    dadosBancarios: Option<Long>)

  function PadariaProperty(f: Funcionario): Property {
    Property("padaria", ReferenceValue(f.padaria), [NotNull])
  }

  /** No digit rule is declared on the employee's name. */
  function NomeProperty(f: Funcionario): Property {
    Property("nome", TextValue(f.nome), [NotBlank, SizeMax(255)])
  }

  function CpfProperty(f: Funcionario): Property {
    Property("cpf", TextValue(f.cpf), [NotBlank, Cpf])
  }

  function EmailProperty(f: Funcionario): Property {
    Property("email", TextValue(f.email), [NotBlank, Email])
  }

  function CargoProperty(f: Funcionario): Property {
    Property("cargo", TextValue(f.cargo), [NotBlank, SizeMax(50)])
  }

  function DataContratacaoProperty(f: Funcionario): Property {
    Property("dataContratacao", InstantValue(f.dataContratacao), [Past])
  }

  function SalarioProperty(f: Funcionario): Property {
    Property("salario", DecimalValue(f.salario), [DecimalMin(1000.0)])
  }

  /** A present, non-blank text that the library validator accepts. */
  predicate CheckedTextOk(t: Option<string>, accepted: iset<string>) {
    t.Some? && |Trim(t.value)| > 0 && t.value in accepted
  }

  /** The hiring date is optional; when present it lies strictly before
      `now`. */
  predicate DataContratacaoOk(d: Option<int>, now: int) {
    d.None? || d.value < now
  }

  /** The salary is optional; when present it is at least 1000.00. */
  predicate SalarioOk(s: Option<real>) {
    s.None? || s.value >= 1000.0
  }

  lemma CheckedTextRules(p: Property, t: Option<string>, rule: Rule, accepted: iset<string>,
                         now: int, lib: Library)
    requires (rule == Cpf && accepted == lib.cpfs) || (rule == Email && accepted == lib.emails)
    requires p.value == TextValue(t) && p.rules == [NotBlank, rule]
    ensures WellTyped(p)
    ensures ReportsAs(PropertyViolations(p, now, lib), p.field, CheckedTextOk(t, accepted))
  {
    AllHoldUnfolds(p, now, lib);
    assert Holds(NotBlank, p.value, now, lib) <==> t.Some? && |Trim(t.value)| > 0;
    assert Holds(rule, p.value, now, lib) <==> t.None? || t.value in accepted;
    ReportAs(p, CheckedTextOk(t, accepted), now, lib);
  }

  lemma DataContratacaoRules(f: Funcionario, now: int, lib: Library)
    ensures WellTyped(DataContratacaoProperty(f))
    ensures ReportsAs(PropertyViolations(DataContratacaoProperty(f), now, lib), "dataContratacao",
                      DataContratacaoOk(f.dataContratacao, now))
  {
    AllHoldUnfolds(DataContratacaoProperty(f), now, lib);
    ReportAs(DataContratacaoProperty(f), DataContratacaoOk(f.dataContratacao, now), now, lib);
  }

  lemma SalarioRules(f: Funcionario, now: int, lib: Library)
    ensures WellTyped(SalarioProperty(f))
    ensures ReportsAs(PropertyViolations(SalarioProperty(f), now, lib), "salario",
                      SalarioOk(f.salario))
  {
    AllHoldUnfolds(SalarioProperty(f), now, lib);
    ReportAs(SalarioProperty(f), SalarioOk(f.salario), now, lib);
  }

  const NAMING_PATHS: set<string> := {"nome", "cargo"}
  const CONTACT_PATHS: set<string> := {"cpf", "email"}
  const EMPLOYMENT_PATHS: set<string> := {"padaria", "dataContratacao", "salario"}

  /** The name and the job title: present, not blank, short enough. */
  predicate NamingOk(f: Funcionario) {
    TextOk(f.nome, 255) && TextOk(f.cargo, 50)
  }

  /** The CPF and the e-mail address: present, not blank, accepted by the
      library validators. */
  predicate ContactOk(f: Funcionario, lib: Library) {
    CheckedTextOk(f.cpf, lib.cpfs) && CheckedTextOk(f.email, lib.emails)
  }

  /** Every employment field rule satisfied. */
  predicate EmploymentOk(f: Funcionario, now: int) {
    f.padaria.Some? && DataContratacaoOk(f.dataContratacao, now) && SalarioOk(f.salario)
  }

  predicate Admissible(f: Funcionario, now: int, lib: Library) {
    NamingOk(f) && ContactOk(f, lib) && EmploymentOk(f, now)
  }

  /** The violations of the name and the job title. */
  function NamingViolations(f: Funcionario, now: int, lib: Library): (vs: set<Violation>)
    ensures FieldsOf(vs) <= NAMING_PATHS
    ensures "nome" in FieldsOf(vs) <==> !TextOk(f.nome, 255)
    ensures "cargo" in FieldsOf(vs) <==> !TextOk(f.cargo, 50)
    ensures vs == {} <==> NamingOk(f)
  {
    TextRules(NomeProperty(f), f.nome, 255, now, lib);
    TextRules(CargoProperty(f), f.cargo, 50, now, lib);
    var nome := PropertyViolations(NomeProperty(f), now, lib);
    var cargo := PropertyViolations(CargoProperty(f), now, lib);
    Report2(nome, cargo, "nome", "cargo", TextOk(f.nome, 255), TextOk(f.cargo, 50));
    nome + cargo
  }

  /** The violations of the CPF and the e-mail address. */
  function ContactViolations(f: Funcionario, now: int, lib: Library): (vs: set<Violation>)
    ensures FieldsOf(vs) <= CONTACT_PATHS
    ensures "cpf" in FieldsOf(vs) <==> !CheckedTextOk(f.cpf, lib.cpfs)
    ensures "email" in FieldsOf(vs) <==> !CheckedTextOk(f.email, lib.emails)
    ensures vs == {} <==> ContactOk(f, lib)
  {
    CheckedTextRules(CpfProperty(f), f.cpf, Cpf, lib.cpfs, now, lib);
    CheckedTextRules(EmailProperty(f), f.email, Email, lib.emails, now, lib);
    var cpf := PropertyViolations(CpfProperty(f), now, lib);
    var email := PropertyViolations(EmailProperty(f), now, lib);
    Report2(cpf, email, "cpf", "email", CheckedTextOk(f.cpf, lib.cpfs),
            CheckedTextOk(f.email, lib.emails));
    cpf + email
  }

  /** The violations of the bakery, hiring date and salary. */
  function EmploymentViolations(f: Funcionario, now: int, lib: Library): (vs: set<Violation>)
    ensures FieldsOf(vs) <= EMPLOYMENT_PATHS
    ensures "padaria" in FieldsOf(vs) <==> f.padaria.None?
    ensures "dataContratacao" in FieldsOf(vs) <==> !DataContratacaoOk(f.dataContratacao, now)
    ensures "salario" in FieldsOf(vs) <==> !SalarioOk(f.salario)
    ensures vs == {} <==> EmploymentOk(f, now)
  {
    PresenceRule(PadariaProperty(f), now, lib);
    DataContratacaoRules(f, now, lib);
    SalarioRules(f, now, lib);
    var padaria := PropertyViolations(PadariaProperty(f), now, lib);
    var data := PropertyViolations(DataContratacaoProperty(f), now, lib);
    var salario := PropertyViolations(SalarioProperty(f), now, lib);
    Report3(padaria, data, salario, "padaria", "dataContratacao", "salario",
            f.padaria.Some?, DataContratacaoOk(f.dataContratacao, now), SalarioOk(f.salario));
    padaria + data + salario
  }

  /** `validate`: the three groups of fields reported together. A group
      is reported on its own paths only, and exactly when one of its rules
      fails; the bank account carries no constraint and is never
      reported. */
  function Validate(f: Funcionario, now: int, lib: Library): (vs: set<Violation>)
    ensures FieldsOf(vs) <= NAMING_PATHS + CONTACT_PATHS + EMPLOYMENT_PATHS
    ensures vs == {} <==> Admissible(f, now, lib)
  {
    var naming := NamingViolations(f, now, lib);
    var contact := ContactViolations(f, now, lib);
    var employment := EmploymentViolations(f, now, lib);
    FieldsOfUnion(naming, contact);
    FieldsOfUnion(naming + contact, employment);
    naming + contact + employment
  }

  /** The employee of the persistence tests, hired yesterday by a persisted
      bakery, with a CPF and an e-mail address the library accepts. */
  function Sample(padaria: Long, now: int): Funcionario {
    Funcionario(None, Some(padaria), Some("Jos\U{e9} da Silva"), Some("743.076.430-46"),
                Some("jose.silva@padaria.com"), Some("Padeiro Senior"), Some(now - DAY),
                Some(2500.0), None)
  }

  /** The library verdicts the sample relies on. */
  predicate LibraryAcceptsSample(lib: Library) {
    "743.076.430-46" in lib.cpfs && "jose.silva@padaria.com" in lib.emails
  }

  lemma SampleIdentityOk(f: Funcionario, padaria: Long, now: int, lib: Library)
    requires LibraryAcceptsSample(lib)
    requires f.nome == Sample(padaria, now).nome && f.cpf == Sample(padaria, now).cpf
    requires f.email == Sample(padaria, now).email && f.cargo == Sample(padaria, now).cargo
    ensures NamingViolations(f, now, lib) == {}
    ensures ContactViolations(f, now, lib) == {}
  {
    assert !IsTrimmed(f.nome.value[0]);
    assert !IsTrimmed(f.cpf.value[0]);
    assert !IsTrimmed(f.email.value[0]);
    assert !IsTrimmed(f.cargo.value[0]);
    assert NamingOk(f) && ContactOk(f, lib);
  }

  lemma SampleIsValid(padaria: Long, now: int, lib: Library)
    requires LibraryAcceptsSample(lib)
    ensures Validate(Sample(padaria, now), now, lib) == {}
  {
    SampleIdentityOk(Sample(padaria, now), padaria, now, lib);
  }

  /** The employment fields that pass their rules report nothing. */
  lemma EmploymentFieldsClean(f: Funcionario, now: int, lib: Library)
    ensures WellTyped(PadariaProperty(f)) && WellTyped(DataContratacaoProperty(f))
    ensures WellTyped(SalarioProperty(f))
    ensures f.padaria.Some? ==> PropertyViolations(PadariaProperty(f), now, lib) == {}
    ensures DataContratacaoOk(f.dataContratacao, now)
        ==> PropertyViolations(DataContratacaoProperty(f), now, lib) == {}
    ensures SalarioOk(f.salario) ==> PropertyViolations(SalarioProperty(f), now, lib) == {}
  {
    PresenceRule(PadariaProperty(f), now, lib);
    DataContratacaoRules(f, now, lib);
    SalarioRules(f, now, lib);
  }

  /** A present salary below 1000.00 breaks only `@DecimalMin`. */
  lemma LowSalario(f: Funcionario, now: int, lib: Library)
    requires f.salario.Some? && f.salario.value < 1000.0
    ensures WellTyped(SalarioProperty(f))
    ensures PropertyViolations(SalarioProperty(f), now, lib) == {Violation("salario", DecimalMin(1000.0))}
  {
    var sp := SalarioProperty(f);
    assert !Holds(DecimalMin(1000.0), sp.value, now, lib);
    FailsOnlyAt(sp, 0, now, lib);
  }

  /** A present hiring date at or after `now` breaks only `@Past`. */
  lemma LateDataContratacao(f: Funcionario, now: int, lib: Library)
    requires f.dataContratacao.Some? && f.dataContratacao.value >= now
    ensures WellTyped(DataContratacaoProperty(f))
    ensures PropertyViolations(DataContratacaoProperty(f), now, lib)
         == {Violation("dataContratacao", Past)}
  {
    var dp := DataContratacaoProperty(f);
    assert !Holds(Past, dp.value, now, lib);
    FailsOnlyAt(dp, 0, now, lib);
  }

  /** A salary of 900.00 breaks only `@DecimalMin`. */
  lemma LowSalarioRejected(padaria: Long, now: int, lib: Library)
    requires LibraryAcceptsSample(lib)
    ensures Validate(Sample(padaria, now).(salario := Some(900.0)), now, lib)
         == {Violation("salario", DecimalMin(1000.0))}
  {
    var f := Sample(padaria, now).(salario := Some(900.0));
    SampleIdentityOk(f, padaria, now, lib);
    EmploymentFieldsClean(f, now, lib);
    LowSalario(f, now, lib);
  }

  /** A hiring date of tomorrow, or any moment from `now` on, breaks only
      `@Past`. */
  lemma LateHireRejected(date: int, padaria: Long, now: int, lib: Library)
    requires LibraryAcceptsSample(lib) && date >= now
    ensures Validate(Sample(padaria, now).(dataContratacao := Some(date)), now, lib)
         == {Violation("dataContratacao", Past)}
  {
    var f := Sample(padaria, now).(dataContratacao := Some(date));
    SampleIdentityOk(f, padaria, now, lib);
    EmploymentFieldsClean(f, now, lib);
    LateDataContratacao(f, now, lib);
  }

  /** An employee without a bakery breaks only the `@NotNull` on
      `padaria`. */
  lemma MissingPadariaRejected(padaria: Long, now: int, lib: Library)
    requires LibraryAcceptsSample(lib)
    ensures Validate(Sample(padaria, now).(padaria := None), now, lib)
         == {Violation("padaria", NotNull)}
  {
    var f := Sample(padaria, now).(padaria := None);
    SampleIdentityOk(f, padaria, now, lib);
    EmploymentFieldsClean(f, now, lib);
    NullIsOnlyFailure(PadariaProperty(f), now, lib);
  }

  /** A CPF the library rejects breaks only `@CPF`. */
  lemma RejectedCpf(f: Funcionario, now: int, lib: Library)
    requires f.cpf.Some? && |Trim(f.cpf.value)| > 0 && f.cpf.value !in lib.cpfs
    ensures WellTyped(CpfProperty(f))
    ensures PropertyViolations(CpfProperty(f), now, lib) == {Violation("cpf", Cpf)}
  {
    CheckIsOnlyFailure(CpfProperty(f), f.cpf.value, now, lib);
  }

  /** An e-mail address the library rejects breaks only `@Email`. */
  lemma RejectedEmail(f: Funcionario, now: int, lib: Library)
    requires f.email.Some? && |Trim(f.email.value)| > 0 && f.email.value !in lib.emails
    ensures WellTyped(EmailProperty(f))
    ensures PropertyViolations(EmailProperty(f), now, lib) == {Violation("email", Email)}
  {
    CheckIsOnlyFailure(EmailProperty(f), f.email.value, now, lib);
  }

  /** No digit rule is declared on `nome`: "José da Silva 2" is accepted,
      on a new employee and on an update alike. */
  lemma NomeWithDigitAccepted(padaria: Long, now: int, lib: Library)
    requires LibraryAcceptsSample(lib)
    ensures Validate(Sample(padaria, now).(nome := Some("Jos\U{e9} da Silva 2")), now, lib) == {}
  {
    var f := Sample(padaria, now).(nome := Some("Jos\U{e9} da Silva 2"));
    assert !IsTrimmed(f.nome.value[0]);
    assert !IsTrimmed(f.cpf.value[0]);
    assert !IsTrimmed(f.email.value[0]);
    assert !IsTrimmed(f.cargo.value[0]);
    assert NamingOk(f) && ContactOk(f, lib);
  }
}
