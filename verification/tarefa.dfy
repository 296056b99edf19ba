/** `Tarefa` (table TB_TAREFA): a task assigned to one employee, with a
    start date, a due date in the future and a completion flag. */
module TarefaEntity {
  import opened JavaLang
  import opened BeanValidation
  import opened ConstraintSets

  /** The persistent state of a `Tarefa`. `funcionario` is the foreign key
      ID_FUNCIONARIO. */
  datatype Tarefa = Tarefa(
    id: Option<Long>,
    funcionario: Option<Long>,
    descricao: Option<string>,
    dataInicio: Option<int>,
    dataConclusao: Option<int>,
    dataPrevisao: Option<int>,
    concluida: Option<bool>)

  function FuncionarioProperty(t: Tarefa): Property {
    Property("funcionario", ReferenceValue(t.funcionario), [NotNull])
  }

  function DescricaoProperty(t: Tarefa): Property {
    Property("descricao", TextValue(t.descricao), [NotBlank, SizeMax(500)])
  }

  function DataInicioProperty(t: Tarefa): Property {
    Property("dataInicio", InstantValue(t.dataInicio), [NotNull])
  }

  /** `dataConclusao` carries no constraint, so it has no property here. */
  function DataPrevisaoProperty(t: Tarefa): Property {
    Property("dataPrevisao", InstantValue(t.dataPrevisao), [NotNull, Future])
  }

  function ConcluidaProperty(t: Tarefa): Property {
    Property("concluida", FlagValue(t.concluida), [NotNull])
  }

  /** A due date must be present and strictly after `now`. */
  predicate DataPrevisaoOk(d: Option<int>, now: int) {
    d.Some? && d.value > now
  }

  lemma DataPrevisaoRules(t: Tarefa, now: int, lib: Library)
    ensures WellTyped(DataPrevisaoProperty(t))
    ensures ReportsAs(PropertyViolations(DataPrevisaoProperty(t), now, lib), "dataPrevisao",
                      DataPrevisaoOk(t.dataPrevisao, now))
  {
    AllHoldUnfolds(DataPrevisaoProperty(t), now, lib);
    ReportAs(DataPrevisaoProperty(t), DataPrevisaoOk(t.dataPrevisao, now), now, lib);
  }

  const ASSIGNMENT_PATHS: set<string> := {"funcionario", "descricao"}
  const SCHEDULE_PATHS: set<string> := {"dataInicio", "dataPrevisao", "concluida"}

  /** The employee is set and the description is present, not blank and at
      most 500 UTF-16 units long. */
  predicate AssignmentOk(t: Tarefa) {
    t.funcionario.Some? && TextOk(t.descricao, 500)
  }

  /** The start date and the flag are set and the due date lies ahead. */
  predicate ScheduleOk(t: Tarefa, now: int) {
    t.dataInicio.Some? && DataPrevisaoOk(t.dataPrevisao, now) && t.concluida.Some?
  }

  predicate Admissible(t: Tarefa, now: int) {
    AssignmentOk(t) && ScheduleOk(t, now)
  }

  /** The violations of the employee and the description. */
  function AssignmentViolations(t: Tarefa, now: int, lib: Library): (vs: set<Violation>)
    ensures FieldsOf(vs) <= ASSIGNMENT_PATHS
    ensures "funcionario" in FieldsOf(vs) <==> t.funcionario.None?
    ensures "descricao" in FieldsOf(vs) <==> !TextOk(t.descricao, 500)
    ensures vs == {} <==> AssignmentOk(t)
  {
    PresenceRule(FuncionarioProperty(t), now, lib);
    TextRules(DescricaoProperty(t), t.descricao, 500, now, lib);
    var funcionario := PropertyViolations(FuncionarioProperty(t), now, lib);
    var descricao := PropertyViolations(DescricaoProperty(t), now, lib);
    Report2(funcionario, descricao, "funcionario", "descricao", t.funcionario.Some?,
            TextOk(t.descricao, 500));
    funcionario + descricao
  }

  /** The violations of the start date, the due date and the flag. */
  function ScheduleViolations(t: Tarefa, now: int, lib: Library): (vs: set<Violation>)
    ensures FieldsOf(vs) <= SCHEDULE_PATHS
    ensures "dataInicio" in FieldsOf(vs) <==> t.dataInicio.None?
    ensures "dataPrevisao" in FieldsOf(vs) <==> !DataPrevisaoOk(t.dataPrevisao, now)
    ensures "concluida" in FieldsOf(vs) <==> t.concluida.None?
    ensures vs == {} <==> ScheduleOk(t, now)
  {
    PresenceRule(DataInicioProperty(t), now, lib);
    DataPrevisaoRules(t, now, lib);
    PresenceRule(ConcluidaProperty(t), now, lib);
    var inicio := PropertyViolations(DataInicioProperty(t), now, lib);
    var previsao := PropertyViolations(DataPrevisaoProperty(t), now, lib);
    var concluida := PropertyViolations(ConcluidaProperty(t), now, lib);
    Report3(inicio, previsao, concluida, "dataInicio", "dataPrevisao", "concluida",
            t.dataInicio.Some?, DataPrevisaoOk(t.dataPrevisao, now), t.concluida.Some?);
    inicio + previsao + concluida
  }

  /** `validate`: both groups of fields reported together. A group is
      reported on its own paths only, and exactly when one of its rules
      fails; the completion date is never reported. */
  function Validate(t: Tarefa, now: int, lib: Library): (vs: set<Violation>)
    ensures FieldsOf(vs) <= ASSIGNMENT_PATHS + SCHEDULE_PATHS
    ensures vs == {} <==> Admissible(t, now)
  {
    var assignment := AssignmentViolations(t, now, lib);
    var schedule := ScheduleViolations(t, now, lib);
    FieldsOfUnion(assignment, schedule);
    assignment + schedule
  }

  /** The task of the validation tests: open, started at `now`, due a day
      later, assigned to an employee. */
  function Sample(funcionario: Long, now: int): Tarefa {
    Tarefa(None, Some(funcionario), Some("Limpar o forno industrial"), Some(now), None,
           Some(now + DAY), Some(false))
  }

  lemma SampleIsValid(funcionario: Long, now: int, lib: Library)
    ensures Validate(Sample(funcionario, now), now, lib) == {}
  {
    assert !IsTrimmed(Sample(funcionario, now).descricao.value[0]);
  }

  /** No rule relates the dates or the flag to one another: a task that
      starts after it is due, or that is flagged done without a completion
      date, or the reverse, is accepted as long as the due date is ahead. */
  lemma DatesAndFlagUnrelated(t: Tarefa, now: int, lib: Library)
    requires AssignmentOk(t)
    requires t.dataInicio.Some? && t.concluida.Some? && DataPrevisaoOk(t.dataPrevisao, now)
    ensures Validate(t, now, lib) == {}
  {
  }

  /** `dataInicio` carries no temporal rule: any start date, the year 2099
      included, passes validation. */
  lemma AnyDataInicioAccepted(start: int, funcionario: Long, now: int, lib: Library)
    ensures Validate(Sample(funcionario, now).(dataInicio := Some(start)), now, lib) == {}
  {
    SampleIsValid(funcionario, now, lib);
    DatesAndFlagUnrelated(Sample(funcionario, now).(dataInicio := Some(start)), now, lib);
  }

  /** A due date at or before `now` breaks `@Future` and nothing else on
      `dataPrevisao`. */
  lemma DataPrevisaoNotFuture(t: Tarefa, now: int, lib: Library)
    requires t.dataPrevisao.Some? && t.dataPrevisao.value <= now
    ensures WellTyped(DataPrevisaoProperty(t))
    ensures PropertyViolations(DataPrevisaoProperty(t), now, lib)
         == {Violation("dataPrevisao", Future)}
  {
    var dp := DataPrevisaoProperty(t);
    assert Holds(NotNull, dp.value, now, lib);
    assert !Holds(Future, dp.value, now, lib);
    FailsOnlyAt(dp, 1, now, lib);
  }

  /** Any due date not strictly ahead, the year 2000 or a year back in the
      tests, breaks only `@Future`. */
  lemma EarlierPrevisaoRejected(date: int, funcionario: Long, now: int, lib: Library)
    requires date <= now
    ensures Validate(Sample(funcionario, now).(dataPrevisao := Some(date)), now, lib)
         == {Violation("dataPrevisao", Future)}
  {
    var t := Sample(funcionario, now).(dataPrevisao := Some(date));
    SampleIsValid(funcionario, now, lib);
    assert AssignmentViolations(t, now, lib) == {};
    PresenceRule(DataInicioProperty(t), now, lib);
    PresenceRule(ConcluidaProperty(t), now, lib);
    DataPrevisaoNotFuture(t, now, lib);
  }

  /** A blank description, empty or made of spaces, on a new task or on an
      update, breaks only `@NotBlank`. */
  lemma BlankDescricaoRejected(d: string, funcionario: Long, now: int, lib: Library)
    requires |d| <= 500 && forall k :: 0 <= k < |d| ==> IsTrimmed(d[k])
    ensures Validate(Sample(funcionario, now).(descricao := Some(d)), now, lib)
         == {Violation("descricao", NotBlank)}
  {
    var t := Sample(funcionario, now).(descricao := Some(d));
    assert ScheduleOk(t, now);
    PresenceRule(FuncionarioProperty(t), now, lib);
    BlankIsOnlyFailure(DescricaoProperty(t), d, 500, now, lib);
    assert AssignmentViolations(t, now, lib) == {Violation("descricao", NotBlank)};
  }

  /** The tests' blank descriptions: "   " and "". */
  lemma BlankDescricaoExamples(funcionario: Long, now: int, lib: Library)
    ensures Validate(Sample(funcionario, now).(descricao := Some("   ")), now, lib)
         == {Violation("descricao", NotBlank)}
    ensures Validate(Sample(funcionario, now).(descricao := Some("")), now, lib)
         == {Violation("descricao", NotBlank)}
  {
    BlankDescricaoRejected("   ", funcionario, now, lib);
    BlankDescricaoRejected("", funcionario, now, lib);
  }

  /** A task without its employee breaks only the `@NotNull` on
      `funcionario`. */
  lemma MissingFuncionarioRejected(funcionario: Long, now: int, lib: Library)
    ensures Validate(Sample(funcionario, now).(funcionario := None), now, lib)
         == {Violation("funcionario", NotNull)}
  {
    var t := Sample(funcionario, now).(funcionario := None);
    SampleIsValid(funcionario, now, lib);
    assert ScheduleViolations(t, now, lib) == {};
    TextRules(DescricaoProperty(t), t.descricao, 500, now, lib);
    PresenceRule(FuncionarioProperty(t), now, lib);
    NullIsOnlyFailure(FuncionarioProperty(t), now, lib);
  }
}
