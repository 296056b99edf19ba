/** `Fornada` (table TB_FORNADA): a batch baked by one bakery on a given
    day, starting at a given time. */
module FornadaEntity {
  import opened JavaLang
  import opened BeanValidation
  import opened ConstraintSets

  /** The persistent state of a `Fornada`. `padaria` is the foreign key
      ID_PADARIA; the `itensPedidos` list is the inverse side of
      `ItemPedido.fornada`, which the store derives. */
  datatype Fornada = Fornada(
    id: Option<Long>,
    padaria: Option<Long>,
    dataFornada: Option<int>,
    horaInicio: Option<int>)

  function PadariaProperty(f: Fornada): Property {
    Property("padaria", ReferenceValue(f.padaria), [NotNull])
  }

  function DataFornadaProperty(f: Fornada): Property {
    Property("dataFornada", InstantValue(f.dataFornada), [NotNull, Past])
  }

  function HoraInicioProperty(f: Fornada): Property {
    Property("horaInicio", InstantValue(f.horaInicio), [NotNull])
  }

  /** A batch date must be present and strictly before `now`. */
  predicate DataFornadaOk(d: Option<int>, now: int) {
    d.Some? && d.value < now
  }

  lemma DataFornadaRules(f: Fornada, now: int, lib: Library)
    ensures WellTyped(DataFornadaProperty(f))
    ensures ReportsAs(PropertyViolations(DataFornadaProperty(f), now, lib), "dataFornada",
                      DataFornadaOk(f.dataFornada, now))
  {
    AllHoldUnfolds(DataFornadaProperty(f), now, lib);
    ReportAs(DataFornadaProperty(f), DataFornadaOk(f.dataFornada, now), now, lib);
  }

  predicate Admissible(f: Fornada, now: int) {
    f.padaria.Some? && DataFornadaOk(f.dataFornada, now) && f.horaInicio.Some?
  }

  /** `validate`: the bakery and the start time are reported exactly when
      missing, the date exactly when it is missing or not strictly in the
      past. */
  function Validate(f: Fornada, now: int, lib: Library): (vs: set<Violation>)
    ensures FieldsOf(vs) <= {"padaria", "dataFornada", "horaInicio"}
    ensures "padaria" in FieldsOf(vs) <==> f.padaria.None?
    ensures "dataFornada" in FieldsOf(vs) <==> !DataFornadaOk(f.dataFornada, now)
    ensures "horaInicio" in FieldsOf(vs) <==> f.horaInicio.None?
    ensures vs == {} <==> Admissible(f, now)
  {
    PresenceRule(PadariaProperty(f), now, lib);
    DataFornadaRules(f, now, lib);
    PresenceRule(HoraInicioProperty(f), now, lib);
    var padaria := PropertyViolations(PadariaProperty(f), now, lib);
    var data := PropertyViolations(DataFornadaProperty(f), now, lib);
    var hora := PropertyViolations(HoraInicioProperty(f), now, lib);
    Report3(padaria, data, hora, "padaria", "dataFornada", "horaInicio",
            f.padaria.Some?, DataFornadaOk(f.dataFornada, now), f.horaInicio.Some?);
    padaria + data + hora
  }

  /** The batch of the persistence tests: baked yesterday by a persisted
      bakery, started at `now`. */
  function Sample(padaria: Long, now: int): Fornada {
    Fornada(None, Some(padaria), Some(now - DAY), Some(now))
  }

  lemma SampleIsValid(padaria: Long, now: int, lib: Library)
    ensures Validate(Sample(padaria, now), now, lib) == {}
  {
  }

  /** A date at or after `now` breaks `@Past` and nothing else on
      `dataFornada`. */
  lemma DataFornadaNotPast(f: Fornada, now: int, lib: Library)
    requires f.dataFornada.Some? && f.dataFornada.value >= now
    ensures WellTyped(DataFornadaProperty(f))
    ensures PropertyViolations(DataFornadaProperty(f), now, lib) == {Violation("dataFornada", Past)}
  {
    var dp := DataFornadaProperty(f);
    assert Holds(NotNull, dp.value, now, lib);
    assert !Holds(Past, dp.value, now, lib);
    FailsOnlyAt(dp, 1, now, lib);
  }

  /** Any date not strictly in the past, tomorrow on a new batch and five
      days ahead on an update in the tests, breaks only `@Past`; `@Past` is
      strict, so a batch dated exactly `now` is rejected too. */
  lemma LaterDateRejected(date: int, padaria: Long, now: int, lib: Library)
    requires date >= now
    ensures Validate(Sample(padaria, now).(dataFornada := Some(date)), now, lib)
         == {Violation("dataFornada", Past)}
  {
    var f := Sample(padaria, now).(dataFornada := Some(date));
    PresenceRule(PadariaProperty(f), now, lib);
    PresenceRule(HoraInicioProperty(f), now, lib);
    DataFornadaNotPast(f, now, lib);
  }

  /** A batch without its bakery breaks only the `@NotNull` on `padaria`. */
  lemma MissingPadariaRejected(padaria: Long, now: int, lib: Library)
    ensures Validate(Sample(padaria, now).(padaria := None), now, lib)
         == {Violation("padaria", NotNull)}
  {
    var f := Sample(padaria, now).(padaria := None);
    DataFornadaRules(f, now, lib);
    PresenceRule(HoraInicioProperty(f), now, lib);
    NullIsOnlyFailure(PadariaProperty(f), now, lib);
  }
}
