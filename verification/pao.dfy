/** `Pao` (table TB_PAO): a bread on the menu, with its name and price. */
module PaoEntity {
  import opened JavaLang
  import opened BeanValidation
  import opened ConstraintSets

  /** The persistent state of a `Pao`. The owning `ingredientes` list is the
      join table TB_PAO_INGREDIENTE and the `itensPedidos` list is the
      inverse side of `ItemPedido.pao`: the store holds both, so the record
      leaves them out. */
  datatype Pao = Pao(id: Option<Long>, nomePao: Option<string>, preco: Option<real>)

  function NomePaoProperty(p: Pao): Property {
    Property("nomePao", TextValue(p.nomePao), [NotBlank, SizeMax(100)])
  }

  /** `@Positive` is declared before `@NotNull`. */
  function PrecoProperty(p: Pao): Property {
    Property("preco", DecimalValue(p.preco), [Positive, NotNull])
  }

  /** A price must be present and strictly above zero. */
  predicate PrecoOk(preco: Option<real>) {
    preco.Some? && preco.value > 0.0
  }

  lemma PrecoRules(p: Pao, now: int, lib: Library)
    ensures WellTyped(PrecoProperty(p))
    ensures ReportsAs(PropertyViolations(PrecoProperty(p), now, lib), "preco",
                      PrecoOk(p.preco))
  {
    AllHoldUnfolds(PrecoProperty(p), now, lib);
    ReportAs(PrecoProperty(p), PrecoOk(p.preco), now, lib);
  }

  predicate Admissible(p: Pao) {
    TextOk(p.nomePao, 100) && PrecoOk(p.preco)
  }

  /** `validate`: the name is reported exactly when it is missing, blank or
      over 100 UTF-16 units (no digit rule is declared on it), the price
      exactly when it is missing or not strictly positive. */
  function Validate(p: Pao, now: int, lib: Library): (vs: set<Violation>)
    ensures FieldsOf(vs) <= {"nomePao", "preco"}
    ensures "nomePao" in FieldsOf(vs) <==> !TextOk(p.nomePao, 100)
    ensures "preco" in FieldsOf(vs) <==> !PrecoOk(p.preco)
    ensures vs == {} <==> Admissible(p)
  {
    TextRules(NomePaoProperty(p), p.nomePao, 100, now, lib);
    PrecoRules(p, now, lib);
    var nome := PropertyViolations(NomePaoProperty(p), now, lib);
    var preco := PropertyViolations(PrecoProperty(p), now, lib);
    Report2(nome, preco, "nomePao", "preco", TextOk(p.nomePao, 100), PrecoOk(p.preco));
    nome + preco
  }

  /** The bread of the validation tests: "Pão de Queijo" at 3.50. */
  function Sample(): Pao {
    Pao(None, Some("P\U{e3}o de Queijo"), Some(3.5))
  }

  lemma SampleIsValid(now: int, lib: Library)
    ensures Validate(Sample(), now, lib) == {}
  {
    assert !IsTrimmed(Sample().nomePao.value[0]);
  }

  /** A price at or below zero breaks `@Positive` and nothing else on
      `preco`. */
  lemma NonPositivePreco(p: Pao, now: int, lib: Library)
    requires p.preco.Some? && p.preco.value <= 0.0
    ensures WellTyped(PrecoProperty(p))
    ensures PropertyViolations(PrecoProperty(p), now, lib) == {Violation("preco", Positive)}
  {
    var pp := PrecoProperty(p);
    assert !Holds(Positive, pp.value, now, lib);
    assert Holds(NotNull, pp.value, now, lib);
    FailsOnlyAt(pp, 0, now, lib);
  }

  /** Any price at or below zero, with a valid name, breaks only
      `@Positive`; the tests use -5.00 and 0.00. */
  lemma NonPositivePrecoIsOnlyFailure(p: Pao, now: int, lib: Library)
    requires TextOk(p.nomePao, 100) && p.preco.Some? && p.preco.value <= 0.0
    ensures Validate(p, now, lib) == {Violation("preco", Positive)}
  {
    TextRules(NomePaoProperty(p), p.nomePao, 100, now, lib);
    NonPositivePreco(p, now, lib);
  }

  lemma PriceTests(now: int, lib: Library)
    ensures Validate(Sample().(preco := Some(-5.0)), now, lib) == {Violation("preco", Positive)}
    ensures Validate(Sample().(preco := Some(0.0)), now, lib) == {Violation("preco", Positive)}
  {
    SampleIsValid(now, lib);
    NonPositivePrecoIsOnlyFailure(Sample().(preco := Some(-5.0)), now, lib);
    NonPositivePrecoIsOnlyFailure(Sample().(preco := Some(0.0)), now, lib);
  }

  /** An empty name breaks only `@NotBlank`. */
  lemma EmptyNomePao(now: int, lib: Library)
    ensures Validate(Sample().(nomePao := Some("")), now, lib) == {Violation("nomePao", NotBlank)}
  {
    var p := Sample().(nomePao := Some(""));
    PrecoRules(p, now, lib);
    BlankIsOnlyFailure(NomePaoProperty(p), "", 100, now, lib);
  }

  /** No digit rule is declared on `nomePao`: a name with digits and a
      positive price is valid. */
  lemma DigitsInNomePaoAccepted(now: int, lib: Library)
    ensures Validate(Pao(None, Some("Pao 12 Gr\U{e3}os"), Some(1.5)), now, lib) == {}
  {
    assert !IsTrimmed("Pao 12 Gr\U{e3}os"[0]);
  }
}
