/** `ItemPedido` (table TB_ITEM_PEDIDO): one line of an order, a quantity
    of one bread, optionally tied to the batch that baked it. */
module ItemPedidoEntity {
  import opened JavaLang
  import opened BeanValidation
  import opened ConstraintSets

  /** The persistent state of an `ItemPedido`. The three associations are
      the foreign keys ID_PEDIDO, ID_PAO and ID_FORNADA. */
  datatype ItemPedido = ItemPedido(
    id: Option<Long>,
    quantidade: Option<Int32>,
    pedido: Option<Long>,
    pao: Option<Long>,
    fornada: Option<Long>)

  function QuantidadeProperty(i: ItemPedido): Property {
    Property("quantidade", IntegerValue(i.quantidade), [NotNull, Min(1)])
  }

  function PedidoProperty(i: ItemPedido): Property {
    Property("pedido", ReferenceValue(i.pedido), [NotNull])
  }

  function PaoProperty(i: ItemPedido): Property {
    Property("pao", ReferenceValue(i.pao), [NotNull])
  }

  /** A quantity must be present and at least one. */
  predicate QuantidadeOk(q: Option<Int32>) {
    q.Some? && q.value >= 1
  }

  lemma QuantidadeRules(i: ItemPedido, now: int, lib: Library)
    ensures WellTyped(QuantidadeProperty(i))
    ensures ReportsAs(PropertyViolations(QuantidadeProperty(i), now, lib), "quantidade",
                      QuantidadeOk(i.quantidade))
  {
    AllHoldUnfolds(QuantidadeProperty(i), now, lib);
    ReportAs(QuantidadeProperty(i), QuantidadeOk(i.quantidade), now, lib);
  }

  /** The batch is optional: only the quantity, the order and the bread
      are constrained. */
  predicate Admissible(i: ItemPedido) {
    QuantidadeOk(i.quantidade) && i.pedido.Some? && i.pao.Some?
  }

  /** `validate`: the quantity is reported exactly when it is missing or
      below one, the order and the bread exactly when they are missing; the
      batch never is. */
  function Validate(i: ItemPedido, now: int, lib: Library): (vs: set<Violation>)
    ensures FieldsOf(vs) <= {"quantidade", "pedido", "pao"}
    ensures "quantidade" in FieldsOf(vs) <==> !QuantidadeOk(i.quantidade)
    ensures "pedido" in FieldsOf(vs) <==> i.pedido.None?
    ensures "pao" in FieldsOf(vs) <==> i.pao.None?
    ensures vs == {} <==> Admissible(i)
  {
    QuantidadeRules(i, now, lib);
    PresenceRule(PedidoProperty(i), now, lib);
    PresenceRule(PaoProperty(i), now, lib);
    var quantidade := PropertyViolations(QuantidadeProperty(i), now, lib);
    var pedido := PropertyViolations(PedidoProperty(i), now, lib);
    var pao := PropertyViolations(PaoProperty(i), now, lib);
    Report3(quantidade, pedido, pao, "quantidade", "pedido", "pao",
            QuantidadeOk(i.quantidade), i.pedido.Some?, i.pao.Some?);
    quantidade + pedido + pao
  }

  /** The item of the persistence tests: five of a persisted bread on a
      persisted order, no batch. */
  function Sample(pedido: Long, pao: Long): ItemPedido {
    ItemPedido(None, Some(5), Some(pedido), Some(pao), None)
  }

  lemma SampleIsValid(pedido: Long, pao: Long, now: int, lib: Library)
    ensures Validate(Sample(pedido, pao), now, lib) == {}
  {
  }

  /** A present quantity below one breaks `@Min(1)` and nothing else on
      `quantidade`. */
  lemma QuantidadeBelowOne(i: ItemPedido, now: int, lib: Library)
    requires i.quantidade.Some? && i.quantidade.value < 1
    ensures WellTyped(QuantidadeProperty(i))
    ensures PropertyViolations(QuantidadeProperty(i), now, lib) == {Violation("quantidade", Min(1))}
  {
    var qp := QuantidadeProperty(i);
    assert Holds(NotNull, qp.value, now, lib);
    assert !Holds(Min(1), qp.value, now, lib);
    FailsOnlyAt(qp, 1, now, lib);
  }

  /** Any quantity below one, zero and -10 in the tests, breaks only
      `@Min(1)`, on a new item and on an update alike. */
  lemma SmallQuantidadeRejected(q: Int32, pedido: Long, pao: Long, now: int, lib: Library)
    requires q < 1
    ensures Validate(Sample(pedido, pao).(quantidade := Some(q)), now, lib)
         == {Violation("quantidade", Min(1))}
  {
    var i := Sample(pedido, pao).(quantidade := Some(q));
    PresenceRule(PedidoProperty(i), now, lib);
    PresenceRule(PaoProperty(i), now, lib);
    QuantidadeBelowOne(i, now, lib);
  }

  /** An item without its bread breaks only the `@NotNull` on `pao`. */
  lemma MissingPaoRejected(pedido: Long, pao: Long, now: int, lib: Library)
    ensures Validate(Sample(pedido, pao).(pao := None), now, lib) == {Violation("pao", NotNull)}
  {
    var i := Sample(pedido, pao).(pao := None);
    QuantidadeRules(i, now, lib);
    PresenceRule(PedidoProperty(i), now, lib);
    NullIsOnlyFailure(PaoProperty(i), now, lib);
  }

  /** An item without its order breaks only the `@NotNull` on `pedido`. */
  lemma MissingPedidoRejected(pedido: Long, pao: Long, now: int, lib: Library)
    ensures Validate(Sample(pedido, pao).(pedido := None), now, lib) == {Violation("pedido", NotNull)}
  {
    var i := Sample(pedido, pao).(pedido := None);
    QuantidadeRules(i, now, lib);
    PresenceRule(PaoProperty(i), now, lib);
    NullIsOnlyFailure(PedidoProperty(i), now, lib);
  }
}
