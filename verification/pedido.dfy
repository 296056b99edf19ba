/** `Pedido` (table TB_PEDIDO): a customer order, with its total and the
    moment it was placed. */
module PedidoEntity {
  import opened JavaLang
  import opened BeanValidation

  /** The persistent state of a `Pedido`. Its `itens` list is the inverse
      side of `ItemPedido.pedido`: the store derives it from the items'
      foreign keys, so the record leaves it out. */
  datatype Pedido = Pedido(id: Option<Long>, valorTotal: Option<real>, dataPedido: Option<int>)

  function ValorTotalProperty(p: Pedido): Property {
    Property("valorTotal", DecimalValue(p.valorTotal), [NotNull, PositiveOrZero])
  }

  function DataPedidoProperty(p: Pedido): Property {
    Property("dataPedido", InstantValue(p.dataPedido), [NotNull, PastOrPresent])
  }

  /** A total must be present and not negative. */
  predicate ValorTotalOk(v: Option<real>) {
    v.Some? && v.value >= 0.0
  }

  /** An order must have a date, and it cannot lie after `now`. */
  predicate DataPedidoOk(d: Option<int>, now: int) {
    d.Some? && d.value <= now
  }

  lemma ValorTotalRules(p: Pedido, now: int, lib: Library)
    ensures WellTyped(ValorTotalProperty(p))
    ensures ReportsAs(PropertyViolations(ValorTotalProperty(p), now, lib), "valorTotal",
                      ValorTotalOk(p.valorTotal))
  {
    AllHoldUnfolds(ValorTotalProperty(p), now, lib);
    ReportAs(ValorTotalProperty(p), ValorTotalOk(p.valorTotal), now, lib);
  }

  lemma DataPedidoRules(p: Pedido, now: int, lib: Library)
    ensures WellTyped(DataPedidoProperty(p))
    ensures ReportsAs(PropertyViolations(DataPedidoProperty(p), now, lib), "dataPedido",
                      DataPedidoOk(p.dataPedido, now))
  {
    AllHoldUnfolds(DataPedidoProperty(p), now, lib);
    ReportAs(DataPedidoProperty(p), DataPedidoOk(p.dataPedido, now), now, lib);
  }

  predicate Admissible(p: Pedido, now: int) {
    ValorTotalOk(p.valorTotal) && DataPedidoOk(p.dataPedido, now)
  }

  /** `validate`: the total is reported exactly when it is missing or
      negative, the date exactly when it is missing or in the future. */
  function Validate(p: Pedido, now: int, lib: Library): (vs: set<Violation>)
    ensures FieldsOf(vs) <= {"valorTotal", "dataPedido"}
    ensures "valorTotal" in FieldsOf(vs) <==> !ValorTotalOk(p.valorTotal)
    ensures "dataPedido" in FieldsOf(vs) <==> !DataPedidoOk(p.dataPedido, now)
    ensures vs == {} <==> Admissible(p, now)
  {
    ValorTotalRules(p, now, lib);
    DataPedidoRules(p, now, lib);
    var valor := PropertyViolations(ValorTotalProperty(p), now, lib);
    var data := PropertyViolations(DataPedidoProperty(p), now, lib);
    Report2(valor, data, "valorTotal", "dataPedido", ValorTotalOk(p.valorTotal),
            DataPedidoOk(p.dataPedido, now));
    valor + data
  }

  /** The order of the persistence tests: 150.50, placed at `now`. */
  function Sample(now: int): Pedido {
    Pedido(None, Some(150.5), Some(now))
  }

  lemma SampleIsValid(now: int, lib: Library)
    ensures Validate(Sample(now), now, lib) == {}
  {
  }

  /** A negative total breaks `@PositiveOrZero` and nothing else on
      `valorTotal`. */
  lemma NegativeValorTotal(p: Pedido, now: int, lib: Library)
    requires p.valorTotal.Some? && p.valorTotal.value < 0.0
    ensures WellTyped(ValorTotalProperty(p))
    ensures PropertyViolations(ValorTotalProperty(p), now, lib)
         == {Violation("valorTotal", PositiveOrZero)}
  {
    var vp := ValorTotalProperty(p);
    assert Holds(NotNull, vp.value, now, lib);
    assert !Holds(PositiveOrZero, vp.value, now, lib);
    FailsOnlyAt(vp, 1, now, lib);
  }

  /** A date after `now` breaks `@PastOrPresent` and nothing else on
      `dataPedido`. */
  lemma FutureDataPedido(p: Pedido, now: int, lib: Library)
    requires p.dataPedido.Some? && p.dataPedido.value > now
    ensures WellTyped(DataPedidoProperty(p))
    ensures PropertyViolations(DataPedidoProperty(p), now, lib)
         == {Violation("dataPedido", PastOrPresent)}
  {
    var dp := DataPedidoProperty(p);
    assert Holds(NotNull, dp.value, now, lib);
    assert !Holds(PastOrPresent, dp.value, now, lib);
    FailsOnlyAt(dp, 1, now, lib);
  }

  /** A total of -10.00 on an order placed now breaks only `@PositiveOrZero`. */
  lemma NegativeTotalRejected(now: int, lib: Library)
    ensures Validate(Sample(now).(valorTotal := Some(-10.0)), now, lib)
         == {Violation("valorTotal", PositiveOrZero)}
  {
    var p := Sample(now).(valorTotal := Some(-10.0));
    DataPedidoRules(p, now, lib);
    NegativeValorTotal(p, now, lib);
  }

  /** Moving the date to any later moment, such as tomorrow, breaks only
      `@PastOrPresent`. */
  lemma LaterDateRejected(later: int, now: int, lib: Library)
    requires later > now
    ensures Validate(Sample(now).(dataPedido := Some(later)), now, lib)
         == {Violation("dataPedido", PastOrPresent)}
  {
    var p := Sample(now).(dataPedido := Some(later));
    ValorTotalRules(p, now, lib);
    FutureDataPedido(p, now, lib);
  }
}
