/** The relational schema the entity annotations declare: one table per
    entity class, the foreign-key columns each row holds, which of them a
    parent cascades along, and the unique columns. */
module Schema {
  import opened JavaLang
  import opened BeanValidation
  import ConstraintSets
  import DadosBancariosEntity
  import IngredienteEntity
  import PaoEntity
  import PedidoEntity
  import ItemPedidoEntity
  import PadariaEntity
  import FornadaEntity
  import FuncionarioEntity
  import TarefaEntity

  /** The entity classes of the domain, one table each. */
  datatype Kind =
    | DadosBancarios | Ingrediente | Pao | Pedido | ItemPedido
    | Padaria | Fornada | Funcionario | Tarefa

  /** A row's primary key: its table and its generated id. */
  datatype Node = Node(kind: Kind, id: Long)

  /** A row of one of the entity tables. */
  datatype Row =
    | DadosBancariosRow(dados: DadosBancariosEntity.DadosBancarios)
    | IngredienteRow(ingrediente: IngredienteEntity.Ingrediente)
    | PaoRow(pao: PaoEntity.Pao)
    | PedidoRow(pedido: PedidoEntity.Pedido)
    | ItemPedidoRow(item: ItemPedidoEntity.ItemPedido)
    | PadariaRow(padaria: PadariaEntity.Padaria)
    | FornadaRow(fornada: FornadaEntity.Fornada)
    | FuncionarioRow(funcionario: FuncionarioEntity.Funcionario)
    | TarefaRow(tarefa: TarefaEntity.Tarefa)

  function KindOf(r: Row): Kind {
    match r
    case DadosBancariosRow(_) => DadosBancarios
    case IngredienteRow(_) => Ingrediente
    case PaoRow(_) => Pao
    case PedidoRow(_) => Pedido
    case ItemPedidoRow(_) => ItemPedido
    case PadariaRow(_) => Padaria
    case FornadaRow(_) => Fornada
    case FuncionarioRow(_) => Funcionario
    case TarefaRow(_) => Tarefa
  }

  /** The `id` field of the entity. */
  function IdOf(r: Row): Option<Long> {
    match r
    case DadosBancariosRow(d) => d.id
    case IngredienteRow(i) => i.id
    case PaoRow(p) => p.id
    case PedidoRow(p) => p.id
    case ItemPedidoRow(i) => i.id
    case PadariaRow(p) => p.id
    case FornadaRow(f) => f.id
    case FuncionarioRow(f) => f.id
    case TarefaRow(t) => t.id
  }

  /** The entity with its `id` field set to `id`, as the identity column
      assigns it on insert or `setId` does; no other field changes. */
  function WithId(r: Row, id: Option<Long>): (r': Row)
    ensures KindOf(r') == KindOf(r) && IdOf(r') == id
    ensures Parents(r') == Parents(r) && Owned(r') == Owned(r)
    ensures UniqueKey(r') == UniqueKey(r)
  {
    match r
    case DadosBancariosRow(d) => DadosBancariosRow(d.(id := id))
    case IngredienteRow(i) => IngredienteRow(i.(id := id))
    case PaoRow(p) => PaoRow(p.(id := id))
    case PedidoRow(p) => PedidoRow(p.(id := id))
    case ItemPedidoRow(i) => ItemPedidoRow(i.(id := id))
    case PadariaRow(p) => PadariaRow(p.(id := id))
    case FornadaRow(f) => FornadaRow(f.(id := id))
    case FuncionarioRow(f) => FuncionarioRow(f.(id := id))
    case TarefaRow(t) => TarefaRow(t.(id := id))
  }

  /** Setting the id back to what it was restores the entity: `WithId`
      touches nothing but the id. */
  lemma WithIdRoundTrip(r: Row, id: Option<Long>)
    ensures WithId(WithId(r, id), IdOf(r)) == r
  {
  }

  /** The depth of a table in the cascade hierarchy: a parent always ranks
      above the rows it cascades to. */
  function Rank(k: Kind): nat {
    match k
    case Padaria => 2
    case Funcionario | Fornada | Pao | Pedido => 1
    case _ => 0
  }

  function Opt(kind: Kind, key: Option<Long>): set<Node> {
    if key.Some? then {Node(kind, key.value)} else {}
  }

  /** The rows this row's foreign keys point at whose entity declares the
      inverse collection with `cascade = ALL, orphanRemoval = true`:
      `Padaria.funcionarios` and `Padaria.fornadas`, `Funcionario.tarefas`,
      and the item lists of `Pedido`, `Pao` and `Fornada`. */
  function Parents(r: Row): (ps: set<Node>)
    ensures forall p :: p in ps ==> Rank(p.kind) > Rank(KindOf(r))
  {
    match r
    case FuncionarioRow(f) => Opt(Padaria, f.padaria)
    case FornadaRow(f) => Opt(Padaria, f.padaria)
    case ItemPedidoRow(i) => Opt(Pedido, i.pedido) + Opt(Pao, i.pao) + Opt(Fornada, i.fornada)
    case TarefaRow(t) => Opt(Funcionario, t.funcionario)
    case _ => {}
  }

  /** The rows this row's foreign keys point at and that the row itself
      cascades to: the bank account of `Funcionario.dadosBancarios`, a
      one-to-one with `cascade = ALL, orphanRemoval = true`. */
  function Owned(r: Row): (os: set<Node>)
    ensures forall o :: o in os ==> Rank(o.kind) < Rank(KindOf(r)) && o.kind == DadosBancarios
  {
    match r
    case FuncionarioRow(f) => Opt(DadosBancarios, f.dadosBancarios)
    case _ => {}
  }

  /** Every row a non-null foreign-key column of this row points at. */
  function References(r: Row): set<Node> {
    Parents(r) + Owned(r)
  }

  /** Every `nullable = false` column of the row holds a value: the
      foreign keys `ID_PADARIA` of employees and batches, `ID_PEDIDO` and
      `ID_PAO` of items and `ID_FUNCIONARIO` of tasks, and every value
      column declared NOT NULL. `ID_FORNADA`, `ID_DADOS_BANCARIOS`,
      `TXT_CEP`, `DT_CONCLUSAO`, `DT_CONTRATACAO` and `NUM_SALARIO` may be
      null. */
  predicate NotNullFilled(r: Row) {
    match r
    case DadosBancariosRow(d) => d.banco.Some? && d.agencia.Some? && d.conta.Some?
    case IngredienteRow(i) => i.nome.Some?
    case PaoRow(p) => p.nomePao.Some? && p.preco.Some?
    case PedidoRow(p) => p.valorTotal.Some? && p.dataPedido.Some?
    case ItemPedidoRow(i) => i.quantidade.Some? && i.pedido.Some? && i.pao.Some?
    case PadariaRow(p) => p.nome.Some? && p.cnpj.Some?
    case FornadaRow(f) => f.padaria.Some? && f.dataFornada.Some? && f.horaInicio.Some?
    case FuncionarioRow(f) =>
      f.padaria.Some? && f.nome.Some? && f.cpf.Some? && f.email.Some? && f.cargo.Some?
    case TarefaRow(t) =>
      t.funcionario.Some? && t.descricao.Some? && t.dataInicio.Some?
      && t.dataPrevisao.Some? && t.concluida.Some?
  }

  /** The value of a unique column. */
  datatype UniqueValue =
    | IngredienteNome(nome: string)
    | PadariaCnpj(cnpj: string)
    | FuncionarioConta(conta: Long)

  /** The row's entry in a unique column, if it has one: a null never
      clashes with anything. */
  function UniqueKey(r: Row): Option<UniqueValue> {
    match r
    case IngredienteRow(i) => if i.nome.Some? then Some(IngredienteNome(i.nome.value)) else None
    case PadariaRow(p) => if p.cnpj.Some? then Some(PadariaCnpj(p.cnpj.value)) else None
    case FuncionarioRow(f) =>
      if f.dadosBancarios.Some? then Some(FuncionarioConta(f.dadosBancarios.value)) else None
    case _ => None
  }

  /** A VARCHAR column of `length = max` holds null or a text of at most
      `max` UTF-16 units. */
  predicate FitsColumn(t: Option<string>, max: nat) {
    t.None? || Utf16Length(t.value) <= max
  }

  /** Every text of the row fits the `length` its `@Column` declares. */
  predicate ColumnsFit(r: Row) {
    match r
    case DadosBancariosRow(d) =>
      FitsColumn(d.banco, 100) && FitsColumn(d.agencia, 10) && FitsColumn(d.conta, 20)
    case IngredienteRow(i) => FitsColumn(i.nome, 100)
    case PaoRow(p) => FitsColumn(p.nomePao, 100)
    case PadariaRow(p) => FitsColumn(p.nome, 255) && FitsColumn(p.cep, 9) && FitsColumn(p.cnpj, 14)
    case FuncionarioRow(f) => FitsColumn(f.nome, 255) && FitsColumn(f.cpf, 14)
                              && FitsColumn(f.email, 150) && FitsColumn(f.cargo, 50)
    case TarefaRow(t) => FitsColumn(t.descricao, 500)
    case _ => true
  }

  /** Bean Validation of the entity a row holds. */
  function RowViolations(r: Row, now: int, lib: Library): set<Violation> {
    match r
    case DadosBancariosRow(d) => DadosBancariosEntity.Validate(d, now, lib)
    case IngredienteRow(i) => IngredienteEntity.Validate(i, now, lib)
    case PaoRow(p) => PaoEntity.Validate(p, now, lib)
    case PedidoRow(p) => PedidoEntity.Validate(p, now, lib)
    case ItemPedidoRow(i) => ItemPedidoEntity.Validate(i, now, lib)
    case PadariaRow(p) => PadariaEntity.Validate(p, now, lib)
    case FornadaRow(f) => FornadaEntity.Validate(f, now, lib)
    case FuncionarioRow(f) => FuncionarioEntity.Validate(f, now, lib)
    case TarefaRow(t) => TarefaEntity.Validate(t, now, lib)
  }

  /** Every NOT NULL column carries `@NotNull` or `@NotBlank`, so
      validation catches a null the database would refuse before the
      database sees it. */
  lemma ValidRowsFillNotNull(r: Row, now: int, lib: Library)
    requires RowViolations(r, now, lib) == {}
    ensures NotNullFilled(r)
  {
    match r
    case DadosBancariosRow(d) =>
      assert DadosBancariosEntity.Admissible(d);
    case IngredienteRow(_) =>
    case PaoRow(p) =>
      assert PaoEntity.Admissible(p);
    case PedidoRow(p) =>
      assert PedidoEntity.Admissible(p, now);
    case ItemPedidoRow(i) =>
      assert ItemPedidoEntity.Admissible(i);
    case PadariaRow(p) =>
      assert PadariaEntity.Admissible(p);
    case FornadaRow(f) =>
      assert FornadaEntity.Admissible(f, now);
    case FuncionarioRow(f) =>
      assert FuncionarioEntity.Admissible(f, now, lib);
      assert FuncionarioEntity.NamingOk(f) && FuncionarioEntity.ContactOk(f, lib);
      assert FuncionarioEntity.EmploymentOk(f, now);
    case TarefaRow(t) =>
      assert TarefaEntity.Admissible(t, now);
      assert TarefaEntity.AssignmentOk(t) && TarefaEntity.ScheduleOk(t, now);
  }

  /** Every `length` but two is matched by an equal `@Size`, so a valid
      row fits its columns as soon as the employee's CPF and e-mail do:
      `@CPF` and `@Email` bound no length. */
  lemma ValidRowsFit(r: Row, now: int, lib: Library)
    requires RowViolations(r, now, lib) == {}
    requires r.FuncionarioRow? ==> FitsColumn(r.funcionario.cpf, 14) && FitsColumn(r.funcionario.email, 150)
    ensures ColumnsFit(r)
  {
    match r
    case DadosBancariosRow(d) =>
      assert DadosBancariosEntity.Admissible(d);
      ConstraintSets.NumberLength(d.agencia, 10);
      ConstraintSets.NumberLength(d.conta, 20);
    case FuncionarioRow(f) =>
      assert FuncionarioEntity.Admissible(f, now, lib);
      assert FuncionarioEntity.NamingOk(f);
    case TarefaRow(t) =>
      assert TarefaEntity.Admissible(t, now);
      assert TarefaEntity.AssignmentOk(t);
    case _ =>
  }
}
