/** The database behind the persistence context: the entity tables keyed by
    primary key, the TB_PAO_INGREDIENTE join table, and the identity
    counters. `persist` and `merge` followed by `flush` validate the entity,
    then let the database check foreign keys and unique columns. */
module Store {
  import opened JavaLang
  import opened BeanValidation
  import opened Schema
  import FuncionarioEntity
  import PaoEntity

  /** A row of TB_PAO_INGREDIENTE, written through `Pao.ingredientes`. */
  datatype Link = Link(pao: Long, ingrediente: Long)

  /** `issued[k]` is the last id table `k`'s identity column handed out. */
  datatype Store = Store(rows: map<Node, Row>, links: set<Link>, issued: map<Kind, nat>)

  /** Each row sits under its own table and id. */
  predicate KeysMatch(s: Store) {
    forall n :: n in s.rows ==> KindOf(s.rows[n]) == n.kind && IdOf(s.rows[n]) == Some(n.id)
  }

  /** Every stored row fills its NOT NULL columns. */
  predicate NotNullColumnsFilled(s: Store) {
    forall n :: n in s.rows ==> NotNullFilled(s.rows[n])
  }

  /** Every foreign key points at a stored row. */
  predicate ReferencesResolve(s: Store) {
    forall n, m :: n in s.rows && m in References(s.rows[n]) ==> m in s.rows
  }

  /** Both ends of every join row are stored. */
  predicate LinksResolve(s: Store) {
    forall l :: l in s.links ==>
      Node(Pao, l.pao) in s.rows && Node(Ingrediente, l.ingrediente) in s.rows
  }

  /** No two rows share a value in a unique column. */
  predicate UniqueColumns(s: Store) {
    forall n, m :: n in s.rows && m in s.rows && n != m && UniqueKey(s.rows[n]).Some? ==>
      UniqueKey(s.rows[n]) != UniqueKey(s.rows[m])
  }

  /** Every stored text fits its column. */
  predicate RowsFit(s: Store) {
    forall n :: n in s.rows ==> ColumnsFit(s.rows[n])
  }

  /** Every table has an identity counter. Stored ids need not come from
      it: a test restarts every counter at 1 and then loads rows with
      explicit ids such as 101 or 901, which the counter reaches later. */
  predicate HasCounters(s: Store) {
    forall k: Kind :: k in s.issued
  }

  /** The constraints the database enforces, plus the identity counters. */
  predicate Consistent(s: Store) {
    KeysMatch(s) && NotNullColumnsFilled(s) && ReferencesResolve(s) && LinksResolve(s)
    && UniqueColumns(s) && RowsFit(s) && HasCounters(s)
  }

  /** Every table of the schema. */
  function AllKinds(): set<Kind> {
    {DadosBancarios, Ingrediente, Pao, Pedido, ItemPedido, Padaria, Fornada, Funcionario, Tarefa}
  }

  lemma EveryKindListed()
    ensures forall k: Kind :: k in AllKinds()
  {
    forall k: Kind ensures k in AllKinds() {
      match k
      case DadosBancarios =>
      case _ =>
    }
  }

  /** The empty database with fresh identity columns. */
  function Empty(): (s: Store)
    ensures Consistent(s) && s.rows == map[] && s.links == {}
  {
    EveryKindListed();
    Store(map[], {}, map k: Kind | k in AllKinds() :: 0)
  }

  /** Why a flush fails. */
  datatype Failure =
    | Invalid(violations: set<Violation>)      // ConstraintViolationException
    | Detached(id: Long)                       // persist of an entity that has an id
    | NullColumn                               // a NOT NULL column left null
    | Dangling(targets: set<Node>)             // foreign keys to missing rows
    | Duplicate(key: UniqueValue)              // unique column clash
    | DuplicateKey(node: Node)                 // the next id is already a stored primary key
    | TooLong                                  // a text longer than its VARCHAR column
    | IdsExhausted                             // identity column past Long.MAX_VALUE
    | Missing(node: Node)                      // remove of a row that is not stored
    | StillReferenced(from: set<Node>)         // rows left behind that point at deleted ones

  datatype Outcome = Done(store: Store, id: Long) | Rejected(failure: Failure)

  /** The references of `r` that point at no stored row. */
  function DanglingOf(s: Store, r: Row): (ds: set<Node>)
    ensures forall m :: m in ds <==> m in References(r) && m !in s.rows
  {
    set m | m in References(r) && m !in s.rows
  }

  /** The stored rows whose unique column holds the value `r` would write. */
  function Clashing(s: Store, r: Row): (cs: set<Node>)
    ensures forall m :: m in cs <==>
      m in s.rows && UniqueKey(r).Some? && UniqueKey(s.rows[m]) == UniqueKey(r)
  {
    set m | m in s.rows && UniqueKey(r).Some? && UniqueKey(s.rows[m]) == UniqueKey(r)
  }

  /** The stored rows, other than `except`, whose unique column holds the
      value `r` would write. */
  function ClashesOf(s: Store, r: Row, except: Node): (cs: set<Node>)
    ensures forall m :: m in cs <==>
      m in s.rows && m != except && UniqueKey(r).Some? && UniqueKey(s.rows[m]) == UniqueKey(r)
  {
    set m | m in s.rows && m != except && UniqueKey(r).Some? && UniqueKey(s.rows[m]) == UniqueKey(r)
  }

  /** Row `n` written with `r`; every other row stays. */
  function Put(s: Store, n: Node, r: Row): (s': Store)
    ensures s'.rows.Keys == s.rows.Keys + {n} && s'.rows[n] == r
    ensures forall m :: m in s.rows && m != n ==> s'.rows[m] == s.rows[m]
    ensures s'.links == s.links && s'.issued == s.issued
  {
    s.(rows := s.rows[n := r])
  }

  /** What writing a row needs for the database to stay consistent: the
      row sits under its own key, fills its NOT NULL columns, fits its
      columns, points at stored rows and clashes with no other row's
      unique column. */
  predicate Writable(s: Store, n: Node, r: Row) {
    KindOf(r) == n.kind && IdOf(r) == Some(n.id) && NotNullFilled(r) && ColumnsFit(r)
    && DanglingOf(s, r) == {} && ClashesOf(s, r, n) == {}
  }

  lemma PutKeepsReferences(s: Store, n: Node, r: Row)
    requires ReferencesResolve(s) && Writable(s, n, r)
    ensures ReferencesResolve(Put(s, n, r))
  {
    var s' := Put(s, n, r);
    forall a, b | a in s'.rows && b in References(s'.rows[a]) ensures b in s'.rows {
      if a != n {
        assert b in s.rows;
      } else {
        assert b !in DanglingOf(s, r);
      }
    }
  }

  lemma PutKeepsUnique(s: Store, n: Node, r: Row)
    requires UniqueColumns(s) && Writable(s, n, r)
    ensures UniqueColumns(Put(s, n, r))
  {
    var s' := Put(s, n, r);
    forall a, b | a in s'.rows && b in s'.rows && a != b && UniqueKey(s'.rows[a]).Some?
      ensures UniqueKey(s'.rows[a]) != UniqueKey(s'.rows[b])
    {
      if a == n {
        assert b !in ClashesOf(s, r, n);
      } else if b == n {
        assert a !in ClashesOf(s, r, n);
      }
    }
  }

  /** The row sits under its key and fills its NOT NULL columns; every
      other row and the join rows are untouched. */
  lemma PutKeepsKeys(s: Store, n: Node, r: Row)
    requires KeysMatch(s) && NotNullColumnsFilled(s) && HasCounters(s) && Writable(s, n, r)
    ensures KeysMatch(Put(s, n, r)) && NotNullColumnsFilled(Put(s, n, r)) && HasCounters(Put(s, n, r))
  {
  }

  lemma PutKeepsLinks(s: Store, n: Node, r: Row)
    requires LinksResolve(s)
    ensures LinksResolve(Put(s, n, r))
  {
  }

  /** Writing a writable row, new or over its old version, keeps the
      database consistent. */
  lemma PutKeepsConsistent(s: Store, n: Node, r: Row)
    requires Consistent(s) && Writable(s, n, r)
    ensures Consistent(Put(s, n, r))
  {
    PutKeepsKeys(s, n, r);
    PutKeepsLinks(s, n, r);
    PutKeepsReferences(s, n, r);
    PutKeepsUnique(s, n, r);
  }

  /** The identity column of table `k` hands out `id`. */
  function Issue(s: Store, k: Kind, id: Long): (s': Store)
    requires k in s.issued && s.issued[k] < id
    ensures s'.rows == s.rows && s'.links == s.links && k in s'.issued && s'.issued[k] == id
    ensures HasCounters(s) ==> HasCounters(s')
  {
    s.(issued := s.issued[k := id])
  }

  /** The INSERT a flush sends for a new entity: an entity that already
      has an id is detached; a null in a NOT NULL column, a dangling key or a
      duplicate unique value fails; otherwise the identity column hands out
      the table's next id, and the insert fails if a row loaded with an
      explicit id already holds it, or if a text is longer than its
      column. */
  function Insert(s: Store, r: Row): (o: Outcome)
    requires HasCounters(s)
    ensures o.Done? <==>
      IdOf(r).None? && NotNullFilled(r) && DanglingOf(s, r) == {}
      && s.issued[KindOf(r)] < LONG_MAX && Clashing(s, r) == {}
      && Node(KindOf(r), s.issued[KindOf(r)] + 1) !in s.rows && ColumnsFit(r)
    ensures (IdOf(r).None? && NotNullFilled(r) && DanglingOf(s, r) == {}
             && s.issued[KindOf(r)] < LONG_MAX && Clashing(s, r) == {}
             && Node(KindOf(r), s.issued[KindOf(r)] + 1) in s.rows) ==>
              o == Rejected(DuplicateKey(Node(KindOf(r), s.issued[KindOf(r)] + 1)))
    ensures o.Done? ==>
      o.id == s.issued[KindOf(r)] + 1 && Node(KindOf(r), o.id) !in s.rows
      && o.store.rows == s.rows[Node(KindOf(r), o.id) := WithId(r, Some(o.id))]
      && o.store.links == s.links && o.store.issued == s.issued[KindOf(r) := o.id]
  {
    var k := KindOf(r);
    if IdOf(r).Some? then Rejected(Detached(IdOf(r).value))
    else if !NotNullFilled(r) then Rejected(NullColumn)
    else if DanglingOf(s, r) != {} then Rejected(Dangling(DanglingOf(s, r)))
    else if s.issued[k] >= LONG_MAX then Rejected(IdsExhausted)
    else if Clashing(s, r) != {} then Rejected(Duplicate(UniqueKey(r).value))
    else if Node(k, s.issued[k] + 1) in s.rows then Rejected(DuplicateKey(Node(k, s.issued[k] + 1)))
    else if !ColumnsFit(r) then Rejected(TooLong)
    else
      var id: Long := s.issued[k] + 1;
      Done(Put(Issue(s, k, id), Node(k, id), WithId(r, Some(id))), id)
  }

  /** Handing out an id changes no row. */
  lemma IssueKeepsConsistent(s: Store, k: Kind, id: Long)
    requires Consistent(s) && k in s.issued && s.issued[k] < id
    ensures Consistent(Issue(s, k, id))
  {
  }

  /** The row a successful insert writes is writable under its new key. */
  lemma InsertedRowWritable(s: Store, r: Row, id: Long)
    requires HasCounters(s) && Insert(s, r).Done? && id == s.issued[KindOf(r)] + 1
    ensures Writable(Issue(s, KindOf(r), id), Node(KindOf(r), id), WithId(r, Some(id)))
  {
    var s1 := Issue(s, KindOf(r), id);
    var r' := WithId(r, Some(id));
    assert DanglingOf(s1, r') == DanglingOf(s, r);
    assert ClashesOf(s1, r', Node(KindOf(r), id)) == {} by {
      assert forall m :: m in ClashesOf(s1, r', Node(KindOf(r), id)) ==> m in Clashing(s, r);
    }
  }

  /** A successful insert is the counter's next id followed by the write. */
  lemma InsertWrites(s: Store, r: Row, id: Long)
    requires HasCounters(s) && Insert(s, r).Done? && id == s.issued[KindOf(r)] + 1
    ensures Insert(s, r).store == Put(Issue(s, KindOf(r), id), Node(KindOf(r), id), WithId(r, Some(id)))
  {
  }

  /** A successful insert keeps the database consistent. */
  lemma InsertKeepsConsistent(s: Store, r: Row)
    requires Consistent(s)
    requires Insert(s, r).Done?
    ensures Consistent(Insert(s, r).store)
  {
    var k := KindOf(r);
    var id: Long := s.issued[k] + 1;
    var s1 := Issue(s, k, id);
    var r' := WithId(r, Some(id));
    InsertWrites(s, r, id);
    IssueKeepsConsistent(s, k, id);
    InsertedRowWritable(s, r, id);
    PutKeepsConsistent(s1, Node(k, id), r');
  }

  /** `em.persist(entity); em.flush()` on a new entity: Bean Validation
      runs first and a violation stops the flush before the INSERT. */
  function Persist(s: Store, r: Row, now: int, lib: Library): (o: Outcome)
    requires HasCounters(s)
    ensures RowViolations(r, now, lib) != {} ==> o == Rejected(Invalid(RowViolations(r, now, lib)))
    ensures RowViolations(r, now, lib) == {} ==> o == Insert(s, r)
  {
    var vs := RowViolations(r, now, lib);
    if vs != {} then Rejected(Invalid(vs)) else Insert(s, r)
  }

  /** The `@NotNull` and `@NotBlank` on every NOT NULL column mean a
      persist never reaches the database with a null in one. */
  lemma PersistNeverHitsNullColumn(s: Store, r: Row, now: int, lib: Library)
    requires HasCounters(s)
    ensures Persist(s, r, now, lib) != Rejected(NullColumn)
  {
    if RowViolations(r, now, lib) == {} {
      ValidRowsFillNotNull(r, now, lib);
    }
  }

  /** Bean Validation leaves only two columns to overflow: a persist the
      database refuses as too long is an employee whose CPF or e-mail
      outgrows `TXT_CPF` or `TXT_EMAIL`. */
  lemma PersistTooLongOnlyForContacts(s: Store, r: Row, now: int, lib: Library)
    requires HasCounters(s) && Persist(s, r, now, lib) == Rejected(TooLong)
    ensures r.FuncionarioRow?
    ensures !FitsColumn(r.funcionario.cpf, 14) || !FitsColumn(r.funcionario.email, 150)
  {
    if !r.FuncionarioRow? || (FitsColumn(r.funcionario.cpf, 14) && FitsColumn(r.funcionario.email, 150)) {
      ValidRowsFit(r, now, lib);
    }
  }

  /** `@Email` bounds no length: a valid employee whose e-mail is longer
      than the 150 units of `TXT_EMAIL` passes validation and is then
      refused by the database. */
  lemma LongEmailRefused(s: Store, f: FuncionarioEntity.Funcionario, now: int, lib: Library)
    requires HasCounters(s) && FuncionarioEntity.Admissible(f, now, lib)
    requires f.email.Some? && Utf16Length(f.email.value) > 150
    ensures RowViolations(FuncionarioRow(f), now, lib) == {}
    ensures Persist(s, FuncionarioRow(f), now, lib).Rejected?
  {
  }

  /** `TXT_NOME_PAO` and `NUM_PRECO` are NOT NULL: the database refuses a
      new bread without a name or a price, whatever else the store holds. */
  lemma UnnamedPaoRefused(s: Store, p: PaoEntity.Pao)
    requires HasCounters(s) && p.id.None? && (p.nomePao.None? || p.preco.None?)
    ensures Insert(s, PaoRow(p)) == Rejected(NullColumn)
  {
  }

  /** A successful persist keeps the database consistent. */
  lemma PersistKeepsConsistent(s: Store, r: Row, now: int, lib: Library)
    requires Consistent(s)
    requires Persist(s, r, now, lib).Done?
    ensures Consistent(Persist(s, r, now, lib).store)
  {
    InsertKeepsConsistent(s, r);
  }

  /** A successful persist writes the entity under its table's next id,
      a key no stored row had, and keeps every stored row. */
  lemma PersistStores(s: Store, r: Row, now: int, lib: Library)
    requires Consistent(s) && Persist(s, r, now, lib).Done?
    ensures var o := Persist(s, r, now, lib);
            var n := Node(KindOf(r), o.id);
            Consistent(o.store) && o.id == s.issued[KindOf(r)] + 1 && n !in s.rows
            && n in o.store.rows && o.store.rows[n] == WithId(r, Some(o.id))
            && (forall m :: m in s.rows ==> m in o.store.rows && o.store.rows[m] == s.rows[m])
  {
    PersistKeepsConsistent(s, r, now, lib);
  }

  /** Inserting a second row with a value already in a unique column fails,
      and since a failed flush writes nothing the first row stays: the
      duplicate ingredient name and the duplicate CNPJ of the tests. */
  lemma DuplicateRejected(s: Store, r: Row, first: Node)
    requires Consistent(s) && first in s.rows
    requires IdOf(r).None? && NotNullFilled(r) && DanglingOf(s, r) == {}
    requires UniqueKey(r).Some? && UniqueKey(s.rows[first]) == UniqueKey(r)
    ensures Insert(s, r).Rejected?
    ensures s.issued[KindOf(r)] < LONG_MAX ==> Insert(s, r) == Rejected(Duplicate(UniqueKey(r).value))
  {
    var k := KindOf(r);
    if s.issued[k] < LONG_MAX {
      assert first in Clashing(s, r);
    }
  }

  /** The UPDATE a flush sends for a managed entity: the row is written
      over unless a NOT NULL column is null, a key dangles, a unique value
      clashes with another row or a text is longer than its column. */
  function Update(s: Store, r: Row): (o: Outcome)
    requires IdOf(r).Some? && Node(KindOf(r), IdOf(r).value) in s.rows
    ensures o.Done? <==> NotNullFilled(r) && DanglingOf(s, r) == {}
                          && ClashesOf(s, r, Node(KindOf(r), IdOf(r).value)) == {} && ColumnsFit(r)
    ensures o.Done? ==> o.id == IdOf(r).value
                         && o.store == s.(rows := s.rows[Node(KindOf(r), o.id) := r])
  {
    var n := Node(KindOf(r), IdOf(r).value);
    if !NotNullFilled(r) then Rejected(NullColumn)
    else if DanglingOf(s, r) != {} then Rejected(Dangling(DanglingOf(s, r)))
    else if ClashesOf(s, r, n) != {} then Rejected(Duplicate(UniqueKey(r).value))
    else if !ColumnsFit(r) then Rejected(TooLong)
    else Done(Put(s, n, r), n.id)
  }

  /** A successful update keeps the database consistent; reading the row
      back gives the written entity. */
  lemma UpdateKeepsConsistent(s: Store, r: Row)
    requires Consistent(s)
    requires IdOf(r).Some? && Node(KindOf(r), IdOf(r).value) in s.rows
    requires Update(s, r).Done?
    ensures Consistent(Update(s, r).store)
    ensures Update(s, r).store.rows[Node(KindOf(r), IdOf(r).value)] == r
  {
    PutKeepsConsistent(s, Node(KindOf(r), IdOf(r).value), r);
  }

  /** `em.merge(entity); em.flush()`. An entity whose row is stored is
      validated and then updated; any other entity is persisted as new,
      its id, if any, dropped. */
  function Merge(s: Store, r: Row, now: int, lib: Library): (o: Outcome)
    requires HasCounters(s)
    ensures RowViolations(r, now, lib) != {} ==> o == Rejected(Invalid(RowViolations(r, now, lib)))
    ensures (IdOf(r).Some? && Node(KindOf(r), IdOf(r).value) in s.rows
             && RowViolations(r, now, lib) == {}) ==> o == Update(s, r)
    ensures (IdOf(r).None? || Node(KindOf(r), IdOf(r).value) !in s.rows) ==>
              o == Persist(s, WithId(r, None), now, lib)
  {
    var vs := RowViolations(r, now, lib);
    if IdOf(r).None? || Node(KindOf(r), IdOf(r).value) !in s.rows then
      assert RowViolations(WithId(r, None), now, lib) == vs by {
        WithIdKeepsViolations(r, None, now, lib);
      }
      Persist(s, WithId(r, None), now, lib)
    else if vs != {} then Rejected(Invalid(vs))
    else Update(s, r)
  }

  /** Flushing a modified managed entity runs Bean Validation at
      pre-update and then sends the UPDATE: the stored-row branch of
      `Merge`. */
  lemma ManagedFlushValidates(s: Store, r: Row, now: int, lib: Library)
    requires HasCounters(s) && IdOf(r).Some? && Node(KindOf(r), IdOf(r).value) in s.rows
    ensures Merge(s, r, now, lib)
         == if RowViolations(r, now, lib) != {} then Rejected(Invalid(RowViolations(r, now, lib)))
            else Update(s, r)
  {
  }

  /** Validation never looks at the id. */
  lemma WithIdKeepsViolations(r: Row, id: Option<Long>, now: int, lib: Library)
    ensures RowViolations(WithId(r, id), now, lib) == RowViolations(r, now, lib)
  {
    match r
    case FuncionarioRow(f) =>
      assert FuncionarioEntity.Validate(f.(id := id), now, lib) == FuncionarioEntity.Validate(f, now, lib) by {
        assert FuncionarioEntity.NamingViolations(f.(id := id), now, lib) == FuncionarioEntity.NamingViolations(f, now, lib);
      }
    case _ =>
  }

  /** A successful merge keeps the database consistent. */
  lemma MergeKeepsConsistent(s: Store, r: Row, now: int, lib: Library)
    requires Consistent(s)
    requires Merge(s, r, now, lib).Done?
    ensures Consistent(Merge(s, r, now, lib).store)
  {
    if IdOf(r).None? || Node(KindOf(r), IdOf(r).value) !in s.rows {
      PersistKeepsConsistent(s, WithId(r, None), now, lib);
    } else {
      UpdateKeepsConsistent(s, r);
    }
  }

  /** The ingredients of a bread: what `Pao.ingredientes` loads. */
  function IngredientesOf(s: Store, pao: Long): set<Long> {
    set l | l in s.links && l.pao == pao :: l.ingrediente
  }

  /** The breads of an ingredient: what the inverse `Ingrediente.paes`
      loads. It is read off the rows `Pao.ingredientes` wrote; the
      ingredient side stores nothing. */
  function PaesOf(s: Store, ingrediente: Long): set<Long> {
    set l | l in s.links && l.ingrediente == ingrediente :: l.pao
  }

  /** The two sides always agree. */
  lemma InverseSideMirrorsOwner(s: Store, pao: Long, ingrediente: Long)
    ensures pao in PaesOf(s, ingrediente) <==> ingrediente in IngredientesOf(s, pao)
  {
    if ingrediente in IngredientesOf(s, pao) {
      var l :| l in s.links && l.pao == pao && l.ingrediente == ingrediente;
    }
    if pao in PaesOf(s, ingrediente) {
      var l :| l in s.links && l.ingrediente == ingrediente && l.pao == pao;
    }
  }

  /** `pao.getIngredientes().add(ingrediente); em.flush()`: one join row
      more. Both rows must be stored: the association does not cascade,
      so a transient ingredient makes the flush fail. */
  function AddIngrediente(s: Store, pao: Long, ingrediente: Long): (o: Outcome)
    ensures o.Done? <==> Node(Pao, pao) in s.rows && Node(Ingrediente, ingrediente) in s.rows
    ensures o.Done? ==> o.store == s.(links := s.links + {Link(pao, ingrediente)})
  {
    if Node(Pao, pao) !in s.rows then Rejected(Dangling({Node(Pao, pao)}))
    else if Node(Ingrediente, ingrediente) !in s.rows then
      Rejected(Dangling({Node(Ingrediente, ingrediente)}))
    else Done(s.(links := s.links + {Link(pao, ingrediente)}), pao)
  }

  /** One join row more lists one ingredient more, under its own bread
      only. */
  lemma AddedLinkListed(s: Store, pao: Long, ingrediente: Long, p: Long)
    ensures IngredientesOf(s.(links := s.links + {Link(pao, ingrediente)}), p)
         == IngredientesOf(s, p) + (if p == pao then {ingrediente} else {})
  {
    var s' := s.(links := s.links + {Link(pao, ingrediente)});
    forall i ensures i in IngredientesOf(s', p) <==> i in IngredientesOf(s, p) + (if p == pao then {ingrediente} else {}) {
      if i in IngredientesOf(s', p) {
        var l :| l in s'.links && l.pao == p && l.ingrediente == i;
      }
      if i in IngredientesOf(s, p) {
        var l :| l in s.links && l.pao == p && l.ingrediente == i;
        assert l in s'.links;
      }
      if p == pao && i == ingrediente {
        assert Link(pao, ingrediente) in s'.links;
      }
    }
  }

  /** Adding a new ingredient grows the bread's list by exactly that
      ingredient, two to three in the tests, leaves every other bread's
      list alone and keeps the database consistent. */
  lemma AddIngredienteGrowsByOne(s: Store, pao: Long, ingrediente: Long)
    requires Consistent(s)
    requires Node(Pao, pao) in s.rows && Node(Ingrediente, ingrediente) in s.rows
    requires ingrediente !in IngredientesOf(s, pao)
    ensures Consistent(AddIngrediente(s, pao, ingrediente).store)
    ensures IngredientesOf(AddIngrediente(s, pao, ingrediente).store, pao)
         == IngredientesOf(s, pao) + {ingrediente}
    ensures |IngredientesOf(AddIngrediente(s, pao, ingrediente).store, pao)|
         == |IngredientesOf(s, pao)| + 1
    ensures forall p :: p != pao ==>
      IngredientesOf(AddIngrediente(s, pao, ingrediente).store, p) == IngredientesOf(s, p)
  {
    AddedLinkListed(s, pao, ingrediente, pao);
    forall p | p != pao
      ensures IngredientesOf(AddIngrediente(s, pao, ingrediente).store, p) == IngredientesOf(s, p)
    {
      AddedLinkListed(s, pao, ingrediente, p);
    }
  }
}
