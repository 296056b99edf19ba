/** The clean-up every database test runs first: one bulk `DELETE FROM` per
    table, children before parents, then every identity column restarted
    at 1. A bulk delete cascades nothing: it fails if a row left in another
    table still points at a deleted one, and the failure rolls the whole
    clean-up back. */
module Wipe {
  import opened JavaLang
  import opened Schema
  import opened Store

  /** A table the clean-up empties: an entity table or TB_PAO_INGREDIENTE. */
  datatype Table = EntityTable(kind: Kind) | JoinTable

  /** `DELETE FROM t`, every row of the table gone. */
  function WipeTable(s: Store, t: Table): (s': Store)
    ensures s'.issued == s.issued
    ensures forall m :: m in s'.rows <==> m in s.rows && !(t.EntityTable? && m.kind == t.kind)
    ensures forall m :: m in s'.rows ==> s'.rows[m] == s.rows[m]
    ensures s'.links == if t.JoinTable? then {} else s.links
    ensures KeysMatch(s) ==> KeysMatch(s')
  {
    match t
    case EntityTable(k) => s.(rows := map m | m in s.rows && m.kind != k :: s.rows[m])
    case JoinTable => s.(links := {})
  }

  /** The bulk delete passes the foreign-key checks: no row of another
      table points into the table, and no join row names a bread or an
      ingredient being deleted. */
  predicate WipeSafe(s: Store, t: Table) {
    match t
    case EntityTable(k) =>
      (forall m, b :: m in s.rows && b in References(s.rows[m]) ==> b.kind != k || m.kind == k)
      && ((k == Pao || k == Ingrediente) ==> s.links == {})
    case JoinTable => true
  }

  /** A safe bulk delete keeps the database consistent. */
  lemma WipeKeepsConsistent(s: Store, t: Table)
    requires Consistent(s) && WipeSafe(s, t)
    ensures Consistent(WipeTable(s, t))
  {
    var s' := WipeTable(s, t);
    forall m, b | m in s'.rows && b in References(s'.rows[m]) ensures b in s'.rows {
      assert b in s.rows;
    }
  }

  /** The statements in order; `None` when one of them fails. On success
      every listed table is empty, the rows of the other tables are as
      they were, and the identity counters are untouched. */
  function RunWipe(s: Store, order: seq<Table>): (o: Option<Store>)
    ensures o.Some? ==> o.value.issued == s.issued
    ensures o.Some? ==> forall m :: m in o.value.rows <==> m in s.rows && EntityTable(m.kind) !in order
    ensures o.Some? ==> forall m :: m in o.value.rows ==> o.value.rows[m] == s.rows[m]
    ensures o.Some? ==> o.value.links == if JoinTable in order then {} else s.links
    decreases |order|
  {
    if order == [] then Some(s)
    else if !WipeSafe(s, order[0]) then None
    else RunWipe(WipeTable(s, order[0]), order[1..])
  }

  /** A clean-up whose every statement passes keeps the database
      consistent at every step. */
  lemma {:induction false} RunWipeKeepsConsistent(s: Store, order: seq<Table>)
    requires Consistent(s) && RunWipe(s, order).Some?
    ensures Consistent(RunWipe(s, order).value)
    decreases |order|
  {
    if order != [] {
      WipeKeepsConsistent(s, order[0]);
      RunWipeKeepsConsistent(WipeTable(s, order[0]), order[1..]);
    }
  }

  /** The order of the clean-up: items, join rows, tasks, orders, batches,
      breads, ingredients, employees, bakeries, bank accounts. */
  const WIPE_ORDER: seq<Table> := [
    EntityTable(ItemPedido), JoinTable, EntityTable(Tarefa), EntityTable(Pedido),
    EntityTable(Fornada), EntityTable(Pao), EntityTable(Ingrediente),
    EntityTable(Funcionario), EntityTable(Padaria), EntityTable(DadosBancarios)]

  /** `setUp`'s clean-up: the deletes, then the identity columns restarted.
      A failed delete rolls everything back. */
  function CleanUp(s: Store): Store {
    if RunWipe(s, WIPE_ORDER).Some? then Empty() else s
  }

  /** No row of table `k` is left. */
  predicate Gone(s: Store, k: Kind) {
    forall m :: m in s.rows ==> m.kind != k
  }

  /** The tables whose rows can point at rows of `k` are empty. */
  predicate ReferrersGone(s: Store, k: Kind) {
    match k
    case Pedido | Pao | Fornada => Gone(s, ItemPedido)
    case Funcionario => Gone(s, Tarefa)
    case Padaria => Gone(s, Funcionario) && Gone(s, Fornada)
    case DadosBancarios => Gone(s, Funcionario)
    case _ => true
  }

  /** Which tables point at which: with the referring tables emptied and
      the join rows gone where they matter, a bulk delete is safe. */
  lemma SafeOnceReferrersGone(s: Store, k: Kind)
    requires KeysMatch(s) && ReferrersGone(s, k)
    requires (k == Pao || k == Ingrediente) ==> s.links == {}
    ensures WipeSafe(s, EntityTable(k))
  {
    forall m, b | m in s.rows && b in References(s.rows[m]) ensures b.kind != k || m.kind == k {
      assert KindOf(s.rows[m]) == m.kind;
    }
  }

  /** The state before statement `j` of the clean-up: the tables of the
      earlier statements are empty. */
  predicate ReadyFor(s: Store, j: nat)
    requires j <= |WIPE_ORDER|
  {
    KeysMatch(s)
    && (forall i :: 0 <= i < j && WIPE_ORDER[i].EntityTable? ==> Gone(s, WIPE_ORDER[i].kind))
    && (j > 1 ==> s.links == {})
  }

  /** Which earlier statement empties the tables a statement's own table
      is referenced from. */
  lemma ReadyIsSafe(s: Store, j: nat)
    requires j < |WIPE_ORDER| && WIPE_ORDER[j].EntityTable? && ReadyFor(s, j)
    ensures WipeSafe(s, WIPE_ORDER[j])
  {
    var k := WIPE_ORDER[j].kind;
    if j == 3 || j == 4 || j == 5 {
      assert WIPE_ORDER[0].EntityTable?;
    } else if j == 7 {
      assert WIPE_ORDER[2].EntityTable?;
    } else if j == 8 {
      assert WIPE_ORDER[4].EntityTable? && WIPE_ORDER[7].EntityTable?;
    } else if j == 9 {
      assert WIPE_ORDER[7].EntityTable?;
    }
    SafeOnceReferrersGone(s, k);
  }

  /** Each statement finds the tables pointing into its own already empty. */
  lemma {:induction false} SucceedsFrom(s: Store, j: nat)
    requires j <= |WIPE_ORDER| && ReadyFor(s, j)
    ensures RunWipe(s, WIPE_ORDER[j..]).Some?
    decreases |WIPE_ORDER| - j
  {
    if j < |WIPE_ORDER| {
      var t := WIPE_ORDER[j];
      if t.EntityTable? {
        ReadyIsSafe(s, j);
      }
      var s' := WipeTable(s, t);
      assert ReadyFor(s', j + 1);
      SucceedsFrom(s', j + 1);
      assert WIPE_ORDER[j..][1..] == WIPE_ORDER[j + 1..];
    }
  }

  /** The clean-up's order passes every foreign-key check, whatever the
      tables hold, and leaves every table empty; `setUp` therefore always
      starts from the empty database with fresh identity columns. */
  lemma WipeOrderSucceeds(s: Store)
    requires KeysMatch(s)
    ensures RunWipe(s, WIPE_ORDER).Some?
    ensures RunWipe(s, WIPE_ORDER).value.rows == map[] && RunWipe(s, WIPE_ORDER).value.links == {}
    ensures CleanUp(s) == Empty()
  {
    SucceedsFrom(s, 0);
    assert WIPE_ORDER[0..] == WIPE_ORDER;
  }

  /** Deleting the bakeries while an employee is left fails the foreign
      key ID_PADARIA, and the clean-up rolls back. */
  lemma PadariaBeforeFuncionarioFails(s: Store, f: Node)
    requires Consistent(s) && f in s.rows && f.kind == Funcionario
    ensures !WipeSafe(s, EntityTable(Padaria))
    ensures RunWipe(s, [EntityTable(Padaria), EntityTable(Funcionario)]) == None
  {
    var p := Node(Padaria, s.rows[f].funcionario.padaria.value);
    assert p in References(s.rows[f]);
  }
}
