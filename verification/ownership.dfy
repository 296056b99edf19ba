/** The owning side of the cascading associations at work: a child taken
    out of its parent's collection, the bank account an employee lets go,
    and the account persisted along with a new employee. */
module Ownership {
  import opened JavaLang
  import opened BeanValidation
  import opened Schema
  import opened Store
  import opened Cascade
  import FuncionarioEntity
  import DadosBancariosEntity

  /** `parent.getItens().remove(child); em.flush()` on a collection with
      `orphanRemoval = true`: a child the collection held is removed with
      everything it cascades to; removing anything else changes nothing. */
  function RemoveFromCollection(s: Store, parent: Node, child: Node): (o: Outcome)
    requires KeysMatch(s)
    ensures child in s.rows && parent in Parents(s.rows[child]) ==> o == Delete(s, child)
    ensures !(child in s.rows && parent in Parents(s.rows[child])) ==> o == Done(s, parent.id)
  {
    if child in s.rows && parent in Parents(s.rows[child]) then Delete(s, child)
    else Done(s, parent.id)
  }

  /** The orphan goes; its parent and its siblings of the same table stay. */
  lemma OrphanRemoved(s: Store, parent: Node, child: Node)
    requires Consistent(s) && child in s.rows && parent in Parents(s.rows[child])
    ensures RemoveFromCollection(s, parent, child).Done?
    ensures child !in RemoveFromCollection(s, parent, child).store.rows
    ensures parent in RemoveFromCollection(s, parent, child).store.rows
    ensures forall m :: m in s.rows && m.kind == child.kind && m != child ==>
              m in RemoveFromCollection(s, parent, child).store.rows
    ensures Consistent(RemoveFromCollection(s, parent, child).store)
  {
    assert parent in References(s.rows[child]);
    DeleteRemovesClosure(s, child);
    DeleteKeepsConsistent(s, child);
  }

  /** The employee row with its account column cleared. */
  function Cleared(s: Store, f: Node): Row
    requires f in s.rows && s.rows[f].FuncionarioRow?
  {
    FuncionarioRow(s.rows[f].funcionario.(dadosBancarios := None))
  }

  /** `funcionario.setDadosBancarios(null); em.flush()` on a managed
      employee: the employee is validated, then the database step runs. */
  function DropAccount(s: Store, f: Node, now: int, lib: Library): (o: Outcome)
    requires Consistent(s) && f in s.rows && s.rows[f].FuncionarioRow?
    ensures RowViolations(Cleared(s, f), now, lib) != {} ==>
              o == Rejected(Invalid(RowViolations(Cleared(s, f), now, lib)))
    ensures RowViolations(Cleared(s, f), now, lib) == {} ==> o == ReleaseAccount(s, f)
  {
    var vs := RowViolations(Cleared(s, f), now, lib);
    if vs != {} then Rejected(Invalid(vs)) else ReleaseAccount(s, f)
  }

  /** The database step of letting go of the account: the update clears
      ID_DADOS_BANCARIOS, then orphan removal deletes the account the
      employee held. */
  function ReleaseAccount(s: Store, f: Node): (o: Outcome)
    requires Consistent(s) && f in s.rows && s.rows[f].FuncionarioRow?
  {
    var cleared := Cleared(s, f);
    ClearedStaysPut(s, f);
    var u := Update(s, cleared);
    var account := s.rows[f].funcionario.dadosBancarios;
    if u.Rejected? || account.None? then u
    else
      UpdateKeepsConsistent(s, cleared);
      Delete(u.store, Node(DadosBancarios, account.value))
  }

  /** The cleared row keeps the employee's table and id. */
  lemma ClearedStaysPut(s: Store, f: Node)
    requires KeysMatch(s) && f in s.rows && s.rows[f].FuncionarioRow?
    ensures IdOf(Cleared(s, f)) == Some(f.id) && KindOf(Cleared(s, f)) == f.kind
  {
  }

  /** The update that clears the account column succeeds, and afterwards
      nothing holds the account. */
  lemma ClearingFrees(s: Store, f: Node)
    requires Consistent(s) && f in s.rows && s.rows[f].FuncionarioRow?
    ensures IdOf(Cleared(s, f)) == Some(f.id) && KindOf(Cleared(s, f)) == f.kind
    ensures Update(s, Cleared(s, f)).Done?
    ensures forall d :: d in Owned(s.rows[f]) ==> !Pinned(Update(s, Cleared(s, f)).store, d)
  {
    var cleared := Cleared(s, f);
    ClearedStaysPut(s, f);
    assert NotNullFilled(s.rows[f]);
    assert DanglingOf(s, cleared) == {};
    assert ClashesOf(s, cleared, f) == {};
    var u := Update(s, cleared);
    forall d, m | d in Owned(s.rows[f]) && m in u.store.rows ensures d !in Owned(u.store.rows[m]) {
      if m != f && d in Owned(s.rows[m]) {
        OneHolderPerAccount(s, f, m, d);
      }
    }
  }

  /** An account nothing holds any more can be deleted. */
  lemma FreedAccountDeleted(u: Store, a: Node)
    requires Consistent(u) && a in u.rows && !Pinned(u, a)
    ensures Delete(u, a).Done? && Consistent(Delete(u, a).store)
  {
    DeleteSucceedsUnlessPinned(u, a);
    DeleteKeepsConsistent(u, a);
  }

  /** The database step of letting go of a held account is the update
      followed by the removal of the account. */
  lemma ReleaseHeldAccount(s: Store, f: Node)
    requires Consistent(s) && f in s.rows && s.rows[f].FuncionarioRow?
    requires s.rows[f].funcionario.dadosBancarios.Some?
    ensures Update(s, Cleared(s, f)).Done? && Consistent(Update(s, Cleared(s, f)).store)
    ensures ReleaseAccount(s, f) == Delete(Update(s, Cleared(s, f)).store,
                                           Node(DadosBancarios, s.rows[f].funcionario.dadosBancarios.value))
  {
    ClearingFrees(s, f);
    UpdateKeepsConsistent(s, Cleared(s, f));
  }

  /** Letting go of the account always succeeds and keeps the database
      consistent: no other employee can hold the account, since the column
      is unique. */
  lemma ReleaseAccountSucceeds(s: Store, f: Node)
    requires Consistent(s) && f in s.rows && s.rows[f].FuncionarioRow?
    ensures ReleaseAccount(s, f).Done?
    ensures Consistent(ReleaseAccount(s, f).store)
  {
    var account := s.rows[f].funcionario.dadosBancarios;
    if account.Some? {
      ReleaseHeldAccount(s, f);
      var a := Node(DadosBancarios, account.value);
      assert a in References(s.rows[f]);
      ClearingFrees(s, f);
      FreedAccountDeleted(Update(s, Cleared(s, f)).store, a);
    } else {
      ClearingFrees(s, f);
      UpdateKeepsConsistent(s, Cleared(s, f));
    }
  }

  /** A held account is removed while the employee row stays, cleared. */
  lemma HeldAccountRemoved(s: Store, f: Node)
    requires Consistent(s) && f in s.rows && s.rows[f].FuncionarioRow?
    requires s.rows[f].funcionario.dadosBancarios.Some?
    ensures ReleaseAccount(s, f).Done?
    ensures f in ReleaseAccount(s, f).store.rows && ReleaseAccount(s, f).store.rows[f] == Cleared(s, f)
    ensures Node(DadosBancarios, s.rows[f].funcionario.dadosBancarios.value) !in ReleaseAccount(s, f).store.rows
  {
    ReleaseAccountSucceeds(s, f);
    ReleaseHeldAccount(s, f);
    var u := Update(s, Cleared(s, f)).store;
    var a := Node(DadosBancarios, s.rows[f].funcionario.dadosBancarios.value);
    assert f !in Closure(u, a);
  }

  /** Afterwards the employee row is the one written back without its
      account, and the account is gone. */
  lemma ReleaseAccountRemovesAccount(s: Store, f: Node)
    requires Consistent(s) && f in s.rows && s.rows[f].FuncionarioRow?
    ensures ReleaseAccount(s, f).Done?
    ensures f in ReleaseAccount(s, f).store.rows
    ensures ReleaseAccount(s, f).store.rows[f] == Cleared(s, f)
    ensures forall d :: d in Owned(s.rows[f]) ==> d !in ReleaseAccount(s, f).store.rows
  {
    if s.rows[f].funcionario.dadosBancarios.Some? {
      HeldAccountRemoved(s, f);
    } else {
      ReleaseAccountSucceeds(s, f);
      ClearingFrees(s, f);
    }
  }

  /** `em.persist(parent); em.flush()` where `parent` cascades the persist
      to a new `child` it holds a foreign key to: the child is validated and
      inserted first, then the parent, written by `parentOf` around the
      child's new id, is validated and inserted. */
  function PersistCascade(s: Store, child: Row, parentOf: Long -> Row, now: int, lib: Library): (o: Outcome)
    requires Consistent(s)
    ensures RowViolations(child, now, lib) != {} ==>
              o == Rejected(Invalid(RowViolations(child, now, lib)))
  {
    var c := Persist(s, child, now, lib);
    if c.Rejected? then c
    else
      PersistKeepsConsistent(s, child, now, lib);
      Persist(c.store, parentOf(c.id), now, lib)
  }

  /** When a cascaded persist succeeds, child and parent both get ids no
      stored row had, both rows are stored as given, and the database
      stays consistent. */
  lemma PersistCascadeStoresBoth(s: Store, child: Row, parentOf: Long -> Row, now: int, lib: Library)
    requires Consistent(s) && PersistCascade(s, child, parentOf, now, lib).Done?
    ensures Consistent(PersistCascade(s, child, parentOf, now, lib).store)
    ensures var o := PersistCascade(s, child, parentOf, now, lib);
            var c := Node(KindOf(child), s.issued[KindOf(child)] + 1);
            var p := Node(KindOf(parentOf(c.id)), o.id);
            c !in s.rows && p !in s.rows && c != p
            && c in o.store.rows && o.store.rows[c] == WithId(child, Some(c.id))
            && p in o.store.rows && o.store.rows[p] == WithId(parentOf(c.id), Some(o.id))
  {
    var c := Persist(s, child, now, lib);
    PersistStores(s, child, now, lib);
    var e := Persist(c.store, parentOf(c.id), now, lib);
    assert PersistCascade(s, child, parentOf, now, lib) == e;
    PersistStores(c.store, parentOf(c.id), now, lib);
  }

  /** The employee row a cascaded persist writes: the new employee holding
      account `account`. */
  function Holder(f: FuncionarioEntity.Funcionario, account: Long): Row {
    FuncionarioRow(f.(dadosBancarios := Some(account)))
  }

  /** The parent `PersistCascade` writes around the account's new id. */
  function HolderOf(f: FuncionarioEntity.Funcionario): Long -> Row {
    (account: Long) => Holder(f, account)
  }

  /** `funcionario.setDadosBancarios(dados); em.persist(funcionario);
      em.flush()` with both new: an instance of `PersistCascade`. */
  function PersistWithAccount(s: Store, f: FuncionarioEntity.Funcionario,
                              d: DadosBancariosEntity.DadosBancarios, now: int, lib: Library): (o: Outcome)
    requires Consistent(s)
  {
    PersistCascade(s, DadosBancariosRow(d), HolderOf(f), now, lib)
  }

  /** A parent the validator refuses whatever id the child gets is never
      stored: either the child fails first, or the parent does. */
  lemma InvalidParentStoresNothing(s: Store, child: Row, parentOf: Long -> Row, now: int, lib: Library)
    requires Consistent(s)
    requires forall id: Long :: RowViolations(parentOf(id), now, lib) != {}
    ensures PersistCascade(s, child, parentOf, now, lib).Rejected?
  {
  }

  /** The account carries no constraint on the employee side: the holder
      row is refused exactly when the employee is. */
  lemma HolderValidatedAsEmployee(f: FuncionarioEntity.Funcionario, account: Long, now: int, lib: Library)
    ensures RowViolations(Holder(f, account), now, lib) == {} <==> FuncionarioEntity.Admissible(f, now, lib)
  {
    assert FuncionarioEntity.Admissible(f.(dadosBancarios := Some(account)), now, lib)
       <==> FuncionarioEntity.Admissible(f, now, lib);
  }

  /** An employee the validator refuses is not stored, whatever its
      account: the account never outlives a refused employee. */
  lemma InvalidHolderStoresNothing(s: Store, f: FuncionarioEntity.Funcionario,
                                   d: DadosBancariosEntity.DadosBancarios, now: int, lib: Library)
    requires Consistent(s) && !FuncionarioEntity.Admissible(f, now, lib)
    ensures PersistWithAccount(s, f, d, now, lib).Rejected?
  {
    forall id: Long ensures RowViolations(HolderOf(f)(id), now, lib) != {} {
      HolderValidatedAsEmployee(f, id, now, lib);
    }
    InvalidParentStoresNothing(s, DadosBancariosRow(d), HolderOf(f), now, lib);
  }
}
