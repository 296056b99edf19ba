/** `em.remove(entity); em.flush()`: the removal cascades along every
    association declared with `cascade = ALL` (section 3.2.3 of the Jakarta
    Persistence specification), and a child dropped from an owning
    collection or one-to-one with `orphanRemoval = true` is removed too
    (section 2.9). */
module Cascade {
  import opened JavaLang
  import opened Schema
  import opened Store

  /** The tables whose rows a removal can reach from another row: the
      targets of the cascading collections and of the owned account. */
  predicate Dependent(k: Kind) {
    k == Funcionario || k == Fornada || k == ItemPedido || k == Tarefa || k == DadosBancarios
  }

  /** The rows `n` cascades a removal to: the rows whose parent key names
      `n`, and the bank account `n` owns. */
  function ChildrenOf(s: Store, n: Node): (cs: set<Node>)
    requires KeysMatch(s)
    ensures forall c :: c in cs ==> c in s.rows && Rank(c.kind) < Rank(n.kind) && Dependent(c.kind)
    ensures forall c :: c in cs <==>
      c in s.rows && (n in Parents(s.rows[c]) || (n in s.rows && c in Owned(s.rows[n])))
  {
    (set m | m in s.rows && n in Parents(s.rows[m]))
    + (if n in s.rows then set o | o in Owned(s.rows[n]) && o in s.rows else {})
  }

  /** Every row a removal of `n` reaches: `n` and, transitively, the rows
      it cascades to. */
  function Closure(s: Store, n: Node): (c: set<Node>)
    requires KeysMatch(s)
    ensures n in c
    ensures forall m :: m in c && m != n ==> m in s.rows && Rank(m.kind) < Rank(n.kind) && Dependent(m.kind)
    decreases Rank(n.kind)
  {
    {n} + (set c, m | c in ChildrenOf(s, n) && m in Closure(s, c) :: m)
  }

  /** No row outside `x` is a cascade target of a row inside it. */
  predicate ClosedUnderCascade(s: Store, x: set<Node>)
    requires KeysMatch(s)
  {
    forall m, c :: m in x && c in ChildrenOf(s, m) ==> c in x
  }

  /** A closure holds everything its rows cascade to. */
  lemma {:induction false} ClosureClosed(s: Store, n: Node)
    requires KeysMatch(s)
    ensures ClosedUnderCascade(s, Closure(s, n))
    decreases Rank(n.kind)
  {
    forall m, c | m in Closure(s, n) && c in ChildrenOf(s, m) ensures c in Closure(s, n) {
      if m == n {
        assert c in Closure(s, c);
      } else {
        var c0 :| c0 in ChildrenOf(s, n) && m in Closure(s, c0);
        ClosureClosed(s, c0);
        assert c in Closure(s, c0);
      }
    }
  }

  /** ... and nothing more: the closure is the least set that contains `n`
      and is closed under cascading. */
  lemma {:induction false} ClosureLeast(s: Store, n: Node, x: set<Node>)
    requires KeysMatch(s) && n in x && ClosedUnderCascade(s, x)
    ensures Closure(s, n) <= x
    decreases Rank(n.kind)
  {
    forall c | c in ChildrenOf(s, n) ensures Closure(s, c) <= x {
      ClosureLeast(s, c, x);
    }
  }

  /** Every row of a closure but its root is reached from a row of the
      closure by one cascade step. */
  lemma {:induction false} ClosureOrigin(s: Store, n: Node, b: Node)
    requires KeysMatch(s) && b in Closure(s, n) && b != n
    ensures exists x :: x in Closure(s, n) && b in ChildrenOf(s, x)
    decreases Rank(n.kind)
  {
    var c0 :| c0 in ChildrenOf(s, n) && b in Closure(s, c0);
    if b == c0 {
      assert n in Closure(s, n) && b in ChildrenOf(s, n);
    } else {
      ClosureOrigin(s, c0, b);
      var x :| x in Closure(s, c0) && b in ChildrenOf(s, x);
      assert x in Closure(s, n);
    }
  }

  /** What a removal of the rows `c` would leave pointing at them: rows
      outside `c` whose foreign keys name a row of `c`, and the breads of
      join rows naming a removed ingredient. The ingredient side of the
      many-to-many does not own the join rows, so they stay. */
  function Blockers(s: Store, c: set<Node>): (bs: set<Node>)
    ensures forall m :: m in s.rows && m !in c && !(References(s.rows[m]) !! c) ==> m in bs
    ensures forall l :: l in s.links && Node(Ingrediente, l.ingrediente) in c && Node(Pao, l.pao) !in c
              ==> Node(Pao, l.pao) in bs
    ensures forall b :: b in bs ==>
              b !in c
              && ((b in s.rows && !(References(s.rows[b]) !! c))
                  || exists l :: l in s.links && Node(Ingrediente, l.ingrediente) in c && b == Node(Pao, l.pao))
  {
    (set m | m in s.rows && m !in c && !(References(s.rows[m]) !! c))
    + (set l | l in s.links && Node(Ingrediente, l.ingrediente) in c && Node(Pao, l.pao) !in c
         :: Node(Pao, l.pao))
  }

  /** The DELETE statements a flush sends: the rows of `c` go, with the
      join rows of every removed bread. */
  function Remove(s: Store, c: set<Node>): (s': Store)
    ensures s'.rows.Keys == s.rows.Keys - c
    ensures forall m :: m in s'.rows ==> s'.rows[m] == s.rows[m]
    ensures forall l :: l in s'.links <==> l in s.links && Node(Pao, l.pao) !in c
    ensures s'.issued == s.issued
  {
    Store(map m | m in s.rows && m !in c :: s.rows[m],
          (set l | l in s.links && Node(Pao, l.pao) !in c),
          s.issued)
  }

  /** Removing rows nothing else points at keeps the database consistent. */
  lemma RemoveKeepsConsistent(s: Store, c: set<Node>)
    requires Consistent(s) && Blockers(s, c) == {}
    ensures Consistent(Remove(s, c))
  {
    var s' := Remove(s, c);
    forall m, b | m in s'.rows && b in References(s'.rows[m]) ensures b in s'.rows {
      assert b in s.rows;
      assert m !in Blockers(s, c);
    }
    forall l | l in s'.links
      ensures Node(Pao, l.pao) in s'.rows && Node(Ingrediente, l.ingrediente) in s'.rows
    {
      assert Node(Pao, l.pao) !in Blockers(s, c);
    }
  }

  /** `em.remove` of row `n` and the flush after it: the closure of `n` is
      deleted, unless a row left behind would still point into it. */
  function Delete(s: Store, n: Node): (o: Outcome)
    requires KeysMatch(s)
    ensures o.Done? <==> n in s.rows && Blockers(s, Closure(s, n)) == {}
    ensures o.Done? ==> o.id == n.id && o.store == Remove(s, Closure(s, n))
    ensures n !in s.rows ==> o == Rejected(Missing(n))
  {
    if n !in s.rows then Rejected(Missing(n))
    else
      var bs := Blockers(s, Closure(s, n));
      if bs != {} then Rejected(StillReferenced(bs))
      else Done(Remove(s, Closure(s, n)), n.id)
  }

  /** A successful removal keeps the database consistent. */
  lemma DeleteKeepsConsistent(s: Store, n: Node)
    requires Consistent(s) && Delete(s, n).Done?
    ensures Consistent(Delete(s, n).store)
  {
    RemoveKeepsConsistent(s, Closure(s, n));
  }

  /** A row that no cascade reaches and that something still points at:
      an ingredient some bread lists, or a bank account some employee
      holds. */
  predicate Pinned(s: Store, n: Node) {
    (n.kind == Ingrediente && exists l :: l in s.links && l.ingrediente == n.id)
    || (n.kind == DadosBancarios && exists m :: m in s.rows && n in Owned(s.rows[m]))
  }

  /** A bank account is a cascade target only of the employee holding it. */
  lemma AccountHolder(s: Store, x: Node, b: Node)
    requires KeysMatch(s) && b in ChildrenOf(s, x) && b.kind == DadosBancarios
    ensures x in s.rows && b in Owned(s.rows[x])
  {
    assert s.rows[b].DadosBancariosRow?;
  }

  /** The unique ID_DADOS_BANCARIOS column: two employees holding the same
      account are one. */
  lemma OneHolderPerAccount(s: Store, x: Node, m: Node, b: Node)
    requires UniqueColumns(s) && x in s.rows && m in s.rows
    requires b in Owned(s.rows[x]) && b in Owned(s.rows[m])
    ensures x == m
  {
    assert UniqueKey(s.rows[x]) == Some(FuncionarioConta(b.id)) == UniqueKey(s.rows[m]);
  }

  /** A row pointing at a row of a closure whose root is not pinned is in
      the closure itself. */
  lemma ReferrerInClosure(s: Store, n: Node, m: Node, b: Node)
    requires KeysMatch(s) && UniqueColumns(s) && !Pinned(s, n)
    requires m in s.rows && b in References(s.rows[m]) && b in Closure(s, n)
    ensures m in Closure(s, n)
  {
    if b in Parents(s.rows[m]) {
      assert m in ChildrenOf(s, b);
      ClosureClosed(s, n);
    } else if b != n {
      ClosureOrigin(s, n, b);
      var x :| x in Closure(s, n) && b in ChildrenOf(s, x);
      AccountHolder(s, x, b);
      OneHolderPerAccount(s, x, m, b);
    }
  }

  /** A pinned root stays: the bread listing the ingredient, or the
      employee holding the account, is outside the closure. */
  lemma PinnedBlocks(s: Store, n: Node)
    requires KeysMatch(s) && Pinned(s, n)
    ensures Blockers(s, Closure(s, n)) != {}
  {
    var c := Closure(s, n);
    if n.kind == Ingrediente {
      var l :| l in s.links && l.ingrediente == n.id;
      assert Node(Pao, l.pao) in Blockers(s, c);
    } else {
      var m :| m in s.rows && n in Owned(s.rows[m]);
      assert m in Blockers(s, c);
    }
  }

  /** Whatever else the cascade from an unpinned root reaches, everything
      pointing at it goes too. */
  lemma UnpinnedUnblocked(s: Store, n: Node)
    requires KeysMatch(s) && UniqueColumns(s) && !Pinned(s, n)
    ensures Blockers(s, Closure(s, n)) == {}
  {
    var c := Closure(s, n);
    forall m, b | m in s.rows && b in References(s.rows[m]) && b in c ensures m in c {
      ReferrerInClosure(s, n, m, b);
    }
    assert forall l :: l in s.links ==> Node(Ingrediente, l.ingrediente) != n;
  }

  /** A removal of a stored row fails exactly when the row is pinned. */
  lemma DeleteSucceedsUnlessPinned(s: Store, n: Node)
    requires Consistent(s) && n in s.rows
    ensures Delete(s, n).Done? <==> !Pinned(s, n)
  {
    if Pinned(s, n) {
      PinnedBlocks(s, n);
    } else {
      UnpinnedUnblocked(s, n);
    }
  }

  /** A removal of an unpinned row deletes its closure and nothing else. */
  lemma DeleteRemovesClosure(s: Store, n: Node)
    requires Consistent(s) && n in s.rows && !Pinned(s, n)
    ensures Delete(s, n).Done?
    ensures forall m :: m in Closure(s, n) ==> m !in Delete(s, n).store.rows
    ensures forall m :: m in s.rows && m !in Closure(s, n) ==>
              m in Delete(s, n).store.rows && Delete(s, n).store.rows[m] == s.rows[m]
  {
    DeleteSucceedsUnlessPinned(s, n);
  }

  /** An item goes when its order, its bread or its batch goes: all three
      collections cascade to it, the optional batch link included. */
  lemma ItemGoesWithAnyParent(s: Store, item: Node, parent: Node)
    requires Consistent(s) && item in s.rows && item.kind == ItemPedido
    requires parent in Parents(s.rows[item])
    ensures Delete(s, parent).Done?
    ensures item !in Delete(s, parent).store.rows
  {
    assert parent in References(s.rows[item]);
    assert item in ChildrenOf(s, parent);
    assert item in Closure(s, parent) by {
      assert item in Closure(s, item);
    }
    DeleteRemovesClosure(s, parent);
  }

  /** Removing a bread deletes its items and its join rows, leaves every
      ingredient and every other bread's ingredient list in place. */
  lemma DeletePaoKeepsIngredientes(s: Store, pao: Long)
    requires Consistent(s) && Node(Pao, pao) in s.rows
    ensures Delete(s, Node(Pao, pao)).Done?
    ensures Node(Pao, pao) !in Delete(s, Node(Pao, pao)).store.rows
    ensures forall m :: m in s.rows && Node(Pao, pao) in Parents(s.rows[m]) ==>
              m !in Delete(s, Node(Pao, pao)).store.rows
    ensures forall i :: Node(Ingrediente, i) in s.rows ==>
              Node(Ingrediente, i) in Delete(s, Node(Pao, pao)).store.rows
    ensures IngredientesOf(Delete(s, Node(Pao, pao)).store, pao) == {}
    ensures forall p :: p != pao ==>
              IngredientesOf(Delete(s, Node(Pao, pao)).store, p) == IngredientesOf(s, p)
  {
    var n := Node(Pao, pao);
    DeleteRemovesClosure(s, n);
    var s' := Delete(s, n).store;
    forall m | m in s.rows && n in Parents(s.rows[m]) ensures m !in s'.rows {
      assert m in ChildrenOf(s, n);
      assert m in Closure(s, m);
    }
    forall p | p != pao ensures IngredientesOf(s', p) == IngredientesOf(s, p) {
      forall i ensures i in IngredientesOf(s', p) <==> i in IngredientesOf(s, p) {
        if i in IngredientesOf(s, p) {
          var l :| l in s.links && l.pao == p && l.ingrediente == i;
          assert Node(Pao, p) !in Closure(s, n);
          assert l in s'.links;
        }
      }
    }
  }

  /** Removing a bakery deletes its employees and batches and, through
      them, the employees' tasks and bank accounts and the batches' items. */
  lemma DeletePadariaCascades(s: Store, padaria: Long)
    requires Consistent(s) && Node(Padaria, padaria) in s.rows
    ensures Delete(s, Node(Padaria, padaria)).Done?
    ensures forall e :: e in s.rows && Node(Padaria, padaria) in Parents(s.rows[e]) ==>
              e !in Delete(s, Node(Padaria, padaria)).store.rows
              && (forall t :: t in s.rows && e in Parents(s.rows[t]) ==>
                    t !in Delete(s, Node(Padaria, padaria)).store.rows)
              && (forall d :: d in Owned(s.rows[e]) ==>
                    d !in Delete(s, Node(Padaria, padaria)).store.rows)
  {
    var n := Node(Padaria, padaria);
    DeleteRemovesClosure(s, n);
    ClosureClosed(s, n);
    forall e | e in s.rows && n in Parents(s.rows[e]) ensures e in Closure(s, n) {
      assert e in ChildrenOf(s, n);
      assert e in Closure(s, e);
    }
    forall e, t | e in s.rows && n in Parents(s.rows[e]) && t in s.rows && e in Parents(s.rows[t])
      ensures t in Closure(s, n)
    {
      assert t in ChildrenOf(s, e);
    }
    forall e, d | e in s.rows && n in Parents(s.rows[e]) && d in Owned(s.rows[e])
      ensures d in Closure(s, n)
    {
      assert d in References(s.rows[e]);
      assert d in ChildrenOf(s, e);
    }
  }

  /** Removing an employee deletes its tasks and its bank account. */
  lemma DeleteFuncionarioCascades(s: Store, f: Node)
    requires Consistent(s) && f in s.rows && f.kind == Funcionario
    ensures Delete(s, f).Done?
    ensures forall t :: t in s.rows && f in Parents(s.rows[t]) ==> t !in Delete(s, f).store.rows
    ensures forall d :: d in Owned(s.rows[f]) ==> d !in Delete(s, f).store.rows
  {
    DeleteRemovesClosure(s, f);
    forall t | t in s.rows && f in Parents(s.rows[t]) ensures t in Closure(s, f) {
      assert t in ChildrenOf(s, f);
      assert t in Closure(s, t);
    }
    forall d | d in Owned(s.rows[f]) ensures d in Closure(s, f) {
      assert d in References(s.rows[f]);
      assert d in ChildrenOf(s, f);
      assert d in Closure(s, d);
    }
  }
}
