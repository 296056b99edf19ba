/** The one-to-one between `Funcionario` and `DadosBancarios` as Java
    objects on the heap. `Funcionario.dadosBancarios` is the owning side,
    the column ID_DADOS_BANCARIOS; `DadosBancarios.funcionario` is the
    `mappedBy` side, which only `Funcionario.setDadosBancarios` writes. */
module BankAccountLink {
  import opened JavaLang

  /** Object addresses. */
  type Address = nat

  /** The two reference fields of the objects in play: `accountOf[f]` is
      the `dadosBancarios` field of employee `f`, `holderOf[d]` the
      `funcionario` field of account `d`. */
  datatype Heap = Heap(accountOf: map<Address, Option<Address>>,
                       holderOf: map<Address, Option<Address>>)

  /** Every reference the fields hold points at an object in the heap. */
  predicate Closed(h: Heap) {
    (forall f :: f in h.accountOf && h.accountOf[f].Some? ==> h.accountOf[f].value in h.holderOf)
    && (forall d :: d in h.holderOf && h.holderOf[d].Some? ==> h.holderOf[d].value in h.accountOf)
  }

  /** Both sides of the relationship agree: an employee's account names it
      as holder, and an account's holder names it as account. */
  predicate Mirrored(h: Heap) {
    (forall f :: f in h.accountOf && h.accountOf[f].Some? ==>
       h.accountOf[f].value in h.holderOf && h.holderOf[h.accountOf[f].value] == Some(f))
    && (forall d :: d in h.holderOf && h.holderOf[d].Some? ==>
       h.holderOf[d].value in h.accountOf && h.accountOf[h.holderOf[d].value] == Some(d))
  }

  /** `f.setDadosBancarios(d)`: store `d` in the owning field and, when it
      is not null, point `d.funcionario` back at `f`. The account `f` held
      before is not touched. */
  function SetDadosBancarios(h: Heap, f: Address, d: Option<Address>): (h': Heap)
    requires f in h.accountOf
    requires d.Some? ==> d.value in h.holderOf
    ensures h'.accountOf.Keys == h.accountOf.Keys && h'.holderOf.Keys == h.holderOf.Keys
    ensures h'.accountOf[f] == d
    ensures d.Some? ==> h'.holderOf[d.value] == Some(f)
    ensures forall g :: g in h.accountOf && g != f ==> h'.accountOf[g] == h.accountOf[g]
    ensures forall e :: e in h.holderOf && (d.None? || e != d.value) ==>
              h'.holderOf[e] == h.holderOf[e]
  {
    var h1 := h.(accountOf := h.accountOf[f := d]);
    if d.Some? then h1.(holderOf := h1.holderOf[d.value := Some(f)]) else h1
  }

  /** The setter keeps every reference inside the heap. */
  lemma SetKeepsClosed(h: Heap, f: Address, d: Option<Address>)
    requires Closed(h) && f in h.accountOf
    requires d.Some? ==> d.value in h.holderOf
    ensures Closed(SetDadosBancarios(h, f, d))
  {
  }

  /** Giving an employee without an account a free account keeps both sides
      mirrored. */
  lemma FirstAccountMirrored(h: Heap, f: Address, d: Address)
    requires Mirrored(h) && f in h.accountOf && d in h.holderOf
    requires h.accountOf[f] == None && h.holderOf[d] == None
    ensures Mirrored(SetDadosBancarios(h, f, Some(d)))
  {
    var h' := SetDadosBancarios(h, f, Some(d));
    forall g | g in h'.accountOf && h'.accountOf[g].Some?
      ensures h'.accountOf[g].value in h'.holderOf && h'.holderOf[h'.accountOf[g].value] == Some(g)
    {
      if g != f {
        var e := h.accountOf[g].value;
        assert h.holderOf[e] == Some(g);
        assert e != d;
      }
    }
    forall e | e in h'.holderOf && h'.holderOf[e].Some?
      ensures h'.holderOf[e].value in h'.accountOf && h'.accountOf[h'.holderOf[e].value] == Some(e)
    {
      if e != d {
        var g := h.holderOf[e].value;
        assert h.accountOf[g] == Some(e);
        assert g != f;
      }
    }
  }

  /** Replacing an employee's account leaves the previous account still naming
      the employee as its holder: the two sides stop mirroring each other. */
  lemma ReplacedAccountKeepsStaleHolder(h: Heap, f: Address, previous: Address, d: Option<Address>)
    requires Mirrored(h) && f in h.accountOf && h.accountOf[f] == Some(previous)
    requires d.Some? ==> d.value in h.holderOf
    requires d != Some(previous)
    ensures SetDadosBancarios(h, f, d).holderOf[previous] == Some(f)
    ensures !Mirrored(SetDadosBancarios(h, f, d))
  {
    var h' := SetDadosBancarios(h, f, d);
    assert previous in h'.holderOf && h'.holderOf[previous] == Some(f);
    assert h'.accountOf[f] != Some(previous);
  }

  /** Clearing the account with `setDadosBancarios(null)` only clears the
      owning field. */
  lemma ClearingTouchesOnlyOwner(h: Heap, f: Address)
    requires f in h.accountOf
    ensures SetDadosBancarios(h, f, None) == h.(accountOf := h.accountOf[f := None])
  {
  }

  /** Taking an account another employee holds leaves that employee still
      pointing at it while the account now names the new holder. */
  lemma StolenAccountBreaksMirror(h: Heap, f: Address, g: Address, d: Address)
    requires Mirrored(h) && f in h.accountOf && g in h.accountOf && f != g
    requires h.accountOf[g] == Some(d)
    ensures SetDadosBancarios(h, f, Some(d)).accountOf[g] == Some(d)
    ensures SetDadosBancarios(h, f, Some(d)).holderOf[d] == Some(f)
    ensures !Mirrored(SetDadosBancarios(h, f, Some(d)))
  {
    var h' := SetDadosBancarios(h, f, Some(d));
    assert h'.accountOf[g].Some? && h'.holderOf[h'.accountOf[g].value] != Some(g);
  }
}
