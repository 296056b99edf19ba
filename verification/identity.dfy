/** `equals` and `hashCode` of the nine entities. They come in three
    styles: a null-tolerant comparison of the generated ids, an id
    comparison that dereferences `this.id` unguarded (`Pao`, `Padaria`), and
    the reference identity `ItemPedido` inherits from `Object`. */
module Identity {
  import opened JavaLang
  import opened Schema

  /** How a class defines equality. */
  datatype Style = NullTolerant | UnguardedId | ReferenceIdentity

  function StyleOf(k: Kind): Style {
    match k
    case Pao | Padaria => UnguardedId
    case ItemPedido => ReferenceIdentity
    case _ => NullTolerant
  }

  /** A reference to an entity object: the object's address on the heap,
      its class and the current value of its `id` field. */
  datatype Obj = Obj(address: nat, kind: Kind, id: Option<Long>)

  /** Two references denote one object only if they agree on its class and
      its id: a heap never holds two states for one address. */
  predicate SameHeap(a: Obj, b: Obj) {
    a.address == b.address ==> a == b
  }

  /** The result of a call that may throw. */
  datatype Call<T> = Returns(value: T) | NullPointerException

  /** `Long.equals(Object)`: true for a non-null `Long` of the same value. */
  function LongEquals(a: Long, b: Option<Long>): bool {
    b.Some? && b.value == a
  }

  /** The null-tolerant comparison of the generated classes:
      `!((this.id == null && other.id != null) ||
         (this.id != null && !this.id.equals(other.id)))`. */
  function IdsMatch(mine: Option<Long>, theirs: Option<Long>): (r: bool)
    ensures r <==> mine == theirs
  {
    !((mine.None? && theirs.Some?) || (mine.Some? && !LongEquals(mine.value, theirs)))
  }

  /** `equals(Object)`. `other` is `None` for a `null` argument. A
      null-tolerant class answers false to anything that is not an instance
      of it and compares ids otherwise; `Pao` and `Padaria` answer true for
      the same reference, false for another class, and otherwise call
      `this.id.equals`, which throws when the id is null; `ItemPedido`
      compares addresses. */
  function Equals(self: Obj, other: Option<Obj>): (r: Call<bool>)
    ensures r.NullPointerException? <==>
              StyleOf(self.kind) == UnguardedId && self.id.None? && other.Some?
              && other.value.kind == self.kind && other.value.address != self.address
    ensures StyleOf(self.kind) == UnguardedId && r.Returns? ==>
              (r.value <==> (other.Some? && (other.value.address == self.address ||
                                              (other.value.kind == self.kind && other.value.id == self.id))))
    ensures StyleOf(self.kind) == NullTolerant ==>
              r == Returns(other.Some? && other.value.kind == self.kind && other.value.id == self.id)
    ensures StyleOf(self.kind) == ReferenceIdentity ==>
              r == Returns(other.Some? && other.value.address == self.address)
  {
    match StyleOf(self.kind)
    case NullTolerant =>
      if other.None? || other.value.kind != self.kind then Returns(false)
      else Returns(IdsMatch(self.id, other.value.id))
    case UnguardedId =>
      if other.Some? && other.value.address == self.address then Returns(true)
      else if other.None? || other.value.kind != self.kind then Returns(false)
      else if self.id.None? then NullPointerException
      else Returns(LongEquals(self.id.value, other.value.id))
    case ReferenceIdentity =>
      Returns(other.Some? && other.value.address == self.address)
  }

  /** The hash the generated classes compute: `0 + (id != null ?
      id.hashCode() : 0)`. */
  function IdHash(id: Option<Long>): (h: Int32)
    ensures id.None? ==> h == 0
    ensures id.Some? && 0 <= id.value <= 0x7FFF_FFFF ==> h == id.value
  {
    if id.Some? then SmallHash(id.value); 0 + LongHashCode(id.value) else 0
  }

  /** Identity-column ids below 2^31 hash to themselves. */
  lemma SmallHash(v: Long)
    ensures 0 <= v <= 0x7FFF_FFFF ==> LongHashCode(v) == v
  {
    if 0 <= v <= 0x7FFF_FFFF {
      SmallLongHashesToItself(v);
    }
  }

  /** `hashCode()`. `identityHash` is `Object.hashCode`, which the JVM
      fixes per address; `Pao` and `Padaria` throw on a null id. */
  function HashCode(self: Obj, identityHash: nat -> Int32): (r: Call<Int32>)
    ensures r.NullPointerException? <==> StyleOf(self.kind) == UnguardedId && self.id.None?
    ensures StyleOf(self.kind) == NullTolerant ==> r == Returns(IdHash(self.id))
    ensures StyleOf(self.kind) == ReferenceIdentity ==> r == Returns(identityHash(self.address))
    ensures StyleOf(self.kind) == UnguardedId && self.id.Some? ==>
              r == Returns(LongHashCode(self.id.value))
  {
    match StyleOf(self.kind)
    case NullTolerant => Returns(IdHash(self.id))
    case UnguardedId => if self.id.None? then NullPointerException else Returns(LongHashCode(self.id.value))
    case ReferenceIdentity => Returns(identityHash(self.address))
  }

  /** The `hashCode` contract: two objects that `equals` reports equal, and
      whose `hashCode` calls both return, have the same hash. */
  lemma {:induction false} EqualObjectsHashAlike(a: Obj, b: Obj, identityHash: nat -> Int32)
    requires SameHeap(a, b)
    requires Equals(a, Some(b)) == Returns(true)
    requires HashCode(a, identityHash).Returns? && HashCode(b, identityHash).Returns?
    ensures HashCode(a, identityHash) == HashCode(b, identityHash)
  {
    assert a.kind == b.kind;
    if StyleOf(a.kind) == UnguardedId && a.address != b.address {
      assert a.id.Some? && b.id == a.id;
    }
  }

  /** Every style of `equals` is reflexive: the unguarded classes answer
      true for the same reference before they look at the id. */
  lemma EqualsReflexive(a: Obj)
    ensures Equals(a, Some(a)) == Returns(true)
  {
  }

  /** No object equals `null`, and none throws when asked. */
  lemma NothingEqualsNull(a: Obj)
    ensures Equals(a, None) == Returns(false)
  {
  }

  /** Where both calls return, `equals` is symmetric. */
  lemma EqualsSymmetric(a: Obj, b: Obj)
    requires SameHeap(a, b)
    requires Equals(a, Some(b)).Returns? && Equals(b, Some(a)).Returns?
    ensures Equals(a, Some(b)) == Equals(b, Some(a))
  {
  }

  /** Where the calls return, `equals` is transitive. */
  lemma EqualsTransitive(a: Obj, b: Obj, c: Obj)
    requires SameHeap(a, b) && SameHeap(b, c) && SameHeap(a, c)
    requires Equals(a, Some(b)) == Returns(true) && Equals(b, Some(c)) == Returns(true)
    requires Equals(a, Some(c)).Returns?
    ensures Equals(a, Some(c)) == Returns(true)
  {
  }

  /** Two fresh, unsaved objects of a null-tolerant class are equal and
      hash to 0, although they are different objects. */
  lemma UnsavedObjectsEqual(k: Kind, a: nat, b: nat, identityHash: nat -> Int32)
    requires StyleOf(k) == NullTolerant
    ensures Equals(Obj(a, k, None), Some(Obj(b, k, None))) == Returns(true)
    ensures HashCode(Obj(a, k, None), identityHash) == Returns(0)
  {
  }

  /** An unsaved `Pao` or `Padaria` compared with another object of its
      class throws, while the other object, once saved, answers false
      instead of throwing: the two directions disagree. */
  lemma UnsavedUnguardedThrows(k: Kind, a: nat, b: nat, id: Long)
    requires StyleOf(k) == UnguardedId && a != b
    ensures Equals(Obj(a, k, None), Some(Obj(b, k, Some(id)))) == NullPointerException
    ensures Equals(Obj(b, k, Some(id)), Some(Obj(a, k, None))) == Returns(false)
  {
  }

  /** Two `ItemPedido` objects at different addresses are unequal even
      when they hold the same id. */
  lemma ItemsWithSameIdDiffer(a: nat, b: nat, id: Option<Long>)
    requires a != b
    ensures Equals(Obj(a, ItemPedido, id), Some(Obj(b, ItemPedido, id))) == Returns(false)
  {
  }

  /** Objects of different classes are never equal, even with equal ids. */
  lemma DifferentKindsDiffer(a: Obj, b: Obj)
    requires SameHeap(a, b) && a.kind != b.kind
    ensures Equals(a, Some(b)) == Returns(false)
  {
  }
}
