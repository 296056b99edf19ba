/** `Ingrediente` (table TB_INGREDIENTE): an ingredient, identified in the
    catalogue by its unique, digit-free name. */
module IngredienteEntity {
  import opened JavaLang
  import opened JavaRegex
  import opened BeanValidation
  import opened ConstraintSets
  import SemNumeroValidator

  /** The persistent state of an `Ingrediente`. Its `paes` list is the
      inverse (`mappedBy`) side of `Pao.ingredientes`: the store derives it
      from the bread side's join rows, so the record leaves it out. */
  datatype Ingrediente = Ingrediente(id: Option<Long>, nome: Option<string>)

  function NomeProperty(i: Ingrediente): Property {
    Property("nome", TextValue(i.nome), [NotBlank, SizeMax(100), SemNumero])
  }

  /** `validate`: an ingredient is reported only under `nome`, and exactly
      when the name is missing, blank, over 100 UTF-16 units or holds a
      digit `@SemNumero` sees. */
  function Validate(i: Ingrediente, now: int, lib: Library): (vs: set<Violation>)
    ensures FieldsOf(vs) <= {"nome"}
    ensures vs == {} <==> NameOk(i.nome, 100)
  {
    NameRules(NomeProperty(i), i.nome, 100, now, lib);
    PropertyViolations(NomeProperty(i), now, lib)
  }

  /** The ingredient of the validation tests. */
  function Sample(): Ingrediente {
    Ingrediente(None, Some("Farinha de Trigo Premium"))
  }

  lemma SampleIsValid(now: int, lib: Library)
    ensures Validate(Sample(), now, lib) == {}
  {
    var n := "Farinha de Trigo Premium";
    assert !IsTrimmed(n[0]);
    assert !HasDigit(n) by {
      forall k | 0 <= k < |n| ensures !IsAsciiDigit(n[k]) {
      }
    }
  }

  /** A blank name breaks only `@NotBlank`. */
  lemma BlankNome(now: int, lib: Library)
    ensures Validate(Sample().(nome := Some("   ")), now, lib) == {Violation("nome", NotBlank)}
  {
    var i := Sample().(nome := Some("   "));
    BlankIsOnlyFailure(NomeProperty(i), i.nome.value, 100, now, lib);
  }

  /** A name built by repeating a visible, digit-free piece past 100
      characters breaks only `@Size`. */
  lemma RepeatedNomeTooLong(piece: string, times: nat, now: int, lib: Library)
    requires |piece| > 0 && !IsTrimmed(piece[0]) && times * |piece| > 100
    requires forall k :: 0 <= k < |piece| ==> !IsAsciiDigit(piece[k])
    ensures Validate(Sample().(nome := Some(Repeat(piece, times))), now, lib)
         == {Violation("nome", SizeMax(100))}
  {
    var n := Repeat(piece, times);
    assert times > 0;
    assert n[..|piece|] == piece;
    assert n[0] == piece[0];
    assert !HasDigit(n) by {
      forall k | 0 <= k < |n| ensures !IsAsciiDigit(n[k]) {
        assert n[k] in piece;
      }
    }
    var i := Sample().(nome := Some(n));
    TooLongIsOnlyFailure(NomeProperty(i), n, 100, now, lib);
  }

  /** `"Farinha ".repeat(20)`, 160 characters, breaks only `@Size`. */
  lemma OversizedNome(now: int, lib: Library)
    ensures Validate(Sample().(nome := Some(Repeat("Farinha ", 20))), now, lib)
         == {Violation("nome", SizeMax(100))}
  {
    RepeatedNomeTooLong("Farinha ", 20, now, lib);
  }

  /** Sixty characters above U+FFFF, each a surrogate pair in Java, have
      length 120 and break only `@Size`. */
  lemma SupplementaryNomeTooLong(now: int, lib: Library)
    ensures Validate(Sample().(nome := Some(Repeat("\U{1F35E}", 60))), now, lib)
         == {Violation("nome", SizeMax(100))}
  {
    var n := Repeat("\U{1F35E}", 60);
    assert forall c :: c in n ==> c == '\U{1F35E}';
    SupplementaryLength(n);
    assert !HasDigit(n) by {
      forall k | 0 <= k < |n| ensures !IsAsciiDigit(n[k]) {
        assert n[k] in n;
      }
    }
    assert n[..1] == "\U{1F35E}";
    assert !IsTrimmed(n[0]);
    var i := Sample().(nome := Some(n));
    TooLongIsOnlyFailure(NomeProperty(i), n, 100, now, lib);
  }

  /** A name with a digit on its only line is rejected by `@SemNumero`. */
  lemma DigitInNome(now: int, lib: Library)
    ensures Violation("nome", SemNumero) in Validate(Sample().(nome := Some("Farinha Tipo 1")), now, lib)
  {
    SemNumeroValidator.RejectsNamesWithDigits();
    var i := Sample().(nome := Some("Farinha Tipo 1"));
    assert Violation("nome", SemNumero) in PropertyViolations(NomeProperty(i), now, lib);
  }
}
