/** The combinations of constraints the entities repeat on their fields,
    each with a reference reading in plain terms and a proof that the
    declared constraints hold together exactly when the reading does. */
module ConstraintSets {
  import opened JavaLang
  import opened JavaRegex
  import opened BeanValidation
  import SemNumeroValidator

  /** `@NotBlank @Size(max = m)`: present, not blank, and at most `m` long
      as Java counts, in UTF-16 units. */
  predicate TextOk(t: Option<string>, max: nat) {
    t.Some? && |Trim(t.value)| > 0 && Utf16Length(t.value) <= max
  }

  /** `@NotBlank @Size(max = m) @SemNumero`: a text as above in which
      `@SemNumero` finds no digit. */
  predicate NameOk(t: Option<string>, max: nat) {
    TextOk(t, max) && (!HasDigit(t.value) || HasLineTerminator(t.value))
  }

  /** `@NotBlank @Size(max = m) @Pattern("[0-9\-]+")`: one to `m`
      characters, each a digit or a hyphen. Such a value is never blank,
      so the pattern makes `@NotBlank` redundant, and each of its
      characters is one UTF-16 unit. */
  predicate NumberOk(t: Option<string>, max: nat) {
    t.Some? && 0 < |t.value| <= max
    && forall i :: 0 <= i < |t.value| ==> IsAsciiDigit(t.value[i]) || t.value[i] == '-'
  }

  /** A number of digits and hyphens is as long in Java as it has
      characters. */
  lemma NumberLength(t: Option<string>, max: nat)
    requires NumberOk(t, max)
    ensures Utf16Length(t.value) == |t.value| <= max
  {
    forall c | c in t.value ensures IsBmp(c) {
      var k :| 0 <= k < |t.value| && t.value[k] == c;
    }
    BmpLength(t.value);
  }

  lemma TextRules(p: Property, t: Option<string>, max: nat, now: int, lib: Library)
    requires p.value == TextValue(t) && p.rules == [NotBlank, SizeMax(max)]
    ensures WellTyped(p)
    ensures ReportsAs(PropertyViolations(p, now, lib), p.field, TextOk(t, max))
  {
    TextReadings(t, max, now, lib);
    AllHoldUnfolds(p, now, lib);
    ReportAs(p, TextOk(t, max), now, lib);
  }

  /** What `@NotBlank` and `@Size` ask of a string field. */
  lemma TextReadings(t: Option<string>, max: nat, now: int, lib: Library)
    ensures Applicable(NotBlank, TextValue(t)) && Applicable(SizeMax(max), TextValue(t))
    ensures Holds(NotBlank, TextValue(t), now, lib) <==> t.Some? && |Trim(t.value)| > 0
    ensures Holds(SizeMax(max), TextValue(t), now, lib) <==> t.None? || Utf16Length(t.value) <= max
  {
  }

  /** What `@SemNumero` asks of a string field. */
  lemma SemNumeroReading(t: Option<string>, now: int, lib: Library)
    ensures Applicable(SemNumero, TextValue(t))
    ensures Holds(SemNumero, TextValue(t), now, lib) <==> SemNumeroValidator.IsValid(t)
  {
  }

  /** What `@Pattern("[0-9\-]+")` asks of a string field. */
  lemma PatternReading(t: Option<string>, now: int, lib: Library)
    ensures Applicable(Pattern(DigitsAndHyphens), TextValue(t))
    ensures Holds(Pattern(DigitsAndHyphens), TextValue(t), now, lib)
        <==> t.None? || Matches(DigitsAndHyphens, t.value)
  {
  }

  /** The three constraints of a name hold together exactly when the name
      reads as `NameOk`. */
  lemma NameHolds(p: Property, t: Option<string>, max: nat, now: int, lib: Library)
    requires p.value == TextValue(t) && p.rules == [NotBlank, SizeMax(max), SemNumero]
    ensures WellTyped(p)
    ensures AllHold(p, now, lib) <==> NameOk(t, max)
  {
    TextReadings(t, max, now, lib);
    SemNumeroReading(t, now, lib);
    AllHoldUnfolds(p, now, lib);
  }

  lemma NameRules(p: Property, t: Option<string>, max: nat, now: int, lib: Library)
    requires p.value == TextValue(t) && p.rules == [NotBlank, SizeMax(max), SemNumero]
    ensures WellTyped(p)
    ensures ReportsAs(PropertyViolations(p, now, lib), p.field, NameOk(t, max))
  {
    NameHolds(p, t, max, now, lib);
    ReportAs(p, NameOk(t, max), now, lib);
  }

  lemma NumberRules(p: Property, t: Option<string>, max: nat, now: int, lib: Library)
    requires p.value == TextValue(t) && p.rules == [NotBlank, SizeMax(max), Pattern(DigitsAndHyphens)]
    ensures WellTyped(p)
    ensures ReportsAs(PropertyViolations(p, now, lib), p.field, NumberOk(t, max))
  {
    TextReadings(t, max, now, lib);
    PatternReading(t, now, lib);
    AllHoldUnfolds(p, now, lib);
    if t.Some? {
      DigitsAndHyphensMatches(t.value);
      if Matches(DigitsAndHyphens, t.value) {
        BmpLength(t.value);
      }
      if NumberOk(t, max) {
        assert !IsTrimmed(t.value[0]);
      }
    }
    ReportAs(p, NumberOk(t, max), now, lib);
  }

  /** A single `@NotNull` holds exactly on a present value. */
  lemma PresenceRule(p: Property, now: int, lib: Library)
    requires p.rules == [NotNull]
    ensures WellTyped(p)
    ensures ReportsAs(PropertyViolations(p, now, lib), p.field, !p.value.Null?)
  {
    AllHoldUnfolds(p, now, lib);
    ReportAs(p, !p.value.Null?, now, lib);
  }

  /** A blank value that is short enough breaks only `@NotBlank`: blanks are
      never digits, so `@SemNumero` holds when it is declared. */
  lemma BlankIsOnlyFailure(p: Property, t: string, max: nat, now: int, lib: Library)
    requires p.value == Text(t) && |t| <= max
    requires p.rules == [NotBlank, SizeMax(max)] || p.rules == [NotBlank, SizeMax(max), SemNumero]
    requires forall k :: 0 <= k < |t| ==> IsTrimmed(t[k])
    ensures WellTyped(p)
    ensures PropertyViolations(p, now, lib) == {Violation(p.field, NotBlank)}
  {
    assert !HasDigit(t) by {
      forall i | 0 <= i < |t| ensures !IsAsciiDigit(t[i]) {
        assert IsTrimmed(t[i]);
      }
    }
    BmpLength(t);
    OnlyFailure(p, 0, now, lib);
  }

  /** A visible value that the CPF or e-mail check refuses breaks only that
      check. */
  lemma CheckIsOnlyFailure(p: Property, t: string, now: int, lib: Library)
    requires p.value == Text(t) && |Trim(t)| > 0
    requires p.rules == [NotBlank, Cpf] || p.rules == [NotBlank, Email]
    requires !Holds(p.rules[1], p.value, now, lib)
    ensures WellTyped(p)
    ensures PropertyViolations(p, now, lib) == {Violation(p.field, p.rules[1])}
  {
    assert p.rules[0] == NotBlank && (p.rules[1] == Cpf || p.rules[1] == Email);
    assert WellTyped(p) by {
      forall r | r in p.rules ensures Applicable(r, p.value) {
        assert r == p.rules[0] || r == p.rules[1];
      }
    }
    assert Holds(p.rules[0], p.value, now, lib);
    FailsOnlyAt(p, 1, now, lib);
  }

  /** A visible, digit-free value that is too long breaks only `@Size`. */
  lemma TooLongIsOnlyFailure(p: Property, t: string, max: nat, now: int, lib: Library)
    requires p.value == Text(t) && Utf16Length(t) > max && |Trim(t)| > 0
    requires p.rules == [NotBlank, SizeMax(max)]
          || (p.rules == [NotBlank, SizeMax(max), SemNumero] && !HasDigit(t))
    ensures WellTyped(p)
    ensures PropertyViolations(p, now, lib) == {Violation(p.field, SizeMax(max))}
  {
    assert !Holds(p.rules[1], p.value, now, lib);
    forall j | 0 <= j < |p.rules| && j != 1 ensures Holds(p.rules[j], p.value, now, lib) {
      assert j == 0 || j == 2;
    }
    OnlyFailure(p, 1, now, lib);
  }

  /** A number with a character other than a digit or a hyphen, at
      position `k`, but visible and short enough, breaks only the pattern. */
  lemma PatternIsOnlyFailure(p: Property, t: string, max: nat, k: nat, now: int, lib: Library)
    requires p.value == Text(t) && p.rules == [NotBlank, SizeMax(max), Pattern(DigitsAndHyphens)]
    requires 0 < |t| && Utf16Length(t) <= max && !IsTrimmed(t[0])
    requires k < |t| && !IsAsciiDigit(t[k]) && t[k] != '-'
    ensures WellTyped(p)
    ensures PropertyViolations(p, now, lib) == {Violation(p.field, Pattern(DigitsAndHyphens))}
  {
    DigitsAndHyphensMatches(t);
    assert !Holds(p.rules[2], p.value, now, lib);
    forall j | 0 <= j < |p.rules| && j != 2 ensures Holds(p.rules[j], p.value, now, lib) {
      assert j == 0 || j == 1;
    }
    OnlyFailure(p, 2, now, lib);
  }

  /** A missing value breaks only the presence constraint of a property
      that declares `@NotNull` first and format constraints after it. */
  lemma NullIsOnlyFailure(p: Property, now: int, lib: Library)
    requires p.value == Null && |p.rules| >= 1 && p.rules[0] == NotNull
    requires forall j :: 1 <= j < |p.rules| ==> !p.rules[j].NotNull? && !p.rules[j].NotBlank?
    requires WellTyped(p)
    ensures PropertyViolations(p, now, lib) == {Violation(p.field, NotNull)}
  {
    forall j | 0 <= j < |p.rules| && j != 0
      ensures Holds(p.rules[j], p.value, now, lib)
    {
      NullOnlyFailsPresence(p.rules[j], now, lib);
    }
    OnlyFailure(p, 0, now, lib);
  }
}
