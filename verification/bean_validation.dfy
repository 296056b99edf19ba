/** Jakarta Bean Validation, as far as the domain uses it: each entity
    declares constraint annotations on its fields, and `validate` evaluates
    every declared constraint against the instance's current field values and
    returns the set of all violations, each one a (property path, constraint)
    pair. Nothing is thrown and nothing changes. */
module BeanValidation {
  import opened JavaLang
  import opened JavaRegex
  import SemNumeroValidator

  /** A field value as the validator sees it. */
  datatype Value =
    | Null
    | Text(text: string)          // String
    | Decimal(decimal: real)      // Double, modelled as an exact real
    | Integer(integer: Int32)     // Integer
    | Instant(millis: int)        // java.util.Date, milliseconds since the epoch
    | Flag(flag: bool)            // Boolean
    | Reference(key: Long)        // a non-null association to another entity

  /** The constraint annotations that occur in the domain. */
  datatype Rule =
    | NotNull
    | NotBlank
    | Size(min: nat, max: nat)      // bounds on `length()`, in UTF-16 units
    | Pattern(regex: Regex)
    | SemNumero
    | Past
    | Future
    | PastOrPresent
    | Positive
    | PositiveOrZero
    | DecimalMin(decimalBound: real)  // inclusive, the annotation's default
    | Min(integerBound: int)
    | Cpf
    | Email

  /** `@CPF` and `@Email` are library validators whose algorithms are not part
      of this model: the caller supplies the sets of strings each accepts. */
  datatype Library = Library(cpfs: iset<string>, emails: iset<string>)

  /** One field of an instance: its property path, its current value and
      the constraints declared on it, in declaration order. */
  datatype Property = Property(field: string, value: Value, rules: seq<Rule>)

  /** A `ConstraintViolation`: which property broke which constraint. */
  datatype Violation = Violation(field: string, rule: Rule)

  const INTEGER_MAX: nat := 0x7FFF_FFFF

  /** `@Size(max = m)`: `min` defaults to 0. */
  function SizeMax(m: nat): Rule {
    Size(0, m)
  }

  function TextValue(v: Option<string>): Value {
    match v
    case None => Null
    case Some(s) => Text(s)
  }

  function DecimalValue(v: Option<real>): Value {
    match v
    case None => Null
    case Some(x) => Decimal(x)
  }

  function IntegerValue(v: Option<Int32>): Value {
    match v
    case None => Null
    case Some(n) => Integer(n)
  }

  function InstantValue(v: Option<int>): Value {
    match v
    case None => Null
    case Some(t) => Instant(t)
  }

  function FlagValue(v: Option<bool>): Value {
    match v
    case None => Null
    case Some(b) => Flag(b)
  }

  function ReferenceValue(v: Option<Long>): Value {
    match v
    case None => Null
    case Some(k) => Reference(k)
  }

  /** The value types each constraint is declared for. */
  predicate Applicable(rule: Rule, value: Value) {
    match rule
    case NotNull => true
    case NotBlank | Size(_, _) | Pattern(_) | SemNumero | Cpf | Email => value.Null? || value.Text?
    case Past | Future | PastOrPresent => value.Null? || value.Instant?
    case Positive | PositiveOrZero => value.Null? || value.Decimal? || value.Integer?
    case DecimalMin(_) => value.Null? || value.Decimal?
    case Min(_) => value.Null? || value.Integer?
  }

  /** Whether a value satisfies a constraint at time `now`. By Bean
      Validation's convention, `null` satisfies every constraint except
      `@NotNull` and `@NotBlank`. */
  predicate Holds(rule: Rule, value: Value, now: int, lib: Library)
    requires Applicable(rule, value)
  {
    match rule
    case NotNull => !value.Null?
    case NotBlank => value.Text? && |Trim(value.text)| > 0
    case Size(lo, hi) => value.Null? || lo <= Utf16Length(value.text) <= hi
    case Pattern(re) => value.Null? || Matches(re, value.text)
    case SemNumero => SemNumeroValidator.IsValid(if value.Null? then None else Some(value.text))
    case Cpf => value.Null? || value.text in lib.cpfs
    case Email => value.Null? || value.text in lib.emails
    case Past => value.Null? || value.millis < now
    case Future => value.Null? || value.millis > now
    case PastOrPresent => value.Null? || value.millis <= now
    case Positive =>
      value.Null? || (if value.Decimal? then value.decimal > 0.0 else value.integer > 0)
    case PositiveOrZero =>
      value.Null? || (if value.Decimal? then value.decimal >= 0.0 else value.integer >= 0)
    case DecimalMin(bound) => value.Null? || value.decimal >= bound
    case Min(bound) => value.Null? || value.integer >= bound
  }

  /** Every constraint on the property is declared for the value's type. */
  predicate WellTyped(p: Property) {
    forall r :: r in p.rules ==> Applicable(r, p.value)
  }

  /** `Validator.validate` restricted to one property: every declared
      constraint it breaks. */
  function PropertyViolations(p: Property, now: int, lib: Library): set<Violation>
    requires WellTyped(p)
  {
    set r | r in p.rules && !Holds(r, p.value, now, lib) :: Violation(p.field, r)
  }

  /** The property paths that carry at least one violation. */
  function FieldsOf(vs: set<Violation>): set<string> {
    set v | v in vs :: v.field
  }

  /** Every constraint declared on the property holds. */
  predicate AllHold(p: Property, now: int, lib: Library)
    requires WellTyped(p)
  {
    forall r :: r in p.rules ==> Holds(r, p.value, now, lib)
  }

  /** A property is reported only under its own path, and it is reported
      exactly when one of its constraints fails. */
  lemma PropertyReport(p: Property, now: int, lib: Library)
    requires WellTyped(p)
    ensures FieldsOf(PropertyViolations(p, now, lib)) <= {p.field}
    ensures PropertyViolations(p, now, lib) == {} <==> AllHold(p, now, lib)
    ensures p.field in FieldsOf(PropertyViolations(p, now, lib)) <==> !AllHold(p, now, lib)
  {
    if !AllHold(p, now, lib) {
      var r :| r in p.rules && !Holds(r, p.value, now, lib);
      assert Violation(p.field, r) in PropertyViolations(p, now, lib);
    }
  }

  /** `PropertyReport` with the property's verdict stated in the caller's
      own terms: `ok` is a reference reading of the declared constraints. */
  lemma ReportAs(p: Property, ok: bool, now: int, lib: Library)
    requires WellTyped(p) && (AllHold(p, now, lib) <==> ok)
    ensures FieldsOf(PropertyViolations(p, now, lib)) <= {p.field}
    ensures PropertyViolations(p, now, lib) == {} <==> ok
    ensures p.field in FieldsOf(PropertyViolations(p, now, lib)) <==> !ok
    ensures ReportsAs(PropertyViolations(p, now, lib), p.field, ok)
  {
    PropertyReport(p, now, lib);
  }

  /** The domain declares at most three constraints on a field; for such a
      property `AllHold` is the plain conjunction. */
  lemma AllHoldUnfolds(p: Property, now: int, lib: Library)
    requires WellTyped(p) && 1 <= |p.rules| <= 3
    ensures |p.rules| == 1 ==> (AllHold(p, now, lib) <==> Holds(p.rules[0], p.value, now, lib))
    ensures |p.rules| == 2 ==> (AllHold(p, now, lib)
              <==> Holds(p.rules[0], p.value, now, lib) && Holds(p.rules[1], p.value, now, lib))
    ensures |p.rules| == 3 ==> (AllHold(p, now, lib)
              <==> Holds(p.rules[0], p.value, now, lib) && Holds(p.rules[1], p.value, now, lib)
                   && Holds(p.rules[2], p.value, now, lib))
  {
    assert p.rules[0] in p.rules;
    assert |p.rules| >= 2 ==> p.rules[1] in p.rules;
    assert |p.rules| == 3 ==> p.rules[2] in p.rules;
  }

  /** When the constraint at position `i` is the only one that fails, the
      property has exactly one violation. */
  lemma OnlyFailure(p: Property, i: nat, now: int, lib: Library)
    requires WellTyped(p)
    requires i < |p.rules| && !Holds(p.rules[i], p.value, now, lib)
    requires forall j :: 0 <= j < |p.rules| && j != i ==> Holds(p.rules[j], p.value, now, lib)
    ensures PropertyViolations(p, now, lib) == {Violation(p.field, p.rules[i])}
  {
    var vs := PropertyViolations(p, now, lib);
    assert Violation(p.field, p.rules[i]) in vs;
    forall v | v in vs ensures v == Violation(p.field, p.rules[i]) {
      var r :| r in p.rules && !Holds(r, p.value, now, lib) && v == Violation(p.field, r);
      var j :| 0 <= j < |p.rules| && p.rules[j] == r;
    }
  }

  /** `OnlyFailure` for the short rule lists of the domain, with the
      constraints that hold listed one by one. */
  lemma FailsOnlyAt(p: Property, i: nat, now: int, lib: Library)
    requires WellTyped(p) && i < |p.rules| <= 3
    requires !Holds(p.rules[i], p.value, now, lib)
    requires i != 0 ==> Holds(p.rules[0], p.value, now, lib)
    requires i != 1 && 1 < |p.rules| ==> Holds(p.rules[1], p.value, now, lib)
    requires i != 2 && 2 < |p.rules| ==> Holds(p.rules[2], p.value, now, lib)
    ensures PropertyViolations(p, now, lib) == {Violation(p.field, p.rules[i])}
  {
    forall j | 0 <= j < |p.rules| && j != i ensures Holds(p.rules[j], p.value, now, lib) {
      assert j == 0 || j == 1 || j == 2;
    }
    OnlyFailure(p, i, now, lib);
  }

  /** Reports of different properties add up path by path. */
  lemma FieldsOfUnion(a: set<Violation>, b: set<Violation>)
    ensures FieldsOf(a + b) == FieldsOf(a) + FieldsOf(b)
  {
  }

  /** Whether `vs` is the report of one property under path `field` whose
      reference reading is `ok`. */
  predicate ReportsAs(vs: set<Violation>, field: string, ok: bool) {
    FieldsOf(vs) <= {field} && (vs == {} <==> ok) && (field in FieldsOf(vs) <==> !ok)
  }

  /** Two property reports under different paths put together: each path
      is reported exactly when its own reading fails. */
  lemma Report2(a: set<Violation>, b: set<Violation>, fa: string, fb: string, okA: bool, okB: bool)
    requires fa != fb
    requires ReportsAs(a, fa, okA) && ReportsAs(b, fb, okB)
    ensures FieldsOf(a + b) <= {fa, fb}
    ensures fa in FieldsOf(a + b) <==> !okA
    ensures fb in FieldsOf(a + b) <==> !okB
    ensures a + b == {} <==> okA && okB
  {
    FieldsOfUnion(a, b);
  }

  /** Three property reports under different paths put together. */
  lemma Report3(a: set<Violation>, b: set<Violation>, c: set<Violation>,
                fa: string, fb: string, fc: string, okA: bool, okB: bool, okC: bool)
    requires fa != fb && fa != fc && fb != fc
    requires ReportsAs(a, fa, okA) && ReportsAs(b, fb, okB) && ReportsAs(c, fc, okC)
    ensures FieldsOf(a + b + c) <= {fa, fb, fc}
    ensures fa in FieldsOf(a + b + c) <==> !okA
    ensures fb in FieldsOf(a + b + c) <==> !okB
    ensures fc in FieldsOf(a + b + c) <==> !okC
    ensures a + b + c == {} <==> okA && okB && okC
  {
    FieldsOfUnion(a, b);
    FieldsOfUnion(a + b, c);
  }

  /** `null` passes every constraint except the two presence constraints. */
  lemma NullOnlyFailsPresence(rule: Rule, now: int, lib: Library)
    ensures Holds(rule, Null, now, lib) <==> !(rule.NotNull? || rule.NotBlank?)
  {
  }
}
