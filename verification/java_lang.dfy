/** Java platform semantics the domain classes rely on: nullable references,
    the widths of `long` and `int`, the millisecond clock of `Date`,
    `Long.hashCode`, and the two `String` operations the validators call
    (`trim` and `replace`). */
module JavaLang {

  /** A Java reference that may be `null`. */
  datatype Option<+T> = None | Some(value: T)

  const LONG_MIN: int := -0x8000_0000_0000_0000
  const LONG_MAX: int := 0x7FFF_FFFF_FFFF_FFFF

  /** `java.lang.Long`, the type of every entity id. */
  type Long = x: int | LONG_MIN <= x <= LONG_MAX

  /** A `java.util.Date` is an instant in milliseconds since the epoch;
      `DAY` is the step the tests take with `Calendar.add`. */
  const DAY: int := 86_400_000

  /** `int`, the type `hashCode` returns and `Integer` wraps. */
  type Int32 = x: int | -0x8000_0000 <= x <= 0x7FFF_FFFF

  /** 2 to the power `n`. */
  function Pow2(n: nat): (r: nat)
    ensures r >= 1
  {
    if n == 0 then 1 else 2 * Pow2(n - 1)
  }

  /** Powers of two multiply by adding exponents. */
  lemma {:induction false} Pow2Add(a: nat, b: nat)
    ensures Pow2(a + b) == Pow2(a) * Pow2(b)
  {
    if a > 0 {
      Pow2Add(a - 1, b);
    }
  }

  /** The modulus of an `int`. */
  lemma Pow2Of32()
    ensures Pow2(32) == 0x1_0000_0000
  {
    assert Pow2(2) == 4;
    Pow2Add(2, 2);
    Pow2Add(4, 4);
    Pow2Add(8, 8);
    Pow2Add(16, 16);
  }

  /** Bitwise exclusive or of the low `width` bits of `a` and `b`. */
  function Xor(a: nat, b: nat, width: nat): (r: nat)
    ensures r < Pow2(width)
  {
    if width == 0 then 0
    else (if a % 2 == b % 2 then 0 else 1) + 2 * Xor(a / 2, b / 2, width - 1)
  }

  /** Exclusive or with zero keeps a value that fits the width. */
  lemma {:induction false} XorZero(a: nat, width: nat)
    requires a < Pow2(width)
    ensures Xor(a, 0, width) == a
  {
    if width > 0 {
      XorZero(a / 2, width - 1);
    }
  }

  /** `Long.hashCode(v)`, which is `(int)(v ^ (v >>> 32))`: the upper word of
      the two's-complement pattern is folded into the lower one, and the cast
      keeps the low 32 bits as a signed `int`. */
  function LongHashCode(v: Long): Int32 {
    var bits := if v < 0 then v + 0x1_0000_0000_0000_0000 else v;
    var low := Xor(bits % 0x1_0000_0000, bits / 0x1_0000_0000, 32);
    Pow2Of32();
    if low <= 0x7FFF_FFFF then low else low - 0x1_0000_0000
  }

  /** Ids handed out by an identity column start at 1; below 2^31 they are
      their own hash code. */
  lemma SmallLongHashesToItself(v: Long)
    requires 0 <= v <= 0x7FFF_FFFF
    ensures LongHashCode(v) == v
  {
    Pow2Of32();
    XorZero(v, 32);
  }

  /** `Character` code points that `String.trim` strips: everything at or
      below U+0020, control characters included. */
  predicate IsTrimmed(c: char) {
    c <= ' '
  }

  /** The first loop of `String.trim`: `st` moves past leading trimmed
      characters. */
  function TrimStart(s: string, st: nat): (r: nat)
    requires st <= |s|
    ensures st <= r <= |s|
    ensures forall k :: st <= k < r ==> IsTrimmed(s[k])
    ensures r == |s| || !IsTrimmed(s[r])
    decreases |s| - st
  {
    if st < |s| && IsTrimmed(s[st]) then TrimStart(s, st + 1) else st
  }

  /** The second loop of `String.trim`: `len` moves back past trailing
      trimmed characters, never below `st`. */
  function TrimEnd(s: string, st: nat, len: nat): (r: nat)
    requires st <= len <= |s|
    ensures st <= r <= len
    ensures forall k :: r <= k < len ==> IsTrimmed(s[k])
    decreases len
  {
    if st < len && IsTrimmed(s[len - 1]) then TrimEnd(s, st, len - 1) else len
  }

  /** `String.trim`: the substring between the two indices. */
  function Trim(s: string): (t: string)
    ensures |t| == 0 <==> forall k :: 0 <= k < |s| ==> IsTrimmed(s[k])
    ensures |t| > 0 ==> t[0] == s[TrimStart(s, 0)] && !IsTrimmed(t[0])
  {
    var st := TrimStart(s, 0);
    var len := TrimEnd(s, st, |s|);
    assert st < |s| ==> len > st;
    s[st..len]
  }

  /** The second loop stops at a visible character. */
  lemma {:induction false} TrimEndStopsVisible(s: string, st: nat, len: nat)
    requires st <= len <= |s|
    ensures TrimEnd(s, st, len) == st || !IsTrimmed(s[TrimEnd(s, st, len) - 1])
    decreases len
  {
    if st < len && IsTrimmed(s[len - 1]) {
      TrimEndStopsVisible(s, st, len - 1);
    }
  }

  /** `trim` also strips the end: a non-empty result ends visibly. */
  lemma TrimEndsVisible(s: string)
    ensures |Trim(s)| > 0 ==> !IsTrimmed(Trim(s)[|Trim(s)| - 1])
  {
    var st := TrimStart(s, 0);
    TrimEndStopsVisible(s, st, |s|);
  }

  /** The first character `trim` would keep, if any. */
  function FirstVisible(s: string): (r: Option<char>)
    ensures r.Some? ==> !IsTrimmed(r.value) && r.value in s
    ensures r.None? <==> forall k :: 0 <= k < |s| ==> IsTrimmed(s[k])
  {
    if s == [] then None
    else if !IsTrimmed(s[0]) then Some(s[0])
    else FirstVisible(s[1..])
  }

  /** Skipping characters `trim` strips does not change the first visible
      one. */
  lemma {:induction false} FirstVisibleAfter(s: string, st: nat)
    requires st <= |s| && forall k :: 0 <= k < st ==> IsTrimmed(s[k])
    ensures FirstVisible(s) == FirstVisible(s[st..])
    decreases st
  {
    if st > 0 {
      assert IsTrimmed(s[0]);
      FirstVisibleAfter(s[1..], st - 1);
      assert s[1..][st - 1..] == s[st..];
    }
  }

  /** A trimmed string is empty exactly when nothing is visible, and
      otherwise it begins with the first visible character. */
  lemma TrimBeginsWithFirstVisible(s: string)
    ensures |Trim(s)| > 0 <==> FirstVisible(s).Some?
    ensures |Trim(s)| > 0 ==> Trim(s)[0] == FirstVisible(s).value
  {
    var st := TrimStart(s, 0);
    FirstVisibleAfter(s, st);
    if st < |s| {
      assert s[st..][0] == s[st];
    }
  }

  /** `s.replace(String.valueOf(c), "")`: every occurrence of `c` deleted,
      the other characters kept in order. */
  function DeleteAll(s: string, c: char): (r: string)
    ensures c !in r
    ensures |r| <= |s|
    ensures forall d :: d != c ==> multiset(r)[d] == multiset(s)[d]
  {
    if s == [] then []
    else
      assert s == [s[0]] + s[1..];
      var rest := DeleteAll(s[1..], c);
      if s[0] == c then rest else [s[0]] + rest
  }

  /** Deleting a character distributes over concatenation. */
  lemma {:induction false} DeleteAllConcat(a: string, b: string, c: char)
    ensures DeleteAll(a + b, c) == DeleteAll(a, c) + DeleteAll(b, c)
  {
    if a != [] {
      assert (a + b)[0] == a[0];
      assert (a + b)[1..] == a[1..] + b;
      DeleteAllConcat(a[1..], b, c);
      if a[0] != c {
        calc {
          DeleteAll(a + b, c);
          [a[0]] + DeleteAll(a[1..] + b, c);
          [a[0]] + (DeleteAll(a[1..], c) + DeleteAll(b, c));
          ([a[0]] + DeleteAll(a[1..], c)) + DeleteAll(b, c);
        }
      }
    } else {
      assert a + b == b;
    }
  }

  /** Deleting twice is deleting once. */
  lemma {:induction false} DeleteAllIdempotent(s: string, c: char)
    ensures DeleteAll(DeleteAll(s, c), c) == DeleteAll(s, c)
  {
    if s != [] {
      DeleteAllIdempotent(s[1..], c);
      if s[0] != c {
        assert ([s[0]] + DeleteAll(s[1..], c))[1..] == DeleteAll(s[1..], c);
      }
    }
  }

  /** Whether `c` fits one Java `char`: it lies in the Basic Multilingual
      Plane. */
  predicate IsBmp(c: char) {
    c as int <= 0xFFFF
  }

  /** The indices below `n`. */
  function Positions(n: nat): (ks: set<nat>)
    ensures |ks| == n
    ensures forall k: nat :: k in ks <==> k < n
  {
    if n == 0 then {} else Positions(n - 1) + {n - 1}
  }

  /** A subset is no larger than the set it is taken from. */
  lemma {:induction false} SubsetSize(a: set<nat>, b: set<nat>)
    requires a <= b
    ensures |a| <= |b|
    decreases b
  {
    if b != {} {
      var x :| x in b;
      SubsetSize(a - {x}, b - {x});
    }
  }

  /** The indices of `s` that hold a character above U+FFFF. */
  function Supplementary(s: string): (ks: set<nat>)
    ensures forall k: nat :: k in ks <==> k < |s| && !IsBmp(s[k])
    ensures |ks| <= |s|
  {
    var ks := set k: nat | k < |s| && !IsBmp(s[k]);
    SubsetSize(ks, Positions(|s|));
    ks
  }

  /** `String.length()`, which counts UTF-16 code units: one for a
      character of the Basic Multilingual Plane, two (a surrogate pair) for
      a character above U+FFFF. */
  function Utf16Length(s: string): (n: nat)
    ensures |s| <= n <= 2 * |s|
  {
    |s| + |Supplementary(s)|
  }

  /** Java's length is the number of characters exactly when every
      character fits one `char`. */
  lemma BmpLength(s: string)
    ensures Utf16Length(s) == |s| <==> forall c :: c in s ==> IsBmp(c)
  {
    if Utf16Length(s) != |s| {
      var k :| k in Supplementary(s);
      assert s[k] in s;
    }
  }

  /** A string made only of characters above U+FFFF is twice as long in
      Java as it has characters. */
  lemma SupplementaryLength(s: string)
    requires forall c :: c in s ==> !IsBmp(c)
    ensures Utf16Length(s) == 2 * |s|
  {
    assert Supplementary(s) == Positions(|s|);
  }

  /** `s.repeat(n)`: `n` copies of `s` back to back. */
  function Repeat(s: string, n: nat): (r: string)
    ensures |r| == n * |s|
    ensures n > 0 ==> r[..|s|] == s
    ensures forall c :: c in r ==> c in s
  {
    if n == 0 then [] else s + Repeat(s, n - 1)
  }
}
