/** The fragment of `java.util.regex` the domain uses: character classes,
    concatenation and repetition, matched against a WHOLE string the way
    `String.matches` and Bean Validation's `@Pattern` do. */
module JavaRegex {

  /** Line terminators as `java.util.regex.Pattern` defines them when
      neither DOTALL nor UNIX_LINES is set: `.` matches none of them. */
  predicate IsLineTerminator(c: char) {
    c == '\n' || c == '\r' || c == '\U{85}' || c == '\U{2028}' || c == '\U{2029}'
  }

  /** `\d` without UNICODE_CHARACTER_CLASS is exactly `[0-9]`. */
  predicate IsAsciiDigit(c: char) {
    '0' <= c <= '9'
  }

  /** A single-character matcher. */
  datatype CharClass =
    | AnyButLineTerminator          // `.`
    | Ranges(ranges: seq<(char, char)>)  // `[a-b...]`, each range inclusive

  datatype Regex =
    | Class(cls: CharClass)
    | Concat(first: Regex, second: Regex)
    | Star(body: Regex)

  /** `r+` is `r r*`. */
  function Plus(r: Regex): Regex {
    Concat(r, Star(r))
  }

  predicate InClass(cls: CharClass, c: char) {
    match cls
    case AnyButLineTerminator => !IsLineTerminator(c)
    case Ranges(rs) => exists r :: r in rs && r.0 <= c <= r.1
  }

  /** Whole-string match: `s` is in the language of `r`. A concatenation or
      a repetition matches when some split of `s` does. */
  predicate Matches(r: Regex, s: string)
    decreases r, |s|, 1
  {
    match r
    case Class(cls) => |s| == 1 && InClass(cls, s[0])
    case Concat(_, _) => exists k :: 0 <= k <= |s| && SplitMatches(r, s, k)
    case Star(_) => |s| == 0 || exists k :: 1 <= k <= |s| && SplitMatches(r, s, k)
  }

  /** `s[..k]` matches the first part of `r` and `s[k..]` the rest: the
      second operand of a concatenation, or the repetition again. */
  predicate SplitMatches(r: Regex, s: string, k: nat)
    requires !r.Class? && k <= |s| && (r.Star? ==> k >= 1)
    decreases r, |s|, 0
  {
    match r
    case Concat(a, b) => Matches(a, s[..k]) && Matches(b, s[k..])
    case Star(a) => Matches(a, s[..k]) && Matches(r, s[k..])
  }

  /** A concatenation or repetition that matches has a split that does. */
  lemma MatchSplits(r: Regex, s: string) returns (k: nat)
    requires !r.Class? && Matches(r, s) && (r.Star? ==> |s| > 0)
    ensures k <= |s| && (r.Star? ==> k >= 1) && SplitMatches(r, s, k)
  {
    k :| k <= |s| && (r.Star? ==> k >= 1) && SplitMatches(r, s, k);
  }

  /** One split that matches is enough. */
  lemma SplitSuffices(r: Regex, s: string, k: nat)
    requires !r.Class? && k <= |s| && (r.Star? ==> k >= 1) && SplitMatches(r, s, k)
    ensures Matches(r, s)
  {
  }

  /** `\d` */
  const Digit: CharClass := Ranges([('0', '9')])

  /** `.*\d.*`, the pattern `SemNumeroValidator` tests with `String.matches`. */
  const ContainsDigitPattern: Regex :=
    Concat(Star(Class(AnyButLineTerminator)), Concat(Class(Digit), Star(Class(AnyButLineTerminator))))

  /** `[0-9\-]+`, the pattern on bank branch and account numbers. */
  const DigitsAndHyphens: Regex := Plus(Class(Ranges([('0', '9'), ('-', '-')])))

  predicate AllInClass(cls: CharClass, s: string) {
    forall i :: 0 <= i < |s| ==> InClass(cls, s[i])
  }

  /** A starred class matches exactly the strings made only of that class. */
  lemma {:induction false} StarClassMatches(cls: CharClass, s: string)
    ensures Matches(Star(Class(cls)), s) <==> AllInClass(cls, s)
    decreases |s|
  {
    if |s| > 0 {
      var r := Star(Class(cls));
      if Matches(r, s) {
        var k := MatchSplits(r, s);
        assert k == 1;
        StarClassMatches(cls, s[k..]);
        forall i | 0 <= i < |s| ensures InClass(cls, s[i]) {
          if i > 0 {
            assert s[i] == s[1..][i - 1];
          } else {
            assert s[..1][0] == s[0];
          }
        }
      }
      if AllInClass(cls, s) {
        StarClassMatches(cls, s[1..]);
        assert AllInClass(cls, s[1..]) by {
          forall i | 0 <= i < |s| - 1 ensures InClass(cls, s[1..][i]) {
            assert s[1..][i] == s[i + 1];
          }
        }
        assert Matches(Class(cls), s[..1]);
        SplitSuffices(r, s, 1);
      }
    }
  }

  /** A class followed by `+` matches exactly the non-empty strings of it. */
  lemma PlusClassMatches(cls: CharClass, s: string)
    ensures Matches(Plus(Class(cls)), s) <==> |s| > 0 && AllInClass(cls, s)
  {
    var c := Class(cls);
    if Matches(Plus(c), s) {
      var k := MatchSplits(Plus(c), s);
      StarClassMatches(cls, s[k..]);
      assert k == 1;
      forall i | 0 <= i < |s| ensures InClass(cls, s[i]) {
        if i > 0 {
          assert s[i] == s[1..][i - 1];
        } else {
          assert s[..1][0] == s[0];
        }
      }
    }
    if |s| > 0 && AllInClass(cls, s) {
      StarClassMatches(cls, s[1..]);
      assert AllInClass(cls, s[1..]) by {
        forall i | 0 <= i < |s| - 1 ensures InClass(cls, s[1..][i]) {
          assert s[1..][i] == s[i + 1];
        }
      }
      assert Matches(c, s[..1]);
      SplitSuffices(Plus(c), s, 1);
    }
  }

  predicate HasDigit(s: string) {
    exists i :: 0 <= i < |s| && IsAsciiDigit(s[i])
  }

  predicate HasLineTerminator(s: string) {
    exists i :: 0 <= i < |s| && IsLineTerminator(s[i])
  }

  /** A match of `.*\d.*` puts a digit somewhere and leaves no line end. */
  lemma ContainsDigitPatternSound(s: string)
    requires Matches(ContainsDigitPattern, s)
    ensures HasDigit(s) && !HasLineTerminator(s)
  {
    var dot := AnyButLineTerminator;
    var tail := Concat(Class(Digit), Star(Class(dot)));
    var k := MatchSplits(ContainsDigitPattern, s);
    var u := s[k..];
    var j := MatchSplits(tail, u);
    assert j == 1;
    StarClassMatches(dot, s[..k]);
    StarClassMatches(dot, u[1..]);
    assert IsAsciiDigit(s[k]) by {
      assert u[..1][0] == s[k];
      var r :| r in [('0', '9')] && r.0 <= s[k] <= r.1;
    }
    forall i | 0 <= i < |s| ensures !IsLineTerminator(s[i]) {
      if i < k {
        assert s[i] == s[..k][i];
      } else if i > k {
        assert s[i] == u[1..][i - k - 1];
      }
    }
  }

  /** A digit and no line end is enough for `.*\d.*` to match. */
  lemma ContainsDigitPatternComplete(s: string)
    requires HasDigit(s) && !HasLineTerminator(s)
    ensures Matches(ContainsDigitPattern, s)
  {
    var dot := AnyButLineTerminator;
    var tail := Concat(Class(Digit), Star(Class(dot)));
    var k :| 0 <= k < |s| && IsAsciiDigit(s[k]);
    var u := s[k..];
    assert AllInClass(dot, s[..k]) by {
      forall i | 0 <= i < k ensures InClass(dot, s[..k][i]) {
        assert s[..k][i] == s[i];
      }
    }
    assert AllInClass(dot, u[1..]) by {
      forall i | 0 <= i < |u| - 1 ensures InClass(dot, u[1..][i]) {
        assert u[1..][i] == u[i + 1];
        assert u[i + 1] == s[k + 1 + i];
      }
    }
    StarClassMatches(dot, s[..k]);
    StarClassMatches(dot, u[1..]);
    assert InClass(Digit, u[0]) by {
      assert ('0', '9') in [('0', '9')];
    }
    assert Matches(Class(Digit), u[..1]);
    SplitSuffices(tail, u, 1);
    SplitSuffices(ContainsDigitPattern, s, k);
  }

  /** `.*\d.*` matches a whole string exactly when it holds an ASCII digit
      and no line terminator: neither `.*` can cross a line end. */
  lemma ContainsDigitPatternMatches(s: string)
    ensures Matches(ContainsDigitPattern, s) <==> HasDigit(s) && !HasLineTerminator(s)
  {
    if Matches(ContainsDigitPattern, s) {
      ContainsDigitPatternSound(s);
    }
    if HasDigit(s) && !HasLineTerminator(s) {
      ContainsDigitPatternComplete(s);
    }
  }

  /** `[0-9\-]+` matches exactly the non-empty strings of digits and hyphens. */
  lemma DigitsAndHyphensMatches(s: string)
    ensures Matches(DigitsAndHyphens, s)
        <==> |s| > 0 && forall i :: 0 <= i < |s| ==> IsAsciiDigit(s[i]) || s[i] == '-'
  {
    var cls := Ranges([('0', '9'), ('-', '-')]);
    PlusClassMatches(cls, s);
    forall c: char ensures InClass(cls, c) <==> IsAsciiDigit(c) || c == '-' {
      if IsAsciiDigit(c) {
        assert ('0', '9') in [('0', '9'), ('-', '-')];
      } else if c == '-' {
        assert ('-', '-') in [('0', '9'), ('-', '-')];
      }
    }
  }
}
