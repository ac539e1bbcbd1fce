/** The password-strength regular expression `/^(?=.*\d)(?=.*[a-z])(?=.*[A-Z]).{8,}$/`, which
    src/models/User.js and src/middleware/updatePasswordValidation.js both test against. It is
    read here the way a JavaScript engine runs it (no flags: `.` stops at line terminators, `^`
    and `$` anchor the whole string, `\d` is [0-9]), and then characterised declaratively. */
module PasswordStrength {

  /** The characters JavaScript's `.` does not match without the `s` flag. */
  predicate IsLineTerminator(c: char) {
    c == '\n' || c == '\r' || c == '\U{2028}' || c == '\U{2029}'
  }

  /** The three character classes of the lookaheads: `\d`, `[a-z]` and `[A-Z]`. */
  datatype CharClass = Digit | Lower | Upper

  predicate InClass(c: char, cls: CharClass) {
    match cls
    case Digit => '0' <= c <= '9'
    case Lower => 'a' <= c <= 'z'
    case Upper => 'A' <= c <= 'Z'
  }

  /** The lookahead `(?=.*X)` at the start of `s`: scanning forward over characters that `.`
      matches, some character of class X is reached. */
  predicate LookaheadFinds(s: string, cls: CharClass)
    decreases |s|
  {
    s != [] && (InClass(s[0], cls) || (!IsLineTerminator(s[0]) && LookaheadFinds(s[1..], cls)))
  }

  /** `.{n,}$` at the start of `s`: at least `n` characters that `.` matches, then the end. */
  predicate DotsToEnd(s: string, n: nat)
    decreases |s|
  {
    if s == [] then n == 0
    else !IsLineTerminator(s[0]) && DotsToEnd(s[1..], if n == 0 then 0 else n - 1)
  }

  /** `/^(?=.*\d)(?=.*[a-z])(?=.*[A-Z]).{8,}$/.test(s)`. */
  predicate MatchesStrengthPattern(s: string) {
    LookaheadFinds(s, Digit) && LookaheadFinds(s, Lower) && LookaheadFinds(s, Upper) && DotsToEnd(s, 8)
  }

  predicate NoLineTerminator(s: string) {
    forall i :: 0 <= i < |s| ==> !IsLineTerminator(s[i])
  }

  predicate HasClass(s: string, cls: CharClass) {
    exists i :: 0 <= i < |s| && InClass(s[i], cls)
  }

  /** What the pattern promises: no line terminator, at least eight characters, and at least
      one digit, one lowercase and one uppercase ASCII letter. */
  predicate StrongEnough(s: string) {
    NoLineTerminator(s) && |s| >= 8 && HasClass(s, Digit) && HasClass(s, Lower) && HasClass(s, Upper)
  }

  lemma {:induction false} DotsToEndMeaning(s: string, n: nat)
    ensures DotsToEnd(s, n) <==> NoLineTerminator(s) && |s| >= n
    decreases |s|
  {
    if s != [] {
      DotsToEndMeaning(s[1..], if n == 0 then 0 else n - 1);
      assert NoLineTerminator(s) <==> !IsLineTerminator(s[0]) && NoLineTerminator(s[1..]) by {
        if !IsLineTerminator(s[0]) && NoLineTerminator(s[1..]) {
          forall i | 0 <= i < |s| ensures !IsLineTerminator(s[i]) {
            if i > 0 { assert s[i] == s[1..][i - 1]; }
          }
        }
      }
    }
  }

  /** On a string that `.` matches throughout, the lookahead succeeds exactly when the class
      occurs somewhere; on any string, its success means the class occurs. */
  lemma {:induction false} LookaheadMeaning(s: string, cls: CharClass)
    ensures LookaheadFinds(s, cls) ==> HasClass(s, cls)
    ensures NoLineTerminator(s) && HasClass(s, cls) ==> LookaheadFinds(s, cls)
    decreases |s|
  {
    if s != [] {
      LookaheadMeaning(s[1..], cls);
      if LookaheadFinds(s[1..], cls) {
        var i :| 0 <= i < |s[1..]| && InClass(s[1..][i], cls);
        assert InClass(s[i + 1], cls);
      }
      if NoLineTerminator(s) && HasClass(s, cls) && !InClass(s[0], cls) {
        var i :| 0 <= i < |s| && InClass(s[i], cls);
        assert i > 0 && InClass(s[1..][i - 1], cls);
        assert NoLineTerminator(s[1..]) by {
          forall j | 0 <= j < |s[1..]| ensures !IsLineTerminator(s[1..][j]) {
            assert s[1..][j] == s[j + 1];
          }
        }
      }
    }
  }

  /** The regular expression matches exactly the strong-enough passwords. */
  lemma StrengthPatternMeaning(s: string)
    ensures MatchesStrengthPattern(s) <==> StrongEnough(s)
  {
    DotsToEndMeaning(s, 8);
    LookaheadMeaning(s, Digit);
    LookaheadMeaning(s, Lower);
    LookaheadMeaning(s, Upper);
  }
}
