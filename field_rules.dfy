/** The string rules the form schemas are built from: Yup's length bounds
    (which count UTF-16 code units, as JavaScript's `length` does), the
    JavaScript regular-expression character classes the patterns use, and
    the password pattern shared by sign-up and change-password. */
module FieldRules {
  import opened Common

  /** The number of UTF-16 code units of a string: a character outside the
      Basic Multilingual Plane takes two. */
  function Utf16Length(s: string): (n: nat)
    ensures |s| <= n <= 2 * |s|
  {
    if s == [] then 0 else Utf16Length(s[..|s| - 1]) + (if s[|s| - 1] as int > 0xFFFF then 2 else 1)
  }

  predicate InBmp(s: string)
  {
    forall i :: 0 <= i < |s| ==> s[i] as int <= 0xFFFF
  }

  /** On text made only of Basic-Multilingual-Plane characters, JavaScript's
      length is the number of characters. */
  lemma {:induction false} Utf16LengthInBmp(s: string)
    requires InBmp(s)
    ensures Utf16Length(s) == |s|
  {
    if s != [] {
      Utf16LengthInBmp(s[..|s| - 1]);
    }
  }

  /** Yup `string().required()`: the empty string is refused. */
  predicate Required(s: string)
  {
    s != ""
  }

  /** Yup `.min(lo).max(hi)` on a string. */
  predicate LengthWithin(s: string, lo: nat, hi: nat)
  {
    lo <= Utf16Length(s) <= hi
  }

  // JavaScript regular-expression classes (no `u` flag).

  predicate IsLower(c: char) { 'a' <= c <= 'z' }
  predicate IsUpper(c: char) { 'A' <= c <= 'Z' }
  predicate IsLetter(c: char) { IsLower(c) || IsUpper(c) }
  predicate IsAlphanumeric(c: char) { IsLetter(c) || IsDigit(c) }

  /** The characters `.` does not match. */
  predicate IsLineTerminator(c: char)
  {
    c == '\n' || c == '\r' || c == '\U{2028}' || c == '\U{2029}'
  }

  /** The class `\s`: JavaScript white space and line terminators. */
  predicate IsJsSpace(c: char)
  {
    || c == '\t' || c == '\U{000B}' || c == '\U{000C}' || c == ' ' || c == '\U{00A0}'
    || c == '\U{1680}' || ('\U{2000}' <= c <= '\U{200A}') || c == '\U{202F}' || c == '\U{205F}'
    || c == '\U{3000}' || c == '\U{FEFF}' || IsLineTerminator(c)
  }

  /** No line terminator occurs before position `i`, so `.*` can reach `i`. */
  predicate ReachableByDotStar(s: string, i: nat)
    requires i <= |s|
  {
    forall j :: 0 <= j < i ==> !IsLineTerminator(s[j])
  }

  // The four lookaheads of /^(?=.*[a-z])(?=.*[A-Z])(?=.*\d)(?=.*[^A-Za-z\d])/.

  predicate LookaheadLower(s: string)
  {
    exists i :: 0 <= i < |s| && ReachableByDotStar(s, i) && IsLower(s[i])
  }

  predicate LookaheadUpper(s: string)
  {
    exists i :: 0 <= i < |s| && ReachableByDotStar(s, i) && IsUpper(s[i])
  }

  predicate LookaheadDigit(s: string)
  {
    exists i :: 0 <= i < |s| && ReachableByDotStar(s, i) && IsDigit(s[i])
  }

  predicate LookaheadSpecial(s: string)
  {
    exists i :: 0 <= i < |s| && ReachableByDotStar(s, i) && !IsAlphanumeric(s[i])
  }

  predicate PasswordPattern(s: string)
  {
    LookaheadLower(s) && LookaheadUpper(s) && LookaheadDigit(s) && LookaheadSpecial(s)
  }

  /** The password field of the sign-up and change-password schemas:
      `.min(4).max(20).matches(pattern).required()`. */
  predicate PasswordRule(s: string)
  {
    LengthWithin(s, 4, 20) && PasswordPattern(s) && Required(s)
  }

  predicate HasLower(s: string) { exists i :: 0 <= i < |s| && IsLower(s[i]) }
  predicate HasUpper(s: string) { exists i :: 0 <= i < |s| && IsUpper(s[i]) }
  predicate HasDigit(s: string) { exists i :: 0 <= i < |s| && IsDigit(s[i]) }
  predicate HasSpecial(s: string) { exists i :: 0 <= i < |s| && !IsAlphanumeric(s[i]) }

  predicate NoLineTerminator(s: string)
  {
    forall i :: 0 <= i < |s| ==> !IsLineTerminator(s[i])
  }

  /** An accepted password has 4 to 20 code units and holds a lower-case
      letter, an upper-case letter, a digit and a non-alphanumeric character. */
  lemma AcceptedPasswordHasAllClasses(s: string)
    requires PasswordRule(s)
    ensures 4 <= Utf16Length(s) <= 20 && 2 <= |s| <= 20
    ensures HasLower(s) && HasUpper(s) && HasDigit(s) && HasSpecial(s)
  {
    var i :| 0 <= i < |s| && ReachableByDotStar(s, i) && IsLower(s[i]);
    var j :| 0 <= j < |s| && ReachableByDotStar(s, j) && IsUpper(s[j]);
    var k :| 0 <= k < |s| && ReachableByDotStar(s, k) && IsDigit(s[k]);
    var l :| 0 <= l < |s| && ReachableByDotStar(s, l) && !IsAlphanumeric(s[l]);
  }

  /** On a single line the pattern is exactly "every class occurs"; a class
      that occurs only after a line break does not satisfy it. */
  lemma PatternOnOneLine(s: string)
    requires NoLineTerminator(s)
    ensures PasswordPattern(s) <==> HasLower(s) && HasUpper(s) && HasDigit(s) && HasSpecial(s)
  {
    if HasLower(s) {
      var i :| 0 <= i < |s| && IsLower(s[i]);
      assert ReachableByDotStar(s, i);
    }
    if HasUpper(s) {
      var i :| 0 <= i < |s| && IsUpper(s[i]);
      assert ReachableByDotStar(s, i);
    }
    if HasDigit(s) {
      var i :| 0 <= i < |s| && IsDigit(s[i]);
      assert ReachableByDotStar(s, i);
    }
    if HasSpecial(s) {
      var i :| 0 <= i < |s| && !IsAlphanumeric(s[i]);
      assert ReachableByDotStar(s, i);
    }
  }

  /** "Ab1!" passes the pattern, while "Ab!\n1" does not: its only digit
      lies past the line break. */
  lemma PatternStopsAtLineBreak()
    ensures PasswordPattern("Ab1!")
    ensures !PasswordPattern("Ab!\n1")
  {
    var good := "Ab1!";
    assert ReachableByDotStar(good, 0) && IsUpper(good[0]);
    assert ReachableByDotStar(good, 1) && IsLower(good[1]);
    assert ReachableByDotStar(good, 2) && IsDigit(good[2]);
    assert ReachableByDotStar(good, 3) && !IsAlphanumeric(good[3]);
    var bad := "Ab!\n1";
    assert bad[3] == '\n' && |bad| == 5;
    assert !ReachableByDotStar(bad, 4) by {
      assert IsLineTerminator(bad[3]);
    }
    assert !IsDigit(bad[0]) && !IsDigit(bad[1]) && !IsDigit(bad[2]) && !IsDigit(bad[3]);
  }

  /** Email fields: Yup's `.email()` (a library check, passed in here),
      `.max(50)` and `.required()`. */
  predicate EmailRule(s: string, isEmail: string -> bool)
  {
    isEmail(s) && Utf16Length(s) <= 50 && Required(s)
  }
}
