/** What the sign-up and sign-in forms check in a field: character
    classes, the two JavaScript regular expressions the schemas use, and the
    issues a failed check records. */
module FormText {

  /** One failed check: the field it is reported on and its message. */
  datatype Issue = Issue(path: string, message: string)

  /** A check that records `message` on `path` when it fails. */
  function Check(ok: bool, path: string, message: string): (issues: seq<Issue>)
    ensures ok <==> issues == []
    ensures !ok ==> issues == [Issue(path, message)]
  {
    if ok then [] else [Issue(path, message)]
  }

  /** The messages recorded on one field, in the order they were found. */
  function Messages(issues: seq<Issue>, path: string): seq<string>
    decreases |issues|
  {
    if issues == [] then []
    else (if issues[0].path == path then [issues[0].message] else []) + Messages(issues[1..], path)
  }

  /** The message a form shows next to a field: the first one recorded on it. */
  function Shown(issues: seq<Issue>, path: string): (m: string)
    ensures Messages(issues, path) == [] ==> m == ""
    ensures Messages(issues, path) != [] ==> m == Messages(issues, path)[0]
  {
    var ms := Messages(issues, path);
    if ms == [] then "" else ms[0]
  }

  /** The message list of a concatenation is the concatenation of message lists. */
  lemma {:induction false} MessagesConcat(a: seq<Issue>, b: seq<Issue>, path: string)
    ensures Messages(a + b, path) == Messages(a, path) + Messages(b, path)
    decreases |a|
  {
    if a == [] {
      assert a + b == b;
    } else {
      assert (a + b)[1..] == a[1..] + b;
      MessagesConcat(a[1..], b, path);
    }
  }

  /** `[A-Z]`. */
  predicate IsUpper(c: char) {
    'A' <= c <= 'Z'
  }

  /** `[0-9]`. */
  predicate IsDigit(c: char) {
    '0' <= c <= '9'
  }

  /** The characters JavaScript's `.` does not match without the `s` flag. */
  predicate LineTerminator(c: char) {
    c == '\n' || c == '\r' || c == '\U{2028}' || c == '\U{2029}'
  }

  /** No line terminator in `s[from..to]`, so `.*` can cross it. */
  predicate SameLine(s: string, from: nat, to: nat)
    requires from <= to <= |s|
  {
    forall k :: from <= k < to ==> !LineTerminator(s[k])
  }

  /** `(?=.*[A-Z])` at position `p`. */
  predicate UpperAhead(s: string, p: nat)
    requires p <= |s|
  {
    exists i :: p <= i < |s| && IsUpper(s[i]) && SameLine(s, p, i)
  }

  /** `(?=.*[0-9])` at position `p`. */
  predicate DigitAhead(s: string, p: nat)
    requires p <= |s|
  {
    exists i :: p <= i < |s| && IsDigit(s[i]) && SameLine(s, p, i)
  }

  /** `/(?=.*[A-Z])(?=.*[0-9])/.test(s)`: the pattern is not anchored, so
      it succeeds when both lookaheads hold at some one position. */
  predicate PasswordPattern(s: string) {
    exists p :: 0 <= p <= |s| && UpperAhead(s, p) && DigitAhead(s, p)
  }

  predicate HasUpper(s: string) {
    exists i :: 0 <= i < |s| && IsUpper(s[i])
  }

  predicate HasDigit(s: string) {
    exists i :: 0 <= i < |s| && IsDigit(s[i])
  }

  predicate SingleLine(s: string) {
    forall k :: 0 <= k < |s| ==> !LineTerminator(s[k])
  }

  /** A password the pattern accepts has an uppercase letter and a digit. */
  lemma PatternNeedsUpperAndDigit(s: string)
    requires PasswordPattern(s)
    ensures HasUpper(s) && HasDigit(s)
  {
    var p :| 0 <= p <= |s| && UpperAhead(s, p) && DigitAhead(s, p);
    var i :| p <= i < |s| && IsUpper(s[i]) && SameLine(s, p, i);
    var j :| p <= j < |s| && IsDigit(s[j]) && SameLine(s, p, j);
    assert IsUpper(s[i]) && IsDigit(s[j]);
  }

  /** On a single line the pattern means exactly "some uppercase letter and
      some digit", in either order. */
  lemma PatternOnOneLine(s: string)
    requires SingleLine(s)
    ensures PasswordPattern(s) <==> HasUpper(s) && HasDigit(s)
  {
    if HasUpper(s) && HasDigit(s) {
      var i :| 0 <= i < |s| && IsUpper(s[i]);
      var j :| 0 <= j < |s| && IsDigit(s[j]);
      assert SameLine(s, 0, i) && SameLine(s, 0, j);
      assert UpperAhead(s, 0) && DigitAhead(s, 0);
    }
    if PasswordPattern(s) {
      PatternNeedsUpperAndDigit(s);
    }
  }

  /** Across a line break the two characters do not count together: `"A\n1"`
      has an uppercase letter and a digit but fails the pattern. */
  lemma PatternStopsAtLineBreak()
    ensures var s := "A\n1"; HasUpper(s) && HasDigit(s) && !PasswordPattern(s)
  {
    var s := "A\n1";
    assert IsUpper(s[0]) && IsDigit(s[2]) && LineTerminator(s[1]);
    forall p | 0 <= p <= |s| ensures !(UpperAhead(s, p) && DigitAhead(s, p)) {
      if p == 0 {
        assert !DigitAhead(s, 0) by {
          forall i | 0 <= i < |s| && IsDigit(s[i]) ensures !SameLine(s, 0, i) {
            assert i == 2;
          }
        }
      } else {
        assert !UpperAhead(s, p) by {
          forall i | p <= i < |s| ensures !IsUpper(s[i]) {
            assert i == 1 || i == 2;
          }
        }
      }
    }
  }

  predicate AllDigits(s: string) {
    forall i :: 0 <= i < |s| ==> IsDigit(s[i])
  }

  /** `/^[0-9]{10,15}$/.test(s)`: without the `m` flag `^` and `$` are the
      ends of the whole string, so the string is 10 to 15 digits and nothing else. */
  predicate PhonePattern(s: string) {
    AllDigits(s) && 10 <= |s| <= 15
  }
}
