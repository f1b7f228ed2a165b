/** String operations the components use: `toLowerCase`, `includes`, the `<` / `>=` comparison of
    JavaScript strings, capitalising the first character, and the character classes of the
    validation patterns. */
module Text {

  predicate IsUpper(c: char) { 'A' <= c <= 'Z' }
  predicate IsLower(c: char) { 'a' <= c <= 'z' }
  predicate IsLetter(c: char) { IsUpper(c) || IsLower(c) }
  predicate IsDigit(c: char) { '0' <= c <= '9' }

  function LowerChar(c: char): (d: char)
    ensures !IsUpper(d)
    ensures IsUpper(c) ==> d as int == c as int + 32
    ensures !IsUpper(c) ==> d == c
  {
    if IsUpper(c) then (c as int + 32) as char else c
  }

  function UpperChar(c: char): (d: char)
    ensures !IsLower(d)
    ensures IsLower(c) ==> d as int == c as int - 32
    ensures !IsLower(c) ==> d == c
  {
    if IsLower(c) then (c as int - 32) as char else c
  }

  /** `s.toLowerCase()` */
  function Lower(s: string): (r: string)
    ensures |r| == |s|
    ensures forall i :: 0 <= i < |s| ==> r[i] == LowerChar(s[i])
  {
    seq(|s|, i requires 0 <= i < |s| => LowerChar(s[i]))
  }

  /** `s.includes(t)`: `t` occurs in `s` as a contiguous block. */
  predicate Contains(s: string, t: string)
  {
    exists i | 0 <= i <= |s| - |t| :: OccursAt(s, t, i)
  }

  predicate OccursAt(s: string, t: string, i: nat)
  {
    i + |t| <= |s| && s[i..i + |t|] == t
  }

  /** `s.charAt(0).toUpperCase() + s.slice(1)` */
  function Capitalize(s: string): (r: string)
    ensures |r| == |s|
    ensures s != [] ==> r[0] == UpperChar(s[0]) && r[1..] == s[1..]
  {
    if s == [] then [] else [UpperChar(s[0])] + s[1..]
  }

  /** `a < b` on JavaScript strings: lexicographic order of the characters, a proper prefix first. */
  predicate StrLt(a: string, b: string)
  {
    if a == [] then b != []
    else if b == [] then false
    else if a[0] == b[0] then StrLt(a[1..], b[1..])
    else a[0] < b[0]
  }

  /** `a <= b` on JavaScript strings. */
  predicate StrLe(a: string, b: string)
  {
    !StrLt(b, a)
  }

  lemma {:induction false} StrLtIrreflexive(a: string)
    ensures !StrLt(a, a)
  {
    if a != [] {
      StrLtIrreflexive(a[1..]);
    }
  }

  lemma {:induction false} StrLtTransitive(a: string, b: string, c: string)
    requires StrLt(a, b) && StrLt(b, c)
    ensures StrLt(a, c)
  {
    if a != [] && b != [] && c != [] && a[0] == b[0] && b[0] == c[0] {
      StrLtTransitive(a[1..], b[1..], c[1..]);
    }
  }

  /** Any two different strings are ordered one way or the other. */
  lemma {:induction false} StrLtTotal(a: string, b: string)
    ensures a == b || StrLt(a, b) || StrLt(b, a)
  {
    if a != [] && b != [] && a[0] == b[0] {
      StrLtTotal(a[1..], b[1..]);
      if a[1..] == b[1..] {
        assert a == [a[0]] + a[1..] && b == [b[0]] + b[1..];
      }
    }
  }

  /** So `!(a >= b)` is `a < b`, and `a >= b` means `b <= a`, with `<=` reflexive and antisymmetric. */
  lemma StrLeIsOrder(a: string, b: string)
    ensures StrLe(a, a)
    ensures StrLe(a, b) && StrLe(b, a) ==> a == b
    ensures StrLe(a, b) <==> a == b || StrLt(a, b)
  {
    StrLtIrreflexive(a);
    StrLtTotal(a, b);
    if StrLt(a, b) && StrLt(b, a) {
      StrLtTransitive(a, b, a);
    }
  }

  // ---------------------------------------------------------------------------
  // Character classes of the validation patterns

  /** `\s` in a JavaScript regular expression: the ECMAScript white space and line terminators. */
  predicate IsJsWhitespace(c: char)
  {
    var n := c as int;
    n == 0x09 || n == 0x0A || n == 0x0B || n == 0x0C || n == 0x0D || n == 0x20 || n == 0xA0 ||
    n == 0x1680 || (0x2000 <= n <= 0x200A) || n == 0x2028 || n == 0x2029 || n == 0x202F ||
    n == 0x205F || n == 0x3000 || n == 0xFEFF
  }

  /** `[0-9+\-\s()]` */
  predicate IsPhoneChar(c: char)
  {
    IsDigit(c) || c == '+' || c == '-' || c == '(' || c == ')' || IsJsWhitespace(c)
  }

  /** `[A-Z0-9._%+-]` under the `i` flag. */
  predicate IsEmailLocalChar(c: char)
  {
    IsLetter(c) || IsDigit(c) || c == '.' || c == '_' || c == '%' || c == '+' || c == '-'
  }

  /** `[A-Z0-9.-]` under the `i` flag. */
  predicate IsEmailDomainChar(c: char)
  {
    IsLetter(c) || IsDigit(c) || c == '.' || c == '-'
  }

  /** `/^[A-Z0-9._%+-]+@[A-Z0-9.-]+\.[A-Z]{2,}$/i`: a local part, `@`, a domain, a dot and a
      top-level domain of at least two letters. */
  predicate EmailShape(s: string)
  {
    exists at, dot | 0 < at < dot < |s| :: EmailPartsAt(s, at, dot)
  }

  /** `s` splits as local part `s[..at]`, `@`, domain `s[at+1..dot]`, `.` and top-level domain. */
  predicate EmailPartsAt(s: string, at: nat, dot: nat)
  {
    0 < at && at + 1 < dot && dot + 2 < |s| &&
    s[at] == '@' && s[dot] == '.' &&
    (forall k | 0 <= k < at :: IsEmailLocalChar(s[k])) &&
    (forall k | at < k < dot :: IsEmailDomainChar(s[k])) &&
    (forall k | dot < k < |s| :: IsLetter(s[k]))
  }

  /** First position of `c` in `s`, or -1: `s.indexOf(c)`. */
  function IndexOf(s: string, c: char): (r: int)
    ensures -1 <= r < |s|
    ensures r >= 0 ==> s[r] == c && forall k | 0 <= k < r :: s[k] != c
    ensures r == -1 ==> forall k | 0 <= k < |s| :: s[k] != c
  {
    if s == [] then -1
    else if s[0] == c then 0
    else var r := IndexOf(s[1..], c); if r == -1 then -1 else r + 1
  }

  /** Last position of `c` in `s`, or -1: `s.lastIndexOf(c)`. */
  function LastIndexOf(s: string, c: char): (r: int)
    ensures -1 <= r < |s|
    ensures r >= 0 ==> s[r] == c && forall k | r < k < |s| :: s[k] != c
    ensures r == -1 ==> forall k | 0 <= k < |s| :: s[k] != c
  {
    if s == [] then -1
    else if s[|s| - 1] == c then |s| - 1
    else LastIndexOf(s[..|s| - 1], c)
  }

  /** A direct check of the e-mail pattern: split at the first `@` and the last `.`. */
  predicate EmailCheck(s: string)
  {
    var at := IndexOf(s, '@');
    var dot := LastIndexOf(s, '.');
    at >= 0 && dot >= 0 && EmailPartsAt(s, at, dot)
  }

  /** The pattern matches exactly the strings that pass the direct check; in a matching string the
      `@` is the only one and the separating dot is the last one. */
  lemma EmailShapeIff(s: string)
    ensures EmailShape(s) <==> EmailCheck(s)
  {
    if EmailShape(s) {
      var at, dot :| 0 < at < dot < |s| && EmailPartsAt(s, at, dot);
      EmailSplitIsUnique(s, at, dot);
    }
  }

  /** Where the pattern matches, its `@` is the first `@` and its dot the last dot. */
  lemma EmailSplitIsUnique(s: string, at: nat, dot: nat)
    requires EmailPartsAt(s, at, dot)
    ensures IndexOf(s, '@') == at && LastIndexOf(s, '.') == dot
  {
    assert forall k | 0 <= k < at :: s[k] != '@' by {
      assert forall k | 0 <= k < at :: IsEmailLocalChar(s[k]);
    }
    assert forall k | dot < k < |s| :: s[k] != '.' by {
      assert forall k | dot < k < |s| :: IsLetter(s[k]);
    }
  }
}
