/**
 * The JavaScript string primitives that the search front end is built from,
 * written out over `seq<char>`: the `\s`, `\d` and `\w` character classes,
 * `startsWith`, `indexOf`, `includes`, `replace` with a string pattern,
 * `trim`, `toLowerCase`/`toUpperCase`, `split('/').pop()` and `parseInt`.
 *
 * A JavaScript string is a sequence of UTF-16 code units; here it is a
 * sequence of Dafny characters. Case mapping covers the ASCII letters only.
 */
module JsText {

  datatype Option<T> = None | Some(value: T)

  /** Truthiness of a JavaScript string: only "" is falsy. */
  predicate Truthy(s: string) { s != [] }

  /** `\s` in a regular expression: WhiteSpace and LineTerminator. These are
      also exactly the characters that `trim` and `parseInt` skip. */
  predicate IsSpace(c: char) {
    c == ' ' || c == '\t' || c == '\n' || c == '\U{B}' || c == '\U{C}' || c == '\r'
    || c == '\U{A0}' || c == '\U{1680}' || ('\U{2000}' <= c <= '\U{200A}')
    || c == '\U{2028}' || c == '\U{2029}' || c == '\U{202F}' || c == '\U{205F}'
    || c == '\U{3000}' || c == '\U{FEFF}'
  }

  /** `\d` */
  predicate IsDigit(c: char) { '0' <= c <= '9' }

  /** `[A-Z]` */
  predicate IsAsciiUpper(c: char) { 'A' <= c <= 'Z' }

  /** `[A-Za-z]` */
  predicate IsAsciiLetter(c: char) { 'A' <= c <= 'Z' || 'a' <= c <= 'z' }

  /** `\w`, the characters a `\b` word boundary looks at */
  predicate IsWordChar(c: char) { IsAsciiLetter(c) || IsDigit(c) || c == '_' }

  function DigitValue(c: char): (d: nat)
    requires IsDigit(c)
    ensures d < 10
  {
    c as int - '0' as int
  }

  function ToLowerChar(c: char): (r: char)
    ensures !IsAsciiUpper(r)
    ensures !IsAsciiUpper(c) ==> r == c
    ensures IsAsciiUpper(c) ==> 'a' <= r <= 'z' && r as int - c as int == 32
  {
    if IsAsciiUpper(c) then (c as int + 32) as char else c
  }

  function ToUpperChar(c: char): (r: char)
    ensures !('a' <= r <= 'z')
    ensures !('a' <= c <= 'z') ==> r == c
    ensures 'a' <= c <= 'z' ==> IsAsciiUpper(r) && ToLowerChar(r) == c
  {
    if 'a' <= c <= 'z' then (c as int - 32) as char else c
  }

  /** `toLowerCase` */
  function Lower(s: string): (r: string)
    ensures |r| == |s|
    ensures forall i :: 0 <= i < |s| ==> r[i] == ToLowerChar(s[i])
  {
    seq(|s|, i requires 0 <= i < |s| => ToLowerChar(s[i]))
  }

  /** `toUpperCase` */
  function Upper(s: string): (r: string)
    ensures |r| == |s|
    ensures forall i :: 0 <= i < |s| ==> r[i] == ToUpperChar(s[i])
  {
    seq(|s|, i requires 0 <= i < |s| => ToUpperChar(s[i]))
  }

  lemma LowerAppend(a: string, b: string)
    ensures Lower(a + b) == Lower(a) + Lower(b)
  {
  }

  predicate StartsWith(s: string, prefix: string) {
    |prefix| <= |s| && s[..|prefix|] == prefix
  }

  /** `p` occurs in `s` at index `i` */
  predicate OccursAt(s: string, p: string, i: nat) {
    i + |p| <= |s| && s[i..i + |p|] == p
  }

  ghost predicate IsSubstring(t: string, s: string) {
    exists i: nat :: OccursAt(s, t, i)
  }

  /** `r` is what trimming leaves of `s` when it starts at index `i`. */
  ghost predicate TrimmedAt(s: string, r: string, i: nat) {
    && OccursAt(s, r, i)
    && (forall k :: 0 <= k < i ==> IsSpace(s[k]))
    && (forall k :: i + |r| <= k < |s| ==> IsSpace(s[k]))
  }

  /** The number of consecutive `\s` characters of `s` from index `i` on. */
  function SpaceRun(s: string, i: nat): (n: nat)
    requires i <= |s|
    ensures i + n <= |s|
    ensures forall k :: i <= k < i + n ==> IsSpace(s[k])
    ensures i + n < |s| ==> !IsSpace(s[i + n])
    decreases |s| - i
  {
    if i < |s| && IsSpace(s[i]) then 1 + SpaceRun(s, i + 1) else 0
  }

  /** The number of consecutive `\d` characters of `s` from index `i` on. */
  function DigitRun(s: string, i: nat): (n: nat)
    requires i <= |s|
    ensures i + n <= |s|
    ensures forall k :: i <= k < i + n ==> IsDigit(s[k])
    ensures i + n < |s| ==> !IsDigit(s[i + n])
    decreases |s| - i
  {
    if i < |s| && IsDigit(s[i]) then 1 + DigitRun(s, i + 1) else 0
  }

  function FindFrom(s: string, p: string, i: nat): (r: Option<nat>)
    requires i <= |s|
    ensures r.Some? ==> i <= r.value && OccursAt(s, p, r.value)
    ensures r.Some? ==> forall k :: i <= k < r.value ==> !OccursAt(s, p, k)
    ensures r.None? ==> forall k :: i <= k <= |s| ==> !OccursAt(s, p, k)
    decreases |s| - i
  {
    if OccursAt(s, p, i) then Some(i)
    else if i == |s| then None
    else FindFrom(s, p, i + 1)
  }

  /** `s.indexOf(p)`, with None for -1: the first index at which `p` occurs. */
  function IndexOf(s: string, p: string): (r: Option<nat>)
    ensures r.Some? ==> OccursAt(s, p, r.value)
    ensures r.Some? ==> forall k :: 0 <= k < r.value ==> !OccursAt(s, p, k)
    ensures r.None? <==> !IsSubstring(p, s)
  {
    var r := FindFrom(s, p, 0);
    if r.Some? then
      assert s[r.value..r.value + |p|] == p;
      r
    else
      assert forall k :: 0 <= k <= |s| - |p| ==> !OccursAt(s, p, k);
      r
  }

  /** `s.includes(p)` */
  predicate Includes(s: string, p: string) {
    IndexOf(s, p).Some?
  }

  /** `s.replace(p, r)` with a string pattern: only the first occurrence. */
  function ReplaceFirst(s: string, p: string, r: string): (t: string)
    ensures !IsSubstring(p, s) ==> t == s
    ensures IsSubstring(p, s) ==> |t| == |s| - |p| + |r|
  {
    match IndexOf(s, p)
    case Some(i) => s[..i] + r + s[i + |p|..]
    case None => s
  }

  /** `s.trimStart()` */
  function TrimStart(s: string): (r: string)
    ensures |r| <= |s| && r == s[|s| - |r|..]
    ensures forall k :: 0 <= k < |s| - |r| ==> IsSpace(s[k])
    ensures r != [] ==> !IsSpace(r[0])
  {
    s[SpaceRun(s, 0)..]
  }

  /** The number of `\s` characters that end `s`. */
  function TrailingSpaces(s: string): (n: nat)
    ensures n <= |s|
    ensures forall k :: |s| - n <= k < |s| ==> IsSpace(s[k])
    ensures n < |s| ==> !IsSpace(s[|s| - n - 1])
  {
    if s != [] && IsSpace(s[|s| - 1]) then 1 + TrailingSpaces(s[..|s| - 1]) else 0
  }

  /** `s.trimEnd()` */
  function TrimEnd(s: string): (r: string)
    ensures |r| <= |s| && r == s[..|r|]
    ensures forall k :: |r| <= k < |s| ==> IsSpace(s[k])
    ensures r != [] ==> !IsSpace(r[|r| - 1])
  {
    s[..|s| - TrailingSpaces(s)]
  }

  /** `s.trim()`: the substring of `s` left when the `\s` characters at both
      ends are removed (`TrimOffset` says where it starts). */
  function Trim(s: string): (r: string)
    ensures |r| <= |s|
    ensures r != [] ==> !IsSpace(r[0]) && !IsSpace(r[|r| - 1])
  {
    TrimEnd(TrimStart(s))
  }

  /** `s.split('/').pop()`: what follows the last slash, or all of `s`. */
  function LastSegment(s: string): (r: string)
    ensures |r| <= |s| && s[|s| - |r|..] == r
    ensures '/' !in r
    ensures |r| < |s| ==> s[|s| - |r| - 1] == '/'
  {
    if s == [] || s[|s| - 1] == '/' then []
    else LastSegment(s[..|s| - 1]) + [s[|s| - 1]]
  }

  /** Value of a string of decimal digits, most significant first. */
  function DecimalValue(s: string): nat
    requires forall k :: 0 <= k < |s| ==> IsDigit(s[k])
  {
    if s == [] then 0 else 10 * DecimalValue(s[..|s| - 1]) + DigitValue(s[|s| - 1])
  }

  predicate IsHexDigit(c: char) { IsDigit(c) || 'a' <= c <= 'f' || 'A' <= c <= 'F' }

  function HexDigitValue(c: char): (d: nat)
    requires IsHexDigit(c)
    ensures d < 16
  {
    if IsDigit(c) then DigitValue(c)
    else if 'a' <= c <= 'f' then c as int - 'a' as int + 10
    else c as int - 'A' as int + 10
  }

  function HexRun(s: string, i: nat): (n: nat)
    requires i <= |s|
    ensures i + n <= |s|
    ensures forall k :: i <= k < i + n ==> IsHexDigit(s[k])
    ensures i + n < |s| ==> !IsHexDigit(s[i + n])
    decreases |s| - i
  {
    if i < |s| && IsHexDigit(s[i]) then 1 + HexRun(s, i + 1) else 0
  }

  function HexValue(s: string): nat
    requires forall k :: 0 <= k < |s| ==> IsHexDigit(s[k])
  {
    if s == [] then 0 else 16 * HexValue(s[..|s| - 1]) + HexDigitValue(s[|s| - 1])
  }

  /** The digits of the value of `u` after an optional sign, in base 16 after a
      `0x`/`0X` prefix and base 10 otherwise; None when there are none (NaN). */
  function ParseUnsigned(u: string): Option<nat> {
    if |u| >= 2 && u[0] == '0' && (u[1] == 'x' || u[1] == 'X') then
      var n := HexRun(u, 2);
      if n == 0 then None else Some(HexValue(u[2..2 + n]))
    else
      var n := DigitRun(u, 0);
      if n == 0 then None else Some(DecimalValue(u[..n]))
  }

  /** `parseInt(s)` without a radix, None standing for NaN: leading `\s`
      skipped, an optional sign, then the longest run of digits. */
  function ParseInt(s: string): Option<int> {
    var t := s[SpaceRun(s, 0)..];
    if |t| > 0 && (t[0] == '-' || t[0] == '+') then
      match ParseUnsigned(t[1..])
      case None => None
      case Some(v) => var x: int := if t[0] == '-' then -(v as int) else v as int; Some(x)
    else
      match ParseUnsigned(t)
      case None => None
      case Some(v) => var x: int := v; Some(x)
  }

  /** The shortest decimal spelling of `n`, as `String(n)` gives it. */
  function DecimalString(n: nat): (s: string)
    ensures |s| > 0
    ensures forall k :: 0 <= k < |s| ==> IsDigit(s[k])
  {
    if n < 10 then [('0' as int + n) as char]
    else DecimalString(n / 10) + [('0' as int + n % 10) as char]
  }

  lemma {:induction false} DecimalStringValue(n: nat)
    ensures DecimalValue(DecimalString(n)) == n
  {
    var s := DecimalString(n);
    if n >= 10 {
      DecimalStringValue(n / 10);
      assert s[..|s| - 1] == DecimalString(n / 10);
    }
  }

  lemma DigitRunOfDigits(s: string, i: nat)
    requires i <= |s|
    requires forall k :: i <= k < |s| ==> IsDigit(s[k])
    ensures DigitRun(s, i) == |s| - i
    decreases |s| - i
  {
    if i < |s| { DigitRunOfDigits(s, i + 1); }
  }

  lemma DigitRunPrefix(s: string, rest: string, i: nat)
    requires i <= |s|
    requires forall k :: i <= k < |s| ==> IsDigit(s[k])
    requires rest == [] || !IsDigit(rest[0])
    ensures DigitRun(s + rest, i) == |s| - i
    decreases |s| - i
  {
    if i < |s| {
      assert (s + rest)[i] == s[i];
      DigitRunPrefix(s, rest, i + 1);
    } else if rest != [] {
      assert (s + rest)[i] == rest[0];
    }
  }

  /** `parseInt` reads back what `String` writes for a natural number, also
      when non-digits other than a hexadecimal marker follow it:
      parseInt("123abc") is 123. */
  lemma ParseIntDecimal(n: nat, rest: string)
    requires rest == [] || (!IsDigit(rest[0]) && rest[0] != 'x' && rest[0] != 'X')
    ensures ParseInt(DecimalString(n) + rest) == Some(n)
  {
    var d := DecimalString(n);
    var s := d + rest;
    assert s[0] == d[0];
    ParseIntUnsigned(s);
    assert !(|s| >= 2 && s[0] == '0' && (s[1] == 'x' || s[1] == 'X')) by {
      if |s| >= 2 {
        assert s[1] == if |d| == 1 then rest[0] else d[1];
      }
    }
    DigitRunPrefix(d, rest, 0);
    assert s[..|d|] == d;
    DecimalStringValue(n);
  }

  /** A string starting with a digit has no leading space or sign to skip. */
  lemma ParseIntUnsigned(s: string)
    requires |s| > 0 && IsDigit(s[0])
    ensures ParseInt(s) == match ParseUnsigned(s) case None => None case Some(v) => Some(v as int)
  {
    assert SpaceRun(s, 0) == 0;
    assert s[0..] == s;
  }

  /** `parseInt` of a string of decimal digits is its decimal value. */
  lemma ParseIntOfDigits(d: string)
    requires |d| > 0 && forall k :: 0 <= k < |d| ==> IsDigit(d[k])
    ensures ParseInt(d).Some? && ParseInt(d).value == DecimalValue(d) as int
  {
    assert SpaceRun(d, 0) == 0;
    assert d[0..] == d;
    DigitRunOfDigits(d, 0);
    assert d[..|d|] == d;
  }

  /** The first index at or after `i` holding `c`, or `|s|` when there is
      none: `s.indexOf(c, i)` with -1 read as the length. */
  function NextIndexOf(s: string, c: char, i: nat): (n: nat)
    requires i <= |s|
    ensures i <= n <= |s|
    ensures forall k :: i <= k < n ==> s[k] != c
    ensures n < |s| ==> s[n] == c
    decreases |s| - i
  {
    if i == |s| || s[i] == c then i else NextIndexOf(s, c, i + 1)
  }

  /** A one-character `indexOf` finds what `NextIndexOf` finds from 0. */
  lemma IndexOfChar(s: string, c: char)
    ensures IndexOf(s, [c]).Some? <==> NextIndexOf(s, c, 0) < |s|
    ensures IndexOf(s, [c]).Some? ==> IndexOf(s, [c]).value == NextIndexOf(s, c, 0)
  {
    var n := NextIndexOf(s, c, 0);
    if n < |s| {
      assert OccursAt(s, [c], n);
    }
    assert forall k :: 0 <= k < |s| && OccursAt(s, [c], k) ==> s[k..k + 1][0] == s[k];
  }

  /** Where `s.trim()` starts in `s`: everything before and after it is
      `\s`, which determines the result. */
  lemma TrimOffset(s: string) returns (i: nat)
    ensures TrimmedAt(s, Trim(s), i)
  {
    i := |s| - |TrimStart(s)|;
    assert s[i..i + |Trim(s)|] == Trim(s);
  }

  lemma TrimOccurs(s: string) returns (i: nat)
    ensures OccursAt(s, Trim(s), i)
  {
    i := TrimOffset(s);
  }

  /** An occurrence inside an occurrence is an occurrence. */
  lemma OccursAtTrans(a: string, b: string, c: string, i: nat, j: nat) returns (k: nat)
    requires OccursAt(a, b, i) && OccursAt(b, c, j)
    ensures k == i + j && OccursAt(a, c, k)
  {
    k := i + j;
    assert forall k :: 0 <= k < |c| ==> c[k] == b[j + k] == a[i + j + k];
    assert a[i + j..i + j + |c|] == c;
  }
}
