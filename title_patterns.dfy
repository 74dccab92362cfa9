/**
 * The regular expressions of the title-extraction cascade (main.js:842-958),
 * each written out as the match a JavaScript backtracking matcher finds.
 *
 * Every pattern except the two year searches is anchored with `^`, so a
 * match is described by where it ends; `s.substring(match[0].length)` is
 * then `s[end..]`. Greedy quantifiers are tried longest first and
 * alternatives left to right, and a function below that tries candidate
 * positions in that order returns the first that lets the rest of the
 * pattern match. Retries that can only reach a position already tried with
 * the same remaining pattern are left out, and each comment says which.
 */
module TitlePatterns {
  import opened JsText

  const EnDash := '\U{2013}'
  const EmDash := '\U{2014}'

  /** `[-–]` */
  predicate IsDash(c: char) { c == '-' || c == EnDash }

  /** Four `\d` characters from `i`. */
  predicate FourDigitsAt(s: string, i: nat) {
    i + 4 <= |s| && IsDigit(s[i]) && IsDigit(s[i + 1]) && IsDigit(s[i + 2]) && IsDigit(s[i + 3])
  }

  /** The number of consecutive `c` characters from `i`. */
  function CharRun(s: string, c: char, i: nat): (n: nat)
    requires i <= |s|
    ensures i + n <= |s|
    ensures forall k :: i <= k < i + n ==> s[k] == c
    ensures i + n < |s| ==> s[i + n] != c
    decreases |s| - i
  {
    if i < |s| && s[i] == c then 1 + CharRun(s, c, i + 1) else 0
  }

  /** The number of consecutive `[A-Za-z]` characters from `i`. */
  function LetterRun(s: string, i: nat): (n: nat)
    requires i <= |s|
    ensures i + n <= |s|
    ensures forall k :: i <= k < i + n ==> IsAsciiLetter(s[k])
    ensures i + n < |s| ==> !IsAsciiLetter(s[i + n])
    decreases |s| - i
  {
    if i < |s| && IsAsciiLetter(s[i]) then 1 + LetterRun(s, i + 1) else 0
  }

  /** Index of the first comma, or `|s|`. */
  function FirstComma(s: string): (c0: nat)
    ensures c0 <= |s| && ',' !in s[..c0]
    ensures c0 < |s| ==> s[c0] == ','
  {
    NextIndexOf(s, ',', 0)
  }

  // ---------------------------------------------------------------- the gates

  /** `/^[^,]+,\s*[^,\.]+/`: a non-empty run before the first comma, and
      after that comma a character other than a comma or a period (a space
      there is matched by `[^,\.]+` once `\s*` gives it back). */
  predicate AuthorForm(s: string) {
    var c0 := FirstComma(s);
    1 <= c0 && c0 + 1 < |s| && s[c0 + 1] != ',' && s[c0 + 1] != '.'
  }

  /** `/^[^,]+,\s*[^,]+/`, the looser test applied to a fallback title. */
  predicate AuthorPair(s: string) {
    var c0 := FirstComma(s);
    1 <= c0 && c0 + 1 < |s| && s[c0 + 1] != ','
  }

  /** The author form is exactly "name, rest" with a comma-free non-empty
      name and a rest that starts with neither a comma nor a period. */
  lemma AuthorFormOf(name: string, rest: string)
    requires |name| > 0 && ',' !in name
    ensures AuthorForm(name + "," + rest) <==> |rest| > 0 && rest[0] != ',' && rest[0] != '.'
    ensures AuthorPair(name + "," + rest) <==> |rest| > 0 && rest[0] != ','
  {
    var s := name + "," + rest;
    assert s[..|name|] == name;
    assert s[|name|] == ',';
    assert FirstComma(s) == |name|;
    if |rest| > 0 { assert s[|name| + 1] == rest[0]; }
  }

  /** Every title the first gate admits also passes the looser one. */
  lemma AuthorFormIsAuthorPair(s: string)
    ensures AuthorForm(s) ==> AuthorPair(s)
  {
  }

  // ------------------------------------------------ the surname patterns

  /** The two patterns built from the surname `S` at main.js:859-862. Inside
      a template literal `\s` is the letter `s`, so they are `^S[^.]*\.s+`
      and `^S[^.]*[-–]s+`. */
  datatype SurnamePattern = PeriodPattern | DashPattern

  /** `^S[^.]*\.s+` with `|S| == lo`: `[^.]*` runs to the first period,
      which must be followed by at least one letter `s`. */
  function PeriodEnd(s: string, lo: nat): (r: Option<nat>)
    requires lo <= |s|
    ensures r.Some? ==>
      var d := NextIndexOf(s, '.', lo);
      d + 1 < r.value <= |s| && s[d] == '.' && (forall k :: d < k < r.value ==> s[k] == 's')
      && (r.value < |s| ==> s[r.value] != 's')
    ensures r.None? <==> !(NextIndexOf(s, '.', lo) + 1 < |s| && s[NextIndexOf(s, '.', lo) + 1] == 's')
  {
    var d := NextIndexOf(s, '.', lo);
    if d + 1 < |s| && s[d + 1] == 's' then Some(d + 1 + CharRun(s, 's', d + 1)) else None
  }

  /** `^S[^.]*[-–]s+` with `|S| == lo`: `[^.]*` first runs to the first
      period (at `hi` or beyond) and gives characters back one at a time,
      so the dash is the last one before the first period that is followed
      by a letter `s`. */
  function DashEnd(s: string, lo: nat, hi: nat): (r: Option<nat>)
    requires lo <= hi <= |s|
    ensures r.Some? ==> lo + 1 < r.value <= |s| && s[r.value - 1] == 's'
    ensures r.Some? ==> exists q :: lo <= q < hi && IsDash(s[q]) && q + 1 < |s| && s[q + 1] == 's'
    ensures r.None? ==> forall q :: lo <= q < hi && IsDash(s[q]) ==> !(q + 1 < |s| && s[q + 1] == 's')
    decreases hi - lo
  {
    if hi == lo then None
    else
      var q := hi - 1;
      if IsDash(s[q]) && q + 1 < |s| && s[q + 1] == 's' then Some(q + 1 + CharRun(s, 's', q + 1))
      else DashEnd(s, lo, q)
  }

  /** `title.match(pattern)` for one surname pattern: where the match ends. */
  function SurnameMatch(p: SurnamePattern, s: string, surname: string): (r: Option<nat>)
    ensures r.Some? ==> StartsWith(s, surname) && |surname| < r.value <= |s|
  {
    if !StartsWith(s, surname) then None
    else match p
      case PeriodPattern => PeriodEnd(s, |surname|)
      case DashPattern => DashEnd(s, |surname|, NextIndexOf(s, '.', |surname|))
  }

  /** The period pattern never matches a title whose first period after the
      surname is followed by a space: the letter `s` stands where the
      author of the pattern evidently meant `\s`. */
  lemma PeriodPatternNeedsLetterS(s: string, surname: string)
    requires StartsWith(s, surname)
    requires var d := NextIndexOf(s, '.', |surname|); d + 1 < |s| && IsSpace(s[d + 1])
    ensures SurnameMatch(PeriodPattern, s, surname).None?
  {
  }

  // ---------------------------------------------------- shared sub-patterns

  /** `\s*\.\s+` from `y`: spaces, a period, at least one space. */
  function PeriodTail(s: string, y: nat): (r: Option<nat>)
    requires y <= |s|
    ensures r.Some? ==> y < r.value <= |s| && IsSpace(s[r.value - 1])
    ensures r.Some? ==> y + SpaceRun(s, y) < |s| && s[y + SpaceRun(s, y)] == '.'
    ensures r.Some? ==> r.value == |s| || !IsSpace(s[r.value])
  {
    var d := y + SpaceRun(s, y);
    if d + 1 < |s| && s[d] == '.' && IsSpace(s[d + 1]) then Some(d + 1 + SpaceRun(s, d + 1)) else None
  }

  /** `(?:,\s*\d{4}[-–](?:\d{4})?)?\s*\.\s+` from `x`: the optional dates
      group is tried first, with the second year before without it. */
  function DatesThenPeriod(s: string, x: nat): (r: Option<nat>)
    requires x <= |s|
    ensures r.Some? ==> x < r.value <= |s| && IsSpace(s[r.value - 1])
  {
    var withDates :=
      if x < |s| && s[x] == ',' then
        var z := x + 1 + SpaceRun(s, x + 1);
        if FourDigitsAt(s, z) && z + 4 < |s| && IsDash(s[z + 4]) then
          var long := if FourDigitsAt(s, z + 5) then PeriodTail(s, z + 9) else None;
          if long.Some? then long else PeriodTail(s, z + 5)
        else None
      else None;
    if withDates.Some? then withDates else PeriodTail(s, x)
  }

  // ------------------------------------------------ the honorific pattern

  const Honorifics: seq<string> :=
    ["Sir", "Dr", "Prof", "Mr", "Mrs", "Ms", "Miss", "Lord", "Lady", "Baron", "Count", "Duke"]

  /** The first of `words` that occurs at `h`: the alternative the
      alternation tries first. */
  function FirstWordAt(s: string, words: seq<string>, h: nat): (w: Option<string>)
    ensures w.Some? ==> w.value in words && OccursAt(s, w.value, h)
    ensures w.None? ==> forall k :: 0 <= k < |words| ==> !OccursAt(s, words[k], h)
  {
    if words == [] then None
    else if OccursAt(s, words[0], h) then Some(words[0])
    else FirstWordAt(s, words[1..], h)
  }

  /** `[^,]*` after the honorific word, ending at `x` and giving back one
      character at a time down to `lo`, then the optional dates group and
      the period. */
  function HonorificRest(s: string, lo: nat, x: nat): (r: Option<nat>)
    requires lo <= x <= |s|
    ensures r.Some? ==> lo < r.value <= |s|
    decreases x - lo
  {
    var r := DatesThenPeriod(s, x);
    if r.Some? then r else if x > lo then HonorificRest(s, lo, x - 1) else None
  }

  /** `,\s*(?:Sir|Dr|…|Duke)[^,]*` from the comma at `e`, then the rest of
      the pattern. Of two alternatives that both occur at the same place
      ("Mr" and "Mrs") the longer one reaches no end that the shorter has
      not tried, so only the first is followed. */
  function HonorificGroup(s: string, e: nat): (r: Option<nat>)
    requires e < |s| && s[e] == ','
    ensures r.Some? ==> e < r.value <= |s|
  {
    var h := e + 1 + SpaceRun(s, e + 1);
    match FirstWordAt(s, Honorifics, h)
    case None => None
    case Some(w) =>
      var lo := h + |w|;
      HonorificRest(s, lo, NextIndexOf(s, ',', lo))
  }

  /** Everything after `^[^,]+,\s*[^,]+` when that part ends at `e`. */
  function AfterName(s: string, e: nat): (r: Option<nat>)
    requires e <= |s|
    ensures r.Some? ==> e < r.value <= |s|
  {
    var withTitle := if e < |s| && s[e] == ',' then HonorificGroup(s, e) else None;
    if withTitle.Some? then withTitle else DatesThenPeriod(s, e)
  }

  /** `\s*[^,]+` after the first comma ends at `e`; it first reaches the
      next comma `c1` and gives back one character at a time. A shorter `\s*`
      only repeats ends already tried. */
  function NameEnd(s: string, c0: nat, e: nat): (r: Option<nat>)
    requires c0 + 2 <= e <= |s|
    ensures r.Some? ==> c0 + 2 < r.value <= |s|
    decreases e
  {
    var r := AfterName(s, e);
    if r.Some? then r else if e > c0 + 2 then NameEnd(s, c0, e - 1) else None
  }

  /** `/^[^,]+,\s*[^,]+(?:,\s*(?:Sir|…|Duke)[^,]*)?(?:,\s*\d{4}[-–](?:\d{4})?)?\s*\.\s+/`
      (main.js:882). */
  function HonorificMatch(s: string): (r: Option<nat>)
    ensures r.Some? ==> FirstComma(s) + 2 < r.value <= |s|
  {
    var c0 := FirstComma(s);
    if 1 <= c0 < |s| then
      var c1 := NextIndexOf(s, ',', c0 + 1);
      if c0 + 2 <= c1 then NameEnd(s, c0, c1) else None
    else None
  }

  // ---------------------------------------------------- the dates pattern

  /** `(?:\d{4})?\s*[-.]?\s*` from `p`, each part taking its longest choice:
      where the dates pattern ends after the first year and its dash. */
  function DatesTail(s: string, p: nat): (e: nat)
    requires p <= |s|
    ensures p <= e <= |s|
    ensures e == |s| || !IsSpace(s[e])
  {
    var p' := if FourDigitsAt(s, p) then p + 4 else p;
    var q := p' + SpaceRun(s, p');
    var q' := if q < |s| && (s[q] == '-' || s[q] == '.') then q + 1 else q;
    q' + SpaceRun(s, q')
  }

  /** `^[^,]+,\s*[^,]+,\s*\d{4}[-–](?:\d{4})?\s*[-.]?\s*` (main.js:891):
      the second comma directly after the name, a year and a dash, an
      optional second year, then optional spaces, `-` or `.`, spaces. Once
      the dash is found the rest always matches, so every quantifier keeps
      its longest choice. */
  function DatesMatch(s: string): (r: Option<nat>)
    ensures r.Some? ==> (
      FirstComma(s) < |s| &&
      var c1 := NextIndexOf(s, ',', FirstComma(s) + 1);
      FirstComma(s) + 2 <= c1 < |s| && c1 + 5 < r.value <= |s|)
    ensures r.Some? ==> r.value == |s| || !IsSpace(s[r.value])
  {
    var c0 := FirstComma(s);
    if 1 <= c0 < |s| then
      var c1 := NextIndexOf(s, ',', c0 + 1);
      if c0 + 2 <= c1 < |s| then
        var z := c1 + 1 + SpaceRun(s, c1 + 1);
        if FourDigitsAt(s, z) && z + 4 < |s| && IsDash(s[z + 4]) then Some(DatesTail(s, z + 5))
        else None
      else None
    else None
  }

  // ------------------------------------------------- the initials pattern

  /** `\s*\.\s+([A-Z])` from `t`: the position of the captured letter. */
  function CapitalAfterPeriod(s: string, t: nat): (r: Option<nat>)
    requires t <= |s|
    ensures r.Some? ==> t < r.value < |s| && IsAsciiUpper(s[r.value])
    ensures r.Some? ==> IsSpace(s[r.value - 1])
  {
    var d := t + SpaceRun(s, t);
    if d + 1 < |s| && s[d] == '.' then
      var n := SpaceRun(s, d + 1);
      if n > 0 && d + 1 + n < |s| && IsAsciiUpper(s[d + 1 + n]) then Some(d + 1 + n) else None
    else None
  }

  /** `(?:\([^)]+\))?` from `q`, then the capital after the period. The
      group needs a `)` after at least one other character; skipping it
      when it is there leaves `(` where the period is expected. */
  function ParenThenCapital(s: string, q: nat): (r: Option<nat>)
    requires q <= |s|
    ensures r.Some? ==> q < r.value < |s| && IsAsciiUpper(s[r.value])
  {
    var withParen :=
      if q < |s| && s[q] == '(' then
        var close := NextIndexOf(s, ')', q + 1);
        if q + 2 <= close < |s| then CapitalAfterPeriod(s, close + 1) else None
      else None;
    if withParen.Some? then withParen else CapitalAfterPeriod(s, q)
  }

  /** `(?:[A-Za-z]+\s*)?` from `p`, then the rest. Fewer letters leave a
      letter where `\s*\.` is expected, and fewer spaces leave a space that
      the next `\s*` takes back, so only the longest choice is followed
      before the group is skipped. */
  function NameThenCapital(s: string, p: nat): (r: Option<nat>)
    requires p <= |s|
    ensures r.Some? ==> p < r.value < |s| && IsAsciiUpper(s[r.value])
  {
    var l := LetterRun(s, p);
    var withName := if l > 0 then ParenThenCapital(s, p + l + SpaceRun(s, p + l)) else None;
    if withName.Some? then withName else ParenThenCapital(s, p)
  }

  /** One iteration `[A-Z]\.?\s*` of `(?:[A-Z]\.?\s*)+` at the capital at
      `g`, then more iterations or the rest of the pattern: the period is
      taken first if it is there, and then dropped. */
  function InitialsFrom(s: string, g: nat): (r: Option<nat>)
    requires g < |s| && IsAsciiUpper(s[g])
    ensures r.Some? ==> g < r.value < |s| && IsAsciiUpper(s[r.value])
    decreases |s| - g, 0, 0
  {
    var dotted := if g + 1 < |s| && s[g + 1] == '.' then AfterInitial(s, g + 2, SpaceRun(s, g + 2)) else None;
    if dotted.Some? then dotted else AfterInitial(s, g + 1, SpaceRun(s, g + 1))
  }

  /** An iteration that ended its `\s*` at `p0 + w`: the greedy `+` tries
      another iteration there first, then the rest of the pattern, and then
      gives back a space. */
  function AfterInitial(s: string, p0: nat, w: nat): (r: Option<nat>)
    requires 0 < p0 && p0 + w <= |s|
    ensures r.Some? ==> p0 <= r.value < |s| && IsAsciiUpper(s[r.value])
    decreases |s| - p0, 1, w
  {
    var p := p0 + w;
    var more := if p < |s| && IsAsciiUpper(s[p]) then InitialsFrom(s, p) else None;
    if more.Some? then more
    else
      var rest := NameThenCapital(s, p);
      if rest.Some? then rest
      else if w > 0 then AfterInitial(s, p0, w - 1)
      else None
  }

  /** `/^[^,]+,\s*(?:[A-Z]\.?\s*)+(?:[A-Za-z]+\s*)?(?:\([^)]+\))?\s*\.\s+([A-Z])/`
      (main.js:901): the position of the captured capital. */
  function InitialsMatch(s: string): (r: Option<nat>)
    ensures r.Some? ==> FirstComma(s) < r.value < |s| && IsAsciiUpper(s[r.value])
  {
    var c0 := FirstComma(s);
    if 1 <= c0 < |s| then
      var g := c0 + 1 + SpaceRun(s, c0 + 1);
      if g < |s| && IsAsciiUpper(s[g]) then InitialsFrom(s, g) else None
    else None
  }

  /** Where the title is cut after the initials pattern (main.js:905):
      `indexOf` of the captured letter from the start of the title, which
      is its first occurrence anywhere, not the end of the match. */
  function InitialsCut(s: string): (r: Option<nat>)
    ensures r.Some? <==> InitialsMatch(s).Some?
    ensures r.Some? ==> r.value <= InitialsMatch(s).value < |s|
    ensures r.Some? ==> s[r.value] == s[InitialsMatch(s).value]
    ensures r.Some? ==> forall k :: 0 <= k < r.value ==> s[k] != s[InitialsMatch(s).value]
  {
    match InitialsMatch(s)
    case None => None
    case Some(pos) =>
      var letter := s[pos];
      IndexOfChar(s, letter);
      Some(NextIndexOf(s, letter, 0))
  }

  // ---------------------------------------------- the last-period pattern

  /** `/^[^,]+,\s*[^.]+\.\s+/` (main.js:912): up to the first period after
      the first comma (with a character between them; `[^.]+` may cross
      further commas), then at least one space. */
  function LastPeriodMatch(s: string): (r: Option<nat>)
    ensures r.Some? ==> (
      FirstComma(s) < |s| &&
      var p := NextIndexOf(s, '.', FirstComma(s) + 1);
      FirstComma(s) + 2 <= p && p + 1 < r.value <= |s| && IsSpace(s[p + 1]))
    ensures r.Some? ==> r.value == |s| || !IsSpace(s[r.value])
  {
    var c0 := FirstComma(s);
    if 1 <= c0 < |s| then
      var p := NextIndexOf(s, '.', c0 + 1);
      if c0 + 2 <= p && p + 1 < |s| && IsSpace(s[p + 1]) then Some(p + 1 + SpaceRun(s, p + 1)) else None
    else None
  }

  // ---------------------------------------------------- the year searches

  /** `\d{4}[-–]\d{0,4}\s+` at `i`: the optional digits cannot give any back,
      because a digit cannot start `\s+`. */
  function YearRangeAt(s: string, i: nat): (r: Option<nat>)
    requires i <= |s|
    ensures r.Some? ==> i + 5 < r.value <= |s| && FourDigitsAt(s, i) && IsDash(s[i + 4])
  {
    if FourDigitsAt(s, i) && i + 4 < |s| && IsDash(s[i + 4]) then
      var k := if DigitRun(s, i + 5) < 4 then DigitRun(s, i + 5) else 4;
      var e := i + 5 + k;
      if e < |s| && IsSpace(s[e]) then Some(e + SpaceRun(s, e)) else None
    else None
  }

  /** `\d{4}[-–]\s+` at `i`. */
  function YearEndAt(s: string, i: nat): (r: Option<nat>)
    requires i <= |s|
    ensures r.Some? ==> i + 5 < r.value <= |s|
  {
    if FourDigitsAt(s, i) && i + 5 < |s| && IsDash(s[i + 4]) && IsSpace(s[i + 5]) then Some(i + 5 + SpaceRun(s, i + 5))
    else None
  }

  /** The leftmost match of `/\d{4}[-–]\d{0,4}\s+/` at or after `i`, as
      `match.index + match[0].length`. */
  function YearRangeFrom(s: string, i: nat): (r: Option<nat>)
    requires i <= |s|
    ensures r.Some? ==> i + 5 < r.value <= |s|
    ensures r.None? ==> forall k :: i <= k <= |s| ==> YearRangeAt(s, k).None?
    decreases |s| - i
  {
    var here := YearRangeAt(s, i);
    if here.Some? then here
    else if i == |s| then None
    else YearRangeFrom(s, i + 1)
  }

  /** The leftmost match of `/\d{4}[-–]\s+/` at or after `i`. */
  function YearEndFrom(s: string, i: nat): (r: Option<nat>)
    requires i <= |s|
    ensures r.Some? ==> i + 5 < r.value <= |s|
    ensures r.Some? ==> exists k :: i <= k <= |s| && YearEndAt(s, k).Some?
    decreases |s| - i
  {
    var here := YearEndAt(s, i);
    if here.Some? then here
    else if i == |s| then None
    else YearEndFrom(s, i + 1)
  }

  /** Wherever `\d{4}[-–]\s+` matches, `\d{4}[-–]\d{0,4}\s+` matches too, at
      the same place and with the same end. */
  lemma YearEndIsYearRange(s: string, i: nat)
    requires i <= |s|
    ensures YearEndAt(s, i).Some? ==> YearRangeAt(s, i) == YearEndAt(s, i)
  {
  }

  /** So the `yearEndMatch` branch of main.js:930-933 can never be taken:
      whenever its pattern matches, `yearMatch` has matched already. */
  lemma YearEndBranchIsDead(s: string)
    ensures YearEndFrom(s, 0).Some? ==> YearRangeFrom(s, 0).Some?
  {
    if YearEndFrom(s, 0).Some? {
      var k :| 0 <= k <= |s| && YearEndAt(s, k).Some?;
      YearEndIsYearRange(s, k);
    }
  }
}
