/**
 * The newest-year emphasis in a publication statement (main.js:551-569, the
 * same code again at main.js:1350-1368): every `c?YYYY` year token between
 * 1500 and 2029 is found, the numerically largest one (the first of them on a
 * tie) is chosen, and each occurrence of that exact token standing as a whole
 * word is wrapped in `<strong>` … `</strong>`.
 */
module YearHighlight {
  import opened JsText

  /** `\b` at index `i`: exactly one side of `i` is a word character. */
  predicate WordBoundary(s: string, i: nat)
    requires i <= |s|
  {
    (i > 0 && IsWordChar(s[i - 1])) != (i < |s| && IsWordChar(s[i]))
  }

  /** `1[5-9]\d{2}|20[0-2]\d` at index `i`. */
  predicate YearDigitsAt(s: string, i: nat) {
    && i + 4 <= |s|
    && ((s[i] == '1' && '5' <= s[i + 1] <= '9' && IsDigit(s[i + 2]) && IsDigit(s[i + 3]))
        || (s[i] == '2' && s[i + 1] == '0' && '0' <= s[i + 2] <= '2' && IsDigit(s[i + 3])))
  }

  /** The two shapes a match can have: four year digits, or `c` and four. */
  predicate IsYearToken(t: string) {
    (|t| == 4 && YearDigitsAt(t, 0)) || (|t| == 5 && t[0] == 'c' && YearDigitsAt(t, 1))
  }

  /** Length of the match of `\b(c?)(1[5-9]\d{2}|20[0-2]\d)\b` starting at
      index `i`, 0 when there is none; the greedy `c?` takes the `c` first. */
  function YearMatchLength(s: string, i: nat): (n: nat)
    requires i <= |s|
    ensures n == 0 || n == 4 || n == 5
    ensures i + n <= |s|
    ensures n > 0 ==> IsYearToken(s[i..i + n]) && WordBoundary(s, i) && WordBoundary(s, i + n)
  {
    if !WordBoundary(s, i) then 0
    else if i < |s| && s[i] == 'c' && YearDigitsAt(s, i + 1) && WordBoundary(s, i + 5) then 5
    else if YearDigitsAt(s, i) && WordBoundary(s, i + 4) then 4
    else 0
  }

  /** `s.match(/…/g)` from index `i` on: each match starts the search for the
      next one where it ends; elsewhere the search moves on by one. */
  function YearTokensFrom(s: string, i: nat): (ts: seq<string>)
    requires i <= |s|
    ensures forall k :: 0 <= k < |ts| ==> IsYearToken(ts[k])
    decreases |s| - i
  {
    if i == |s| then []
    else
      var n := YearMatchLength(s, i);
      if n == 0 then YearTokensFrom(s, i + 1) else [s[i..i + n]] + YearTokensFrom(s, i + n)
  }

  function YearTokens(s: string): seq<string> {
    YearTokensFrom(s, 0)
  }

  /** `parseInt(y.replace('c', ''))`, None standing for NaN. */
  function TokenValue(t: string): Option<int> {
    ParseInt(ReplaceFirst(t, "c", ""))
  }

  /** The four digits of a year token. */
  function YearDigits(t: string): (d: string)
    requires IsYearToken(t)
    ensures |d| == 4 && YearDigitsAt(d, 0)
    ensures forall k :: 0 <= k < |d| ==> IsDigit(d[k])
  {
    if |t| == 5 then t[1..] else t
  }

  lemma DigitsHaveNoC(d: string)
    requires forall k :: 0 <= k < |d| ==> IsDigit(d[k])
    ensures !IsSubstring("c", d)
  {
    forall i: nat | i + 1 <= |d|
      ensures !OccursAt(d, "c", i)
    {
      assert d[i..i + 1][0] == d[i];
    }
  }

  /** Every year token has a number, and it lies between 1500 and 2029. */
  lemma TokenValueOfYear(t: string)
    requires IsYearToken(t)
    ensures TokenValue(t).Some? && TokenValue(t).value == DecimalValue(YearDigits(t)) as int
    ensures 1500 <= TokenValue(t).value <= 2029
  {
    var d := YearDigits(t);
    YearTokenDropsC(t);
    ParseIntOfDigits(d);
    YearValueRange(d);
  }

  /** Removing the first `c` of a year token leaves its digits. */
  lemma YearTokenDropsC(t: string)
    requires IsYearToken(t)
    ensures ReplaceFirst(t, "c", "") == YearDigits(t)
  {
    var d := YearDigits(t);
    if |t| == 5 {
      assert OccursAt(t, "c", 0);
      assert IndexOf(t, "c") == Some(0);
      assert t[..0] + "" + t[1..] == d;
    } else {
      DigitsHaveNoC(d);
    }
  }

  /** Four year digits spell a number between 1500 and 2029. */
  lemma YearValueRange(d: string)
    requires |d| == 4 && YearDigitsAt(d, 0)
    ensures 1500 <= DecimalValue(d) <= 2029
  {
    assert DecimalValue(d[..1]) == DigitValue(d[0]) by { assert d[..1][..0] == []; }
    assert DecimalValue(d[..2]) == 10 * DecimalValue(d[..1]) + DigitValue(d[1]) by { assert d[..2][..1] == d[..1]; }
    assert DecimalValue(d[..3]) == 10 * DecimalValue(d[..2]) + DigitValue(d[2]) by { assert d[..3][..2] == d[..2]; }
    assert d[..4] == d;
    assert DecimalValue(d) == 10 * DecimalValue(d[..3]) + DigitValue(d[3]);
  }

  /** `current.numeric > max.numeric`: false when either side is NaN. */
  predicate Greater(a: Option<int>, b: Option<int>) {
    a.Some? && b.Some? && a.value > b.value
  }

  /** Index of the element `values.reduce((max, current) => current > max ?
      current : max)` returns. */
  function NewestIndex(values: seq<Option<int>>): (k: nat)
    requires |values| > 0
    ensures k < |values|
  {
    if |values| == 1 then 0
    else
      var k := NewestIndex(values[..|values| - 1]);
      if Greater(values[|values| - 1], values[k]) then |values| - 1 else k
  }

  /** With every value a number, the reduce picks the first largest one. */
  lemma {:induction false} NewestIndexIsFirstMaximum(values: seq<Option<int>>)
    requires |values| > 0
    requires forall j :: 0 <= j < |values| ==> values[j].Some?
    ensures forall j :: 0 <= j < |values| ==> values[j].value <= values[NewestIndex(values)].value
    ensures forall j :: 0 <= j < NewestIndex(values) ==> values[j].value < values[NewestIndex(values)].value
  {
    if |values| > 1 {
      var init := values[..|values| - 1];
      NewestIndexIsFirstMaximum(init);
      assert forall j :: 0 <= j < |init| ==> init[j] == values[j];
    }
  }

  function TokenValues(ts: seq<string>): (vs: seq<Option<int>>)
    ensures |vs| == |ts|
    ensures forall k :: 0 <= k < |ts| ==> vs[k] == TokenValue(ts[k])
  {
    seq(|ts|, k requires 0 <= k < |ts| => TokenValue(ts[k]))
  }

  /** Position of `newestYearInfo` among the matches. */
  function NewestYearIndex(s: string): (k: nat)
    requires YearTokens(s) != []
    ensures k < |YearTokens(s)|
  {
    NewestIndex(TokenValues(YearTokens(s)))
  }

  /** `newestYearInfo.original` */
  function NewestYear(s: string): string
    requires YearTokens(s) != []
  {
    YearTokens(s)[NewestYearIndex(s)]
  }

  /** The statement with its emphasis marked: a character copied or a token
      set in bold. */
  datatype Piece = Plain(c: char) | Strong(token: string)

  function PieceHtml(p: Piece): string {
    match p
    case Plain(c) => [c]
    case Strong(t) => "<strong>" + t + "</strong>"
  }

  function PieceText(p: Piece): string {
    match p
    case Plain(c) => [c]
    case Strong(t) => t
  }

  /** The HTML text of the pieces. */
  function Render(ps: seq<Piece>): string {
    if ps == [] then [] else PieceHtml(ps[0]) + Render(ps[1..])
  }

  /** The pieces with the emphasis taken away. */
  function Erase(ps: seq<Piece>): string {
    if ps == [] then [] else PieceText(ps[0]) + Erase(ps[1..])
  }

  /** `token` occurs at index `i` with a word boundary on both sides. */
  predicate BoundedAt(s: string, token: string, i: nat) {
    OccursAt(s, token, i) && WordBoundary(s, i) && WordBoundary(s, i + |token|)
  }

  /** `s.replace(new RegExp('\\b' + token + '\\b', 'g'), …)` from index `i`:
      each occurrence of `token` with a word boundary on both sides becomes a
      `Strong` piece, and the search resumes after it. */
  function WrapFrom(s: string, token: string, i: nat): (ps: seq<Piece>)
    requires |token| > 0 && i <= |s|
    decreases |s| - i
  {
    if i == |s| then []
    else if BoundedAt(s, token, i) then
      [Strong(token)] + WrapFrom(s, token, i + |token|)
    else [Plain(s[i])] + WrapFrom(s, token, i + 1)
  }

  /** The emphasis of a publication statement: none without a year. */
  function EmphasisPieces(s: string): seq<Piece> {
    if YearTokens(s) == [] then Plains(s)
    else WrapFrom(s, NewestYear(s), 0)
  }

  function Plains(s: string): (ps: seq<Piece>)
    ensures |ps| == |s|
    ensures forall k :: 0 <= k < |s| ==> ps[k] == Plain(s[k])
  {
    seq(|s|, k requires 0 <= k < |s| => Plain(s[k]))
  }

  /** The publication statement as the summary shows it. */
  function HighlightNewestYear(s: string): string {
    Render(EmphasisPieces(s))
  }

  lemma {:induction false} WrapFromErases(s: string, token: string, i: nat)
    requires |token| > 0 && i <= |s|
    ensures Erase(WrapFrom(s, token, i)) == s[i..]
    decreases |s| - i
  {
    if i == |s| {
      assert WrapFrom(s, token, i) == [];
    } else if BoundedAt(s, token, i) {
      var j := WrapFromStrong(s, token, i);
      WrapFromErases(s, token, j);
      EraseStep(s, i, j, Strong(token), WrapFrom(s, token, i), WrapFrom(s, token, j));
    } else {
      var j := WrapFromPlain(s, token, i);
      WrapFromErases(s, token, j);
      EraseStep(s, i, j, Plain(s[i]), WrapFrom(s, token, i), WrapFrom(s, token, j));
    }
  }

  lemma WrapFromStrong(s: string, token: string, i: nat) returns (j: nat)
    requires |token| > 0 && i < |s|
    requires BoundedAt(s, token, i)
    ensures j == i + |token| && i < j <= |s|
    ensures WrapFrom(s, token, i) == [Strong(token)] + WrapFrom(s, token, j)
    ensures PieceText(Strong(token)) == s[i..j]
  {
    j := i + |token|;
  }

  lemma WrapFromPlain(s: string, token: string, i: nat) returns (j: nat)
    requires |token| > 0 && i < |s|
    requires !BoundedAt(s, token, i)
    ensures j == i + 1
    ensures WrapFrom(s, token, i) == [Plain(s[i])] + WrapFrom(s, token, j)
    ensures PieceText(Plain(s[i])) == s[i..j]
  {
    j := i + 1;
  }

  /** One step of the induction above. */
  lemma EraseStep(s: string, i: nat, j: nat, p: Piece, ps: seq<Piece>, rest: seq<Piece>)
    requires i < j <= |s|
    requires ps == [p] + rest
    requires PieceText(p) == s[i..j]
    requires Erase(rest) == s[j..]
    ensures Erase(ps) == s[i..]
  {
    assert ps[1..] == rest;
    assert s[i..] == s[i..j] + s[j..];
  }
  lemma SplitAt(s: string, i: nat, j: nat)
    requires i <= j <= |s|
    ensures s[i..] == s[i..j] + s[j..]
  {
  }

  lemma {:induction false} WrapFromOnlyToken(s: string, token: string, i: nat)
    requires |token| > 0 && i <= |s|
    ensures forall k :: 0 <= k < |WrapFrom(s, token, i)| && WrapFrom(s, token, i)[k].Strong? ==>
      WrapFrom(s, token, i)[k].token == token
    decreases |s| - i
  {
    if i < |s| {
      if BoundedAt(s, token, i) {
        WrapFromOnlyToken(s, token, i + |token|);
      } else {
        WrapFromOnlyToken(s, token, i + 1);
      }
    }
  }

  lemma {:induction false} PlainsErase(s: string)
    ensures Erase(Plains(s)) == s
    ensures Render(Plains(s)) == s
  {
    if s != [] {
      PlainsErase(s[1..]);
      assert Plains(s)[1..] == Plains(s[1..]);
    }
  }

  /** Taking the emphasis away gives back the statement: the text is
      unchanged apart from the wrapping. */
  lemma EmphasisKeepsText(s: string)
    ensures Erase(EmphasisPieces(s)) == s
  {
    if YearTokens(s) == [] {
      PlainsErase(s);
    } else {
      WrapFromErases(s, NewestYear(s), 0);
    }
  }

  /** Only the newest year is emphasised, and it is the numerically largest
      year token, the first such one on a tie. */
  lemma EmphasisIsNewestYear(s: string)
    requires YearTokens(s) != []
    ensures IsYearToken(NewestYear(s))
    ensures forall k :: 0 <= k < |EmphasisPieces(s)| && EmphasisPieces(s)[k].Strong? ==>
      EmphasisPieces(s)[k].token == NewestYear(s)
    ensures TokenValue(NewestYear(s)).Some?
    ensures forall j :: 0 <= j < |YearTokens(s)| ==>
      TokenValue(YearTokens(s)[j]).Some? && TokenValue(YearTokens(s)[j]).value <= TokenValue(NewestYear(s)).value
    ensures forall j :: 0 <= j < NewestYearIndex(s) ==>
      TokenValue(YearTokens(s)[j]).value < TokenValue(NewestYear(s)).value
  {
    var ts := YearTokens(s);
    var vs := TokenValues(ts);
    forall j | 0 <= j < |ts| ensures vs[j].Some? { TokenValueOfYear(ts[j]); }
    NewestIndexIsFirstMaximum(vs);
    WrapFromOnlyToken(s, NewestYear(s), 0);
  }

  /** Every character of `t` is a word character. */
  predicate WordChars(t: string) {
    forall k :: 0 <= k < |t| ==> IsWordChar(t[k])
  }

  lemma YearTokenWordChars(t: string)
    requires IsYearToken(t)
    ensures WordChars(t)
  {
  }

  /** No word boundary lies strictly inside an occurrence of a word. */
  lemma NoBoundaryInside(s: string, token: string, q: nat, p: nat)
    requires WordChars(token) && OccursAt(s, token, q)
    requires q < p < q + |token|
    ensures !WordBoundary(s, p)
  {
    assert s[p - 1] == s[q..q + |token|][p - 1 - q];
    assert s[p] == s[q..q + |token|][p - q];
  }

  /** The scan from `i` meets every bounded occurrence of a word at or past
      `i`: two of them cannot overlap, so no `Strong` piece jumps over one.
      The piece `k` is `Strong(token)`, and the pieces before it spell the
      text from `i` up to the occurrence. */
  lemma {:induction false} WrapFromReaches(s: string, token: string, i: nat, p: nat) returns (k: nat)
    requires |token| > 0 && i <= p && WordChars(token)
    requires BoundedAt(s, token, p)
    ensures k < |WrapFrom(s, token, i)| && WrapFrom(s, token, i)[k] == Strong(token)
    ensures Erase(WrapFrom(s, token, i)[..k]) == s[i..p]
    decreases p - i
  {
    if i == p {
      k := 0;
      assert WrapFrom(s, token, i)[..0] == [];
    } else if BoundedAt(s, token, i) {
      var j := WrapFromStrong(s, token, i);
      if p < j {
        NoBoundaryInside(s, token, i, p);
        assert false;
      }
      var k' := WrapFromReaches(s, token, j, p);
      k := k' + 1;
      ErasePrefixStep(s, i, j, p, Strong(token), WrapFrom(s, token, i), WrapFrom(s, token, j), k');
    } else {
      var j := WrapFromPlain(s, token, i);
      var k' := WrapFromReaches(s, token, j, p);
      k := k' + 1;
      ErasePrefixStep(s, i, j, p, Plain(s[i]), WrapFrom(s, token, i), WrapFrom(s, token, j), k');
    }
  }

  /** One step of the induction above. */
  lemma ErasePrefixStep(s: string, i: nat, j: nat, p: nat, x: Piece, ps: seq<Piece>, rest: seq<Piece>, k: nat)
    requires i <= j <= p <= |s| && k < |rest|
    requires ps == [x] + rest
    requires PieceText(x) == s[i..j]
    requires Erase(rest[..k]) == s[j..p]
    ensures Erase(ps[..k + 1]) == s[i..p]
  {
    assert ps[..k + 1] == [x] + rest[..k];
    assert ps[..k + 1][1..] == rest[..k];
    assert s[i..p] == s[i..j] + s[j..p];
  }

  /** Each year token of the list is the text at a position with a word
      boundary on both sides. */
  lemma {:induction false} YearTokenAt(s: string, i: nat, k: nat) returns (p: nat)
    requires i <= |s| && k < |YearTokensFrom(s, i)|
    ensures i <= p && BoundedAt(s, YearTokensFrom(s, i)[k], p)
    decreases |s| - i
  {
    var n := YearMatchLength(s, i);
    if n == 0 {
      p := YearTokenAt(s, i + 1, k);
    } else if k == 0 {
      p := i;
    } else {
      assert YearTokensFrom(s, i)[k] == YearTokensFrom(s, i + n)[k - 1];
      p := YearTokenAt(s, i + n, k - 1);
    }
  }

  /** Every occurrence of the newest year with a word boundary on both sides
      is wrapped: the piece that starts at its position is `Strong`. So a
      statement with a year has at least one emphasised piece. */
  lemma EmphasisWrapsNewestYear(s: string)
    requires YearTokens(s) != []
    ensures forall p :: 0 <= p && BoundedAt(s, NewestYear(s), p) ==>
      exists k :: 0 <= k < |EmphasisPieces(s)| && EmphasisPieces(s)[k] == Strong(NewestYear(s)) && Erase(EmphasisPieces(s)[..k]) == s[..p]
    ensures exists k :: 0 <= k < |EmphasisPieces(s)| && EmphasisPieces(s)[k] == Strong(NewestYear(s))
  {
    forall p | 0 <= p && BoundedAt(s, NewestYear(s), p)
      ensures exists k :: 0 <= k < |EmphasisPieces(s)| && EmphasisPieces(s)[k] == Strong(NewestYear(s)) && Erase(EmphasisPieces(s)[..k]) == s[..p]
    {
      EmphasisWrapsAt(s, p);
    }
    var q := YearTokenAt(s, 0, NewestYearIndex(s));
    EmphasisWrapsAt(s, q);
  }

  lemma EmphasisWrapsAt(s: string, p: nat)
    requires YearTokens(s) != []
    requires BoundedAt(s, NewestYear(s), p)
    ensures exists k :: 0 <= k < |EmphasisPieces(s)| && EmphasisPieces(s)[k] == Strong(NewestYear(s)) && Erase(EmphasisPieces(s)[..k]) == s[..p]
  {
    YearTokenWordChars(NewestYear(s));
    var k := WrapFromReaches(s, NewestYear(s), 0, p);
    assert EmphasisPieces(s) == WrapFrom(s, NewestYear(s), 0);
    assert s[0..p] == s[..p];
    assert EmphasisPieces(s)[k] == Strong(NewestYear(s)) && Erase(EmphasisPieces(s)[..k]) == s[..p];
  }

  /** A statement without a year token is shown unchanged. */
  lemma NoYearUnchanged(s: string)
    requires YearTokens(s) == []
    ensures HighlightNewestYear(s) == s
    ensures forall k :: 0 <= k < |EmphasisPieces(s)| ==> EmphasisPieces(s)[k].Plain?
  {
    PlainsErase(s);
  }

  lemma TieTokens(s: string)
    requires s == "1999 c1999"
    ensures YearTokens(s) == ["1999", "c1999"]
  {
    assert YearMatchLength(s, 0) == 4;
    assert s[0..4] == "1999";
    assert YearMatchLength(s, 4) == 0;
    assert YearMatchLength(s, 5) == 5;
    assert s[5..10] == "c1999";
    assert YearTokensFrom(s, 10) == [];
    assert YearTokensFrom(s, 5) == ["c1999"];
    assert YearTokensFrom(s, 4) == ["c1999"];
  }

  /** Wrapping "1999" leaves the "1999" inside "c1999" alone: there is no
      word boundary between `c` and `1`. */
  lemma TieWrap(s: string)
    requires s == "1999 c1999"
    ensures WrapFrom(s, "1999", 0) == [Strong("1999")] + Plains(" c1999")
  {
    assert WrapFrom(s, "1999", 10) == [];
    assert WrapFrom(s, "1999", 9) == [Plain('9')];
    assert WrapFrom(s, "1999", 8) == [Plain('9'), Plain('9')];
    assert WrapFrom(s, "1999", 7) == [Plain('9'), Plain('9'), Plain('9')];
    assert !WordBoundary(s, 6);
    assert WrapFrom(s, "1999", 6) == [Plain('1'), Plain('9'), Plain('9'), Plain('9')];
    assert s[5..9][0] == 'c';
    assert WrapFrom(s, "1999", 5) == [Plain('c'), Plain('1'), Plain('9'), Plain('9'), Plain('9')];
    assert s[4..8][0] == ' ';
    assert WrapFrom(s, "1999", 4) == Plains(" c1999");
    assert OccursAt(s, "1999", 0) && WordBoundary(s, 0) && WordBoundary(s, 4);
  }

  /** "1999" and "c1999" tie and the first of them is the newest. */
  lemma TieNewest(s: string)
    requires s == "1999 c1999"
    ensures NewestYear(s) == "1999"
  {
    TieTokens(s);
    var ts := YearTokens(s);
    assert YearDigits(ts[1]) == ts[0] by { assert ts[1][1..] == ts[0]; }
    TokenValueOfYear(ts[0]);
    TokenValueOfYear(ts[1]);
    FirstOfTieIsNewest(TokenValues(ts));
  }

  lemma FirstOfTieIsNewest(vs: seq<Option<int>>)
    requires |vs| == 2 && vs[0] == vs[1]
    ensures NewestIndex(vs) == 0
  {
    assert vs[..1] == [vs[0]];
  }
}
