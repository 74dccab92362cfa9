/**
 * The "works by this contributor" listing: the result records of all pages are
 * deduplicated by URI, each work is classified as text or non-text from its
 * BIBFRAME `@type`, its title is extracted and normalised into a grouping key,
 * and the works are grouped under those keys, each group showing the most
 * frequent literal form of its title.
 */
module RecordNormalizer {
  import opened JsText
  import opened GraphResolver
  import opened Sorting
  import TitleExtractor

  // ---------------------------------------------------------------------
  // normalizeTitle (main.js:749-755)
  // ---------------------------------------------------------------------

  /** The class `[.,;:!?\-–—'"'""\[\](){}]` that `normalizeTitle` deletes. */
  predicate IsTitlePunct(c: char) {
    c == '.' || c == ',' || c == ';' || c == ':' || c == '!' || c == '?' || c == '-'
    || c == '\U{2013}' || c == '\U{2014}' || c == '\'' || c == '"'
    || c == '[' || c == ']' || c == '(' || c == ')' || c == '{' || c == '}'
  }

  /** A character a grouping key may hold: no ASCII capital, none of the
      deleted punctuation, and no `\s` other than the plain space. */
  predicate IsKeyChar(c: char) {
    !IsAsciiUpper(c) && !IsTitlePunct(c) && (IsSpace(c) ==> c == ' ')
  }

  /** The shape of every grouping key: key characters only, no two spaces in
      a row, and no space at either end. */
  ghost predicate IsTitleKey(s: string) {
    && (forall k :: 0 <= k < |s| ==> IsKeyChar(s[k]))
    && (forall k :: 0 <= k < |s| - 1 ==> !(s[k] == ' ' && s[k + 1] == ' '))
    && (s != [] ==> s[0] != ' ' && s[|s| - 1] != ' ')
  }

  ghost predicate NoUpper(s: string) {
    forall k :: 0 <= k < |s| ==> !IsAsciiUpper(s[k])
  }

  /** `.replace(/[.,;:!?\-–—'"'""\[\](){}]/g, '')` */
  function RemovePunct(s: string): (r: string)
    ensures |r| <= |s|
    ensures forall k :: 0 <= k < |r| ==> !IsTitlePunct(r[k])
    ensures NoUpper(s) ==> NoUpper(r)
  {
    if s == [] then []
    else (if IsTitlePunct(s[0]) then [] else [s[0]]) + RemovePunct(s[1..])
  }

  /** `.replace(/\s+/g, ' ')`: every maximal run of `\s` becomes one space. */
  function CollapseSpaces(s: string): (r: string)
    ensures s == [] <==> r == []
    ensures s != [] && !IsSpace(s[0]) ==> r[0] == s[0]
    ensures forall k :: 0 <= k < |r| - 1 ==> !(IsSpace(r[k]) && IsSpace(r[k + 1]))
    ensures (forall k :: 0 <= k < |s| ==> !IsAsciiUpper(s[k]) && !IsTitlePunct(s[k])) ==>
      forall k :: 0 <= k < |r| ==> IsKeyChar(r[k])
    decreases |s|
  {
    if s == [] then []
    else if IsSpace(s[0]) then [' '] + CollapseSpaces(s[SpaceRun(s, 0)..])
    else [s[0]] + CollapseSpaces(s[1..])
  }

  /** `normalizeTitle`: lower-case, delete the punctuation class, collapse
      whitespace runs, trim. */
  function NormalizeTitle(title: string): string {
    Trim(CollapseSpaces(RemovePunct(Lower(title))))
  }

  /** A substring of a string with the key characters and no double space
      keeps both. */
  lemma KeyCharsOfSubstring(s: string, r: string, i: nat)
    requires OccursAt(s, r, i)
    requires forall k :: 0 <= k < |s| ==> IsKeyChar(s[k])
    requires forall k :: 0 <= k < |s| - 1 ==> !(IsSpace(s[k]) && IsSpace(s[k + 1]))
    ensures forall k :: 0 <= k < |r| ==> IsKeyChar(r[k])
    ensures forall k :: 0 <= k < |r| - 1 ==> !(r[k] == ' ' && r[k + 1] == ' ')
  {
    assert forall k :: 0 <= k < |r| ==> r[k] == s[i + k];
  }

  /** Every result of `normalizeTitle` has the shape of a key. */
  lemma NormalizeTitleIsKey(title: string)
    ensures IsTitleKey(NormalizeTitle(title))
  {
    var c := CollapseSpaces(RemovePunct(Lower(title)));
    var i := TrimOccurs(c);
    KeyCharsOfSubstring(c, Trim(c), i);
  }

  lemma {:induction false} RemovePunctOfKey(s: string)
    requires forall k :: 0 <= k < |s| ==> !IsTitlePunct(s[k])
    ensures RemovePunct(s) == s
  {
    if s != [] {
      RemovePunctOfKey(s[1..]);
    }
  }

  lemma {:induction false} CollapseSpacesOfKey(s: string)
    requires forall k :: 0 <= k < |s| ==> IsKeyChar(s[k])
    requires forall k :: 0 <= k < |s| - 1 ==> !(s[k] == ' ' && s[k + 1] == ' ')
    ensures CollapseSpaces(s) == s
    decreases |s|
  {
    if s != [] {
      CollapseSpacesOfKey(s[1..]);
      if IsSpace(s[0]) {
        assert SpaceRun(s, 0) == 1 by {
          assert |s| > 1 ==> !IsSpace(s[1]);
        }
      }
    }
  }

  /** A key is its own normal form. */
  lemma NormalizeTitleOfKey(s: string)
    requires IsTitleKey(s)
    ensures NormalizeTitle(s) == s
  {
    assert Lower(s) == s;
    RemovePunctOfKey(s);
    CollapseSpacesOfKey(s);
    if s != [] {
      TitleExtractor.TrimOfTrimmed(s);
    }
  }

  /** `normalizeTitle` is idempotent. */
  lemma NormalizeTitleIdempotent(title: string)
    ensures NormalizeTitle(NormalizeTitle(title)) == NormalizeTitle(title)
  {
    NormalizeTitleIsKey(title);
    NormalizeTitleOfKey(NormalizeTitle(title));
  }

  lemma {:induction false} RemovePunctAppend(a: string, b: string)
    ensures RemovePunct(a + b) == RemovePunct(a) + RemovePunct(b)
  {
    if a != [] {
      assert (a + b)[1..] == a[1..] + b;
      RemovePunctAppend(a[1..], b);
    } else {
      assert a + b == b;
    }
  }

  lemma {:induction false} LowerOfPunct(a: string, p: char, b: string)
    requires IsTitlePunct(p)
    ensures Lower(a + [p] + b) == Lower(a) + [p] + Lower(b)
  {
  }

  lemma {:induction false} RemovePunctDrops(x: string, p: char, y: string)
    requires IsTitlePunct(p)
    ensures RemovePunct(x + [p] + y) == RemovePunct(x) + RemovePunct(y)
  {
    RemovePunctAppend(x + [p], y);
    RemovePunctAppend(x, [p]);
    assert RemovePunct([p]) == [];
  }

  /** Deleting one of the punctuation marks does not change the key. */
  lemma NormalizeTitleIgnoresPunct(a: string, p: char, b: string)
    requires IsTitlePunct(p)
    ensures NormalizeTitle(a + [p] + b) == NormalizeTitle(a + b)
  {
    var la, lb := Lower(a), Lower(b);
    LowerOfPunct(a, p, b);
    LowerAppend(a, b);
    RemovePunctDrops(la, p, lb);
    RemovePunctAppend(la, lb);
  }

  /** Characters that differ only in ASCII case give the same key. */
  lemma NormalizeTitleIgnoresCase(s: string, t: string)
    requires |s| == |t|
    requires forall k :: 0 <= k < |s| ==> ToLowerChar(s[k]) == ToLowerChar(t[k])
    ensures NormalizeTitle(s) == NormalizeTitle(t)
  {
    assert Lower(s) == Lower(t);
  }

  ghost predicate AllSpace(s: string) {
    forall k :: 0 <= k < |s| ==> IsSpace(s[k])
  }

  lemma {:induction false} SpaceRunOfSpaces(s: string, i: nat) returns (n: nat)
    requires i <= |s|
    requires forall k :: i <= k < |s| ==> IsSpace(s[k])
    ensures n == |s| - i && SpaceRun(s, i) == n
    decreases |s| - i
  {
    n := |s| - i;
    if i < |s| {
      var m := SpaceRunOfSpaces(s, i + 1);
    }
  }

  lemma {:induction false} SpaceRunAppend(x: string, y: string, i: nat) returns (n: nat)
    requires i <= |x|
    requires forall k :: i <= k < |x| ==> IsSpace(x[k])
    ensures n == |x| - i + SpaceRun(y, 0) && SpaceRun(x + y, i) == n
    decreases |x| - i
  {
    if i < |x| {
      var m := SpaceRunAppend(x, y, i + 1);
      n := m + 1;
    } else {
      n := SpaceRun(y, 0);
      SpaceRunShift(x, y, 0);
    }
  }

  lemma {:induction false} SpaceRunShift(x: string, y: string, j: nat)
    requires j <= |y|
    ensures SpaceRun(x + y, |x| + j) == SpaceRun(y, j)
    decreases |y| - j
  {
    if j < |y| {
      assert (x + y)[|x| + j] == y[j];
      SpaceRunShift(x, y, j + 1);
    }
  }

  lemma {:induction false} SpaceRunStops(x: string, y: string, i: nat)
    requires i <= SpaceRun(x, 0) < |x|
    ensures SpaceRun(x + y, i) == SpaceRun(x, 0) - i
    decreases |x| - i
  {
    if i < SpaceRun(x, 0) {
      SpaceRunStops(x, y, i + 1);
    } else {
      assert (x + y)[i] == x[i];
    }
  }

  /** A run of spaces in front of `y` collapses to one space. */
  lemma CollapseLeadingSpaces(sp: string, y: string)
    requires sp != [] && AllSpace(sp)
    ensures CollapseSpaces(sp + y) == [' '] + CollapseSpaces(y[SpaceRun(y, 0)..])
  {
    var n := SpaceRunAppend(sp, y, 0);
    assert (sp + y)[0] == sp[0];
    assert (sp + y)[n..] == y[SpaceRun(y, 0)..];
  }

  /** Collapsing does not depend on the length of a whitespace run. */
  lemma {:induction false} CollapseSpaceRuns(x: string, sp1: string, sp2: string, y: string, u1: string, u2: string)
    requires sp1 != [] && AllSpace(sp1) && sp2 != [] && AllSpace(sp2)
    requires u1 == sp1 + y && u2 == sp2 + y
    ensures CollapseSpaces(x + u1) == CollapseSpaces(x + u2)
    decreases |x|
  {
    if x == [] {
      assert x + u1 == u1 && x + u2 == u2;
      CollapseLeadingSpaces(sp1, y);
      CollapseLeadingSpaces(sp2, y);
    } else if !IsSpace(x[0]) {
      CollapseSpaceRunsWord(x, sp1, sp2, y, u1, u2);
    } else if SpaceRun(x, 0) == |x| {
      var m := SpaceRunOfSpaces(x, 0);
      assert x + u1 == (x + sp1) + y && x + u2 == (x + sp2) + y;
      CollapseLeadingSpaces(x + sp1, y);
      CollapseLeadingSpaces(x + sp2, y);
    } else {
      CollapseSpaceRunsSpace(x, sp1, sp2, y, u1, u2);
    }
  }

  lemma {:induction false} CollapseSpaceRunsWord(x: string, sp1: string, sp2: string, y: string, u1: string, u2: string)
    requires sp1 != [] && AllSpace(sp1) && sp2 != [] && AllSpace(sp2)
    requires u1 == sp1 + y && u2 == sp2 + y
    requires x != [] && !IsSpace(x[0])
    ensures CollapseSpaces(x + u1) == CollapseSpaces(x + u2)
    decreases |x|, 0
  {
    var t := x[1..];
    assert (x + u1)[0] == x[0] && (x + u2)[0] == x[0];
    assert (x + u1)[1..] == t + u1;
    assert (x + u2)[1..] == t + u2;
    CollapseSpaceRuns(t, sp1, sp2, y, u1, u2);
  }

  lemma {:induction false} CollapseSpaceRunsSpace(x: string, sp1: string, sp2: string, y: string, u1: string, u2: string)
    requires sp1 != [] && AllSpace(sp1) && sp2 != [] && AllSpace(sp2)
    requires u1 == sp1 + y && u2 == sp2 + y
    requires x != [] && IsSpace(x[0]) && SpaceRun(x, 0) < |x|
    ensures CollapseSpaces(x + u1) == CollapseSpaces(x + u2)
    decreases |x|, 0
  {
    var m := SpaceRun(x, 0);
    var t := x[m..];
    SpaceRunStops(x, u1, 0);
    SpaceRunStops(x, u2, 0);
    assert (x + u1)[0] == x[0] && (x + u2)[0] == x[0];
    assert (x + u1)[m..] == t + u1;
    assert (x + u2)[m..] == t + u2;
    CollapseSpaceRuns(t, sp1, sp2, y, u1, u2);
  }

  lemma {:induction false} LowerOfSpaces(a: string, sp: string, b: string)
    requires AllSpace(sp)
    ensures Lower(a + sp + b) == Lower(a) + sp + Lower(b)
  {
  }

  lemma {:induction false} RemovePunctOfSpaces(a: string, sp: string, b: string)
    requires AllSpace(sp)
    ensures RemovePunct(a + sp + b) == RemovePunct(a) + sp + RemovePunct(b)
  {
    RemovePunctAppend(a + sp, b);
    RemovePunctAppend(a, sp);
    RemovePunctOfKey(sp);
  }

  /** Whitespace runs of any length give the same key. */
  lemma NormalizeTitleIgnoresSpaceRuns(a: string, sp1: string, sp2: string, b: string)
    requires sp1 != [] && AllSpace(sp1) && sp2 != [] && AllSpace(sp2)
    ensures NormalizeTitle(a + sp1 + b) == NormalizeTitle(a + sp2 + b)
  {
    var la, lb := Lower(a), Lower(b);
    var x, y := RemovePunct(la), RemovePunct(lb);
    var u1, u2 := sp1 + y, sp2 + y;
    CleanSpaceRun(a, sp1, b, la, lb, x, y, u1);
    CleanSpaceRun(a, sp2, b, la, lb, x, y, u2);
    CollapseSpaceRuns(x, sp1, sp2, y, u1, u2);
  }

  lemma CleanSpaceRun(a: string, sp: string, b: string, la: string, lb: string, x: string, y: string, u: string)
    requires AllSpace(sp)
    requires la == Lower(a) && lb == Lower(b) && x == RemovePunct(la) && y == RemovePunct(lb) && u == sp + y
    ensures RemovePunct(Lower(a + sp + b)) == x + u
  {
    LowerOfSpaces(a, sp, b);
    RemovePunctOfSpaces(la, sp, lb);
  }

  /** "The Cat, in the Hat!" and "the cat in the hat" share their key. */
  lemma CatInTheHatExample(s: string, t: string)
    requires s == "The Cat, in the Hat!" && t == "the cat in the hat"
    ensures NormalizeTitle(s) == NormalizeTitle(t) == t
  {
    var v := "The Cat in the Hat";
    CatInTheHatPunct(s, v);
    CatInTheHatCase(v, t);
    CatInTheHatKey(t);
  }

  lemma CatInTheHatPunct(s: string, v: string)
    requires s == "The Cat, in the Hat!" && v == "The Cat in the Hat"
    ensures NormalizeTitle(s) == NormalizeTitle(v)
  {
    var u := "The Cat, in the Hat";
    CatInTheHatBang(s, u);
    CatInTheHatComma(u, v);
  }

  lemma CatInTheHatBang(s: string, u: string)
    requires s == "The Cat, in the Hat!" && u == "The Cat, in the Hat"
    ensures NormalizeTitle(s) == NormalizeTitle(u)
  {
    assert s == u + ['!'] + [] && u + [] == u;
    NormalizeTitleIgnoresPunct(u, '!', []);
  }

  lemma CatInTheHatComma(u: string, v: string)
    requires u == "The Cat, in the Hat" && v == "The Cat in the Hat"
    ensures NormalizeTitle(u) == NormalizeTitle(v)
  {
    var a, b := "The Cat", " in the Hat";
    assert u == a + [','] + b && v == a + b;
    NormalizeTitleIgnoresPunct(a, ',', b);
  }

  lemma CatInTheHatCase(v: string, t: string)
    requires v == "The Cat in the Hat" && t == "the cat in the hat"
    ensures NormalizeTitle(v) == NormalizeTitle(t)
  {
    assert forall k :: 0 <= k < |v| ==> ToLowerChar(v[k]) == ToLowerChar(t[k]);
    NormalizeTitleIgnoresCase(v, t);
  }

  lemma CatInTheHatKey(t: string)
    requires t == "the cat in the hat"
    ensures NormalizeTitle(t) == t
  {
    assert IsTitleKey(t);
    NormalizeTitleOfKey(t);
  }

  // ---------------------------------------------------------------------
  // Dedup by URI (main.js:676-683)
  // ---------------------------------------------------------------------

  /** One record of the contributor-works listing: its URI and its `label`. */
  datatype WorkRecord = WorkRecord(uri: string, apiLabel: string)

  function UriSet(rs: seq<WorkRecord>): (u: set<string>)
    ensures forall k :: 0 <= k < |rs| ==> rs[k].uri in u
  {
    if rs == [] then {} else UriSet(rs[..|rs| - 1]) + {rs[|rs| - 1].uri}
  }

  lemma {:induction false} UriSetSource(rs: seq<WorkRecord>, u: string) returns (k: nat)
    requires u in UriSet(rs)
    ensures k < |rs| && rs[k].uri == u
  {
    if rs[|rs| - 1].uri == u {
      k := |rs| - 1;
    } else {
      k := UriSetSource(rs[..|rs| - 1], u);
    }
  }

  ghost predicate DistinctUris(rs: seq<WorkRecord>) {
    forall i, j :: 0 <= i < j < |rs| ==> rs[i].uri != rs[j].uri
  }

  /** The records whose URI has not occurred earlier, in order. */
  function FirstByUri(rs: seq<WorkRecord>): (r: seq<WorkRecord>)
    ensures |r| <= |rs|
  {
    if rs == [] then []
    else
      var init := FirstByUri(rs[..|rs| - 1]);
      var last := rs[|rs| - 1];
      if last.uri in UriSet(init) then init else init + [last]
  }

  /** Every URI is still represented, and only once. */
  lemma {:induction false} FirstByUriDistinct(rs: seq<WorkRecord>)
    ensures DistinctUris(FirstByUri(rs))
    ensures UriSet(FirstByUri(rs)) == UriSet(rs)
  {
    if rs != [] {
      var init := rs[..|rs| - 1];
      var last := rs[|rs| - 1];
      var fi := FirstByUri(init);
      FirstByUriDistinct(init);
      if last.uri !in UriSet(fi) {
        assert (fi + [last])[..|fi|] == fi;
      }
    }
  }

  /** One step of the dedup loop. */
  lemma FirstByUriStep(rs: seq<WorkRecord>, i: nat, before: seq<WorkRecord>)
    requires i < |rs| && before == FirstByUri(rs[..i])
    ensures rs[i].uri in UriSet(before) ==> FirstByUri(rs[..i + 1]) == before
    ensures rs[i].uri !in UriSet(before) ==> FirstByUri(rs[..i + 1]) == before + [rs[i]]
  {
    assert rs[..i + 1][..i] == rs[..i];
  }

  /** The loop's `Map` and its key order hold exactly the records kept so far. */
  ghost predicate MapHolds(uriMap: map<string, WorkRecord>, insertionOrder: seq<string>, kept: seq<WorkRecord>) {
    && |insertionOrder| == |kept|
    && (forall k :: 0 <= k < |kept| ==>
         insertionOrder[k] == kept[k].uri && insertionOrder[k] in uriMap && uriMap[insertionOrder[k]] == kept[k])
    && uriMap.Keys == UriSet(kept)
  }

  /** Setting a new URI in the map appends its record. */
  lemma MapHoldsAdd(uriMap: map<string, WorkRecord>, insertionOrder: seq<string>, kept: seq<WorkRecord>,
                    result: WorkRecord)
    requires MapHolds(uriMap, insertionOrder, kept) && result.uri !in uriMap
    ensures MapHolds(uriMap[result.uri := result], insertionOrder + [result.uri], kept + [result])
  {
    assert (kept + [result])[..|kept|] == kept;
  }

  /** The dedup loop: a `Map` keyed by URI that keeps the first record of
      each URI, its keys in insertion order, then `Array.from(map.values())`. */
  method DedupByUri(allResultsRaw: seq<WorkRecord>) returns (allResults: seq<WorkRecord>)
    ensures allResults == FirstByUri(allResultsRaw)
  {
    var uriMap: map<string, WorkRecord> := map[];
    var insertionOrder: seq<string> := [];
    ghost var kept: seq<WorkRecord> := [];
    for i := 0 to |allResultsRaw|
      invariant kept == FirstByUri(allResultsRaw[..i])
      invariant MapHolds(uriMap, insertionOrder, kept)
    {
      var result := allResultsRaw[i];
      FirstByUriStep(allResultsRaw, i, kept);
      if result.uri !in uriMap {
        MapHoldsAdd(uriMap, insertionOrder, kept, result);
        uriMap := uriMap[result.uri := result];
        insertionOrder := insertionOrder + [result.uri];
        kept := kept + [result];
      }
    }
    assert allResultsRaw[..|allResultsRaw|] == allResultsRaw;
    allResults := MapValues(uriMap, insertionOrder);
    assert forall k :: 0 <= k < |kept| ==> allResults[k] == kept[k];
  }

  /** `Array.from(uriMap.values())`: the values in key insertion order. */
  method MapValues(uriMap: map<string, WorkRecord>, insertionOrder: seq<string>) returns (values: seq<WorkRecord>)
    requires forall k :: 0 <= k < |insertionOrder| ==> insertionOrder[k] in uriMap
    ensures |values| == |insertionOrder|
    ensures forall k :: 0 <= k < |values| ==> values[k] == uriMap[insertionOrder[k]]
  {
    values := [];
    for i := 0 to |insertionOrder|
      invariant |values| == i
      invariant forall k :: 0 <= k < i ==> values[k] == uriMap[insertionOrder[k]]
    {
      values := values + [uriMap[insertionOrder[i]]];
    }
  }

  /** `idx` says where each record of `r` sits in `rs`: increasing
      positions, each the first one of its URI. */
  ghost predicate FirstOccurrenceIndices(rs: seq<WorkRecord>, r: seq<WorkRecord>, idx: seq<nat>) {
    && |idx| == |r|
    && (forall k :: 0 <= k < |idx| ==> idx[k] < |rs| && rs[idx[k]] == r[k])
    && (forall k, l :: 0 <= k < l < |idx| ==> idx[k] < idx[l])
    && (forall k, j :: 0 <= k < |idx| && 0 <= j < idx[k] ==> rs[j].uri != rs[idx[k]].uri)
  }

  /** The deduplicated list is a subsequence of the input made of the first
      record of every URI; `idx` says where each record came from. */
  lemma {:induction false} FirstByUriIsFirstOccurrences(rs: seq<WorkRecord>) returns (idx: seq<nat>)
    ensures FirstOccurrenceIndices(rs, FirstByUri(rs), idx)
  {
    if rs == [] {
      idx := [];
    } else {
      var init := rs[..|rs| - 1];
      var last := rs[|rs| - 1];
      var fi := FirstByUri(init);
      var pre := FirstByUriIsFirstOccurrences(init);
      if last.uri in UriSet(fi) {
        idx := pre;
        assert FirstByUri(rs) == fi;
        FirstOccurrencesKeep(rs, init, fi, pre);
      } else {
        FirstByUriDistinct(init);
        idx := pre + [|rs| - 1];
        assert FirstByUri(rs) == fi + [last];
        FirstOccurrencesAdd(rs, init, fi, pre, idx);
      }
    }
  }

  lemma FirstOccurrencesKeep(rs: seq<WorkRecord>, init: seq<WorkRecord>, fi: seq<WorkRecord>, pre: seq<nat>)
    requires rs != [] && init == rs[..|rs| - 1]
    requires FirstOccurrenceIndices(init, fi, pre)
    ensures FirstOccurrenceIndices(rs, fi, pre)
  {
    assert forall j :: 0 <= j < |init| ==> rs[j] == init[j];
  }

  lemma FirstOccurrencesAdd(rs: seq<WorkRecord>, init: seq<WorkRecord>, fi: seq<WorkRecord>, pre: seq<nat>, idx: seq<nat>)
    requires rs != [] && init == rs[..|rs| - 1]
    requires FirstOccurrenceIndices(init, fi, pre)
    requires rs[|rs| - 1].uri !in UriSet(init)
    requires idx == pre + [|rs| - 1]
    ensures FirstOccurrenceIndices(rs, fi + [rs[|rs| - 1]], idx)
  {
    assert forall j :: 0 <= j < |init| ==> rs[j] == init[j];
    forall k, j | 0 <= k < |idx| && 0 <= j < idx[k]
      ensures rs[j].uri != rs[idx[k]].uri
    {
      if k == |pre| {
        assert init[j].uri in UriSet(init);
      }
    }
  }

  // ---------------------------------------------------------------------
  // Work classification (main.js:701-736)
  // ---------------------------------------------------------------------

  const BfTextType := "http://id.loc.gov/ontologies/bibframe/Text"

  /** One of the generic type names `Work`, `Monograph` and `Text`. */
  predicate IsGenericName(name: string) {
    name == "Work" || name == "Monograph" || name == "Text"
  }

  /** A type whose last path segment is a generic name. */
  predicate IsGenericType(t: string) {
    IsGenericName(LastSegment(t))
  }

  /** Index of the first type that is not generic (`@type.find(...)`). */
  function FirstSpecificType(types: seq<string>, from: nat): (r: Option<nat>)
    requires from <= |types|
    ensures r.Some? ==> from <= r.value < |types| && !IsGenericType(types[r.value])
    ensures r.Some? ==> forall j :: from <= j < r.value ==> IsGenericType(types[j])
    ensures r.None? ==> forall j :: from <= j < |types| ==> IsGenericType(types[j])
  {
    FirstWhere(types, t => !IsGenericType(t), from)
  }

  datatype Classification = Classification(isText: bool, isNonText: bool, workType: Option<string>)

  /** The `@type` list of the work's own node, when it has one. */
  function WorkTypes(uri: string, data: Graph): Option<seq<string>> {
    match FindNode(data, Some(uri))
    case Some(Node(_, ManyTypes(names), _)) => Some(names)
    case _ => None
  }

  /** The classification of one work from its fetched graph; None stands for
      a fetch or parse that threw, which counts as text. A work is text when
      its own node's `@type` array holds `bf:Text`, and non-text when that
      array instead has more than one entry; a non-text work's type is the
      last path segment of its first type other than Work, Monograph and
      Text. */
  function Classify(uri: string, bibframeData: Option<Graph>): (c: Classification)
    ensures !(c.isText && c.isNonText)
    ensures c.workType.Some? ==> c.isNonText
    ensures c.workType.Some? ==>
      '/' !in c.workType.value && c.workType.value != "Work" && c.workType.value != "Monograph"
      && c.workType.value != "Text"
    ensures bibframeData.None? ==> c.isText && c.workType.None?
    ensures bibframeData.Some? ==>
      (c.isText <==> WorkTypes(uri, bibframeData.value).Some? && BfTextType in WorkTypes(uri, bibframeData.value).value)
    ensures bibframeData.Some? ==>
      (c.isNonText <==>
        WorkTypes(uri, bibframeData.value).Some? && BfTextType !in WorkTypes(uri, bibframeData.value).value
        && |WorkTypes(uri, bibframeData.value).value| > 1)
  {
    match bibframeData
    case None => Classification(true, false, None)
    case Some(data) =>
      match WorkTypes(uri, data)
      case None => Classification(false, false, None)
      case Some(types) =>
        var isText := BfTextType in types;
        var isNonText := !isText && |types| > 1;
        var specificType := if isNonText then FirstSpecificType(types, 0) else None;
        var workType :=
          if specificType.Some? && Truthy(types[specificType.value])
          then Some(LastSegment(types[specificType.value])) else None;
        Classification(isText, isNonText, workType)
  }

  /** The work type names the first type of the work's node that is not
      generic. */
  lemma ClassifyWorkType(uri: string, data: Graph)
    requires Classify(uri, Some(data)).workType.Some?
    ensures WorkTypes(uri, data).Some?
    ensures FirstSpecificType(WorkTypes(uri, data).value, 0).Some?
    ensures Classify(uri, Some(data)).workType.value
      == LastSegment(WorkTypes(uri, data).value[FirstSpecificType(WorkTypes(uri, data).value, 0).value])
  {
  }

  // ---------------------------------------------------------------------
  // Titles and their frequency table (main.js:763-987)
  // ---------------------------------------------------------------------

  /** A work after classification, as `{...work, isText, isNonText,
      workType, bibframeData}`; `bibframeData` is None when the fetch threw. */
  datatype EnrichedWork = EnrichedWork(record: WorkRecord, kind: Classification, bibframeData: Option<Graph>)

  /** A work after the title pass, with `displayTitle` and `normalizedTitle`. */
  datatype TitledWork = TitledWork(uri: string, displayTitle: string, normalizedTitle: string, isNonText: bool)

  /** The work's title: the initial title, then the extraction cascade. */
  function WorkTitle(w: EnrichedWork, contributorName: string): string {
    TitleExtractor.TitleOf(TitleExtractor.InitialTitle(w.record.apiLabel, w.record.uri, w.bibframeData), contributorName)
  }

  /** Every work's key is the normal form of its title. */
  ghost predicate Consistent(ws: seq<TitledWork>) {
    forall k :: 0 <= k < |ws| ==> ws[k].normalizedTitle == NormalizeTitle(ws[k].displayTitle)
  }

  /** One entry of `titleCounts[normalizedTitle]`: a literal form and how
      often it occurred. The entries of one key are kept in insertion order,
      the order `Object.entries` gives for string keys. */
  datatype FormCount = FormCount(form: string, count: nat)

  type Tally = seq<FormCount>

  type TitleCounts = map<string, Tally>

  function Forms(t: Tally): (f: set<string>)
    ensures forall k :: 0 <= k < |t| ==> t[k].form in f
  {
    if t == [] then {} else {t[0].form} + Forms(t[1..])
  }

  ghost predicate DistinctForms(t: Tally) {
    forall i, j :: 0 <= i < j < |t| ==> t[i].form != t[j].form
  }

  ghost predicate Positive(t: Tally) {
    forall k :: 0 <= k < |t| ==> t[k].count >= 1
  }

  /** The entries of one key: distinct forms, each normalising to the key,
      each counted at least once. */
  ghost predicate TallyOf(t: Tally, key: string) {
    && DistinctForms(t) && Positive(t)
    && (forall f :: f in Forms(t) ==> NormalizeTitle(f) == key)
  }

  ghost predicate WellKeyed(tc: TitleCounts) {
    forall key :: key in tc ==> TallyOf(tc[key], key)
  }

  /** `titleCounts[key][form]++`, creating the entry at the end when the form
      is new. */
  function AddForm(t: Tally, form: string): (r: Tally)
    ensures Forms(r) == Forms(t) + {form}
    ensures Positive(t) ==> Positive(r)
  {
    if t == [] then [FormCount(form, 1)]
    else if t[0].form == form then [FormCount(form, t[0].count + 1)] + t[1..]
    else [t[0]] + AddForm(t[1..], form)
  }

  lemma {:induction false} FormsSource(t: Tally, f: string) returns (k: nat)
    requires f in Forms(t)
    ensures k < |t| && t[k].form == f
  {
    if t[0].form == f {
      k := 0;
    } else {
      k := FormsSource(t[1..], f);
      k := k + 1;
    }
  }

  lemma {:induction false} AddFormDistinct(t: Tally, form: string)
    requires DistinctForms(t)
    ensures DistinctForms(AddForm(t, form))
  {
    if t != [] && t[0].form != form {
      var rest := AddForm(t[1..], form);
      AddFormDistinct(t[1..], form);
      if t[0].form in Forms(t[1..]) {
        var k := FormsSource(t[1..], t[0].form);
        assert false;
      }
      assert forall j :: 0 <= j < |rest| ==> rest[j].form in Forms(rest);
    }
  }

  /** How often `form` was counted in one key's entries. */
  function CountOf(t: Tally, form: string): nat {
    if t == [] then 0 else if t[0].form == form then t[0].count else CountOf(t[1..], form)
  }

  /** The table after counting one more title under `key`. */
  function CountUnder(tc: TitleCounts, key: string, title: string): TitleCounts {
    tc[key := AddForm(if key in tc then tc[key] else [], title)]
  }

  /** The table after counting one more title under its key (main.js:962-971). */
  function CountTitle(tc: TitleCounts, title: string): TitleCounts {
    CountUnder(tc, NormalizeTitle(title), title)
  }

  /** The table after counting titles in order. */
  function CountTitles(titles: seq<string>): TitleCounts {
    if titles == [] then map[] else CountTitle(CountTitles(titles[..|titles| - 1]), titles[|titles| - 1])
  }

  function DisplayTitles(ws: seq<TitledWork>): (titles: seq<string>)
    ensures |titles| == |ws|
    ensures forall k :: 0 <= k < |ws| ==> titles[k] == ws[k].displayTitle
  {
    seq(|ws|, k requires 0 <= k < |ws| => ws[k].displayTitle)
  }

  function Occurrences(titles: seq<string>, form: string): nat {
    if titles == [] then 0
    else Occurrences(titles[..|titles| - 1], form) + (if titles[|titles| - 1] == form then 1 else 0)
  }

  /** The count in the table of a literal form, 0 when it was never seen. */
  function CountIn(tc: TitleCounts, form: string): nat {
    var key := NormalizeTitle(form);
    if key in tc then CountOf(tc[key], form) else 0
  }

  lemma {:induction false} AddFormCount(t: Tally, form: string, f: string)
    ensures CountOf(AddForm(t, form), f) == CountOf(t, f) + (if f == form then 1 else 0)
  {
    if t != [] && t[0].form != form {
      AddFormCount(t[1..], form, f);
    }
  }

  /** Every key of the table holds the entries of its own forms. */
  lemma {:induction false} CountTitlesWellKeyed(titles: seq<string>)
    ensures WellKeyed(CountTitles(titles))
  {
    if titles != [] {
      var init := titles[..|titles| - 1];
      var title := titles[|titles| - 1];
      CountTitlesWellKeyed(init);
      UnderWellKeyed(CountTitles(init), NormalizeTitle(title), title);
    }
  }

  /** Counting a title under its own key keeps the table well keyed. */
  lemma UnderWellKeyed(tc: TitleCounts, k: string, x: string)
    requires WellKeyed(tc) && NormalizeTitle(x) == k
    ensures WellKeyed(CountUnder(tc, k, x))
  {
    var t := if k in tc then tc[k] else [];
    AddFormDistinct(t, x);
    assert TallyOf(AddForm(t, x), k);
  }

  /** The table counts every literal form exactly as often as it occurs. */
  lemma {:induction false} CountTitlesCounts(titles: seq<string>, f: string)
    ensures CountIn(CountTitles(titles), f) == Occurrences(titles, f)
  {
    if titles != [] {
      var init := titles[..|titles| - 1];
      var title := titles[|titles| - 1];
      CountTitlesCounts(init, f);
      UnderCount(CountTitles(init), NormalizeTitle(title), title, NormalizeTitle(f), f);
    }
  }

  /** The count of `f` under `fk` after counting `x` under `k`. */
  lemma UnderCount(tc: TitleCounts, k: string, x: string, fk: string, f: string)
    ensures (if fk in CountUnder(tc, k, x) then CountOf(CountUnder(tc, k, x)[fk], f) else 0)
         == (if fk in tc then CountOf(tc[fk], f) else 0) + (if k == fk && f == x then 1 else 0)
  {
    if k == fk {
      AddFormCount(if k in tc then tc[k] else [], x, f);
    }
  }

  /** `titleCounts[normalizedTitle][title]++`, creating what is missing. */
  method CountWork(titleCounts: TitleCounts, title: string, normalizedTitle: string) returns (tc: TitleCounts)
    ensures tc == CountUnder(titleCounts, normalizedTitle, title)
  {
    tc := titleCounts;
    if normalizedTitle !in tc {
      tc := tc[normalizedTitle := []];
    }
    tc := tc[normalizedTitle := AddForm(tc[normalizedTitle], title)];
  }

  lemma CountTitlesStep(works: seq<TitledWork>, next: TitledWork, before: TitleCounts)
    requires before == CountTitles(DisplayTitles(works))
    ensures CountTitles(DisplayTitles(works + [next])) == CountTitle(before, next.displayTitle)
  {
    var ts := DisplayTitles(works + [next]);
    assert ts[..|works|] == DisplayTitles(works);
  }

  /** The title of one work: the initial title, then the cascade. */
  method WorkTitleOf(work: EnrichedWork, contributorName: string) returns (title: string)
    ensures title == WorkTitle(work, contributorName)
  {
    title := TitleExtractor.InitialTitle(work.record.apiLabel, work.record.uri, work.bibframeData);
    title := TitleExtractor.ExtractTitle(title, contributorName);
  }

  /** The title the first loop gives each work, for one contributor. */
  ghost function TitleFor(contributorName: string): EnrichedWork -> string {
    e => WorkTitle(e, contributorName)
  }

  /** `w` is what the first loop makes of `e`: same URI and kind, the
      title `titleOf` gives it, and its key. */
  ghost predicate TitledAs(w: TitledWork, e: EnrichedWork, titleOf: EnrichedWork -> string) {
    && w.uri == e.record.uri
    && w.isNonText == e.kind.isNonText
    && w.displayTitle == titleOf(e)
    && w.normalizedTitle == NormalizeTitle(w.displayTitle)
  }

  /** `works` are `enriched`, one for one, each `TitledAs` its source. */
  ghost predicate TitledFrom(works: seq<TitledWork>, enriched: seq<EnrichedWork>, titleOf: EnrichedWork -> string) {
    |works| == |enriched| &&
    (works != [] ==>
      TitledFrom(works[..|works| - 1], enriched[..|enriched| - 1], titleOf) &&
      TitledAs(works[|works| - 1], enriched[|enriched| - 1], titleOf))
  }

  /** Each work of a titled sequence is titled as its source. */
  lemma {:induction false} TitledFromAt(works: seq<TitledWork>, enriched: seq<EnrichedWork>,
                                        titleOf: EnrichedWork -> string, k: nat)
    requires TitledFrom(works, enriched, titleOf)
    requires k < |works|
    ensures TitledAs(works[k], enriched[k], titleOf)
  {
    if k < |works| - 1 {
      TitledFromAt(works[..|works| - 1], enriched[..|enriched| - 1], titleOf, k);
    }
  }

  lemma TitledFromConsistent(works: seq<TitledWork>, enriched: seq<EnrichedWork>, titleOf: EnrichedWork -> string)
    requires TitledFrom(works, enriched, titleOf)
    ensures Consistent(works)
  {
    forall k | 0 <= k < |works|
      ensures works[k].normalizedTitle == NormalizeTitle(works[k].displayTitle)
    {
      TitledFromAt(works, enriched, titleOf, k);
    }
  }

  /** A work titled as its source extends a titled sequence. */
  lemma TitledFromAppend(works: seq<TitledWork>, done: seq<EnrichedWork>, next: TitledWork, work: EnrichedWork,
                         titleOf: EnrichedWork -> string)
    requires TitledFrom(works, done, titleOf)
    requires TitledAs(next, work, titleOf)
    ensures TitledFrom(works + [next], done + [work], titleOf)
  {
    assert (works + [next])[..|works|] == works;
    assert (done + [work])[..|done|] == done;
  }

  /** One pass of the first loop: the work's title, its key, and the
      table with the title counted. */
  method TitleWork(work: EnrichedWork, contributorName: string, works: seq<TitledWork>, done: seq<EnrichedWork>,
                   titleCounts: TitleCounts)
    returns (next: TitledWork, tc: TitleCounts)
    requires TitledFrom(works, done, TitleFor(contributorName))
    requires titleCounts == CountTitles(DisplayTitles(works))
    ensures TitledFrom(works + [next], done + [work], TitleFor(contributorName))
    ensures tc == CountTitles(DisplayTitles(works + [next]))
  {
    var title := WorkTitleOf(work, contributorName);
    var normalizedTitle := NormalizeTitle(title);
    next := TitledWork(work.record.uri, title, normalizedTitle, work.kind.isNonText);
    assert TitledAs(next, work, TitleFor(contributorName));
    TitledFromAppend(works, done, next, work, TitleFor(contributorName));
    CountTitlesStep(works, next, titleCounts);
    tc := CountWork(titleCounts, title, normalizedTitle);
  }

  lemma PrefixExtend<T>(s: seq<T>, i: nat)
    requires i < |s|
    ensures s[..i] + [s[i]] == s[..i + 1]
  {
  }

  lemma LastSplit<T>(s: seq<T>)
    requires s != []
    ensures s == s[..|s| - 1] + [s[|s| - 1]]
  {
  }

  lemma PrefixAll<T>(s: seq<T>)
    ensures s[..|s|] == s
  {
  }

  /** The first loop over the enriched works: extract and normalise each
      title, count it under its key, and keep both on the work. */
  method TitleWorks(enrichedResults: seq<EnrichedWork>, contributorName: string)
    returns (works: seq<TitledWork>, titleCounts: TitleCounts)
    ensures TitledFrom(works, enrichedResults, TitleFor(contributorName))
    ensures titleCounts == CountTitles(DisplayTitles(works))
  {
    works := [];
    titleCounts := map[];
    for i := 0 to |enrichedResults|
      invariant TitledFrom(works, enrichedResults[..i], TitleFor(contributorName))
      invariant titleCounts == CountTitles(DisplayTitles(works))
    {
      var next;
      next, titleCounts := TitleWork(enrichedResults[i], contributorName, works, enrichedResults[..i], titleCounts);
      PrefixExtend(enrichedResults, i);
      works := works + [next];
    }
    PrefixAll(enrichedResults);
  }


  // ---------------------------------------------------------------------
  // The most common form of a key (main.js:1002-1013)
  // ---------------------------------------------------------------------

  /** The largest count among a key's entries, 0 when there are none. */
  function MaxCount(t: Tally): nat {
    if t == [] then 0
    else if t[|t| - 1].count > MaxCount(t[..|t| - 1]) then t[|t| - 1].count
    else MaxCount(t[..|t| - 1])
  }

  /** Where the scan over `Object.entries(titleCounts[key])` ends: an entry
      replaces the choice only when its count is strictly above every count
      before it; `fallback` (the work's own title) when none does. */
  function MostCommon(t: Tally, fallback: string): string {
    if t == [] then fallback
    else if t[|t| - 1].count > MaxCount(t[..|t| - 1]) then t[|t| - 1].form
    else MostCommon(t[..|t| - 1], fallback)
  }

  lemma PrefixOfPrefix<T>(s: seq<T>, i: nat)
    requires i < |s|
    ensures s[..i + 1][..i] == s[..i]
    ensures s[..i + 1][i] == s[i]
  {
  }

  /** The `maxCount` scan of main.js:1004-1012. */
  method MostCommonForm(entries: Tally, fallback: string) returns (mostCommonForm: string)
    ensures mostCommonForm == MostCommon(entries, fallback)
  {
    mostCommonForm := fallback;
    var maxCount := 0;
    for i := 0 to |entries|
      invariant maxCount == MaxCount(entries[..i])
      invariant mostCommonForm == MostCommon(entries[..i], fallback)
    {
      PrefixOfPrefix(entries, i);
      var FormCount(form, count) := entries[i];
      if count > maxCount {
        maxCount := count;
        mostCommonForm := form;
      }
    }
    PrefixAll(entries);
  }

  /** No entry counts more than `MaxCount`. */
  lemma {:induction false} MaxCountBounds(t: Tally, k: nat)
    requires k < |t|
    ensures t[k].count <= MaxCount(t)
  {
    if k < |t| - 1 {
      MaxCountBounds(t[..|t| - 1], k);
    }
  }

  /** Over entries counted at least once, the chosen form is the first entry
      with the largest count: every entry before it counts strictly less,
      and none counts more. */
  lemma {:induction false} MostCommonIsFirstMaximum(t: Tally, fallback: string) returns (k: nat)
    requires t != [] && Positive(t)
    ensures k < |t| && MostCommon(t, fallback) == t[k].form
    ensures t[k].count == MaxCount(t)
    ensures forall j :: 0 <= j < |t| ==> t[j].count <= t[k].count
    ensures forall j :: 0 <= j < k ==> t[j].count < t[k].count
  {
    var init := t[..|t| - 1];
    if t[|t| - 1].count > MaxCount(init) {
      k := |t| - 1;
      forall j | 0 <= j < k
        ensures t[j].count < t[k].count
      {
        MaxCountBounds(init, j);
      }
    } else {
      assert init != [];
      k := MostCommonIsFirstMaximum(init, fallback);
    }
    forall j | 0 <= j < |t|
      ensures t[j].count <= t[k].count
    {
      MaxCountBounds(t, j);
    }
  }

  /** The choice is one of the entries' forms or the fallback. */
  lemma {:induction false} MostCommonChoice(t: Tally, fallback: string)
    ensures MostCommon(t, fallback) in Forms(t) || MostCommon(t, fallback) == fallback
  {
    if t != [] && t[|t| - 1].count <= MaxCount(t[..|t| - 1]) {
      MostCommonChoice(t[..|t| - 1], fallback);
      FormsOfPrefix(t);
    }
  }

  lemma FormsOfPrefix(t: Tally)
    requires t != []
    ensures Forms(t[..|t| - 1]) <= Forms(t)
  {
    forall f | f in Forms(t[..|t| - 1])
      ensures f in Forms(t)
    {
      var k := FormsSource(t[..|t| - 1], f);
      assert t[k].form == f;
    }
  }

  /** With distinct forms, an entry's count is the count of its form. */
  lemma {:induction false} CountOfEntry(t: Tally, k: nat)
    requires DistinctForms(t) && k < |t|
    ensures CountOf(t, t[k].form) == t[k].count
  {
    if k > 0 {
      CountOfEntry(t[1..], k - 1);
    }
  }

  /** No form is counted more than `MaxCount`. */
  lemma {:induction false} CountOfAtMostMax(t: Tally, f: string)
    ensures CountOf(t, f) <= MaxCount(t)
  {
    if t != [] && t[0].form != f {
      CountOfAtMostMax(t[1..], f);
      MaxCountOfTail(t);
    } else if t != [] {
      MaxCountBounds(t, 0);
    }
  }

  lemma {:induction false} MaxCountOfTail(t: Tally)
    requires t != []
    ensures MaxCount(t[1..]) <= MaxCount(t)
  {
    var r := t[1..];
    if r != [] {
      var k := MaxCountWitness(r);
      assert r[k] == t[k + 1];
      MaxCountBounds(t, k + 1);
    }
  }

  lemma {:induction false} MaxCountWitness(t: Tally) returns (k: nat)
    requires t != []
    ensures k < |t| && t[k].count == MaxCount(t)
  {
    var init := t[..|t| - 1];
    if t[|t| - 1].count > MaxCount(init) || init == [] {
      k := |t| - 1;
    } else {
      k := MaxCountWitness(init);
    }
  }


  // ---------------------------------------------------------------------
  // Grouping by key, one partition per kind (main.js:990-1023)
  // ---------------------------------------------------------------------

  /** `{displayTitle, works}` */
  datatype Group = Group(displayTitle: string, works: seq<TitledWork>)

  /** `textWorks` or `nonTextWorks`: the keys in the order they were first
      added, and the group under each. */
  datatype Groups = Groups(keys: seq<string>, byKey: map<string, Group>)

  /** What the second loop has built so far: the URIs seen and both
      partitions. */
  datatype Grouping = Grouping(seen: set<string>, text: Groups, nonText: Groups)

  const NoGroups := Groups([], map[])

  /** The display form chosen for a work: the most common form of its key,
      starting from the work's own title. */
  function DisplayFor(titleCounts: TitleCounts, w: TitledWork): string {
    if w.normalizedTitle in titleCounts then MostCommon(titleCounts[w.normalizedTitle], w.displayTitle)
    else w.displayTitle
  }

  /** Push `w` onto the group of its key, creating the group with `display`
      as its title when the key is new. */
  function AddToGroups(g: Groups, w: TitledWork, display: string): Groups {
    var key := w.normalizedTitle;
    if key in g.byKey then Groups(g.keys, g.byKey[key := g.byKey[key].(works := g.byKey[key].works + [w])])
    else Groups(g.keys + [key], g.byKey[key := Group(display, [w])])
  }

  /** One pass of the second loop: a URI seen before is skipped, otherwise
      the work goes to the partition of its kind. */
  function GroupWork(st: Grouping, w: TitledWork, titleCounts: TitleCounts): Grouping {
    if w.uri in st.seen then st
    else if w.isNonText
    then Grouping(st.seen + {w.uri}, st.text, AddToGroups(st.nonText, w, DisplayFor(titleCounts, w)))
    else Grouping(st.seen + {w.uri}, AddToGroups(st.text, w, DisplayFor(titleCounts, w)), st.nonText)
  }

  /** The second loop, over `works` in order. */
  function GroupAll(works: seq<TitledWork>, titleCounts: TitleCounts): Grouping {
    if works == [] then Grouping({}, NoGroups, NoGroups)
    else GroupWork(GroupAll(works[..|works| - 1], titleCounts), works[|works| - 1], titleCounts)
  }

  /** `targetGroup[normalizedTitle]` created when missing, then
      `.works.push(work)`. */
  method PushWork(targetGroup: Groups, normalizedTitle: string, mostCommonForm: string, work: TitledWork)
    returns (g: Groups)
    requires normalizedTitle == work.normalizedTitle
    ensures g == AddToGroups(targetGroup, work, mostCommonForm)
  {
    g := targetGroup;
    if normalizedTitle !in g.byKey {
      g := Groups(g.keys + [normalizedTitle], g.byKey[normalizedTitle := Group(mostCommonForm, [])]);
    }
    var group := g.byKey[normalizedTitle];
    g := g.(byKey := g.byKey[normalizedTitle := group.(works := group.works + [work])]);
    if normalizedTitle !in targetGroup.byKey {
      assert [] + [work] == [work];
      assert g.byKey == targetGroup.byKey[normalizedTitle := Group(mostCommonForm, [work])];
    }
  }

  /** The second loop of main.js:990-1023 over the titled works. */
  method GroupWorks(works: seq<TitledWork>, titleCounts: TitleCounts)
    returns (textWorks: Groups, nonTextWorks: Groups)
    ensures textWorks == GroupAll(works, titleCounts).text
    ensures nonTextWorks == GroupAll(works, titleCounts).nonText
  {
    var seenUris: set<string> := {};
    textWorks, nonTextWorks := NoGroups, NoGroups;
    for i := 0 to |works|
      invariant Grouping(seenUris, textWorks, nonTextWorks) == GroupAll(works[..i], titleCounts)
    {
      var work := works[i];
      PrefixOfPrefix(works, i);
      if work.uri !in seenUris {
        seenUris := seenUris + {work.uri};
        var normalizedTitle := work.normalizedTitle;
        var mostCommonForm := work.displayTitle;
        if normalizedTitle in titleCounts {
          mostCommonForm := MostCommonForm(titleCounts[normalizedTitle], mostCommonForm);
        }
        if work.isNonText {
          nonTextWorks := PushWork(nonTextWorks, normalizedTitle, mostCommonForm, work);
        } else {
          textWorks := PushWork(textWorks, normalizedTitle, mostCommonForm, work);
        }
      }
    }
    PrefixAll(works);
  }


  /** The URIs of a list of works. */
  function WorkUris(ws: seq<TitledWork>): set<string> {
    if ws == [] then {} else WorkUris(ws[..|ws| - 1]) + {ws[|ws| - 1].uri}
  }

  /** The partition a work of the given kind goes to. */
  function Partition(st: Grouping, nonText: bool): Groups {
    if nonText then st.nonText else st.text
  }

  ghost predicate DistinctKeys(keys: seq<string>) {
    forall i, j :: 0 <= i < j < |keys| ==> keys[i] != keys[j]
  }

  /** Each key listed once, and exactly the listed keys own a group. */
  ghost predicate Keyed(g: Groups) {
    DistinctKeys(g.keys) && forall key :: key in g.byKey <==> key in g.keys
  }

  /** A partition as the loop keeps it: each key listed once and owning a
      group, no group empty, and every member of the partition's kind and
      filed under its own key. */
  ghost predicate WellGrouped(g: Groups, nonText: bool) {
    && Keyed(g)
    && (forall key :: key in g.byKey ==> g.byKey[key].works != [])
    && (forall key, w :: key in g.byKey && w in g.byKey[key].works ==>
          w.normalizedTitle == key && w.isNonText == nonText)
  }

  lemma AddToGroupsKeyed(g: Groups, w: TitledWork, display: string)
    requires Keyed(g)
    ensures Keyed(AddToGroups(g, w, display))
  {
    var key := w.normalizedTitle;
    if key !in g.byKey {
      var keys := g.keys + [key];
      forall i, j | 0 <= i < j < |keys|
        ensures keys[i] != keys[j]
      {
        if j == |g.keys| {
          assert keys[i] == g.keys[i];
        }
      }
    }
  }

  lemma AddToGroupsFiled(g: Groups, w: TitledWork, display: string, nonText: bool)
    requires forall key, v :: key in g.byKey && v in g.byKey[key].works ==>
      v.normalizedTitle == key && v.isNonText == nonText
    requires w.isNonText == nonText
    ensures forall key, v :: key in AddToGroups(g, w, display).byKey && v in AddToGroups(g, w, display).byKey[key].works ==>
      v.normalizedTitle == key && v.isNonText == nonText
  {
  }

  lemma AddToGroupsWellGrouped(g: Groups, w: TitledWork, display: string, nonText: bool)
    requires WellGrouped(g, nonText) && w.isNonText == nonText
    ensures WellGrouped(AddToGroups(g, w, display), nonText)
  {
    AddToGroupsKeyed(g, w, display);
    AddToGroupsFiled(g, w, display, nonText);
  }

  /** Both partitions stay well formed, and `seenUris` holds exactly the URIs
      of the works visited. */
  lemma {:induction false} GroupAllWellGrouped(ws: seq<TitledWork>, titleCounts: TitleCounts)
    ensures WellGrouped(GroupAll(ws, titleCounts).text, false)
    ensures WellGrouped(GroupAll(ws, titleCounts).nonText, true)
    ensures GroupAll(ws, titleCounts).seen == WorkUris(ws)
  {
    if ws != [] {
      var init := ws[..|ws| - 1];
      var w := ws[|ws| - 1];
      GroupAllWellGrouped(init, titleCounts);
      var st := GroupAll(init, titleCounts);
      if w.uri !in st.seen {
        AddToGroupsWellGrouped(Partition(st, w.isNonText), w, DisplayFor(titleCounts, w), w.isNonText);
      }
    }
  }


  /** The URIs of a group's works, with multiplicity. */
  function UriBag(ws: seq<TitledWork>): (b: multiset<string>)
    ensures |b| == |ws|
  {
    if ws == [] then multiset{} else UriBag(ws[..|ws| - 1]) + multiset{ws[|ws| - 1].uri}
  }

  /** The URIs filed under the given keys. */
  function MembersOver(keys: seq<string>, byKey: map<string, Group>): multiset<string> {
    if keys == [] then multiset{}
    else
      MembersOver(keys[..|keys| - 1], byKey)
      + (if keys[|keys| - 1] in byKey then UriBag(byKey[keys[|keys| - 1]].works) else multiset{})
  }

  /** Every URI in a partition, once per work filed. */
  function MemberUris(g: Groups): multiset<string> {
    MembersOver(g.keys, g.byKey)
  }

  /** The number of works in the groups under the given keys. */
  function SizeOver(keys: seq<string>, byKey: map<string, Group>): nat {
    if keys == [] then 0
    else
      SizeOver(keys[..|keys| - 1], byKey)
      + (if keys[|keys| - 1] in byKey then |byKey[keys[|keys| - 1]].works| else 0)
  }

  /** The sum of the group sizes of a partition. */
  function GroupSizes(g: Groups): nat {
    SizeOver(g.keys, g.byKey)
  }

  lemma {:induction false} SizeOverMembers(keys: seq<string>, byKey: map<string, Group>)
    ensures |MembersOver(keys, byKey)| == SizeOver(keys, byKey)
  {
    if keys != [] {
      SizeOverMembers(keys[..|keys| - 1], byKey);
    }
  }

  lemma {:induction false} MembersOverUnchanged(keys: seq<string>, byKey: map<string, Group>, key: string, group: Group)
    requires key !in keys
    ensures MembersOver(keys, byKey[key := group]) == MembersOver(keys, byKey)
  {
    if keys != [] {
      MembersOverUnchanged(keys[..|keys| - 1], byKey, key, group);
    }
  }

  lemma UriBagPush(ws: seq<TitledWork>, w: TitledWork)
    ensures UriBag(ws + [w]) == UriBag(ws) + multiset{w.uri}
  {
    assert (ws + [w])[..|ws|] == ws;
  }

  lemma {:induction false} MembersOverGrow(keys: seq<string>, byKey: map<string, Group>, key: string, w: TitledWork)
    requires key in byKey && key in keys && DistinctKeys(keys)
    ensures MembersOver(keys, byKey[key := byKey[key].(works := byKey[key].works + [w])])
      == MembersOver(keys, byKey) + multiset{w.uri}
  {
    var init := keys[..|keys| - 1];
    var grown := byKey[key := byKey[key].(works := byKey[key].works + [w])];
    if keys[|keys| - 1] == key {
      assert key !in init;
      MembersOverUnchanged(init, byKey, key, grown[key]);
      UriBagPush(byKey[key].works, w);
    } else {
      assert key in init;
      MembersOverGrow(init, byKey, key, w);
    }
  }

  lemma AddToGroupsMembers(g: Groups, w: TitledWork, display: string)
    requires Keyed(g)
    ensures MemberUris(AddToGroups(g, w, display)) == MemberUris(g) + multiset{w.uri}
  {
    var key := w.normalizedTitle;
    if key in g.byKey {
      MembersOverGrow(g.keys, g.byKey, key, w);
    } else {
      var keys := g.keys + [key];
      assert keys[..|g.keys|] == g.keys;
      MembersOverUnchanged(g.keys, g.byKey, key, Group(display, [w]));
      assert UriBag([w]) == multiset{w.uri} by {
        assert [w][..0] == [];
      }
    }
  }

  lemma BagOfSetAdd<T>(s: set<T>, x: T)
    requires x !in s
    ensures multiset(s + {x}) == multiset(s) + multiset{x}
  {
  }

  /** Both partitions together file each seen URI exactly once. */
  ghost predicate FilesSeen(st: Grouping) {
    MemberUris(st.text) + MemberUris(st.nonText) == multiset(st.seen)
  }

  lemma GroupWorkMembers(st: Grouping, w: TitledWork, titleCounts: TitleCounts)
    requires Keyed(st.text) && Keyed(st.nonText)
    requires FilesSeen(st)
    ensures FilesSeen(GroupWork(st, w, titleCounts))
  {
    if w.uri !in st.seen {
      var display := DisplayFor(titleCounts, w);
      BagOfSetAdd(st.seen, w.uri);
      if w.isNonText {
        AddToGroupsMembers(st.nonText, w, display);
      } else {
        AddToGroupsMembers(st.text, w, display);
      }
    }
  }

  /** Each URI seen is filed exactly once across the two partitions, and
      no other URI is filed. */
  lemma {:induction false} GroupAllMembers(ws: seq<TitledWork>, titleCounts: TitleCounts)
    ensures FilesSeen(GroupAll(ws, titleCounts))
  {
    if ws != [] {
      var init := ws[..|ws| - 1];
      GroupAllMembers(init, titleCounts);
      GroupAllWellGrouped(init, titleCounts);
      GroupWorkMembers(GroupAll(init, titleCounts), ws[|ws| - 1], titleCounts);
    }
  }

  /** The group sizes of both partitions add up to the number of distinct
      URIs among the works. */
  lemma GroupSizesSum(ws: seq<TitledWork>, titleCounts: TitleCounts)
    ensures GroupSizes(GroupAll(ws, titleCounts).text) + GroupSizes(GroupAll(ws, titleCounts).nonText)
      == |WorkUris(ws)|
  {
    var st := GroupAll(ws, titleCounts);
    GroupAllMembers(ws, titleCounts);
    GroupAllWellGrouped(ws, titleCounts);
    SizeOverMembers(st.text.keys, st.text.byKey);
    SizeOverMembers(st.nonText.keys, st.nonText.byKey);
    assert |multiset(st.seen)| == |st.seen|;
  }


  /** `w` is filed under its own key in `g`. */
  ghost predicate FiledIn(g: Groups, w: TitledWork) {
    w.normalizedTitle in g.byKey && w in g.byKey[w.normalizedTitle].works
  }

  /** Pushing a work files it and keeps every work already filed. */
  lemma AddToGroupsKeeps(g: Groups, w: TitledWork, display: string, v: TitledWork)
    requires FiledIn(g, v) || v == w
    ensures FiledIn(AddToGroups(g, w, display), v)
  {
  }

  lemma GroupWorkKeeps(st: Grouping, w: TitledWork, titleCounts: TitleCounts, v: TitledWork)
    requires FiledIn(Partition(st, v.isNonText), v)
    ensures FiledIn(Partition(GroupWork(st, w, titleCounts), v.isNonText), v)
  {
    if w.uri !in st.seen && w.isNonText == v.isNonText {
      AddToGroupsKeeps(Partition(st, v.isNonText), w, DisplayFor(titleCounts, w), v);
    }
  }

  /** The first work with a given URI ends up in the partition of its kind,
      under its own key. */
  lemma {:induction false} GroupAllFiles(ws: seq<TitledWork>, titleCounts: TitleCounts, i: nat)
    requires i < |ws| && ws[i].uri !in WorkUris(ws[..i])
    ensures FiledIn(Partition(GroupAll(ws, titleCounts), ws[i].isNonText), ws[i])
  {
    var init := ws[..|ws| - 1];
    if i == |ws| - 1 {
      GroupAllWellGrouped(init, titleCounts);
      AddToGroupsKeeps(Partition(GroupAll(init, titleCounts), ws[i].isNonText), ws[i],
        DisplayFor(titleCounts, ws[i]), ws[i]);
    } else {
      assert init[..i] == ws[..i] && init[i] == ws[i];
      GroupAllFiles(init, titleCounts, i);
      GroupWorkKeeps(GroupAll(init, titleCounts), ws[|ws| - 1], titleCounts, ws[i]);
    }
  }


  /** Every work lands in exactly one group: the first work with a given URI
      is filed under its key in the partition of its kind, and its URI is
      filed once across both partitions. */
  lemma WorkFiledOnce(ws: seq<TitledWork>, titleCounts: TitleCounts, i: nat)
    requires i < |ws| && ws[i].uri !in WorkUris(ws[..i])
    ensures FiledIn(Partition(GroupAll(ws, titleCounts), ws[i].isNonText), ws[i])
    ensures (MemberUris(GroupAll(ws, titleCounts).text) + MemberUris(GroupAll(ws, titleCounts).nonText))[ws[i].uri] == 1
  {
    GroupAllFiles(ws, titleCounts, i);
    GroupAllMembers(ws, titleCounts);
    GroupAllWellGrouped(ws, titleCounts);
    WorkUrisHas(ws, i);
  }

  lemma {:induction false} WorkUrisHas(ws: seq<TitledWork>, i: nat)
    requires i < |ws|
    ensures ws[i].uri in WorkUris(ws)
  {
    if i < |ws| - 1 {
      WorkUrisHas(ws[..|ws| - 1], i);
    }
  }

  /** Each group took its title from the counts when its first work joined,
      and holds only works from the list. */
  ghost predicate TitledByFirst(g: Groups, ws: seq<TitledWork>, titleCounts: TitleCounts) {
    && (forall key :: key in g.byKey && g.byKey[key].works != [] ==>
          g.byKey[key].displayTitle == DisplayFor(titleCounts, g.byKey[key].works[0]))
    && (forall key, v :: key in g.byKey && v in g.byKey[key].works ==> v in ws)
  }

  lemma AddToGroupsTitled(g: Groups, ws: seq<TitledWork>, w: TitledWork, titleCounts: TitleCounts)
    requires TitledByFirst(g, ws, titleCounts) && w in ws
    requires forall key :: key in g.byKey ==> g.byKey[key].works != []
    ensures TitledByFirst(AddToGroups(g, w, DisplayFor(titleCounts, w)), ws, titleCounts)
  {
    var key := w.normalizedTitle;
    if key in g.byKey && g.byKey[key].works != [] {
      assert (g.byKey[key].works + [w])[0] == g.byKey[key].works[0];
    }
  }

  lemma InPrefix<T>(s: seq<T>, n: nat, x: T)
    requires n <= |s| && x in s[..n]
    ensures x in s
  {
    var p := s[..n];
    var k :| 0 <= k < |p| && p[k] == x;
    assert s[k] == x;
  }

  lemma TitledByFirstWiden(g: Groups, ws: seq<TitledWork>, titleCounts: TitleCounts)
    requires ws != []
    requires TitledByFirst(g, ws[..|ws| - 1], titleCounts)
    ensures TitledByFirst(g, ws, titleCounts)
  {
    forall key, v | key in g.byKey && v in g.byKey[key].works
      ensures v in ws
    {
      InPrefix(ws, |ws| - 1, v);
    }
  }

  lemma {:induction false} GroupAllTitled(ws: seq<TitledWork>, titleCounts: TitleCounts)
    ensures TitledByFirst(GroupAll(ws, titleCounts).text, ws, titleCounts)
    ensures TitledByFirst(GroupAll(ws, titleCounts).nonText, ws, titleCounts)
  {
    if ws != [] {
      var init := ws[..|ws| - 1];
      var w := ws[|ws| - 1];
      var st := GroupAll(init, titleCounts);
      GroupAllTitled(init, titleCounts);
      GroupAllWellGrouped(init, titleCounts);
      TitledByFirstWiden(st.text, ws, titleCounts);
      TitledByFirstWiden(st.nonText, ws, titleCounts);
      if w.uri !in st.seen {
        AddToGroupsTitled(Partition(st, w.isNonText), ws, w, titleCounts);
      }
    }
  }


  lemma {:induction false} OccurrencesOfMember(titles: seq<string>, t: string)
    requires t in titles
    ensures Occurrences(titles, t) >= 1
  {
    if titles[|titles| - 1] != t {
      InPrefixOrLast(titles, t);
      OccurrencesOfMember(titles[..|titles| - 1], t);
    }
  }

  lemma InPrefixOrLast<T>(s: seq<T>, x: T)
    requires x in s && s[|s| - 1] != x
    ensures x in s[..|s| - 1]
  {
    var k :| 0 <= k < |s| && s[k] == x;
    assert s[..|s| - 1][k] == x;
  }

  /** The form chosen for a work whose title was counted normalises to the
      work's key and occurs at least as often as any form with that key. */
  lemma DisplayForIsMostCommon(titles: seq<string>, titleCounts: TitleCounts, w: TitledWork, f: string)
    requires titleCounts == CountTitles(titles)
    requires w.displayTitle in titles && w.normalizedTitle == NormalizeTitle(w.displayTitle)
    ensures NormalizeTitle(DisplayFor(titleCounts, w)) == w.normalizedTitle
    ensures NormalizeTitle(f) == w.normalizedTitle ==>
      Occurrences(titles, f) <= Occurrences(titles, DisplayFor(titleCounts, w))
  {
    var key := w.normalizedTitle;
    CountTitlesCounts(titles, w.displayTitle);
    OccurrencesOfMember(titles, w.displayTitle);
    assert key in titleCounts;
    var t := titleCounts[key];
    CountTitlesWellKeyed(titles);
    assert TallyOf(t, key);
    var k := MostCommonIsFirstMaximum(t, w.displayTitle);
    var display := t[k].form;
    assert DisplayFor(titleCounts, w) == display;
    assert NormalizeTitle(display) == key;
    CountOfEntry(t, k);
    CountTitlesCounts(titles, display);
    if NormalizeTitle(f) == key {
      CountTitlesCounts(titles, f);
      CountOfAtMostMax(t, f);
    }
  }


  /** A group's title is the one chosen for its first work, a work of the
      list filed under the group's key. */
  lemma GroupFirst(ws: seq<TitledWork>, titleCounts: TitleCounts, nonText: bool, key: string) returns (k: nat)
    requires key in Partition(GroupAll(ws, titleCounts), nonText).byKey
    ensures k < |ws| && ws[k].normalizedTitle == key
    ensures Partition(GroupAll(ws, titleCounts), nonText).byKey[key].displayTitle == DisplayFor(titleCounts, ws[k])
  {
    var g := Partition(GroupAll(ws, titleCounts), nonText);
    GroupAllWellGrouped(ws, titleCounts);
    GroupAllTitled(ws, titleCounts);
    var first := g.byKey[key].works[0];
    assert first in g.byKey[key].works;
    k := IndexIn(ws, first);
  }

  /** Each group's title is a form with the highest count under the group's
      key, so it normalises to the key. The counts are over the titles of
      all works, text and non-text alike. */
  lemma GroupTitleIsMostCommon(ws: seq<TitledWork>, titleCounts: TitleCounts, nonText: bool, key: string, f: string)
    requires Consistent(ws)
    requires titleCounts == CountTitles(DisplayTitles(ws))
    requires key in Partition(GroupAll(ws, titleCounts), nonText).byKey
    ensures NormalizeTitle(Partition(GroupAll(ws, titleCounts), nonText).byKey[key].displayTitle) == key
    ensures NormalizeTitle(f) == key ==>
      Occurrences(DisplayTitles(ws), f)
      <= Occurrences(DisplayTitles(ws), Partition(GroupAll(ws, titleCounts), nonText).byKey[key].displayTitle)
  {
    var k := GroupFirst(ws, titleCounts, nonText, key);
    var titles := DisplayTitles(ws);
    assert titles[k] == ws[k].displayTitle;
    DisplayForIsMostCommon(titles, titleCounts, ws[k], f);
  }

  // ---------------------------------------------------------------------
  // Ties: the form seen first wins
  // ---------------------------------------------------------------------

  /** `a` occurred no later than `b`: every prefix of `titles` holding `b`
      holds `a`. */
  ghost predicate SeenBefore(titles: seq<string>, a: string, b: string) {
    forall n :: 0 <= n <= |titles| && b in titles[..n] ==> a in titles[..n]
  }

  /** The forms under a key are exactly the titles counted with that key. */
  lemma {:induction false} TallyForms(titles: seq<string>, key: string, f: string)
    ensures (f in titles && NormalizeTitle(f) == key)
        <==> (key in CountTitles(titles) && f in Forms(CountTitles(titles)[key]))
  {
    if titles != [] {
      var init := titles[..|titles| - 1];
      var x := titles[|titles| - 1];
      assert titles == init + [x];
      TallyForms(init, key, f);
      UnderForms(CountTitles(init), NormalizeTitle(x), x, key, f);
    }
  }

  /** The forms under `key` after counting `x` under `k`. */
  lemma UnderForms(tc: TitleCounts, k: string, x: string, key: string, f: string)
    ensures (key in CountUnder(tc, k, x) && f in Forms(CountUnder(tc, k, x)[key]))
        <==> ((key in tc && f in Forms(tc[key])) || (k == key && f == x))
  {
  }

  lemma {:induction false} TallyNonEmpty(titles: seq<string>, key: string)
    requires key in CountTitles(titles)
    ensures CountTitles(titles)[key] != []
  {
    var init := titles[..|titles| - 1];
    var x := titles[|titles| - 1];
    if NormalizeTitle(x) != key {
      TallyNonEmpty(init, key);
    }
  }

  /** Counting a form again keeps the order of the forms; counting a new one
      appends it. */
  lemma {:induction false} AddFormShape(t: Tally, form: string)
    ensures form in Forms(t) ==>
      |AddForm(t, form)| == |t| && forall k :: 0 <= k < |t| ==> AddForm(t, form)[k].form == t[k].form
    ensures form !in Forms(t) ==> AddForm(t, form) == t + [FormCount(form, 1)]
  {
    if t != [] && t[0].form != form {
      AddFormShape(t[1..], form);
    }
  }

  lemma SeenBeforeGrow(init: seq<string>, x: string, a: string, b: string)
    requires a in init + [x]
    requires b in init ==> SeenBefore(init, a, b)
    ensures SeenBefore(init + [x], a, b)
  {
    var titles := init + [x];
    forall n | 0 <= n <= |titles| && b in titles[..n]
      ensures a in titles[..n]
    {
      if n <= |init| {
        assert titles[..n] == init[..n];
        InPrefix(init, n, b);
      } else {
        assert titles[..n] == titles;
      }
    }
  }

  /** Each form of `t` was seen no later than every form after it. */
  ghost predicate InOrder(titles: seq<string>, t: Tally) {
    forall i, j :: 0 <= i < j < |t| ==> SeenBefore(titles, t[i].form, t[j].form)
  }

  ghost predicate FormsIn(titles: seq<string>, t: Tally) {
    forall f :: f in Forms(t) ==> f in titles
  }

  lemma KeepOrder(init: seq<string>, x: string, t: Tally)
    requires InOrder(init, t) && FormsIn(init, t)
    ensures InOrder(init + [x], t)
  {
    forall i, j | 0 <= i < j < |t|
      ensures SeenBefore(init + [x], t[i].form, t[j].form)
    {
      SeenBeforeGrow(init, x, t[i].form, t[j].form);
    }
  }

  lemma AddOrder(init: seq<string>, x: string, t: Tally)
    requires InOrder(init, t) && FormsIn(init, t)
    requires x !in Forms(t) ==> x !in init
    ensures InOrder(init + [x], AddForm(t, x))
  {
    var t' := AddForm(t, x);
    AddFormShape(t, x);
    forall i, j | 0 <= i < j < |t'|
      ensures SeenBefore(init + [x], t'[i].form, t'[j].form)
    {
      if j < |t| {
        assert t'[i].form == t[i].form && t'[j].form == t[j].form;
      } else {
        assert t'[j].form == x;
      }
      assert t'[i].form in init + [x];
      SeenBeforeGrow(init, x, t'[i].form, t'[j].form);
    }
  }

  lemma CountedFormsIn(titles: seq<string>, key: string)
    requires key in CountTitles(titles)
    ensures FormsIn(titles, CountTitles(titles)[key])
  {
    forall f | f in Forms(CountTitles(titles)[key])
      ensures f in titles
    {
      TallyForms(titles, key, f);
    }
  }

  /** The forms under a key are kept in the order they were first seen. */
  lemma {:induction false} TallyFirstSeen(titles: seq<string>, key: string)
    requires key in CountTitles(titles)
    ensures InOrder(titles, CountTitles(titles)[key])
  {
    var init := titles[..|titles| - 1];
    var x := titles[|titles| - 1];
    LastSplit(titles);
    var tc := CountTitles(init);
    if NormalizeTitle(x) != key {
      TallyFirstSeen(init, key);
      CountedFormsIn(init, key);
      KeepOrder(init, x, tc[key]);
    } else {
      var t := if key in tc then tc[key] else [];
      if key in tc {
        TallyFirstSeen(init, key);
        CountedFormsIn(init, key);
      }
      TallyForms(init, key, x);
      AddOrder(init, x, t);
    }
  }

  lemma {:induction false} OccurrencesPositive(titles: seq<string>, t: string)
    requires Occurrences(titles, t) >= 1
    ensures t in titles
  {
    if titles[|titles| - 1] != t {
      OccurrencesPositive(titles[..|titles| - 1], t);
      InPrefix(titles, |titles| - 1, t);
    }
  }

  /** Of two forms in a key's entries counted equally often, the chosen one
      comes first, so it was seen first. */
  lemma MostCommonInOrder(titles: seq<string>, t: Tally, fallback: string, f: string)
    requires t != [] && DistinctForms(t) && Positive(t) && InOrder(titles, t)
    requires f in Forms(t) && f != MostCommon(t, fallback)
    requires CountOf(t, f) == CountOf(t, MostCommon(t, fallback))
    ensures SeenBefore(titles, MostCommon(t, fallback), f)
  {
    var k := MostCommonIsFirstMaximum(t, fallback);
    var j := FormsSource(t, f);
    CountOfEntry(t, j);
    CountOfEntry(t, k);
  }

  /** Of two forms of a key counted equally often, the one chosen was seen
      first. */
  lemma MostCommonFirstSeen(titles: seq<string>, key: string, fallback: string, f: string)
    requires key in CountTitles(titles)
    requires NormalizeTitle(f) == key && f != MostCommon(CountTitles(titles)[key], fallback)
    requires Occurrences(titles, f) == Occurrences(titles, MostCommon(CountTitles(titles)[key], fallback))
    ensures SeenBefore(titles, MostCommon(CountTitles(titles)[key], fallback), f)
  {
    var t := CountTitles(titles)[key];
    var chosen := MostCommon(t, fallback);
    CountTitlesWellKeyed(titles);
    assert TallyOf(t, key);
    TallyNonEmpty(titles, key);
    var k := MostCommonIsFirstMaximum(t, fallback);
    assert chosen in Forms(t);
    CountedFormsIn(titles, key);
    OccurrencesOfMember(titles, chosen);
    OccurrencesPositive(titles, f);
    TallyForms(titles, key, f);
    CountTitlesCounts(titles, f);
    CountTitlesCounts(titles, chosen);
    TallyFirstSeen(titles, key);
    MostCommonInOrder(titles, t, fallback, f);
  }

  /** Of the forms with the highest count under a group's key, the group
      shows the one seen first. */
  lemma GroupTitleFirstSeen(ws: seq<TitledWork>, titleCounts: TitleCounts, nonText: bool, key: string, f: string)
    requires Consistent(ws)
    requires titleCounts == CountTitles(DisplayTitles(ws))
    requires key in Partition(GroupAll(ws, titleCounts), nonText).byKey
    requires NormalizeTitle(f) == key && f != Partition(GroupAll(ws, titleCounts), nonText).byKey[key].displayTitle
    requires Occurrences(DisplayTitles(ws), f)
      == Occurrences(DisplayTitles(ws), Partition(GroupAll(ws, titleCounts), nonText).byKey[key].displayTitle)
    ensures SeenBefore(DisplayTitles(ws), Partition(GroupAll(ws, titleCounts), nonText).byKey[key].displayTitle, f)
  {
    var k := GroupFirst(ws, titleCounts, nonText, key);
    var titles := DisplayTitles(ws);
    assert titles[k] == ws[k].displayTitle;
    TallyForms(titles, key, ws[k].displayTitle);
    MostCommonFirstSeen(titles, key, ws[k].displayTitle, f);
  }

  // ---------------------------------------------------------------------
  // Ordering the groups (main.js:1028-1046)
  // ---------------------------------------------------------------------

  /** `groups[key].displayTitle`, "" for a key without a group. */
  function TitleOfKey(g: Groups, key: string): string {
    if key in g.byKey then g.byKey[key].displayTitle else ""
  }

  /** `groups[key].works.length`, 0 for a key without a group. */
  function SizeOfKey(g: Groups, key: string): nat {
    if key in g.byKey then |g.byKey[key].works| else 0
  }

  /** `(a, b) => groups[a].displayTitle.localeCompare(groups[b].displayTitle)`,
      with the collation as a parameter. */
  function ByTitle(g: Groups, localeCompare: (string, string) -> int): (string, string) -> int {
    (a: string, b: string) => localeCompare(TitleOfKey(g, a), TitleOfKey(g, b))
  }

  /** A collation that never puts both of two titles after the other, or
      that is a total preorder, makes the key comparator one as well. */
  lemma ByTitleOrder(g: Groups, localeCompare: (string, string) -> int)
    ensures Antisymmetric(localeCompare) ==> Antisymmetric(ByTitle(g, localeCompare))
    ensures Transitive(localeCompare) ==> Transitive(ByTitle(g, localeCompare))
  {
    var cmp := ByTitle(g, localeCompare);
    if Antisymmetric(localeCompare) {
      forall x, y | cmp(x, y) > 0
        ensures cmp(y, x) <= 0
      {
        assert localeCompare(TitleOfKey(g, x), TitleOfKey(g, y)) > 0;
      }
    }
    if Transitive(localeCompare) {
      forall x, y, z | cmp(x, y) <= 0 && cmp(y, z) <= 0
        ensures cmp(x, z) <= 0
      {
        assert localeCompare(TitleOfKey(g, x), TitleOfKey(g, y)) <= 0;
        assert localeCompare(TitleOfKey(g, y), TitleOfKey(g, z)) <= 0;
      }
    }
  }

  /** `Object.keys(groups).sort(...)`: the keys ordered by display title. */
  method SortedTitles(g: Groups, localeCompare: (string, string) -> int) returns (sortedTitles: seq<string>)
    requires Antisymmetric(localeCompare)
    ensures multiset(sortedTitles) == multiset(g.keys)
    ensures AdjacentOrdered(sortedTitles, ByTitle(g, localeCompare))
    ensures Transitive(localeCompare) ==> Sorted(sortedTitles, ByTitle(g, localeCompare))
  {
    ByTitleOrder(g, localeCompare);
    sortedTitles := SortSeq(g.keys, ByTitle(g, localeCompare));
    if Transitive(localeCompare) {
      AdjacentOrderedIsSorted(sortedTitles, ByTitle(g, localeCompare));
    }
  }

  /** `sortedTextTitles.filter(key => textWorks[key].works.length > 1)` */
  function PopularTitles(g: Groups, sortedTitles: seq<string>): seq<string> {
    Filter(sortedTitles, key => SizeOfKey(g, key) > 1)
  }

  /** `sortedTextTitles.filter(key => textWorks[key].works.length === 1)` */
  function UniqueTitles(g: Groups, sortedTitles: seq<string>): seq<string> {
    Filter(sortedTitles, key => SizeOfKey(g, key) == 1)
  }

  /** With no empty group, the popular and the unique titles split the
      sorted titles between them, each key going to exactly one list, and
      both lists keep the order. */
  lemma SplitTitles(g: Groups, sortedTitles: seq<string>, cmp: (string, string) -> int)
    requires forall key :: key in sortedTitles ==> SizeOfKey(g, key) >= 1
    ensures multiset(PopularTitles(g, sortedTitles)) + multiset(UniqueTitles(g, sortedTitles)) == multiset(sortedTitles)
    ensures forall key :: key in PopularTitles(g, sortedTitles) ==> SizeOfKey(g, key) > 1
    ensures forall key :: key in UniqueTitles(g, sortedTitles) ==> SizeOfKey(g, key) == 1
    ensures Sorted(sortedTitles, cmp) ==> Sorted(PopularTitles(g, sortedTitles), cmp) && Sorted(UniqueTitles(g, sortedTitles), cmp)
  {
    var popular := key => SizeOfKey(g, key) > 1;
    var unique := key => SizeOfKey(g, key) == 1;
    forall key
      ensures (multiset(PopularTitles(g, sortedTitles)) + multiset(UniqueTitles(g, sortedTitles)))[key]
        == multiset(sortedTitles)[key]
    {
      FilterCount(sortedTitles, popular, key);
      FilterCount(sortedTitles, unique, key);
    }
    assert multiset(PopularTitles(g, sortedTitles)) + multiset(UniqueTitles(g, sortedTitles)) == multiset(sortedTitles);
    if Sorted(sortedTitles, cmp) {
      FilterSorted(sortedTitles, popular, cmp);
      FilterSorted(sortedTitles, unique, cmp);
    }
  }

}
