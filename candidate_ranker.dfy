/**
 * Ranking of search candidates: the title hits of the suggest search
 * (main.js:304-391), the works offered after a title is clicked
 * (main.js:1512-1561), and the contributor and instance orders
 * (main.js:132-136, main.js:1330-1334).
 *
 * Each ranking is a `sort` with a comparator whose sign alone matters; the
 * comparators here return a value of the same sign as the source's.
 */
module CandidateRanker {
  import opened JsText
  import opened Sorting
  import StringMetrics

  // ---------------------------------------------------------------------
  // formatTitles: scoring and sorting the title hits (main.js:304-391)
  // ---------------------------------------------------------------------

  /** A suggest hit: `uri`, `aLabel`, `suggestLabel`, `more.contributors`,
      `more.languages` and `token`. An absent string is "", an absent array
      (or an absent `more`) is None. */
  datatype TitleHit = TitleHit(
    uri: string, aLabel: string, suggestLabel: string,
    contributors: Option<seq<string>>, languages: Option<seq<string>>, token: string)

  /** `{...hit, distance, originalDistance, labelWithoutContributors,
      hasContributorInLabel, isEnglish, tokenNum}`; a `tokenNum` of None is
      NaN. */
  datatype ScoredHit = ScoredHit(
    hit: TitleHit, distance: nat, originalDistance: nat, labelWithoutContributors: string,
    hasContributorInLabel: bool, isEnglish: bool, tokenNum: Option<int>)

  /** The distance given to every hit when there is no query. */
  const NoQueryDistance: nat := 999999

  /** The token number of a hit without a token. */
  const NoTokenNum: int := 999999999

  /** `hits.filter(hit => !excludedUris.has(hit.uri))`; a missing
      `window.excludedUris` is the empty set. */
  function KeptHits(hits: seq<TitleHit>, excludedUris: set<string>): seq<TitleHit> {
    Filter(hits, (h: TitleHit) => h.uri !in excludedUris)
  }

  /** `hit.more?.contributors && hit.more.contributors[0]`, "" when falsy. */
  function FirstContributor(hit: TitleHit): string {
    match hit.contributors
    case Some(cs) => if cs != [] then cs[0] else ""
    case None => ""
  }

  /** `firstContributor && hit.aLabel && hit.aLabel.includes(firstContributor)`,
      with every falsy outcome read as false. */
  predicate HasContributorInLabel(hit: TitleHit) {
    var fc := FirstContributor(hit);
    Truthy(fc) && Truthy(hit.aLabel) && Includes(hit.aLabel, fc)
  }

  // `.replace(/^\.\s*/, '')`: one leading period and the `\s` run after it.
  function DropLeadingPeriod(s: string): (r: string)
    ensures |r| <= |s| && r == s[|s| - |r|..]
  {
    if s != [] && s[0] == '.' then s[1 + SpaceRun(s, 1)..] else s
  }

  // One step of the contributor loop:
  // `label.replace(contributor, '').replace(/^\.\s*/, '').trim()`.
  function StripContributor(text: string, contributor: string): (r: string)
    ensures |r| <= |text|
  {
    Trim(DropLeadingPeriod(ReplaceFirst(text, contributor, "")))
  }

  /** The contributor loop, in the order of the contributors. */
  function StripContributors(text: string, contributors: seq<string>): (r: string)
    ensures |r| <= |text|
  {
    if contributors == [] then text
    else StripContributor(StripContributors(text, contributors[..|contributors| - 1]), contributors[|contributors| - 1])
  }

  /** `labelForDistance`: `aLabel || suggestLabel || ''`, then the contributor
      loop when `more.contributors` is there. */
  function LabelForDistance(hit: TitleHit): string {
    var text := if Truthy(hit.aLabel) then hit.aLabel else hit.suggestLabel;
    match hit.contributors
    case Some(cs) => StripContributors(text, cs)
    case None => text
  }

  /** The distance of the query to a label, case-insensitively; 999999
      without a query. `levenshteinDistance` computes `EditDistance`
      (StringMetrics.LevenshteinDistance). */
  function QueryDistance(searchQuery: string, text: string): nat {
    if Truthy(searchQuery) then StringMetrics.EditDistance(Lower(searchQuery), Lower(text))
    else NoQueryDistance
  }

  /** `Math.max(0, d - bonus)` */
  function Reduce(d: nat, bonus: nat): nat {
    if d >= bonus then d - bonus else 0
  }

  /** The contributor bonus: 25 when the first contributor's name contains
      the query, 8 otherwise. */
  function Bonus(firstContributor: string, searchQuery: string): nat {
    if Includes(Lower(firstContributor), Lower(searchQuery)) then 25 else 8
  }

  /** `lang === 'English' || lang === 'mlang:eng' || lang.toLowerCase().includes('eng')` */
  predicate IsEnglishLanguage(lang: string) {
    lang == "English" || lang == "mlang:eng" || Includes(Lower(lang), "eng")
  }

  /** `languages.some(...)` */
  predicate SomeEnglish(languages: seq<string>) {
    languages != [] && (IsEnglishLanguage(languages[0]) || SomeEnglish(languages[1..]))
  }

  /** `hit.more?.languages && hit.more.languages.some(...)`, false when absent. */
  predicate IsEnglish(hit: TitleHit) {
    match hit.languages
    case Some(ls) => SomeEnglish(ls)
    case None => false
  }

  /** `hit.token ? parseInt(hit.token) : 999999999`, None standing for NaN. */
  function TokenNum(token: string): Option<int> {
    if Truthy(token) then ParseInt(token) else Some(NoTokenNum)
  }

  /** The per-hit scoring of main.js:319-370. */
  function Score(hit: TitleHit, searchQuery: string): ScoredHit {
    var fc := FirstContributor(hit);
    var has := HasContributorInLabel(hit);
    var labelForDistance := LabelForDistance(hit);
    var original := QueryDistance(searchQuery, labelForDistance);
    var distance := if has && Truthy(fc) && Truthy(searchQuery) then Reduce(original, Bonus(fc, searchQuery)) else original;
    ScoredHit(hit, distance, original, labelForDistance, has, IsEnglish(hit), TokenNum(hit.token))
  }

  /** `filteredHits.map(hit => ...)` */
  function ScoreAll(hits: seq<TitleHit>, searchQuery: string): (r: seq<ScoredHit>)
    ensures |r| == |hits|
    ensures forall k :: 0 <= k < |hits| ==> r[k] == Score(hits[k], searchQuery)
  {
    seq(|hits|, k requires 0 <= k < |hits| => Score(hits[k], searchQuery))
  }

  /** The comparator of main.js:373-390: distance, then the contributor in
      the label first, then English first, then the token number; a
      difference involving NaN is NaN, which `sort` reads as 0. */
  function CompareHits(a: ScoredHit, b: ScoredHit): int {
    if a.distance != b.distance then a.distance - b.distance
    else if a.hasContributorInLabel != b.hasContributorInLabel then (if a.hasContributorInLabel then -1 else 1)
    else if a.isEnglish != b.isEnglish then (if b.isEnglish then 1 else -1)
    else if a.tokenNum.Some? && b.tokenNum.Some? then a.tokenNum.value - b.tokenNum.value
    else 0
  }

  lemma CompareHitsAntisymmetric()
    ensures Antisymmetric(CompareHits)
  {
    forall a: ScoredHit, b: ScoredHit | CompareHits(a, b) > 0
      ensures CompareHits(b, a) <= 0
    {
    }
  }

  /** The ranked hits: the scored hits that are not excluded, sorted by the
      comparator. */
  method FormatTitles(hits: seq<TitleHit>, excludedUris: set<string>, searchQuery: string)
    returns (scoredHits: seq<ScoredHit>)
    ensures multiset(scoredHits) == multiset(ScoreAll(KeptHits(hits, excludedUris), searchQuery))
    ensures AdjacentOrdered(scoredHits, CompareHits)
  {
    var filteredHits := KeptHits(hits, excludedUris);
    var scored := ScoreAll(filteredHits, searchQuery);
    CompareHitsAntisymmetric();
    scoredHits := SortSeq(scored, CompareHits);
  }

  /** A hit is kept exactly when it is an input hit whose URI is not
      excluded, as often as it occurs. */
  lemma KeptHitsExact(hits: seq<TitleHit>, excludedUris: set<string>, h: TitleHit)
    ensures multiset(KeptHits(hits, excludedUris))[h] == if h.uri in excludedUris then 0 else multiset(hits)[h]
    ensures h in KeptHits(hits, excludedUris) <==> h in hits && h.uri !in excludedUris
  {
    FilterCount(hits, (h: TitleHit) => h.uri !in excludedUris, h);
  }

  /** The ranked hits are the scores of the kept hits: each has a kept hit
      behind it, so none has an excluded URI. */
  lemma RankedHitsKept(hits: seq<TitleHit>, excludedUris: set<string>, searchQuery: string,
                       scoredHits: seq<ScoredHit>, s: ScoredHit)
    requires multiset(scoredHits) == multiset(ScoreAll(KeptHits(hits, excludedUris), searchQuery))
    requires s in scoredHits
    ensures s.hit in hits && s.hit.uri !in excludedUris
    ensures s == Score(s.hit, searchQuery)
  {
    var kept := KeptHits(hits, excludedUris);
    assert s in multiset(scoredHits);
    var all := ScoreAll(kept, searchQuery);
    assert s in all;
    var k :| 0 <= k < |all| && all[k] == s;
    KeptHitsExact(hits, excludedUris, kept[k]);
  }

  /** Neighbour order of the comparator means the distances never go down
      along the ranking. */
  lemma {:induction false} RankedByDistance(r: seq<ScoredHit>, i: nat, j: nat)
    requires AdjacentOrdered(r, CompareHits)
    requires i <= j < |r|
    ensures r[i].distance <= r[j].distance
  {
    if i < j {
      RankedByDistance(r, i, j - 1);
      assert CompareHits(r[j - 1], r[j]) <= 0;
    }
  }

  /** Among neighbours with the same distance: a hit with its contributor
      in the label comes first; then an English one; then the smaller token
      number when both are numbers. */
  lemma RankedTies(r: seq<ScoredHit>, k: nat)
    requires AdjacentOrdered(r, CompareHits)
    requires k + 1 < |r| && r[k].distance == r[k + 1].distance
    ensures r[k + 1].hasContributorInLabel ==> r[k].hasContributorInLabel
    ensures r[k].hasContributorInLabel == r[k + 1].hasContributorInLabel && r[k + 1].isEnglish ==> r[k].isEnglish
    ensures (r[k].hasContributorInLabel == r[k + 1].hasContributorInLabel && r[k].isEnglish == r[k + 1].isEnglish
             && r[k].tokenNum.Some? && r[k + 1].tokenNum.Some?)
      ==> r[k].tokenNum.value <= r[k + 1].tokenNum.value
  {
    assert CompareHits(r[k], r[k + 1]) <= 0;
  }

  /** The bonus never raises the distance, takes at most 25 off it, and
      applies only when the first contributor is in the label. */
  lemma ScoreDistance(hit: TitleHit, searchQuery: string)
    ensures Score(hit, searchQuery).distance <= Score(hit, searchQuery).originalDistance
    ensures Score(hit, searchQuery).originalDistance <= Score(hit, searchQuery).distance + 25
    ensures !HasContributorInLabel(hit) ==> Score(hit, searchQuery).distance == Score(hit, searchQuery).originalDistance
    ensures !Truthy(searchQuery) ==> Score(hit, searchQuery).distance == NoQueryDistance
  {
  }

  /** With a query, the unreduced distance is the edit distance of the
      lower-cased query and label: 0 exactly when they agree, and never more
      than the longer of the two. */
  lemma QueryDistanceBounds(searchQuery: string, text: string)
    requires Truthy(searchQuery)
    ensures QueryDistance(searchQuery, text) == 0 <==> Lower(searchQuery) == Lower(text)
    ensures QueryDistance(searchQuery, text) <= if |searchQuery| >= |text| then |searchQuery| else |text|
  {
    StringMetrics.EditDistanceZeroIff(Lower(searchQuery), Lower(text));
    StringMetrics.EditDistanceUpperBound(Lower(searchQuery), Lower(text));
  }

  /** A contributor that starts the label is cut off together with the
      period and spaces after it: "Smith, John. The Great War" less
      "Smith, John" is "The Great War". */
  lemma StripContributorOfPrefix(contributor: string, rest: string)
    ensures StripContributor(contributor + rest, contributor) == Trim(DropLeadingPeriod(rest))
  {
    var s := contributor + rest;
    assert OccursAt(s, contributor, 0) by {
      assert s[..|contributor|] == contributor;
    }
    assert IndexOf(s, contributor) == Some(0);
    assert s[..0] + "" + s[|contributor|..] == rest;
  }

  /** The three tests of `isEnglish` come down to the last one: an English
      language is one whose lower-cased name contains "eng". */
  lemma IsEnglishLanguageIff(lang: string)
    ensures IsEnglishLanguage(lang) <==> Includes(Lower(lang), "eng")
  {
    if lang == "English" {
      assert Lower(lang) == "english";
      assert OccursAt("english", "eng", 0);
    } else if lang == "mlang:eng" {
      assert Lower(lang) == "mlang:eng";
      assert OccursAt("mlang:eng", "eng", 6);
    }
  }

  /** A token such as "n123" has no numeric value: `parseInt` gives NaN and
      the comparator's last test gives 0 for it. */
  lemma TokenNumOfLetter(c: char, rest: string)
    requires !IsDigit(c) && !IsSpace(c) && c != '-' && c != '+'
    ensures TokenNum([c] + rest).None?
  {
    var s := [c] + rest;
    assert s[0] == c;
    assert SpaceRun(s, 0) == 0;
    assert s[0..] == s;
    assert DigitRun(s, 0) == 0;
  }

  // ---------------------------------------------------------------------
  // handleTitleClick: matching the works of a contributor (main.js:1512-1561)
  // ---------------------------------------------------------------------

  /** A distance as a JavaScript number here: a natural number or Infinity. */
  datatype Distance = Finite(n: nat) | Infinity

  /** `Math.min` */
  function MinDistance(a: Distance, b: Distance): (m: Distance)
    ensures m == a || m == b
    ensures AtMost(m, a) && AtMost(m, b)
  {
    match (a, b)
    case (Finite(x), Finite(y)) => if x <= y then a else b
    case (Infinity, _) => b
    case (_, Infinity) => a
  }

  /** `a <= b` on distances. */
  predicate AtMost(a: Distance, b: Distance) {
    b.Infinity? || (a.Finite? && a.n <= b.n)
  }

  /** A result of the `contributorto` pages: its `uri` and `label` (`labelText`). */
  datatype WorkResult = WorkResult(uri: string, labelText: string)

  /** `{...result, distance}` */
  datatype MatchedResult = MatchedResult(result: WorkResult, distance: Distance)

  /** The smaller of the distance of the label to the search value and to the
      clicked label, Infinity for an absent one. The label and the clicked
      label are lower-cased; the search value is used as it is. */
  function MatchDistance(result: WorkResult, searchValue: string, clickedLabel: string): (d: Distance)
    ensures d.Infinity? <==> !Truthy(searchValue) && !Truthy(clickedLabel)
    ensures Truthy(searchValue) ==>
      AtMost(d, Finite(StringMetrics.EditDistance(searchValue, Lower(result.labelText))))
    ensures Truthy(clickedLabel) ==>
      AtMost(d, Finite(StringMetrics.EditDistance(Lower(clickedLabel), Lower(result.labelText))))
    ensures d.Finite? ==>
      (Truthy(searchValue) && d.n == StringMetrics.EditDistance(searchValue, Lower(result.labelText)))
      || (Truthy(clickedLabel) && d.n == StringMetrics.EditDistance(Lower(clickedLabel), Lower(result.labelText)))
  {
    var resultLabel := Lower(result.labelText);
    var searchDistance :=
      if Truthy(searchValue) then Finite(StringMetrics.EditDistance(searchValue, resultLabel)) else Infinity;
    var clickedDistance :=
      if Truthy(clickedLabel) then Finite(StringMetrics.EditDistance(Lower(clickedLabel), resultLabel)) else Infinity;
    MinDistance(searchDistance, clickedDistance)
  }

  /** `allResults.map(result => ...)` */
  function MatchAll(allResults: seq<WorkResult>, searchValue: string, clickedLabel: string): (r: seq<MatchedResult>)
    ensures |r| == |allResults|
    ensures forall k :: 0 <= k < |r| ==>
      r[k] == MatchedResult(allResults[k], MatchDistance(allResults[k], searchValue, clickedLabel))
  {
    seq(|allResults|, k requires 0 <= k < |allResults| =>
      MatchedResult(allResults[k], MatchDistance(allResults[k], searchValue, clickedLabel)))
  }

  /** `(a, b) => a.distance - b.distance` by its sign: Infinity less
      Infinity is NaN, which `sort` reads as 0. */
  function CompareDistance(a: MatchedResult, b: MatchedResult): int {
    match (a.distance, b.distance)
    case (Finite(x), Finite(y)) => x - y
    case (Infinity, Finite(_)) => 1
    case (Finite(_), Infinity) => -1
    case (Infinity, Infinity) => 0
  }

  /** The distance comparator says "may stay before" exactly for `AtMost`,
      so it is a total preorder. */
  lemma CompareDistanceOrder()
    ensures forall a, b :: CompareDistance(a, b) <= 0 <==> AtMost(a.distance, b.distance)
    ensures Antisymmetric(CompareDistance) && Transitive(CompareDistance)
  {
  }

  /** `scoredResults.sort(...)`: the scored results by distance. */
  method RankMatches(allResults: seq<WorkResult>, searchValue: string, clickedLabel: string)
    returns (sorted: seq<MatchedResult>)
    ensures multiset(sorted) == multiset(MatchAll(allResults, searchValue, clickedLabel))
    ensures Sorted(sorted, CompareDistance)
  {
    var scoredResults := MatchAll(allResults, searchValue, clickedLabel);
    CompareDistanceOrder();
    sorted := SortSeq(scoredResults, CompareDistance);
    AdjacentOrderedIsSorted(sorted, CompareDistance);
  }

  /** The number of matches kept. */
  const TopCount: nat := 20

  /** `.slice(0, 20)` */
  function TopMatches(sorted: seq<MatchedResult>): (best: seq<MatchedResult>)
    ensures |best| <= TopCount
  {
    if |sorted| <= TopCount then sorted else sorted[..TopCount]
  }

  /** Of sorted results, the first twenty are at least as close as every
      one left out, and only when there are more than twenty is any left
      out. */
  lemma TopMatchesBest(sorted: seq<MatchedResult>)
    requires Sorted(sorted, CompareDistance)
    ensures |TopMatches(sorted)| == if |sorted| <= TopCount then |sorted| else TopCount
    ensures TopMatches(sorted) == sorted[..|TopMatches(sorted)|]
    ensures forall i, j :: 0 <= i < |TopMatches(sorted)| <= j < |sorted| ==>
      AtMost(sorted[i].distance, sorted[j].distance)
  {
    CompareDistanceOrder();
  }

  /** `result.distance <= 5`; false for Infinity. */
  predicate IsGoodMatch(m: MatchedResult) {
    m.distance.Finite? && m.distance.n <= 5
  }

  /** `result.distance > 5`; true for Infinity. */
  predicate IsPoorMatch(m: MatchedResult) {
    m.distance.Infinity? || m.distance.n > 5
  }

  function GoodMatches(bestMatches: seq<MatchedResult>): seq<MatchedResult> {
    Filter(bestMatches, IsGoodMatch)
  }

  function PoorMatches(bestMatches: seq<MatchedResult>): seq<MatchedResult> {
    Filter(bestMatches, IsPoorMatch)
  }

  /** The good and the poor matches share no element and together are the
      best matches, each as often as it occurs there. */
  lemma GoodPoorSplit(bestMatches: seq<MatchedResult>)
    ensures multiset(GoodMatches(bestMatches)) + multiset(PoorMatches(bestMatches)) == multiset(bestMatches)
    ensures forall m :: m in GoodMatches(bestMatches) ==> m !in PoorMatches(bestMatches)
    ensures forall m :: m in GoodMatches(bestMatches) ==> IsGoodMatch(m)
    ensures forall m :: m in PoorMatches(bestMatches) ==> IsPoorMatch(m)
  {
    forall m
      ensures (multiset(GoodMatches(bestMatches)) + multiset(PoorMatches(bestMatches)))[m] == multiset(bestMatches)[m]
    {
      FilterCount(bestMatches, IsGoodMatch, m);
      FilterCount(bestMatches, IsPoorMatch, m);
    }
    assert multiset(GoodMatches(bestMatches)) + multiset(PoorMatches(bestMatches)) == multiset(bestMatches);
  }

  /** Of sorted results, every one left out of the first twenty is at
      least as far as each one kept. */
  lemma TopMatchesRest(sorted: seq<MatchedResult>)
    requires Sorted(sorted, CompareDistance)
    ensures multiset(TopMatches(sorted)) <= multiset(sorted)
    ensures forall b, m :: (b in TopMatches(sorted) && m in multiset(sorted) - multiset(TopMatches(sorted)))
              ==> AtMost(b.distance, m.distance)
  {
    var best := TopMatches(sorted);
    TopMatchesBest(sorted);
    var rest := sorted[|best|..];
    assert sorted == best + rest;
    assert multiset(sorted) == multiset(best) + multiset(rest);
    forall b, m | b in best && m in multiset(sorted) - multiset(best)
      ensures AtMost(b.distance, m.distance)
    {
      var i := IndexIn(best, b);
      var j := IndexIn(rest, m);
      assert sorted[|best| + j] == m;
    }
  }

  /** The good matches ordered by their numeric identifier and the poor
      ones in the order they come. */
  method SplitMatches(bestMatches: seq<MatchedResult>) returns (goodMatches: seq<MatchedResult>, poorMatches: seq<MatchedResult>)
    ensures multiset(goodMatches) + multiset(poorMatches) == multiset(bestMatches)
    ensures forall m :: m in goodMatches ==> IsGoodMatch(m)
    ensures forall m :: m in poorMatches ==> IsPoorMatch(m)
    ensures forall i, j :: 0 <= i < j < |goodMatches| ==>
      NumericId(goodMatches[i].result.uri) <= NumericId(goodMatches[j].result.uri)
    ensures Sorted(bestMatches, CompareDistance) ==> Sorted(poorMatches, CompareDistance)
  {
    GoodPoorSplit(bestMatches);
    goodMatches := SortGoodMatches(GoodMatches(bestMatches));
    forall m | m in goodMatches
      ensures IsGoodMatch(m)
    {
      assert m in multiset(GoodMatches(bestMatches));
    }
    poorMatches := PoorMatches(bestMatches);
    if Sorted(bestMatches, CompareDistance) {
      FilterSorted(bestMatches, IsPoorMatch, CompareDistance);
    }
  }

  /** The works of a clicked contributor as the title column lists them:
      of the results ranked by distance the first twenty, split into the
      good ones ordered by their numeric identifier and the poor ones in
      ranked order. */
  method MatchWorks(allResults: seq<WorkResult>, searchValue: string, clickedLabel: string)
    returns (bestMatches: seq<MatchedResult>, goodMatches: seq<MatchedResult>, poorMatches: seq<MatchedResult>)
    ensures |bestMatches| == if |allResults| <= TopCount then |allResults| else TopCount
    ensures multiset(bestMatches) <= multiset(MatchAll(allResults, searchValue, clickedLabel))
    ensures Sorted(bestMatches, CompareDistance)
    ensures forall b, m :: (b in bestMatches && m in multiset(MatchAll(allResults, searchValue, clickedLabel)) - multiset(bestMatches))
              ==> AtMost(b.distance, m.distance)
    ensures multiset(goodMatches) + multiset(poorMatches) == multiset(bestMatches)
    ensures forall m :: m in goodMatches ==> IsGoodMatch(m)
    ensures forall m :: m in poorMatches ==> IsPoorMatch(m)
    ensures forall i, j :: 0 <= i < j < |goodMatches| ==>
      NumericId(goodMatches[i].result.uri) <= NumericId(goodMatches[j].result.uri)
    ensures Sorted(poorMatches, CompareDistance)
  {
    var sorted := RankMatches(allResults, searchValue, clickedLabel);
    bestMatches := TopMatches(sorted);
    TopMatchesBest(sorted);
    TopMatchesRest(sorted);
    goodMatches, poorMatches := SplitMatches(bestMatches);
  }

  /** `parseInt(uri.split('/').pop()) || 0`: NaN and 0 both give 0. */
  function NumericId(uri: string): int {
    match ParseInt(LastSegment(uri))
    case Some(v) => v
    case None => 0
  }

  /** `(a, b) => idA - idB` */
  function CompareMatchIds(a: MatchedResult, b: MatchedResult): int {
    NumericId(a.result.uri) - NumericId(b.result.uri)
  }

  /** `goodMatches.sort(...)`: the good matches by the number ending their URI. */
  method SortGoodMatches(goodMatches: seq<MatchedResult>) returns (sorted: seq<MatchedResult>)
    ensures multiset(sorted) == multiset(goodMatches)
    ensures forall i, j :: 0 <= i < j < |sorted| ==> NumericId(sorted[i].result.uri) <= NumericId(sorted[j].result.uri)
  {
    sorted := SortSeq(goodMatches, CompareMatchIds);
    AdjacentOrderedIsSorted(sorted, CompareMatchIds);
  }

  /** A URI ending in a slash and a decimal number sorts by that number. */
  lemma NumericIdOfDecimal(prefix: string, id: nat)
    ensures NumericId(prefix + "/" + DecimalString(id)) == id
  {
    var d := DecimalString(id);
    var u := prefix + "/" + d;
    LastSegmentAfterSlash(prefix + "/", d);
    ParseIntDecimal(id, []);
    assert d + [] == d;
  }

  /** What follows the last slash. */
  lemma {:induction false} LastSegmentAfterSlash(head: string, tail: string)
    requires head != [] && head[|head| - 1] == '/' && '/' !in tail
    ensures LastSegment(head + tail) == tail
  {
    if tail == [] {
      assert head + tail == head;
    } else {
      var t := tail[..|tail| - 1];
      assert (head + tail)[..|head + tail| - 1] == head + t;
      assert '/' !in t by {
        forall k | 0 <= k < |t|
          ensures t[k] != '/'
        {
          assert t[k] == tail[k];
        }
      }
      LastSegmentAfterSlash(head, t);
    }
  }

  // ---------------------------------------------------------------------
  // formatContributors: contributors by contributions (main.js:132-136)
  // ---------------------------------------------------------------------

  /** A name hit: its `uri`, `suggestLabel` and `contributions`, None when
      that is missing. */
  datatype ContributorHit = ContributorHit(uri: string, suggestLabel: string, contributions: Option<int>)

  /** `hit.contributions || 0` */
  function Contributions(hit: ContributorHit): int {
    match hit.contributions
    case Some(c) => c
    case None => 0
  }

  /** `(a, b) => bContributions - aContributions` */
  function CompareContributions(a: ContributorHit, b: ContributorHit): int {
    Contributions(b) - Contributions(a)
  }

  /** `[...data.hits].sort(...)`: the hits with the most contributions first. */
  method SortContributors(hits: seq<ContributorHit>) returns (sortedHits: seq<ContributorHit>)
    ensures multiset(sortedHits) == multiset(hits)
    ensures forall i, j :: 0 <= i < j < |sortedHits| ==> Contributions(sortedHits[i]) >= Contributions(sortedHits[j])
  {
    sortedHits := SortSeq(hits, CompareContributions);
    AdjacentOrderedIsSorted(sortedHits, CompareContributions);
  }

  // ---------------------------------------------------------------------
  // The instances of a work by identifier (main.js:1330-1334)
  // ---------------------------------------------------------------------

  /** An instance: its `@id` and `label` (`labelText`). */
  datatype InstanceRecord = InstanceRecord(id: string, labelText: string)

  /** `(a, b) => idA - idB` on `parseInt(a['@id'].split('/').pop()) || 0` */
  function CompareInstanceIds(a: InstanceRecord, b: InstanceRecord): int {
    NumericId(a.id) - NumericId(b.id)
  }

  /** `allInstances.sort(...)`: the instances by the number ending their
      identifier. */
  method SortInstances(allInstances: seq<InstanceRecord>) returns (sorted: seq<InstanceRecord>)
    ensures multiset(sorted) == multiset(allInstances)
    ensures forall i, j :: 0 <= i < j < |sorted| ==> NumericId(sorted[i].id) <= NumericId(sorted[j].id)
  {
    sorted := SortSeq(allInstances, CompareInstanceIds);
    AdjacentOrderedIsSorted(sorted, CompareInstanceIds);
  }

}
