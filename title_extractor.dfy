/**
 * The title of each work in a contributor's list (main.js:765-959): the
 * label, or a title found in the work's graph, or `Work {id}`; then the
 * author part at the front of it is cut off by the first step of a cascade
 * that succeeds.
 */
module TitleExtractor {
  import opened JsText
  import opened GraphResolver
  import opened TitlePatterns

  /** The title before extraction (main.js:765-829): a truthy label from
      the search API; else,
      in the work's graph, the first `bflc:aap` value, or the first
      `mainTitle` of the node the first `bf:title` points at; else
      `Work {workId}`. A node with an `bflc:aap` term commits to it: an
      empty or missing value there gives `Work {workId}`, not the main
      title. `bibframeData` is None when its fetch failed. */
  function InitialTitle(apiLabel: string, uri: string, bibframeData: Option<Graph>): (t: string)
    ensures Truthy(t)
    ensures Truthy(apiLabel) ==> t == apiLabel
    ensures !Truthy(apiLabel) && bibframeData.None? ==> t == "Work " + LastSegment(uri)
    ensures !Truthy(apiLabel) && bibframeData.Some? && FindNode(bibframeData.value, Some(uri)).None? ==>
      t == "Work " + LastSegment(uri)
    ensures !Truthy(apiLabel) && bibframeData.Some? && FindNode(bibframeData.value, Some(uri)).Some? ==>
      var work := FindNode(bibframeData.value, Some(uri)).value;
      var aap := FirstTerm(work, BflcAap);
      var titleRef := FirstTerm(work, BfTitle);
      var titleObj := if titleRef.Some? then FindNode(bibframeData.value, titleRef.value.id) else None;
      var main := if titleObj.Some? then FirstTerm(titleObj.value, BfMainTitle) else None;
      var chosen := if aap.Some? then aap.value.value else if main.Some? then main.value.value else None;
      (chosen.Some? && Truthy(chosen.value) ==> t == chosen.value)
      && (!(chosen.Some? && Truthy(chosen.value)) ==> t == "Work " + LastSegment(uri))
  {
    var found :=
      if Truthy(apiLabel) then Some(apiLabel)
      else match bibframeData
        case None => None
        case Some(data) =>
          match FindNode(data, Some(uri))
          case None => None
          case Some(mainWork) =>
            match FirstTerm(mainWork, BflcAap)
            case Some(aap) => aap.value
            case None =>
              match FirstTerm(mainWork, BfTitle)
              case None => None
              case Some(titleProp) =>
                match FindNode(data, titleProp.id)
                case None => None
                case Some(titleObj) =>
                  match FirstTerm(titleObj, BfMainTitle)
                  case None => None
                  case Some(mainTitle) => mainTitle.value;
    if found.Some? && Truthy(found.value) then found.value else "Work " + LastSegment(uri)
  }

  // ------------------------------------------------ the contributor steps

  /** `[\s.,:\-–—]` */
  predicate IsLeadMark(c: char) {
    IsSpace(c) || c == '.' || c == ',' || c == ':' || c == '-' || c == EnDash || c == EmDash
  }

  function LeadMarkRun(s: string, i: nat): (n: nat)
    requires i <= |s|
    ensures i + n <= |s|
    ensures forall k :: i <= k < i + n ==> IsLeadMark(s[k])
    ensures i + n < |s| ==> !IsLeadMark(s[i + n])
    decreases |s| - i
  {
    if i < |s| && IsLeadMark(s[i]) then 1 + LeadMarkRun(s, i + 1) else 0
  }

  /** `s.replace(/^[\s.,:\-–—]+/, '')` */
  function StripLeadMarks(s: string): (r: string)
    ensures |r| <= |s| && r == s[|s| - |r|..]
    ensures forall k :: 0 <= k < |s| - |r| ==> IsLeadMark(s[k])
    ensures r != [] ==> !IsLeadMark(r[0])
  {
    s[LeadMarkRun(s, 0)..]
  }

  /** `contributorName.split(',')[0].trim()`: the surname of a "Last, First"
      heading. */
  function Surname(name: string): string {
    Trim(name[..NextIndexOf(name, ',', 0)])
  }

  const SurnamePatterns: seq<SurnamePattern> := [PeriodPattern, DashPattern]

  /** The end of the match of the first surname pattern from index `k` on
      that matches. */
  function FirstSurnameMatch(title: string, surname: string, k: nat): (r: Option<nat>)
    requires k <= |SurnamePatterns|
    ensures r.Some? ==> |surname| < r.value <= |title|
    decreases |SurnamePatterns| - k
  {
    if k == |SurnamePatterns| then None
    else
      var m := SurnameMatch(SurnamePatterns[k], title, surname);
      if m.Some? then m else FirstSurnameMatch(title, surname, k + 1)
  }

  /** A title that starts with the known heading (main.js:842-853): what
      follows it and the separators after it, trimmed, when anything is
      left. */
  function HeadingRemainder(title: string, name: string): (r: Option<string>)
    requires |name| <= |title|
  {
    var remainder := StripLeadMarks(title[|name|..]);
    if Truthy(remainder) then Some(Trim(remainder)) else None
  }

  /** A title that starts with the surname (main.js:854-874): what follows
      the match of the first surname pattern that matches. */
  function SurnameRemainder(title: string, surname: string): (r: Option<string>)
    ensures r.Some? ==> |r.value| < |title| && r.value == title[|title| - |r.value|..]
  {
    if StartsWith(title, surname) then
      match FirstSurnameMatch(title, surname, 0)
      case Some(m) => Some(title[m..])
      case None => None
    else None
  }

  /** The steps that use the contributor's heading: None when neither
      succeeds. */
  function ContributorStep(title: string, name: string): (r: Option<string>)
  {
    if Truthy(name) && StartsWith(title, name) then HeadingRemainder(title, name)
    else if Truthy(name) then SurnameRemainder(title, Surname(name))
    else None
  }

  // --------------------------------------------------- the pattern steps

  /** The four author patterns of main.js:882-917, in order: where the
      first that matches ends (for the initials pattern, where the cut
      falls). */
  function AuthorEnd(title: string): (r: Option<nat>)
    ensures r.Some? ==> r.value <= |title|
  {
    if HonorificMatch(title).Some? then HonorificMatch(title)
    else if DatesMatch(title).Some? then DatesMatch(title)
    else if InitialsCut(title).Some? then InitialsCut(title)
    else LastPeriodMatch(title)
  }

  /** What is left of the title after the first author pattern that
      matches. */
  function AuthorCut(title: string): (r: Option<string>)
    ensures r.Some? ==> |r.value| <= |title| && r.value == title[|title| - |r.value|..]
  {
    match AuthorEnd(title)
    case Some(e) => Some(title[e..])
    case None => None
  }

  /** What follows the first year range, when the title still looks like
      an author heading (main.js:921-934). */
  function YearCut(title: string): (r: string)
    ensures |r| <= |title| && r == title[|title| - |r|..]
  {
    if Truthy(title) && AuthorForm(title) then
      match YearRangeFrom(title, 0)
      case Some(e) => title[e..]
      case None =>
        match YearEndFrom(title, 0)
        case Some(e) => title[e..]
        case None => title
    else title
  }

  /** `(s.match(/,/g) || []).length` */
  function CountChar(s: string, c: char): (n: nat)
    ensures n <= |s|
    ensures n == 0 <==> c !in s
  {
    if s == [] then 0 else (if s[0] == c then 1 else 0) + CountChar(s[1..], c)
  }

  /** The index of the first `\s` or comma: `s.search(/[\s,]/)`, with `|s|`
      for -1. */
  function SpaceOrComma(s: string, i: nat): (n: nat)
    requires i <= |s|
    ensures i <= n <= |s|
    ensures forall k :: i <= k < n ==> !IsSpace(s[k]) && s[k] != ','
    ensures n < |s| ==> IsSpace(s[n]) || s[n] == ','
    decreases |s| - i
  {
    if i == |s| || IsSpace(s[i]) || s[i] == ',' then i else SpaceOrComma(s, i + 1)
  }

  /** Where the last fallback (main.js:937-947) starts the title: past the
      first word after the first comma of the original title. The word's
      end is found in the trimmed text after the comma but added to the
      untrimmed offset, so every space after the comma moves the start one
      character further. */
  function FallbackStart(orig: string): (r: Option<nat>)
    ensures r.Some? ==> FirstComma(orig) + 2 <= r.value <= |orig|
  {
    if CountChar(orig, ',') >= 1 then
      var firstComma := FirstComma(orig);
      var afterFirstComma := Trim(orig[firstComma + 1..]);
      var nextDelimiter := SpaceOrComma(afterFirstComma, 0);
      if nextDelimiter < |afterFirstComma| then Some(firstComma + 1 + nextDelimiter + 1) else None
    else None
  }

  /** The last fallback (main.js:937-956): the trimmed rest of the original
      title from `FallbackStart`, unless it looks like another
      "name, name". */
  function CommaFallback(orig: string): (r: Option<string>)
    ensures r.Some? ==> Truthy(r.value) && !AuthorPair(r.value)
  {
    match FallbackStart(orig)
    case None => None
    case Some(startOfTitle) =>
      var potentialTitle := Trim(orig[startOfTitle..]);
      if Truthy(potentialTitle) && !AuthorPair(potentialTitle) then Some(potentialTitle) else None
  }

  /** The additional processing of main.js:919-958, run on the original
      title when no step has succeeded. */
  function SecondaryFallback(orig: string): (r: string)
  {
    var title := YearCut(orig);
    if !Truthy(title) || AuthorForm(title) then
      match CommaFallback(orig)
      case Some(potentialTitle) => potentialTitle
      case None => title
    else title
  }

  /** The title the cascade of main.js:838-959 leaves. */
  function TitleOf(title: string, name: string): (r: string)
  {
    match ContributorStep(title, name)
    case Some(t) => t
    case None =>
      if !AuthorForm(title) then title
      else
        match AuthorCut(title)
        case Some(t) => t
        case None => SecondaryFallback(title)
  }

  /** The cascade as the source runs it (main.js:838-959), reassigning
      `title` and `extractionSuccessful` step by step. */
  method ExtractTitle(initial: string, contributorName: string) returns (title: string)
    ensures title == TitleOf(initial, contributorName)
  {
    var originalTitle := initial;
    var extractionSuccessful;
    title, extractionSuccessful := ContributorPhase(initial, contributorName);
    if !extractionSuccessful && AuthorForm(title) {
      title, extractionSuccessful := AuthorPhase(title);
      if !extractionSuccessful {
        title := FallbackPhase(originalTitle);
      }
    }
  }

  /** The steps that use the contributor's heading (main.js:842-874). */
  method ContributorPhase(title: string, contributorName: string) returns (t: string, extractionSuccessful: bool)
    ensures extractionSuccessful <==> ContributorStep(title, contributorName).Some?
    ensures t == if extractionSuccessful then ContributorStep(title, contributorName).value else title
  {
    t := title;
    extractionSuccessful := false;
    if Truthy(contributorName) && StartsWith(title, contributorName) {
      var remainder := title[|contributorName|..];
      remainder := StripLeadMarks(remainder);
      if Truthy(remainder) {
        t := Trim(remainder);
        extractionSuccessful := true;
      }
    } else if Truthy(contributorName) {
      var contributorParts := Surname(contributorName);
      if StartsWith(title, contributorParts) {
        var patterns := SurnamePatterns;
        for k := 0 to |patterns|
          invariant !extractionSuccessful && t == title
          invariant FirstSurnameMatch(title, contributorParts, k) ==
                    FirstSurnameMatch(title, contributorParts, 0)
        {
          var m := SurnameMatch(patterns[k], title, contributorParts);
          if m.Some? {
            t := title[m.value..];
            extractionSuccessful := true;
            break;
          }
        }
      }
    }
  }

  /** The four author patterns (main.js:882-917), tried in order. */
  method AuthorPhase(title: string) returns (t: string, extractionSuccessful: bool)
    ensures extractionSuccessful <==> AuthorCut(title).Some?
    ensures t == if extractionSuccessful then AuthorCut(title).value else title
  {
    t := title;
    extractionSuccessful := false;
    var authorWithTitleMatch := HonorificMatch(title);
    if authorWithTitleMatch.Some? {
      t := title[authorWithTitleMatch.value..];
      extractionSuccessful := true;
    } else {
      var authorWithDatesMatch := DatesMatch(title);
      if authorWithDatesMatch.Some? {
        t := title[authorWithDatesMatch.value..];
        extractionSuccessful := true;
      } else {
        var nameWithInitialsMatch := InitialsCut(title);
        if nameWithInitialsMatch.Some? {
          t := title[nameWithInitialsMatch.value..];
          extractionSuccessful := true;
        } else {
          var lastAuthorPeriod := LastPeriodMatch(title);
          if lastAuthorPeriod.Some? {
            t := title[lastAuthorPeriod.value..];
            extractionSuccessful := true;
          }
        }
      }
    }
  }

  /** The additional processing (main.js:919-958) on the untouched title. */
  method FallbackPhase(originalTitle: string) returns (title: string)
    ensures title == SecondaryFallback(originalTitle)
  {
    title := YearPhase(originalTitle);
    if !Truthy(title) || AuthorForm(title) {
      title := CommaPhase(originalTitle, title);
    }
  }

  /** The year patterns (main.js:925-936): cut after the year range, or else
      after a year and a dash. */
  method YearPhase(originalTitle: string) returns (title: string)
    ensures title == YearCut(originalTitle)
  {
    title := originalTitle;
    if Truthy(title) && AuthorForm(title) {
      var yearMatch := YearRangeFrom(title, 0);
      var yearEndMatch := YearEndFrom(title, 0);
      if yearMatch.Some? {
        title := title[yearMatch.value..];
      } else if yearEndMatch.Some? {
        title := title[yearEndMatch.value..];
      }
    }
  }

  /** The last fallback (main.js:937-956): keeps `title` unless the text
      after the first word past the first comma qualifies. */
  method CommaPhase(originalTitle: string, title: string) returns (t: string)
    ensures CommaFallback(originalTitle).Some? ==> t == CommaFallback(originalTitle).value
    ensures CommaFallback(originalTitle).None? ==> t == title
  {
    t := title;
    var commaCount := CountChar(originalTitle, ',');
    if commaCount >= 1 {
      var firstComma := FirstComma(originalTitle);
      var afterFirstComma := Trim(originalTitle[firstComma + 1..]);
      var nextDelimiter := SpaceOrComma(afterFirstComma, 0);
      FallbackStartWithComma(originalTitle, firstComma, afterFirstComma, nextDelimiter);
      if nextDelimiter < |afterFirstComma| {
        var startOfTitle := firstComma + 1 + nextDelimiter + 1;
        var potentialTitle := Trim(originalTitle[startOfTitle..]);
        CommaFallbackFrom(originalTitle, startOfTitle);
        if Truthy(potentialTitle) && !AuthorPair(potentialTitle) {
          t := potentialTitle;
        }
      } else {
        CommaFallbackWithoutStart(originalTitle);
      }
    } else {
      FallbackStartWithoutComma(originalTitle);
      CommaFallbackWithoutStart(originalTitle);
    }
  }

  // Unfoldings of the fallback functions, one case each.

  lemma FallbackStartWithComma(o: string, firstComma: nat, after: string, d: nat)
    requires CountChar(o, ',') >= 1 && firstComma == FirstComma(o)
    requires after == Trim(o[firstComma + 1..]) && d == SpaceOrComma(after, 0)
    ensures FallbackStart(o).Some? <==> d < |after|
    ensures FallbackStart(o).Some? ==> FallbackStart(o).value == firstComma + 1 + d + 1
  {
  }

  lemma FallbackStartWithoutComma(o: string)
    requires CountChar(o, ',') == 0
    ensures FallbackStart(o).None?
  {
  }

  lemma CommaFallbackFrom(o: string, start: nat)
    requires FallbackStart(o).Some? && FallbackStart(o).value == start
    ensures start <= |o|
    ensures CommaFallback(o).Some? <==> Truthy(Trim(o[start..])) && !AuthorPair(Trim(o[start..]))
    ensures CommaFallback(o).Some? ==> CommaFallback(o).value == Trim(o[start..])
  {
  }

  lemma CommaFallbackWithoutStart(o: string)
    requires FallbackStart(o).None?
    ensures CommaFallback(o).None?
  {
  }

  // ------------------------------------------------------------ properties

  lemma SuffixOccurs(s: string, i: nat)
    requires i <= |s|
    ensures OccursAt(s, s[i..], i)
  {
  }

  /** The trimmed rest of `s` from `i` occurs in `s`. */
  lemma TrimOfSuffix(s: string, i: nat) returns (j: nat)
    requires i <= |s|
    ensures OccursAt(s, Trim(s[i..]), j)
  {
    var t := TrimOccurs(s[i..]);
    SuffixOccurs(s, i);
    j := OccursAtTrans(s, s[i..], Trim(s[i..]), i, t);
  }

  /** What the contributor steps keep is a piece of the title. */
  lemma StripThenTrimOccurs(rest: string) returns (j: nat)
    ensures OccursAt(rest, Trim(StripLeadMarks(rest)), j)
  {
    var remainder := StripLeadMarks(rest);
    var m := |rest| - |remainder|;
    SuffixOccurs(rest, m);
    var t := TrimOccurs(remainder);
    j := OccursAtTrans(rest, remainder, Trim(remainder), m, t);
  }

  lemma HeadingRemainderOccurs(title: string, name: string) returns (i: nat)
    requires |name| <= |title| && HeadingRemainder(title, name).Some?
    ensures OccursAt(title, HeadingRemainder(title, name).value, i)
  {
    var rest := title[|name|..];
    var r := HeadingRemainder(title, name).value;
    assert r == Trim(StripLeadMarks(rest));
    var j := StripThenTrimOccurs(rest);
    SuffixOccurs(title, |name|);
    i := OccursAtTrans(title, rest, r, |name|, j);
  }

  lemma ContributorStepOccurs(title: string, name: string) returns (i: nat)
    requires ContributorStep(title, name).Some?
    ensures OccursAt(title, ContributorStep(title, name).value, i)
  {
    if Truthy(name) && StartsWith(title, name) {
      i := HeadingRemainderOccurs(title, name);
    } else {
      i := |title| - |SurnameRemainder(title, Surname(name)).value|;
      SuffixOccurs(title, i);
    }
  }

  /** So is what the comma fallback picks. */
  lemma CommaFallbackOccurs(orig: string) returns (i: nat)
    requires CommaFallback(orig).Some?
    ensures OccursAt(orig, CommaFallback(orig).value, i)
  {
    i := TrimOfSuffix(orig, FallbackStart(orig).value);
  }

  /** And what the secondary fallback leaves. */
  lemma SecondaryFallbackOccurs(orig: string) returns (i: nat)
    ensures OccursAt(orig, SecondaryFallback(orig), i)
  {
    var title := YearCut(orig);
    if (!Truthy(title) || AuthorForm(title)) && CommaFallback(orig).Some? {
      i := CommaFallbackOccurs(orig);
    } else {
      i := |orig| - |title|;
      SuffixOccurs(orig, i);
    }
  }

  /** The extracted title is a contiguous piece of the title it started
      from: every step keeps a suffix or trims one. */
  lemma TitleOfIsSubstring(title: string, name: string) returns (i: nat)
    ensures OccursAt(title, TitleOf(title, name), i)
  {
    if ContributorStep(title, name).Some? {
      i := ContributorStepOccurs(title, name);
    } else if !AuthorForm(title) {
      i := 0;
    } else if AuthorCut(title).Some? {
      i := |title| - |AuthorCut(title).value|;
      SuffixOccurs(title, i);
    } else {
      i := SecondaryFallbackOccurs(title);
    }
  }

  lemma TrimOfTrimmed(s: string)
    requires s != [] && !IsSpace(s[0]) && !IsSpace(s[|s| - 1])
    ensures Trim(s) == s
  {
    assert SpaceRun(s, 0) == 0;
    assert TrailingSpaces(s) == 0;
  }

  lemma {:induction false} LeadMarkRunIs(s: string, i: nat, j: nat)
    requires i <= j <= |s|
    requires forall k :: i <= k < j ==> IsLeadMark(s[k])
    requires j == |s| || !IsLeadMark(s[j])
    ensures LeadMarkRun(s, i) == j - i
    decreases j - i
  {
    if i < j {
      LeadMarkRunIs(s, i + 1, j);
    }
  }

  lemma StripLeadMarksOf(marks: string, rest: string)
    requires forall k :: 0 <= k < |marks| ==> IsLeadMark(marks[k])
    requires rest == [] || !IsLeadMark(rest[0])
    ensures StripLeadMarks(marks + rest) == rest
  {
    var s := marks + rest;
    assert forall k :: 0 <= k < |marks| ==> s[k] == marks[k];
    LeadMarkRunIs(s, 0, |marks|);
    assert s[|marks|..] == rest;
  }

  /** A title that starts with the known heading loses exactly the heading
      and the separators after it (main.js:842-853). */
  lemma KnownHeadingIsStripped(name: string, marks: string, rest: string)
    requires Truthy(name)
    requires forall k :: 0 <= k < |marks| ==> IsLeadMark(marks[k])
    requires rest != [] && !IsLeadMark(rest[0]) && !IsSpace(rest[|rest| - 1])
    ensures TitleOf(name + marks + rest, name) == rest
  {
    var title := name + marks + rest;
    assert title[..|name|] == name;
    assert title[|name|..] == marks + rest;
    StripLeadMarksOf(marks, rest);
    TrimOfTrimmed(rest);
  }

  lemma GreatWarExample(title: string, name: string)
    requires title == "Smith, John. The Great War" && name == "Smith, John"
    ensures TitleOf(title, name) == "The Great War"
  {
    assert title == name + ". " + "The Great War";
    KnownHeadingIsStripped(name, ". ", "The Great War");
  }

  /** A title without a comma that starts with neither the heading nor its
      surname comes through unchanged. */
  lemma UnchangedWithoutCommaOrPrefix(title: string, name: string)
    requires ',' !in title
    requires !Truthy(name) || (!StartsWith(title, name) && !StartsWith(title, Surname(name)))
    ensures TitleOf(title, name) == title
  {
    assert FirstComma(title) == |title|;
  }

  /** Without a heading every step is skipped on a title that fails the
      author-form gate. */
  lemma UnchangedOutsideAuthorForm(title: string)
    requires !AuthorForm(title)
    ensures TitleOf(title, "") == title
  {
  }

  /** Two spaces after the comma make the last fallback start inside the
      first name's last letter: "Smith,  John Title" gives "n Title", where
      "Title" was evidently meant. */
  lemma CommaFallbackOffByOne(s: string)
    requires s == "Smith,  John Title"
    ensures CommaFallback(s) == Some("n Title")
  {
    var t := "n Title";
    assert s[11..] == t;
    TwoSpacesStart(s);
    NTitleKept(t);
  }

  lemma TwoSpacesStart(s: string)
    requires s == "Smith,  John Title"
    ensures FallbackStart(s) == Some(11)
  {
    assert s[5] == ',' && ',' !in s[..5];
    assert FirstComma(s) == 5;
    TwoSpacesTrim(s[6..]);
    TitleWordEnd("John Title");
  }

  lemma TwoSpacesTrim(after: string)
    requires after == "  John Title"
    ensures Trim(after) == "John Title"
  {
    assert SpaceRun(after, 0) == 2 by {
      assert IsSpace(after[0]) && IsSpace(after[1]) && !IsSpace(after[2]);
    }
    assert TrailingSpaces(after) == 0;
  }

  lemma TitleWordEnd(t: string)
    requires t == "John Title"
    ensures SpaceOrComma(t, 0) == 4
  {
    assert !IsSpace(t[0]) && !IsSpace(t[1]) && !IsSpace(t[2]) && !IsSpace(t[3]) && IsSpace(t[4]);
  }

  lemma NTitleKept(t: string)
    requires t == "n Title"
    ensures Trim(t) == t && !AuthorPair(t)
  {
    TrimOfTrimmed(t);
    assert ',' !in t;
    assert FirstComma(t) == 7;
  }
}
