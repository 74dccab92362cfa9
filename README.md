# bibframe.org search front-end: the reconciliation and ranking core

`main.js` is the browser script of a search front-end over the Library of
Congress Linked Data Service. Inside its DOM and fetch handlers sits the logic
that decides what the user sees:

- the edit distance and name initials used for ranking;
- the cascade that cuts an author heading off a work's label to leave its title;
- the normal form of a title;
- dedup of the works of a contributor by URI, their classification as text or
  non-text, the tally of literal title forms and the grouping of works under a
  normalised key with the most common form as display title, and the order of
  the groups;
- the scoring and four-key ordering of title hits, the matching of a clicked
  contributor's works (top twenty, then good and poor matches), and the
  contributor and instance orders;
- the emphasis of the newest year in a publication statement;
- the field lookups of the work/instance summary over a JSON-LD graph.

This project models that logic in Dafny and proves its properties. The modules
follow those concerns:

| module | file | what it holds |
|---|---|---|
| `JsText` | `js_text.dfy` | the JavaScript string primitives the code relies on (`toLowerCase`, `trim`, `indexOf`, `replace` of a first occurrence, `split('/').pop()`, `parseInt`) |
| `Sorting` | `sorting.dfy` | `Array.prototype.sort` with a comparator, as an insertion sort over an array; `filter` |
| `StringMetrics` | `string_metrics.dfy` | `levenshteinDistance` as the table-filling method proved equal to a recursive edit distance; `getInitials` |
| `TitlePatterns` | `title_patterns.dfy` | each regular expression of the title cascade as an explicit matcher |
| `TitleExtractor` | `title_extractor.dfy` | the initial title and the extraction cascade, as a method that reassigns `title` step by step and the function it is proved equal to |
| `RecordNormalizer` | `record_normalizer.dfy` | `normalizeTitle`, dedup by URI, classification, the title tally, the grouping loop, the order of the groups |
| `CandidateRanker` | `candidate_ranker.dfy` | `formatTitles` scoring and sort, the `handleTitleClick` matches, the contributor and instance sorts |
| `YearHighlight` | `year_highlight.dfy` | the newest-year emphasis |
| `GraphResolver` | `graph_resolver.dfy` | the lookups of `extractSummaryData` and of the instance label |

Conventions of the model:

- Strings are `seq<char>`, and case mapping is ASCII only.
- A JavaScript value that may be `undefined`, `null` or a string is modelled as a
  string, `""` for the falsy cases, wherever the code only tests it for
  truthiness.
- A `parseInt` that gives `NaN` is `None`.
- A comparator's `NaN` result is the comparator result 0, as `sort` reads it.
- A JSON-LD graph is a sequence of nodes; each node has an optional `@id`, its
  `@type` list and a map from predicate IRIs to sequences of terms.
- An exception the code would throw, such as indexing `[0]` of a missing
  property, is the `TypeError` case of a result type.
- The answers of the network requests are function parameters (`fetched`).

## Model

A row for a definition without a contract of its own names the lemmas and methods that state its properties.

| member | source | states |
|---|---|---|
| StringMetrics.EditDistance | main.js:74-97 | the edit distance that the table holds in its last cell, defined by recursion on the last characters. LevenshteinDistance returns it, and EditDistanceZeroIff, EditDistanceSymmetric and the two bounds state its properties |
| StringMetrics.LevenshteinDistance | main.js:74-97 | the table-filling loops return the edit distance of the two strings; with one string empty the result is the other's length |
| StringMetrics.FillRow | main.js:85-94 | filling row `j` of `track` from row `j - 1` leaves rows 0..j holding the edit distances of the prefixes, and later rows untouched |
| StringMetrics.EditDistanceStep | main.js:87-92 | the distance of two non-empty prefixes is the minimum of deletion, insertion and substitution (cost 0 on equal characters) |
| StringMetrics.EditDistanceSelf | main.js:74-97 | the distance of a string to itself is 0 |
| StringMetrics.EditDistanceZero | main.js:74-97 | distance 0 only between equal strings |
| StringMetrics.EditDistanceZeroIff | main.js:74-97 | distance 0 exactly when the strings are equal |
| StringMetrics.EditDistanceSymmetric | main.js:74-97 | the distance does not depend on the order of the arguments |
| StringMetrics.EditDistanceUpperBound | main.js:74-97 | the distance is at most the longer length |
| StringMetrics.EditDistanceLowerBound | main.js:74-97 | the distance is at least the difference of the lengths |
| StringMetrics.Min3 | main.js:88-92 | `Math.min` of three: no larger than any argument and equal to one of them |
| StringMetrics.PartLength | main.js:66 | the length of the leading run of characters not in `[,\s]` |
| StringMetrics.NameParts | main.js:66 | `split(/[,\s]+/).filter(part => part.length > 0)`: every part is non-empty and free of separators |
| StringMetrics.GetInitials | main.js:64-71 | empty name gives ""; two or more parts give the upper-cased first letters of the second and then the first part; one part gives its upper-cased first letter; never a lower-case letter |
| StringMetrics.PartLengthOfPart | main.js:66 | a part followed by a separator or the end is read whole |
| StringMetrics.NamePartsSkipsSeparators | main.js:66 | leading separators produce no part |
| StringMetrics.NamePartsOfPart | main.js:66 | a part before a separator is the first part |
| StringMetrics.NamePartsOfJoin | main.js:66 | parts joined by separators split back into the same parts |
| StringMetrics.InitialsOfInvertedName | main.js:64-71 | "Last, First" gives the initial of First then of Last |
| Sorting.InsertionSort | main.js:373-391 | sorting in place with a comparator that never says "after" both ways leaves a permutation with no neighbour pair out of order |
| Sorting.InsertAt | main.js:373-391 | inserting element `i` into the ordered prefix keeps a permutation and orders the prefix up to `i` |
| Sorting.SwapDown | main.js:373-391 | the new array is the old one with the two neighbours exchanged, the same multiset |
| Sorting.InsertingStep | main.js:373-391 | exchanging the moving element with a larger lower neighbour keeps both sides ordered, one place lower |
| Sorting.SortSeq | main.js:373-391 | the sorted copy is a permutation of the input with neighbours in comparator order |
| Sorting.AdjacentOrderedIsSorted | main.js:1028-1033 | with a transitive comparator neighbour order is full order |
| Sorting.FirstWhere | main.js:715-718 | `find` from a position: the first index whose element passes, every earlier one failing, None only when none passes |
| Sorting.Filter | main.js:1045-1046 | `filter` keeps only elements of the input that pass the test |
| Sorting.FilterCount | main.js:1045-1046 | each element is kept as often as it occurs when it passes the test, and not at all otherwise |
| Sorting.FilterSorted | main.js:1045-1046 | filtering a sorted sequence leaves it sorted |
| JsText.Lower | main.js:751 | `toLowerCase`: same length, each character mapped |
| JsText.ToLowerChar | main.js:751 | lower-casing leaves no upper-case ASCII letter and changes nothing else |
| JsText.ToUpperChar | main.js:68 | upper-casing leaves no lower-case ASCII letter and inverts lower-casing |
| JsText.IndexOf | main.js:905 | `indexOf`: the first position of an occurrence, None exactly when there is none |
| JsText.FindFrom | main.js:905 | the first occurrence at or after a position |
| JsText.ReplaceFirst | main.js:330 | `replace` with a string pattern: unchanged without an occurrence, otherwise the length changes by the difference |
| JsText.Upper | main.js:68 | `toUpperCase`: same length, each character mapped |
| JsText.SpaceRun | main.js:847 | the longest run of `\s` from a position |
| JsText.DigitRun | main.js:357 | the longest run of decimal digits from a position, as `parseInt` reads it |
| JsText.HexRun | main.js:357 | the longest run of hexadecimal digits, as `parseInt` reads after `0x` |
| JsText.TrimStart | main.js:850 | `trim` at the front: drops exactly the leading white space |
| JsText.TrimEnd | main.js:850 | `trim` at the back: drops exactly the trailing white space |
| JsText.Trim | main.js:850 | `trim` leaves no leading or trailing white space |
| JsText.TrimOccurs | main.js:850 | the trimmed string occurs inside the original |
| JsText.LastSegment | main.js:766 | `split('/').pop()`: the suffix after the last slash, free of slashes |
| JsText.ParseInt | main.js:357 | `parseInt` without a radix, with None for NaN. ParseIntUnsigned, ParseIntDecimal and ParseIntOfDigits state what it reads |
| JsText.ParseIntDecimal | main.js:1331 | `parseInt` reads back a decimal number followed by a non-digit |
| JsText.ParseIntUnsigned | main.js:357 | `parseInt` of a string starting with a digit skips no sign or space and reads the unsigned number |
| JsText.ParseIntOfDigits | main.js:357 | `parseInt` of digits is their decimal value |
| JsText.IndexOfChar | main.js:944 | searching a one-character string is the scan for that character |
| TitlePatterns.FirstComma | main.js:877 | `[^,]+,`: the position of the first comma, |s| when there is none |
| TitlePatterns.AuthorFormOf | main.js:877 | the gate `^[^,]+,\s*[^,.]+` and `^[^,]+,\s*[^,]+` hold after a comma-free name exactly when what follows the comma starts with a character other than comma (and period) |
| TitlePatterns.AuthorFormIsAuthorPair | main.js:951 | a label passing the gate also matches the looser `^[^,]+,\s*[^,]+` |
| TitlePatterns.CharRun | main.js:860-861 | the run of one character from a position |
| TitlePatterns.LetterRun | main.js:901 | the run of `[A-Za-z]` from a position |
| TitlePatterns.PeriodEnd | main.js:860 | `[^.]*\.s+` after the surname: the first period must be followed by a literal `s`, and the match ends after the run of `s` |
| TitlePatterns.DashEnd | main.js:861 | `[^.]*[-–]s+`: a dash followed by literal `s` exists before the first period exactly when the pattern matches |
| TitlePatterns.SurnameMatch | main.js:859-867 | a surname pattern matches only a title starting with the surname and ends past it |
| TitlePatterns.PeriodPatternNeedsLetterS | main.js:860 | "Surname … .␠Title" with white space after the period is not matched by the period pattern |
| TitlePatterns.PeriodTail | main.js:882 | `\s*\.\s+` from a position: ends after white space that follows a period |
| TitlePatterns.DatesThenPeriod | main.js:882 | the optional dates group then `\s*\.\s+` end past the start |
| TitlePatterns.FirstWordAt | main.js:882 | the first honorific of the list that occurs at a position, None when none does |
| TitlePatterns.HonorificRest | main.js:882 | `[^,]*` after an honorific, backtracking, ends past its start |
| TitlePatterns.HonorificGroup | main.js:882 | the optional `,\s*(?:Sir\|Dr\|…)[^,]*` group ends past its comma |
| TitlePatterns.AfterName | main.js:882 | the honorific and dates groups then the period tail end past the name |
| TitlePatterns.NameEnd | main.js:882 | backtracking over `[^,]+` for the second name part ends past the first comma |
| TitlePatterns.HonorificMatch | main.js:882 | a match of the honorific pattern ends past the first comma and within the label |
| TitlePatterns.DatesTail | main.js:891 | `(?:\d{4})?\s*[-.]?\s*` with longest choices ends within the label and not before white space |
| TitlePatterns.DatesMatch | main.js:891 | a match of the dates pattern needs a second comma and ends past four digits and a dash after it, not before white space |
| TitlePatterns.CapitalAfterPeriod | main.js:901 | `\s*\.\s+([A-Z])`: the capital it captures follows white space |
| TitlePatterns.ParenThenCapital | main.js:901 | the optional parenthetical then the period and capital |
| TitlePatterns.NameThenCapital | main.js:901 | the optional name word then the rest |
| TitlePatterns.InitialsFrom | main.js:901 | `(?:[A-Z]\.?\s*)+` with backtracking, then the rest |
| TitlePatterns.AfterInitial | main.js:901 | the choices after one initial |
| TitlePatterns.InitialsMatch | main.js:901 | the initials pattern captures an upper-case letter after the first comma |
| TitlePatterns.InitialsCut | main.js:905 | the cut is at the first occurrence in the whole label of the captured letter, at or before the captured position |
| TitlePatterns.LastPeriodMatch | main.js:912 | `^[^,]+,\s*[^.]+\.\s+`: a match ends after the white space following the first period after the comma |
| TitlePatterns.YearRangeAt | main.js:926 | `\d{4}[-–]\d{0,4}\s+` at a position: four digits and a dash, ending past them |
| TitlePatterns.YearEndAt | main.js:927 | `\d{4}[-–]\s+` at a position ends past the dash |
| TitlePatterns.YearRangeFrom | main.js:926 | the leftmost match of the year-range pattern, None only when no position matches |
| TitlePatterns.YearEndFrom | main.js:927 | the leftmost match of the year-dash pattern |
| TitlePatterns.YearEndIsYearRange | main.js:926-927 | wherever the year-dash pattern matches, the year-range pattern matches the same text |
| TitlePatterns.YearEndBranchIsDead | main.js:929-935 | whenever `yearEndMatch` succeeds `yearMatch` succeeds too, so the `else if` branch is never taken |
| TitleExtractor.InitialTitle | main.js:765-829 | the API label when truthy; without bibframe data or without the work's node, `Work {id}`; with the node found, the first `bflc:aap` value when the node has one (truthy), else the first `mainTitle` of the node its first `bf:title` points at (truthy), and `Work {id}` when the chosen value is missing or empty; never empty |
| TitleExtractor.LeadMarkRun | main.js:847 | the run of `[\s.,:\-–—]` from a position |
| TitleExtractor.StripLeadMarks | main.js:847 | `replace(/^[\s.,:\-–—]+/, '')` removes exactly the leading marks |
| TitleExtractor.FirstSurnameMatch | main.js:864-872 | the first surname pattern that matches, ending past the surname |
| TitleExtractor.SurnameRemainder | main.js:854-874 | a partial match leaves a proper suffix of the title |
| TitleExtractor.AuthorEnd | main.js:882-917 | the end of the first of the four author patterns that matches |
| TitleExtractor.AuthorCut | main.js:877-918 | the title left by the author patterns is a suffix of the label |
| TitleExtractor.YearCut | main.js:925-936 | the year step leaves a suffix |
| TitleExtractor.CountChar | main.js:941 | `(s.match(/,/g) \|\| []).length`: 0 exactly when there is no comma |
| TitleExtractor.SpaceOrComma | main.js:946 | `search(/[\s,]/)`: the first white space or comma from a position |
| TitleExtractor.FallbackStart | main.js:940-948 | the computed `startOfTitle` lies past the first comma |
| TitleExtractor.CommaFallback | main.js:937-956 | the fallback title is non-empty and does not look like another name |
| TitleExtractor.TitleOf | main.js:838-959 | the title the cascade leaves. ExtractTitle computes it, and TitleOfIsSubstring, KnownHeadingIsStripped and the two "unchanged" lemmas state its properties |
| TitleExtractor.ExtractTitle | main.js:838-959 | the cascade that reassigns `title` returns the title function of the label and contributor |
| TitleExtractor.ContributorPhase | main.js:842-874 | the contributor steps succeed exactly when a known-heading or surname strip applies, and then give its result |
| TitleExtractor.AuthorPhase | main.js:877-920 | the author patterns succeed exactly when one matches, and then give the cut |
| TitleExtractor.FallbackPhase | main.js:922-958 | the additional processing on the untouched title |
| TitleExtractor.YearPhase | main.js:925-936 | the year step that reassigns `title` gives the year cut |
| TitleExtractor.CommaPhase | main.js:937-956 | the comma fallback replaces the title only when it applies |
| TitleExtractor.FallbackStartWithComma | main.js:941-948 | with a comma, the start is `firstComma + 1 + nextDelimiter + 1` exactly when a delimiter is found |
| TitleExtractor.FallbackStartWithoutComma | main.js:942 | without a comma there is no fallback |
| TitleExtractor.CommaFallbackFrom | main.js:949-953 | the fallback is the trimmed rest from the start, exactly when that is non-empty and not name-like |
| TitleExtractor.CommaFallbackWithoutStart | main.js:947 | no delimiter, no fallback |
| TitleExtractor.SuffixOccurs | main.js:844 | a suffix occurs in the string |
| TitleExtractor.TrimOfSuffix | main.js:949 | the trimmed rest occurs in the string |
| TitleExtractor.StripThenTrimOccurs | main.js:847-850 | stripping marks and trimming leaves a substring |
| TitleExtractor.HeadingRemainderOccurs | main.js:842-853 | the known-heading remainder occurs in the label |
| TitleExtractor.ContributorStepOccurs | main.js:842-874 | the contributor step's title occurs in the label |
| TitleExtractor.CommaFallbackOccurs | main.js:937-956 | the fallback title occurs in the original label |
| TitleExtractor.SecondaryFallbackOccurs | main.js:922-958 | the additional processing leaves a substring of the original label |
| TitleExtractor.TitleOfIsSubstring | main.js:838-959 | the extracted title always occurs in the label |
| TitleExtractor.TrimOfTrimmed | main.js:850 | trimming a trimmed string changes nothing |
| TitleExtractor.LeadMarkRunIs | main.js:847 | the run of marks ends at the first non-mark |
| TitleExtractor.StripLeadMarksOf | main.js:847 | stripping removes exactly a leading run of marks |
| TitleExtractor.KnownHeadingIsStripped | main.js:842-853 | a label made of the known contributor, separators and a trimmed rest not starting with a mark gives exactly that rest |
| TitleExtractor.GreatWarExample | main.js:842-853 | "Smith, John. The Great War" with contributor "Smith, John" gives "The Great War" |
| TitleExtractor.UnchangedWithoutCommaOrPrefix | main.js:838-959 | a label with no comma and no contributor or surname prefix is returned unchanged |
| TitleExtractor.UnchangedOutsideAuthorForm | main.js:877 | without a contributor, a label failing the gate is returned unchanged |
| TitleExtractor.CommaFallbackOffByOne | main.js:944-949 | "Smith,  John Title" (two spaces) gives "n Title": the delimiter is found in the trimmed rest but the offset is applied to the untrimmed one |
| TitleExtractor.TwoSpacesStart | main.js:944-948 | in that label `startOfTitle` is 11 |
| TitleExtractor.TwoSpacesTrim | main.js:945 | the rest after the comma trims to "John Title" |
| TitleExtractor.TitleWordEnd | main.js:946 | the delimiter in the trimmed rest is at 4 |
| TitleExtractor.NTitleKept | main.js:951 | "n Title" passes the not-a-name test |
| RecordNormalizer.RemovePunct | main.js:752 | the punctuation class is gone, nothing is longer, and no upper-case letter appears |
| RecordNormalizer.CollapseSpaces | main.js:753 | `replace(/\s+/g, ' ')`: no two white spaces in a row remain, empty stays empty, and key characters stay key characters |
| RecordNormalizer.NormalizeTitle | main.js:749-755 | the grouping key of a title. NormalizeTitleIsKey, NormalizeTitleIdempotent and the punctuation, case and white-space invariance lemmas state its properties |
| RecordNormalizer.NormalizeTitleIsKey | main.js:749-755 | the normal form has no upper case, no punctuation of the class, no leading, trailing or double white space |
| RecordNormalizer.KeyCharsOfSubstring | main.js:754 | a substring of a key-character string without double spaces has the same properties |
| RecordNormalizer.RemovePunctOfKey | main.js:752 | removing punctuation from a string without any changes nothing |
| RecordNormalizer.CollapseSpacesOfKey | main.js:753 | collapsing a string without double spaces changes nothing |
| RecordNormalizer.NormalizeTitleOfKey | main.js:749-755 | a normal form is its own normal form |
| RecordNormalizer.NormalizeTitleIdempotent | main.js:749-755 | normalising twice is normalising once |
| RecordNormalizer.RemovePunctAppend | main.js:752 | punctuation removal distributes over concatenation |
| RecordNormalizer.LowerOfPunct | main.js:751 | lower-casing leaves a punctuation mark in place |
| RecordNormalizer.RemovePunctDrops | main.js:752 | a punctuation mark between two texts is dropped |
| RecordNormalizer.NormalizeTitleIgnoresPunct | main.js:749-755 | inserting a mark of the class does not change the key |
| RecordNormalizer.NormalizeTitleIgnoresCase | main.js:749-755 | titles equal up to ASCII case have the same key |
| RecordNormalizer.SpaceRunOfSpaces | main.js:753 | a run to the end of all-space text spans it |
| RecordNormalizer.SpaceRunAppend | main.js:753 | a space run continues into the next text |
| RecordNormalizer.SpaceRunShift | main.js:753 | a space run inside a later part is unaffected by what comes before |
| RecordNormalizer.SpaceRunStops | main.js:753 | a run ending inside the first part is not extended |
| RecordNormalizer.CollapseLeadingSpaces | main.js:753 | a leading space run becomes one space |
| RecordNormalizer.CollapseSpaceRuns | main.js:753 | two space runs of any lengths before the same text collapse alike |
| RecordNormalizer.CollapseSpaceRunsWord | main.js:753 | the same after a word |
| RecordNormalizer.CollapseSpaceRunsSpace | main.js:753 | the same after a space run |
| RecordNormalizer.LowerOfSpaces | main.js:751 | lower-casing keeps white space |
| RecordNormalizer.RemovePunctOfSpaces | main.js:752 | punctuation removal keeps white space |
| RecordNormalizer.NormalizeTitleIgnoresSpaceRuns | main.js:749-755 | the length of a white-space run does not change the key |
| RecordNormalizer.CleanSpaceRun | main.js:751-752 | lower-casing and punctuation removal around a space run |
| RecordNormalizer.CatInTheHatExample | main.js:749-755 | "The Cat, in the Hat!" and "the cat in the hat" have the key "the cat in the hat" |
| RecordNormalizer.CatInTheHatPunct | main.js:752 | the two marks of the example do not matter |
| RecordNormalizer.CatInTheHatBang | main.js:752 | the final "!" does not matter |
| RecordNormalizer.CatInTheHatComma | main.js:752 | the comma does not matter |
| RecordNormalizer.CatInTheHatCase | main.js:751 | case does not matter |
| RecordNormalizer.CatInTheHatKey | main.js:749-755 | "the cat in the hat" is its own key |
| RecordNormalizer.UriSet | main.js:677-682 | every record's URI is among the URIs |
| RecordNormalizer.UriSetSource | main.js:677-682 | every URI comes from a record |
| RecordNormalizer.FirstByUri | main.js:676-683 | the dedup is no longer than its input |
| RecordNormalizer.FirstByUriDistinct | main.js:676-683 | the kept records have distinct URIs and every input URI is represented |
| RecordNormalizer.FirstByUriStep | main.js:679-681 | a record with a seen URI is skipped, with a new URI appended |
| RecordNormalizer.DedupByUri | main.js:677-683 | the `uriMap` loop returns the first record of each URI in first-occurrence order |
| RecordNormalizer.MapValues | main.js:682 | `Array.from(uriMap.values())`: the value of each key, in insertion order |
| RecordNormalizer.FirstByUriIsFirstOccurrences | main.js:676-683 | the kept records are the input at strictly increasing indices, each the first index of its URI: a subsequence holding first occurrences |
| RecordNormalizer.FirstOccurrencesKeep | main.js:679 | a skipped record keeps the index list valid |
| RecordNormalizer.FirstOccurrencesAdd | main.js:680 | a record with a new URI extends the index list with its index |
| RecordNormalizer.FirstSpecificType | main.js:715-718 | `find` of the first type whose last segment is not Work, Monograph or Text |
| RecordNormalizer.Classify | main.js:701-736 | never text and non-text together; a work type only for non-text works, never Work, Monograph or Text; a failed fetch gives text; otherwise text exactly when the type list has bf:Text, non-text exactly when it lacks it and has more than one type |
| RecordNormalizer.ClassifyWorkType | main.js:719-721 | the work type is the last segment of the first specific type |
| RecordNormalizer.Forms | main.js:965-971 | every entry's form is among the forms |
| RecordNormalizer.AddForm | main.js:968-971 | counting a form adds it to the forms and keeps counts positive |
| RecordNormalizer.FormsSource | main.js:965-971 | every form has an entry |
| RecordNormalizer.AddFormDistinct | main.js:968-971 | forms stay distinct |
| RecordNormalizer.AddFormCount | main.js:971 | counting adds one to that form's count and nothing to the others |
| RecordNormalizer.DisplayTitles | main.js:979 | the display titles of the works, in order |
| RecordNormalizer.CountTitles | main.js:962-971 | the `titleCounts` table after the first loop. CountTitlesWellKeyed, CountTitlesCounts, TallyForms and TallyFirstSeen state its properties |
| RecordNormalizer.CountTitlesWellKeyed | main.js:962-971 | each key holds distinct positive forms normalising to the key |
| RecordNormalizer.CountTitlesCounts | main.js:962-971 | the table counts each literal form exactly as often as it occurs among the titles |
| RecordNormalizer.CountWork | main.js:965-971 | the in-place update of `titleCounts` is the counting of one more title |
| RecordNormalizer.CountTitlesStep | main.js:962-971 | counting the next work's title extends the table of the works so far |
| RecordNormalizer.WorkTitleOf | main.js:765-959 | the title computed for a work is the extraction applied to its initial title |
| RecordNormalizer.TitledFromAt | main.js:979-980 | each titled work keeps the URI and kind of its record, its display title is the work's title and its key the title's normal form |
| RecordNormalizer.TitledFromConsistent | main.js:962-980 | every work's key is the normal form of its display title |
| RecordNormalizer.TitledFromAppend | main.js:978-980 | a work titled as its record extends the titled works |
| RecordNormalizer.TitleWork | main.js:763-987 | one pass of the title loop titles the next work and counts its title |
| RecordNormalizer.TitleWorks | main.js:763-987 | the title loop titles every work in order and leaves the table of all their titles |
| RecordNormalizer.MostCommon | main.js:1004-1013 | the form that the strict-greater scan over the entries keeps, else the fallback. MostCommonIsFirstMaximum, MostCommonChoice and MostCommonFirstSeen state its properties |
| RecordNormalizer.DisplayFor | main.js:1003-1013 | the display title of a work: the most common form of its key. DisplayForIsMostCommon and GroupTitleIsMostCommon state its properties |
| RecordNormalizer.MostCommonForm | main.js:1003-1013 | the `maxCount` scan returns the form the strict-greater rule picks |
| RecordNormalizer.MaxCountBounds | main.js:1007-1012 | no entry counts more than the maximum |
| RecordNormalizer.MostCommonIsFirstMaximum | main.js:1003-1013 | the chosen form is the first entry with the highest count: none counts more, every earlier one counts less |
| RecordNormalizer.MostCommonChoice | main.js:1003-1013 | the choice is an entry's form or the work's own title |
| RecordNormalizer.FormsOfPrefix | main.js:1007 | the forms of a prefix of the entries are forms of the entries |
| RecordNormalizer.CountOfEntry | main.js:1007 | with distinct forms an entry's count is its form's count |
| RecordNormalizer.CountOfAtMostMax | main.js:1007-1012 | no form counts more than the maximum |
| RecordNormalizer.MaxCountOfTail | main.js:1007-1012 | dropping the first entry does not raise the maximum |
| RecordNormalizer.MaxCountWitness | main.js:1007-1012 | the maximum is some entry's count |
| RecordNormalizer.PushWork | main.js:1016-1022 | creating the group when missing and pushing the work is adding the work to the groups |
| RecordNormalizer.GroupAll | main.js:990-1023 | the grouping that the second loop builds. GroupWorks computes it; GroupAllWellGrouped, GroupAllMembers, GroupSizesSum, GroupAllFiles and GroupAllTitled state its properties |
| RecordNormalizer.GroupWorks | main.js:990-1023 | the grouping loop with `seenUris` builds the text and non-text groups of the grouping function |
| RecordNormalizer.AddToGroupsKeyed | main.js:1016-1022 | keys stay distinct and in step with the groups |
| RecordNormalizer.AddToGroupsFiled | main.js:1016-1022 | every member keeps the group's key and the partition's kind |
| RecordNormalizer.AddToGroupsWellGrouped | main.js:1016-1022 | keyed, non-empty, correctly filed groups stay so |
| RecordNormalizer.GroupAllWellGrouped | main.js:990-1023 | in both partitions every group is non-empty, every member has the group's key, text works only among text groups and non-text works only among non-text groups; the seen set is the set of URIs |
| RecordNormalizer.UriBag | main.js:990-1023 | one URI per work |
| RecordNormalizer.SizeOverMembers | main.js:1022 | the members of the groups are as many as the group sizes add up to |
| RecordNormalizer.MembersOverUnchanged | main.js:1017 | a new group leaves the members of the others alone |
| RecordNormalizer.UriBagPush | main.js:1022 | pushing adds the work's URI |
| RecordNormalizer.MembersOverGrow | main.js:1022 | pushing onto an existing group adds its URI to the members |
| RecordNormalizer.AddToGroupsMembers | main.js:1016-1022 | adding a work adds exactly its URI to the members |
| RecordNormalizer.GroupWorkMembers | main.js:992-1022 | one step keeps the members equal to the seen URIs |
| RecordNormalizer.GroupAllMembers | main.js:990-1023 | the members of both partitions together are the distinct URIs, each once |
| RecordNormalizer.GroupSizesSum | main.js:990-1023 | the group sizes of both partitions add up to the number of distinct URIs |
| RecordNormalizer.AddToGroupsKeeps | main.js:1022 | a filed work stays filed |
| RecordNormalizer.GroupWorkKeeps | main.js:992-1022 | a later step keeps a filed work filed |
| RecordNormalizer.GroupAllFiles | main.js:990-1023 | the first work with a URI is filed under its key in the partition of its kind |
| RecordNormalizer.WorkFiledOnce | main.js:990-1023 | that work is filed, and its URI occurs once among all members |
| RecordNormalizer.WorkUrisHas | main.js:998 | each work's URI is seen |
| RecordNormalizer.AddToGroupsTitled | main.js:1016-1021 | a group keeps the title chosen for its first work |
| RecordNormalizer.TitledByFirstWiden | main.js:992-1023 | the property holds for longer work lists |
| RecordNormalizer.GroupAllTitled | main.js:990-1023 | each group's title is the form chosen for its first work, a work of the list |
| RecordNormalizer.OccurrencesOfMember | main.js:962-971 | a title in the list occurs at least once |
| RecordNormalizer.DisplayForIsMostCommon | main.js:1003-1018 | the form chosen for a work normalises to its key and occurs at least as often as any form with that key |
| RecordNormalizer.GroupFirst | main.js:1016-1021 | a group's title was chosen for a work with the group's key |
| RecordNormalizer.GroupTitleIsMostCommon | main.js:962-1023 | each group's display title normalises to the key and no form with that key occurs more often; the counts are over text and non-text works alike |
| RecordNormalizer.TallyForms | main.js:965-971 | the forms under a key are exactly the titles with that key |
| RecordNormalizer.TallyNonEmpty | main.js:965-971 | a key present in the table has an entry |
| RecordNormalizer.AddFormShape | main.js:968-971 | counting again keeps the order of the forms; a new form goes last |
| RecordNormalizer.SeenBeforeGrow | main.js:965-971 | first-seen order survives one more title |
| RecordNormalizer.KeepOrder | main.js:965-971 | a title of another key keeps the order |
| RecordNormalizer.AddOrder | main.js:968-971 | counting a title keeps the entries in first-seen order |
| RecordNormalizer.CountedFormsIn | main.js:965-971 | every form under a key occurs among the titles |
| RecordNormalizer.TallyFirstSeen | main.js:965-971 | the entries of a key are in the order their forms were first seen, the order `Object.entries` gives |
| RecordNormalizer.OccurrencesPositive | main.js:971 | a title counted at least once is in the list |
| RecordNormalizer.MostCommonInOrder | main.js:1007-1012 | of two equally counted entries the chosen one comes first |
| RecordNormalizer.MostCommonFirstSeen | main.js:1003-1013 | of two forms of a key counted equally often, the chosen one was seen first |
| RecordNormalizer.GroupTitleFirstSeen | main.js:962-1023 | a group shows, of the forms with the highest count, the one seen first |
| RecordNormalizer.ByTitle | main.js:1028-1033 | the key comparator by display title. ByTitleOrder and SortedTitles state its properties |
| RecordNormalizer.ByTitleOrder | main.js:1028-1033 | the comparator on display titles is antisymmetric and transitive when `localeCompare` is |
| RecordNormalizer.SortedTitles | main.js:1028-1033 | the sorted keys are a permutation of the group keys in display-title order |
| RecordNormalizer.SplitTitles | main.js:1045-1046 | popular and unique keys together are the sorted keys, popular ones with more than one work and unique ones with exactly one, both still sorted |
| CandidateRanker.DropLeadingPeriod | main.js:330 | `replace(/^\.\s*/, '')` leaves a suffix |
| CandidateRanker.StripContributor | main.js:330 | removing one contributor never lengthens the label |
| CandidateRanker.StripContributors | main.js:329-331 | removing all contributors never lengthens the label |
| CandidateRanker.Score | main.js:319-370 | the scored record of one hit. ScoreDistance, QueryDistanceBounds, StripContributorOfPrefix, IsEnglishLanguageIff and TokenNumOfLetter state its parts |
| CandidateRanker.ScoreAll | main.js:319-370 | every hit is scored, in order |
| CandidateRanker.CompareHits | main.js:373-391 | the four-key comparator on the modelled flags. CompareHitsAntisymmetric, RankedByDistance and RankedTies state its properties |
| CandidateRanker.CompareHitsAntisymmetric | main.js:373-391 | the four-key comparator never says "after" both ways |
| CandidateRanker.FormatTitles | main.js:309-391 | the result is a permutation of the scored hits not excluded, with no neighbour pair out of comparator order |
| CandidateRanker.KeptHits | main.js:310-312 | the hits whose URI is not excluded. KeptHitsExact states its properties |
| CandidateRanker.KeptHitsExact | main.js:310-312 | a hit is kept, as often as it occurs, exactly when its URI is not excluded |
| CandidateRanker.RankedHitsKept | main.js:309-370 | each ranked entry is the score of an input hit whose URI is not excluded |
| CandidateRanker.RankedByDistance | main.js:373-377 | the ranked hits are in non-decreasing distance over all pairs |
| CandidateRanker.RankedTies | main.js:379-390 | on equal distance a hit with the contributor in its label goes first, then an English one, then the lower token number |
| CandidateRanker.ScoreDistance | main.js:334-348 | the bonus lowers the distance by at most 25 and only with the contributor in the label; without a query the distance is 999999 |
| CandidateRanker.QueryDistance | main.js:335-337 | the case-insensitive edit distance of query and label, 999999 without a query. QueryDistanceBounds states its properties |
| CandidateRanker.QueryDistanceBounds | main.js:335-337 | the distance is 0 exactly when query and label agree up to case, and at most the longer length |
| CandidateRanker.StripContributorOfPrefix | main.js:330 | a label starting with the contributor keeps the trimmed rest after an optional period |
| CandidateRanker.IsEnglishLanguageIff | main.js:351-354 | a language is English exactly when its lower-case form contains "eng" |
| CandidateRanker.TokenNumOfLetter | main.js:357 | a token such as "n123" has no number |
| CandidateRanker.MinDistance | main.js:1520 | `Math.min` of two distances, Infinity the largest |
| CandidateRanker.MatchDistance | main.js:1512-1520 | Infinity exactly when neither the search value nor the clicked label is truthy; otherwise the smaller of the distances to the search value (not lower-cased) and to the lower-cased clicked label |
| CandidateRanker.MatchAll | main.js:1512-1526 | every result paired with its distance, in order |
| CandidateRanker.CompareDistanceOrder | main.js:1530 | `a.distance - b.distance` by sign says "may stay before" exactly when the distance is no larger, and is a total preorder |
| CandidateRanker.RankMatches | main.js:1529-1531 | the scored results sorted by distance, a permutation |
| CandidateRanker.TopMatches | main.js:1531 | `.slice(0, 20)` keeps at most twenty |
| CandidateRanker.TopMatchesBest | main.js:1529-1531 | the first twenty of the sorted results, all of them when fewer, each at least as close as every later one |
| CandidateRanker.TopMatchesRest | main.js:1529-1531 | every result left out is at least as far as every one kept |
| CandidateRanker.GoodMatches | main.js:1553 | the matches at distance at most 5. GoodPoorSplit and SplitMatches state its properties |
| CandidateRanker.PoorMatches | main.js:1554 | the matches farther than 5, Infinity included. GoodPoorSplit and SplitMatches state its properties |
| CandidateRanker.GoodPoorSplit | main.js:1553-1554 | good (at most 5) and poor (above 5, Infinity included) matches share nothing and together are the best matches |
| CandidateRanker.SplitMatches | main.js:1553-1561 | the good matches reordered by the number ending their URI, the poor ones in the order they come |
| CandidateRanker.MatchWorks | main.js:1512-1561 | the best matches are min(20, n) of the results in distance order and no closer result is left out; good and poor matches cover them, good ones ordered by identifier, poor ones by distance |
| CandidateRanker.SortGoodMatches | main.js:1557-1561 | a permutation ordered by the number ending the URI |
| CandidateRanker.NumericId | main.js:1558-1559 | `parseInt` of the last URI segment, or 0. NumericIdOfDecimal and SortGoodMatches state its properties |
| CandidateRanker.NumericIdOfDecimal | main.js:1558-1559 | a URI ending in "/" and a decimal number sorts by that number |
| CandidateRanker.LastSegmentAfterSlash | main.js:1558 | the last segment of a URI after its final slash |
| CandidateRanker.SortContributors | main.js:132-136 | a permutation of the hits with the most contributions first, missing counts as 0 |
| CandidateRanker.SortInstances | main.js:1330-1334 | a permutation of the instances ordered by the number ending their `@id`, NaN as 0 |
| YearHighlight.YearMatchLength | main.js:553 | a match of `\b(c?)(1[5-9]\d{2}\|20[0-2]\d)\b` at a position is a year token between word boundaries, 4 or 5 long |
| YearHighlight.YearTokens | main.js:550 | the global matches of the year pattern. YearTokensFrom and YearTokenAt state its properties |
| YearHighlight.YearTokensFrom | main.js:553 | every global match is a year token |
| YearHighlight.YearDigits | main.js:557 | the four digits of a token |
| YearHighlight.DigitsHaveNoC | main.js:557 | digits contain no `c` |
| YearHighlight.TokenValueOfYear | main.js:557 | `parseInt(y.replace('c', ''))` of a token is the value of its digits, between 1500 and 2029 |
| YearHighlight.YearTokenDropsC | main.js:557 | removing `c` leaves the four digits |
| YearHighlight.YearValueRange | main.js:553 | the pattern's digits lie between 1500 and 2029 |
| YearHighlight.NewestIndex | main.js:562-564 | the reduce picks an index of the list |
| YearHighlight.NewestIndexIsFirstMaximum | main.js:562-564 | the strict-greater reduce picks the largest value, the first one on a tie |
| YearHighlight.TokenValues | main.js:555-559 | the value of each token, in order |
| YearHighlight.NewestYear | main.js:561-563 | the token that the reduce keeps. EmphasisIsNewestYear states its properties |
| YearHighlight.NewestYearIndex | main.js:562-564 | the position of the newest year among the matches |
| YearHighlight.Plains | main.js:547 | the text as unemphasised characters |
| YearHighlight.WrapFromErases | main.js:567-570 | wrapping removes nothing and adds nothing but the emphasis |
| YearHighlight.WrapFrom | main.js:566-569 | the global replace of the token between word boundaries. WrapFromStrong, WrapFromPlain, WrapFromErases, WrapFromOnlyToken and WrapFromReaches state its properties |
| YearHighlight.WrapFromStrong | main.js:567-570 | a bounded occurrence of the token is emphasised |
| YearHighlight.WrapFromPlain | main.js:567-570 | anything else is copied |
| YearHighlight.WrapFromOnlyToken | main.js:567-570 | only the token is emphasised |
| YearHighlight.PlainsErase | main.js:547 | unemphasised text renders as itself |
| YearHighlight.HighlightNewestYear | main.js:550-570 | the statement as the summary shows it. EmphasisKeepsText, EmphasisIsNewestYear, EmphasisWrapsNewestYear and NoYearUnchanged state its properties |
| YearHighlight.EmphasisKeepsText | main.js:551-570 | with the emphasis taken away the statement is unchanged |
| YearHighlight.EmphasisIsNewestYear | main.js:551-570 | every emphasised piece is the newest year token, which has the largest value of all matches and a strictly larger one than every match before it |
| YearHighlight.EmphasisWrapsNewestYear | main.js:565-569 | every occurrence of the newest year token with a word boundary on both sides starts an emphasised piece, and the pieces before it spell the text before it; a statement with a year has at least one emphasised piece |
| YearHighlight.WrapFromReaches | main.js:566-568 | the replacement scan meets every bounded occurrence of a word past its start, because two such occurrences cannot overlap |
| YearHighlight.YearTokenAt | main.js:550 | every match is the text at a position with a word boundary on both sides |
| YearHighlight.NoYearUnchanged | main.js:553-554 | a statement without a year is returned unchanged |
| YearHighlight.TieTokens | main.js:553 | "1999 c1999" has the tokens "1999" and "c1999" |
| YearHighlight.TieWrap | main.js:567-570 | there only "1999" is wrapped, "c1999" is left alone |
| YearHighlight.TieNewest | main.js:562-564 | there the first token wins the tie |
| YearHighlight.FirstOfTieIsNewest | main.js:562-564 | of two equal values the first wins |
| GraphResolver.FindIndex | main.js:1791 | `find` by `@id`: the first matching index, None when no node matches |
| GraphResolver.FindNode | main.js:1791 | the first node with the `@id`, None exactly when there is none |
| GraphResolver.NodeOrFirst | main.js:1791-1792 | the node with the `@id`, else the first node, None only for an empty graph |
| GraphResolver.FirstTerm | main.js:1796-1797 | `prop && prop[0]`: the first term when the property is present and non-empty |
| GraphResolver.FirstValue | main.js:1803 | `prop[0]['@value']` throws on an empty list, else the first value |
| GraphResolver.SummaryTitle | main.js:1795-1808 | "" when the work has no title or its title node is missing |
| GraphResolver.TitleNode | main.js:1799-1806 | a title node with a main title and an optional subtitle, the shape the summary title reads. SummaryTitleOfTitleNode states what is read from it |
| GraphResolver.SummaryTitleOfTitleNode | main.js:1799-1806 | with the title node found, the main title, followed by ": " and the subtitle when there is one |
| GraphResolver.AgentRef | main.js:1813-1817 | the first `bf:agent` of the node a contribution points at. ResolveContributor states what follows from it |
| GraphResolver.ResolveContributor | main.js:1812-1882 | a contribution without an agent is dropped; an agent without `@id` throws; a blank agent is named by the first `rdfs:label` value of the graph node with its `@id` and carries no URI, and is dropped when that node or label is missing; otherwise the URI is the agent's and the name the fetched authoritative label, or the LCCN when none |
| GraphResolver.AllOk | main.js:1812-1885 | `Promise.all` of the per-contribution outcomes: an error exactly when one throws, else every outcome in contribution order |
| GraphResolver.AllOkAppend | main.js:1812-1885 | `Promise.all` of two runs of outcomes fails when either run fails, and otherwise gives the values of the first run followed by those of the second |
| GraphResolver.NonNull | main.js:1886 | `.filter(c => c !== null)` keeps exactly the present values, never more than its input |
| GraphResolver.NonNullAppend | main.js:1886 | the filter keeps order: it distributes over concatenation |
| GraphResolver.ResolveContributors | main.js:1885-1886 | an error exactly when a contribution throws; otherwise at most one contributor per contribution, and a contributor is in the list exactly when some contribution resolves to it. Order is given by ResolveContributorsAppend and ResolveContributorsSingle |
| GraphResolver.ResolveContributorsAppend | main.js:1885-1886 | the contributors of two runs of contributions are those of the first followed by those of the second |
| GraphResolver.ResolveContributorsSingle | main.js:1885-1886 | one contribution gives its contributor, nothing when it resolves to null, and an error when it throws |
| GraphResolver.LanguageCodes | main.js:1889-1895 | at most one code per language, none with a slash |
| GraphResolver.LanguageCodesAppend | main.js:1890-1895 | the codes of a concatenation are concatenated codes |
| GraphResolver.LanguageCodeSource | main.js:1891-1893 | each code is the last segment of a language IRI |
| GraphResolver.LanguageCodesComplete | main.js:1892-1893 | each truthy language IRI contributes its code |
| GraphResolver.CollectLanguages | main.js:1889-1895 | the `push` loop collects exactly the codes |
| GraphResolver.IsUuid | main.js:1928 | the UUID test of the subject identifier. UuidGroups and UuidSplits state its properties |
| GraphResolver.UuidGroups | main.js:1928 | hex groups of 8-4-4-4-12 joined by dashes form a UUID (section 3 of RFC 4122) |
| GraphResolver.UuidSplits | main.js:1928 | every UUID is such a join of its groups |
| GraphResolver.SubjectUrl | main.js:1927-1933 | a UUID goes to the hubs service, anything else to the subjects service |
| GraphResolver.ResolveSubject | main.js:1899-1972 | a subject without a truthy `@id` is dropped; a non-blank one keeps its URI and is labelled by the fetched label, or by its identifier when the fetch fails; a blank one carries no URI and is labelled by the first `mads:authoritativeLabel` of its graph node, else its first `rdfs:label`, and is dropped when the node has neither |
| GraphResolver.ResolveSubjects | main.js:1975-1976 | at most one subject per term |
| GraphResolver.PublicationOf | main.js:1981-1984 | "" without a publication statement, else the first value (throwing on an empty list) |
| GraphResolver.ExtentOf | main.js:1987-1997 | "" without an extent term, without the extent node or without its label; with a non-empty label, its first value; an empty label array throws |
| GraphResolver.HasIsbnType | main.js:2003 | the `@type` test for bf:Isbn, an array membership or a substring test. IsbnOf states what follows from it |
| GraphResolver.IsbnOf | main.js:2002-2007 | for a found bf:Isbn node with an `rdf:value`, its first value, or a TypeError when that array is empty; nothing for any other identifier |
| GraphResolver.IsbnValues | main.js:2000-2009 | at most one ISBN per identifier |
| GraphResolver.IsbnValuesError | main.js:2000-2009 | an error exactly when one identifier throws |
| GraphResolver.IsbnValuesPrefix | main.js:2001-2009 | the values of the first `i + 1` identifiers extend those of the first `i` |
| GraphResolver.CollectIsbns | main.js:2000-2009 | the `push` loop collects exactly the ISBN values |
| GraphResolver.InstanceLabel | main.js:1283-1300 | the fallback without the instance node; with a non-empty label, its first value; without a label, the main title of the first title node when that node and a non-empty `mainTitle` exist; the fallback in every other case, an empty array included |
| GraphResolver.ExtractSummary | main.js:1776-2012 | the URIs are passed through; empty graphs give the empty summary; the languages are the codes of the work and contributors and subjects are at most one per term |

## Left out

- The network requests and their handling are not modelled: LOC suggest, `bibframe_raw`/`bibframe` JSON, and the name-authority, subject and hub lookups. The model receives their answers as inputs: the graphs and `fetched`.
- The asynchronous parts are not modelled because their point is concurrency: `AbortController` cancellation, `Promise.all` fan-out, page-cap loops and the `setTimeout` re-search.
- `debounce` is not modelled because it is driven by a timer.
- `convertToThumbnail` is not modelled because it depends on crypto-js MD5 and `decodeURIComponent`.
- The Wikidata SPARQL enrichment is not modelled: it is network I/O and DOM updates.
- The HTML and DOM work is not modelled. The only exception is the `<strong>` markup of the year emphasis.
- `localeCompare` is a comparator parameter, assumed antisymmetric and, where stated, transitive. The locale collation itself is not modelled.
- The order of `Object.entries` is modelled as insertion order. The integer-like keys that JavaScript puts first are not modelled, and neither are keys such as `__proto__` or `constructor`, for which `titleCounts[key]` and `targetGroup[key]` would start from an inherited value instead of `undefined`.
- Characters are code points, not UTF-16 code units, and case mapping is ASCII only.
  - `levenshteinDistance` on astral characters is therefore not modelled.
  - Neither are non-ASCII letters in `toLowerCase`/`toUpperCase`.
- `\s` is modelled as ASCII white space plus the space characters JavaScript adds up to U+3000. The Unicode space separators not listed in `JsText.IsSpace` are not modelled.
- Numbers are unbounded integers. Double rounding is not modelled, nor is `parseInt` of numbers beyond 2^53.
- Sort stability is not modelled: every sort is specified by permutation and order only.
- CandidateRanker.FormatTitles: proves neighbour order only, not order over all pairs. The four-key comparator is not transitive when tokens without a number (NaN) are involved: NaN makes the comparator say 0. RankedByDistance proves the distance order over all pairs.
- RecordNormalizer.SortedTitles: full order is proved only when `localeCompare` is transitive.
- CandidateRanker.CompareHits: the model keeps only the truthiness of `hasContributorInLabel` (which the source leaves `undefined`, `""`, `false` or `true`, main.js:321-323) and of `isEnglish` (`undefined`, `false` or `true`, main.js:351-354), so the model's comparator is antisymmetric and the source's is not. The source compares the raw values with `!==`, so two different falsy values take the branch. Then `a.hasContributorInLabel ? -1 : 1` returns 1 in both argument orders, and `b.isEnglish ? 1 : -1` returns -1 in both. For an `undefined` hit against a `false` one, the source therefore says "after" (or "before") both ways, and the order of such a pair is up to the engine's sort. The model treats the two as equal on that key and does not capture this.
- TitleExtractor.AuthorCut: states only that the result is a suffix of the label, not which of the four patterns produced it. The per-pattern ends are stated by the TitlePatterns members.
- GraphResolver.SummaryTitle: its contract covers the empty cases. The found-node case is stated by SummaryTitleOfTitleNode for a node without a duplicate `@id` before it.
- GraphResolver.ResolveContributors: its own contract states which contributors are in the list, not their order. The order is stated by ResolveContributorsAppend and ResolveContributorsSingle, which together fix the list for every input.
- GraphResolver.ResolveSubjects: states the length bound only. The per-subject contract is on ResolveSubject.
- GraphResolver.ExtractSummary: states the passed-through URIs, the empty case, the languages and length bounds only. The other fields are stated by the members that compute them.
- `result.label` in the contributor-works results is assumed present, as the source assumes it: `toLowerCase` of an absent label would throw.
- `hit.more?.contributors` is assumed to hold strings. `replace` with a non-string contributor is not modelled.

## Where the source and its description differ, and quirks kept as written

- **Literal `s` in the surname patterns.** The two surname patterns at main.js:860-861 are built from a template literal, in which `\s` is just `s`. They therefore look for a period or a dash followed by the letter `s`, not by white space. The model keeps this, and `TitlePatterns.PeriodPatternNeedsLetterS` shows that the ordinary "Surname … . Title" is not matched by them.
- **The `yearEndMatch` branch can never run.** At main.js:929-935, every text matched by `\d{4}[-–]\s+` is also matched by `\d{4}[-–]\d{0,4}\s+`, so the `else if` branch is dead. `TitlePatterns.YearEndBranchIsDead` proves it.
- **Off-by-one in the comma fallback.**
  - At main.js:944-948 the delimiter is searched in the trimmed rest after the first comma, but its offset is applied to the untrimmed label.
  - With two spaces after the comma, "Smith,  John Title" gives "n Title". `TitleExtractor.CommaFallbackOffByOne` shows this.
  - The model keeps the code as written because the rest of the cascade depends on it.
- **The initials strategy cuts at the first occurrence of the captured letter.** At main.js:905, `indexOf` searches the whole label for that letter, not from the end of the match. `TitlePatterns.InitialsCut` states it.
- **The search value is not lower-cased** when the clicked contributor's works are matched (main.js:1516), although the result label and the clicked label are.
- **Tokens without a number.** A token that `parseInt` cannot read (such as "n123") does not count as a very large number, as one might expect. It gives NaN, so the last comparator key treats it as equal to everything (main.js:357, main.js:390). The model follows the code.
- **The skip of seen URIs while grouping (main.js:993-997) never fires.** The works were already deduplicated by URI at main.js:676-683. The model keeps the check.
