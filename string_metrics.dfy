/**
 * Edit distance and name initials (main.js:63-97).
 */
module StringMetrics {
  import opened JsText

  function Min3(a: nat, b: nat, c: nat): (m: nat)
    ensures m <= a && m <= b && m <= c
    ensures m == a || m == b || m == c
  {
    if a <= b && a <= c then a else if b <= c then b else c
  }

  /** Levenshtein distance: the fewest single-character deletions,
      insertions and substitutions that turn `a` into `b`, by recursion on the
      last characters. */
  function EditDistance(a: string, b: string): nat
    decreases |a| + |b|
  {
    if |a| == 0 then |b|
    else if |b| == 0 then |a|
    else Min3(EditDistance(a[..|a| - 1], b) + 1,
              EditDistance(a, b[..|b| - 1]) + 1,
              EditDistance(a[..|a| - 1], b[..|b| - 1]) + (if a[|a| - 1] == b[|b| - 1] then 0 else 1))
  }

  /** One cell of the table in terms of its three neighbours. */
  lemma EditDistanceStep(s1: string, s2: string, i: nat, j: nat)
    requires 0 < i <= |s1| && 0 < j <= |s2|
    ensures EditDistance(s1[..i], s2[..j])
         == Min3(EditDistance(s1[..i - 1], s2[..j]) + 1,
                 EditDistance(s1[..i], s2[..j - 1]) + 1,
                 EditDistance(s1[..i - 1], s2[..j - 1]) + (if s1[i - 1] == s2[j - 1] then 0 else 1))
  {
    assert s1[..i][..i - 1] == s1[..i - 1];
    assert s2[..j][..j - 1] == s2[..j - 1];
  }

  /** The first `rows` rows of `track` hold the distances between prefixes. */
  ghost predicate RowsFilled(track: array2<nat>, s1: string, s2: string, rows: nat)
    reads track
    requires track.Length0 == |s2| + 1 && track.Length1 == |s1| + 1
  {
    forall jj, ii :: 0 <= jj < rows && jj <= |s2| && 0 <= ii <= |s1| ==>
      track[jj, ii] == EditDistance(s1[..ii], s2[..jj])
  }

  /** One pass of the outer loop of `levenshteinDistance`: fills row `j` from
      row `j - 1` and the cell to the left. */
  method FillRow(track: array2<nat>, s1: string, s2: string, j: nat)
    requires track.Length0 == |s2| + 1 && track.Length1 == |s1| + 1
    requires 1 <= j <= |s2|
    requires RowsFilled(track, s1, s2, j)
    requires track[j, 0] == j
    modifies track
    ensures RowsFilled(track, s1, s2, j + 1)
    ensures forall jj :: j < jj <= |s2| ==> track[jj, 0] == old(track[jj, 0])
  {
    assert track[j, 0] == EditDistance(s1[..0], s2[..j]);
    for i := 1 to |s1| + 1
      invariant RowsFilled(track, s1, s2, j)
      invariant forall jj :: j < jj <= |s2| ==> track[jj, 0] == old(track[jj, 0])
      invariant forall ii :: 0 <= ii < i ==> track[j, ii] == EditDistance(s1[..ii], s2[..j])
    {
      var indicator := if s1[i - 1] == s2[j - 1] then 0 else 1;
      EditDistanceStep(s1, s2, i, j);
      track[j, i] := Min3(track[j, i - 1] + 1, track[j - 1, i] + 1, track[j - 1, i - 1] + indicator);
    }
  }

  /** `levenshteinDistance` (main.js:74-97): fills the table `track`, whose
      cell [j, i] is the distance between the first i characters of `str1`
      and the first j of `str2`, row by row. */
  method LevenshteinDistance(str1: string, str2: string) returns (d: nat)
    ensures d == EditDistance(str1, str2)
    ensures str2 == [] ==> d == |str1|
    ensures str1 == [] ==> d == |str2|
  {
    var track := new nat[|str2| + 1, |str1| + 1];
    for i := 0 to |str1| + 1
      invariant forall k :: 0 <= k < i ==> track[0, k] == k
    {
      track[0, i] := i;
    }
    for j := 0 to |str2| + 1
      invariant forall k :: 0 <= k <= |str1| ==> track[0, k] == k
      invariant forall k :: 0 <= k < j ==> track[k, 0] == k
    {
      track[j, 0] := j;
    }
    assert RowsFilled(track, str1, str2, 1);
    for j := 1 to |str2| + 1
      invariant RowsFilled(track, str1, str2, j)
      invariant forall jj :: j <= jj <= |str2| ==> track[jj, 0] == jj
    {
      FillRow(track, str1, str2, j);
    }
    d := track[|str2|, |str1|];
    assert str1[..|str1|] == str1 && str2[..|str2|] == str2;
  }

  /** A string is at distance 0 from itself. */
  lemma {:induction false} EditDistanceSelf(s: string)
    ensures EditDistance(s, s) == 0
  {
    if |s| > 0 {
      EditDistanceSelf(s[..|s| - 1]);
    }
  }

  /** Distance 0 only between equal strings. */
  lemma {:induction false} EditDistanceZero(a: string, b: string)
    requires EditDistance(a, b) == 0
    ensures a == b
    decreases |a| + |b|
  {
    if |a| > 0 && |b| > 0 {
      EditDistanceZero(a[..|a| - 1], b[..|b| - 1]);
      assert a == a[..|a| - 1] + [a[|a| - 1]];
      assert b == b[..|b| - 1] + [b[|b| - 1]];
    }
  }

  /** `d(a, b) == 0` exactly when `a == b`. */
  lemma EditDistanceZeroIff(a: string, b: string)
    ensures EditDistance(a, b) == 0 <==> a == b
  {
    if a == b { EditDistanceSelf(a); }
    if EditDistance(a, b) == 0 { EditDistanceZero(a, b); }
  }

  /** The distance does not depend on the order of the arguments. */
  lemma {:induction false} EditDistanceSymmetric(a: string, b: string)
    ensures EditDistance(a, b) == EditDistance(b, a)
    decreases |a| + |b|
  {
    if |a| > 0 && |b| > 0 {
      EditDistanceSymmetric(a[..|a| - 1], b);
      EditDistanceSymmetric(a, b[..|b| - 1]);
      EditDistanceSymmetric(a[..|a| - 1], b[..|b| - 1]);
    }
  }

  /** Never more than the length of the longer string. */
  lemma {:induction false} EditDistanceUpperBound(a: string, b: string)
    ensures EditDistance(a, b) <= if |a| >= |b| then |a| else |b|
    decreases |a| + |b|
  {
    if |a| > 0 && |b| > 0 {
      EditDistanceUpperBound(a[..|a| - 1], b[..|b| - 1]);
    }
  }

  /** Never less than the difference of the lengths. */
  lemma {:induction false} EditDistanceLowerBound(a: string, b: string)
    ensures EditDistance(a, b) >= if |a| >= |b| then |a| - |b| else |b| - |a|
    decreases |a| + |b|
  {
    if |a| > 0 && |b| > 0 {
      EditDistanceLowerBound(a[..|a| - 1], b);
      EditDistanceLowerBound(a, b[..|b| - 1]);
      EditDistanceLowerBound(a[..|a| - 1], b[..|b| - 1]);
    }
  }

  /** The separators of `name.split(/[,\s]+/)`. */
  predicate IsNameSeparator(c: char) { c == ',' || IsSpace(c) }

  predicate IsNamePart(p: string) {
    |p| > 0 && forall k :: 0 <= k < |p| ==> !IsNameSeparator(p[k])
  }

  /** Length of the run of non-separators at the start of `s`. */
  function PartLength(s: string): (n: nat)
    ensures n <= |s|
    ensures forall k :: 0 <= k < n ==> !IsNameSeparator(s[k])
    ensures n < |s| ==> IsNameSeparator(s[n])
  {
    if s != [] && !IsNameSeparator(s[0]) then 1 + PartLength(s[1..]) else 0
  }

  /** `name.split(/[,\s]+/).filter(part => part.length > 0)`: the maximal
      runs of characters other than commas and `\s`, in order. */
  function NameParts(s: string): (parts: seq<string>)
    ensures forall k :: 0 <= k < |parts| ==> IsNamePart(parts[k])
    decreases |s|
  {
    if s == [] then []
    else if IsNameSeparator(s[0]) then NameParts(s[1..])
    else
      var n := PartLength(s);
      [s[..n]] + NameParts(s[n..])
  }

  /** `getInitials` (main.js:64-71): the first letter of the second part,
      then that of the first, upper-cased ("Last, First" gives "FL"); one
      letter for a one-part name; "" for an absent or empty name. A name made
      only of separators throws in the source and is excluded. */
  function GetInitials(name: string): (r: string)
    requires name == [] || NameParts(name) != []
    ensures name == [] <==> r == []
    ensures |r| <= 2
    ensures forall k :: 0 <= k < |r| ==> !('a' <= r[k] <= 'z')
    ensures |NameParts(name)| >= 2 ==>
      r == [ToUpperChar(NameParts(name)[1][0]), ToUpperChar(NameParts(name)[0][0])]
    ensures |NameParts(name)| == 1 ==> r == [ToUpperChar(NameParts(name)[0][0])]
  {
    if name == [] then []
    else
      var parts := NameParts(name);
      if |parts| >= 2 then Upper([parts[1][0], parts[0][0]])
      else Upper([parts[0][0]])
  }

  lemma PartLengthOfPart(w: string, rest: string)
    requires IsNamePart(w)
    requires rest == [] || IsNameSeparator(rest[0])
    ensures PartLength(w + rest) == |w|
    decreases |w|
  {
    assert (w + rest)[0] == w[0];
    if |w| > 1 {
      assert (w + rest)[1..] == w[1..] + rest;
      PartLengthOfPart(w[1..], rest);
    } else {
      assert (w + rest)[1..] == rest;
    }
  }

  lemma {:induction false} NamePartsSkipsSeparators(sep: string, t: string)
    requires forall k :: 0 <= k < |sep| ==> IsNameSeparator(sep[k])
    ensures NameParts(sep + t) == NameParts(t)
    decreases |sep|
  {
    if sep != [] {
      assert (sep + t)[1..] == sep[1..] + t;
      NamePartsSkipsSeparators(sep[1..], t);
    } else {
      assert sep + t == t;
    }
  }

  lemma NamePartsOfPart(w: string, rest: string)
    requires IsNamePart(w)
    requires rest == [] || IsNameSeparator(rest[0])
    ensures NameParts(w + rest) == [w] + NameParts(rest)
  {
    PartLengthOfPart(w, rest);
    assert (w + rest)[..|w|] == w;
    assert (w + rest)[|w|..] == rest;
  }

  /** The parts separated by `sep` between consecutive words. */
  function JoinWith(words: seq<string>, sep: string): string {
    if words == [] then []
    else if |words| == 1 then words[0]
    else words[0] + sep + JoinWith(words[1..], sep)
  }

  /** Splitting undoes joining with any non-empty run of separators. */
  lemma {:induction false} NamePartsOfJoin(words: seq<string>, sep: string)
    requires forall k :: 0 <= k < |words| ==> IsNamePart(words[k])
    requires |sep| > 0 && forall k :: 0 <= k < |sep| ==> IsNameSeparator(sep[k])
    ensures NameParts(JoinWith(words, sep)) == words
  {
    if |words| == 1 {
      NamePartsOfPart(words[0], []);
      assert words[0] + [] == words[0];
    } else if |words| > 1 {
      var tail := JoinWith(words[1..], sep);
      assert JoinWith(words, sep) == words[0] + (sep + tail);
      NamePartsOfPart(words[0], sep + tail);
      NamePartsSkipsSeparators(sep, tail);
      NamePartsOfJoin(words[1..], sep);
      assert words == [words[0]] + words[1..];
    }
  }

  /** For a "Last, First" name the initials are those of First then Last. */
  lemma InitialsOfInvertedName(last: string, first: string)
    requires IsNamePart(last) && IsNamePart(first)
    ensures GetInitials(last + ", " + first) == [ToUpperChar(first[0]), ToUpperChar(last[0])]
  {
    NamePartsOfJoin([last, first], ", ");
    assert JoinWith([last, first], ", ") == last + ", " + first;
  }
}
