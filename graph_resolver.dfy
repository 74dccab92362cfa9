/**
 * The JSON-LD graphs the Library of Congress returns for works and instances
 * (`*.bibframe_raw.json`), and the lookups that read the summary fields out of
 * them: main.js:1288-1300 and the parts of `extractSummaryData`
 * (main.js:1776-2010) that do not fetch anything.
 *
 * A graph is the array of node objects. A node has an optional `@id`, an
 * optional `@type` (a string or an array of strings) and, for each predicate
 * IRI, an array of terms; a term is an object with an optional `@id` and an
 * optional `@value`. A predicate missing from the node and a predicate with an
 * empty array are different: the second is truthy, and reading `[0]['@value']`
 * from it throws a TypeError.
 */
module GraphResolver {
  import opened JsText

  const RdfsLabel := "http://www.w3.org/2000/01/rdf-schema#label"
  const RdfValue := "http://www.w3.org/1999/02/22-rdf-syntax-ns#value"
  const MadsAuthoritativeLabel := "http://www.loc.gov/mads/rdf/v1#authoritativeLabel"
  const BflcAap := "http://id.loc.gov/ontologies/bflc/aap"
  const BfTitle := "http://id.loc.gov/ontologies/bibframe/title"
  const BfMainTitle := "http://id.loc.gov/ontologies/bibframe/mainTitle"
  const BfSubtitle := "http://id.loc.gov/ontologies/bibframe/subtitle"
  const BfContribution := "http://id.loc.gov/ontologies/bibframe/contribution"
  const BfAgent := "http://id.loc.gov/ontologies/bibframe/agent"
  const BfLanguage := "http://id.loc.gov/ontologies/bibframe/language"
  const BfSubject := "http://id.loc.gov/ontologies/bibframe/subject"
  const BfPublicationStatement := "http://id.loc.gov/ontologies/bibframe/publicationStatement"
  const BfExtent := "http://id.loc.gov/ontologies/bibframe/extent"
  const BfIdentifiedBy := "http://id.loc.gov/ontologies/bibframe/identifiedBy"
  const BfIsbn := "http://id.loc.gov/ontologies/bibframe/Isbn"

  datatype Term = Term(id: Option<string>, value: Option<string>)

  datatype TypeField = NoType | OneType(name: string) | ManyTypes(names: seq<string>)

  datatype Node = Node(id: Option<string>, types: TypeField, props: map<string, seq<Term>>)

  type Graph = seq<Node>

  /** The outcome of code that may throw a TypeError. */
  datatype Fallible<T> = TypeError | Ok(value: T)


  /** String conversion of a value that is a string or `undefined`. */
  function JsString(v: Option<string>): string {
    if v.Some? then v.value else "undefined"
  }

  /** Index of the first node whose `@id` is `id` (`undefined` when `id` is
      None, which matches a node without `@id`). */
  function FindIndex(g: Graph, id: Option<string>, from: nat): (r: Option<nat>)
    requires from <= |g|
    ensures r.Some? ==> from <= r.value < |g| && g[r.value].id == id
    ensures r.Some? ==> forall j :: from <= j < r.value ==> g[j].id != id
    ensures r.None? ==> forall j :: from <= j < |g| ==> g[j].id != id
    decreases |g| - from
  {
    if from == |g| then None
    else if g[from].id == id then Some(from)
    else FindIndex(g, id, from + 1)
  }

  /** `g.find(item => item['@id'] === id)` */
  function FindNode(g: Graph, id: Option<string>): (r: Option<Node>)
    ensures r.Some? <==> exists k :: 0 <= k < |g| && g[k].id == id
    ensures r.Some? ==> r.value.id == id
    ensures r.Some? ==> exists k :: 0 <= k < |g| && g[k] == r.value && forall j :: 0 <= j < k ==> g[j].id != id
  {
    match FindIndex(g, id, 0)
    case Some(k) => Some(g[k])
    case None => None
  }

  /** `g.find(item => item['@id'] === id) || g[0]` */
  function NodeOrFirst(g: Graph, id: Option<string>): (r: Option<Node>)
    ensures r.None? <==> |g| == 0
    ensures FindNode(g, id).Some? ==> r == FindNode(g, id)
    ensures FindNode(g, id).None? && |g| > 0 ==> r == Some(g[0])
  {
    var n := FindNode(g, id);
    if n.Some? then n else if |g| > 0 then Some(g[0]) else None
  }

  /** `node[p]`, None standing for `undefined`. */
  function Prop(n: Node, p: string): Option<seq<Term>> {
    if p in n.props then Some(n.props[p]) else None
  }

  /** `node[p] || []` */
  function PropOrEmpty(n: Node, p: string): seq<Term> {
    if p in n.props then n.props[p] else []
  }

  /** `node[p] && node[p][0]`: the first term when there is one. */
  function FirstTerm(n: Node, p: string): (r: Option<Term>)
    ensures r.Some? <==> p in n.props && |n.props[p]| > 0
    ensures r.Some? ==> r.value == n.props[p][0]
  {
    if p in n.props && |n.props[p]| > 0 then Some(n.props[p][0]) else None
  }

  /** `terms[0]['@value']`: throws on an empty array. */
  function FirstValue(terms: seq<Term>): (r: Fallible<Option<string>>)
    ensures r.TypeError? <==> terms == []
    ensures r.Ok? ==> r.value == terms[0].value
  {
    if terms == [] then TypeError else Ok(terms[0].value)
  }

  /** The summary title (main.js:1795-1808): the main title of the node that
      the work's first `bf:title` points at, then ": " and its subtitle when
      it has one. "" when the work has no title link or the link is dangling;
      an empty `mainTitle` or `subtitle` array throws. */
  function SummaryTitle(workData: Graph, work: Node): (r: Fallible<Option<string>>)
    ensures FirstTerm(work, BfTitle).None? ==> r == Ok(Some(""))
    ensures FirstTerm(work, BfTitle).Some? && FindNode(workData, FirstTerm(work, BfTitle).value.id).None? ==>
      r == Ok(Some(""))
  {
    match FirstTerm(work, BfTitle)
    case None => Ok(Some(""))
    case Some(t) =>
      match FindNode(workData, t.id)
      case None => Ok(Some(""))
      case Some(titleObj) =>
        var main := if BfMainTitle in titleObj.props then FirstValue(titleObj.props[BfMainTitle]) else Ok(Some(""));
        if main.TypeError? then TypeError
        else if BfSubtitle !in titleObj.props then main
        else
          match FirstValue(titleObj.props[BfSubtitle])
          case TypeError => TypeError
          case Ok(sub) => Ok(Some(JsString(main.value) + ": " + JsString(sub)))
  }

  /** A title node built from a main title and an optional subtitle. */
  function TitleNode(id: string, main: string, sub: Option<string>): Node {
    var props := map[BfMainTitle := [Term(None, Some(main))]];
    Node(Some(id), NoType, if sub.Some? then props[BfSubtitle := [Term(None, Some(sub.value))]] else props)
  }

  /** Reading back the title a work and its title node were built with. */
  lemma SummaryTitleOfTitleNode(workData: Graph, work: Node, k: nat, id: string, main: string, sub: Option<string>)
    requires k < |workData| && workData[k] == TitleNode(id, main, sub)
    requires forall j :: 0 <= j < k ==> workData[j].id != Some(id)
    requires BfTitle in work.props && |work.props[BfTitle]| > 0 && work.props[BfTitle][0].id == Some(id)
    ensures sub.None? ==> SummaryTitle(workData, work) == Ok(Some(main))
    ensures sub.Some? ==> SummaryTitle(workData, work) == Ok(Some(main + ": " + sub.value))
  {
    var r := FindIndex(workData, Some(id), 0);
    assert r == Some(k);
    assert BfMainTitle != BfSubtitle;
  }

  datatype Contributor = Contributor(name: Option<string>, uri: Option<string>)

  /** `https://id.loc.gov/authorities/names/{lccn}.json` */
  function NameAuthorityUrl(lccn: string): string {
    "https://id.loc.gov/authorities/names/" + lccn + ".json"
  }

  /** A blank node identifier: `_:` first. */
  predicate IsBlank(id: string) { StartsWith(id, "_:") }

  /** The agent term of a contribution: the first `bf:agent` of the node the
      contribution points at. */
  function AgentRef(workData: Graph, contrib: Term): Option<Term> {
    match FindNode(workData, contrib.id)
    case None => None
    case Some(obj) => FirstTerm(obj, BfAgent)
  }

  /** One contribution (main.js:1812-1878). `fetched(url)` is the
      authoritative label the name authority service returns for `url`, None
      when the request fails or carries none: the contributor's name is that
      label when it is non-empty, else the LCCN (the trailing path segment of
      the agent IRI). A blank agent is looked up in the graph and carries no
      URI. An agent without `@id` throws. */
  function ResolveContributor(workData: Graph, contrib: Term, fetched: string -> Option<string>): (r: Fallible<Option<Contributor>>)
    ensures r.TypeError? <==> AgentRef(workData, contrib).Some? && AgentRef(workData, contrib).value.id.None?
    ensures AgentRef(workData, contrib).None? ==> r == Ok(None)
    ensures r.Ok? && r.value.Some? ==>
      var agentUri := AgentRef(workData, contrib).value.id.value;
      (r.value.value.uri.None? <==> IsBlank(agentUri))
      && (r.value.value.uri.Some? ==> r.value.value.uri.value == agentUri)
    ensures r.Ok? && r.value.Some? && r.value.value.uri.Some? ==>
      var lccn := LastSegment(r.value.value.uri.value);
      var found := fetched(NameAuthorityUrl(lccn));
      r.value.value.name == Some(if found.Some? && Truthy(found.value) then found.value else lccn)
    ensures (AgentRef(workData, contrib).Some? && AgentRef(workData, contrib).value.id.Some?
             && IsBlank(AgentRef(workData, contrib).value.id.value)) ==>
      var blank := FindNode(workData, AgentRef(workData, contrib).value.id);
      var l := if blank.Some? then FirstTerm(blank.value, RdfsLabel) else None;
      (l.None? ==> r == Ok(None))
      && (l.Some? ==> r.Ok? && r.value.Some? && r.value.value.name == l.value.value && r.value.value.uri.None?)
  {
    match AgentRef(workData, contrib)
    case None => Ok(None)
    case Some(agent) =>
      match agent.id
      case None => TypeError
      case Some(agentUri) =>
        if !IsBlank(agentUri) then
          var lccn := LastSegment(agentUri);
          var found := fetched(NameAuthorityUrl(lccn));
          Ok(Some(Contributor(Some(if found.Some? && Truthy(found.value) then found.value else lccn), Some(agentUri))))
        else
          match FindNode(workData, Some(agentUri))
          case None => Ok(None)
          case Some(blank) =>
            match FirstTerm(blank, RdfsLabel)
            case None => Ok(None)
            case Some(l) => Ok(Some(Contributor(l.value, None)))
  }

  /** `contributions.map(…)`: the outcome of every contribution, in order. */
  function Outcomes(workData: Graph, contribs: seq<Term>, fetched: string -> Option<string>): (outs: seq<Fallible<Option<Contributor>>>)
    ensures |outs| == |contribs|
    ensures forall k :: 0 <= k < |contribs| ==> outs[k] == ResolveContributor(workData, contribs[k], fetched)
  {
    seq(|contribs|, k requires 0 <= k < |contribs| => ResolveContributor(workData, contribs[k], fetched))
  }

  /** `Promise.all(outcomes)`: every value, in order, unless one throws. */
  function AllOk<T>(outs: seq<Fallible<T>>): (r: Fallible<seq<T>>)
    ensures r.TypeError? <==> exists k :: 0 <= k < |outs| && outs[k].TypeError?
    ensures r.Ok? ==> |r.value| == |outs|
    ensures r.Ok? ==> forall k :: 0 <= k < |outs| ==> outs[k] == Ok(r.value[k])
  {
    if outs == [] then Ok([])
    else
      var tail := AllOk(outs[1..]);
      assert forall k :: 1 <= k < |outs| ==> outs[k] == outs[1..][k - 1];
      if outs[0].TypeError? || tail.TypeError? then
        assert tail.TypeError? ==> exists k :: 1 <= k < |outs| && outs[k].TypeError?;
        TypeError
      else
        Ok([outs[0].value] + tail.value)
  }

  /** Running two lists of outcomes one after the other. */
  lemma AllOkAppend<T>(x: seq<Fallible<T>>, y: seq<Fallible<T>>)
    ensures AllOk(x + y).TypeError? <==> AllOk(x).TypeError? || AllOk(y).TypeError?
    ensures AllOk(x + y).Ok? ==> AllOk(x + y).value == AllOk(x).value + AllOk(y).value
  {
    var xy := x + y;
    assert forall k :: 0 <= k < |x| ==> xy[k] == x[k];
    assert forall k :: 0 <= k < |y| ==> xy[|x| + k] == y[k];
    if AllOk(xy).Ok? {
      var r := AllOk(xy).value;
      assert forall k :: 0 <= k < |x| ==> x[k] == Ok(r[k]);
      assert forall k :: 0 <= k < |y| ==> y[k] == Ok(r[|x| + k]);
      var rx := AllOk(x).value;
      var ry := AllOk(y).value;
      assert forall k :: 0 <= k < |x| ==> Ok(rx[k]) == Ok(r[k]);
      assert forall k :: 0 <= k < |y| ==> Ok(ry[k]) == Ok(r[|x| + k]);
      assert r == rx + ry;
    } else {
      var k :| 0 <= k < |xy| && xy[k].TypeError?;
      if k < |x| {
        assert x[k].TypeError?;
      } else {
        assert y[k - |x|].TypeError?;
      }
    }
  }

  /** `.filter(c => c !== null)`: the present values, in order. */
  function NonNull(s: seq<Option<Contributor>>): (r: seq<Contributor>)
    ensures |r| <= |s|
    ensures forall x :: x in r <==> Some(x) in s
  {
    if s == [] then []
    else
      assert forall x :: Some(x) in s <==> Some(x) == s[0] || Some(x) in s[1..];
      (if s[0].Some? then [s[0].value] else []) + NonNull(s[1..])
  }

  /** Filtering keeps the order: it distributes over concatenation. */
  lemma {:induction false} NonNullAppend(a: seq<Option<Contributor>>, b: seq<Option<Contributor>>)
    ensures NonNull(a + b) == NonNull(a) + NonNull(b)
  {
    if a != [] {
      assert (a + b)[0] == a[0];
      assert (a + b)[1..] == a[1..] + b;
      NonNullAppend(a[1..], b);
      var h := if a[0].Some? then [a[0].value] else [];
      assert NonNull(a + b) == h + NonNull(a[1..] + b);
      assert NonNull(a) == h + NonNull(a[1..]);
    } else {
      assert a + b == b;
    }
  }

  /** The contributors of the summary (main.js:1885-1886): the resolved
      contributions without the null ones, in contribution order. */
  function ResolveContributors(workData: Graph, contribs: seq<Term>, fetched: string -> Option<string>): (r: Fallible<seq<Contributor>>)
    ensures r.TypeError? <==> exists k :: 0 <= k < |contribs| && ResolveContributor(workData, contribs[k], fetched).TypeError?
    ensures r.Ok? ==> |r.value| <= |contribs|
    ensures r.Ok? ==> forall c :: c in r.value <==>
      exists k :: 0 <= k < |contribs| && ResolveContributor(workData, contribs[k], fetched) == Ok(Some(c))
  {
    var outs := Outcomes(workData, contribs, fetched);
    match AllOk(outs)
    case TypeError => TypeError
    case Ok(values) =>
      assert forall c :: Some(c) in values <==>
        exists k :: 0 <= k < |contribs| && ResolveContributor(workData, contribs[k], fetched) == Ok(Some(c));
      Ok(NonNull(values))
  }

  /** The contributors of two runs of contributions are those of the first
      followed by those of the second. */
  lemma ResolveContributorsAppend(workData: Graph, a: seq<Term>, b: seq<Term>, fetched: string -> Option<string>)
    ensures ResolveContributors(workData, a + b, fetched).TypeError? <==>
      ResolveContributors(workData, a, fetched).TypeError? || ResolveContributors(workData, b, fetched).TypeError?
    ensures ResolveContributors(workData, a + b, fetched).Ok? ==>
      ResolveContributors(workData, a + b, fetched).value ==
        ResolveContributors(workData, a, fetched).value + ResolveContributors(workData, b, fetched).value
  {
    var oa := Outcomes(workData, a, fetched);
    var ob := Outcomes(workData, b, fetched);
    assert Outcomes(workData, a + b, fetched) == oa + ob;
    AllOkAppend(oa, ob);
    if AllOk(oa).Ok? && AllOk(ob).Ok? {
      NonNullAppend(AllOk(oa).value, AllOk(ob).value);
    }
  }

  /** A single contribution contributes its contributor when it has one,
      nothing when it resolves to null, and a TypeError when it throws. */
  lemma ResolveContributorsSingle(workData: Graph, c: Term, fetched: string -> Option<string>)
    ensures ResolveContributors(workData, [c], fetched).TypeError? <==> ResolveContributor(workData, c, fetched).TypeError?
    ensures ResolveContributor(workData, c, fetched) == Ok(None) ==> ResolveContributors(workData, [c], fetched) == Ok([])
    ensures ResolveContributor(workData, c, fetched).Ok? && ResolveContributor(workData, c, fetched).value.Some? ==>
      ResolveContributors(workData, [c], fetched) == Ok([ResolveContributor(workData, c, fetched).value.value])
  {
    var r := ResolveContributor(workData, c, fetched);
    assert [c][0] == c;
    var outs := Outcomes(workData, [c], fetched);
    assert outs == [r];
    if r.Ok? {
      var values := AllOk(outs).value;
      assert |values| == 1 && outs[0] == Ok(values[0]);
      assert values == [r.value];
      var none: seq<Option<Contributor>> := [];
      assert [r.value][1..] == none;
      assert NonNull([r.value]) == (if r.value.Some? then [r.value.value] else []) + NonNull(none);
      assert ResolveContributors(workData, [c], fetched) == Ok(NonNull(values));
      assert NonNull(none) == [];
      if r.value.Some? {
        assert NonNull(values) == [r.value.value];
      }
    }
  }

  /** `langUri.split('/').pop()` for each language term with a non-empty
      `@id`, in order. */
  function LanguageCodes(langs: seq<Term>): (codes: seq<string>)
    ensures |codes| <= |langs|
    ensures forall k :: 0 <= k < |codes| ==> '/' !in codes[k]
  {
    if langs == [] then []
    else
      var rest := LanguageCodes(langs[1..]);
      if langs[0].id.Some? && Truthy(langs[0].id.value) then [LastSegment(langs[0].id.value)] + rest else rest
  }

  /** The codes of a concatenation are the concatenated codes. */
  lemma {:induction false} LanguageCodesAppend(a: seq<Term>, b: seq<Term>)
    ensures LanguageCodes(a + b) == LanguageCodes(a) + LanguageCodes(b)
  {
    if a != [] {
      assert (a + b)[1..] == a[1..] + b;
      LanguageCodesAppend(a[1..], b);
    } else {
      assert a + b == b;
    }
  }

  /** Each code is the last path segment of the `@id` of one of the terms:
      the `j`th. */
  lemma {:induction false} LanguageCodeSource(langs: seq<Term>, k: nat) returns (j: nat)
    requires k < |LanguageCodes(langs)|
    ensures j < |langs| && langs[j].id.Some? && LanguageCodes(langs)[k] == LastSegment(langs[j].id.value)
  {
    var rest := LanguageCodes(langs[1..]);
    var head := langs[0].id.Some? && Truthy(langs[0].id.value);
    if head && k == 0 {
      j := 0;
    } else {
      var k' := if head then k - 1 else k;
      assert LanguageCodes(langs)[k] == rest[k'];
      var j' := LanguageCodeSource(langs[1..], k');
      j := j' + 1;
    }
  }

  /** Each term with a non-empty `@id` contributes its code. */
  lemma {:induction false} LanguageCodesComplete(langs: seq<Term>)
    ensures forall j :: 0 <= j < |langs| && langs[j].id.Some? && Truthy(langs[j].id.value) ==>
      LastSegment(langs[j].id.value) in LanguageCodes(langs)
  {
    if langs != [] {
      LanguageCodesComplete(langs[1..]);
      var codes := LanguageCodes(langs);
      var rest := LanguageCodes(langs[1..]);
      assert forall c :: c in rest ==> c in codes;
      forall j | 1 <= j < |langs| && langs[j].id.Some? && Truthy(langs[j].id.value)
        ensures LastSegment(langs[j].id.value) in codes
      {
        assert langs[j] == langs[1..][j - 1];
      }
    }
  }

  /** The language loop of main.js:1889-1895, pushing onto the summary's
      language array. */
  method CollectLanguages(langs: seq<Term>) returns (codes: seq<string>)
    ensures codes == LanguageCodes(langs)
  {
    codes := [];
    for i := 0 to |langs|
      invariant codes == LanguageCodes(langs[..i])
    {
      LanguageCodesAppend(langs[..i], [langs[i]]);
      assert langs[..i + 1] == langs[..i] + [langs[i]];
      var langUri := langs[i].id;
      if langUri.Some? && Truthy(langUri.value) {
        codes := codes + [LastSegment(langUri.value)];
      }
    }
    assert langs[..|langs|] == langs;
  }

  /** A subject of the summary; `text` is the source's `label` property
      (`label` is a keyword here). */
  datatype SubjectRef = SubjectRef(text: Option<string>, uri: Option<string>)

  /** `id` is made of hexadecimal digits from `lo` to `hi`. */
  predicate HexGroup(id: string, lo: nat, hi: nat)
    requires lo <= hi <= |id|
  {
    forall k :: lo <= k < hi ==> IsHexDigit(id[k])
  }

  /** `/^[0-9a-f]{8}-[0-9a-f]{4}-[0-9a-f]{4}-[0-9a-f]{4}-[0-9a-f]{12}$/i`:
      the string form of a UUID (section 3 of RFC 4122), in either case. */
  predicate IsUuid(id: string) {
    && |id| == 36
    && HexGroup(id, 0, 8) && id[8] == '-'
    && HexGroup(id, 9, 13) && id[13] == '-'
    && HexGroup(id, 14, 18) && id[18] == '-'
    && HexGroup(id, 19, 23) && id[23] == '-'
    && HexGroup(id, 24, 36)
  }

  predicate AllHex(s: string) { forall k :: 0 <= k < |s| ==> IsHexDigit(s[k]) }

  /** Five groups of 8, 4, 4, 4 and 12 hexadecimal digits joined by dashes
      form a UUID, and every UUID is such a join of its own groups. */
  lemma UuidGroups(a: string, b: string, c: string, d: string, e: string)
    requires |a| == 8 && |b| == 4 && |c| == 4 && |d| == 4 && |e| == 12
    requires AllHex(a) && AllHex(b) && AllHex(c) && AllHex(d) && AllHex(e)
    ensures IsUuid(a + "-" + b + "-" + c + "-" + d + "-" + e)
  {
    var id := a + "-" + b + "-" + c + "-" + d + "-" + e;
    assert forall k :: 0 <= k < 8 ==> id[k] == a[k];
    assert forall k :: 9 <= k < 13 ==> id[k] == b[k - 9];
    assert forall k :: 14 <= k < 18 ==> id[k] == c[k - 14];
    assert forall k :: 19 <= k < 23 ==> id[k] == d[k - 19];
    assert forall k :: 24 <= k < 36 ==> id[k] == e[k - 24];
  }

  lemma UuidSplits(id: string)
    requires IsUuid(id)
    ensures id == id[..8] + "-" + id[9..13] + "-" + id[14..18] + "-" + id[19..23] + "-" + id[24..]
    ensures AllHex(id[..8]) && AllHex(id[9..13]) && AllHex(id[14..18]) && AllHex(id[19..23]) && AllHex(id[24..])
  {
    assert id == id[..8] + [id[8]] + id[9..13] + [id[13]] + id[14..18] + [id[18]] + id[19..23] + [id[23]] + id[24..];
  }

  const HubsPrefix := "https://id.loc.gov/resources/hubs/"
  const SubjectsPrefix := "https://id.loc.gov/authorities/subjects/"

  /** The address a subject's label is fetched from (main.js:1928-1933). */
  function SubjectUrl(subjId: string): (url: string)
    ensures StartsWith(url, HubsPrefix) <==> IsUuid(subjId)
    ensures StartsWith(url, SubjectsPrefix) <==> !IsUuid(subjId)
  {
    var prefix := if IsUuid(subjId) then HubsPrefix else SubjectsPrefix;
    var url := prefix + subjId + ".json";
    assert url[..|prefix|] == prefix;
    assert url[..|HubsPrefix|][19] == url[19] == prefix[19];
    assert url[..|SubjectsPrefix|][19] == url[19];
    assert HubsPrefix[19] == 'r' && SubjectsPrefix[19] == 'a';
    url
  }

  /** One subject (main.js:1899-1966): blank nodes are labelled from the
      graph (authoritative label first, then `rdfs:label`) and carry no URI;
      other subjects are labelled by what `fetched` returns for their
      address, else by their trailing path segment, and keep their IRI. A
      term without a non-empty `@id` is dropped. */
  function ResolveSubject(workData: Graph, subj: Term, fetched: string -> Option<string>): (r: Option<SubjectRef>)
    ensures subj.id.None? || !Truthy(subj.id.value) ==> r.None?
    ensures subj.id.Some? && Truthy(subj.id.value) && !IsBlank(subj.id.value) ==>
      r.Some? && r.value.uri == subj.id
    ensures r.Some? ==> (r.value.uri.None? <==> IsBlank(subj.id.value))
    ensures r.Some? && r.value.uri.Some? && fetched(SubjectUrl(LastSegment(subj.id.value))).None? ==>
      r.value.text == Some(LastSegment(subj.id.value))
    ensures r.Some? && r.value.uri.Some? && fetched(SubjectUrl(LastSegment(subj.id.value))).Some? ==>
      r.value.text == fetched(SubjectUrl(LastSegment(subj.id.value)))
    ensures subj.id.Some? && IsBlank(subj.id.value) ==>
      var blank := FindNode(workData, subj.id);
      var auth := if blank.Some? then FirstTerm(blank.value, MadsAuthoritativeLabel) else None;
      var plain := if blank.Some? then FirstTerm(blank.value, RdfsLabel) else None;
      (auth.Some? ==> r.Some? && r.value.text == auth.value.value && r.value.uri.None?)
      && (auth.None? && plain.Some? ==> r.Some? && r.value.text == plain.value.value && r.value.uri.None?)
      && (auth.None? && plain.None? ==> r.None?)
  {
    match subj.id
    case None => None
    case Some(subjUri) =>
      if !Truthy(subjUri) then None
      else if IsBlank(subjUri) then
        match FindNode(workData, Some(subjUri))
        case None => None
        case Some(blank) =>
          var auth := FirstTerm(blank, MadsAuthoritativeLabel);
          var plain := FirstTerm(blank, RdfsLabel);
          if auth.Some? then Some(SubjectRef(auth.value.value, None))
          else if plain.Some? then Some(SubjectRef(plain.value.value, None))
          else None
      else
        var subjId := LastSegment(subjUri);
        var found := fetched(SubjectUrl(subjId));
        Some(SubjectRef(if found.Some? then found else Some(subjId), Some(subjUri)))
  }

  /** `Promise.all(subjects.map(…))` then `.filter(s => s !== null)` */
  function ResolveSubjects(workData: Graph, subjs: seq<Term>, fetched: string -> Option<string>): (r: seq<SubjectRef>)
    ensures |r| <= |subjs|
  {
    if subjs == [] then []
    else
      var head := ResolveSubject(workData, subjs[0], fetched);
      (if head.Some? then [head.value] else []) + ResolveSubjects(workData, subjs[1..], fetched)
  }

  /** The publication statement of the summary (main.js:1981-1985): the
      first `@value`; "" without the predicate; an empty array throws. */
  function PublicationOf(instance: Node): (r: Fallible<Option<string>>)
    ensures BfPublicationStatement !in instance.props ==> r == Ok(Some(""))
    ensures BfPublicationStatement in instance.props ==> r == FirstValue(instance.props[BfPublicationStatement])
  {
    match Prop(instance, BfPublicationStatement)
    case None => Ok(Some(""))
    case Some(terms) => FirstValue(terms)
  }

  /** The extent (main.js:1987-1997): the label of the node the first
      `bf:extent` points at; "" when there is none. */
  function ExtentOf(instanceData: Graph, instance: Node): (r: Fallible<Option<string>>)
    ensures FirstTerm(instance, BfExtent).None? ==> r == Ok(Some(""))
    ensures FirstTerm(instance, BfExtent).Some? ==>
      var node := FindNode(instanceData, FirstTerm(instance, BfExtent).value.id);
      (node.None? ==> r == Ok(Some("")))
      && (node.Some? && RdfsLabel !in node.value.props ==> r == Ok(Some("")))
      && (node.Some? && RdfsLabel in node.value.props ==>
            (r.TypeError? <==> node.value.props[RdfsLabel] == [])
            && (node.value.props[RdfsLabel] != [] ==> r == Ok(node.value.props[RdfsLabel][0].value)))
    ensures r.Ok? && r.value != Some("") ==>
      FirstTerm(instance, BfExtent).Some? &&
      var node := FindNode(instanceData, FirstTerm(instance, BfExtent).value.id);
      node.Some? && RdfsLabel in node.value.props && |node.value.props[RdfsLabel]| > 0 &&
      r.value == node.value.props[RdfsLabel][0].value
  {
    match FirstTerm(instance, BfExtent)
    case None => Ok(Some(""))
    case Some(t) =>
      match FindNode(instanceData, t.id)
      case None => Ok(Some(""))
      case Some(extentObj) =>
        match Prop(extentObj, RdfsLabel)
        case None => Ok(Some(""))
        case Some(terms) => FirstValue(terms)
  }

  /** `idObj['@type'] && idObj['@type'].includes(Isbn)`: membership for an
      array, a substring test for a string. */
  predicate HasIsbnType(n: Node) {
    match n.types
    case NoType => false
    case OneType(t) => Truthy(t) && Includes(t, BfIsbn)
    case ManyTypes(ts) => BfIsbn in ts
  }

  /** What one `identifiedBy` term adds to the ISBN list: nothing, the first
      `rdf:value` of an ISBN-typed node, or a TypeError for an empty one. */
  function IsbnOf(instanceData: Graph, idRef: Term): (r: Fallible<seq<Option<string>>>)
    ensures r.Ok? ==> |r.value| <= 1
    ensures var n := FindNode(instanceData, idRef.id);
      n.Some? && HasIsbnType(n.value) && RdfValue in n.value.props ==>
        (r.TypeError? <==> n.value.props[RdfValue] == [])
        && (n.value.props[RdfValue] != [] ==> r == Ok([n.value.props[RdfValue][0].value]))
    ensures var n := FindNode(instanceData, idRef.id);
      !(n.Some? && HasIsbnType(n.value) && RdfValue in n.value.props) ==> r == Ok([])
    ensures r.Ok? && |r.value| == 1 ==>
      var n := FindNode(instanceData, idRef.id);
      n.Some? && HasIsbnType(n.value) && RdfValue in n.value.props && |n.value.props[RdfValue]| > 0
      && r.value[0] == n.value.props[RdfValue][0].value
  {
    match FindNode(instanceData, idRef.id)
    case None => Ok([])
    case Some(idObj) =>
      if HasIsbnType(idObj) && RdfValue in idObj.props then
        match FirstValue(idObj.props[RdfValue])
        case TypeError => TypeError
        case Ok(v) => Ok([v])
      else Ok([])
  }

  /** The ISBNs of the identifiers, in order. */
  function IsbnValues(instanceData: Graph, ids: seq<Term>): (r: Fallible<seq<Option<string>>>)
    ensures r.Ok? ==> |r.value| <= |ids|
  {
    if ids == [] then Ok([])
    else
      var init := IsbnValues(instanceData, ids[..|ids| - 1]);
      var last := IsbnOf(instanceData, ids[|ids| - 1]);
      if init.TypeError? || last.TypeError? then TypeError else Ok(init.value + last.value)
  }

  /** The list fails exactly when one of the identifiers is an ISBN node
      with an empty `rdf:value` array. */
  lemma {:induction false} IsbnValuesError(instanceData: Graph, ids: seq<Term>)
    ensures IsbnValues(instanceData, ids).TypeError? <==>
      exists j :: 0 <= j < |ids| && IsbnOf(instanceData, ids[j]).TypeError?
  {
    if ids != [] {
      var init := ids[..|ids| - 1];
      IsbnValuesError(instanceData, init);
      assert forall j :: 0 <= j < |init| ==> init[j] == ids[j];
    }
  }

  lemma IsbnValuesPrefix(instanceData: Graph, ids: seq<Term>, i: nat)
    requires i < |ids|
    ensures IsbnValues(instanceData, ids[..i + 1]) ==
      var init := IsbnValues(instanceData, ids[..i]);
      var last := IsbnOf(instanceData, ids[i]);
      if init.TypeError? || last.TypeError? then TypeError else Ok(init.value + last.value)
  {
    assert ids[..i + 1][..i] == ids[..i];
  }

  /** The ISBN loop of main.js:2000-2009, pushing onto the summary's ISBN
      array; the first empty `rdf:value` array throws. */
  method CollectIsbns(instanceData: Graph, ids: seq<Term>) returns (r: Fallible<seq<Option<string>>>)
    ensures r == IsbnValues(instanceData, ids)
  {
    var isbn: seq<Option<string>> := [];
    for i := 0 to |ids|
      invariant IsbnValues(instanceData, ids[..i]) == Ok(isbn)
    {
      IsbnValuesPrefix(instanceData, ids, i);
      var idObj := FindNode(instanceData, ids[i].id);
      if idObj.Some? && HasIsbnType(idObj.value) && RdfValue in idObj.value.props {
        var value := idObj.value.props[RdfValue];
        if value == [] {
          assert IsbnOf(instanceData, ids[i]).TypeError?;
          IsbnValuesError(instanceData, ids);
          return TypeError;
        }
        assert IsbnOf(instanceData, ids[i]) == Ok([value[0].value]);
        isbn := isbn + [value[0].value];
      } else {
        assert IsbnOf(instanceData, ids[i]) == Ok([]);
        assert isbn + [] == isbn;
      }
    }
    assert ids[..|ids|] == ids;
    r := Ok(isbn);
  }

  /** The label of an instance in the instance list (main.js:1283-1300):
      `fallback` ("Instance {workId}") unless the instance node has an
      `rdfs:label`, or a `bf:title` whose title node has a `mainTitle`; an
      empty array on the way throws, and the handler falls back. */
  function InstanceLabel(data: Graph, instanceUri: string, fallback: string): (r: Option<string>)
    ensures FindNode(data, Some(instanceUri)).None? ==> r == Some(fallback)
    ensures FindNode(data, Some(instanceUri)).Some? ==>
      var main := FindNode(data, Some(instanceUri)).value;
      (RdfsLabel in main.props && main.props[RdfsLabel] != [] ==> r == main.props[RdfsLabel][0].value)
      && (RdfsLabel in main.props && main.props[RdfsLabel] == [] ==> r == Some(fallback))
      && (RdfsLabel !in main.props && (BfTitle !in main.props || main.props[BfTitle] == []) ==> r == Some(fallback))
      && (RdfsLabel !in main.props && BfTitle in main.props && main.props[BfTitle] != [] ==>
            var t := FindNode(data, main.props[BfTitle][0].id);
            (t.Some? && BfMainTitle in t.value.props && t.value.props[BfMainTitle] != [] ==>
               r == t.value.props[BfMainTitle][0].value)
            && (!(t.Some? && BfMainTitle in t.value.props && t.value.props[BfMainTitle] != []) ==> r == Some(fallback)))
    ensures r != Some(fallback) ==>
      var main := FindNode(data, Some(instanceUri)).value;
      (RdfsLabel in main.props && |main.props[RdfsLabel]| > 0 && r == main.props[RdfsLabel][0].value)
      || (RdfsLabel !in main.props && BfTitle in main.props && |main.props[BfTitle]| > 0
          && var t := FindNode(data, main.props[BfTitle][0].id);
             t.Some? && BfMainTitle in t.value.props && |t.value.props[BfMainTitle]| > 0
             && r == t.value.props[BfMainTitle][0].value)
  {
    match FindNode(data, Some(instanceUri))
    case None => Some(fallback)
    case Some(main) =>
      if RdfsLabel in main.props then
        match FirstValue(main.props[RdfsLabel])
        case TypeError => Some(fallback)
        case Ok(v) => v
      else if BfTitle in main.props then
        var titles := main.props[BfTitle];
        if titles == [] then Some(fallback)
        else
          match FindNode(data, titles[0].id)
          case None => Some(fallback)
          case Some(titleObj) =>
            if BfMainTitle in titleObj.props then
              match FirstValue(titleObj.props[BfMainTitle])
              case TypeError => Some(fallback)
              case Ok(v) => v
            else Some(fallback)
      else Some(fallback)
  }

  datatype Summary = Summary(
    title: Option<string>,
    contributors: seq<Contributor>,
    publicationStatement: Option<string>,
    extent: Option<string>,
    isbn: seq<Option<string>>,
    language: seq<string>,
    subjects: seq<SubjectRef>,
    workUri: Option<string>,
    instanceUri: Option<string>)

  /** `extractSummaryData(workData, instanceData, workUri, instanceUri)`
      (main.js:1776-2012) with the label lookups it fetches given by
      `fetched`: TypeError when any field throws. */
  function ExtractSummary(workData: Graph, instanceData: Graph, workUri: Option<string>, instanceUri: Option<string>,
                          fetched: string -> Option<string>): (r: Fallible<Summary>)
    ensures r.Ok? ==> r.value.workUri == workUri && r.value.instanceUri == instanceUri
    ensures |workData| == 0 && |instanceData| == 0 ==>
      r == Ok(Summary(Some(""), [], Some(""), Some(""), [], [], [], workUri, instanceUri))
    ensures r.Ok? && |workData| > 0 ==>
      var work := NodeOrFirst(workData, workUri).value;
      r.value.language == LanguageCodes(PropOrEmpty(work, BfLanguage))
      && |r.value.contributors| <= |PropOrEmpty(work, BfContribution)|
      && |r.value.subjects| <= |PropOrEmpty(work, BfSubject)|
  {
    var empty := Summary(Some(""), [], Some(""), Some(""), [], [], [], workUri, instanceUri);
    var withWork :=
      match NodeOrFirst(workData, workUri)
      case None => Ok(empty)
      case Some(work) =>
        var title := SummaryTitle(workData, work);
        var contributors := ResolveContributors(workData, PropOrEmpty(work, BfContribution), fetched);
        if title.TypeError? || contributors.TypeError? then TypeError
        else Ok(empty.(title := title.value, contributors := contributors.value,
                       language := LanguageCodes(PropOrEmpty(work, BfLanguage)),
                       subjects := ResolveSubjects(workData, PropOrEmpty(work, BfSubject), fetched)));
    match withWork
    case TypeError => TypeError
    case Ok(summary) =>
      match NodeOrFirst(instanceData, instanceUri)
      case None => Ok(summary)
      case Some(instance) =>
        var pub := PublicationOf(instance);
        var extent := ExtentOf(instanceData, instance);
        var isbn := IsbnValues(instanceData, PropOrEmpty(instance, BfIdentifiedBy));
        if pub.TypeError? || extent.TypeError? || isbn.TypeError? then TypeError
        else Ok(summary.(publicationStatement := pub.value, extent := extent.value, isbn := isbn.value))
  }
}
