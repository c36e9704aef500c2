/** The normalising part of `fetchLivePrices`: it turns the model's free text
    and the grounding metadata of the provider's reply into a complete
    `DashboardData`, or rethrows the error that stopped it. The network call
    itself is an input (`ProviderOutcome`), and so are `JSON.parse` and the
    localised clock reading. */
module GeminiService {
  import opened Wrappers
  import opened JsValues
  import opened Types

  // ---------------------------------------------------------------------
  // The provider's reply, as far as it is read
  // ---------------------------------------------------------------------

  datatype GroundingMetadata = GroundingMetadata(groundingChunks: Option<seq<GroundingChunk>>)

  datatype Candidate = Candidate(groundingMetadata: Option<GroundingMetadata>)

  /** Every part of the reply may be missing. */
  datatype Response = Response(text: Option<string>, candidates: Option<seq<Candidate>>)

  /** What the awaited provider call produced: a reply, or the error it threw. */
  datatype ProviderOutcome = Responded(response: Response) | ProviderFailed(fault: string)

  /** Why `fetchLivePrices` threw. */
  datatype FetchError =
    | ProviderError(fault: string)     // the provider's own error, rethrown as it was
    | NullPropertyRead(key: string)    // `null.key`: the reply's JSON payload was `null`

  /** `JSON.parse`: the value the text denotes, or `None` where it throws. */
  type JsonParser = string -> Option<Json>

  /** The sentinel for a price the reply did not supply ("unknown"). */
  const Sentinel: Json := JString("نامشخص")

  // ---------------------------------------------------------------------
  // Substring search
  // ---------------------------------------------------------------------

  predicate OccursAt(s: string, p: string, k: int) {
    0 <= k && k + |p| <= |s| && s[k..k + |p|] == p
  }

  /** The first position at or after `from` where `p` occurs in `s`. */
  function FindFrom(s: string, p: string, from: nat): (r: Option<nat>)
    decreases |s| - from
    ensures r.Some? ==> from <= r.value && OccursAt(s, p, r.value)
    ensures r.Some? ==> forall k :: from <= k < r.value ==> !OccursAt(s, p, k)
    ensures r.None? ==> forall k :: from <= k ==> !OccursAt(s, p, k)
  {
    if from + |p| > |s| then None
    else if s[from..from + |p|] == p then Some(from)
    else FindFrom(s, p, from + 1)
  }

  /** The last position before `upto` that holds `c`. */
  function FindLastBefore(s: string, c: char, upto: nat): (r: Option<nat>)
    requires upto <= |s|
    ensures r.Some? ==> r.value < upto && s[r.value] == c
    ensures r.Some? ==> forall k :: r.value < k < upto ==> s[k] != c
    ensures r.None? ==> forall k :: 0 <= k < upto ==> s[k] != c
  {
    if upto == 0 then None
    else if s[upto - 1] == c then Some(upto - 1)
    else FindLastBefore(s, c, upto - 1)
  }

  // ---------------------------------------------------------------------
  // The three patterns of line 60
  // ---------------------------------------------------------------------

  /** A pattern match: the whole matched text and capture group 1, which only
      the two fence patterns have. */
  datatype Match = Match(whole: string, group: Option<string>)

  /** Opener of ```` /```json\n([\s\S]*?)\n```/ ````. */
  const JsonOpener: string := "```json\n"
  /** Opener of ```` /```\n([\s\S]*?)\n```/ ````. */
  const PlainOpener: string := "```\n"
  /** Closer shared by both fence patterns. */
  const Closer: string := "\n```"

  /** A fence match whose opener starts at `i` and whose closer starts at `c`. */
  predicate FenceAt(text: string, opener: string, i: int, c: int) {
    OccursAt(text, opener, i) && i + |opener| <= c && OccursAt(text, Closer, c)
  }

  /** The fence pattern with this opener matches somewhere in `text`. */
  ghost predicate HasFence(text: string, opener: string) {
    exists i, c :: FenceAt(text, opener, i, c)
  }

  /** What the regular-expression search returns for a fence pattern: the
      match starting at the leftmost opener, whose lazy body stops at the
      first closer that follows it. */
  ghost predicate IsFenceMatch(text: string, opener: string, m: Match) {
    exists i, c ::
      FenceAt(text, opener, i, c) &&
      (forall k :: 0 <= k < i ==> !OccursAt(text, opener, k)) &&
      (forall k :: i + |opener| <= k < c ==> !OccursAt(text, Closer, k)) &&
      m == Match(text[i..c + |Closer|], Some(text[i + |opener|..c]))
  }

  /** The pattern `/{[\s\S]*}/` matches somewhere in `text`. */
  ghost predicate HasBraces(text: string) {
    exists i, j :: 0 <= i < j < |text| && text[i] == '{' && text[j] == '}'
  }

  /** What the search returns for the greedy brace pattern: the span from the
      first `{` to the last `}`, with no capture group. */
  ghost predicate IsBraceMatch(text: string, m: Match) {
    exists i, j ::
      0 <= i < j < |text| && text[i] == '{' && text[j] == '}' &&
      (forall k :: 0 <= k < i ==> text[k] != '{') &&
      (forall k :: j < k < |text| ==> text[k] != '}') &&
      m == Match(text[i..j + 1], None)
  }

  function MatchFence(text: string, opener: string): (r: Option<Match>)
    ensures r.Some? <==> HasFence(text, opener)
    ensures r.Some? ==> IsFenceMatch(text, opener, r.value)
  {
    match FindFrom(text, opener, 0)
    case None => None
    case Some(i) =>
      match FindFrom(text, Closer, i + |opener|)
      case None =>
        assert !HasFence(text, opener) by {
          forall i', c' ensures !FenceAt(text, opener, i', c') {
            if OccursAt(text, opener, i') && i' + |opener| <= c' {
              assert !OccursAt(text, Closer, c');
            }
          }
        }
        None
      case Some(c) =>
        assert FenceAt(text, opener, i, c);
        Some(Match(text[i..c + |Closer|], Some(text[i + |opener|..c])))
  }

  function MatchBraces(text: string): (r: Option<Match>)
    ensures r.Some? <==> HasBraces(text)
    ensures r.Some? ==> IsBraceMatch(text, r.value)
  {
    match FindFrom(text, "{", 0)
    case None =>
      assert !HasBraces(text) by {
        forall i | 0 <= i < |text| ensures text[i] != '{' {
          assert !OccursAt(text, "{", i);
          assert text[i..i + 1] == [text[i]];
        }
      }
      None
    case Some(i) =>
      assert text[i] == '{';
      assert forall k :: 0 <= k < i ==> text[k] != '{' by {
        forall k | 0 <= k < i ensures text[k] != '{' {
          assert !OccursAt(text, "{", k);
          assert text[k..k + 1] == [text[k]];
        }
      }
      match FindLastBefore(text, '}', |text|)
      case None => None
      case Some(j) =>
        if j <= i then
          assert !HasBraces(text);
          None
        else
          Some(Match(text[i..j + 1], None))
  }

  /** `text.match(json fence) || text.match(plain fence) || text.match(braces)`:
      the first pattern that matches decides, and a later one is consulted
      only when every earlier one fails. */
  function ExtractJson(text: string): (r: Option<Match>)
    ensures r.Some? <==> HasFence(text, JsonOpener) || HasFence(text, PlainOpener) || HasBraces(text)
    ensures HasFence(text, JsonOpener) ==> IsFenceMatch(text, JsonOpener, r.value)
    ensures !HasFence(text, JsonOpener) && HasFence(text, PlainOpener) ==>
              IsFenceMatch(text, PlainOpener, r.value)
    ensures !HasFence(text, JsonOpener) && !HasFence(text, PlainOpener) && HasBraces(text) ==>
              IsBraceMatch(text, r.value)
  {
    var json := MatchFence(text, JsonOpener);
    if json.Some? then json
    else
      var plain := MatchFence(text, PlainOpener);
      if plain.Some? then plain else MatchBraces(text)
  }

  /** `jsonMatch[1] || jsonMatch[0]`: the text handed to `JSON.parse`. */
  function Payload(m: Match): (r: string)
    ensures m.group.Some? && m.group.value != "" ==> r == m.group.value
    ensures m.group.None? || m.group.value == "" ==> r == m.whole
  {
    if m.group.Some? && m.group.value != "" then m.group.value else m.whole
  }

  /** The value of `parsedData` after the guarded parse: what `JSON.parse`
      returned for the payload, or `{}` when nothing matched or parsing threw. */
  function ParsedData(text: string, parse: JsonParser): Json {
    match ExtractJson(text)
    case None => EmptyObject
    case Some(m) =>
      match parse(Payload(m))
      case None => EmptyObject
      case Some(v) => v
  }

  // ---------------------------------------------------------------------
  // Default fill (lines 72-73, 86-100)
  // ---------------------------------------------------------------------

  /** `parsedData.<category> || {}`. */
  function CategoryObject(parsed: Json, c: Category): (r: Json)
    requires !parsed.JNull?
    ensures Truthy(r)
  {
    Or(Member(parsed, CategoryName(c)), EmptyObject)
  }

  /** `<category>.<field> || "نامشخص"`, given the category object. */
  function Fill(category: Json, f: Field): (r: Json)
    requires !category.JNull?
    ensures Truthy(r)
  {
    Or(Member(category, FieldName(f)), Sentinel)
  }

  function FillMarket(market: Json): MarketData
    requires !market.JNull?
  {
    MarketData(Fill(market, Gold18k), Fill(market, Usd), Fill(market, Eur),
               Fill(market, Oil), Fill(market, Ounce))
  }

  function FillEssentials(essentials: Json): EssentialsData
    requires !essentials.JNull?
  {
    EssentialsData(Fill(essentials, Rice), Fill(essentials, Chicken), Fill(essentials, Meat),
                   Fill(essentials, Sugar), Fill(essentials, Eggs))
  }

  /** The reply's value for a field, read without any defaulting:
      `parsed.<category>.<field>` when the category is truthy, else absent. */
  function Lookup(parsed: Json, f: Field): Option<Json>
    requires !parsed.JNull?
  {
    var category := Member(parsed, CategoryName(CategoryOf(f)));
    if TruthyOpt(category) && !category.value.JNull? then Member(category.value, FieldName(f))
    else None
  }

  // ---------------------------------------------------------------------
  // Sources (lines 76-84, 102)
  // ---------------------------------------------------------------------

  /** `response.candidates?.[0]?.groundingMetadata?.groundingChunks`. */
  function FirstCandidateChunks(response: Response): Option<seq<GroundingChunk>> {
    match response.candidates
    case None => None
    case Some(cs) =>
      if |cs| == 0 then None
      else
        match cs[0].groundingMetadata
        case None => None
        case Some(md) => md.groundingChunks
  }

  /** The chunk carries the truthy web URI `u` (`chunk.web?.uri`). */
  predicate HasUri(chunk: GroundingChunk, u: string) {
    chunk.web.Some? && chunk.web.value.uri == u && u != ""
  }

  /** What one chunk contributes to `sources`. */
  function ChunkUri(chunk: GroundingChunk): seq<string> {
    if chunk.web.Some? && chunk.web.value.uri != "" then [chunk.web.value.uri] else []
  }

  /** The URIs the `forEach` loop pushes, in chunk order. */
  function ChunkUris(chunks: seq<GroundingChunk>): seq<string> {
    if chunks == [] then []
    else ChunkUris(chunks[..|chunks| - 1]) + ChunkUri(chunks[|chunks| - 1])
  }

  /** Collects `sources` as lines 76-84 do: an absent chunk list gives `[]`;
      otherwise every chunk with a truthy `web.uri` pushes it, in order. */
  method CollectSources(chunks: Option<seq<GroundingChunk>>) returns (sources: seq<string>)
    ensures chunks.None? ==> sources == []
    ensures chunks.Some? ==> sources == ChunkUris(chunks.value)
  {
    sources := [];
    if chunks.Some? {
      var cs := chunks.value;
      var i := 0;
      while i < |cs|
        invariant 0 <= i <= |cs|
        invariant sources == ChunkUris(cs[..i])
      {
        var chunk := cs[i];
        if chunk.web.Some? && chunk.web.value.uri != "" {
          sources := sources + [chunk.web.value.uri];
        }
        assert cs[..i + 1][..i] == cs[..i];
        i := i + 1;
      }
      assert cs[..i] == cs;
    }
  }

  predicate NoDuplicates(s: seq<string>) {
    forall i, j :: 0 <= i < j < |s| ==> s[i] != s[j]
  }

  /** `[...new Set(s)]`: a `Set` ignores an element it already holds and
      iterates in insertion order. */
  function Dedup(s: seq<string>): (r: seq<string>)
    ensures NoDuplicates(r)
    ensures forall x :: x in r <==> x in s
    ensures |r| <= |s|
  {
    if s == [] then []
    else
      var d := Dedup(s[..|s| - 1]);
      var x := s[|s| - 1];
      assert forall y :: y in s <==> y in s[..|s| - 1] || y == x by {
        assert s == s[..|s| - 1] + [x];
      }
      if x in d then d else d + [x]
  }

  /** The position of the first occurrence of `x` in `s`. */
  function FirstIndex(s: seq<string>, x: string): (k: nat)
    requires x in s
    ensures k < |s| && s[k] == x && x !in s[..k]
  {
    if s[0] == x then 0
    else
      assert x in s[1..];
      var k := FirstIndex(s[1..], x);
      assert s[..k + 1] == [s[0]] + s[1..][..k];
      k + 1
  }

  // ---------------------------------------------------------------------
  // fetchLivePrices
  // ---------------------------------------------------------------------

  /** The text the patterns are matched against: `response.text || ""`. */
  function ResponseText(response: Response): string {
    if response.text.Some? then response.text.value else ""
  }

  /** The record of lines 86-103 for a non-null parsed reply. */
  function Snapshot(parsed: Json, lastUpdated: string, sources: seq<string>): DashboardData
    requires !parsed.JNull?
  {
    DashboardData(FillMarket(CategoryObject(parsed, MarketCategory)),
                  FillEssentials(CategoryObject(parsed, EssentialsCategory)),
                  lastUpdated, Some(Dedup(sources)))
  }

  /** What lines 57-103 make of a reply: the snapshot, or the error thrown
      when the payload parsed to `null`. */
  function Normalise(response: Response, parse: JsonParser, lastUpdated: string): Result<DashboardData, FetchError> {
    var parsed := ParsedData(ResponseText(response), parse);
    if parsed.JNull? then Err(NullPropertyRead(CategoryName(MarketCategory)))
    else
      var collected := match FirstCandidateChunks(response)
                       case None => []
                       case Some(cs) => ChunkUris(cs);
      Ok(Snapshot(parsed, lastUpdated, collected))
  }

  /** A snapshot the rest of the app can render without special cases: all
      ten prices are truthy and the sources are present and distinct. */
  predicate SnapshotComplete(d: DashboardData) {
    (forall f: Field :: Truthy(FieldOf(d, f))) &&
    d.sources.Some? && NoDuplicates(d.sources.value)
  }

  /** `fetchLivePrices`, after the provider call has settled. */
  method FetchLivePrices(outcome: ProviderOutcome, parse: JsonParser, lastUpdated: string)
    returns (r: Result<DashboardData, FetchError>)
    ensures outcome.ProviderFailed? ==> r == Err(ProviderError(outcome.fault))
    ensures outcome.Responded? ==> r == Normalise(outcome.response, parse, lastUpdated)
    ensures r.Ok? ==> SnapshotComplete(r.value)
  {
    if outcome.ProviderFailed? {
      r := Err(ProviderError(outcome.fault));
      return;
    }
    var response := outcome.response;
    var text := ResponseText(response);
    var jsonMatch := ExtractJson(text);

    var parsedData := EmptyObject;
    if jsonMatch.Some? {
      var attempt := parse(Payload(jsonMatch.value));
      if attempt.Some? {
        parsedData := attempt.value;
      }
    }

    if parsedData.JNull? {
      r := Err(NullPropertyRead(CategoryName(MarketCategory)));
      return;
    }
    var market := CategoryObject(parsedData, MarketCategory);
    var essentials := CategoryObject(parsedData, EssentialsCategory);

    var sources := CollectSources(FirstCandidateChunks(response));

    r := Ok(DashboardData(FillMarket(market), FillEssentials(essentials), lastUpdated,
                               Some(Dedup(sources))));
    NormaliseComplete(response, parse, lastUpdated);
  }

  // ---------------------------------------------------------------------
  // Properties
  // ---------------------------------------------------------------------

  /** Every successful snapshot is complete. */
  lemma NormaliseComplete(response: Response, parse: JsonParser, lastUpdated: string)
    ensures Normalise(response, parse, lastUpdated).Ok? ==>
              SnapshotComplete(Normalise(response, parse, lastUpdated).value)
  {
    var r := Normalise(response, parse, lastUpdated);
    if r.Ok? {
      var parsed := ParsedData(ResponseText(response), parse);
      NormaliseFailsOnlyOnNull(response, parse, lastUpdated);
      var collected := match FirstCandidateChunks(response)
                       case None => []
                       case Some(cs) => ChunkUris(cs);
      assert r.value == Snapshot(parsed, lastUpdated, collected);
      forall f: Field ensures Truthy(FieldOf(r.value, f)) {
        SnapshotFieldFollowsReply(parsed, lastUpdated, collected, f);
      }
      assert NoDuplicates(Dedup(collected));
    }
  }

  /** A failed normalisation has exactly one cause: the payload parsed to
      `null`, so reading its `market` property threw. Parse failures do not
      escape. */
  lemma NormaliseFailsOnlyOnNull(response: Response, parse: JsonParser, lastUpdated: string)
    ensures Normalise(response, parse, lastUpdated).Err? <==>
              ParsedData(ResponseText(response), parse) == JNull
    ensures Normalise(response, parse, lastUpdated).Err? ==>
              Normalise(response, parse, lastUpdated).error == NullPropertyRead("market")
  {
  }

  /** Each of the ten prices of a snapshot is the reply's `category.field`
      value when that value is truthy, and the sentinel otherwise. */
  lemma SnapshotFieldFollowsReply(parsed: Json, lastUpdated: string, sources: seq<string>, f: Field)
    requires !parsed.JNull?
    ensures var v := Lookup(parsed, f);
            FieldOf(Snapshot(parsed, lastUpdated, sources), f) == (if TruthyOpt(v) then v.value else Sentinel)
  {
    var category := CategoryObject(parsed, CategoryOf(f));
    assert FieldOf(Snapshot(parsed, lastUpdated, sources), f) == Fill(category, f);
    if !TruthyOpt(Member(parsed, CategoryName(CategoryOf(f)))) {
      assert category == EmptyObject;
    }
  }

  /** The same, for the result of a whole normalisation. */
  lemma FieldsFollowReply(response: Response, parse: JsonParser, lastUpdated: string)
    requires ParsedData(ResponseText(response), parse) != JNull
    ensures Normalise(response, parse, lastUpdated).Ok?
    ensures forall f: Field ::
              var v := Lookup(ParsedData(ResponseText(response), parse), f);
              FieldOf(Normalise(response, parse, lastUpdated).value, f) ==
                (if TruthyOpt(v) then v.value else Sentinel)
  {
    var parsed := ParsedData(ResponseText(response), parse);
    var collected := match FirstCandidateChunks(response)
                     case None => []
                     case Some(cs) => ChunkUris(cs);
    assert Normalise(response, parse, lastUpdated) == Ok(Snapshot(parsed, lastUpdated, collected));
    forall f: Field {
      SnapshotFieldFollowsReply(parsed, lastUpdated, collected, f);
    }
  }

  /** A missing or falsy category makes all five of its prices the sentinel,
      whatever the other category holds. */
  lemma MissingCategoryAllSentinel(response: Response, parse: JsonParser, lastUpdated: string, c: Category)
    requires ParsedData(ResponseText(response), parse) != JNull
    requires !TruthyOpt(Member(ParsedData(ResponseText(response), parse), CategoryName(c)))
    ensures Normalise(response, parse, lastUpdated).Ok?
    ensures forall f: Field :: CategoryOf(f) == c ==>
              FieldOf(Normalise(response, parse, lastUpdated).value, f) == Sentinel
  {
    FieldsFollowReply(response, parse, lastUpdated);
    forall f: Field | CategoryOf(f) == c
      ensures Lookup(ParsedData(ResponseText(response), parse), f) == None
    {
    }
  }

  /** When no pattern matches, or the payload does not parse, the call still
      returns a snapshot, and all ten of its prices are the sentinel. */
  lemma UnparsableReplyAllSentinel(response: Response, parse: JsonParser, lastUpdated: string)
    requires var m := ExtractJson(ResponseText(response));
             m.None? || parse(Payload(m.value)).None?
    ensures Normalise(response, parse, lastUpdated).Ok?
    ensures forall f: Field :: FieldOf(Normalise(response, parse, lastUpdated).value, f) == Sentinel
  {
    assert ParsedData(ResponseText(response), parse) == EmptyObject;
    MissingCategoryAllSentinel(response, parse, lastUpdated, MarketCategory);
    MissingCategoryAllSentinel(response, parse, lastUpdated, EssentialsCategory);
  }

  /** Text with neither a backtick nor an opening brace matches none of the
      three patterns. */
  lemma PlainTextMatchesNothing(text: string)
    requires forall k :: 0 <= k < |text| ==> text[k] != '`' && text[k] != '{'
    ensures ExtractJson(text).None?
  {
    forall i, c ensures !FenceAt(text, JsonOpener, i, c) && !FenceAt(text, PlainOpener, i, c) {
      if 0 <= i < |text| {
        assert text[i] != '`';
        assert !OccursAt(text, JsonOpener, i) by {
          if i + |JsonOpener| <= |text| { assert text[i..i + |JsonOpener|][0] == text[i]; }
        }
        assert !OccursAt(text, PlainOpener, i) by {
          if i + |PlainOpener| <= |text| { assert text[i..i + |PlainOpener|][0] == text[i]; }
        }
      }
    }
  }

  /** A reply that is plain prose: every price is the sentinel. */
  lemma ProseReplyAllSentinel(parse: JsonParser, chunks: Option<seq<Candidate>>, lastUpdated: string)
    ensures var r := Normalise(Response(Some("not json at all"), chunks), parse, lastUpdated);
            r.Ok? && forall f: Field :: FieldOf(r.value, f) == Sentinel
  {
    PlainTextMatchesNothing("not json at all");
    UnparsableReplyAllSentinel(Response(Some("not json at all"), chunks), parse, lastUpdated);
  }

  /** A plain fenced block wins over a brace span elsewhere in the text: the
      chosen match carries a capture group, which the brace pattern never does. */
  lemma FencePreferredOverBraces(text: string)
    requires HasFence(text, PlainOpener)
    ensures ExtractJson(text).Some? && ExtractJson(text).value.group.Some?
  {
    if HasFence(text, JsonOpener) {
      var m := ExtractJson(text).value;
      assert IsFenceMatch(text, JsonOpener, m);
    } else {
      var m := ExtractJson(text).value;
      assert IsFenceMatch(text, PlainOpener, m);
    }
  }

  /** When only the brace pattern matches, `JSON.parse` receives exactly the
      span from the first `{` of the text to its last `}`. */
  lemma BracePayloadIsSpan(text: string)
    requires !HasFence(text, JsonOpener) && !HasFence(text, PlainOpener) && HasBraces(text)
    ensures var p := Payload(ExtractJson(text).value);
            exists i, j :: 0 <= i < j < |text| && p == text[i..j + 1] &&
              text[i] == '{' && (forall k :: 0 <= k < i ==> text[k] != '{') &&
              text[j] == '}' && (forall k :: j < k < |text| ==> text[k] != '}')
  {
    var m := ExtractJson(text).value;
    assert IsBraceMatch(text, m);
  }

  /** A fenced block with an empty body hands the parser the whole match, the
      opener followed directly by the closer. */
  lemma EmptyFencePayloadIsWholeMatch(text: string, opener: string, m: Match)
    requires IsFenceMatch(text, opener, m) && m.group == Some("")
    ensures Payload(m) == opener + Closer
  {
    var i, c :| FenceAt(text, opener, i, c) &&
      m == Match(text[i..c + |Closer|], Some(text[i + |opener|..c]));
    assert c == i + |opener|;
    assert text[i..c + |Closer|] == text[i..i + |opener|] + text[c..c + |Closer|];
  }

  /** Pushing chunk by chunk: the URIs of two chunk lists in sequence are
      the URIs of the first followed by those of the second. */
  lemma {:induction false} ChunkUrisAppend(a: seq<GroundingChunk>, b: seq<GroundingChunk>)
    ensures ChunkUris(a + b) == ChunkUris(a) + ChunkUris(b)
    decreases |b|
  {
    if b != [] {
      var b' := b[..|b| - 1];
      assert (a + b)[..|a + b| - 1] == a + b';
      ChunkUrisAppend(a, b');
    } else {
      assert a + b == a;
    }
  }

  /** The collected URIs are exactly the truthy `web.uri` values of the chunks. */
  lemma {:induction false} ChunkUrisMembership(chunks: seq<GroundingChunk>, u: string)
    ensures u in ChunkUris(chunks) <==> exists k :: 0 <= k < |chunks| && HasUri(chunks[k], u)
    decreases |chunks|
  {
    if chunks != [] {
      var prefix := chunks[..|chunks| - 1];
      ChunkUrisMembership(prefix, u);
      if exists k :: 0 <= k < |chunks| && HasUri(chunks[k], u) {
        var k :| 0 <= k < |chunks| && HasUri(chunks[k], u);
        if k < |chunks| - 1 { assert prefix[k] == chunks[k]; }
      }
      if exists k :: 0 <= k < |prefix| && HasUri(prefix[k], u) {
        var k :| 0 <= k < |prefix| && HasUri(prefix[k], u);
        assert chunks[k] == prefix[k];
      }
    }
  }

  /** `FirstIndex` is the only position holding the first occurrence. */
  lemma FirstIndexUnique(s: seq<string>, x: string, k: nat)
    requires k < |s| && s[k] == x && x !in s[..k]
    ensures FirstIndex(s, x) == k
  {
    var f := FirstIndex(s, x);
    assert forall j :: 0 <= j < k ==> s[..k][j] == s[j];
    assert forall j :: 0 <= j < f ==> s[..f][j] == s[j];
  }

  /** Each element of `Dedup(s)` occurs in `s` for the first time before the
      first occurrence of every later element: `Set` keeps insertion order. */
  ghost predicate FirstSeenOrder(s: seq<string>, r: seq<string>)
    requires forall x :: x in r ==> x in s
  {
    forall i, j :: 0 <= i < j < |r| ==> FirstIndex(s, r[i]) < FirstIndex(s, r[j])
  }

  lemma {:induction false} DedupFirstSeenOrder(s: seq<string>)
    ensures FirstSeenOrder(s, Dedup(s))
    decreases |s|
  {
    if s != [] {
      var prefix := s[..|s| - 1];
      var x := s[|s| - 1];
      assert s == prefix + [x];
      DedupFirstSeenOrder(prefix);
      var d := Dedup(prefix);
      forall y | y in prefix ensures FirstIndex(s, y) == FirstIndex(prefix, y) {
        var k := FirstIndex(prefix, y);
        assert s[..k] == prefix[..k];
        FirstIndexUnique(s, y, k);
      }
      if x !in d {
        assert s[..|prefix|] == prefix;
        FirstIndexUnique(s, x, |prefix|);
        var r := d + [x];
        forall i, j | 0 <= i < j < |r| ensures FirstIndex(s, r[i]) < FirstIndex(s, r[j]) {
          if j < |d| {
            assert r[i] == d[i] && r[j] == d[j];
          } else {
            assert r[i] == d[i] && r[i] in prefix;
          }
        }
      }
    }
  }

  /** A list that already has no duplicates passes through unchanged. */
  lemma {:induction false} DedupOfDistinct(s: seq<string>)
    requires NoDuplicates(s)
    ensures Dedup(s) == s
    decreases |s|
  {
    if s != [] {
      var prefix := s[..|s| - 1];
      assert NoDuplicates(prefix);
      DedupOfDistinct(prefix);
      assert s[|s| - 1] !in prefix;
      assert s == prefix + [s[|s| - 1]];
    }
  }

  /** Chunks citing `[A, B, A, C]` give the sources `[A, B, C]`. */
  lemma RepeatedCitationsCollapse(a: string, b: string, c: string)
    requires a != b && a != c && b != c
    ensures Dedup([a, b, a, c]) == [a, b, c]
  {
    assert [a][..0] == [];
    assert Dedup([a]) == [a];
    assert [a, b][..1] == [a];
    assert Dedup([a, b]) == [a, b];
    assert [a, b, a][..2] == [a, b];
    assert Dedup([a, b, a]) == [a, b];
    assert [a, b, a, c][..3] == [a, b, a];
  }

  /** The snapshot's sources: no duplicates, exactly the truthy URIs of the
      first candidate's chunks (none when there are none), in first-seen order. */
  lemma SnapshotSources(response: Response, parse: JsonParser, lastUpdated: string)
    requires Normalise(response, parse, lastUpdated).Ok?
    ensures var d := Normalise(response, parse, lastUpdated).value;
            var chunks := FirstCandidateChunks(response);
            var collected := if chunks.None? then [] else ChunkUris(chunks.value);
            d.sources.Some? && NoDuplicates(d.sources.value) &&
            FirstSeenOrder(collected, d.sources.value) &&
            (chunks.None? ==> d.sources.value == []) &&
            (chunks.Some? ==> forall u :: u in d.sources.value <==>
               exists k :: 0 <= k < |chunks.value| && HasUri(chunks.value[k], u))
  {
    var chunks := FirstCandidateChunks(response);
    var collected := if chunks.None? then [] else ChunkUris(chunks.value);
    DedupFirstSeenOrder(collected);
    if chunks.Some? {
      forall u ensures u in collected <==> exists k :: 0 <= k < |chunks.value| && HasUri(chunks.value[k], u) {
        ChunkUrisMembership(chunks.value, u);
      }
    }
  }
}
