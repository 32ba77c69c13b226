/** `GeminiWebWrapper`: a URL-only web search whose hits get their titles from the
    pages themselves, the context document built from them, and the answer step
    against the Gemini endpoint. */
module GeminiWebWrapper {
  import opened PyText
  import opened Json
  import opened ContentExtractor
  import opened ContextFormat

  /** One search record as `search_web` builds it: `href`, `title`, and an empty `body`. */
  datatype Hit = Hit(href: string, title: string, body: string)

  /** What the URL search did: yielded all its URLs, or raised after yielding some. */
  datatype UrlSearch = Urls(urls: seq<string>) | SearchFailed(yielded: seq<string>, reason: string)

  /** The `<title>` of a parsed page: absent, or present with its `.string`, which is
      `None` unless the tag holds exactly one string. */
  datatype TitleTag = NoTitle | TitleTag(text: Option<string>)

  /** Fetching a page for its title: any failure, or the page's title tag. */
  datatype TitleFetch = TitleFetchFailed(reason: string) | TitleFetched(tag: TitleTag)

  /** `_get_page_title`: the stripped title text; the stripped URL when the page has no
      title; the raw URL when fetching fails or when the title has no single string
      (stripping `None` raises, and the handler returns the URL). */
  function PageTitle(url: string, fetch: TitleFetch): (title: string)
    ensures fetch.TitleFetched? && fetch.tag.TitleTag? && fetch.tag.text.Some? ==>
      title == Strip(fetch.tag.text.value)
    ensures fetch == TitleFetched(NoTitle) ==> title == Strip(url)
    ensures fetch.TitleFetchFailed? || fetch == TitleFetched(TitleTag(None)) ==> title == url
    ensures title == url || Strip(title) == title
  {
    match fetch
    case TitleFetchFailed(_) => url
    case TitleFetched(NoTitle) => StripIdempotent(url); Strip(url)
    case TitleFetched(TitleTag(None)) => url
    case TitleFetched(TitleTag(Some(t))) => StripIdempotent(t); Strip(t)
  }

  /** The record `search_web` makes for one URL. */
  function HitFor(url: string, titleFetch: string -> TitleFetch): Hit {
    Hit(url, PageTitle(url, titleFetch(url)), "")
  }

  /** The records `search_web` returns: one per URL in order, or none at all when the
      search raised, whatever it had yielded before. */
  function Hits(search: UrlSearch, titleFetch: string -> TitleFetch): seq<Hit> {
    match search
    case SearchFailed(_, _) => []
    case Urls(urls) => seq(|urls|, k requires 0 <= k < |urls| => HitFor(urls[k], titleFetch))
  }

  /** `search_web`: builds the records one URL at a time (fetching each title), and
      throws the list away if the search raises. */
  method SearchWeb(search: UrlSearch, titleFetch: string -> TitleFetch) returns (results: seq<Hit>)
    ensures results == Hits(search, titleFetch)
  {
    var urls := if search.Urls? then search.urls else search.yielded;
    results := [];
    for i := 0 to |urls|
      invariant |results| == i
      invariant forall k :: 0 <= k < i ==> results[k] == HitFor(urls[k], titleFetch)
    {
      results := results + [HitFor(urls[i], titleFetch)];
    }
    if search.SearchFailed? {
      results := [];
    }
  }

  /** A failed search gives no records; otherwise there is one record per URL, in
      order, with that URL, its page title and an empty body. */
  lemma HitsFields(search: UrlSearch, titleFetch: string -> TitleFetch)
    ensures search.SearchFailed? ==> Hits(search, titleFetch) == []
    ensures search.Urls? ==> |Hits(search, titleFetch)| == |search.urls|
    ensures search.Urls? ==>
      forall k :: 0 <= k < |search.urls| ==>
        var h := Hits(search, titleFetch)[k];
        && h.href == search.urls[k]
        && h.body == []
        && h.title == PageTitle(search.urls[k], titleFetch(search.urls[k]))
  {
  }

  const GeminiLabels: seq<string> := ["Source: ", "URL: "]

  /** The block for one record: `Source` and `URL` lines, the content section when the
      page gave content, and the separator. */
  function HitBlock(hit: Hit, fetch: string -> PageFetch): string {
    Block(Header(GeminiLabels, [hit.title, hit.href]), ExtractContent(fetch(hit.href)))
  }

  /** One block per record, in record order; no record is skipped. */
  function GeminiBlocks(hits: seq<Hit>, fetch: string -> PageFetch): seq<string> {
    seq(|hits|, k requires 0 <= k < |hits| => HitBlock(hits[k], fetch))
  }

  /** The context document: the blocks joined by newlines. */
  function GeminiContext(hits: seq<Hit>, fetch: string -> PageFetch): string {
    Join("\n", GeminiBlocks(hits, fetch))
  }

  /** `generate_context`: searches once, then builds one block per record in a loop. */
  method GenerateContext(query: string, numResults: int, search: (string, int) -> UrlSearch,
                         titleFetch: string -> TitleFetch, fetch: string -> PageFetch)
    returns (context: string)
    ensures context == GeminiContext(Hits(search(query, numResults), titleFetch), fetch)
  {
    var results := SearchWeb(search(query, numResults), titleFetch);
    var blocks: seq<string> := [];
    for i := 0 to |results|
      invariant blocks == GeminiBlocks(results[..i], fetch)
    {
      var hit := results[i];
      GeminiBlocksSnoc(results[..i], hit, fetch);
      assert results[..i + 1] == results[..i] + [hit];
      blocks := blocks + [HitBlock(hit, fetch)];
    }
    assert results[..|results|] == results;
    context := Join("\n", blocks);
  }

  lemma GeminiBlocksSnoc(hits: seq<Hit>, hit: Hit, fetch: string -> PageFetch)
    ensures GeminiBlocks(hits + [hit], fetch) == GeminiBlocks(hits, fetch) + [HitBlock(hit, fetch)]
  {
  }

  lemma {:induction false} GeminiBlocksRead(hits: seq<Hit>, fetch: string -> PageFetch, k: nat)
    requires k < |hits|
    requires '\n' !in hits[k].title && '\n' !in hits[k].href
    ensures |GeminiBlocks(hits, fetch)| == |hits|
    ensures DecodeBlock(GeminiLabels, GeminiBlocks(hits, fetch)[k]) ==
      Some(([hits[k].title, hits[k].href], ExtractContent(fetch(hits[k].href))))
  {
    var values := [hits[k].title, hits[k].href];
    assert values[0] == hits[k].title && values[1] == hits[k].href;
    var content := ExtractContent(fetch(hits[k].href));
    assert GeminiBlocks(hits, fetch)[k] == Block(Header(GeminiLabels, values), content);
    DecodeBlockRoundTrip(GeminiLabels, values, content);
  }

  /** A joined list of blocks starts with the first block. */
  lemma JoinStartsWithFirst(blocks: seq<string>)
    requires blocks != []
    ensures blocks[0] <= Join("\n", blocks)
  {
  }

  /** The Gemini context is blank exactly when there are no records. */
  lemma GeminiContextBlank(hits: seq<Hit>, fetch: string -> PageFetch)
    ensures IsBlank(GeminiContext(hits, fetch)) <==> hits == []
  {
    var blocks := GeminiBlocks(hits, fetch);
    if hits != [] {
      var c := GeminiContext(hits, fetch);
      JoinStartsWithFirst(blocks);
      assert blocks[0][0] == 'S';
      assert c[0] == 'S' && !IsSpace(c[0]);
    }
  }

  // ---- the answer step --------------------------------------------------------

  const DetailInstruction: string := "Please ensure the answer is detailed with points wherever necessary. "
  const FormatInstruction: string := "Please ensure that the answer is properly formatted for reading. "

  /** The prompt for a non-blank context. */
  function FullPrompt(prompt: string, context: string): string {
    PromptHead(context, prompt) + AnswerInstruction + DetailInstruction + FormatInstruction + RelevanceInstruction
  }

  /** The JSON body posted to the endpoint. The two fractional generation parameters
      are left out of this model. */
  function RequestBody(fullPrompt: string): Json {
    JObj(map[
      "contents" := JArr([JObj(map["parts" := JArr([JObj(map["text" := JStr(fullPrompt)])])])]),
      "generationConfig" := JObj(map["topK" := JNum(40), "maxOutputTokens" := JNum(2048)])
    ])
  }

  const PromptPath: seq<Key> := [Field("contents"), Index(0), Field("parts"), Index(0), Field("text")]
  const AnswerPath: seq<Key> :=
    [Field("candidates"), Index(0), Field("content"), Field("parts"), Index(0), Field("text")]

  /** What the POST gave: a `requests` failure (connection, timeout, error status, or a
      body that is not JSON), or the decoded body. */
  datatype PostOutcome = RequestFailed(reason: string) | Responded(body: Json)

  const ParseErrorPrefix: string := "Error parsing Gemini response: "
  const RequestErrorPrefix: string := "Error querying Gemini API: "
  const UnexpectedErrorPrefix: string := "Unexpected error: "

  /** `response_data['candidates'][0]['content']['parts'][0]['text']`, with a
      `KeyError`/`IndexError` reported as a parse error and a `TypeError` falling
      through to the generic handler. */
  function ReadAnswer(body: Json): Reply {
    match Walk(body, AnswerPath)
    case Found(v) => if v.JStr? then Text(v.s) else NonText(v)
    case Missing(detail) => Text(ParseErrorPrefix + detail)
    case WrongType(detail) => Text(UnexpectedErrorPrefix + detail)
  }

  /** `query_gemini`, with the endpoint as `post`. */
  function QueryGemini(prompt: string, context: string, post: Json -> PostOutcome): Reply {
    if IsBlank(context) then Text(Advisory)
    else
      match post(RequestBody(FullPrompt(prompt, context)))
      case RequestFailed(reason) => Text(RequestErrorPrefix + reason)
      case Responded(body) => ReadAnswer(body)
  }

  /** A blank context gives the advisory whatever the endpoint would have said: the
      endpoint is not consulted. */
  lemma QueryGeminiBlank(prompt: string, context: string, post1: Json -> PostOutcome, post2: Json -> PostOutcome)
    requires IsBlank(context)
    ensures QueryGemini(prompt, context, post1) == QueryGemini(prompt, context, post2) == Text(Advisory)
  {
  }

  /** The request carries the prompt where the endpoint reads it, and the prompt has
      the context before the question. */
  lemma RequestCarriesPrompt(prompt: string, context: string)
    ensures Walk(RequestBody(FullPrompt(prompt, context)), PromptPath) == Found(JStr(FullPrompt(prompt, context)))
    ensures PromptHead(context, prompt) <= FullPrompt(prompt, context)
  {
  }

  /** A response that has text at the answer path yields that text, whatever else
      the response holds. */
  lemma QueryGeminiAnswer(prompt: string, context: string, post: Json -> PostOutcome, body: Json, text: string)
    requires !IsBlank(context)
    requires post(RequestBody(FullPrompt(prompt, context))) == Responded(body)
    requires Walk(body, AnswerPath) == Found(JStr(text))
    ensures QueryGemini(prompt, context, post) == Text(text)
  {
  }

  /** For a non-blank context, every way the endpoint can fail is reported as text
      under its own prefix. */
  lemma QueryGeminiErrors(prompt: string, context: string, post: Json -> PostOutcome)
    requires !IsBlank(context)
    ensures post(RequestBody(FullPrompt(prompt, context))).RequestFailed? ==>
      QueryGemini(prompt, context, post) ==
        Text(RequestErrorPrefix + post(RequestBody(FullPrompt(prompt, context))).reason)
    ensures post(RequestBody(FullPrompt(prompt, context))).Responded? ==>
      var walked := Walk(post(RequestBody(FullPrompt(prompt, context))).body, AnswerPath);
      && (walked.Missing? ==> QueryGemini(prompt, context, post) == Text(ParseErrorPrefix + walked.detail))
      && (walked.WrongType? ==> QueryGemini(prompt, context, post) == Text(UnexpectedErrorPrefix + walked.detail))
  {
  }

  /** An empty candidate list is a parse error ("list index out of range"), whatever
      else the response holds. */
  lemma NoCandidates(prompt: string, context: string, post: Json -> PostOutcome, body: Json)
    requires !IsBlank(context)
    requires post(RequestBody(FullPrompt(prompt, context))) == Responded(body)
    requires Subscript(body, Field("candidates")) == Found(JArr([]))
    ensures QueryGemini(prompt, context, post) == Text(ParseErrorPrefix + "list index out of range")
  {
    EmptyCandidatesWalk(body);
  }

  lemma EmptyCandidatesWalk(body: Json)
    requires Subscript(body, Field("candidates")) == Found(JArr([]))
    ensures Walk(body, AnswerPath) == Missing("list index out of range")
  {
    assert AnswerPath[0] == Field("candidates");
    assert AnswerPath[1..][0] == Index(0);
  }

  /** The whole Gemini pipeline for one query: no records means the advisory, with
      no call to the endpoint; otherwise the endpoint is asked with the context. */
  lemma GeminiPipeline(query: string, hits: seq<Hit>, fetch: string -> PageFetch, post: Json -> PostOutcome)
    ensures hits == [] ==> QueryGemini(query, GeminiContext(hits, fetch), post) == Text(Advisory)
    ensures hits != [] ==>
      QueryGemini(query, GeminiContext(hits, fetch), post) ==
        match post(RequestBody(FullPrompt(query, GeminiContext(hits, fetch))))
        case RequestFailed(reason) => Text(RequestErrorPrefix + reason)
        case Responded(body) => ReadAnswer(body)
  {
    GeminiContextBlank(hits, fetch);
  }
}
