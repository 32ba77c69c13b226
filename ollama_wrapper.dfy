/** `OllamaWebWrapper`: a search backend that returns title/URL/snippet records, the
    context document built from the records that have a URL, and the answer step
    against a local Ollama model. */
module OllamaWebWrapper {
  import opened PyText
  import opened Json
  import opened ContentExtractor
  import opened ContextFormat

  const DefaultModel: string := "granite3-moe:3b-instruct-q8_0"

  /** The wrapper object. Its model name is the one field that changes after
      construction: the shell overwrites it before every search. */
  class WebWrapper {
    var modelName: string

    constructor (modelName: string)
      ensures this.modelName == modelName
    {
      this.modelName := modelName;
    }
  }

  /** A search record: a dict that normally has `title`, `href` and `body`. */
  type Record = map<string, string>

  /** `r.get(key, '')` */
  function Get(r: Record, key: string): (v: string)
    ensures key in r ==> v == r[key]
    ensures key !in r ==> v == []
  {
    if key in r then r[key] else []
  }

  /** What the search backend did: raised, or returned its records. */
  datatype SearchReply = SearchFailed(reason: string) | Records(records: seq<Record>)

  /** `search_web`: the backend's records, or none at all when it raised. */
  function SearchWeb(reply: SearchReply): seq<Record> {
    match reply
    case SearchFailed(_) => []
    case Records(records) => records
  }

  /** `if url:` with `url = result.get('href', '')`. */
  predicate HasUrl(r: Record) {
    Get(r, "href") != []
  }

  /** The records `generate_context` makes a block for, in their original order. */
  function WithUrl(results: seq<Record>): (kept: seq<Record>)
    ensures |kept| <= |results|
    ensures forall k :: 0 <= k < |kept| ==> HasUrl(kept[k])
  {
    if results == [] then []
    else
      var last := results[|results| - 1];
      WithUrl(results[..|results| - 1]) + (if HasUrl(last) then [last] else [])
  }

  /** Filtering distributes over concatenation, so the kept records keep their order. */
  lemma {:induction false} WithUrlAppend(a: seq<Record>, b: seq<Record>)
    ensures WithUrl(a + b) == WithUrl(a) + WithUrl(b)
    decreases |b|
  {
    if b == [] {
      assert a + b == a;
    } else {
      var b' := b[..|b| - 1];
      assert (a + b)[..|a + b| - 1] == a + b';
      assert (a + b)[|a + b| - 1] == b[|b| - 1];
      WithUrlAppend(a, b');
    }
  }

  /** A record is kept exactly when it is among the results and has a URL. */
  lemma {:induction false} WithUrlMembers(results: seq<Record>, r: Record)
    ensures r in WithUrl(results) <==> r in results && HasUrl(r)
  {
    if results != [] {
      var init := results[..|results| - 1];
      WithUrlMembers(init, r);
      assert results == init + [results[|results| - 1]];
    }
  }

  /** No record is dropped when all have a URL. */
  lemma {:induction false} WithUrlAll(results: seq<Record>)
    requires forall k :: 0 <= k < |results| ==> HasUrl(results[k])
    ensures WithUrl(results) == results
  {
    if results != [] {
      var init := results[..|results| - 1];
      WithUrlAll(init);
      assert results == init + [results[|results| - 1]];
    }
  }

  const OllamaLabels: seq<string> := ["Source: ", "URL: ", "Summary: "]

  /** The block for one record: `Source`, `URL` and `Summary` lines (missing fields
      read as empty), the content section when the page gave content, and the separator. */
  function RecordBlock(r: Record, fetch: string -> PageFetch): string {
    Block(Header(OllamaLabels, [Get(r, "title"), Get(r, "href"), Get(r, "body")]),
          ExtractContent(fetch(Get(r, "href"))))
  }

  /** One block per record that has a URL, in record order. */
  function OllamaBlocks(results: seq<Record>, fetch: string -> PageFetch): seq<string> {
    var kept := WithUrl(results);
    seq(|kept|, k requires 0 <= k < |kept| => RecordBlock(kept[k], fetch))
  }

  /** The context document: the blocks joined by newlines. */
  function OllamaContext(results: seq<Record>, fetch: string -> PageFetch): string {
    Join("\n", OllamaBlocks(results, fetch))
  }

  lemma OllamaBlocksSnoc(results: seq<Record>, r: Record, fetch: string -> PageFetch)
    ensures OllamaBlocks(results + [r], fetch) ==
      OllamaBlocks(results, fetch) + (if HasUrl(r) then [RecordBlock(r, fetch)] else [])
  {
    assert (results + [r])[..|results|] == results;
  }

  /** `generate_context`: searches once, then walks the records, building a block for
      each one with a URL. */
  method GenerateContext(query: string, numResults: int, search: (string, int) -> SearchReply,
                         fetch: string -> PageFetch)
    returns (context: string)
    ensures context == OllamaContext(SearchWeb(search(query, numResults)), fetch)
  {
    var results := SearchWeb(search(query, numResults));
    var blocks: seq<string> := [];
    for i := 0 to |results|
      invariant blocks == OllamaBlocks(results[..i], fetch)
    {
      var result := results[i];
      var url := Get(result, "href");
      var title := Get(result, "title");
      var snippet := Get(result, "body");
      OllamaBlocksSnoc(results[..i], result, fetch);
      assert results[..i + 1] == results[..i] + [result];
      if url != [] {
        var content := ExtractContent(fetch(url));
        blocks := blocks + [Block(Header(OllamaLabels, [title, url, snippet]), content)];
      }
    }
    assert results[..|results|] == results;
    context := Join("\n", blocks);
  }

  /** The k-th block reads back as the k-th record with a URL: its title, URL,
      snippet, and the content extracted from that URL. The `Summary` line is always
      there; the content section only when the content is non-empty. */
  lemma {:induction false} OllamaBlocksRead(results: seq<Record>, fetch: string -> PageFetch, k: nat)
    requires k < |WithUrl(results)|
    requires var r := WithUrl(results)[k];
      '\n' !in Get(r, "title") && '\n' !in Get(r, "href") && '\n' !in Get(r, "body")
    ensures |OllamaBlocks(results, fetch)| == |WithUrl(results)|
    ensures var r := WithUrl(results)[k];
      DecodeBlock(OllamaLabels, OllamaBlocks(results, fetch)[k]) ==
        Some(([Get(r, "title"), Get(r, "href"), Get(r, "body")], ExtractContent(fetch(Get(r, "href")))))
  {
    var r := WithUrl(results)[k];
    var values := [Get(r, "title"), Get(r, "href"), Get(r, "body")];
    assert values[0] == Get(r, "title") && values[1] == Get(r, "href") && values[2] == Get(r, "body");
    var content := ExtractContent(fetch(Get(r, "href")));
    assert OllamaBlocks(results, fetch)[k] == Block(Header(OllamaLabels, values), content);
    DecodeBlockRoundTrip(OllamaLabels, values, content);
  }

  /** No more blocks than records, and no context at all when the search raised. */
  lemma OllamaBlockCount(reply: SearchReply, fetch: string -> PageFetch)
    ensures |OllamaBlocks(SearchWeb(reply), fetch)| <= |SearchWeb(reply)|
    ensures reply.SearchFailed? ==> OllamaContext(SearchWeb(reply), fetch) == []
  {
  }

  /** The Ollama context is blank exactly when no record has a URL. */
  lemma OllamaContextBlank(results: seq<Record>, fetch: string -> PageFetch)
    ensures IsBlank(OllamaContext(results, fetch)) <==> WithUrl(results) == []
  {
    var blocks := OllamaBlocks(results, fetch);
    if WithUrl(results) != [] {
      var c := OllamaContext(results, fetch);
      assert blocks[0] <= c;
      assert blocks[0][0] == 'S';
      assert c[0] == 'S' && !IsSpace(c[0]);
    }
  }

  // ---- the answer step --------------------------------------------------------

  /** The prompt for a non-blank context. */
  function FullPrompt(prompt: string, context: string): string {
    PromptHead(context, prompt) + AnswerInstruction + RelevanceInstruction
  }

  /** The message list sent to the model: one user message holding the prompt. */
  function Messages(fullPrompt: string): Json {
    JArr([JObj(map["role" := JStr("user"), "content" := JStr(fullPrompt)])])
  }

  /** What `ollama.chat` did: raised, or returned a response. */
  datatype ChatOutcome = ChatFailed(reason: string) | ChatResponse(body: Json)

  const ReplyPath: seq<Key> := [Field("message"), Field("content")]
  const OllamaErrorPrefix: string := "Error querying Ollama: "

  /** `query_ollama`, with `ollama.chat` as `chat(model, messages)`: every failure,
      the call's own or a missing field in its response, is reported under one prefix. */
  function QueryOllama(model: string, prompt: string, context: string,
                       chat: (string, Json) -> ChatOutcome): Reply
  {
    if IsBlank(context) then Text(Advisory)
    else
      match chat(model, Messages(FullPrompt(prompt, context)))
      case ChatFailed(reason) => Text(OllamaErrorPrefix + reason)
      case ChatResponse(body) =>
        match Walk(body, ReplyPath)
        case Found(v) => if v.JStr? then Text(v.s) else NonText(v)
        case Missing(detail) => Text(OllamaErrorPrefix + detail)
        case WrongType(detail) => Text(OllamaErrorPrefix + detail)
  }

  /** A blank context gives the advisory whatever the model would have said: the
      model is not consulted. */
  lemma QueryOllamaBlank(model: string, prompt: string, context: string,
                         chat1: (string, Json) -> ChatOutcome, chat2: (string, Json) -> ChatOutcome)
    requires IsBlank(context)
    ensures QueryOllama(model, prompt, context, chat1) == QueryOllama(model, prompt, context, chat2) == Text(Advisory)
  {
  }

  /** The message carries the prompt, and the prompt starts with the context and then
      the question. */
  lemma MessagesCarryPrompt(prompt: string, context: string)
    ensures Walk(Messages(FullPrompt(prompt, context)), [Index(0), Field("content")]) ==
      Found(JStr(FullPrompt(prompt, context)))
    ensures PromptHead(context, prompt) <= FullPrompt(prompt, context)
  {
  }

  /** A response with text at `message.content` yields that text, whatever else the
      response holds. */
  lemma QueryOllamaAnswer(model: string, prompt: string, context: string,
                          chat: (string, Json) -> ChatOutcome, body: Json, text: string)
    requires !IsBlank(context)
    requires chat(model, Messages(FullPrompt(prompt, context))) == ChatResponse(body)
    requires Walk(body, ReplyPath) == Found(JStr(text))
    ensures QueryOllama(model, prompt, context, chat) == Text(text)
  {
  }

  /** For a non-blank context, every failure of the call or of reading its response
      is text under the one prefix. */
  lemma QueryOllamaErrors(model: string, prompt: string, context: string, chat: (string, Json) -> ChatOutcome)
    requires !IsBlank(context)
    ensures var outcome := chat(model, Messages(FullPrompt(prompt, context)));
      && (outcome.ChatFailed? ==> QueryOllama(model, prompt, context, chat) == Text(OllamaErrorPrefix + outcome.reason))
      && (outcome.ChatResponse? && !Walk(outcome.body, ReplyPath).Found? ==>
            QueryOllama(model, prompt, context, chat) == Text(OllamaErrorPrefix + Walk(outcome.body, ReplyPath).detail))
  {
  }

  /** The whole Ollama pipeline for one query: when no record has a URL the answer is
      the advisory and the model is not called; otherwise the model named by the
      wrapper is asked with the context. */
  lemma OllamaPipeline(model: string, query: string, results: seq<Record>, fetch: string -> PageFetch,
                       chat: (string, Json) -> ChatOutcome)
    ensures WithUrl(results) == [] ==> QueryOllama(model, query, OllamaContext(results, fetch), chat) == Text(Advisory)
    ensures WithUrl(results) != [] ==>
      var context := OllamaContext(results, fetch);
      QueryOllama(model, query, context, chat) ==
        match chat(model, Messages(FullPrompt(query, context)))
        case ChatFailed(reason) => Text(OllamaErrorPrefix + reason)
        case ChatResponse(body) =>
          match Walk(body, ReplyPath)
          case Found(v) => if v.JStr? then Text(v.s) else NonText(v)
          case Missing(detail) => Text(OllamaErrorPrefix + detail)
          case WrongType(detail) => Text(OllamaErrorPrefix + detail)
  {
    OllamaContextBlank(results, fetch);
  }
}
