/** The advisory gateway of services/geminiService.ts. The provider call is an
    input: what `generateContent` returned, or that it threw. Both operations
    absorb every failure into a fixed fallback value. */
module Gateway {
  import opened Types
  import Extractor

  const MissingKey := "API Key is missing"
  const AdviceWhenEmpty := "Connection stable. Monitoring traffic for anomalies."
  const AdviceOnFailure := "Optimizing network routes for maximum throughput..."
  /** The text searched when the provider returns no text (`response.text || "[]"`). */
  const EmptyListText := "[]"

  /** The process environment: the value of `API_KEY`, when it is set. */
  datatype Env = Env(apiKey: Option<string>)

  datatype Client = Client(apiKey: string)

  /** The outcome of one provider call: a response (its text, and the grounding
      chunks of its first candidate, each possibly absent), or a thrown error. */
  datatype ProviderCall<Chunk> =
    | Responded(text: Option<string>, groundingChunks: Option<seq<Chunk>>)
    | Threw(message: string)

  /** `getAIClient()`: throws when the key is unset or empty (both falsy). */
  function GetAIClient(env: Env): (r: Result<Client>)
    ensures r.Ok? <==> env.apiKey.Some? && env.apiKey.value != ""
    ensures r.Ok? ==> r.value.apiKey == env.apiKey.value
    ensures r.Err? ==> r.message == MissingKey
  {
    if env.apiKey.None? || env.apiKey.value == "" then Err(MissingKey) else Ok(Client(env.apiKey.value))
  }

  /** `text || fallback` for an optional text. */
  function TextOr(text: Option<string>, fallback: string): string {
    if text.Some? && text.value != "" then text.value else fallback
  }

  /** `getProxyAdvice(location, ip)`. The location and IP only shape the
      prompt, which belongs to the provider call. */
  function GetProxyAdvice<Chunk>(env: Env, call: ProviderCall<Chunk>): (advice: string)
    ensures advice != ""
    ensures advice == AdviceOnFailure || advice == AdviceWhenEmpty || (call.Responded? && call.text == Some(advice))
  {
    if GetAIClient(env).Err? then AdviceOnFailure
    else match call
      case Threw(_) => AdviceOnFailure
      case Responded(text, _) => TextOr(text, AdviceWhenEmpty)
  }

  /** `getProxyAdvice` never fails and never yields an empty text: it returns
      non-empty provider text verbatim, the canned text when the provider
      returned none, and the fallback on any failure, a missing key included. */
  lemma ProxyAdviceOutcomes<Chunk>(env: Env, call: ProviderCall<Chunk>)
    ensures GetProxyAdvice(env, call) != ""
    ensures GetAIClient(env).Err? || call.Threw? ==> GetProxyAdvice(env, call) == AdviceOnFailure
    ensures GetAIClient(env).Ok? && call.Responded? ==>
              if call.text.Some? && call.text.value != ""
              then GetProxyAdvice(env, call) == call.text.value
              else GetProxyAdvice(env, call) == AdviceWhenEmpty
  {
  }

  datatype SearchResult<Chunk> = SearchResult(results: Json, sources: seq<Chunk>)

  /** `{ results: [], sources: [] }`. */
  function EmptySearch<Chunk>(): SearchResult<Chunk> {
    SearchResult(JArray([]), [])
  }

  /** `searchVideos(query)`. The query only shapes the prompt. */
  function SearchVideos<Chunk>(env: Env, call: ProviderCall<Chunk>, parse: string -> Option<Json>): (r: SearchResult<Chunk>)
    ensures r != EmptySearch() ==> GetAIClient(env).Ok? && call.Responded?
    ensures r.sources != [] ==> call.Responded? && call.groundingChunks == Some(r.sources)
  {
    if GetAIClient(env).Err? then EmptySearch()
    else match call
      case Threw(_) => EmptySearch()
      case Responded(text, chunks) =>
        match Extractor.ExtractJSON(TextOr(text, EmptyListText), parse)
        case Err(_) => EmptySearch()
        case Ok(results) => SearchResult(results, chunks.GetOr([]))
  }

  /** `searchVideos` never fails. A missing key, a thrown provider call or an
      extraction failure give `{results: [], sources: []}`; otherwise the
      results are exactly what was extracted from the text (an absent or empty
      text is read as "[]"), with no filtering of the items, so they are what
      the parser made of the text or of a piece of it; the sources are the
      grounding chunks, or none when they are absent. */
  lemma SearchVideosOutcomes<Chunk>(env: Env, call: ProviderCall<Chunk>, parse: string -> Option<Json>)
    ensures GetAIClient(env).Err? || call.Threw? ==> SearchVideos(env, call, parse) == EmptySearch()
    ensures GetAIClient(env).Ok? && call.Responded? ==>
              var extracted := Extractor.ExtractJSON(TextOr(call.text, EmptyListText), parse);
              && (extracted.Err? ==> SearchVideos(env, call, parse) == EmptySearch())
              && (extracted.Ok? ==> SearchVideos(env, call, parse)
                                      == SearchResult(extracted.value, call.groundingChunks.GetOr([])))
    ensures GetAIClient(env).Ok? && call.Responded? && SearchVideos(env, call, parse) != EmptySearch() ==>
              exists c | Extractor.IsSliceOf(c, TextOr(call.text, EmptyListText)) ::
                parse(c) == Some(SearchVideos(env, call, parse).results)
  {
    if GetAIClient(env).Ok? && call.Responded? {
      Extractor.ExtractedFromSlice(TextOr(call.text, EmptyListText), parse);
    }
  }

  /** When the provider answers with no text and `JSON.parse("[]")` is the
      empty array, the search yields no results. */
  lemma EmptyReplySearchesEmptyList<Chunk>(env: Env, chunks: Option<seq<Chunk>>, parse: string -> Option<Json>)
    requires GetAIClient(env).Ok?
    requires parse(EmptyListText) == Some(JArray([]))
    ensures SearchVideos(env, Responded(None, chunks), parse).results == JArray([])
    ensures SearchVideos(env, Responded(Some(""), chunks), parse).results == JArray([])
  {
    Extractor.ExtractJSONTakesFirstSuccess(EmptyListText, parse);
  }
}
