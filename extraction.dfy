/** The staged language-model extraction: Gemini first, Claude Haiku as the fallback. */
module Extraction {
  import opened Wrappers
  import opened Types
  import Fences
  import Text

  /** What `JSON.parse` gives when it returns and reading `.locations` of the value does not
      throw: the `locations` member, or None when it is missing. A parser is passed in as
      `parse: string -> Option<Doc>`, None standing for every throw. */
  datatype Doc = Doc(locations: Option<seq<Candidate>>)

  const GeminiModel: string := "gemini-2.0-flash"
  const HaikuModel: string := "claude-haiku-4.5"
  const NoModel: string := "none"

  /** The outcome of the Gemini call: no API key configured, a thrown error, or response text. */
  datatype GeminiCall = GeminiNoKey | GeminiError | GeminiText(text: string)

  /** The outcome of the Haiku call: a thrown error (an answer with no content block at all
      throws too, when its first block is inspected), a first content block that is not text,
      or the text of that block. */
  datatype HaikuCall = HaikuError | HaikuNonText | HaikuText(text: string)

  /** The staged result: the locations and the identifier of the model that produced them. */
  datatype LlmExtraction = LlmExtraction(locations: seq<Candidate>, modelUsed: string)

  /** `parsed.locations || []`. */
  function LocationsOrEmpty(d: Doc): (r: seq<Candidate>)
    ensures d.locations.None? ==> r == []
    ensures d.locations.Some? ==> r == d.locations.value
  {
    d.locations.GetOr([])
  }

  /** `parseExtractionResponse`: clean the answer, parse it, and take its locations; it throws
      exactly when parsing the cleaned answer throws. */
  function ParseExtractionResponse(text: string, parse: string -> Option<Doc>): (r: Try<seq<Candidate>>)
    ensures r.Throws? <==> parse(Fences.CleanResponse(text)).None?
    ensures r.Returns? ==> r.value == LocationsOrEmpty(parse(Fences.CleanResponse(text)).value)
  {
    match parse(Fences.CleanResponse(text))
    case None => Throws
    case Some(d) => Returns(LocationsOrEmpty(d))
  }

  /** `extractWithGemini`: null (None) when the key is missing, the call throws, or parsing
      throws; the parsed locations otherwise. */
  function ExtractWithGemini(call: GeminiCall, parse: string -> Option<Doc>): (r: Option<seq<Candidate>>)
    ensures r.None? <==> (call.GeminiNoKey? || call.GeminiError?
                          || (call.GeminiText? && ParseExtractionResponse(call.text, parse).Throws?))
    ensures r.Some? ==> r.value == ParseExtractionResponse(call.text, parse).value
  {
    match call
    case GeminiNoKey => None
    case GeminiError => None
    case GeminiText(t) =>
      match ParseExtractionResponse(t, parse)
      case Throws => None
      case Returns(locs) => Some(locs)
  }

  /** `extractWithHaiku`: a non-text first block gives the empty list; otherwise the parsed
      locations, and it throws when the call or the parse throws. */
  function ExtractWithHaiku(call: HaikuCall, parse: string -> Option<Doc>): (r: Try<seq<Candidate>>)
    ensures call.HaikuNonText? ==> r == Returns([])
    ensures r.Throws? <==> (call.HaikuError? || (call.HaikuText? && ParseExtractionResponse(call.text, parse).Throws?))
    ensures call.HaikuText? ==> r == ParseExtractionResponse(call.text, parse)
  {
    match call
    case HaikuError => Throws
    case HaikuNonText => Returns([])
    case HaikuText(t) => ParseExtractionResponse(t, parse)
  }

  /** `extractLocationsWithLLM`: the first stage that yields a list wins; if both fail the result
      is the empty list from no model. It never throws. */
  function ExtractLocationsWithLlm(gemini: GeminiCall, haiku: HaikuCall, parse: string -> Option<Doc>): (r: LlmExtraction)
    ensures r.modelUsed in {GeminiModel, HaikuModel, NoModel}
    ensures r.modelUsed == NoModel ==> r.locations == []
    ensures r.modelUsed == GeminiModel <==> ExtractWithGemini(gemini, parse).Some?
    ensures r.modelUsed == GeminiModel ==> r.locations == ExtractWithGemini(gemini, parse).value
    ensures r.modelUsed == HaikuModel <==> ExtractWithGemini(gemini, parse).None? && ExtractWithHaiku(haiku, parse).Returns?
    ensures r.modelUsed == HaikuModel ==> r.locations == ExtractWithHaiku(haiku, parse).value
  {
    match ExtractWithGemini(gemini, parse)
    case Some(locs) => LlmExtraction(locs, GeminiModel)
    case None =>
      match ExtractWithHaiku(haiku, parse)
      case Returns(locs) => LlmExtraction(locs, HaikuModel)
      case Throws => LlmExtraction([], NoModel)
  }

  /** A Gemini answer that parses wins, even with no locations, and Haiku is not consulted:
      the result is the same whatever the Haiku call would have done. */
  lemma GeminiAnswerWins(gemini: GeminiCall, haiku1: HaikuCall, haiku2: HaikuCall, parse: string -> Option<Doc>)
    requires gemini.GeminiText? && parse(Fences.CleanResponse(gemini.text)).Some?
    ensures ExtractLocationsWithLlm(gemini, haiku1, parse) == ExtractLocationsWithLlm(gemini, haiku2, parse)
    ensures ExtractLocationsWithLlm(gemini, haiku1, parse)
         == LlmExtraction(LocationsOrEmpty(parse(Fences.CleanResponse(gemini.text)).value), GeminiModel)
  {
  }

  /** Without a Gemini key, or when Gemini throws, Haiku's answer is used. */
  lemma FallbackToHaiku(gemini: GeminiCall, text: string, parse: string -> Option<Doc>)
    requires gemini.GeminiNoKey? || gemini.GeminiError?
    requires parse(Fences.CleanResponse(text)).Some?
    ensures ExtractLocationsWithLlm(gemini, HaikuText(text), parse)
         == LlmExtraction(LocationsOrEmpty(parse(Fences.CleanResponse(text)).value), HaikuModel)
  {
  }

  /** A Haiku content block that is not text gives no locations, still credited to Haiku. */
  lemma HaikuNonTextBlock(gemini: GeminiCall, parse: string -> Option<Doc>)
    requires ExtractWithGemini(gemini, parse).None?
    ensures ExtractLocationsWithLlm(gemini, HaikuNonText, parse) == LlmExtraction([], HaikuModel)
  {
  }

  /** When every stage fails the result is empty and from no model. */
  lemma BothStagesFail(gemini: GeminiCall, haiku: HaikuCall, parse: string -> Option<Doc>)
    requires ExtractWithGemini(gemini, parse).None?
    requires haiku.HaikuError? || (haiku.HaikuText? && parse(Fences.CleanResponse(haiku.text)).None?)
    ensures ExtractLocationsWithLlm(gemini, haiku, parse) == LlmExtraction([], NoModel)
  {
  }

  /** A fenced JSON answer parses exactly as its body would. */
  lemma FencedAnswerParsesAsBody(b: string, parse: string -> Option<Doc>)
    requires Text.IsTrimmed(b) && Fences.TagFree(b) && !Fences.StartsWith(b, Fences.Fence)
    ensures ParseExtractionResponse("```json\n" + b + "\n```", parse) == ParseExtractionResponse(b, parse)
  {
    Fences.UnwrapJsonFence(b);
    Text.TrimTrimmed(b);
  }
}
