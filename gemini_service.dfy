/**
 * The analysis client: one call to the remote text-generation service, a
 * single retry on a transient transport failure, and the category stamp.
 *
 * The service is an oracle: the caller supplies the response the primary
 * call would get and the one the retry would get (used only if a retry is
 * made). `JSON.parse` is a partial function supplied the same way.
 */
module GeminiService {
  import opened Types
  import JsText

  /** The response schema's top-level constraints: the required fields and the field order. */
  datatype Schema = Schema(required: seq<string>, propertyOrdering: seq<string>)

  /** The schema every request carries. */
  const AnalysisSchema: Schema := Schema(
    ["word", "category", "greeting", "pronunciation", "definition", "etymology",
     "wordFamily", "nookLibrary", "twinFlowers", "oppositeStones", "soundEffect", "example"],
    ["word", "category", "greeting", "pronunciation", "definition", "etymology",
     "wordFamily", "nookLibrary", "twinFlowers", "oppositeStones", "soundEffect", "example",
     "trickyPairs", "quiz", "vocabUpgrades", "grammar"])

  /** The top-level fields of the analysis record type, each with whether it is optional. */
  const AnalysisFields: seq<(string, bool)> := [
    ("word", false), ("category", false), ("greeting", false), ("pronunciation", false),
    ("definition", false), ("etymology", false), ("wordFamily", false), ("nookLibrary", false),
    ("twinFlowers", false), ("oppositeStones", false), ("soundEffect", false), ("example", false),
    ("trickyPairs", true), ("quiz", true), ("vocabUpgrades", true), ("grammar", true)]

  /** The schema requires exactly the record type's mandatory fields, twelve of them. */
  lemma SchemaRequiresMandatory()
    ensures |AnalysisSchema.required| == 12
    ensures forall f :: f in AnalysisSchema.required <==> (f, false) in AnalysisFields
  {
  }

  /**
   * The schema's field order lists the mandatory fields first, in the same
   * order, then the record's four optional fields.
   */
  lemma SchemaOrdersAllFields()
    ensures |AnalysisSchema.propertyOrdering| == |AnalysisFields|
    ensures forall i :: 0 <= i < |AnalysisFields| ==> AnalysisSchema.propertyOrdering[i] == AnalysisFields[i].0
    ensures AnalysisSchema.propertyOrdering[..12] == AnalysisSchema.required
    ensures AnalysisSchema.propertyOrdering[12..] == ["trickyPairs", "quiz", "vocabUpgrades", "grammar"]
  {
  }

  /** The instruction text, kept abstract: it embeds the term, the category name and the language. */
  datatype Prompt = Prompt(term: string, category: string, language: Language)

  /** One request to the service: model, optional thinking budget, MIME type, schema and prompt. */
  datatype Request = Request(model: string, thinkingBudget: Option<nat>, mimeType: string,
                             schema: Schema, prompt: Prompt)

  function PromptFor(word: string, language: Language, category: Category): Prompt
  {
    Prompt(word, CategoryName(category), language)
  }

  /** The first call: the larger model with a thinking budget of 2000 tokens. */
  function PrimaryRequest(word: string, language: Language, category: Category): Request
  {
    Request("gemini-3-pro-preview", Some(2000), "application/json", AnalysisSchema,
            PromptFor(word, language, category))
  }

  /** The retry: the lighter model, no thinking configuration, same schema and prompt. */
  function RetryRequest(word: string, language: Language, category: Category): Request
  {
    Request("gemini-3-flash-preview", None, "application/json", AnalysisSchema,
            PromptFor(word, language, category))
  }

  /** A thrown value: an `Error` instance with its message, or anything else. */
  datatype Thrown = ErrorObject(message: string) | OtherValue

  /** What one service call yields: a response with a `text` field (possibly empty), one without, or an exception. */
  datatype Response = Text(text: string) | NoText | Throws(thrown: Thrown)

  /** `JSON.parse`: a payload, or a `SyntaxError` (an `Error`) with its message. */
  datatype ParseResult = Parsed(value: WordAnalysis) | SyntaxError(message: string)

  /** How an analysis call ends: it returns a payload or it throws. */
  datatype Outcome = Returned(analysis: WordAnalysis) | Raised(thrown: Thrown)

  /** The error the primary path throws when the response has no text. */
  const NoResponse: Thrown := ErrorObject("No response")

  /** The message fragment that marks a transient transport failure. */
  const RetrySignature: string := "xhr error"

  /** `response.text` is truthy: present and not the empty string. */
  predicate HasText(r: Response)
  {
    r.Text? && r.text != ""
  }

  /** The caught value earns a retry: it is an `Error` whose message contains the signature. */
  predicate Retryable(e: Thrown)
  {
    e.ErrorObject? && JsText.Includes(e.message, RetrySignature)
  }

  /** The value the catch block receives when the primary path does not return. */
  function Caught(primary: Response, parse: string -> ParseResult): Thrown
  {
    if primary.Throws? then primary.thrown
    else if !HasText(primary) then NoResponse
    else if parse(primary.text).SyntaxError? then ErrorObject(parse(primary.text).message)
    else OtherValue
  }

  /** The primary path returns: the first response has text and it parses. */
  predicate PrimarySucceeds(primary: Response, parse: string -> ParseResult)
  {
    HasText(primary) && parse(primary.text).Parsed?
  }

  /** The "No response" error is never retried: its message does not contain the signature. */
  lemma NoResponseNotRetryable()
    ensures !Retryable(NoResponse)
  {
    var s, t := NoResponse.message, RetrySignature;
    forall i | 0 <= i && i + |t| <= |s| ensures !JsText.OccursAt(s, t, i) {
      assert s[i..i + |t|][0] == s[i] != t[0];
    }
  }

  /**
   * The analysis call. At most two service calls are made, the second only
   * when the caught value is an `Error` whose message contains
   * "xhr error". A payload returned by the first call carries the requested
   * category; one returned by the retry is passed through as parsed. When
   * the retry has no text the first error is rethrown; when the retry
   * throws, or its text does not parse, that second error propagates.
   */
  method AnalyzeWord(word: string, language: Language, category: Category,
                     primary: Response, retry: Response, parse: string -> ParseResult)
    returns (outcome: Outcome, calls: seq<Request>)
    ensures 1 <= |calls| <= 2
    ensures calls[0] == PrimaryRequest(word, language, category)
    ensures |calls| == 2 ==> calls[1] == RetryRequest(word, language, category)
    ensures PrimarySucceeds(primary, parse) ==>
      |calls| == 1 && outcome.Returned? && outcome.analysis.word == parse(primary.text).value.word
    ensures outcome.Returned? && |calls| == 1 ==> outcome.analysis.category == CategoryName(category)
    ensures !PrimarySucceeds(primary, parse) ==>
      (|calls| == 2 <==> Retryable(Caught(primary, parse)))
    ensures !PrimarySucceeds(primary, parse) && |calls| == 1 ==>
      outcome == Raised(Caught(primary, parse))
    ensures !primary.Throws? && !HasText(primary) ==> |calls| == 1 && outcome == Raised(NoResponse)
    ensures |calls| == 2 ==>
      match retry
      case Throws(t) => outcome == Raised(t)
      case _ =>
        if !HasText(retry) then outcome == Raised(Caught(primary, parse))
        else match parse(retry.text)
          case Parsed(d) => outcome == Returned(d)
          case SyntaxError(m) => outcome == Raised(ErrorObject(m))
  {
    calls := [PrimaryRequest(word, language, category)];
    var caught: Thrown;
    if primary.Throws? {
      caught := primary.thrown;
    } else if HasText(primary) {
      match parse(primary.text)
      case Parsed(data) =>
        var stamped := data.(category := CategoryName(category));
        return Returned(stamped), calls;
      case SyntaxError(m) =>
        caught := ErrorObject(m);
    } else {
      caught := NoResponse;
      NoResponseNotRetryable();
    }
    if Retryable(caught) {
      calls := calls + [RetryRequest(word, language, category)];
      if retry.Throws? {
        return Raised(retry.thrown), calls;
      } else if HasText(retry) {
        match parse(retry.text)
        case Parsed(data) =>
          return Returned(data), calls;
        case SyntaxError(m) =>
          return Raised(ErrorObject(m)), calls;
      }
    }
    outcome := Raised(caught);
  }
}
