/** The two calls the client makes to the language model: finding candidate
    sections of a document, then the quote inside one of them. Each call is a
    prompt built from the user's input, a request whose outcome is an input
    (`api`), a trim of the reply text, a parse whose outcome is an input
    (`parse`, standing for `JSON.parse`), and a client-side classification of
    the parsed value. Every failure of a call reaches the caller as one fixed
    message. */
module GeminiService {
  import opened Wrappers
  import opened JsString
  import opened JsValues

  /** An estimated position in the document; each part may be missing. */
  datatype Location = Location(chapter: Field<string>, page: Field<int>, paragraph: Field<int>)

  /** A candidate region of the document: a one-sentence summary and where it is. */
  datatype Section = Section(summary: string, location: Location)

  /** The passage found, and where it is; `location` may be missing from the reply. */
  datatype Quote = Quote(quote: string, location: Field<Location>)

  /** What `JSON.parse` yields, as far as the client can tell it apart. The
      elements of an array are taken to be sections without any check, as the
      client does; an object is seen through the two properties the client
      reads, with `quote` present only when it is a string. */
  datatype Json =
    | JFalsy                                                // null, false, 0 or ""
    | JTruthyScalar                                         // true, a non-zero number, a non-empty string
    | JArray(elements: seq<Section>)
    | JObject(quote: Option<string>, location: Field<Location>)

  /** One request to the model: the system instruction, the user prompt and
      the full document text as a second content part. */
  datatype Request = Request(systemInstruction: string, prompt: string, document: string)

  /** The outcome of a request: the call failed with a message, the reply has
      no text, or the reply text. */
  datatype Reply = CallFailed(message: string) | NoText | Answered(text: string)

  const SectionsSystemInstruction := "You are an AI literary assistant. Your job is to analyze a document and identify sections relevant to a user's description. You must return your findings as a JSON array of objects. Each object must contain a 'summary' (a concise, one-sentence summary) and a 'location' object. The 'location' object should contain estimated 'chapter' (string or number) and 'page' (number) for where the section is. The document may contain page markers like '[Page X]'. Use these markers to determine page numbers."

  const QuoteSystemInstruction := "You are an AI literary assistant. Your task is to find the single most relevant quote from a document based on a user's description and a specific section summary. The user's description may be a paraphrase or a general idea, not an exact match. Your goal is to interpret their intent and extract the passage that best captures the essence of their description.\n\nRULES:\n1. You MUST return a single JSON object with two properties: 'quote' and 'location'.\n2. The 'quote' property should contain the full, continuous text of the passage.\n3. The 'location' property must be an object containing the PRECISE 'chapter' (string), 'page' (number), and 'paragraph' (number) where the quote is found. The document may have markers like '[Page X]' to help you.\n4. If no relevant quote can be found, return a JSON object with an empty string for the 'quote' property and null values for all location properties."

  const NotSpecified := "Not specified"
  const InvalidSectionsFormat := "AI returned an invalid format for sections."
  const SectionsFailure := "Failed to get response from AI model while identifying sections."
  const QuoteFailure := "Failed to get response from AI model."
  /** What reading `.trim()` of a missing reply text throws. */
  const TextMissing := "Cannot read properties of undefined (reading 'trim')"

  // ---------------------------------------------------------------- prompts

  /** `bookVersion || 'Not specified'`: the version as typed (even if it is
      only spaces), or the fallback when it is empty. */
  function VersionText(bookVersion: string): (r: string)
    ensures r != ""
    ensures bookVersion != "" ==> r == bookVersion
    ensures bookVersion == "" ==> r == NotSpecified
  {
    ToText(Or(Str(bookVersion), Str(NotSpecified)))
  }

  const SectionsAsk := "I have provided a document. Based on my description below, please identify "
  const UpToFive := "up to 5"
  const SectionsAskRest := " different sections where the described events might be taking place.\n\n"
  const QuoteAsk := "I am looking for a quote. My description of it is: "
  const QuoteSectionIntro := ".\n\nYou have already identified a relevant section of the text, summarized as: "
  const QuoteLocationIntro := ", located around "
  const QuoteClosing := ".\n\nPlease analyze the full document text, using this section as a strong hint for where to look. Find the single, most relevant quote that matches my description. Remember, my description is an interpretation.\nReturn a JSON object with the quote and its precise location."

  /** `"${s}"`: a value between double quotes. */
  function Quoted(s: string): string
  {
    "\"" + s + "\""
  }

  /** The line of the section-search prompt that carries the description. */
  function DescriptionLine(description: string): string
  {
    "Description: " + Quoted(description)
  }

  /** The line of the section-search prompt that carries the version. */
  function VersionLine(bookVersion: string): string
  {
    "Book/File Version: " + VersionText(bookVersion)
  }

  /** The user prompt of the section search. */
  function SectionsPrompt(description: string, bookVersion: string): string
  {
    SectionsAsk + UpToFive + SectionsAskRest + DescriptionLine(description) + "\n" + VersionLine(bookVersion)
  }

  /** The section-search prompt quotes the description, asks for at most five
      sections, and ends with the version or 'Not specified'. */
  lemma SectionsPromptContents(description: string, bookVersion: string)
    ensures Occurs(DescriptionLine(description), SectionsPrompt(description, bookVersion))
    ensures Occurs(UpToFive, SectionsPrompt(description, bookVersion))
    ensures EndsWith(SectionsPrompt(description, bookVersion), VersionLine(bookVersion))
  {
    var ask := SectionsAsk + UpToFive + SectionsAskRest;
    var line := DescriptionLine(description);
    var version := VersionLine(bookVersion);
    OccursAfter(ask, line);
    OccursExtended(line, ask + line, |ask|, "\n");
    OccursExtended(line, ask + line + "\n", |ask|, version);
    OccursAfter(SectionsAsk, UpToFive);
    OccursExtended(UpToFive, SectionsAsk + UpToFive, |SectionsAsk|, SectionsAskRest);
    OccursExtended(UpToFive, ask, |SectionsAsk|, line);
    OccursExtended(UpToFive, ask + line, |SectionsAsk|, "\n");
    OccursExtended(UpToFive, ask + line + "\n", |SectionsAsk|, version);
    EndsWithAppended(ask + line + "\n", version);
  }

  /** The value a template literal gives `section.location.chapter`. */
  function ChapterText(location: Location): string
  {
    ToText(OfString(location.chapter))
  }

  /** The value a template literal gives `section.location.page`. */
  function PageText(location: Location): string
  {
    ToText(OfNumber(location.page))
  }

  /** `chapter ${chapter}, page ${page}`: where the chosen section is. */
  function LocationHint(location: Location): string
  {
    "chapter " + ChapterText(location) + ", page " + PageText(location)
  }

  /** The user prompt of the quote search, anchored on the chosen section. */
  function QuotePrompt(description: string, section: Section): string
  {
    QuoteAsk + Quoted(description) + QuoteSectionIntro + Quoted(section.summary)
    + QuoteLocationIntro + LocationHint(section.location) + QuoteClosing
  }

  /** The quote prompt quotes the description and the section summary, and
      names the section's chapter and page as the template renders them
      ("undefined" or "null" when a part is missing). */
  lemma QuotePromptContents(description: string, section: Section)
    ensures Occurs(Quoted(description), QuotePrompt(description, section))
    ensures Occurs(Quoted(section.summary), QuotePrompt(description, section))
    ensures Occurs(LocationHint(section.location), QuotePrompt(description, section))
  {
    var d := Quoted(description);
    var s := Quoted(section.summary);
    var l := LocationHint(section.location);
    var p1 := QuoteAsk + d;
    var p2 := p1 + QuoteSectionIntro;
    var p3 := p2 + s;
    var p4 := p3 + QuoteLocationIntro;
    var p5 := p4 + l;
    OccursAfter(QuoteAsk, d);
    OccursExtended(d, p1, |QuoteAsk|, QuoteSectionIntro);
    OccursExtended(d, p2, |QuoteAsk|, s);
    OccursExtended(d, p3, |QuoteAsk|, QuoteLocationIntro);
    OccursExtended(d, p4, |QuoteAsk|, l);
    OccursExtended(d, p5, |QuoteAsk|, QuoteClosing);
    OccursAfter(p2, s);
    OccursExtended(s, p3, |p2|, QuoteLocationIntro);
    OccursExtended(s, p4, |p2|, l);
    OccursExtended(s, p5, |p2|, QuoteClosing);
    OccursAfter(p4, l);
    OccursExtended(l, p5, |p4|, QuoteClosing);
  }

  /** The request of the section search: instruction, prompt, whole document. */
  function SectionsRequest(fileContent: string, bookVersion: string, description: string): Request
  {
    Request(SectionsSystemInstruction, SectionsPrompt(description, bookVersion), fileContent)
  }

  /** The request of the quote search: instruction, prompt, whole document. */
  function QuoteRequest(fileContent: string, section: Section, description: string): Request
  {
    Request(QuoteSystemInstruction, QuotePrompt(description, section), fileContent)
  }

  // --------------------------------------------------------- classification

  /** `Array.isArray(sections)`: an array is returned as it is, anything else
      is thrown as an invalid format. */
  function ClassifySections(parsed: Json): (r: Result<seq<Section>>)
    ensures r.Ok? <==> parsed.JArray?
    ensures r.Ok? ==> r.value == parsed.elements
    ensures r.Err? ==> r.error == InvalidSectionsFormat
  {
    match parsed
    case JArray(elements) => Ok(elements)
    case _ => Err(InvalidSectionsFormat)
  }

  /** The body of the `try` in `findSections`: call, trim, parse, classify;
      each step may throw. */
  function SectionsAttempt(reply: Reply, parse: string -> Result<Json>): Result<seq<Section>>
  {
    match reply
    case CallFailed(message) => Err(message)
    case NoText => Err(TextMissing)
    case Answered(text) =>
      match parse(Trim(text))
      case Err(message) => Err(message)
      case Ok(parsed) => ClassifySections(parsed)
  }

  /** `findSections`. It succeeds exactly when the reply has text whose
      trimmed form parses to an array, and then returns that array unchanged:
      no cap at five and no check of the elements. Every failure, the
      invalid-format one included, becomes the one fixed message. */
  function FindSections(fileContent: string, bookVersion: string, description: string,
                        api: Request -> Reply, parse: string -> Result<Json>): (r: Result<seq<Section>>)
    ensures var reply := api(SectionsRequest(fileContent, bookVersion, description));
            r.Ok? <==> reply.Answered? && parse(Trim(reply.text)).Ok? && parse(Trim(reply.text)).value.JArray?
    ensures var reply := api(SectionsRequest(fileContent, bookVersion, description));
            r.Ok? ==> r.value == parse(Trim(reply.text)).value.elements
    ensures r.Err? ==> r.error == SectionsFailure
  {
    match SectionsAttempt(api(SectionsRequest(fileContent, bookVersion, description)), parse)
    case Ok(sections) => Ok(sections)
    case Err(_) => Err(SectionsFailure)
  }

  /** `result && typeof result.quote === 'string'`: a truthy value whose
      `quote` is a string (the empty string included) is the quote; anything
      else is `null`. */
  function ClassifyQuote(parsed: Json): (r: Option<Quote>)
    ensures r.Some? <==> parsed.JObject? && parsed.quote.Some?
    ensures r.Some? ==> r.value.quote == parsed.quote.value && r.value.location == parsed.location
  {
    if parsed.JFalsy? then None
    else match parsed
      case JObject(Some(quote), location) => Some(Quote(quote, location))
      case _ => None
  }

  /** The body of the `try` in `findQuoteInSection`. */
  function QuoteAttempt(reply: Reply, parse: string -> Result<Json>): Result<Option<Quote>>
  {
    match reply
    case CallFailed(message) => Err(message)
    case NoText => Err(TextMissing)
    case Answered(text) =>
      match parse(Trim(text))
      case Err(message) => Err(message)
      case Ok(parsed) => Ok(ClassifyQuote(parsed))
  }

  /** `findQuoteInSection`. It succeeds exactly when the reply has text whose
      trimmed form parses, and then yields the classified value (possibly
      `null`); every failure becomes the one fixed message. */
  function FindQuoteInSection(fileContent: string, section: Section, description: string,
                              api: Request -> Reply, parse: string -> Result<Json>): (r: Result<Option<Quote>>)
    ensures var reply := api(QuoteRequest(fileContent, section, description));
            r.Ok? <==> reply.Answered? && parse(Trim(reply.text)).Ok?
    ensures var reply := api(QuoteRequest(fileContent, section, description));
            r.Ok? ==> r.value == ClassifyQuote(parse(Trim(reply.text)).value)
    ensures r.Err? ==> r.error == QuoteFailure
  {
    match QuoteAttempt(api(QuoteRequest(fileContent, section, description)), parse)
    case Ok(result) => Ok(result)
    case Err(_) => Err(QuoteFailure)
  }

  /** Whitespace around the text of a section-search reply does not change
      the outcome: the text is trimmed before it is parsed. */
  lemma SectionsAttemptTrimsReply(text: string, parse: string -> Result<Json>, pre: string, post: string)
    requires IsBlank(pre) && IsBlank(post)
    ensures SectionsAttempt(Answered(pre + text + post), parse) == SectionsAttempt(Answered(text), parse)
  {
    TrimIgnoresPadding(pre, text, post);
  }

  /** Whitespace around the text of a quote-search reply does not change the
      outcome. */
  lemma QuoteAttemptTrimsReply(text: string, parse: string -> Result<Json>, pre: string, post: string)
    requires IsBlank(pre) && IsBlank(post)
    ensures QuoteAttempt(Answered(pre + text + post), parse) == QuoteAttempt(Answered(text), parse)
  {
    TrimIgnoresPadding(pre, text, post);
  }

  /** The invalid-format error is only ever seen inside `findSections`: a
      reply that parses to something other than an array reaches the caller
      as the fixed message. */
  lemma NonArrayCollapses(fileContent: string, bookVersion: string, description: string,
                          api: Request -> Reply, parse: string -> Result<Json>)
    requires api(SectionsRequest(fileContent, bookVersion, description)).Answered?
    requires var parsed := parse(Trim(api(SectionsRequest(fileContent, bookVersion, description)).text));
             parsed.Ok? && !parsed.value.JArray?
    ensures SectionsAttempt(api(SectionsRequest(fileContent, bookVersion, description)), parse) == Err(InvalidSectionsFormat)
    ensures FindSections(fileContent, bookVersion, description, api, parse) == Err(SectionsFailure)
  {
  }
}
