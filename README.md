# Quote Finder: a verified model of its client logic

Quote Finder is a single-page React application. The user uploads a book or
document (plain text or PDF) and describes a scene in their own words. A
language model first proposes candidate sections of the document. The user
picks one, and the model returns the quote from it with its chapter, page and
paragraph. This project models the client-side logic around those two calls
in Dafny and proves what it does:

- `App` (`app.dfy`) is the page's session: a class `QuoteFinder` whose fields
  are the page's state (file, file name, content, version, description, step,
  suggested sections, selected section, loading flag, error, found quote).
  - It has one method per handler: file change, find sections, select
    section, reset, and the two input setters.
  - A `Valid()` invariant holds between handlers, and every handler keeps it.
  - The PDF text assembly is a `while` loop proved against a recursive
    specification. The model proves that each page's block starts with its
    own marker, and that these markers come in ascending page order. It
    proves exactly one marker per page only when no page's own text
    contains a '['.
  - Each asynchronous service call or file read is an input to the handler
    that awaits it, so every handler is one sequential step.
- `GeminiService` (`gemini_service.dfy`) covers the prompts for the two model
  calls, the trimming of the reply, the classification of the parsed reply,
  and the collapse of every failure into one fixed message.
  - The model call is a parameter `api: Request -> Reply`.
  - `JSON.parse` is a parameter `parse: string -> Result<Json>`, where `Json`
    is an abstract parsed value.
- `SectionSelector` (`section_selector.dfy`) builds the list of section
  buttons and their "Est. Location" lines.
- `QuoteDisplay` (`quote_display.dfy`) decides whether the result panel
  renders, and what its context line and location cells show.
- `JsValues` (`js_values.dfy`) models the JavaScript semantics these rest on:
  truthiness, `&&` and `||` returning one of their operands, `String(v)`, and
  the text React renders for a child value.
- `JsString` (`js_string.dfy`) models `String.prototype.trim` (ECMAScript
  whitespace), `Array.prototype.join`, and the decimal text of integers.
- `Wrappers` (`wrappers.dfy`) holds `Option` and `Result`. The `Err` of a
  `Result` carries the message of the `Error` the source throws.

Where the documented behaviour of the application differs from its code, the
model follows the code:

- When no sections are found, the step stays where it was, rather than being
  set back to `upload`. The difference cannot be seen, because the search
  button exists only on the upload screen.
- Nothing caps the number of sections at five. "Up to 5" appears only in the
  prompt.
- A reply whose `quote` is the empty string is returned as an object, not as
  `null`. The page then treats it as "no match".
- When the quote call fails (for example because the reply is not JSON), the
  page still moves to the result screen, with the error shown.
- The PDF text does not have exactly one page marker per page in every case.
  A page whose own text reads "[Page 2]" adds a second marker-like line,
  because the code does not escape page text.

## Model

| member | source | states |
|---|---|---|
| JsString.Trim | services/geminiService.ts:76 | the trimmed text is empty exactly when the input is all whitespace, and otherwise neither starts nor ends with whitespace |
| JsString.TrimIgnoresPadding | services/geminiService.ts:144 | whitespace added around a text does not change its trim |
| JsString.NatToStringRoundTrip | App.tsx:80 | the page number written into a marker reads back as that number |
| JsString.IntToString | components/SectionSelector.tsx:34 | a number's text starts with '-' exactly when the number is negative; the digits that follow, with no leading zero, read back as the number's magnitude |
| JsValues.And | components/SectionSelector.tsx:29-34 | `a && b` yields `b` when `a` is truthy and `a` itself when `a` is falsy, so it is truthy exactly when both are |
| JsValues.Or | components/QuoteDisplay.tsx:44-52 | JavaScript's logical or of `a` and `b` yields `a` itself when `a` is truthy and `b` otherwise, so it is truthy exactly when either is |
| JsValues.FalsyChildText | components/QuoteDisplay.tsx:38 | a falsy value placed as a React child renders nothing, except the number 0, which renders "0" |
| GeminiService.VersionText | services/geminiService.ts:40 | the version text is the version as typed when it is non-empty, else "Not specified"; it is never empty |
| GeminiService.SectionsPromptContents | services/geminiService.ts:37-40 | the sections prompt contains the quoted description line and the "up to 5" request, and ends with the version line |
| GeminiService.QuotePromptContents | services/geminiService.ts:105-107 | the quote prompt contains the quoted description, the quoted section summary, and the section's chapter and page |
| GeminiService.ClassifySections | services/geminiService.ts:79-83 | a parsed reply is accepted exactly when it is an array, which is returned unchanged; otherwise the "invalid format" error |
| GeminiService.FindSections | services/geminiService.ts:76-88 | succeeds exactly when the call answers with text whose trim parses to an array, and returns that array unchanged; every failure becomes the one "while identifying sections" message |
| GeminiService.NonArrayCollapses | services/geminiService.ts:79-88 | a parsed reply that is not an array raises the "invalid format" error inside the call, which reaches the caller as the one collapsed message |
| GeminiService.SectionsAttemptTrimsReply | services/geminiService.ts:76-77 | whitespace around the reply text does not change the outcome of the sections call |
| GeminiService.ClassifyQuote | services/geminiService.ts:147-151 | a parsed reply is returned exactly when it is an object whose `quote` is a string, the empty string included, with its quote and location as they are; otherwise `null` |
| GeminiService.FindQuoteInSection | services/geminiService.ts:144-156 | succeeds exactly when the call answers with text whose trim parses, and then gives the classified reply; every failure becomes "Failed to get response from AI model." |
| GeminiService.QuoteAttemptTrimsReply | services/geminiService.ts:144-145 | whitespace around the reply text does not change the outcome of the quote call |
| SectionSelector.LocationLabel | components/SectionSelector.tsx:29-34 | the location line is shown exactly when the chapter or the page is truthy. It is "Est. Location:" followed by " Chapter c" when the chapter is truthy, ", " when both are, and " Page p" when the page is |
| SectionSelector.Buttons | components/SectionSelector.tsx:21-35 | one button per section, in order; button i shows section i's summary and location line, hands exactly section i to `onSelect`, and is disabled exactly while loading |
| SectionSelector.LocationSlotAsWrittenAgrees | components/SectionSelector.tsx:29-34 | the line as written renders what `LocationLabel` describes exactly when the page is not 0 |
| SectionSelector.ZeroPageShowsStrayZeros | components/SectionSelector.tsx:29-34 | as written, chapter "5" with page 0 shows "Chapter 500" where "Chapter 5" is meant, and page 0 with a missing or empty chapter shows a bare "0" where no line is meant |
| QuoteDisplay.Cells | components/QuoteDisplay.tsx:44-52 | each location cell shows its part when that part is truthy and "N/A" otherwise; no cell is blank |
| QuoteDisplay.HasLocationParts | components/QuoteDisplay.tsx:16 | `hasLocation` holds exactly when a location is present and one of its chapter, page or paragraph is truthy |
| QuoteDisplay.Render | components/QuoteDisplay.tsx:12-56 | nothing renders without a non-empty quote. Otherwise the quote is shown verbatim, the context line exactly when the context is non-empty, and the location block exactly when `hasLocation` holds, with the cells of that location |
| QuoteDisplay.LocationSlotAsWrittenAgrees | components/QuoteDisplay.tsx:16-38 | the location slot as written shows what is intended except when chapter and page are falsy and the paragraph is 0 |
| QuoteDisplay.ZeroParagraphShowsStrayZero | components/QuoteDisplay.tsx:16-38 | as written, a location with null chapter and page and paragraph 0 renders "0" where nothing is meant |
| App.ExtractPdfText | App.tsx:74-81 | the loop builds exactly the document text `PdfText` of the pages: page i's marker "[Page i]", its items joined by spaces, and a blank line, for i = 1..n |
| App.PdfTextPrefix | App.tsx:74-81 | the text of the first k pages is a prefix of the whole document text |
| App.PdfTextStep | App.tsx:80 | each page appends exactly its own block to the text of the pages before it |
| App.PdfPageAt | App.tsx:74-81 | page k's block, marker first, sits at page k's offset, and the offsets strictly increase with the page number |
| App.PdfMarkerCount | App.tsx:79-80 | when no item text holds '[', the document text holds exactly one '[' per page |
| App.TwoPageDocument | App.tsx:74-81 | a two-page PDF reading "Alpha" and "Beta" gives "[Page 1]\nAlpha\n\n[Page 2]\nBeta\n\n" |
| App.ExtractText | App.tsx:42-109 | a file is read as a PDF exactly when its type is "application/pdf", else as text; each read failure rejects with its own message |
| App.LoadedDocument | App.tsx:41-50 | a file loads exactly when its text was extracted and is not blank, and then loads unchanged; blank text gives the "empty" error; an extraction error keeps its message |
| App.PlainTextLoadsUnchanged | App.tsx:93-101 | a plain-text file's text loads as read |
| App.QuoteFinder.constructor | App.tsx:19-31 | a fresh page is on the upload step with every field cleared |
| App.QuoteFinder.HandleReset | App.tsx:166-178 | after reset the step is upload, strings are empty, lists are empty, selection, quote and error are cleared and nothing is loading |
| App.QuoteFinder.SetBookVersion | App.tsx:206 | the version field takes the typed value and nothing else changes |
| App.QuoteFinder.SetQuoteDescription | App.tsx:221 | the description field takes the typed value and nothing else changes |
| App.QuoteFinder.HandleFileChange | App.tsx:33-62 | without a file nothing changes. Otherwise the session is reset, which clears version and description too. Non-blank text becomes the content and the file is kept; otherwise the message is shown and file, name and content are empty |
| App.QuoteFinder.HandleFindSections | App.tsx:111-141 | with no file or no content, only the "upload first" error changes. With a blank description, only the "describe" error changes (checked second). A non-empty result moves to sections with exactly that list; an empty result or a failure leaves the step, clears the list, shows its message and ends not loading |
| App.QuoteFinder.HandleSelectSection | App.tsx:143-164 | always ends on the result step with the chosen section selected. The quote is kept exactly when the reply held a non-empty one; otherwise the "no matching quote" or failure message is shown and no quote is kept |
| App.QuoteFinder.FindEnabled | App.tsx:230 | between handlers, the find button is enabled only when a file is loaded and its content is not blank, so the handler's first check passes |
| App.QuoteFinder.SectionChoices | App.tsx:249-255 | the section list is shown exactly on the sections step, with one button per suggested section in order: button i carries section i's summary and location line, hands exactly section i to the select handler, and is disabled exactly while loading, so between handlers none is |
| App.QuoteFinder.ShownQuote | App.tsx:271-273 | the quote panel appears only on the result step and shows the found quote's text; its context line is the selected section's summary, present exactly when that summary is non-empty; its location block is the found quote's cells, present exactly when some part is given; between handlers it is shown exactly when a quote was found |

## Left out

- The model call itself is not modelled: the HTTP request, its schema, temperature and model name, and the `API_KEY` check at start-up. Its outcome is the input `api`.
- `JSON.parse` is the input `parse`. The model does not say which texts parse.
- The parsed value is the abstraction `Json`. Array elements are taken to be sections without any check, as the client does. A chapter sent as a number is not modelled: a chapter is a string.
- `FileReader` and pdf.js are not modelled. Their outcomes are the inputs `PdfRead` and `TextRead`, so the page count is the length of the page sequence. A failure while reading one page is one of the parse errors, as the source's `catch` makes it.
- App.QuoteFinder.HandleFileChange, App.QuoteFinder.HandleFindSections and App.QuoteFinder.HandleSelectSection each run as one atomic step. The loading state in the middle of a handler is not observable, and neither is a reply that arrives after "Start Over".
- The fallback messages for thrown values that are not `Error`s are left out. Every value thrown on the modelled paths is an `Error`, so they cannot occur.
- Numbers are integers. Floating point, `NaN` and infinities are not modelled.
- Styling, icons, spinner texts and `console.error` logging are not modelled.
- components/FileInput.tsx, components/ErrorMessage.tsx, components/LoadingSpinner.tsx and components/Icons.tsx are not part of this model.

## Findings

| source | as written | input that shows it | evidently intended | confidence | as-written member | corrected member |
|---|---|---|---|---|---|---|
| components/SectionSelector.tsx:33-34 | `{chapter && page && ', '}` and `{page && ...}` yield the number 0 for page 0, and React renders it | chapter "5", page 0: the line reads "Est. Location: Chapter 500" | "Est. Location: Chapter 5" | high; not executed | SectionSelector.ZeroPageShowsStrayZeros | SectionSelector.LocationLabel |
| components/SectionSelector.tsx:29 | the line's guard, chapter or page, then the paragraph element, yields 0 when the chapter is absent and the page is 0 | missing or empty chapter, page 0: the button shows a bare "0" | no location line | high; not executed | SectionSelector.LocationSlotAsWrittenAgrees | SectionSelector.LocationLabel |
| components/QuoteDisplay.tsx:16, 38 | `hasLocation` is the paragraph itself when chapter and page are falsy, and `{hasLocation && …}` renders it | chapter and page null, paragraph 0: the panel shows "0" | no location block | high; not executed | QuoteDisplay.ZeroParagraphShowsStrayZero | QuoteDisplay.Render |
