/** The workflow of the page: a document is loaded (upload), candidate
    sections are found (sections), one is chosen and its quote fetched
    (result), and "Start Over" clears everything. The session is one object
    whose fields the four handlers update in place; each handler runs as one
    step, receiving the outcome of the service call or file read it awaits. */
module App {
  import opened Wrappers
  import opened JsString
  import opened GeminiService
  import SectionSelector
  import QuoteDisplay

  // ------------------------------------------------------- PDF text assembly

  /** An item of a page's text content: a text item with its string, or a
      marked-content item, which has no `str`. */
  datatype TextItem = TextItem(str: string) | MarkedContent

  /** `'str' in item ? item.str : ''`. */
  function ItemText(item: TextItem): string
  {
    match item
    case TextItem(s) => s
    case MarkedContent => ""
  }

  /** A page's text: the texts of its items joined by single spaces. */
  function PageContent(items: seq<TextItem>): string
  {
    Join(seq(|items|, j requires 0 <= j < |items| => ItemText(items[j])), " ")
  }

  /** The marker line put before page `n` (numbered from 1). */
  function Marker(n: nat): string
  {
    "[Page " + NatToString(n) + "]\n"
  }

  /** The text contributed by page `n`: its marker, its content, a blank line. */
  function PageBlock(n: nat, items: seq<TextItem>): string
  {
    Marker(n) + PageContent(items) + "\n\n"
  }

  /** The document text of a PDF whose pages are `pages`: the blocks of pages
      1, 2, ... in order. */
  function PdfText(pages: seq<seq<TextItem>>): string
  {
    if pages == [] then ""
    else PdfText(pages[..|pages| - 1]) + PageBlock(|pages|, pages[|pages| - 1])
  }

  /** The loop of `extractTextFromPdf` over the pages already read. */
  method ExtractPdfText(pages: seq<seq<TextItem>>) returns (fullText: string)
    ensures fullText == PdfText(pages)
  {
    fullText := "";
    var i := 1;
    while i <= |pages|
      invariant 1 <= i <= |pages| + 1
      invariant fullText == PdfText(pages[..i - 1])
    {
      var pageText := PageContent(pages[i - 1]);
      fullText := fullText + Marker(i) + pageText + "\n\n";
      assert pages[..i][..i - 1] == pages[..i - 1];
      i := i + 1;
    }
    assert pages[..|pages|] == pages;
  }

  /** The text of the first `k` pages begins the text of the whole document. */
  lemma {:induction false} PdfTextPrefix(pages: seq<seq<TextItem>>, k: nat)
    requires k <= |pages|
    ensures PdfText(pages[..k]) <= PdfText(pages)
    decreases |pages| - k
  {
    if k < |pages| {
      var longer := pages[..k + 1];
      assert longer[..|longer| - 1] == pages[..k];
      PdfTextPrefix(pages, k + 1);
    } else {
      assert pages[..k] == pages;
    }
  }

  /** Where the block of page `k + 1` begins in the document text. */
  function PageOffset(pages: seq<seq<TextItem>>, k: nat): nat
    requires k <= |pages|
  {
    |PdfText(pages[..k])|
  }

  /** The text of the first `k + 1` pages is that of the first `k` followed
      by the block of page `k + 1`. */
  lemma PdfTextStep(pages: seq<seq<TextItem>>, k: nat)
    requires k < |pages|
    ensures PdfText(pages[..k + 1]) == PdfText(pages[..k]) + PageBlock(k + 1, pages[k])
  {
    var upTo := pages[..k + 1];
    assert upTo[..|upTo| - 1] == pages[..k];
  }

  /** Page `k + 1` (with `k` counted from 0) appears as its block, marker
      first, at its offset; the offsets strictly increase with the page
      number, so the markers come in ascending order, one block per page. */
  lemma PdfPageAt(pages: seq<seq<TextItem>>, k: nat)
    requires k < |pages|
    ensures OccursAt(PageBlock(k + 1, pages[k]), PdfText(pages), PageOffset(pages, k))
    ensures OccursAt(Marker(k + 1), PdfText(pages), PageOffset(pages, k))
    ensures PageOffset(pages, k) < PageOffset(pages, k + 1)
  {
    var before := PdfText(pages[..k]);
    var block := PageBlock(k + 1, pages[k]);
    PdfTextStep(pages, k);
    PdfTextPrefix(pages, k + 1);
    OccursAfter(before, block);
    OccursInLonger(block, before + block, |before|, PdfText(pages));
    OccursStart(block, PdfText(pages), |before|, Marker(k + 1));
  }

  /** A marker holds exactly one '['. */
  lemma MarkerBrackets(n: nat)
    ensures multiset(Marker(n))['['] == 1
  {
    var digits := NatToString(n);
    assert '[' !in digits;
    assert Marker(n) == "[Page " + digits + "]\n";
    assert multiset("[Page ")['['] == 1;
    assert multiset("]\n")['['] == 0;
  }

  /** A page block holds exactly one '[' when none of its items does. */
  lemma PageBlockBrackets(n: nat, items: seq<TextItem>)
    requires forall j :: 0 <= j < |items| ==> '[' !in ItemText(items[j])
    ensures multiset(PageBlock(n, items))['['] == 1
  {
    var texts := seq(|items|, j requires 0 <= j < |items| => ItemText(items[j]));
    JoinAvoids(texts, " ", '[');
    MarkerBrackets(n);
    assert multiset(PageContent(items))['['] == 0;
    assert multiset("\n\n")['['] == 0;
  }

  /** When no item text contains '[', the document text contains exactly one
      '[' per page: the one opening its marker. */
  lemma {:induction false} PdfMarkerCount(pages: seq<seq<TextItem>>)
    requires forall p, j :: 0 <= p < |pages| && 0 <= j < |pages[p]| ==> '[' !in ItemText(pages[p][j])
    ensures multiset(PdfText(pages))['['] == |pages|
  {
    if pages != [] {
      var n := |pages| - 1;
      PdfMarkerCount(pages[..n]);
      PageBlockBrackets(|pages|, pages[n]);
    }
  }

  /** A two-page PDF reading "Alpha" and "Beta". */
  lemma TwoPageDocument()
    ensures PdfText([[TextItem("Alpha")], [TextItem("Beta")]]) == "[Page 1]\nAlpha\n\n[Page 2]\nBeta\n\n"
  {
    var pages := [[TextItem("Alpha")], [TextItem("Beta")]];
    assert pages[..1] == [[TextItem("Alpha")]];
    assert pages[..1][..0] == [];
    assert NatToString(1) == "1" && NatToString(2) == "2";
    assert PageContent(pages[0]) == "Alpha" && PageContent(pages[1]) == "Beta";
  }

  // ------------------------------------------------------------ file loading

  /** The chosen file: its name and declared MIME type. */
  datatype File = File(name: string, mimeType: string)

  /** How reading a PDF ended: the reader gave no result, the read failed,
      pdf.js could not parse the document, or the pages' text contents. */
  datatype PdfRead = PdfNoResult | PdfReadFailed | PdfUnparsable | PdfPages(pages: seq<seq<TextItem>>)

  /** How reading a text file ended: the read failed, the result was not a
      string, or the text. */
  datatype TextRead = TextReadFailed | TextNotString | TextContent(text: string)

  const PdfMimeType := "application/pdf"
  const PdfNoResultMessage := "Failed to read PDF file."
  const PdfReadFailedMessage := "Failed to read the file."
  const PdfUnparsableMessage := "Could not parse the PDF file. It might be corrupted or protected."
  const TextReadFailedMessage := "Failed to read the uploaded text file."
  const TextNotStringMessage := "Could not read the text file content."
  const EmptyFileMessage := "The file seems to be empty or text could not be extracted."

  /** What `extractTextFromPdf` or `extractTextFromTxt`, chosen by the file's
      type, resolves to or rejects with. */
  function ExtractedText(file: File, pdf: PdfRead, txt: TextRead): Result<string>
  {
    if file.mimeType == PdfMimeType then
      match pdf
      case PdfNoResult => Err(PdfNoResultMessage)
      case PdfReadFailed => Err(PdfReadFailedMessage)
      case PdfUnparsable => Err(PdfUnparsableMessage)
      case PdfPages(pages) => Ok(PdfText(pages))
    else
      match txt
      case TextReadFailed => Err(TextReadFailedMessage)
      case TextNotString => Err(TextNotStringMessage)
      case TextContent(text) => Ok(text)
  }

  /** The extraction as the page runs it, the PDF loop included. */
  method ExtractText(file: File, pdf: PdfRead, txt: TextRead) returns (r: Result<string>)
    ensures r == ExtractedText(file, pdf, txt)
  {
    if file.mimeType == PdfMimeType {
      match pdf {
        case PdfNoResult => r := Err(PdfNoResultMessage);
        case PdfReadFailed => r := Err(PdfReadFailedMessage);
        case PdfUnparsable => r := Err(PdfUnparsableMessage);
        case PdfPages(pages) =>
          var text := ExtractPdfText(pages);
          r := Ok(text);
      }
    } else {
      match txt {
        case TextReadFailed => r := Err(TextReadFailedMessage);
        case TextNotString => r := Err(TextNotStringMessage);
        case TextContent(text) => r := Ok(text);
      }
    }
  }

  /** The document a file change loads: the extracted text when it is not
      blank, else the "empty" error; a failed extraction keeps its message. */
  function LoadedDocument(file: File, pdf: PdfRead, txt: TextRead): (r: Result<string>)
    ensures r.Ok? <==> ExtractedText(file, pdf, txt).Ok? && !IsBlank(ExtractedText(file, pdf, txt).value)
    ensures r.Ok? ==> r.value == ExtractedText(file, pdf, txt).value
    ensures r.Err? && ExtractedText(file, pdf, txt).Ok? ==> r.error == EmptyFileMessage
    ensures ExtractedText(file, pdf, txt).Err? ==> r == ExtractedText(file, pdf, txt)
  {
    match ExtractedText(file, pdf, txt)
    case Err(message) => Err(message)
    case Ok(text) => if Trim(text) == "" then Err(EmptyFileMessage) else Ok(text)
  }

  /** A text file reading "Hello world." loads unchanged. */
  lemma PlainTextLoadsUnchanged(name: string, pdf: PdfRead)
    ensures LoadedDocument(File(name, "text/plain"), pdf, TextContent("Hello world.")) == Ok("Hello world.")
  {
    assert !IsWhitespace("Hello world."[0]);
  }

  // ---------------------------------------------------------------- workflow

  /** The screen the page is on. */
  datatype Step = UploadStep | SectionsStep | ResultStep

  const NoFileMessage := "Please upload and process a book or file first."
  const NoDescriptionMessage := "Please describe the quote you are looking for."
  const NoSectionsMessage := "Could not identify any relevant sections. Please try a different description."
  const NoQuoteMessage := "Could not find a matching quote in this section. Please try another section or start over."

  /** The session state of the page. */
  class QuoteFinder {
    var file: Option<File>
    var fileName: string
    var fileContent: string
    var bookVersion: string
    var quoteDescription: string
    var step: Step
    var suggestedSections: seq<Section>
    var selectedSection: Option<Section>
    var isLoading: bool
    var error: Option<string>
    var foundQuote: Option<Quote>

    /** What holds between handlers: nothing is loading; without a file there
        is no name and no content; loaded content is never blank; the result
        screen has a chosen section; and a found quote is non-empty and shown
        on the result screen. */
    ghost predicate Valid()
      reads this
    {
      && !isLoading
      && (file.None? ==> fileName == "" && fileContent == "")
      && (fileContent == "" || !IsBlank(fileContent))
      && (step == ResultStep ==> selectedSection.Some?)
      && (foundQuote.Some? ==> step == ResultStep && foundQuote.value.quote != "")
    }

    /** The state of a fresh page, and after "Start Over". */
    ghost predicate Initial()
      reads this
    {
      && file == None && fileName == "" && fileContent == ""
      && bookVersion == "" && quoteDescription == ""
      && step == UploadStep && suggestedSections == [] && selectedSection == None
      && !isLoading && error == None && foundQuote == None
    }

    constructor ()
      ensures Initial() && Valid()
    {
      file, fileName, fileContent := None, "", "";
      bookVersion, quoteDescription := "", "";
      step, suggestedSections, selectedSection := UploadStep, [], None;
      isLoading, error, foundQuote := false, None, None;
    }

    /** `handleReset`: every field back to its initial value. */
    method HandleReset()
      modifies this
      ensures Initial() && Valid()
    {
      file := None;
      fileName := "";
      fileContent := "";
      bookVersion := "";
      quoteDescription := "";
      step := UploadStep;
      suggestedSections := [];
      selectedSection := None;
      isLoading := false;
      error := None;
      foundQuote := None;
    }

    /** The version input's `onChange`. */
    method SetBookVersion(value: string)
      requires Valid()
      modifies this`bookVersion
      ensures Valid() && bookVersion == value
    {
      bookVersion := value;
    }

    /** The description input's `onChange`. */
    method SetQuoteDescription(value: string)
      requires Valid()
      modifies this`quoteDescription
      ensures Valid() && quoteDescription == value
    {
      quoteDescription := value;
    }

    /** `handleFileChange`, given the file picked (if any) and how reading it
        ended. With no file nothing changes. Otherwise the session is reset
        (which clears the version and the description too), and then either
        the non-blank text becomes the content and the file is kept, or the
        error is shown and the file and its name are cleared. */
    method HandleFileChange(selected: Option<File>, pdf: PdfRead, txt: TextRead)
      requires Valid()
      modifies this
      ensures Valid()
      ensures selected.None? ==> unchanged(this)
      ensures selected.Some? ==>
                && step == UploadStep && bookVersion == "" && quoteDescription == ""
                && suggestedSections == [] && selectedSection == None && foundQuote == None
                && !isLoading
      ensures selected.Some? ==>
                match LoadedDocument(selected.value, pdf, txt)
                case Ok(text) =>
                  file == selected && fileName == selected.value.name && fileContent == text && error == None
                case Err(message) =>
                  file == None && fileName == "" && fileContent == "" && error == Some(message)
    {
      if selected.Some? {
        HandleReset();
        file := selected;
        fileName := selected.value.name;
        isLoading := true;
        error := None;
        var extracted := ExtractText(selected.value, pdf, txt);
        match extracted {
          case Ok(text) =>
            if Trim(text) == "" {
              error := Some(EmptyFileMessage);
              file := None;
              fileName := "";
            } else {
              fileContent := text;
            }
          case Err(message) =>
            error := Some(message);
            file := None;
            fileName := "";
        }
        isLoading := false;
      }
    }

    /** The condition under which a `handleFindSections` call gets past its
        two checks. */
    predicate ReadyToSearch()
      reads this
    {
      file.Some? && fileContent != "" && !IsBlank(quoteDescription)
    }

    /** `handleFindSections`, with `api` and `parse` standing for the model
        call and `JSON.parse`. Without a file or content, or with a blank
        description (checked in that order), only the error changes.
        Otherwise the error, the quote and the list are cleared and the search
        runs: a non-empty list moves to the sections screen; an empty list or
        a failure leaves the screen as it was and shows a message. */
    method HandleFindSections(api: Request -> Reply, parse: string -> Result<Json>)
      requires Valid()
      modifies this`isLoading, this`error, this`foundQuote, this`suggestedSections, this`step
      ensures Valid()
      ensures old(file).None? || old(fileContent) == "" ==>
                && error == Some(NoFileMessage) && step == old(step)
                && suggestedSections == old(suggestedSections) && foundQuote == old(foundQuote)
                && !isLoading
      ensures old(file).Some? && old(fileContent) != "" && IsBlank(old(quoteDescription)) ==>
                && error == Some(NoDescriptionMessage) && step == old(step)
                && suggestedSections == old(suggestedSections) && foundQuote == old(foundQuote)
                && !isLoading
      ensures old(ReadyToSearch()) ==>
                && foundQuote == None && !isLoading
                && match FindSections(fileContent, bookVersion, quoteDescription, api, parse)
                   case Ok(sections) =>
                     if |sections| == 0 then
                       error == Some(NoSectionsMessage) && suggestedSections == [] && step == old(step)
                     else
                       error == None && suggestedSections == sections && step == SectionsStep
                   case Err(message) =>
                     error == Some(message) && suggestedSections == [] && step == old(step)
    {
      if file.None? || fileContent == "" {
        error := Some(NoFileMessage);
        return;
      }
      if Trim(quoteDescription) == "" {
        error := Some(NoDescriptionMessage);
        return;
      }
      isLoading := true;
      error := None;
      foundQuote := None;
      suggestedSections := [];
      var sections := FindSections(fileContent, bookVersion, quoteDescription, api, parse);
      match sections {
        case Ok(found) =>
          if |found| == 0 {
            error := Some(NoSectionsMessage);
          } else {
            suggestedSections := found;
            step := SectionsStep;
          }
        case Err(message) =>
          error := Some(message);
      }
      isLoading := false;
    }

    /** `handleSelectSection`: whatever the outcome, the chosen section is
        recorded and the result screen shown; the quote is kept only when the
        reply held a non-empty one, otherwise a message is shown instead. */
    method HandleSelectSection(section: Section, api: Request -> Reply, parse: string -> Result<Json>)
      requires Valid()
      modifies this`isLoading, this`error, this`foundQuote, this`selectedSection, this`step
      ensures Valid()
      ensures step == ResultStep && selectedSection == Some(section) && !isLoading
      ensures match FindQuoteInSection(fileContent, section, quoteDescription, api, parse)
              case Ok(Some(quote)) =>
                if quote.quote != "" then foundQuote == Some(quote) && error == None
                else foundQuote == None && error == Some(NoQuoteMessage)
              case Ok(None) => foundQuote == None && error == Some(NoQuoteMessage)
              case Err(message) => foundQuote == None && error == Some(message)
    {
      isLoading := true;
      error := None;
      foundQuote := None;
      selectedSection := Some(section);
      var result := FindQuoteInSection(fileContent, section, quoteDescription, api, parse);
      match result {
        case Ok(Some(quote)) =>
          if quote.quote == "" {
            error := Some(NoQuoteMessage);
          } else {
            foundQuote := Some(quote);
          }
        case Ok(None) =>
          error := Some(NoQuoteMessage);
        case Err(message) =>
          error := Some(message);
      }
      isLoading := false;
      step := ResultStep;
    }

    /** The "Find Sections" button is enabled when nothing is loading and
        there is content. In a valid state that means a file is loaded and its
        content is not blank, so the handler's first check cannot fail. */
    function FindEnabled(): (r: bool)
      reads this
      ensures Valid() && r ==> file.Some? && fileContent != "" && !IsBlank(fileContent)
    {
      !(isLoading || fileContent == "")
    }

    /** The section list shown on the sections screen: one button per
        suggested section, in order, each handing its own section to the
        select handler. */
    function SectionChoices(): (r: Option<seq<SectionSelector.Button>>)
      reads this
      ensures r.Some? <==> step == SectionsStep
      ensures r.Some? ==> |r.value| == |suggestedSections|
      ensures r.Some? ==> forall i :: 0 <= i < |r.value| ==> r.value[i].onSelect == suggestedSections[i]
      ensures r.Some? ==> forall i :: 0 <= i < |r.value| ==> r.value[i].summary == suggestedSections[i].summary
      ensures r.Some? ==> forall i :: 0 <= i < |r.value| ==>
                r.value[i].location == SectionSelector.LocationLabel(suggestedSections[i].location)
      ensures r.Some? ==> forall i :: 0 <= i < |r.value| ==> r.value[i].disabled == isLoading
      ensures Valid() && r.Some? ==> forall i :: 0 <= i < |r.value| ==> !r.value[i].disabled
    {
      if step == SectionsStep then Some(SectionSelector.Buttons(suggestedSections, isLoading)) else None
    }

    /** The quote panel: shown on the result screen when the found quote is
        non-empty, with the chosen section's summary as its context line (when
        that summary is non-empty) and the found quote's location block (when
        some part of it is given). In a valid state a found quote is always
        shown. */
    function ShownQuote(): (r: Option<QuoteDisplay.QuoteView>)
      reads this
      ensures r.Some? ==> step == ResultStep && foundQuote.Some? && r.value.quote == foundQuote.value.quote
      ensures Valid() ==> (r.Some? <==> foundQuote.Some?)
      ensures r.Some? ==> (r.value.context.Some? <==> selectedSection.Some? && selectedSection.value.summary != "")
      ensures r.Some? && r.value.context.Some? ==> r.value.context.value == selectedSection.value.summary
      ensures r.Some? ==> (r.value.location.Some? <==> QuoteDisplay.HasLocation(foundQuote.value.location))
      ensures r.Some? && r.value.location.Some? ==>
                r.value.location.value == QuoteDisplay.Cells(foundQuote.value.location.value)
    {
      if step == ResultStep && foundQuote.Some? && foundQuote.value.quote != "" then
        var context := if selectedSection.Some? then Some(selectedSection.value.summary) else None;
        QuoteDisplay.Render(foundQuote, context)
      else None
    }
  }
}
