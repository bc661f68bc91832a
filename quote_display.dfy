/** The result panel: the found quote verbatim, the summary of the section it
    came from, and a location block whose cells fall back to 'N/A'. */
module QuoteDisplay {
  import opened Wrappers
  import opened JsString
  import opened JsValues
  import opened GeminiService

  const NotAvailable := "N/A"

  /** The three cells of the location block, as the text they show. */
  datatype LocationCells = LocationCells(chapter: string, page: string, paragraph: string)

  /** What the panel shows: the context line (if any), the quote, and the
      location block (if any). */
  datatype QuoteView = QuoteView(context: Option<string>, quote: string, location: Option<LocationCells>)

  /** `{v || 'N/A'}`: a falsy value is shown as 'N/A'. */
  function Cell(v: JsValue): string
  {
    ChildText(Or(v, Str(NotAvailable)))
  }

  /** The cells of a location: each part that is missing, `null`, empty or 0
      shows 'N/A', every other part shows as it is; no cell is ever blank. */
  function Cells(location: Location): (r: LocationCells)
    ensures r.chapter != "" && r.page != "" && r.paragraph != ""
    ensures Truthy(OfString(location.chapter)) ==> r.chapter == location.chapter.value
    ensures !Truthy(OfString(location.chapter)) ==> r.chapter == NotAvailable
    ensures Truthy(OfNumber(location.page)) ==> r.page == IntToString(location.page.value)
    ensures !Truthy(OfNumber(location.page)) ==> r.page == NotAvailable
    ensures Truthy(OfNumber(location.paragraph)) ==> r.paragraph == IntToString(location.paragraph.value)
    ensures !Truthy(OfNumber(location.paragraph)) ==> r.paragraph == NotAvailable
  {
    LocationCells(Cell(OfString(location.chapter)), Cell(OfNumber(location.page)), Cell(OfNumber(location.paragraph)))
  }

  /** The value of `location && (location.chapter || location.page || location.paragraph)`. */
  function HasLocationValue(location: Field<Location>): JsValue
  {
    match location
    case Missing => Undefined
    case JsonNull => Null
    case Present(l) =>
      And(Obj(""), Or(Or(OfString(l.chapter), OfNumber(l.page)), OfNumber(l.paragraph)))
  }

  /** `hasLocation` as a condition: a location is present and at least one of
      its three parts is truthy. */
  predicate HasLocation(location: Field<Location>) {
    Truthy(HasLocationValue(location))
  }

  /** The condition spelled out part by part. */
  lemma HasLocationParts(location: Field<Location>)
    ensures HasLocation(location) <==>
              location.Present?
              && (Truthy(OfString(location.value.chapter))
                  || Truthy(OfNumber(location.value.page))
                  || Truthy(OfNumber(location.value.paragraph)))
  {
  }

  /** `QuoteDisplay`: nothing unless there is a non-empty quote; otherwise the
      quote verbatim, the context line exactly when the context is non-empty,
      and the location block exactly when some part of the location is given. */
  function Render(quoteData: Option<Quote>, context: Option<string>): (r: Option<QuoteView>)
    ensures r.None? <==> quoteData.None? || quoteData.value.quote == ""
    ensures r.Some? ==> r.value.quote == quoteData.value.quote
    ensures r.Some? ==> (r.value.context.Some? <==> context.Some? && context.value != "")
    ensures r.Some? && r.value.context.Some? ==> r.value.context == context
    ensures r.Some? ==> (r.value.location.Some? <==> HasLocation(quoteData.value.location))
    ensures r.Some? && r.value.location.Some? ==> r.value.location.value == Cells(quoteData.value.location.value)
  {
    if quoteData.None? || quoteData.value.quote == "" then None
    else
      var quote := quoteData.value;
      var contextLine := if context.Some? && context.value != "" then context else None;
      var block := if HasLocation(quote.location) then Some(Cells(quote.location.value)) else None;
      Some(QuoteView(contextLine, quote.quote, block))
  }

  /** The text the location block renders. */
  function BlockText(cells: LocationCells): string
  {
    "Location:" + "Chapter" + cells.chapter + "Page" + cells.page + "Paragraph" + cells.paragraph
  }

  /** The text of the location-block slot as intended: the block, or nothing. */
  function LocationSlot(location: Field<Location>): string
  {
    if HasLocation(location) then BlockText(Cells(location.value)) else ""
  }

  /** The text of the `{hasLocation && (<div>…</div>)}` child, evaluated as
      written: a falsy `hasLocation` is rendered as React renders it. */
  function LocationSlotAsWritten(location: Field<Location>): string
  {
    var has := HasLocationValue(location);
    if Truthy(has) then BlockText(Cells(location.value)) else ChildText(has)
  }

  /** As written, the slot shows what is intended except in one case: a
      location whose chapter and page are falsy and whose paragraph is 0
      makes `hasLocation` the number 0, which is rendered as "0". */
  lemma LocationSlotAsWrittenAgrees(location: Field<Location>)
    ensures LocationSlotAsWritten(location) == LocationSlot(location)
            <==> !(location.Present?
                   && !Truthy(OfString(location.value.chapter))
                   && !Truthy(OfNumber(location.value.page))
                   && location.value.paragraph == Present(0))
  {
    if !HasLocation(location) {
      FalsyChildText(HasLocationValue(location));
    }
  }

  /** A found quote whose location has `null` chapter and page and paragraph
      0 shows a stray "0" where no location block is meant. (The panel only
      renders at all for a non-empty quote.) */
  lemma ZeroParagraphShowsStrayZero()
    ensures LocationSlotAsWritten(Present(Location(JsonNull, JsonNull, Present(0)))) == "0"
    ensures LocationSlot(Present(Location(JsonNull, JsonNull, Present(0)))) == ""
  {
  }
}
