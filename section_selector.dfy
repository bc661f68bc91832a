/** The list of candidate sections the user picks from: one button per
    section, its summary, and an estimated-location line built from the
    section's chapter and page under JavaScript truthiness. */
module SectionSelector {
  import opened Wrappers
  import opened JsString
  import opened JsValues
  import opened GeminiService

  const LocationPrefix := "Est. Location:"

  /** The chapter counts as given: present and not the empty string. */
  predicate ChapterGiven(location: Location) {
    Truthy(OfString(location.chapter))
  }

  /** The page counts as given: present and not `0`. */
  predicate PageGiven(location: Location) {
    Truthy(OfNumber(location.page))
  }

  /** The estimated-location line of a section, or `None` when the line is
      not shown. A missing, `null` or empty chapter and a missing, `null` or
      zero page count as absent. */
  function LocationLabel(location: Location): (r: Option<string>)
    ensures r.Some? <==> ChapterGiven(location) || PageGiven(location)
    ensures ChapterGiven(location) && !PageGiven(location)
            ==> r == Some("Est. Location: Chapter " + location.chapter.value)
    ensures !ChapterGiven(location) && PageGiven(location)
            ==> r == Some("Est. Location: Page " + IntToString(location.page.value))
    ensures ChapterGiven(location) && PageGiven(location)
            ==> r == Some("Est. Location: Chapter " + location.chapter.value + ",  Page " + IntToString(location.page.value))
  {
    var chapter := ChapterGiven(location);
    var page := PageGiven(location);
    if !chapter && !page then None
    else
      var text := LocationPrefix
                  + (if chapter then " Chapter " + location.chapter.value else "")
                  + (if chapter && page then ", " else "")
                  + (if page then " Page " + IntToString(location.page.value) else "");
      assert LocationPrefix + " Chapter " == "Est. Location: Chapter ";
      assert LocationPrefix + " Page " == "Est. Location: Page ";
      assert ", " + " Page " == ",  Page ";
      assert chapter && !page ==> text == (LocationPrefix + " Chapter ") + location.chapter.value;
      assert !chapter && page ==> text == (LocationPrefix + " Page ") + IntToString(location.page.value);
      assert chapter && page ==> text == (LocationPrefix + " Chapter ") + location.chapter.value
                                         + (", " + " Page ") + IntToString(location.page.value);
      Some(text)
  }

  /** The text shown for an optional line: nothing when it is absent. */
  function LineText(line: Option<string>): string
  {
    match line
    case None => ""
    case Some(s) => s
  }

  /** One button of the list: the section's summary, its location line, whether
      it is disabled, and the section its click hands to the caller. */
  datatype Button = Button(summary: string, location: Option<string>, disabled: bool, onSelect: Section)

  /** The button for one section. */
  function ButtonFor(section: Section, isLoading: bool): Button
  {
    Button(section.summary, LocationLabel(section.location), isLoading, section)
  }

  /** `sections.map(...)`: one button per section, in the order given; the
      i-th button shows the i-th summary and location line and hands exactly
      the i-th section to `onSelect`; every button is disabled exactly while
      a request is loading. */
  function Buttons(sections: seq<Section>, isLoading: bool): (r: seq<Button>)
    ensures |r| == |sections|
    ensures forall i :: 0 <= i < |r| ==> r[i].onSelect == sections[i]
    ensures forall i :: 0 <= i < |r| ==> r[i].summary == sections[i].summary
    ensures forall i :: 0 <= i < |r| ==> r[i].location == LocationLabel(sections[i].location)
    ensures forall i :: 0 <= i < |r| ==> r[i].disabled == isLoading
  {
    if sections == [] then [] else [ButtonFor(sections[0], isLoading)] + Buttons(sections[1..], isLoading)
  }

  // ------------------------------------------------------------------------
  // The location line as the component writes it. Each `{a && b}` child is a
  // JavaScript value that React renders; when the value is the number 0 it
  // renders as the text "0" rather than nothing.

  /** The text of the `{(chapter || page) && <p>…</p>}` child, evaluated as
      written. */
  function LocationSlotAsWritten(location: Location): string
  {
    var chapter := OfString(location.chapter);
    var page := OfNumber(location.page);
    var line := Obj(LocationPrefix
                    + ChildText(And(chapter, Str(" Chapter " + ToText(chapter))))
                    + ChildText(And(And(chapter, page), Str(", ")))
                    + ChildText(And(page, Str(" Page " + ToText(page)))));
    ChildText(And(Or(chapter, page), line))
  }

  /** The component as written renders what `LocationLabel` describes exactly
      when the page is not 0: a page of 0 adds stray "0" text. */
  lemma LocationSlotAsWrittenAgrees(location: Location)
    ensures LocationSlotAsWritten(location) == LineText(LocationLabel(location))
            <==> location.page != Present(0)
  {
    var asWritten := LocationSlotAsWritten(location);
    var intended := LineText(LocationLabel(location));
    if location.page == Present(0) {
      if ChapterGiven(location) {
        assert |asWritten| == |intended| + 2;
      } else {
        assert asWritten == "0" && intended == "";
      }
    }
  }

  /** A section at chapter "5" with page 0 is labelled "Chapter 500" as
      written, where "Chapter 5" is meant; with a missing or empty chapter the
      button shows a bare "0" where no location line is meant. */
  lemma ZeroPageShowsStrayZeros()
    ensures LocationSlotAsWritten(Location(Present("5"), Present(0), Missing)) == "Est. Location: Chapter 500"
    ensures LineText(LocationLabel(Location(Present("5"), Present(0), Missing))) == "Est. Location: Chapter 5"
    ensures LocationSlotAsWritten(Location(Missing, Present(0), Missing)) == "0"
    ensures LocationLabel(Location(Missing, Present(0), Missing)) == None
    ensures LocationSlotAsWritten(Location(Present(""), Present(0), Missing)) == "0"
    ensures LocationLabel(Location(Present(""), Present(0), Missing)) == None
  {
  }
}
