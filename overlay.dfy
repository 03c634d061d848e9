/**
 * The full-size preview overlay (`openModal` / `closeModal`). The overlay has
 * a visibility flag (`modal.hidden`), a media area (`modalMedia`) and three
 * caption lines. When the page lacks the overlay or its media area, opening
 * falls back to a new tab or an alert instead.
 */
module Preview {
  import opened Wrappers
  import opened Apod

  /** What the media area holds. */
  datatype Media =
    | Empty                           // `innerHTML = ''`
    | Image(src: string, alt: string)
    | Embed(src: string)              // an iframe on the entry's `url`
    | Message(text: string)

  /** What `openModal` does when the overlay markup is missing. */
  datatype Fallback = NewTab(url: string) | Alert(message: string)

  /** Everything `openModal` and `closeModal` change. */
  datatype OverlayState = OverlayState(hidden: bool, media: Media, title: string, date: string, explanation: string)

  const NotAvailable: string := "Preview not available for this media type."

  /** The best image address: `item.hdurl || item.url || ''`. */
  function BestUrl(item: Entry): string {
    Or(Or(item.hdurl, item.url), "")
  }

  /** The media shown for `item`, chosen by `media_type`. */
  function MediaFor(item: Entry): Media {
    if item.mediaType == "image" then Image(BestUrl(item), Or(item.title, ""))
    else if item.mediaType == "video" then Embed(item.url)
    else Message(NotAvailable)
  }

  /** Images prefer `hdurl`, then `url`, then ''; videos embed `url`; anything else gets the message. */
  lemma MediaChoice(item: Entry)
    ensures item.mediaType == "image" && item.hdurl != "" ==> MediaFor(item).Image? && MediaFor(item).src == item.hdurl
    ensures item.mediaType == "image" && item.hdurl == "" ==> MediaFor(item).Image? && MediaFor(item).src == item.url
    ensures item.mediaType == "video" ==> MediaFor(item) == Embed(item.url)
    ensures item.mediaType != "image" && item.mediaType != "video" ==> MediaFor(item) == Message(NotAvailable)
    ensures MediaFor(item) != Empty
  {
  }

  /** The fallback: open the best address in a new tab, or alert the title (or a notice). */
  function FallbackFor(item: Entry): (r: Fallback)
    ensures r.NewTab? <==> item.hdurl != "" || item.url != ""
    ensures r.NewTab? ==> r.url == (if item.hdurl != "" then item.hdurl else item.url)
    ensures r.Alert? ==> r.message == (if item.title != "" then item.title else "No preview available")
  {
    var url := BestUrl(item);
    if url != "" then NewTab(url) else Alert(Or(item.title, "No preview available"))
  }

  /** The state after `openModal(item)` on a page that has the overlay. */
  function Opened(s: OverlayState, item: Entry): OverlayState {
    s.(hidden := false, media := MediaFor(item),
       title := Or(item.title, ""), date := Or(item.date, ""), explanation := Or(item.explanation, ""))
  }

  /**
   * Opening discards whatever the overlay showed before: the result depends on
   * the entry alone, and the overlay is visible with non-empty media.
   */
  lemma OpenReplacesEverything(s1: OverlayState, s2: OverlayState, item: Entry)
    ensures Opened(s1, item) == Opened(s2, item)
    ensures !Opened(s1, item).hidden && Opened(s1, item).media == MediaFor(item) != Empty
  {
  }

  /** The state after `closeModal()`; a missing element is left alone. */
  function Closed(s: OverlayState, hasModal: bool, hasMedia: bool): OverlayState {
    s.(hidden := if hasModal then true else s.hidden, media := if hasMedia then Empty else s.media)
  }

  /** Closing twice is closing once. */
  lemma CloseIdempotent(s: OverlayState, hasModal: bool, hasMedia: bool)
    ensures Closed(Closed(s, hasModal, hasMedia), hasModal, hasMedia) == Closed(s, hasModal, hasMedia)
  {
  }

  /**
   * On a page with the overlay: closing an open overlay hides it and empties
   * its media, and open, close, open another leaves only the second entry.
   */
  lemma OpenCloseOpen(s: OverlayState, e1: Entry, e2: Entry)
    ensures Closed(Opened(s, e1), true, true).hidden && Closed(Opened(s, e1), true, true).media == Empty
    ensures Opened(Closed(Opened(s, e1), true, true), e2) == Opened(s, e2)
  {
  }

  class Overlay {
    const hasModal: bool   // the page has the `modal` element
    const hasMedia: bool   // the page has the `modalMedia` element
    var hidden: bool
    var media: Media
    var title: string
    var date: string
    var explanation: string

    function State(): OverlayState
      reads this
    {
      OverlayState(hidden, media, title, date, explanation)
    }

    /** The overlay as the page loads it: hidden and empty. */
    constructor(hasModal: bool, hasMedia: bool)
      ensures this.hasModal == hasModal && this.hasMedia == hasMedia
      ensures State() == OverlayState(true, Empty, "", "", "")
    {
      this.hasModal := hasModal;
      this.hasMedia := hasMedia;
      hidden := true;
      media := Empty;
      title, date, explanation := "", "", "";
    }

    /** `openModal(item)`. */
    method Open(item: Entry) returns (fallback: Option<Fallback>)
      modifies this
      ensures !(hasModal && hasMedia) ==> fallback == Some(FallbackFor(item)) && State() == old(State())
      ensures hasModal && hasMedia ==> fallback == None && State() == Opened(old(State()), item)
    {
      if !hasModal || !hasMedia {
        fallback := Some(FallbackFor(item));
        return;
      }
      fallback := None;
      media := Empty;
      if item.mediaType == "image" {
        media := Image(Or(Or(item.hdurl, item.url), ""), Or(item.title, ""));
      } else if item.mediaType == "video" {
        media := Embed(item.url);
      } else {
        media := Message(NotAvailable);
      }
      title := Or(item.title, "");
      date := Or(item.date, "");
      explanation := Or(item.explanation, "");
      hidden := false;
    }

    /** `closeModal()`: bound to the close button, a click on the backdrop and the Escape key. */
    method Close()
      modifies this
      ensures State() == Closed(old(State()), hasModal, hasMedia)
    {
      if hasModal {
        hidden := true;
      }
      if hasMedia {
        media := Empty;
      }
    }
  }
}
