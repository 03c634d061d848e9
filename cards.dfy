/**
 * What `createGalleryItem` builds for one entry: the media preview, the title
 * and date, and the collapsible details panel with its toggle button.
 */
module Cards {
  import opened Wrappers
  import opened Apod

  /** The media preview at the top of a card. */
  datatype CardMedia =
    | Picture(src: string, alt: string)      // an image entry: its `url`
    | VideoThumb(src: string, alt: string)   // a video entry: a thumbnail with a play icon
    | Unsupported                            // 'Unsupported media type'

  /** The details panel's visibility and the glyph on its toggle button. */
  datatype Details = Details(hidden: bool, glyph: string)

  datatype Card = Card(
    item: Entry,                // what the card's "View Full Size" and media clicks open
    media: CardMedia,
    title: string,
    date: string,
    explanation: string,
    copyright: Option<string>,  // the '© ...' line, present only when the entry has a copyright
    details: Details)

  const Collapsed: string := "▼"
  const Expanded: string := "▲"

  function GlyphFor(hidden: bool): string {
    if hidden then Collapsed else Expanded
  }

  /** The glyph agrees with the panel's visibility. */
  predicate Consistent(d: Details) {
    d.glyph == GlyphFor(d.hidden)
  }

  /** A new card's details: hidden, with the collapsed glyph. */
  const InitialDetails: Details := Details(true, Collapsed)

  /** The toggle button's click: flip `hidden`, then set the glyph from the new value. */
  function Toggled(d: Details): (r: Details)
    ensures r.hidden == !d.hidden && Consistent(r)
  {
    var hidden := !d.hidden;
    Details(hidden, GlyphFor(hidden))
  }

  /** Two clicks on the toggle restore the panel and its glyph. */
  lemma ToggleTwice(d: Details)
    requires Consistent(d)
    ensures Toggled(Toggled(d)) == d
  {
  }

  /** The nth click from a new card: the panel is shown exactly after an odd number of clicks. */
  function ToggledTimes(d: Details, n: nat): Details {
    if n == 0 then d else Toggled(ToggledTimes(d, n - 1))
  }

  lemma {:induction false} ToggledTimesParity(n: nat)
    ensures ToggledTimes(InitialDetails, n).hidden == (n % 2 == 0)
    ensures Consistent(ToggledTimes(InitialDetails, n))
  {
    if n > 0 {
      ToggledTimesParity(n - 1);
    }
  }

  // ---------------------------------------------------------------------------
  // Thumbnails

  /** The thumbnail address YouTube serves for video `id`. */
  function YouTubeThumbnail(id: string): string {
    "https://img.youtube.com/vi/" + id + "/hqdefault.jpg"
  }

  /**
   * The video thumbnail: `thumbnail_url` if the entry has one; otherwise, when
   * the entry has a `url` from which `youTubeId` extracts a non-empty id, that
   * video's YouTube thumbnail; otherwise ''. `youTubeId` stands for the
   * script's `getYouTubeId`, with '' for both `null` and an empty id.
   */
  function VideoThumbnail(item: Entry, youTubeId: string -> string): string {
    var thumb := Or(item.thumbnailUrl, "");
    if thumb == "" && item.url != "" && youTubeId(item.url) != "" then
      YouTubeThumbnail(youTubeId(item.url))
    else thumb
  }

  /** The three-step fallback of the video thumbnail, in its order of preference. */
  lemma ThumbnailFallback(item: Entry, youTubeId: string -> string)
    ensures item.thumbnailUrl != "" ==> VideoThumbnail(item, youTubeId) == item.thumbnailUrl
    ensures item.thumbnailUrl == "" && item.url != "" && youTubeId(item.url) != "" ==>
      VideoThumbnail(item, youTubeId) == YouTubeThumbnail(youTubeId(item.url))
    ensures item.thumbnailUrl == "" && (item.url == "" || youTubeId(item.url) == "") ==>
      VideoThumbnail(item, youTubeId) == ""
    ensures VideoThumbnail(item, youTubeId) != "" ==>
      VideoThumbnail(item, youTubeId) == item.thumbnailUrl || item.url != ""
  {
  }

  /** The card's media preview, chosen by `media_type`. */
  function CardMediaFor(item: Entry, youTubeId: string -> string): CardMedia {
    if item.mediaType == "image" then Picture(Or(item.url, ""), Or(item.title, "NASA APOD"))
    else if item.mediaType == "video" then VideoThumb(VideoThumbnail(item, youTubeId), Or(item.title, "Video thumbnail"))
    else Unsupported
  }

  /** `createGalleryItem(item)`. */
  function CardFor(item: Entry, youTubeId: string -> string): Card {
    Card(item, CardMediaFor(item, youTubeId), Or(item.title, ""), item.date, Or(item.explanation, ""),
         if item.copyright != "" then Some("© " + item.copyright) else None,
         InitialDetails)
  }

  /** A fresh card belongs to its entry, shows its date, and starts with its details hidden. */
  lemma NewCard(item: Entry, youTubeId: string -> string)
    ensures CardFor(item, youTubeId).item == item && CardFor(item, youTubeId).date == item.date
    ensures CardFor(item, youTubeId).details.hidden && Consistent(CardFor(item, youTubeId).details)
    ensures CardFor(item, youTubeId).media.Picture? <==> item.mediaType == "image"
    ensures CardFor(item, youTubeId).media.VideoThumb? <==> item.mediaType == "video"
    ensures CardFor(item, youTubeId).copyright.Some? <==> item.copyright != ""
  {
  }
}
