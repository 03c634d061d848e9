# NASA APOD gallery: date-range selection, gallery and preview overlay

This project models the logic of the APOD gallery page script (`js/script.js`).
The script lets a user pick a start date and an end date. It reads a static
dataset of "astronomy picture of the day" entries and keeps the entries whose
date falls in the inclusive range. It sorts them by date with a stable sort and
shows one card per entry, or a placeholder when there are none or the read
failed. A card's media area or "View Full Size" button opens a full-size preview
overlay, and the overlay can be closed again.

Modules:

- `Wrappers` holds the `Option` and `Result` types.
- `Apod` (`entries.dfy`) holds the dataset entry and the script's `a || b` on
  optional strings.
- `Dates` covers three things:
  - JavaScript `Date` values as the script uses them: a valid calendar date or
    Invalid Date.
  - `formatDate`, and the `YYYY-MM-DD` parse that `new Date(...)` applies.
  - The order on dates and on instants within a day (`T00:00:00`, `T12:00:00`,
    `T23:59:59`).
- `StableSort` is a stable sort by an integer key, standing in for
  `Array.prototype.sort` with the comparator `(a, b) => key(a) - key(b)`.
  - `Sort` is its specification on sequences.
  - `SortInPlace` is insertion sort on an array, proved to produce `Sort`.
- `Filtering` is `Array.prototype.filter` on sequences, with its counting and
  ordering lemmas.
- `Selection` is `fetchApodRange` after the dataset has loaded: the inclusive
  window filter, then the in-place sort by date.
- `Cards` is `createGalleryItem`: the media preview, including the video
  thumbnail fallback, and the collapsible details panel with its toggle.
- `Preview` covers `openModal` and `closeModal`.
  - `Overlay` is a class with the overlay's fields.
  - `Opened` and `Closed` are the specification of its state.
- `Gallery` is the click handler of the "fetch" button.
  - `CheckQuery` validates the two fields.
  - `Outcome` is what the gallery ends up showing.
  - `GalleryPanel` is a class whose `view` field `Submit` updates.
- `Scenarios` holds a worked example: three entries out of order and a two-day
  window.

How the model represents the inputs:

- Missing optional strings of an entry are the empty string, as `||` treats
  them.
- A JavaScript `Date` is `Option<CivilDate>`, with `None` for Invalid Date. Any
  comparison involving Invalid Date is false, as for `NaN` time values.
- Dates are ordered through `Ordinal`, an order-preserving key. It is not a
  count of days.

## Model

| member | source | states |
|---|---|---|
| Dates.FormatDate | js/script.js:35-40 | `formatDate(d)`: the year, the one-based month and the day joined by `-`, month and day padded to two digits; what it writes is pinned down by `FormatDateFields` and read back by `FormatParseRoundTrip` |
| Dates.TwoDigitsOf | js/script.js:37-38 | `String(n).padStart(2, '0')` for 0 <= n < 100 is exactly the tens digit followed by the units digit |
| Dates.FormatDateFields | js/script.js:35-40 | `formatDate` writes the year's `String` form (unpadded, with a minus sign if negative), then `-`, the one-based month as two digits, `-`, and the day as two digits |
| Dates.ParseIsoDate | js/script.js:252-255 | a text that parses is exactly ten characters with `-` at positions 4 and 7 and a digit first; the date it yields has a month in 0..11, a day in 1..31 and a year in 0..9999 |
| Dates.FormatParseRoundTrip | js/script.js:35-40 | for a four-digit year, reading back what `formatDate` wrote gives the same date |
| Dates.FormatParseOtherYears | js/script.js:35-40 | for a year outside 1000..9999, what `formatDate` writes is not a `YYYY-MM-DD` date, so the model's strict parse reads it as Invalid Date (what an engine makes of such a text, e.g. `999-01-01T00:00:00`, is implementation-defined) |
| Dates.OrdinalOrdersDates | js/script.js:258 | on valid dates, the sort key is smaller exactly when the first date is earlier in calendar order, and equal exactly when the dates are equal |
| Dates.InstantOrder | js/script.js:252-256 | one instant (a date plus seconds within the day) is no later than another exactly when its date is earlier, or the dates are equal and its time is no later |
| StableSort.Insert | js/script.js:258 | one step of the sort: `x` moves left past every element with a strictly greater key (the comparator is positive) and stops behind the first that is not; its properties are `InsertPermutes`, `InsertSorted`, `InsertStable` and `InsertSplit` |
| StableSort.Sort | js/script.js:258 | the sort the comparator `(a, b) => key(a) - key(b)` defines: each element inserted in turn into the sorted prefix; `SortProperties` proves it sorted, a permutation and stable |
| StableSort.InsertPermutes | js/script.js:258 | inserting one element adds exactly that element to the multiset |
| StableSort.InsertSorted | js/script.js:258 | inserting into a key-sorted sequence keeps it key-sorted |
| StableSort.InsertStable | js/script.js:258 | inserting `x` appends it to the elements of its key and leaves the order of every key's elements as it was |
| StableSort.SortProperties | js/script.js:258 | the sort result is in non-decreasing key order, is a permutation of the input, and lists the elements of each key in their input order (stability) |
| StableSort.SortOfSorted | js/script.js:258 | sorting a sequence already in key order changes nothing |
| StableSort.SortIdempotent | js/script.js:258 | sorting the sorted result again changes nothing |
| StableSort.InsertSplit | js/script.js:258 | the element is inserted behind the last element whose key is not greater than its own, with every element after it having a greater key |
| StableSort.InsertInPlace | js/script.js:258 | shifting `a[i]` left past the greater-keyed elements leaves `a[..i+1]` equal to `Insert` of the old run and element, and the rest of the array unchanged |
| StableSort.SortInPlace | js/script.js:258 | the in-place sort leaves the array holding exactly `Sort` of its old contents |
| Selection.InWindowIff | js/script.js:252-256 | an entry passes the filter exactly when its date, start and end all parse and start <= date <= end in calendar order, both ends included |
| Selection.InWindow | js/script.js:254-256 | the filter callback: the entry's date at midday is at or after the start at midnight and at or before the end at 23:59:59; characterised by `InWindowIff` |
| Filtering.FilterCount | js/script.js:254-257 | `filter` keeps each element that satisfies the predicate exactly as often as the input has it, and no other element |
| Filtering.FilterAppend | js/script.js:254-257 | `filter` decides each element on its own: an element added at the end of the input is kept at the end of the output or dropped |
| Filtering.FilterWithKey | js/script.js:254-258 | taking the elements of one key commutes with filtering, so the filter keeps input order among elements of the same key |
| Selection.Kept | js/script.js:254-257 | the filter keeps each in-window entry exactly as often as the dataset has it and no out-of-window entry; an entry is in the result exactly when it is in the dataset and in the window |
| Selection.KeptWithKey | js/script.js:254-258 | the filtered entries of one date are the dataset's entries of that date that are in the window, in dataset order |
| Selection.Select | js/script.js:252-259 | `fetchApodRange` on a loaded dataset: parse both bounds, filter, sort by date; its promises are `SelectProperties` and `SelectInCalendarOrder` |
| Selection.FetchApodRange | js/script.js:247-260 | filtering and then sorting the copy in place returns exactly `Select` of the dataset and the two bounds |
| Selection.SelectProperties | js/script.js:252-259 | an entry is returned exactly when it is in the dataset and in the window; the result is in date order, is a permutation of the filtered list, and its entries of each date are exactly the dataset's in-window entries of that date, in dataset order |
| Selection.SelectInCalendarOrder | js/script.js:252-258 | every returned entry has a parseable date, and no entry comes after one with a later date |
| Selection.OneDayWindow | js/script.js:252-256 | a one-day window (start = end) admits an entry exactly when its date is that day |
| Selection.SelectOneDay | js/script.js:252-259 | a one-day window (start = end) on any dataset that holds exactly one entry of that day, among entries of other days, returns exactly that entry |
| Cards.Toggled | js/script.js:173-177 | a click on the toggle flips the panel's visibility and leaves the glyph matching it (`▼` hidden, `▲` shown) |
| Cards.ToggleTwice | js/script.js:173-177 | two clicks restore a consistent panel and its glyph |
| Cards.ToggledTimesParity | js/script.js:142-177 | starting from a new card (hidden, `▼`), the panel is hidden exactly after an even number of clicks, and the glyph always agrees |
| Cards.VideoThumbnail | js/script.js:106-111 | the video thumbnail address: `thumbnail_url`, else the YouTube thumbnail of the id in `url`, else ''; its three cases are `ThumbnailFallback` |
| Cards.CardFor | js/script.js:76-170 | `createGalleryItem(item)`: media preview by `media_type`, title, raw date, explanation, an optional `©` line and hidden details; its properties are `NewCard` |
| Cards.ThumbnailFallback | js/script.js:106-111 | a video's thumbnail is `thumbnail_url` if present; else the YouTube thumbnail of the id in `url`, if there is one; else the empty string |
| Cards.NewCard | js/script.js:76-170 | a new card belongs to its entry and shows its date; its details start hidden; it shows a picture exactly for images and a thumbnail exactly for videos; it has a copyright line exactly when the entry has a copyright |
| Preview.MediaFor | js/script.js:199-219 | what the media area shows for an entry, chosen by `media_type`; its cases are `MediaChoice` |
| Preview.Opened | js/script.js:199-224 | the overlay's state after `openModal` on a page that has it: visible, the entry's media and captions; `OpenReplacesEverything` and `OpenCloseOpen` state its properties |
| Preview.Closed | js/script.js:227-230 | the overlay's state after `closeModal`: hidden and with empty media, where the page has those elements; `CloseIdempotent` and `OpenCloseOpen` state its properties |
| Preview.MediaChoice | js/script.js:199-219 | images show `hdurl`, else `url`; videos embed `url`; any other media type gets the "not available" message; the media area is never left empty |
| Preview.FallbackFor | js/script.js:191-196 | without the overlay markup, a new tab opens exactly when the entry has `hdurl` or `url` (preferring `hdurl`); otherwise an alert shows the title or "No preview available" |
| Preview.OpenReplacesEverything | js/script.js:199-224 | opening depends on the entry alone, whatever was shown before, and leaves the overlay visible with the entry's media |
| Preview.CloseIdempotent | js/script.js:227-230 | closing twice is the same as closing once |
| Preview.OpenCloseOpen | js/script.js:190-230 | closing an open overlay hides it and empties its media; opening, closing and opening another entry leaves only the second entry's content |
| Preview.Overlay.Open | js/script.js:190-225 | with the overlay markup present, the overlay's new state is `Opened` of its old state, with no fallback; without it, the fallback is returned and the overlay is unchanged |
| Preview.Overlay.Close | js/script.js:227-230 | the overlay's new state is `Closed` of its old state; an element the page lacks is left alone |
| Gallery.CheckQuery | js/script.js:264-281 | the handler's checks and the two strings it passes on: a failure with the alert text, or the reformatted dates; characterised by `CheckQueryRejects` and `CheckQueryKeepsDates` |
| Gallery.StartAfterIff | js/script.js:272-275 | `startDate > endDate` holds exactly when both dates are valid and the end date is earlier in calendar order |
| Gallery.CheckQueryRejects | js/script.js:264-278 | a query is rejected exactly when a field is empty, or both fields are dates and the start is later than the end, with the matching alert text; a one-day range is accepted |
| Gallery.CheckQueryKeepsDates | js/script.js:272-281 | for dates with four-digit years, the strings the handler passes on denote the same dates as the fields |
| Gallery.DateTextRoundTrip | js/script.js:280-281 | `formatDate` of a date with a four-digit year reads back as that date |
| Gallery.CardsFor | js/script.js:305-307 | one card per item, in item order, each built by `createGalleryItem` |
| Gallery.Outcome | js/script.js:286-311 | what the gallery shows once the dataset read has finished: the error placeholder, the empty-result placeholder, or the cards; its cases are `OutcomeCases` |
| Gallery.OutcomeCases | js/script.js:286-311 | after a query the gallery shows exactly one of three things: the error placeholder when loading failed; the empty-result placeholder when nothing is in range; otherwise one card per selected entry, in order, with details hidden. It is never left on the loading placeholder. The placeholders read `Error loading data: ` followed by the error message, and `No images found for the selected range.` |
| Gallery.GalleryPanel.Submit | js/script.js:263-313 | returns the validation result; a rejected query leaves the gallery untouched; an accepted one leaves it showing `Outcome` of the dataset read |
| Gallery.GalleryPanel.Show | js/script.js:296-307 | after clearing, the gallery shows the empty-result placeholder for no items, and otherwise the cards for all items, in order |
| Gallery.GalleryPanel.ToggleDetails | js/script.js:173-177 | a click on one card's toggle flips that card's details and changes no other card |
| Scenarios.ParseEarlyJanuary2024 | js/script.js:255 | `2024-01-0d` reads as day d of January 2024 |
| Scenarios.ThreeDayExample | js/script.js:252-259 | entries dated 01-01, 01-03 and 01-02 with the window 01-01..01-02 give the first and third entries, in date order |

## Left out

- Reading the dataset (`fetch`, `res.ok`, `res.json()`) is an input to `Submit`:
  either the decoded array of entries or the message of the error raised.
  Network, HTTP status and JSON decoding are not modelled.
- Concurrency is not modelled: the handler is `async`, and overlapping queries
  race.
- The JavaScript `Date` object is abstracted. These parts are not modelled:
  - local time zones and daylight saving;
  - every date text other than `YYYY-MM-DD`, which the model treats as
    Invalid Date. The standard date format also accepts the shorter forms
    `YYYY` and `YYYY-MM` (so an entry dated `2024-01` is a valid date at
    midday on 1 January 2024, which the script keeps and the model drops),
    and an engine may accept further texts through its implementation-defined
    fallback parser;
  - extended six-digit years;
  - day-of-month overflow. The model accepts days 1..31 in every month and
    does not roll 30 February over into March.
- Dates.Ordinal orders dates but is not a count of days. Only comparisons are
  modelled, and the script does nothing else with `Date` values.
- `getYouTubeId` is a parameter (`youTubeId`) because it uses `URL` parsing.
  The empty string stands for both its `null` result and an empty id.
- Selection.Key gives 0 to an entry whose date does not parse. The filter
  drops every such entry before the sort, so this value is never compared.
- StableSort.SortInPlace is insertion sort. The engine's `Array.prototype.sort`
  uses a different algorithm, but both are stable, so with the same comparator
  they give the same result.
- Several parts of the page are not modelled:
  - default date initialisation (`addDays` and the `DOMContentLoaded`
    handler);
  - the random "Did you know?" fact;
  - the global loading indicator (`showLoading` / `hideLoading`);
  - the unused `NASA_APOD_URL` and API key;
  - `console.error`.
  They are page decoration or clock and random input, and they do not affect
  what the gallery shows.
- The DOM is reduced to the state it shows:
  - Markup, CSS classes, iframe attributes and `stopPropagation` are left out.
  - `alert` and `window.open` are returned as values (`Result` failure texts,
    `Fallback`) instead of being performed.
- The overlay's title, date and explanation elements are taken as present.
  Only the overlay and its media area are optional, as in the fallback.
- A video entry without `url` embeds the empty string. The script would set
  the iframe's `src` to `undefined`.
- Preview.Overlay.constructor: the overlay's state on page load (hidden and
  empty) comes from the page markup, not from the script.
