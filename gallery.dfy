/**
 * The "fetch" button's click handler and the gallery it fills.
 *
 * The handler checks the two date fields, shows a loading placeholder, reads
 * the dataset (its outcome is an input here: the records, or the message of
 * the error that reading or decoding raised), selects the entries in range
 * with `fetchApodRange`, and replaces the gallery with an error placeholder,
 * the empty-result placeholder, or one card per selected entry.
 */
module Gallery {
  import opened Wrappers
  import opened Dates
  import opened Apod
  import opened Selection
  import opened Cards

  /** The placeholders the gallery can show instead of cards. */
  datatype Notice = Loading | NoImages | LoadError(message: string)

  /** The gallery's content: one placeholder, or a row of cards. */
  datatype View = Placeholder(notice: Notice) | CardRow(cards: seq<Card>)

  function NoticeText(n: Notice): string {
    match n
    case Loading => "🔄 Loading space photos…"
    case NoImages => "No images found for the selected range."
    case LoadError(m) => "Error loading data: " + m
  }

  const MissingDates: string := "Please choose both start and end dates"
  const StartAfterEnd: string := "Start date must be before or equal to end date"

  /** The two strings the handler passes to `fetchApodRange`. */
  datatype Query = Query(startText: string, endText: string)

  /** `formatDate(date)`; an Invalid Date formats as 'NaN-NaN-NaN'. */
  function DateText(d: JsDate): string
    requires d.Some? ==> d.value.Valid()
  {
    if d.Some? then FormatDate(d.value) else "NaN-NaN-NaN"
  }

  /** `startDate > endDate` on two dates read at midnight; false when either is Invalid Date. */
  predicate StartAfter(startDate: JsDate, endDate: JsDate) {
    AtOrAfter(At(startDate, Midnight), At(endDate, Midnight)) && At(startDate, Midnight) != At(endDate, Midnight)
  }

  lemma StartAfterIff(startDate: JsDate, endDate: JsDate)
    requires WellFormed(startDate) && WellFormed(endDate)
    ensures StartAfter(startDate, endDate) <==> startDate.Some? && endDate.Some? && Before(endDate.value, startDate.value)
  {
    if startDate.Some? && endDate.Some? {
      var s, e := startDate.value, endDate.value;
      InstantOrder(e, Midnight, s, Midnight);
      InstantOrder(s, Midnight, e, Midnight);
      OrdinalOrdersDates(e, s);
    }
  }

  /**
   * The handler's checks before anything is fetched: both fields non-empty,
   * and not `startDate > endDate` (both read at midnight). An unparseable
   * field makes that comparison false, so it is not rejected here.
   */
  function CheckQuery(startField: string, endField: string): Result<Query, string> {
    if startField == "" || endField == "" then Failure(MissingDates)
    else
      var startDate, endDate := ParseIsoDate(startField), ParseIsoDate(endField);
      if StartAfter(startDate, endDate) then Failure(StartAfterEnd)
      else Success(Query(DateText(startDate), DateText(endDate)))
  }

  /**
   * A query is rejected exactly when a field is empty or both dates parse and
   * the start is later than the end; a one-day range (start = end) is accepted.
   */
  lemma CheckQueryRejects(startField: string, endField: string)
    ensures CheckQuery(startField, endField).Failure? <==>
      startField == "" || endField == ""
      || (ParseIsoDate(startField).Some? && ParseIsoDate(endField).Some?
          && Before(ParseIsoDate(endField).value, ParseIsoDate(startField).value))
    ensures CheckQuery(startField, endField).Failure? ==>
      CheckQuery(startField, endField).error == (if startField == "" || endField == "" then MissingDates else StartAfterEnd)
    ensures startField != "" && startField == endField ==> CheckQuery(startField, endField).Success?
  {
    StartAfterIff(ParseIsoDate(startField), ParseIsoDate(endField));
  }

  /**
   * For an accepted query whose fields are dates with four-digit years, the
   * strings handed to `fetchApodRange` denote the same dates again.
   */
  lemma CheckQueryKeepsDates(startField: string, endField: string)
    requires CheckQuery(startField, endField).Success?
    requires ParseIsoDate(startField).Some? && ParseIsoDate(startField).value.year >= 1000
    requires ParseIsoDate(endField).Some? && ParseIsoDate(endField).value.year >= 1000
    ensures ParseIsoDate(CheckQuery(startField, endField).value.startText) == ParseIsoDate(startField)
    ensures ParseIsoDate(CheckQuery(startField, endField).value.endText) == ParseIsoDate(endField)
  {
    var s, e := ParseIsoDate(startField), ParseIsoDate(endField);
    assert CheckQuery(startField, endField).value == Query(DateText(s), DateText(e));
    DateTextRoundTrip(s);
    DateTextRoundTrip(e);
  }

  lemma DateTextRoundTrip(d: JsDate)
    requires d.Some? && d.value.Valid() && 1000 <= d.value.year <= 9999
    ensures ParseIsoDate(DateText(d)) == d
  {
    FormatParseRoundTrip(d.value);
  }

  /** One card per entry, in order. */
  function CardsFor(items: seq<Entry>, youTubeId: string -> string): (cs: seq<Card>)
    ensures |cs| == |items|
    ensures forall k :: 0 <= k < |items| ==> cs[k] == CardFor(items[k], youTubeId)
  {
    if items == [] then [] else CardsFor(items[..|items| - 1], youTubeId) + [CardFor(items[|items| - 1], youTubeId)]
  }

  /** What the gallery shows once the dataset read has finished. */
  function Outcome(fetched: Result<seq<Entry>, string>, q: Query, youTubeId: string -> string): View {
    match fetched
    case Failure(m) => Placeholder(LoadError(m))
    case Success(all) =>
      var items := Select(all, q.startText, q.endText);
      if items == [] then Placeholder(NoImages) else CardRow(CardsFor(items, youTubeId))
  }

  /**
   * After a query the gallery is exactly one of three things: the error
   * placeholder when loading failed; the empty-result placeholder when no entry
   * is in range; otherwise one card per selected entry, in result order, each
   * with its details hidden. It is never left on the loading placeholder.
   */
  lemma OutcomeCases(fetched: Result<seq<Entry>, string>, q: Query, youTubeId: string -> string)
    ensures var v := Outcome(fetched, q, youTubeId);
      && (v.Placeholder? && v.notice.LoadError? <==> fetched.Failure?)
      && (fetched.Failure? ==> v == Placeholder(LoadError(fetched.error)))
      && (v == Placeholder(NoImages) <==> fetched.Success? && Select(fetched.value, q.startText, q.endText) == [])
      && (v.CardRow? <==> fetched.Success? && Select(fetched.value, q.startText, q.endText) != [])
      && v != Placeholder(Loading)
      && (fetched.Failure? ==> NoticeText(v.notice) == "Error loading data: " + fetched.error)
      && (v == Placeholder(NoImages) ==> NoticeText(v.notice) == "No images found for the selected range.")
    ensures fetched.Success? && Outcome(fetched, q, youTubeId).CardRow? ==>
      var items, cs := Select(fetched.value, q.startText, q.endText), Outcome(fetched, q, youTubeId).cards;
      |cs| == |items| > 0
      && (forall k :: 0 <= k < |cs| ==> cs[k].item == items[k] && cs[k].details.hidden)
  {
  }

  class GalleryPanel {
    var view: View

    constructor(initial: View)
      ensures view == initial
    {
      view := initial;
    }

    /**
     * The click handler. `fetched` is what reading the dataset produced; it is
     * consulted only when the query passes the checks. On a rejected query the
     * alert text is returned and the gallery is untouched.
     */
    method Submit(startField: string, endField: string, fetched: Result<seq<Entry>, string>, youTubeId: string -> string)
      returns (r: Result<Query, string>)
      modifies this
      ensures r == CheckQuery(startField, endField)
      ensures r.Failure? ==> view == old(view)
      ensures r.Success? ==> view == Outcome(fetched, r.value, youTubeId)
    {
      if startField == "" || endField == "" {
        return Failure(MissingDates);
      }
      var startDate := ParseIsoDate(startField);
      var endDate := ParseIsoDate(endField);
      if StartAfter(startDate, endDate) {
        return Failure(StartAfterEnd);
      }
      var q := Query(DateText(startDate), DateText(endDate));
      r := Success(q);
      view := Placeholder(Loading);
      match fetched {
        case Failure(m) =>
          view := Placeholder(LoadError(m));
        case Success(all) =>
          var items := FetchApodRange(all, q.startText, q.endText);
          Show(items, youTubeId);
      }
    }

    /** Clears the gallery, then shows the empty-result placeholder or appends one card per entry. */
    method Show(items: seq<Entry>, youTubeId: string -> string)
      modifies this
      ensures view == if items == [] then Placeholder(NoImages) else CardRow(CardsFor(items, youTubeId))
    {
      view := CardRow([]);
      if |items| == 0 {
        view := Placeholder(NoImages);
        return;
      }
      var i := 0;
      while i < |items|
        invariant 0 <= i <= |items|
        invariant view == CardRow(CardsFor(items[..i], youTubeId))
      {
        assert items[..i + 1][..i] == items[..i];
        view := CardRow(view.cards + [CardFor(items[i], youTubeId)]);
        i := i + 1;
      }
      assert items[..|items|] == items;
    }

    /** A click on card `i`'s toggle button: flips that card's details and no other. */
    method ToggleDetails(i: nat)
      requires view.CardRow? && i < |view.cards|
      modifies this
      ensures view.CardRow? && |view.cards| == |old(view.cards)|
      ensures view.cards[i] == old(view.cards[i]).(details := Toggled(old(view.cards[i].details)))
      ensures forall j :: 0 <= j < |view.cards| && j != i ==> view.cards[j] == old(view.cards[j])
    {
      var c := view.cards[i];
      view := CardRow(view.cards[i := c.(details := Toggled(c.details))]);
    }
  }
}
