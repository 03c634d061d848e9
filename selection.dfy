/**
 * `fetchApodRange` after the dataset has been read: keep the entries whose date
 * falls in the inclusive window `[start, end]`, then sort the survivors in
 * place by date with a stable sort.
 *
 * The window is compared as the script compares it: an entry's date at midday
 * (`T12:00:00`) against the start date at midnight (`T00:00:00`) and the end
 * date at the last second of the day (`T23:59:59`). An entry or bound whose
 * text is Invalid Date fails every comparison.
 */
module Selection {
  import opened Wrappers
  import opened Dates
  import opened Apod
  import opened StableSort
  import opened Filtering

  const Midnight: int := 0
  const Midday: int := 43200
  const LastSecond: int := 86399

  /** `new Date(it.date + 'T12:00:00')` as a time value (`None` for Invalid Date). */
  function EntryInstant(e: Entry): Option<int> {
    At(ParseIsoDate(e.date), Midday)
  }

  /** The filter callback: `d >= start && d <= end`. */
  predicate InWindow(e: Entry, start: JsDate, end: JsDate) {
    AtOrAfter(EntryInstant(e), At(start, Midnight)) && AtOrAfter(At(end, LastSecond), EntryInstant(e))
  }

  /** A bound that is a valid date or Invalid Date. */
  predicate WellFormed(d: JsDate) {
    d.Some? ==> d.value.Valid()
  }

  /**
   * An entry passes the filter exactly when its date parses, both bounds are
   * dates, and start <= date <= end in calendar order, both ends included.
   */
  lemma InWindowIff(e: Entry, start: JsDate, end: JsDate)
    requires WellFormed(start) && WellFormed(end)
    ensures InWindow(e, start, end) <==>
      ParseIsoDate(e.date).Some? && start.Some? && end.Some?
      && !Before(ParseIsoDate(e.date).value, start.value)
      && !Before(end.value, ParseIsoDate(e.date).value)
  {
    var d := ParseIsoDate(e.date);
    if d.Some? && start.Some? && end.Some? {
      InstantOrder(start.value, Midnight, d.value, Midday);
      InstantOrder(d.value, Midday, end.value, LastSecond);
      OrdinalOrdersDates(d.value, start.value);
      OrdinalOrdersDates(end.value, d.value);
    }
  }

  /** `all.filter(...)`: the entries in the window, in dataset order. */
  function Kept(all: seq<Entry>, start: JsDate, end: JsDate): (r: seq<Entry>)
    ensures |r| <= |all|
    ensures forall x :: multiset(r)[x] == if InWindow(x, start, end) then multiset(all)[x] else 0
    ensures forall e :: e in r <==> e in all && InWindow(e, start, end)
  {
    FilterCount(all, e => InWindow(e, start, end));
    Filter(all, e => InWindow(e, start, end))
  }

  // ---------------------------------------------------------------------------
  // The stable sort by date

  /**
   * The sort key `new Date(a.date)`, ordered as the comparator orders it. An
   * entry whose date does not parse never reaches the sort (the filter drops
   * it), so the value given to it here is never used.
   */
  function Key(e: Entry): int {
    match ParseIsoDate(e.date)
    case Some(c) => Ordinal(c)
    case None => 0
  }

  /** Taking the entries of one date commutes with the filter: both keep dataset order. */
  lemma KeptWithKey(all: seq<Entry>, start: JsDate, end: JsDate, k: int)
    ensures WithKey(Kept(all, start, end), Key, k) == Kept(WithKey(all, Key, k), start, end)
  {
    FilterWithKey(all, e => InWindow(e, start, end), Key, k);
  }

  // ---------------------------------------------------------------------------
  // fetchApodRange

  /** What `fetchApodRange` returns for a dataset that loaded. */
  function Select(all: seq<Entry>, startText: string, endText: string): seq<Entry> {
    Sort(Kept(all, ParseIsoDate(startText), ParseIsoDate(endText)), Key)
  }

  /**
   * `fetchApodRange` once `res.json()` has produced `all`: parse the bounds,
   * filter, sort the filtered copy in place.
   */
  method FetchApodRange(all: seq<Entry>, startText: string, endText: string) returns (r: seq<Entry>)
    ensures r == Select(all, startText, endText)
  {
    var start := ParseIsoDate(startText);
    var end := ParseIsoDate(endText);
    var filtered := Kept(all, start, end);
    var a := new Entry[|filtered|](i requires 0 <= i < |filtered| => filtered[i]);
    assert a[..] == filtered;
    SortInPlace(a, Key);
    r := a[..];
  }

  /**
   * The selected entries: an entry is selected iff it is in the dataset and in
   * the window; the result is in date order; it is a permutation of the
   * filtered sub-list; and entries sharing a date keep their dataset order:
   * the result's entries with a given key are exactly the dataset's entries
   * with that key that are in the window, in dataset order.
   */
  lemma SelectProperties(all: seq<Entry>, startText: string, endText: string)
    ensures var r := Select(all, startText, endText);
      && (forall e :: e in r <==> e in all && InWindow(e, ParseIsoDate(startText), ParseIsoDate(endText)))
      && Sorted(r, Key)
      && multiset(r) == multiset(Kept(all, ParseIsoDate(startText), ParseIsoDate(endText)))
      && (forall k :: WithKey(r, Key, k) == WithKey(Kept(all, ParseIsoDate(startText), ParseIsoDate(endText)), Key, k))
      && (forall k :: WithKey(r, Key, k) == Kept(WithKey(all, Key, k), ParseIsoDate(startText), ParseIsoDate(endText)))
  {
    var kept := Kept(all, ParseIsoDate(startText), ParseIsoDate(endText));
    SortProperties(kept, Key);
    forall k ensures WithKey(kept, Key, k) == Kept(WithKey(all, Key, k), ParseIsoDate(startText), ParseIsoDate(endText)) {
      KeptWithKey(all, ParseIsoDate(startText), ParseIsoDate(endText), k);
    }
    forall e ensures e in Select(all, startText, endText) <==> e in kept {
      assert e in multiset(kept) <==> e in multiset(Select(all, startText, endText));
    }
  }

  /** Every selected entry has a date, and the selection lists them in calendar order. */
  lemma SelectInCalendarOrder(all: seq<Entry>, startText: string, endText: string)
    ensures var r := Select(all, startText, endText);
      && (forall i :: 0 <= i < |r| ==> ParseIsoDate(r[i].date).Some?)
      && (forall i, j :: 0 <= i < j < |r| ==>
            !Before(ParseIsoDate(r[j].date).value, ParseIsoDate(r[i].date).value))
  {
    SelectProperties(all, startText, endText);
    var r := Select(all, startText, endText);
    forall i, j | 0 <= i < j < |r|
      ensures ParseIsoDate(r[i].date).Some? && ParseIsoDate(r[j].date).Some?
      ensures !Before(ParseIsoDate(r[j].date).value, ParseIsoDate(r[i].date).value)
    {
      assert r[i] in r && r[j] in r;
      OrdinalOrdersDates(ParseIsoDate(r[j].date).value, ParseIsoDate(r[i].date).value);
    }
    forall i | 0 <= i < |r| ensures ParseIsoDate(r[i].date).Some? {
      assert r[i] in r;
    }
  }

  /** A one-day window keeps only entries of that day. */
  lemma OneDayWindow(x: Entry, d: JsDate)
    requires d.Some? && d.value.Valid()
    ensures InWindow(x, d, d) <==> ParseIsoDate(x.date) == d
  {
    InWindowIff(x, d, d);
  }

  /**
   * A one-day window (start = end) on a dataset that holds exactly one entry of
   * that day, however many entries of other days it has, selects exactly that entry.
   */
  lemma SelectOneDay(all: seq<Entry>, e: Entry, dayText: string)
    requires ParseIsoDate(dayText).Some? && ParseIsoDate(e.date) == ParseIsoDate(dayText)
    requires multiset(all)[e] == 1
    requires forall x :: x in all && x != e ==> ParseIsoDate(x.date) != ParseIsoDate(dayText)
    ensures Select(all, dayText, dayText) == [e]
  {
    var d := ParseIsoDate(dayText);
    var kept := Kept(all, d, d);
    OneDayWindow(e, d);
    forall x ensures multiset(kept)[x] == multiset{e}[x] {
      OneDayWindow(x, d);
    }
    assert multiset(kept) == multiset{e};
    SelectProperties(all, dayText, dayText);
    OnlyElement(Select(all, dayText, dayText), e);
  }
}
