/**
 * A worked instance of the range selection: three entries stored out of date
 * order, and a window that covers the first two days.
 */
module Scenarios {
  import opened Wrappers
  import opened Dates
  import opened Apod
  import opened StableSort
  import opened Filtering
  import opened Selection

  /** `2024-01-0<d>` reads as 1 January + (d - 1) days of 2024. */
  lemma ParseEarlyJanuary2024(d: int)
    requires 1 <= d <= 9
    ensures ParseIsoDate("2024-01-0" + [DigitChar(d)]) == Some(CivilDate(2024, 0, d))
  {
    var s := "2024-01-0" + [DigitChar(d)];
    assert DigitChar(0) == '0' && DigitChar(1) == '1' && DigitChar(2) == '2' && DigitChar(4) == '4';
    ParseDigits(s, 2, 0, 2, 4, 0, 1, 0, d);
  }

  function Day(d: int, title: string): Entry
    requires 1 <= d <= 9
  {
    Entry("2024-01-0" + [DigitChar(d)], title, "", "image", "", "", "", "")
  }

  lemma KeptFirstAndLast(e1: Entry, e2: Entry, e3: Entry, start: JsDate, end: JsDate)
    requires InWindow(e1, start, end) && !InWindow(e2, start, end) && InWindow(e3, start, end)
    ensures Kept([e1, e2, e3], start, end) == [e1, e3]
  {
    var all, p := [e1, e2, e3], e => InWindow(e, start, end);
    assert all[1..] == [e2, e3] && all[1..][1..] == [e3] && all[1..][1..][1..] == [];
    assert Filter([e3], p) == [e3];
    assert Filter([e2, e3], p) == [e3];
  }

  lemma SortTwoInOrder(e1: Entry, e3: Entry)
    requires Key(e1) <= Key(e3)
    ensures Sort([e1, e3], Key) == [e1, e3]
  {
    assert [e1, e3][..1] == [e1];
    assert Sort([e1], Key) == [e1];
  }

  /**
   * Entries dated 2024-01-01, 2024-01-03, 2024-01-02 and the window
   * 2024-01-01..2024-01-02 give the first and the third entry, in date order.
   */
  lemma ThreeDayExample()
    ensures Select([Day(1, "a"), Day(3, "b"), Day(2, "c")], "2024-01-01", "2024-01-02") == [Day(1, "a"), Day(2, "c")]
  {
    var e1, e2, e3 := Day(1, "a"), Day(3, "b"), Day(2, "c");
    ParseEarlyJanuary2024(1);
    ParseEarlyJanuary2024(2);
    ParseEarlyJanuary2024(3);
    assert "2024-01-01" == e1.date && "2024-01-02" == e3.date;
    var start, end := ParseIsoDate(e1.date), ParseIsoDate(e3.date);
    InWindowIff(e1, start, end);
    InWindowIff(e2, start, end);
    InWindowIff(e3, start, end);
    KeptFirstAndLast(e1, e2, e3, start, end);
    SortTwoInOrder(e1, e3);
  }
}
