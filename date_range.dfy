/**
 * The range filter the two heatmap screens share (src/CourtHeatmap.jsx and
 * src/Heatmap.jsx define it identically). The range select offers "all" or
 * a number of days; for a number of days the screen keeps the entries
 * logged after the start of the first day of the window. That start is
 * computed from the clock, so it is a parameter here, in the same
 * milliseconds as an entry's `ts`.
 */
module DateRange {
  import opened Records

  datatype Range = All | LastDays(days: int)

  /** The entries logged strictly after `start`, in their stored order. */
  function After(entries: seq<Entry>, start: int): (r: seq<Entry>)
    ensures |r| <= |entries|
    ensures forall e :: e in r <==> e in entries && e.ts > start
  {
    if entries == [] then [] else
      var init := After(entries[..|entries| - 1], start);
      var last := entries[|entries| - 1];
      assert forall e :: e in entries <==> e in entries[..|entries| - 1] || e == last;
      if last.ts > start then init + [last] else init
  }

  /** `filtered`: every entry for "all", else those logged after the window's start. */
  function Filtered(entries: seq<Entry>, range: Range, start: int): seq<Entry> {
    match range
    case All => entries
    case LastDays(_) => After(entries, start)
  }

  /**
   * With "all" nothing is dropped; with a number of days an entry is kept
   * exactly when it was logged after the start, and the order is kept.
   */
  lemma FilteredMeans(entries: seq<Entry>, range: Range, start: int)
    ensures range.All? ==> Filtered(entries, range, start) == entries
    ensures range.LastDays? ==>
      forall e :: e in Filtered(entries, range, start) <==> e in entries && e.ts > start
    ensures range.LastDays? && (forall e :: e in entries ==> e.ts > start) ==>
      Filtered(entries, range, start) == entries
  {
    if range.LastDays? && (forall e :: e in entries ==> e.ts > start) {
      AfterKeepsAll(entries, start);
    }
  }

  lemma {:induction false} AfterKeepsAll(entries: seq<Entry>, start: int)
    requires forall e :: e in entries ==> e.ts > start
    ensures After(entries, start) == entries
  {
    if entries != [] {
      var init := entries[..|entries| - 1];
      assert forall e :: e in init ==> e in entries;
      AfterKeepsAll(init, start);
      assert entries == init + [entries[|entries| - 1]];
    }
  }
}
