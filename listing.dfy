/**
  The period filter of the `list entries` command in `src/main.rs`, with the
  clock reading `Local::now()` passed in as `now`.
*/
module Listing {
  import opened Time
  import opened Sequences
  import opened Data

  /** The calendar granularity a listing is restricted to (`cli::Period`). */
  datatype Period = Day | Week | Month | Year | All

  /** Whether an entry started at `start` falls in `period` as seen at `now`. */
  predicate InPeriod(start: Timestamp, period: Period, now: Timestamp): (b: bool)
    ensures period == All ==> b
    ensures period == Day && b ==> start.date.month == now.date.month && start.date.year == now.date.year
  {
    match period
    case Day => start.date == now.date
    case Week => start.isoWeek == now.isoWeek
    case Month => start.date.month == now.date.month
    case Year => start.date.year == now.date.year
    case All => true
  }

  /** The entries of the period, in ledger order. */
  function FilterByPeriod(entries: seq<TimeEntry>, period: Period, now: Timestamp): (r: seq<TimeEntry>)
    ensures forall e :: e in r <==> e in entries && InPeriod(e.start, period, now)
    ensures IsSubsequence(r, entries)
  {
    if entries == [] then []
    else if InPeriod(entries[0].start, period, now) then [entries[0]] + FilterByPeriod(entries[1..], period, now)
    else FilterByPeriod(entries[1..], period, now)
  }

  /** The filter keeps every copy of an entry in the period, and no copy of the others. */
  lemma {:induction false} FilterCounts(entries: seq<TimeEntry>, period: Period, now: Timestamp)
    ensures forall e ::
      multiset(FilterByPeriod(entries, period, now))[e] == if InPeriod(e.start, period, now) then multiset(entries)[e] else 0
    decreases |entries|
  {
    if entries != [] {
      var rest := FilterByPeriod(entries[1..], period, now);
      FilterCounts(entries[1..], period, now);
      assert entries == [entries[0]] + entries[1..];
      assert multiset(entries) == multiset{entries[0]} + multiset(entries[1..]);
      if InPeriod(entries[0].start, period, now) {
        assert multiset([entries[0]] + rest) == multiset{entries[0]} + multiset(rest);
      }
    }
  }

  /** `All` keeps the whole ledger. */
  lemma {:induction false} FilterAllKeepsEverything(entries: seq<TimeEntry>, now: Timestamp)
    ensures FilterByPeriod(entries, All, now) == entries
    decreases |entries|
  {
    if entries != [] {
      FilterAllKeepsEverything(entries[1..], now);
      assert entries == [entries[0]] + entries[1..];
    }
  }

  /** Filtering a concatenation filters each part: the filter decides entry by entry. */
  lemma {:induction false} FilterAppend(a: seq<TimeEntry>, b: seq<TimeEntry>, period: Period, now: Timestamp)
    ensures FilterByPeriod(a + b, period, now) == FilterByPeriod(a, period, now) + FilterByPeriod(b, period, now)
    decreases |a|
  {
    if a == [] {
      assert a + b == b;
    } else {
      assert (a + b)[1..] == a[1..] + b;
      FilterAppend(a[1..], b, period, now);
    }
  }

  /** Filtering twice by the same period keeps what filtering once keeps. */
  lemma {:induction false} FilterIdempotent(entries: seq<TimeEntry>, period: Period, now: Timestamp)
    ensures FilterByPeriod(FilterByPeriod(entries, period, now), period, now) == FilterByPeriod(entries, period, now)
    decreases |entries|
  {
    if entries != [] {
      FilterIdempotent(entries[1..], period, now);
    }
  }

  /**
    `Month` looks at the month number only: two clock readings in the same
    month of different years select the same entries.
  */
  lemma {:induction false} MonthIgnoresYear(entries: seq<TimeEntry>, now: Timestamp, later: Timestamp)
    requires now.date.month == later.date.month
    ensures FilterByPeriod(entries, Month, now) == FilterByPeriod(entries, Month, later)
    decreases |entries|
  {
    if entries != [] {
      MonthIgnoresYear(entries[1..], now, later);
    }
  }

  /** `Year` looks at the year only: any two clock readings in one year select the same entries. */
  lemma {:induction false} YearIgnoresDate(entries: seq<TimeEntry>, now: Timestamp, later: Timestamp)
    requires now.date.year == later.date.year
    ensures FilterByPeriod(entries, Year, now) == FilterByPeriod(entries, Year, later)
    decreases |entries|
  {
    if entries != [] {
      YearIgnoresDate(entries[1..], now, later);
    }
  }

  /**
    The entries of today are a subsequence of those of this month and of
    this year, since a date fixes its month and year.
  */
  lemma {:induction false} DayWithinMonthAndYear(entries: seq<TimeEntry>, now: Timestamp)
    ensures IsSubsequence(FilterByPeriod(entries, Day, now), FilterByPeriod(entries, Month, now))
    ensures IsSubsequence(FilterByPeriod(entries, Day, now), FilterByPeriod(entries, Year, now))
    decreases |entries|
  {
    if entries != [] {
      DayWithinMonthAndYear(entries[1..], now);
    }
  }
}
