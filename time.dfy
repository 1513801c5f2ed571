/**
  Local timestamps as an abstract record.

  The source stores `chrono::DateTime<Local>` values; the engine never does
  arithmetic on them, and the period filter only compares the date, the ISO
  week, the month number and the year. Those views are kept as fields, so no
  calendar computation is modelled.
*/
module Time {

  /** A calendar date (`date_naive()`); `month()` and `year()` read it. */
  datatype Date = Date(year: int, month: nat, day: nat)

  /** An ISO-8601 week (`iso_week()`): the ISO week-numbering year and the week within it. */
  datatype IsoWeek = IsoWeek(year: int, week: nat)

  /** A local instant: its date, its ISO week and the second within the day. */
  datatype Timestamp = Timestamp(date: Date, isoWeek: IsoWeek, secondOfDay: nat)
}
