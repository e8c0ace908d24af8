/**
 * Time cards (src/employee/timecard.rs): a dated record of hours worked.
 * A time card is a plain copyable value with no mutators, so a datatype.
 */
module TimeCards {

  /** A calendar date as a (year, month, day) triple; it is only built and compared for equality, never validated. */
  datatype Date = Date(year: int, month: int, day: int)

  /** Hours are stored and compared, never computed on, so a `real` stands for the source's f32. */
  datatype TimeCard = TimeCard(hours: real, date: Date) {

    /** `TimeCard::new(date, hours)`. */
    static function New(date: Date, hours: real): TimeCard
    {
      TimeCard(hours, date)
    }

    /** `TimeCard::get_hours`. */
    function GetHours(): real
    {
      hours
    }
  }

  /** A card built from a date and hours reports those hours and keeps that date. */
  lemma NewThenGetHours(d: Date, h: real)
    ensures TimeCard.New(d, h).GetHours() == h
    ensures TimeCard.New(d, h).date == d
  {
  }

  /** Two cards are equal exactly when they were built from the same date and hours. */
  lemma NewIsInjective(d: Date, h: real, d': Date, h': real)
    ensures TimeCard.New(d, h) == TimeCard.New(d', h') <==> d == d' && h == h'
  {
  }
}
