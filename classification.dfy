/**
 * Payment classifications (src/employee/classification.rs and the hourly
 * classification used by src/transaction/mod.rs).
 *
 * The open family `dyn PaymentClassification`, recovered at run time with
 * `as_any().downcast_ref`, is a closed sum type here; the downcasts are
 * `AsSalaried` and `AsHourly`, which succeed exactly on their own variant.
 * The shared, mutable `Rc<RefCell<..>>` handle an employee holds is the
 * class `ClassificationCell`.
 */
module Classifications {
  import opened Wrappers
  import opened TimeCards

  /** A fixed salary; no mutating methods, so its value never changes after construction. */
  datatype SalariedClassification = SalariedClassification(value: real) {

    /** `SalariedClassification::new`. */
    static function New(value: real): SalariedClassification
    {
      SalariedClassification(value)
    }

    /** `SalariedClassification::get_salary`. */
    function GetSalary(): real
    {
      value
    }
  }

  /** An hourly rate and the time cards posted so far, in the order they were posted. */
  datatype HourlyClassification = HourlyClassification(rate: real, timeCards: seq<TimeCard>) {

    /** `HourlyClassification::new(rate)`: no time cards yet. */
    static function New(rate: real): HourlyClassification
    {
      HourlyClassification(rate, [])
    }

    /** `add_time_card`: appends; nothing is ever removed or reordered. */
    function AddTimeCard(card: TimeCard): HourlyClassification
    {
      HourlyClassification(rate, timeCards + [card])
    }
  }

  datatype Classification =
    | Salaried(salaried: SalariedClassification)
    | Hourly(hourly: HourlyClassification)
  {
    /** `downcast_ref::<SalariedClassification>()`. */
    function AsSalaried(): Option<SalariedClassification>
    {
      match this
      case Salaried(s) => Some(s)
      case Hourly(_) => None
    }

    /** `downcast_mut::<HourlyClassification>()`. */
    function AsHourly(): Option<HourlyClassification>
    {
      match this
      case Hourly(h) => Some(h)
      case Salaried(_) => None
    }
  }

  /**
   * The `Rc<RefCell<dyn PaymentClassification>>` handle: an object whose
   * content can be replaced in place, so that every holder of the handle
   * sees the change.
   */
  class ClassificationCell {
    var value: Classification

    constructor (c: Classification)
      ensures value == c
    {
      value := c;
    }
  }

  /** A salaried classification reports the salary it was built with. */
  lemma SalariedNewGetSalary(v: real)
    ensures SalariedClassification.New(v).GetSalary() == v
  {
  }

  /** A new hourly classification has the given rate and no time cards. */
  lemma HourlyNewIsEmpty(rate: real)
    ensures HourlyClassification.New(rate).rate == rate
    ensures HourlyClassification.New(rate).timeCards == []
  {
  }

  /**
   * Adding a time card keeps the rate and every earlier card in its place,
   * and puts the new card last.
   */
  lemma AddTimeCardAppends(h: HourlyClassification, card: TimeCard)
    ensures h.AddTimeCard(card).rate == h.rate
    ensures |h.AddTimeCard(card).timeCards| == |h.timeCards| + 1
    ensures h.AddTimeCard(card).timeCards[..|h.timeCards|] == h.timeCards
    ensures h.AddTimeCard(card).timeCards[|h.timeCards|] == card
  {
  }

  /**
   * Variant recognition: each downcast recovers exactly the value of its
   * own variant and fails on the other one; in particular a salaried
   * classification is never taken for an hourly one.
   */
  lemma DowncastRecognisesVariant(c: Classification)
    ensures c.AsSalaried().Some? <==> c.Salaried?
    ensures c.AsHourly().Some? <==> c.Hourly?
    ensures c.Salaried? ==> c.AsSalaried() == Some(c.salaried) && c.AsHourly() == None
    ensures c.Hourly? ==> c.AsHourly() == Some(c.hourly) && c.AsSalaried() == None
  {
  }
}
