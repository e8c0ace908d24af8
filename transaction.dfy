/**
 * Transactions (src/transaction/mod.rs): the only way the store changes.
 *
 * The trait `AddEmployeeTransaction`, with its single blanket `execute`,
 * becomes a datatype whose two variants are the two concrete builders; the
 * thread-local store becomes the `db` parameter of `Execute`.
 */
module Transactions {
  import opened Wrappers
  import opened TimeCards
  import opened Classifications
  import opened Policies
  import opened Employees
  import opened Database

  /** The message of the closure's error for a non-hourly employee. */
  const NonHourlyError := "Tried to add timecard to non-hourly employee"

  datatype AddEmployeeTransaction =
    | AddSalariedEmployee(empid: EmployeeId, name: string, address: string, salary: real, schedule: PaymentSchedule)
    | AddHourlyEmployee(empid: EmployeeId, name: string, address: string, hourlyRate: real, schedule: PaymentSchedule)
  {
    /** `employee_salary`: the salary, or for the hourly builder its hourly rate. */
    function EmployeeSalary(): real
    {
      match this
      case AddSalariedEmployee(_, _, _, salary, _) => salary
      case AddHourlyEmployee(_, _, _, rate, _) => rate
    }

    /**
     * `get_classification`: the classification value each builder supplies;
     * `Execute` puts it in a freshly allocated handle.
     */
    function GetClassification(): Classification
    {
      match this
      case AddSalariedEmployee(_, _, _, _, _) => Salaried(SalariedClassification.New(EmployeeSalary()))
      case AddHourlyEmployee(_, _, _, _, _) => Hourly(HourlyClassification.New(EmployeeSalary()))
    }

    /** `get_schedule`: the schedule the caller handed in. */
    function GetSchedule(): PaymentSchedule
    {
      schedule
    }

    /** `get_payment_method`: both builders hold the paycheck. */
    function GetPaymentMethod(): PaymentMethod
    {
      HoldMethod
    }

    /**
     * The blanket `execute`: build the employee from the builders, `init`
     * the store, `add_employee` at the transaction's id, succeed.  An
     * earlier record at that id is replaced as a whole; every other id is
     * untouched.
     */
    method Execute(db: PayrollDatabase<Employee>) returns (r: Outcome)
      modifies db
      ensures r == Ok
      ensures db.IsInitialised() && db.Contains(empid)
      ensures var e := db.GetEmployee(empid);
        && e.GetName() == name
        && e.GetAddress() == address
        && fresh(e.GetClassification())
        && e.GetClassification().value == GetClassification()
        && e.GetSchedule() == schedule
        && e.GetMethod() == HoldMethod
      ensures forall k :: k != empid ==> db.Contains(k) == old(db.Contains(k))
      ensures forall k :: k != empid && old(db.Contains(k)) ==> db.GetEmployee(k) == old(db.GetEmployee(k))
    {
      var classification := new ClassificationCell(GetClassification());
      var employee := Employee(name, address, classification, GetSchedule(), GetPaymentMethod());
      db.Init();
      db.AddEmployee(empid, employee);
      r := Ok;
    }
  }

  /**
   * The salaried builder supplies a classification recognised as salaried
   * (and not as hourly) whose salary is the transaction's; the hourly
   * builder one recognised as hourly with the given rate and no cards;
   * both supply the hold method and the caller's schedule.
   */
  lemma BuildersSupplyPolicies(t: AddEmployeeTransaction)
    ensures t.AddSalariedEmployee? ==>
      && t.GetClassification().AsSalaried() == Some(SalariedClassification(t.salary))
      && t.GetClassification().AsSalaried().value.GetSalary() == t.salary
      && t.GetClassification().AsHourly() == None
    ensures t.AddHourlyEmployee? ==>
      && t.GetClassification().AsHourly() == Some(HourlyClassification(t.hourlyRate, []))
      && t.GetClassification().AsSalaried() == None
    ensures t.GetPaymentMethod() == HoldMethod
    ensures t.GetSchedule() == t.schedule
  {
  }

  /**
   * The classification a time card leaves behind: the hourly variant gets
   * the card appended, any other variant is left as it was.
   */
  function AfterTimeCard(c: Classification, card: TimeCard): Classification
  {
    match c.AsHourly()
    case Some(hc) => Hourly(hc.AddTimeCard(card))
    case None => c
  }

  /**
   * What a time card does to a classification: an hourly one keeps its rate
   * and gets the card after its earlier cards; any other is unchanged.
   */
  lemma AfterTimeCardSpec(c: Classification, card: TimeCard)
    ensures c.Hourly? ==> AfterTimeCard(c, card) == Hourly(HourlyClassification(c.hourly.rate, c.hourly.timeCards + [card]))
    ensures !c.Hourly? ==> AfterTimeCard(c, card) == c
  {
  }

  /** The classification after a series of time cards posted one by one, in order. */
  function PostTimeCards(c: Classification, cards: seq<TimeCard>): (r: Classification)
    ensures r.Hourly? <==> c.Hourly?
    ensures r.Hourly? ==> r.hourly.rate == c.hourly.rate
    ensures c.Salaried? ==> r == c
    decreases |cards|
  {
    if cards == [] then c else PostTimeCards(AfterTimeCard(c, cards[0]), cards[1..])
  }

  /**
   * Time cards accumulate: posting a series of cards to an hourly
   * classification leaves its earlier cards followed by the new ones, in
   * posting order, and the rate unchanged.
   */
  lemma {:induction false} PostTimeCardsAppendsInOrder(h: HourlyClassification, cards: seq<TimeCard>)
    ensures PostTimeCards(Hourly(h), cards) == Hourly(HourlyClassification(h.rate, h.timeCards + cards))
    decreases |cards|
  {
    if cards != [] {
      var h' := h.AddTimeCard(cards[0]);
      PostTimeCardsAppendsInOrder(h', cards[1..]);
      assert h'.timeCards + cards[1..] == h.timeCards + cards by {
        assert cards == [cards[0]] + cards[1..];
      }
    }
  }

  /**
   * Posting time cards is not idempotent: posting the same card twice to an
   * hourly classification records it twice.
   */
  lemma RepostingAppendsTwice(h: HourlyClassification, card: TimeCard)
    ensures AfterTimeCard(AfterTimeCard(Hourly(h), card), card) == Hourly(HourlyClassification(h.rate, h.timeCards + [card, card]))
  {
  }

  datatype TimeCardTransaction = TimeCardTransaction(date: Date, hours: real, empid: EmployeeId) {

    /**
     * `TimeCardTransaction::execute` as written: look the employee up
     * (panicking when the store is uninitialised or the id is absent), and
     * if its classification is hourly append the card through the shared
     * handle.  For any other classification the closure produces an error
     * that is then discarded: the result is `Ok` either way.  The store's
     * map is not touched; the change is visible through later lookups
     * because the stored employee holds the same handle.
     */
    method Execute(db: PayrollDatabase<Employee>) returns (r: Outcome)
      requires db.Contains(empid)
      modifies db.GetEmployee(empid).GetClassification()
      ensures r == Ok
      ensures unchanged(db)
      ensures db.GetEmployee(empid).GetClassification().value
        == AfterTimeCard(old(db.GetEmployee(empid).GetClassification().value), TimeCard.New(date, hours))
    {
      var employee := db.GetEmployee(empid);
      var classification := employee.GetClassification();
      var closureResult := AppendIfHourly(classification);
      r := Ok;
    }

    /**
     * `execute` with the closure's result returned instead of dropped:
     * the same change of state, and an error exactly when the employee is
     * not hourly.
     */
    method ExecuteReportingErrors(db: PayrollDatabase<Employee>) returns (r: Outcome)
      requires db.Contains(empid)
      modifies db.GetEmployee(empid).GetClassification()
      ensures r == if old(db.GetEmployee(empid).GetClassification().value).Hourly? then Ok else Err(NonHourlyError)
      ensures unchanged(db)
      ensures db.GetEmployee(empid).GetClassification().value
        == AfterTimeCard(old(db.GetEmployee(empid).GetClassification().value), TimeCard.New(date, hours))
    {
      var employee := db.GetEmployee(empid);
      var classification := employee.GetClassification();
      r := AppendIfHourly(classification);
    }

    /** The closure body: downcast to hourly and append in place, or fail. */
    method AppendIfHourly(classification: ClassificationCell) returns (r: Outcome)
      modifies classification
      ensures r == if old(classification.value).Hourly? then Ok else Err(NonHourlyError)
      ensures classification.value == AfterTimeCard(old(classification.value), TimeCard.New(date, hours))
    {
      match classification.value.AsHourly() {
        case Some(hc) =>
          classification.value := Hourly(hc.AddTimeCard(TimeCard.New(date, hours)));
          r := Ok;
        case None =>
          r := Err(NonHourlyError);
      }
    }
  }
}
