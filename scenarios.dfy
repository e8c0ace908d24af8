/**
 * Client methods on a fresh store, proved from the contracts of the
 * operations alone.  They fall in two groups.
 *
 * The four tests of src/transaction/mod.rs: `EmployeeHasCorrectStats`,
 * `MonthlyEmployeeIsCreated`, `BiweeklyEmployeeIsCreated` and
 * `TimeCardTransactionTest`.  Each test runs on its own thread and so sees
 * its own fresh thread-local store; what the test asserts is what the
 * method's postcondition states.
 *
 * Further properties of the transactions that no test exercises:
 * `TimeCardForSalariedEmployee`, `RepeatedTimeCard` and `ReAddOverwrites`.
 */
module Scenarios {
  import opened Wrappers
  import opened TimeCards
  import opened Classifications
  import opened Policies
  import opened Employees
  import opened Database
  import opened Transactions

  /** The 31st of October 2001, the date of the time-card test. */
  const Halloween2001 := Date(2001, 10, 31)

  /**
   * `employee_has_correct_stats`: a salaried employee added with salary
   * 1000.00 reads back with name "Bob", address "Home", a classification
   * recognised as salaried with that salary, and the hold method.
   */
  method EmployeeHasCorrectStats() returns (ok: bool, name: string, address: string,
                                            salary: Option<SalariedClassification>, method': PaymentMethod)
    ensures ok
    ensures name == "Bob" && address == "Home"
    ensures salary.Some? && salary.value.GetSalary() == 1000.00
    ensures method' == HoldMethod
  {
    var db := new PayrollDatabase<Employee>();
    var t := AddSalariedEmployee(0, "Bob", "Home", 1000.00, MonthlySchedule);
    var r := t.Execute(db);
    ok := r.Ok?;
    var employee := db.GetEmployee(0);
    name := employee.GetName();
    address := employee.GetAddress();
    salary := employee.GetClassification().value.AsSalaried();
    method' := employee.GetMethod();
  }

  /** `monthly_employee_is_created`: the add succeeds and the stored schedule is paid "every four weeks". */
  method MonthlyEmployeeIsCreated() returns (ok: bool, cadence: string)
    ensures ok
    ensures cadence == "every four weeks"
  {
    var db := new PayrollDatabase<Employee>();
    var t := AddSalariedEmployee(1, "Bob", "Home", 1000.00, MonthlySchedule);
    var r := t.Execute(db);
    ok := r.Ok?;
    cadence := db.GetEmployee(1).GetSchedule().WhenDoIGetPaid();
  }

  /** `biweekly_employee_is_created`: the add succeeds and the stored schedule is paid "every two weeks". */
  method BiweeklyEmployeeIsCreated() returns (ok: bool, cadence: string)
    ensures ok
    ensures cadence == "every two weeks"
  {
    var db := new PayrollDatabase<Employee>();
    var t := AddSalariedEmployee(2, "Bob", "Home", 1000.00, BiWeeklySchedule);
    var r := t.Execute(db);
    ok := r.Ok?;
    cadence := db.GetEmployee(2).GetSchedule().WhenDoIGetPaid();
  }

  /**
   * `time_card_transaction`: after adding hourly employee "Bill" (rate
   * 15.25) and posting 8 hours on 2001-10-31, both transactions succeed and
   * the employee read back is hourly, at that rate, with exactly that card.
   */
  method TimeCardTransactionTest() returns (ok: bool, hourly: Option<HourlyClassification>)
    ensures ok
    ensures hourly.Some?
    ensures hourly.value.rate == 15.25
    ensures hourly.value.timeCards == [TimeCard.New(Halloween2001, 8.0)]
    ensures hourly.value.timeCards[0].GetHours() == 8.0
  {
    var db := new PayrollDatabase<Employee>();
    var add := AddHourlyEmployee(1, "Bill", "Home", 15.25, WeeklySchedule);
    var r1 := add.Execute(db);
    var tct := TimeCardTransaction(Halloween2001, 8.0, 1);
    var r2 := tct.Execute(db);
    ok := r1.Ok? && r2.Ok?;
    hourly := db.GetEmployee(1).GetClassification().value.AsHourly();
  }

  /**
   * Posting a time card for a salaried employee: as written the transaction
   * reports success; with the closure's error surfaced it reports the
   * non-hourly error.  Either way the classification stays as it was.
   */
  method TimeCardForSalariedEmployee() returns (asWritten: Outcome, reported: Outcome, after: Classification)
    ensures asWritten == Ok
    ensures reported == Err(NonHourlyError)
    ensures after == Salaried(SalariedClassification(1000.00))
  {
    var db := new PayrollDatabase<Employee>();
    var add := AddSalariedEmployee(3, "Bob", "Home", 1000.00, MonthlySchedule);
    var _ := add.Execute(db);
    var tct := TimeCardTransaction(Halloween2001, 8.0, 3);
    asWritten := tct.Execute(db);
    reported := tct.ExecuteReportingErrors(db);
    after := db.GetEmployee(3).GetClassification().value;
  }

  /** Posting the same time card twice records it twice. */
  method RepeatedTimeCard() returns (cards: seq<TimeCard>)
    ensures cards == [TimeCard.New(Halloween2001, 8.0), TimeCard.New(Halloween2001, 8.0)]
  {
    var db := new PayrollDatabase<Employee>();
    var add := AddHourlyEmployee(4, "Bill", "Home", 15.25, WeeklySchedule);
    var _ := add.Execute(db);
    var tct := TimeCardTransaction(Halloween2001, 8.0, 4);
    var _ := tct.Execute(db);
    var _ := tct.Execute(db);
    cards := db.GetEmployee(4).GetClassification().value.hourly.timeCards;
  }

  /**
   * Adding at an id that already holds a record replaces every field: no
   * trace of the earlier salaried "Bob" remains.
   */
  method ReAddOverwrites() returns (employee: Employee)
    ensures employee.GetName() == "Bill" && employee.GetAddress() == "Work"
    ensures employee.GetClassification().value == Hourly(HourlyClassification(15.25, []))
    ensures employee.GetSchedule() == WeeklySchedule && employee.GetMethod() == HoldMethod
  {
    var db := new PayrollDatabase<Employee>();
    var first := AddSalariedEmployee(5, "Bob", "Home", 1000.00, MonthlySchedule);
    var _ := first.Execute(db);
    var second := AddHourlyEmployee(5, "Bill", "Work", 15.25, WeeklySchedule);
    var _ := second.Execute(db);
    employee := db.GetEmployee(5);
  }
}
