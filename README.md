# Payroll store and transactions

A model of the core of a small payroll system: an in-memory store of
employee records that changes only through transactions.

- **Employee data** (`timecard.dfy`, `classification.dfy`, `policies.dfy`,
  `employee.dfy`). An employee has a name and an address. It also has a
  pay classification, a pay schedule and a payment method.
  - A classification is salaried (a fixed salary) or hourly (a rate plus
    the time cards posted so far, in posting order).
  - The employee holds its classification through a shared handle, the
    class `ClassificationCell`. This stands for the source's
    `Rc<RefCell<..>>`.
  - Schedules are weekly, bi-weekly or monthly. Each one describes its
    cadence. Monthly is described as "every four weeks", as the tests
    expect. The only payment method is holding the paycheck.
- **The store** (`database.dfy`). `PayrollDatabase` is `None` until `Init`
  creates its map, and `Init` is idempotent.
  - `AddEmployee` inserts or overwrites one id. It needs an initialised
    store.
  - `GetEmployee` only reads. It needs an initialised store that holds
    the id.
  - In the source, breaking either of these requirements is a panic.
    Here each one is a precondition.
  - The older copy in `src/lib.rs` is the same code over a name-only
    employee, so the class takes the employee type as a parameter.
- **Transactions** (`transaction.dfy`, `standalone.dfy`).
  - Adding a salaried or an hourly employee goes through one shared
    `Execute`. It builds the employee, initialises the store and adds the
    employee at the id.
  - Posting a time card looks up the employee. If the employee is hourly,
    the card is appended through the shared handle, so later lookups see
    it. For any other employee, the error the source builds is dropped,
    and the transaction still reports success.
  - `standalone.dfy` models the earlier transaction of `src/lib.rs`, which
    stores only the name.
- **Client methods** (`scenarios.dfy`, `standalone.dfy`). Each runs on a
  fresh store, and they fall in two groups.
  - The source's five tests: `Scenarios.EmployeeHasCorrectStats`,
    `Scenarios.MonthlyEmployeeIsCreated`,
    `Scenarios.BiweeklyEmployeeIsCreated` and
    `Scenarios.TimeCardTransactionTest` for `src/transaction/mod.rs`, and
    `Standalone.CreateEmployee` for `src/lib.rs`. Each postcondition is
    what the test asserts.
  - Further properties that no test exercises:
    `Scenarios.TimeCardForSalariedEmployee`, `Scenarios.RepeatedTimeCard`,
    `Scenarios.ReAddOverwrites` and `Standalone.InitIsIdempotent`.

The thread-local global store is an explicit `db` parameter of every
`Execute`.

Two points where the model departs from the obvious reading:
- For a time card posted to a non-hourly employee, the code builds an
  error meant for the caller and then drops it. The model follows the
  code, and "## Findings" records the difference.
- At this revision `src/employee/mod.rs` declares a three-field `Employee`. The
  transaction code builds and reads a five-field one (name, address,
  classification, schedule, method). The model uses the five-field shape.

## Model

| member | source | states |
|---|---|---|
| `TimeCards.NewThenGetHours` | src/employee/timecard.rs:10-19 | a card built from a date and hours reports those hours and stores that date unchanged |
| `TimeCards.NewIsInjective` | src/employee/timecard.rs:3-14 | a card is a plain value: two cards are equal exactly when their dates and hours are |
| `Classifications.SalariedNewGetSalary` | src/employee/classification.rs:12-17 | `get_salary` of a new salaried classification is the value it was built with |
| `Classifications.HourlyNewIsEmpty` | src/transaction/mod.rs:154-156 | a new hourly classification has the given rate and no time cards |
| `Classifications.AddTimeCardAppends` | src/transaction/mod.rs:191 | adding a card keeps the rate and every earlier card in place and puts the new card last |
| `Classifications.DowncastRecognisesVariant` | src/employee/classification.rs:21-24 | each downcast succeeds exactly on its own variant and returns its value; a salaried classification is never recognised as hourly |
| `Classifications.ClassificationCell.constructor` | src/transaction/mod.rs:101-103 | the new shared handle holds the classification it was given |
| `Policies.CadenceDeterminesSchedule` | src/transaction/mod.rs:237-248 | the monthly schedule is paid "every four weeks" and the bi-weekly one "every two weeks"; two schedules have the same cadence label exactly when they are the same schedule |
| `Employees.NewThenGetters` | src/employee/mod.rs:14-32 | every getter returns what the constructor was given; the classification getter returns the identical handle, not a copy |
| `Database.PayrollDatabase.constructor` | src/database/mod.rs:11-13 | a new store is uninitialised |
| `Database.PayrollDatabase.Init` | src/database/mod.rs:15-22 | afterwards the store is initialised; an uninitialised store gets an empty map; an initialised one is left exactly as it was |
| `Database.PayrollDatabase.AddEmployee` | src/database/mod.rs:24-29 | needs an initialised store; afterwards `GetEmployee(id)` is the given employee, overwriting any earlier one, and every other id keeps its presence and its entry |
| `Database.PayrollDatabase.GetEmployee` | src/database/mod.rs:31-36 | needs an initialised store holding the id; only reads the store; returns one of the stored employees |
| `Transactions.AddEmployeeTransaction.Execute` | src/transaction/mod.rs:38-55 | returns Ok; afterwards the store is initialised and the record at the id has the transaction's name, address, schedule and the hold method, plus a freshly allocated classification handle holding the builder's classification; other ids are untouched |
| `Transactions.BuildersSupplyPolicies` | src/transaction/mod.rs:80-161 | the salaried builder supplies a classification recognised as salaried, with salary `its_salary`, and not as hourly; the hourly builder supplies one recognised as hourly with the given rate and no cards; both supply the hold method and the caller's schedule |
| `Transactions.AfterTimeCardSpec` | src/transaction/mod.rs:189-193 | a time card leaves an hourly classification with its rate and its earlier cards followed by the new card, and leaves any other classification unchanged |
| `Transactions.PostTimeCards` | src/transaction/mod.rs:185-193 | posting a series of cards keeps the classification's variant and an hourly rate, and leaves a salaried classification unchanged |
| `Transactions.PostTimeCardsAppendsInOrder` | src/transaction/mod.rs:185-191 | posting a series of cards to an hourly classification leaves its earlier cards followed by the new ones in posting order |
| `Transactions.RepostingAppendsTwice` | src/transaction/mod.rs:185-191 | posting the same card twice records it twice (the transaction is not idempotent) |
| `Transactions.TimeCardTransaction.Execute` | src/transaction/mod.rs:181-198 | needs the id to be in an initialised store; returns Ok whatever the classification; does not change the store; the employee's shared classification becomes the old one with the card appended if it was hourly, and is unchanged otherwise |
| `Transactions.TimeCardTransaction.ExecuteReportingErrors` | src/transaction/mod.rs:188-194 | the same change of state as `Execute`, but returns the non-hourly error exactly when the employee is not hourly |
| `Transactions.TimeCardTransaction.AppendIfHourly` | src/transaction/mod.rs:188-193 | through the handle: an hourly classification gets the card appended and Ok; any other stays unchanged and yields the error "Tried to add timecard to non-hourly employee" |
| `Standalone.AddSalariedEmployee.Execute` | src/lib.rs:86-97 | returns Ok; afterwards the store is initialised and holds at the id an employee carrying only the transaction's name; other ids are untouched |
| `Standalone.CreateEmployee` | src/lib.rs:108-119 | on a fresh store, adding "Bob" at id 1 succeeds and the name read back at id 1 is "Bob" |
| `Standalone.InitIsIdempotent` | src/lib.rs:27-41 | calling init twice, adding one employee, then calling init again leaves exactly that employee in the store |
| `Scenarios.EmployeeHasCorrectStats` | src/transaction/mod.rs:211-228 | the salaried employee read back has name "Bob", address "Home", a salaried classification with salary 1000.00 and the hold method |
| `Scenarios.MonthlyEmployeeIsCreated` | src/transaction/mod.rs:230-239 | adding an employee with the monthly schedule succeeds, and the employee is paid "every four weeks" |
| `Scenarios.BiweeklyEmployeeIsCreated` | src/transaction/mod.rs:241-250 | adding an employee with the bi-weekly schedule succeeds, and the employee is paid "every two weeks" |
| `Scenarios.TimeCardTransactionTest` | src/transaction/mod.rs:252-275 | after adding hourly "Bill" and posting 8 hours on 2001-10-31, both succeed and the employee read back is hourly at rate 15.25 with exactly that card, of 8.0 hours |
| `Scenarios.TimeCardForSalariedEmployee` | src/transaction/mod.rs:189-197 | for a salaried employee the transaction as written returns Ok, the error-reporting version returns the non-hourly error, and the classification is left unchanged |
| `Scenarios.RepeatedTimeCard` | src/transaction/mod.rs:185-191 | posting the same time card twice leaves two copies of it on the employee |
| `Scenarios.ReAddOverwrites` | src/database/mod.rs:24-29 | adding at an id that already holds a record replaces every field: name, address, classification, schedule and method |

## Left out

- The thread-local global store is not modelled. Each `Execute` takes the store as a parameter, and each test uses a fresh store, as each Rust test thread does.
- `Rc`/`RefCell` run-time borrow tracking is not modelled, so a `BorrowMutError` panic cannot occur. Aliasing is modelled by the `ClassificationCell` reference.
- `std::any::Any` downcasting is replaced by `AsSalaried`/`AsHourly` on a closed sum type.
- chrono's `Date<Local>` is a (year, month, day) triple that is only built and compared for equality. Calendar validity is not modelled.
- f32 salaries, rates and hours are `real`. They are only stored and compared, never computed on.
- `HashMap` hashing and iteration order are not modelled. The map is a Dafny `map` keyed by a 32-bit `EmployeeId`.
- The `failure` crate's `Error` and `bail!` are not modelled. The outcome is `Outcome = Ok | Err(message)`.
- `HourlyClassification` (`new`, `add_time_card`, `get_time_card`), `BiWeeklySchedule`, `WeeklySchedule` and `when_do_i_get_paid` are used by `src/transaction/mod.rs` but defined outside the files modelled here.
  - They are modelled only as far as the transactions and tests use them.
  - `get_time_card` is not modelled. The time-card test's read-back is stated on the classification's card list instead.
  - The weekly label "every week" is assumed. No test asserts it.
- `Database.PayrollDatabase.GetEmployee` states only that its result is one of the stored employees. Its partner property is stated in the contract of `AddEmployee`: a lookup right after an add returns the added employee.
- The getters `employee_id`, `employee_name` and `employee_address`, and the `new` functions of the transaction builders, are not separate members. They are the fields and constructors of the transaction datatypes.

## Findings

| source | as written | input that shows it | evidently intended | confidence | as-written member | corrected member |
|---|---|---|---|---|---|---|
| src/transaction/mod.rs:192-197 | the closure's `bail!` error is discarded and `execute` returns `Ok(())` | a time card for an id added by `AddSalariedEmployee` (`Scenarios.TimeCardForSalariedEmployee`) returns Ok | `execute` returns the error "Tried to add timecard to non-hourly employee" | high; not executed | `Transactions.TimeCardTransaction.Execute` | `Transactions.TimeCardTransaction.ExecuteReportingErrors` |
