/**
 * The earlier standalone version of the store and of the salaried add
 * transaction (src/lib.rs).  Its store is the same code as the later one,
 * so it is `Database.PayrollDatabase` over this module's name-only employee.
 */
module Standalone {
  import opened Wrappers
  import opened Database

  /** The earlier employee: a name only. */
  datatype Employee = Employee(name: string) {

    /** `get_name`. */
    function GetName(): string
    {
      name
    }
  }

  /** `AddSalariedEmployee::new(empid, name, address, salary)`. */
  datatype AddSalariedEmployee = AddSalariedEmployee(empid: EmployeeId, name: string, address: string, salary: real) {

    /**
     * `execute`: `init` the store, then store an employee carrying only the
     * transaction's name at its id (address and salary are dropped), and
     * succeed.  Every other id is untouched.
     */
    method Execute(db: PayrollDatabase<Employee>) returns (r: Outcome)
      modifies db
      ensures r == Ok
      ensures db.IsInitialised() && db.Contains(empid)
      ensures db.GetEmployee(empid) == Employee(name)
      ensures forall k :: k != empid ==> db.Contains(k) == old(db.Contains(k))
      ensures forall k :: k != empid && old(db.Contains(k)) ==> db.GetEmployee(k) == old(db.GetEmployee(k))
    {
      var employee := Employee(name);
      db.Init();
      db.AddEmployee(empid, employee);
      r := Ok;
    }
  }

  /**
   * The test `create_employee`: on a fresh store, adding "Bob" at id 1
   * succeeds and the employee read back at id 1 is named "Bob".
   */
  method CreateEmployee() returns (ok: bool, name: string)
    ensures ok
    ensures name == "Bob"
  {
    var db := new PayrollDatabase<Employee>();
    var t := AddSalariedEmployee(1, "Bob", "Home", 1000.00);
    var r := t.Execute(db);
    ok := r.Ok?;
    name := db.GetEmployee(1).GetName();
  }

  /**
   * Not a test of the source: initialising repeatedly, adding one employee
   * and initialising again leaves the store holding exactly that employee.
   */
  method InitIsIdempotent() returns (stored: Option<map<EmployeeId, Employee>>)
    ensures stored == Some(map[7 := Employee("Bob")])
  {
    var db := new PayrollDatabase<Employee>();
    db.Init();
    db.Init();
    db.AddEmployee(7, Employee("Bob"));
    db.Init();
    stored := db.employees;
  }
}
