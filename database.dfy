/**
 * The payroll store (src/database/mod.rs; src/lib.rs lines 17-49 hold an
 * identical earlier copy over a name-only employee, hence the type
 * parameter).  The store is `None` until `Init` creates the map; using it
 * before that, or looking up an absent id, is a fatal programming error in
 * the source, so those cases are preconditions here.
 */
module Database {
  import opened Wrappers

  /** Employee ids are unsigned 32-bit integers. */
  newtype EmployeeId = x: int | 0 <= x < 0x1_0000_0000

  class PayrollDatabase<E> {
    var employees: Option<map<EmployeeId, E>>

    /** `PayrollDatabase::new`: an uninitialised store. */
    constructor ()
      ensures employees == None
      ensures !IsInitialised()
    {
      employees := None;
    }

    /** The map has been created by `Init`. */
    predicate IsInitialised()
      reads this
    {
      employees.Some?
    }

    /** `GetEmployee(id)` would succeed. */
    predicate Contains(id: EmployeeId)
      reads this
    {
      employees.Some? && id in employees.value
    }

    /**
     * `init`: creates an empty map when there is none; on an initialised
     * store it changes nothing, so it is idempotent and never clears entries.
     */
    method Init()
      modifies this
      ensures IsInitialised()
      ensures old(employees).None? ==> employees == Some(map[])
      ensures old(employees).Some? ==> employees == old(employees)
    {
      match employees {
        case None =>
          employees := Some(map[]);
        case Some(_) =>
      }
    }

    /**
     * `add_employee`: inserts, or overwrites whatever was stored at `id`;
     * every other id keeps its entry or its absence.  Panics when the store
     * is uninitialised.
     */
    method AddEmployee(id: EmployeeId, employee: E)
      requires IsInitialised()
      modifies this
      ensures IsInitialised()
      ensures employees.value == old(employees.value)[id := employee]
      ensures Contains(id) && GetEmployee(id) == employee
      ensures forall k :: k != id ==> Contains(k) == old(Contains(k))
      ensures forall k :: k != id && old(Contains(k)) ==> GetEmployee(k) == old(GetEmployee(k))
    {
      employees := Some(employees.value[id := employee]);
    }

    /**
     * `get_employee`: the entry stored at `id`.  Panics when the store is
     * uninitialised or has no such id; it only reads the store.
     */
    function GetEmployee(id: EmployeeId): (e: E)
      reads this
      requires Contains(id)
      ensures exists k :: k in employees.value && employees.value[k] == e
    {
      employees.value[id]
    }
  }
}
