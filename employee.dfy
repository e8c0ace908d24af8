/**
 * The employee record (src/employee/mod.rs): identity fields plus one
 * value of each policy family.  Name and address are private and have no
 * setters; a datatype value cannot change after construction.  The
 * classification is a shared handle (`ClassificationCell`), so it is the
 * one part of an employee that can be changed in place through an alias.
 */
module Employees {
  import opened Classifications
  import opened Policies

  datatype Employee = Employee(
    name: string,
    address: string,
    classification: ClassificationCell,
    schedule: PaymentSchedule,
    paymentMethod: PaymentMethod)
  {
    /** `Employee::new`: the constructor `Employee(..)` above. */

    /** `get_name`. */
    function GetName(): string
    {
      name
    }

    /** `get_address`. */
    function GetAddress(): string
    {
      address
    }

    /** `get_classification`: a clone of the `Rc`, i.e. the very same handle, not a copy. */
    function GetClassification(): ClassificationCell
    {
      classification
    }

    /** `get_schedule`. */
    function GetSchedule(): PaymentSchedule
    {
      schedule
    }

    /** `get_method`. */
    function GetMethod(): PaymentMethod
    {
      paymentMethod
    }
  }

  /**
   * Each getter returns what was handed to the constructor; the
   * classification getter returns the identical handle, so a change made
   * through it is a change of this employee's classification.
   */
  lemma NewThenGetters(n: string, a: string, c: ClassificationCell, s: PaymentSchedule, m: PaymentMethod)
    ensures Employee(n, a, c, s, m).GetName() == n
    ensures Employee(n, a, c, s, m).GetAddress() == a
    ensures Employee(n, a, c, s, m).GetClassification() == c
    ensures Employee(n, a, c, s, m).GetSchedule() == s
    ensures Employee(n, a, c, s, m).GetMethod() == m
  {
  }
}
