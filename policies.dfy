/**
 * Payment schedules and payment methods (src/employee/schedule.rs,
 * src/employee/method.rs): stateless marker values, so enumerations.
 */
module Policies {

  /** How often an employee is paid. */
  datatype PaymentSchedule = WeeklySchedule | BiWeeklySchedule | MonthlySchedule {

    /** `when_do_i_get_paid`: the human-readable cadence. "Monthly" is labelled "every four weeks". */
    function WhenDoIGetPaid(): string
    {
      match this
      case WeeklySchedule => "every week"
      case BiWeeklySchedule => "every two weeks"
      case MonthlySchedule => "every four weeks"
    }
  }

  /** How an employee receives payment; only holding the paycheck exists. */
  datatype PaymentMethod = HoldMethod

  /**
   * A monthly schedule is paid "every four weeks" and a bi-weekly one
   * "every two weeks"; and the cadence label identifies the schedule: no two
   * schedules share a label.
   */
  lemma CadenceDeterminesSchedule(s: PaymentSchedule, s': PaymentSchedule)
    ensures MonthlySchedule.WhenDoIGetPaid() == "every four weeks"
    ensures BiWeeklySchedule.WhenDoIGetPaid() == "every two weeks"
    ensures s.WhenDoIGetPaid() == s'.WhenDoIGetPaid() <==> s == s'
  {
  }
}
