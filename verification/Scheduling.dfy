/** How the methods written after the C functions meet the scheduler: a method consumes a schedule, and
    gives up when the schedule is used up before it is through. */
module Scheduling {

  /** Preempted: the schedule ended first, and the thread never got any further. */
  datatype Progress<+T> = Preempted | Went(value: T) {
    predicate IsFailure() { Preempted? }

    function PropagateFailure<U>(): Progress<U>
      requires Preempted?
    {
      Preempted
    }

    function Extract(): T
      requires Went?
    {
      value
    }
  }
}
