/**
 * The load record shared by MOMENTOS/f2.py and MOMENTOS/fff.py (a dict with
 * keys type, magnitude, position, start and end) and the two input checks
 * both of their `add_load` handlers apply before appending.
 */
module Loads {

  datatype Load = Load(kind: string, magnitude: real, position: real, start: real, end: real)

  /** Why `add_load` shows an error dialog instead of appending. */
  datatype Rejection = EndNotAfterStart | NonPositiveMagnitude | PositionOutsideBeam

  datatype Outcome = Accepted | Rejected(reason: Rejection)

  /**
   * The two guards common to both analysers, in source order: a distributed
   * load must end after it starts, and every load needs a positive magnitude.
   */
  function BasicCheck(kind: string, magnitude: real, start: real, end: real): (r: Outcome)
    ensures r == Accepted <==> (kind != "distributedLoad" || start < end) && magnitude > 0.0
    ensures r == Rejected(EndNotAfterStart) <==> kind == "distributedLoad" && start >= end
    ensures r != Rejected(PositionOutsideBeam)
  {
    if kind == "distributedLoad" && start >= end then Rejected(EndNotAfterStart)
    else if magnitude <= 0.0 then Rejected(NonPositiveMagnitude)
    else Accepted
  }
}
