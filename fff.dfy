/**
 * `BeamAnalyzer` of MOMENTOS/fff.py: the same load record and the same two
 * guards as MOMENTOS/f2.py, but no position check, and a results button
 * that computes nothing.
 */
module Fff {
  import opened Loads
  import F2

  class BeamAnalyzer {
    var beamLength: real
    var loads: seq<Load>

    constructor (beamLength: real)
      ensures this.beamLength == beamLength && loads == []
    {
      this.beamLength := beamLength;
      loads := [];
    }

    method AddLoad(kind: string, magnitude: real, position: real, start: real, end: real) returns (outcome: Outcome)
      modifies this
      ensures outcome == BasicCheck(kind, magnitude, start, end)
      ensures loads == old(loads) + (if outcome == Accepted then [Load(kind, magnitude, position, start, end)] else [])
      ensures beamLength == old(beamLength)
    {
      if kind == "distributedLoad" && start >= end {
        return Rejected(EndNotAfterStart);
      }
      if magnitude <= 0.0 {
        return Rejected(NonPositiveMagnitude);
      }
      loads := loads + [Load(kind, magnitude, position, start, end)];
      outcome := Accepted;
    }

    /** `calculate_results` only shows a fixed confirmation; it reads and changes nothing. */
    method CalculateResults() returns (message: string)
      ensures message == "Los cálculos estructurales se han realizado correctamente."
    {
      message := "Los cálculos estructurales se han realizado correctamente.";
    }
  }

  /** Every load f2 accepts, fff accepts too. */
  lemma F2IsStricter(kind: string, magnitude: real, position: real, start: real, end: real, beamLength: real)
    ensures F2.Check(kind, magnitude, position, start, end, beamLength) == Accepted
        ==> BasicCheck(kind, magnitude, start, end) == Accepted
  {
  }

  /** fff accepts a load at any position, f2 only inside the beam: `-1` on a 7 m beam tells them apart. */
  lemma PositionOnlyCheckedByF2()
    ensures BasicCheck("pointLoad", 1000.0, 1.0, 4.0) == Accepted
    ensures F2.Check("pointLoad", 1000.0, -1.0, 1.0, 4.0, 7.0) == Rejected(PositionOutsideBeam)
  {
  }
}
