/**
 * The list bookkeeping and the reaction estimate of `BeamAnalyzer` in
 * MOMENTOS/f2.py: guarded appends to `loads` and `supports`, deletion of the
 * selected load, and the even split of the total load between the two ends.
 */
module F2 {
  import opened Comun
  import opened Loads

  datatype Support = Support(kind: string, position: real)

  /** `(left_reaction, right_reaction)`. */
  datatype Reactions = Reactions(left: real, right: real)

  /** `add_load`'s three guards in source order; the position must lie in `[0, beamLength]`, whatever the load type. */
  function Check(kind: string, magnitude: real, position: real, start: real, end: real, beamLength: real): (r: Outcome)
    ensures r == Accepted <==> BasicCheck(kind, magnitude, start, end) == Accepted && 0.0 <= position <= beamLength
    ensures BasicCheck(kind, magnitude, start, end) != Accepted ==> r == BasicCheck(kind, magnitude, start, end)
    ensures BasicCheck(kind, magnitude, start, end) == Accepted && !(0.0 <= position <= beamLength)
            ==> r == Rejected(PositionOutsideBeam)
  {
    var basic := BasicCheck(kind, magnitude, start, end);
    if basic != Accepted then basic
    else if position < 0.0 || position > beamLength then Rejected(PositionOutsideBeam)
    else Accepted
  }

  /** `sum([load["magnitude"] for load in self.loads])`. */
  function TotalLoad(loads: seq<Load>): real
  {
    Suma(loads, (l: Load) => l.magnitude)
  }

  /** `calculate_results`: half of the total load on each end, wherever the loads are. */
  function SplitReactions(loads: seq<Load>): (r: Reactions)
    ensures r.left == r.right
    ensures r.left + r.right == TotalLoad(loads)
  {
    Reactions(TotalLoad(loads) / 2.0, TotalLoad(loads) / 2.0)
  }

  /** `del s[i]`: the other elements keep their relative order. */
  function RemoveAt<T>(s: seq<T>, i: nat): (r: seq<T>)
    requires i < |s|
    ensures |r| == |s| - 1
    ensures forall j :: 0 <= j < i ==> r[j] == s[j]
    ensures forall j :: i <= j < |r| ==> r[j] == s[j + 1]
  {
    s[..i] + s[i + 1..]
  }

  /** The reactions depend on the magnitudes only: positions, ends and types are never read. */
  lemma {:induction false} ReactionsIgnorePlacement(loads: seq<Load>, loads': seq<Load>)
    requires |loads| == |loads'|
    requires forall i :: 0 <= i < |loads| ==> loads[i].magnitude == loads'[i].magnitude
    ensures SplitReactions(loads) == SplitReactions(loads')
  {
    var f := (l: Load) => l.magnitude;
    SumaPuntoAPunto(loads, loads', f, f);
  }

  /** Deleting the load just appended restores the list. */
  lemma RemoveAfterAppend<T>(s: seq<T>, x: T)
    ensures RemoveAt(s + [x], |s|) == s
  {
    assert (s + [x])[..|s|] == s;
  }

  /** Deleting a load takes exactly its magnitude off the total. */
  lemma TotalAfterRemove(loads: seq<Load>, i: nat)
    requires i < |loads|
    ensures TotalLoad(RemoveAt(loads, i)) == TotalLoad(loads) - loads[i].magnitude
  {
    var f := (l: Load) => l.magnitude;
    assert loads == loads[..i] + [loads[i]] + loads[i + 1..];
    SumaConcat(loads[..i] + [loads[i]], loads[i + 1..], f);
    SumaAgregar(loads[..i], loads[i], f);
    SumaConcat(loads[..i], loads[i + 1..], f);
  }

  /** Adding a load and then deleting it gives back the reactions of before. */
  lemma ReactionsAfterAddAndRemove(loads: seq<Load>, x: Load)
    ensures SplitReactions(RemoveAt(loads + [x], |loads|)) == SplitReactions(loads)
  {
    RemoveAfterAppend(loads, x);
  }

  /** The analyser window's model state. */
  class BeamAnalyzer {
    var beamLength: real
    var loads: seq<Load>
    var supports: seq<Support>

    constructor (beamLength: real)
      ensures this.beamLength == beamLength && loads == [] && supports == []
    {
      this.beamLength := beamLength;
      loads := [];
      supports := [];
    }

    method AddLoad(kind: string, magnitude: real, position: real, start: real, end: real) returns (outcome: Outcome)
      modifies this
      ensures outcome == Check(kind, magnitude, position, start, end, beamLength)
      ensures loads == old(loads) + (if outcome == Accepted then [Load(kind, magnitude, position, start, end)] else [])
      ensures supports == old(supports) && beamLength == old(beamLength)
    {
      if kind == "distributedLoad" && start >= end {
        return Rejected(EndNotAfterStart);
      }
      if magnitude <= 0.0 {
        return Rejected(NonPositiveMagnitude);
      }
      if position < 0.0 || position > beamLength {
        return Rejected(PositionOutsideBeam);
      }
      loads := loads + [Load(kind, magnitude, position, start, end)];
      outcome := Accepted;
    }

    /**
     * `remove_load` with `selection` the list box's `curselection()`: no
     * selection, or an index past the end, is the IndexError that shows an
     * error dialog.
     */
    method RemoveLoad(selection: seq<nat>) returns (removed: bool)
      modifies this
      ensures removed <==> |selection| > 0 && selection[0] < |old(loads)|
      ensures loads == if removed then RemoveAt(old(loads), selection[0]) else old(loads)
      ensures supports == old(supports) && beamLength == old(beamLength)
    {
      if |selection| == 0 {
        return false;
      }
      var i := selection[0];
      if i >= |loads| {
        return false;
      }
      loads := loads[..i] + loads[i + 1..];
      removed := true;
    }

    method AddSupport(kind: string, position: real) returns (accepted: bool)
      modifies this
      ensures accepted <==> 0.0 <= position <= beamLength
      ensures supports == old(supports) + (if accepted then [Support(kind, position)] else [])
      ensures loads == old(loads) && beamLength == old(beamLength)
    {
      if position < 0.0 || position > beamLength {
        return false;
      }
      supports := supports + [Support(kind, position)];
      accepted := true;
    }

    method CalculateResults() returns (r: Reactions)
      ensures r == SplitReactions(loads)
    {
      r := SplitReactions(loads);
    }
  }
}
