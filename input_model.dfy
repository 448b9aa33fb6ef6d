/**
 * The simulator's input record and thrust modes (include/rvdsim/userInput.hpp).
 * `UserInput` is an immutable value: every field of the source struct is `const`, so it is a
 * datatype whose constructor stores its thirteen arguments in their namesake fields.
 */
module InputModel {
  import opened Wrappers

  /**
   * How the chaser's thruster may be used:
   *  - Off: the thruster is never fired; the chaser moves freely;
   *  - Throttle: any fraction of the maximum, unbounded if no maximum is defined;
   *  - OnOff: either nothing or the full maximum.
   */
  datatype ThrustMode = Off | Throttle | OnOff
  {
    /** The integer the source's enum assigns to the mode, in declaration order. */
    function Ordinal(): (k: nat)
      ensures k < 3
      ensures k == 0 <==> this == Off
      ensures k == 1 <==> this == Throttle
      ensures k == 2 <==> this == OnOff
    {
      match this
      case Off => 0
      case Throttle => 1
      case OnOff => 2
    }
  }

  /** The mode with a given enum value, if there is one. */
  function ModeOfOrdinal(k: int): (r: Option<ThrustMode>)
    ensures r.Some? <==> 0 <= k < 3
    ensures r.Some? ==> r.value.Ordinal() == k
  {
    if k == 0 then Some(Off)
    else if k == 1 then Some(Throttle)
    else if k == 2 then Some(OnOff)
    else None
  }

  /** Every mode is recovered from its enum value, so the numbering is one to one. */
  lemma OrdinalRoundTrip(mode: ThrustMode)
    ensures ModeOfOrdinal(mode.Ordinal()) == Some(mode)
  {
  }

  /** All inputs of one run, exactly as the validator accepted them. */
  datatype UserInput = UserInput(
    startTime: real,
    endTime: real,
    earthGravitationalParameter: real,
    targetSemiMajorAxis: real,
    chaserInitialState: seq<real>,
    thrustMode: ThrustMode,
    thrustMaximum: real,
    thrustFrequency: real,
    chaserWetMass: real,
    arrivalDistanceTolerance: real,
    outputDirectory: string,
    chaserStateHistoryFilename: string,
    chaserThrustHistoryFilename: string)
}
