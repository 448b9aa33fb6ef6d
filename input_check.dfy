/**
 * The input validator `checkInput` (src/userInput.cpp).  The parsed JSON document is a map
 * from option names to JSON values; the bare `throw;` that ends the program on bad input is a
 * `Failure` carrying the reason.
 */
module InputCheck {
  import opened Wrappers
  import opened InputModel

  /** The JSON values the validator reads: numbers, strings and arrays of values. */
  datatype Json = Number(num: real) | Text(str: string) | Array(items: seq<Json>)

  /** The top-level object of the configuration file. */
  type Config = map<string, Json>

  /** Why a configuration is refused. */
  datatype InputError =
    | MissingOption(key: string)
    | InvalidThrustMode(mode: string)
    | NegativeThrustMaximum(maximum: real)
    | NonPositiveThrustFrequency(frequency: real)

  const PropagationSettings: string := "propagation_settings"
  const EarthGravitationalParameter: string := "earth_gravitational_parameter"
  const TargetSemiMajorAxis: string := "target_semi_major_axis"
  const ChaserInitialState: string := "chaser_initial_state"
  const ChaserThrustSettings: string := "chaser_thrust_settings"
  const ChaserWetMass: string := "chaser_wet_mass"
  const ArrivalDistanceTolerance: string := "arrival_distance_tolerance"
  const OutputDirectory: string := "output_directory"
  const ChaserStateHistoryFilename: string := "chaser_state_history_filename"
  const ChaserThrustHistoryFilename: string := "chaser_thrust_history_filename"

  /** The required options, in the order the validator looks them up. */
  const RequiredOptions: seq<string> :=
    [PropagationSettings, EarthGravitationalParameter, TargetSemiMajorAxis, ChaserInitialState,
     ChaserThrustSettings, ChaserWetMass, ArrivalDistanceTolerance, OutputDirectory,
     ChaserStateHistoryFilename, ChaserThrustHistoryFilename]

  /** The position of the thrust settings in `RequiredOptions`; their range checks run right after it. */
  const ThrustSettingsIndex: nat := 4

  /** The machine epsilon of an IEEE-754 double, 2^-52. */
  const Epsilon: real := 1.0 / 4503599627370496.0

  /** The spelling of each mode in the configuration file. */
  function ModeName(mode: ThrustMode): string
  {
    match mode
    case Off => "off"
    case Throttle => "throttle"
    case OnOff => "on_off"
  }

  /** The mode a configuration string names; exact, case-sensitive comparison. */
  function ParseThrustMode(s: string): (r: Option<ThrustMode>)
    ensures r.Some? ==> ModeName(r.value) == s
    ensures r.None? ==> forall mode: ThrustMode :: ModeName(mode) != s
  {
    if s == "off" then Some(Off)
    else if s == "throttle" then Some(Throttle)
    else if s == "on_off" then Some(OnOff)
    else None
  }

  /** Every mode survives being written out and read back. */
  lemma ModeNameRoundTrip(mode: ThrustMode)
    ensures ParseThrustMode(ModeName(mode)) == Some(mode)
  {
  }

  /** `j` is an array whose entry `i` is a number. */
  predicate NumberAt(j: Json, i: nat)
  {
    j.Array? && i < |j.items| && j.items[i].Number?
  }

  /**
   * The thrust settings hold the mode string at [0], and the maximum and the frequency at [1]
   * and [2] as far as the validator gets to read them.
   */
  predicate ThrustSettingsReadable(j: Json)
  {
    j.Array? && 1 <= |j.items| && j.items[0].Text?
    && (ParseThrustMode(j.items[0].str).Some? ==>
          NumberAt(j, 1) && (0.0 <= j.items[1].num ==> NumberAt(j, 2)))
  }

  /** The range checks on the thrust settings, in the order the validator makes them. */
  function ThrustSettingsError(j: Json): Option<InputError>
    requires ThrustSettingsReadable(j)
  {
    var mode := j.items[0].str;
    if ParseThrustMode(mode).None? then Some(InvalidThrustMode(mode))
    else if j.items[1].num < 0.0 then Some(NegativeThrustMaximum(j.items[1].num))
    else if j.items[2].num < Epsilon then Some(NonPositiveThrustFrequency(j.items[2].num))
    else None
  }

  /** The shape the value of the `i`-th required option must have for the validator to read it. */
  predicate Shaped(i: nat, j: Json)
  {
    if i == 0 then NumberAt(j, 0) && NumberAt(j, 1)
    else if i == 3 then j.Array? && 6 <= |j.items| && forall k | 0 <= k < 6 :: j.items[k].Number?
    else if i == ThrustSettingsIndex then ThrustSettingsReadable(j)
    else if i == 1 || i == 2 || i == 5 || i == 6 then j.Number?
    else j.Text?
  }

  /** The thrust settings are present, readable and pass their range checks. */
  predicate ThrustSettingsAccepted(c: Config)
  {
    ChaserThrustSettings in c && ThrustSettingsReadable(c[ChaserThrustSettings])
    && ThrustSettingsError(c[ChaserThrustSettings]).None?
  }

  /** The validator gets as far as looking up the `i`-th required option. */
  predicate Reaches(c: Config, i: nat)
  {
    (forall k | 0 <= k < i && k < |RequiredOptions| :: RequiredOptions[k] in c)
    && (ThrustSettingsIndex < i ==> ThrustSettingsAccepted(c))
  }

  /**
   * Every value the validator reads has the type it reads it as.  A value the validator never
   * reaches, because it stops at an earlier failure, may have any type.
   */
  predicate Readable(c: Config)
  {
    forall i | 0 <= i < |RequiredOptions| ::
      Reaches(c, i) && RequiredOptions[i] in c ==> Shaped(i, c[RequiredOptions[i]])
  }

  /** All required options are present. */
  predicate Complete(c: Config)
  {
    forall k | 0 <= k < |RequiredOptions| :: RequiredOptions[k] in c
  }

  /** The position of the first key of `keys` that `c` lacks. */
  function FirstMissing(c: Config, keys: seq<string>): (r: Option<nat>)
    ensures r.None? <==> forall k | 0 <= k < |keys| :: keys[k] in c
    ensures r.Some? ==> r.value < |keys| && keys[r.value] !in c
                        && forall k | 0 <= k < r.value :: keys[k] in c
  {
    if |keys| == 0 then None
    else if keys[0] !in c then Some(0)
    else match FirstMissing(c, keys[1..])
      case None => None
      case Some(i) => Some(i + 1)
  }

  /**
   * The outcome of validating `c`: the first missing option among those up to the thrust
   * settings, else the first failed thrust check, else the first missing later option, else
   * the record of the values read.
   */
  function Validate(c: Config): (r: Result<UserInput, InputError>)
    requires Readable(c)
    ensures r.Success? ==> 0.0 <= r.value.thrustMaximum && Epsilon <= r.value.thrustFrequency
    ensures r.Success? ==> |r.value.chaserInitialState| == 6
  {
    var head, tail := RequiredOptions[..ThrustSettingsIndex + 1], RequiredOptions[ThrustSettingsIndex + 1..];
    match FirstMissing(c, head)
    case Some(i) => Failure(MissingOption(head[i]))
    case None =>
      assert Reaches(c, ThrustSettingsIndex) && RequiredOptions[ThrustSettingsIndex] == head[ThrustSettingsIndex];
      var thrust := c[ChaserThrustSettings];
      match ThrustSettingsError(thrust)
      case Some(e) => Failure(e)
      case None =>
        match FirstMissing(c, tail)
        case Some(i) => Failure(MissingOption(tail[i]))
        case None =>
          assert Complete(c) by {
            forall k | 0 <= k < |RequiredOptions| ensures RequiredOptions[k] in c {
              if k <= ThrustSettingsIndex { assert head[k] == RequiredOptions[k]; }
              else { assert tail[k - ThrustSettingsIndex - 1] == RequiredOptions[k]; }
            }
          }
          ReadableWhenComplete(c);
          Success(InputOf(c))
  }

  /** Once every option is present and the thrust settings pass, every option is well-typed. */
  lemma ReadableWhenComplete(c: Config)
    requires Readable(c) && Complete(c) && ThrustSettingsAccepted(c)
    ensures forall i | 0 <= i < |RequiredOptions| :: Shaped(i, c[RequiredOptions[i]])
  {
    forall i | 0 <= i < |RequiredOptions| ensures Shaped(i, c[RequiredOptions[i]]) {
      assert Reaches(c, i);
    }
  }

  /** The six numbers of the initial-state option. */
  function InitialStateOf(j: Json): (r: seq<real>)
    requires j.Array? && 6 <= |j.items| && forall k | 0 <= k < 6 :: j.items[k].Number?
    ensures |r| == 6 && forall k | 0 <= k < 6 :: r[k] == j.items[k].num
  {
    seq(6, k requires 0 <= k < 6 => j.items[k].num)
  }

  /** The record built from a complete, well-typed configuration. */
  function InputOf(c: Config): UserInput
    requires Complete(c) && ThrustSettingsAccepted(c)
    requires forall i | 0 <= i < |RequiredOptions| :: Shaped(i, c[RequiredOptions[i]])
  {
    assert Shaped(0, c[RequiredOptions[0]]) && Shaped(1, c[RequiredOptions[1]]);
    assert Shaped(2, c[RequiredOptions[2]]) && Shaped(3, c[RequiredOptions[3]]);
    assert Shaped(5, c[RequiredOptions[5]]) && Shaped(6, c[RequiredOptions[6]]);
    assert Shaped(7, c[RequiredOptions[7]]) && Shaped(8, c[RequiredOptions[8]]);
    assert Shaped(9, c[RequiredOptions[9]]);
    var propagation, state, thrust := c[PropagationSettings], c[ChaserInitialState], c[ChaserThrustSettings];
    UserInput(
      propagation.items[0].num,
      propagation.items[1].num,
      c[EarthGravitationalParameter].num,
      c[TargetSemiMajorAxis].num,
      InitialStateOf(state),
      ParseThrustMode(thrust.items[0].str).value,
      thrust.items[1].num,
      thrust.items[2].num,
      c[ChaserWetMass].num,
      c[ArrivalDistanceTolerance].num,
      c[OutputDirectory].str,
      c[ChaserStateHistoryFilename].str,
      c[ChaserThrustHistoryFilename].str)
  }

  /** The copy loop of src/userInput.cpp:73-77, into a fresh six-vector. */
  method ReadInitialState(value: Json) returns (state: seq<real>)
    requires value.Array? && 6 <= |value.items| && forall k | 0 <= k < 6 :: value.items[k].Number?
    ensures state == InitialStateOf(value)
  {
    var buffer := new real[6];
    for i := 0 to 6
      invariant forall k | 0 <= k < i :: buffer[k] == value.items[k].num
    {
      buffer[i] := value.items[i].num;
    }
    state := buffer[..];
  }

  /**
   * The thrust settings as src/userInput.cpp:96-147 reads them: the mode string compared with
   * each spelling, then the maximum, then the frequency, each with its own failure.
   */
  method ReadThrustSettings(settings: Json) returns (r: Result<(ThrustMode, real, real), InputError>)
    requires ThrustSettingsReadable(settings)
    ensures r.Failure? <==> ThrustSettingsError(settings).Some?
    ensures r.Failure? ==> r.error == ThrustSettingsError(settings).value
    ensures r.Success? ==> r.value == (ParseThrustMode(settings.items[0].str).value,
                                       settings.items[1].num, settings.items[2].num)
  {
    var modeString := settings.items[0].str;
    var mode: ThrustMode;
    if modeString == "off" {
      mode := Off;
    } else if modeString == "throttle" {
      mode := Throttle;
    } else if modeString == "on_off" {
      mode := OnOff;
    } else {
      return Failure(InvalidThrustMode(modeString));
    }
    var thrustMaximum := settings.items[1].num;
    if thrustMaximum < 0.0 {
      return Failure(NegativeThrustMaximum(thrustMaximum));
    }
    var thrustFrequency := settings.items[2].num;
    if thrustFrequency < Epsilon {
      return Failure(NonPositiveThrustFrequency(thrustFrequency));
    }
    r := Success((mode, thrustMaximum, thrustFrequency));
  }

  /**
   * The validator as the source runs it: one lookup after another with an early failure,
   * and a loop copying the six initial-state numbers into a fresh vector.
   */
  method CheckInput(c: Config) returns (r: Result<UserInput, InputError>)
    requires Readable(c)
    ensures r == Validate(c)
  {
    var propagation := FindOption(c, 0);
    if propagation.Failure? { return Failure(propagation.error); }
    var startTime := propagation.value.items[0].num;
    var endTime := propagation.value.items[1].num;

    var gravitationalParameter := FindOption(c, 1);
    if gravitationalParameter.Failure? { return Failure(gravitationalParameter.error); }
    var mu := gravitationalParameter.value.num;

    var targetSemiMajorAxis := FindOption(c, 2);
    if targetSemiMajorAxis.Failure? { return Failure(targetSemiMajorAxis.error); }
    var semiMajorAxis := targetSemiMajorAxis.value.num;

    var chaserInitialState := FindOption(c, 3);
    if chaserInitialState.Failure? { return Failure(chaserInitialState.error); }
    var initialState := ReadInitialState(chaserInitialState.value);

    var thrustSettings := FindOption(c, ThrustSettingsIndex);
    if thrustSettings.Failure? { return Failure(thrustSettings.error); }
    ThrustSettingsFound(c);
    var settings := ReadThrustSettings(thrustSettings.value);
    if settings.Failure? { return Failure(settings.error); }
    var (mode, thrustMaximum, thrustFrequency) := settings.value;

    var chaserWetMass := FindOption(c, 5);
    if chaserWetMass.Failure? { return Failure(chaserWetMass.error); }
    var wetMass := chaserWetMass.value.num;

    var arrivalDistanceTolerance := FindOption(c, 6);
    if arrivalDistanceTolerance.Failure? { return Failure(arrivalDistanceTolerance.error); }
    var tolerance := arrivalDistanceTolerance.value.num;

    var outputDirectoryOption := FindOption(c, 7);
    if outputDirectoryOption.Failure? { return Failure(outputDirectoryOption.error); }
    var outputDirectory := outputDirectoryOption.value.str;

    var stateHistoryFilename := FindOption(c, 8);
    if stateHistoryFilename.Failure? { return Failure(stateHistoryFilename.error); }
    var stateFile := stateHistoryFilename.value.str;

    var thrustHistoryFilename := FindOption(c, 9);
    if thrustHistoryFilename.Failure? { return Failure(thrustHistoryFilename.error); }
    var thrustFile := thrustHistoryFilename.value.str;

    CompleteConfigAccepted(c);
    r := Success(UserInput(startTime, endTime, mu, semiMajorAxis, initialState, mode,
                           thrustMaximum, thrustFrequency, wetMass, tolerance,
                           outputDirectory, stateFile, thrustFile));
  }

  /**
   * One lookup of the validator: the value of the `i`-th required option, or the failure that
   * ends validation when the option is missing.  A found value has the shape the validator
   * reads it as, and an option other than the thrust settings lets validation go on.
   */
  method FindOption(c: Config, i: nat) returns (r: Result<Json, InputError>)
    requires Readable(c) && i < |RequiredOptions| && Reaches(c, i)
    ensures r.Failure? <==> RequiredOptions[i] !in c
    ensures r.Failure? ==> r.error == MissingOption(RequiredOptions[i]) && Validate(c) == Failure(r.error)
    ensures r.Success? ==> r.value == c[RequiredOptions[i]] && Shaped(i, r.value)
    ensures r.Success? && i != ThrustSettingsIndex ==> Reaches(c, i + 1)
  {
    var key := RequiredOptions[i];
    if key !in c {
      MissingOptionReported(c, i);
      return Failure(MissingOption(key));
    }
    r := Success(c[key]);
  }

  /**
   * Finding the thrust settings lets the validator read them; it goes on only if they pass
   * their range checks, and otherwise reports the first failed check.
   */
  lemma ThrustSettingsFound(c: Config)
    requires Readable(c) && Reaches(c, ThrustSettingsIndex) && ChaserThrustSettings in c
    ensures ThrustSettingsReadable(c[ChaserThrustSettings])
    ensures ThrustSettingsError(c[ChaserThrustSettings]).None? ==> Reaches(c, ThrustSettingsIndex + 1)
    ensures ThrustSettingsError(c[ChaserThrustSettings]).Some? ==>
              Validate(c) == Failure(ThrustSettingsError(c[ChaserThrustSettings]).value)
  {
    assert Shaped(ThrustSettingsIndex, c[RequiredOptions[ThrustSettingsIndex]]);
    var head := RequiredOptions[..ThrustSettingsIndex + 1];
    assert forall k | 0 <= k < |head| :: head[k] in c by {
      forall k | 0 <= k < |head| ensures head[k] in c { assert head[k] == RequiredOptions[k]; }
    }
  }

  /** A configuration the validator reads to the end is accepted with the record of its values. */
  lemma CompleteConfigAccepted(c: Config)
    requires Readable(c) && Reaches(c, |RequiredOptions|)
    ensures Complete(c) && ThrustSettingsAccepted(c)
    ensures forall i | 0 <= i < |RequiredOptions| :: Shaped(i, c[RequiredOptions[i]])
    ensures Validate(c) == Success(InputOf(c))
  {
    ReadableWhenComplete(c);
    ValidateSucceedsIff(c);
  }

  /** Validation succeeds exactly when every required option is present and the thrust checks pass. */
  lemma ValidateSucceedsIff(c: Config)
    requires Readable(c)
    ensures Validate(c).Success? <==> Complete(c) && ThrustSettingsAccepted(c)
  {
    var head, tail := RequiredOptions[..ThrustSettingsIndex + 1], RequiredOptions[ThrustSettingsIndex + 1..];
    if Complete(c) {
      assert forall k | 0 <= k < |head| :: head[k] in c by {
        forall k | 0 <= k < |head| ensures head[k] in c { assert head[k] == RequiredOptions[k]; }
      }
      assert forall k | 0 <= k < |tail| :: tail[k] in c by {
        forall k | 0 <= k < |tail| ensures tail[k] in c { assert tail[k] == RequiredOptions[k + ThrustSettingsIndex + 1]; }
      }
    }
    if Validate(c).Success? {
      assert FirstMissing(c, head).None?;
      assert head[ThrustSettingsIndex] == ChaserThrustSettings;
    }
  }

  /** The first missing option the validator reaches is the one reported. */
  lemma MissingOptionReported(c: Config, i: nat)
    requires Readable(c) && i < |RequiredOptions| && Reaches(c, i) && RequiredOptions[i] !in c
    ensures Validate(c) == Failure(MissingOption(RequiredOptions[i]))
  {
    var head := RequiredOptions[..ThrustSettingsIndex + 1];
    if i <= ThrustSettingsIndex {
      assert head[i] == RequiredOptions[i];
      assert forall k | 0 <= k < i :: head[k] in c by {
        forall k | 0 <= k < i ensures head[k] in c { assert head[k] == RequiredOptions[k]; }
      }
      assert FirstMissing(c, head) == Some(i);
    } else {
      assert forall k | 0 <= k < |head| :: head[k] in c by {
        forall k | 0 <= k < |head| ensures head[k] in c { assert head[k] == RequiredOptions[k]; }
      }
      MissingLaterOptionReported(c, i);
    }
  }

  /** A missing option after the thrust settings is found by the second scan. */
  lemma MissingLaterOptionReported(c: Config, i: nat)
    requires Readable(c) && ThrustSettingsIndex < i < |RequiredOptions| && Reaches(c, i)
    requires RequiredOptions[i] !in c && FirstMissing(c, RequiredOptions[..ThrustSettingsIndex + 1]).None?
    ensures Validate(c) == Failure(MissingOption(RequiredOptions[i]))
  {
    var tail := RequiredOptions[ThrustSettingsIndex + 1..];
    var j := i - ThrustSettingsIndex - 1;
    assert tail[j] == RequiredOptions[i];
    assert forall k | 0 <= k < j :: tail[k] in c by {
      forall k | 0 <= k < j ensures tail[k] in c { assert tail[k] == RequiredOptions[k + ThrustSettingsIndex + 1]; }
    }
    assert FirstMissing(c, tail) == Some(j);
  }

  /**
   * With every option up to the thrust settings present, the thrust checks decide in order:
   * an unknown mode, then a negative maximum, then a frequency below epsilon.
   */
  lemma ThrustSettingsErrorsReported(c: Config)
    requires Readable(c) && Reaches(c, ThrustSettingsIndex) && ChaserThrustSettings in c
    ensures var t := c[ChaserThrustSettings];
      && (ParseThrustMode(t.items[0].str).None? ==>
            Validate(c) == Failure(InvalidThrustMode(t.items[0].str)))
      && (ParseThrustMode(t.items[0].str).Some? && t.items[1].num < 0.0 ==>
            Validate(c) == Failure(NegativeThrustMaximum(t.items[1].num)))
      && (ParseThrustMode(t.items[0].str).Some? && 0.0 <= t.items[1].num && t.items[2].num < Epsilon ==>
            Validate(c) == Failure(NonPositiveThrustFrequency(t.items[2].num)))
  {
    var head := RequiredOptions[..ThrustSettingsIndex + 1];
    assert Shaped(ThrustSettingsIndex, c[ChaserThrustSettings]);
    assert forall k | 0 <= k < |head| :: head[k] in c by {
      forall k | 0 <= k < |head| ensures head[k] in c { assert head[k] == RequiredOptions[k]; }
    }
  }

  /** An accepted configuration yields a record holding exactly the values read from it. */
  lemma ValidatedFieldsAreRead(c: Config)
    requires Readable(c) && Validate(c).Success?
    ensures Complete(c) && ThrustSettingsAccepted(c)
    ensures PropagationSettings in c && NumberAt(c[PropagationSettings], 0) && NumberAt(c[PropagationSettings], 1)
      && Validate(c).value.startTime == c[PropagationSettings].items[0].num
      && Validate(c).value.endTime == c[PropagationSettings].items[1].num
    ensures EarthGravitationalParameter in c && c[EarthGravitationalParameter].Number?
      && Validate(c).value.earthGravitationalParameter == c[EarthGravitationalParameter].num
    ensures TargetSemiMajorAxis in c && c[TargetSemiMajorAxis].Number?
      && Validate(c).value.targetSemiMajorAxis == c[TargetSemiMajorAxis].num
    ensures ChaserInitialState in c && Shaped(3, c[ChaserInitialState])
      && forall k | 0 <= k < 6 :: Validate(c).value.chaserInitialState[k] == c[ChaserInitialState].items[k].num
    ensures ModeName(Validate(c).value.thrustMode) == c[ChaserThrustSettings].items[0].str
      && Validate(c).value.thrustMaximum == c[ChaserThrustSettings].items[1].num
      && Validate(c).value.thrustFrequency == c[ChaserThrustSettings].items[2].num
    ensures ChaserWetMass in c && c[ChaserWetMass].Number?
      && Validate(c).value.chaserWetMass == c[ChaserWetMass].num
    ensures ArrivalDistanceTolerance in c && c[ArrivalDistanceTolerance].Number?
      && Validate(c).value.arrivalDistanceTolerance == c[ArrivalDistanceTolerance].num
    ensures OutputDirectory in c && c[OutputDirectory].Text?
      && Validate(c).value.outputDirectory == c[OutputDirectory].str
    ensures ChaserStateHistoryFilename in c && c[ChaserStateHistoryFilename].Text?
      && Validate(c).value.chaserStateHistoryFilename == c[ChaserStateHistoryFilename].str
    ensures ChaserThrustHistoryFilename in c && c[ChaserThrustHistoryFilename].Text?
      && Validate(c).value.chaserThrustHistoryFilename == c[ChaserThrustHistoryFilename].str
  {
    ValidateSucceedsIff(c);
    ReadableWhenComplete(c);
    assert Shaped(0, c[RequiredOptions[0]]) && Shaped(1, c[RequiredOptions[1]]);
    assert Shaped(2, c[RequiredOptions[2]]) && Shaped(3, c[RequiredOptions[3]]);
    assert Shaped(5, c[RequiredOptions[5]]) && Shaped(6, c[RequiredOptions[6]]);
    assert Shaped(7, c[RequiredOptions[7]]) && Shaped(8, c[RequiredOptions[8]]);
    assert Shaped(9, c[RequiredOptions[9]]);
  }

  /**
   * A maximum in [0, epsilon), which the validator labels "UNCONSTRAINED", is accepted and
   * stored as given; it is not replaced by zero (see Simulation.PositiveMaximumLimits).
   */
  lemma UnconstrainedMaximumAccepted(c: Config)
    requires Readable(c) && Complete(c)
    requires ChaserThrustSettings in c && ThrustSettingsReadable(c[ChaserThrustSettings])
    requires var t := c[ChaserThrustSettings];
      ParseThrustMode(t.items[0].str).Some? && 0.0 <= t.items[1].num < Epsilon && Epsilon <= t.items[2].num
    ensures Validate(c).Success? && Validate(c).value.thrustMaximum < Epsilon
    ensures Validate(c).value.thrustMaximum == c[ChaserThrustSettings].items[1].num
  {
    assert Reaches(c, ThrustSettingsIndex);
    ValidateSucceedsIff(c);
    ValidatedFieldsAreRead(c);
  }

  /**
   * No range check couples the mode to the maximum: on-off with a zero maximum is accepted,
   * whatever the times, mass and tolerance are.
   */
  lemma OnOffWithoutMaximumAccepted(c: Config)
    requires Readable(c) && Complete(c)
    requires ChaserThrustSettings in c && ThrustSettingsReadable(c[ChaserThrustSettings])
    requires var t := c[ChaserThrustSettings];
      t.items[0].str == "on_off" && t.items[1].num == 0.0 && Epsilon <= t.items[2].num
    ensures Validate(c).Success?
    ensures Validate(c).value.thrustMode == OnOff && Validate(c).value.thrustMaximum == 0.0
  {
    assert Reaches(c, ThrustSettingsIndex);
    ValidateSucceedsIff(c);
    ValidatedFieldsAreRead(c);
  }
}
