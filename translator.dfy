/**
 * The pure part of the public volume operations: argument validation,
 * conversion of a percentage to NirCmd's volume unit, and the NirCmd
 * command word and argument each operation sends.
 */
module Translator {
  import opened Java

  /** NirCmd's full-scale volume. */
  const NirCmdMaxVolume: int := 65535

  const PercentageRangeMessage := "Percentage must be between 0 and 100."
  const IncreaseStepMessage := "Percentage step must be non-negative for increase."
  const DecreaseStepMessage := "Percentage step must be non-negative for decrease."

  /** The public operations that end in a NirCmd command. */
  datatype Op =
    | SetVolume(percentage: Int32)
    | IncreaseVolume(step: Int32)
    | DecreaseVolume(step: Int32)
    | Mute
    | Unmute
    | ToggleMute

  /** A NirCmd command word and its arguments, before the executable path is prepended. */
  datatype Invocation = Invocation(command: string, args: seq<string>)

  /**
   * Java's rounding of the percentage's share of full scale, in exact
   * arithmetic: the integer nearest to p * 65535 / 100, halves rounded up.
   */
  function RoundedUnits(p: int): (r: int)
    ensures 100 * r - 50 <= p * NirCmdMaxVolume < 100 * r + 50
  {
    (p * NirCmdMaxVolume + 50) / 100
  }

  /** `Math.round` on an exact real: the closest integer, ties towards positive infinity. */
  ghost function MathRound(x: real): int {
    (x + 0.5).Floor
  }

  /** The integer formula agrees with rounding the exact real quotient. */
  lemma RoundedUnitsIsMathRound(p: int)
    ensures RoundedUnits(p) == MathRound(p as real / 100.0 * NirCmdMaxVolume as real)
  {
    var k := RoundedUnits(p);
    var x := p as real / 100.0 * NirCmdMaxVolume as real + 0.5;
    assert x == (p * NirCmdMaxVolume + 50) as real / 100.0;
    assert k as real <= x < k as real + 1.0;
  }

  /** The value the code passes to NirCmd: the rounded `long`, narrowed to `int`. */
  function ScaledValue(p: Int32): (r: Int32)
    ensures 0 <= p <= 100 ==> r == RoundedUnits(p) && 0 <= r <= NirCmdMaxVolume
  {
    Narrow(RoundedUnits(p))
  }

  /** Percentages 0 and 100 map to the ends of NirCmd's range. */
  lemma ScaledValueEnds()
    ensures ScaledValue(0) == 0 && ScaledValue(100) == NirCmdMaxVolume
  {
  }

  lemma RoundedUnitsMonotone(p: int, q: int)
    requires p <= q
    ensures RoundedUnits(p) <= RoundedUnits(q)
  {
    var a, b := p * NirCmdMaxVolume + 50, q * NirCmdMaxVolume + 50;
    assert a <= b;
  }

  /** Largest step for which the `(int)` narrowing leaves the rounded value alone. */
  const MaxUnwrappedStep: int := 3_276_849

  /** Up to `MaxUnwrappedStep`, a step's narrowed value is its rounded value, never negative. */
  lemma StepIsNotWrapped(s: Int32)
    requires 0 <= s <= MaxUnwrappedStep
    ensures ScaledValue(s) == RoundedUnits(s) >= 0
  {
    RoundedUnitsMonotone(0, s);
    RoundedUnitsMonotone(s, MaxUnwrappedStep);
  }

  /**
   * As written, one step past `MaxUnwrappedStep` the narrowing wraps to
   * `Integer.MIN_VALUE`: an increase by 3276850 percent sends a negative change,
   * and the matching decrease sends the very same text.
   */
  lemma IncreaseStepWraps()
    ensures RoundedUnits(MaxUnwrappedStep + 1) == MaxInt + 1
    ensures ScaledValue(MaxUnwrappedStep + 1) == MinInt
    ensures Negate(ScaledValue(MaxUnwrappedStep + 1)) == ScaledValue(MaxUnwrappedStep + 1)
    ensures ValueOf(ScaledValue(MaxUnwrappedStep + 1))[0] == '-'
  {
  }

  /**
   * The change value for a non-negative step, corrected so that it cannot
   * wrap: the rounded value, saturated at `Integer.MAX_VALUE`.
   */
  function StepValue(s: Int32): (r: Int32)
    requires s >= 0
    ensures 0 <= r
    ensures RoundedUnits(s) <= MaxInt ==> r == RoundedUnits(s)
    ensures RoundedUnits(s) > MaxInt ==> r == MaxInt
  {
    var v := RoundedUnits(s);
    if v > MaxInt then MaxInt else v
  }

  /** The corrected value agrees with the code as written wherever the latter does not wrap. */
  lemma StepValueAgreesBelowWrap(s: Int32)
    requires 0 <= s <= MaxUnwrappedStep
    ensures StepValue(s) == ScaledValue(s)
  {
    StepIsNotWrapped(s);
  }

  /** With the corrected value, a larger step never sends a smaller change. */
  lemma StepValueMonotone(s: Int32, t: Int32)
    requires 0 <= s <= t
    ensures StepValue(s) <= StepValue(t)
  {
    RoundedUnitsMonotone(s, t);
  }

  /** What the public methods accept (the `@throws IllegalArgumentException` conditions, negated). */
  predicate ValidArgument(op: Op) {
    match op
    case SetVolume(p) => 0 <= p <= 100
    case IncreaseVolume(s) => s >= 0
    case DecreaseVolume(s) => s >= 0
    case _ => true
  }

  /**
   * Validation, scaling and the command template of each public operation,
   * as written: `setsysvolume <v>`, `changesysvolume <v>` and
   * `changesysvolume <-v>` with the narrowed value, `mutesysvolume 1|0|2`.
   */
  function Translate(op: Op): (r: Result<Invocation>)
    ensures r.Ok? <==> ValidArgument(op)
    ensures r.Err? ==> r.error.IllegalArgumentException?
    ensures r.Ok? ==> |r.value.args| == 1
  {
    match op
    case SetVolume(p) =>
      if p < 0 || p > 100 then Err(IllegalArgumentException(PercentageRangeMessage))
      else Ok(Invocation("setsysvolume", [ValueOf(ScaledValue(p))]))
    case IncreaseVolume(s) =>
      if s < 0 then Err(IllegalArgumentException(IncreaseStepMessage))
      else Ok(Invocation("changesysvolume", [ValueOf(ScaledValue(s))]))
    case DecreaseVolume(s) =>
      if s < 0 then Err(IllegalArgumentException(DecreaseStepMessage))
      else Ok(Invocation("changesysvolume", [ValueOf(Negate(ScaledValue(s)))]))
    case Mute => Ok(Invocation("mutesysvolume", ["1"]))
    case Unmute => Ok(Invocation("mutesysvolume", ["0"]))
    case ToggleMute => Ok(Invocation("mutesysvolume", ["2"]))
  }

  /**
   * The translation with the corrected step value: it differs from the code
   * as written only for steps beyond `MaxUnwrappedStep`.
   */
  function TranslateCorrected(op: Op): (r: Result<Invocation>)
    ensures r.Ok? <==> ValidArgument(op)
    ensures r.Err? ==> r == Translate(op)
    ensures !(op.IncreaseVolume? || op.DecreaseVolume?) ==> r == Translate(op)
  {
    match op
    case IncreaseVolume(s) =>
      if s < 0 then Err(IllegalArgumentException(IncreaseStepMessage))
      else Ok(Invocation("changesysvolume", [ValueOf(StepValue(s))]))
    case DecreaseVolume(s) =>
      if s < 0 then Err(IllegalArgumentException(DecreaseStepMessage))
      else Ok(Invocation("changesysvolume", [ValueOf(Negate(StepValue(s)))]))
    case _ => Translate(op)
  }

  /** The corrected translation and the code as written agree on every step up to `MaxUnwrappedStep`. */
  lemma TranslateCorrectedAgrees(op: Op)
    requires (op.IncreaseVolume? || op.DecreaseVolume?) ==> op.step <= MaxUnwrappedStep
    ensures TranslateCorrected(op) == Translate(op)
  {
    if (op.IncreaseVolume? || op.DecreaseVolume?) && op.step >= 0 {
      StepValueAgreesBelowWrap(op.step);
    }
  }

  /**
   * As written, an increase and a decrease by 3276850 percent both send
   * `changesysvolume -2147483648`.
   */
  lemma StepArgumentsWrap()
    ensures Translate(IncreaseVolume(MaxUnwrappedStep + 1)) == Ok(Invocation("changesysvolume", [ValueOf(MinInt)]))
    ensures Translate(DecreaseVolume(MaxUnwrappedStep + 1)) == Ok(Invocation("changesysvolume", [ValueOf(MinInt)]))
    ensures ValueOf(MinInt) == "-" + Digits(0x8000_0000)
  {
    IncreaseStepWraps();
  }

  /** A valid percentage is sent as the unsigned decimal text of a value in 0..65535 that reads back exactly. */
  lemma SetVolumeArgument(p: Int32)
    requires 0 <= p <= 100
    ensures Translate(SetVolume(p)) == Ok(Invocation("setsysvolume", [ValueOf(RoundedUnits(p))]))
    ensures ReadDecimal(ValueOf(RoundedUnits(p))) == Some(RoundedUnits(p))
    ensures 0 <= RoundedUnits(p) <= NirCmdMaxVolume
  {
    ReadDecimalValueOf(RoundedUnits(p));
  }

  /**
   * As written, for every step up to `MaxUnwrappedStep`, the decrease
   * argument is the exact negation of the increase argument: the increase
   * text is unsigned digits, and the decrease text is that with a minus
   * sign in front, except that zero is sent as "0".
   */
  lemma DecreaseNegatesIncrease(s: Int32)
    requires 0 <= s <= MaxUnwrappedStep
    ensures
      var inc := Translate(IncreaseVolume(s)).value.args[0];
      var dec := Translate(DecreaseVolume(s)).value.args[0];
      AllDigits(inc) &&
      ReadDecimal(inc) == Some(RoundedUnits(s)) &&
      ReadDecimal(dec) == Some(-RoundedUnits(s)) &&
      dec == (if s == 0 then "0" else "-" + inc)
  {
    StepIsNotWrapped(s);
    var v: nat := RoundedUnits(s);
    if s >= 1 {
      RoundedUnitsMonotone(1, s as int);
    }
    assert v == 0 <==> s == 0;
    assert Negate(ScaledValue(s)) == -(v as int);
    var inc, dec := ValueOf(v), ValueOf(-(v as int));
    assert Translate(IncreaseVolume(s)).value.args[0] == inc;
    assert Translate(DecreaseVolume(s)).value.args[0] == dec;
    ValueOfNegated(v);
    ReadDecimalValueOf(v);
    ReadDecimalValueOf(-(v as int));
  }

  /** With the corrected step value the same holds for every non-negative step. */
  lemma CorrectedDecreaseNegatesIncrease(s: Int32)
    requires s >= 0
    ensures
      var inc := TranslateCorrected(IncreaseVolume(s)).value.args[0];
      var dec := TranslateCorrected(DecreaseVolume(s)).value.args[0];
      AllDigits(inc) &&
      ReadDecimal(inc) == Some(StepValue(s) as int) &&
      ReadDecimal(dec) == Some(-StepValue(s)) &&
      dec == (if StepValue(s) == 0 then "0" else "-" + inc)
  {
    var v: nat := StepValue(s);
    ValueOfNegated(v);
    ReadDecimalValueOf(v);
    ReadDecimalValueOf(-(v as int));
  }

  /** A decrease of zero sends "0", not "-0". */
  lemma DecreaseByZero()
    ensures Translate(DecreaseVolume(0)) == Ok(Invocation("changesysvolume", ["0"]))
  {
    assert ScaledValue(0) == 0;
  }

  /** `mute`, `unmute` and `toggleMute` send `mutesysvolume` with 1, 0 and 2. */
  lemma MuteArguments()
    ensures Translate(Mute) == Ok(Invocation("mutesysvolume", ["1"]))
    ensures Translate(Unmute) == Ok(Invocation("mutesysvolume", ["0"]))
    ensures Translate(ToggleMute) == Ok(Invocation("mutesysvolume", ["2"]))
  {
  }
}
