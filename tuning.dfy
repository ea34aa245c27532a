/** The autofocus tunables of the driver and the debug setters that slice a
    64-bit value written by the user into them. Every tunable is a `uint16_t`
    in the driver; the setters mask each field before storing it. */
module Tuning {
  import opened Arith
  import opened Bus

  datatype Tunables = Tunables(
    linearTotalStep: Word,
    stepJump: Word,
    nlRegionBoundary1: Word,
    nlRegionCodePerStep1: Word,
    lRegionCodePerStep: Word,
    dampingThreshold: Word,
    timeWait: Word,
    smallStep: Word,
    timeWaitCoarse: Word,
    smallStepCoarse: Word,
    timeWaitFwd: Word,
    smallStepFwd: Word,
    timeWaitFine: Word,
    smallStepFine: Word,
    timeWaitSnap: Word,
    smallStepSnap: Word,
    enableDamping: Word,
    afInitialValue: Word)

  /** Number of entries of the step-position table. */
  const TableSize: nat := 42

  /** The values the driver starts with. */
  const Defaults: Tunables := Tunables(41, 4, 2, 25, 3, 10, 30, 10, 30, 2, 9, 5, 60, 1, 9, 5, 1, 25)

  /** What the focus code needs of the tunables: the step table is indexed
      by a step at most `linearTotalStep`, which must fit the 42-entry table;
      every damping step size is positive, or the damped motion loop never
      advances; every small step is at most a byte, as the setters store it,
      so that the lens arithmetic in `int16_t` cannot wrap; the first lens
      code fits the 8-bit lens range. */
  predicate Sane(t: Tunables) {
    && t.linearTotalStep < TableSize
    && 0 < t.smallStep <= 0xFF && 0 < t.smallStepCoarse <= 0xFF && 0 < t.smallStepFwd <= 0xFF
    && 0 < t.smallStepFine <= 0xFF && 0 < t.smallStepSnap <= 0xFF
    && t.afInitialValue <= 0xFF
  }

  lemma DefaultsSane()
    ensures Sane(Defaults)
  {
  }

  /** `set_sw_damping`: the damping switch takes the low 16 bits. */
  function SetSwDamping(t: Tunables, val: U64): (r: Tunables)
    ensures Sane(t) ==> Sane(r)
    ensures r.enableDamping == val % Two16
    ensures r.(enableDamping := t.enableDamping) == t
  {
    t.(enableDamping := U16(val))
  }

  /** `set_af_codestep`, without the table rebuild that follows it. */
  function SetAfCodestep(t: Tunables, val: U64): (r: Tunables)
    ensures Sane(t) ==> Sane(r)
    ensures r.lRegionCodePerStep == val % Two16
    ensures r.(lRegionCodePerStep := t.lRegionCodePerStep) == t
  {
    t.(lRegionCodePerStep := U16(val))
  }

  /** `set_af_nonlinear`: low 16 bits are the code per step of the non-linear
      region, the next 16 bits its boundary. */
  function SetAfNonlinear(t: Tunables, val: U64): (r: Tunables)
    ensures Sane(t) ==> Sane(r)
    ensures r.(nlRegionCodePerStep1 := t.nlRegionCodePerStep1, nlRegionBoundary1 := t.nlRegionBoundary1) == t
  {
    t.(nlRegionCodePerStep1 := Bits(val, 1, 0x1_0000), nlRegionBoundary1 := Bits(val, 0x1_0000, 0x1_0000))
  }

  /** `get_af_nonlinear`, with the boundary shifted as an unsigned value. */
  function GetAfNonlinear(t: Tunables): (v: U64)
    ensures v < Two32
  {
    t.nlRegionCodePerStep1 + 0x1_0000 * t.nlRegionBoundary1
  }

  /** `get_af_nonlinear` as written: `boundary << 16` is computed in a 32-bit
      signed `int`, so a boundary of 0x8000 or more gives a negative value,
      which is sign-extended when stored into the 64-bit result. */
  function GetAfNonlinearAsWritten(t: Tunables): (v: U64)
    ensures t.nlRegionBoundary1 < 0x8000 ==> v == GetAfNonlinear(t)
    ensures t.nlRegionBoundary1 >= 0x8000 ==> v >= 0xFFFF_FFFF_0000_0000
  {
    var asInt := t.nlRegionCodePerStep1 + 0x1_0000 * t.nlRegionBoundary1;
    if asInt < 0x8000_0000 then asInt else asInt + 0xFFFF_FFFF_0000_0000
  }

  /** Reading the non-linear tunables back returns the low 32 bits of what
      was written. */
  lemma {:induction false} NonlinearRoundTrip(t: Tunables, val: U64)
    ensures GetAfNonlinear(SetAfNonlinear(t, val)) == val % Two32
  {
    TwoHalves(val);
  }

  /** The driver's getter breaks that round trip: writing 0x8000_0000 reads
      back as 0xFFFF_FFFF_8000_0000. */
  lemma NonlinearAsWrittenSignExtends(t: Tunables)
    ensures GetAfNonlinearAsWritten(SetAfNonlinear(t, 0x8000_0000)) == 0xFFFF_FFFF_8000_0000
    ensures GetAfNonlinear(SetAfNonlinear(t, 0x8000_0000)) == 0x8000_0000
  {
    NonlinearRoundTrip(t, 0x8000_0000);
  }

  /** `set_af_stepparam`: four bytes give the default, coarse, fine and snap
      small steps; the forward step is made equal to the snap step. */
  function SetAfStepparam(t: Tunables, val: U64): (r: Tunables)
    ensures r.smallStepFwd == r.smallStepSnap
    ensures StepparamFieldsPositive(val) && Sane(t) ==> Sane(r)
    ensures r.(smallStep := t.smallStep, smallStepCoarse := t.smallStepCoarse, smallStepFine := t.smallStepFine,
               smallStepSnap := t.smallStepSnap, smallStepFwd := t.smallStepFwd) == t
  {
    var snap := Bits(val, 0x100_0000, 0x100);
    t.(smallStep := Bits(val, 1, 0x100), smallStepCoarse := Bits(val, 0x100, 0x100),
       smallStepFine := Bits(val, 0x1_0000, 0x100), smallStepSnap := snap, smallStepFwd := snap)
  }

  /** Every byte of a step-parameter value is a positive step size. */
  predicate StepparamFieldsPositive(val: U64) {
    Bits(val, 1, 0x100) > 0 && Bits(val, 0x100, 0x100) > 0 && Bits(val, 0x1_0000, 0x100) > 0
    && Bits(val, 0x100_0000, 0x100) > 0
  }

  /** The value that would produce the current small steps through
      `set_af_stepparam` (the driver's getter for them returns nothing). */
  function StepparamValue(t: Tunables): int {
    t.smallStep + 0x100 * t.smallStepCoarse + 0x1_0000 * t.smallStepFine + 0x100_0000 * t.smallStepSnap
  }

  /** The four step sizes keep every bit of the low 32 bits written. */
  lemma {:induction false} StepparamRoundTrip(t: Tunables, val: U64)
    ensures StepparamValue(SetAfStepparam(t, val)) == val % Two32
  {
    FourBytes(val);
  }

  /** `set_af_timeparam`: the same layout as the step parameters, for the
      settle times; the forward time is made equal to the snap time. */
  function SetAfTimeparam(t: Tunables, val: U64): (r: Tunables)
    ensures r.timeWaitFwd == r.timeWaitSnap
    ensures Sane(t) ==> Sane(r)
    ensures r.(timeWait := t.timeWait, timeWaitCoarse := t.timeWaitCoarse, timeWaitFine := t.timeWaitFine,
               timeWaitSnap := t.timeWaitSnap, timeWaitFwd := t.timeWaitFwd) == t
  {
    var snap := Bits(val, 0x100_0000, 0x100);
    t.(timeWait := Bits(val, 1, 0x100), timeWaitCoarse := Bits(val, 0x100, 0x100),
       timeWaitFine := Bits(val, 0x1_0000, 0x100), timeWaitSnap := snap, timeWaitFwd := snap)
  }

  function TimeparamValue(t: Tunables): int {
    t.timeWait + 0x100 * t.timeWaitCoarse + 0x1_0000 * t.timeWaitFine + 0x100_0000 * t.timeWaitSnap
  }

  lemma {:induction false} TimeparamRoundTrip(t: Tunables, val: U64)
    ensures TimeparamValue(SetAfTimeparam(t, val)) == val % Two32
  {
    FourBytes(val);
  }

  /** `set_linear_total_step`: bytes 0, 1 and 2 are the total step count, the
      damping threshold and the step jump. The driver accepts any byte as the
      total; only totals below the table size keep the tunables sane. */
  function SetLinearTotalStep(t: Tunables, val: U64): (r: Tunables)
    ensures Bits(val, 1, 0x100) < TableSize && Sane(t) ==> Sane(r)
    ensures r.(linearTotalStep := t.linearTotalStep, dampingThreshold := t.dampingThreshold, stepJump := t.stepJump) == t
  {
    t.(linearTotalStep := Bits(val, 1, 0x100), dampingThreshold := Bits(val, 0x100, 0x100),
       stepJump := Bits(val, 0x1_0000, 0x100))
  }

  function LinearTotalStepValue(t: Tunables): int {
    t.linearTotalStep + 0x100 * t.dampingThreshold + 0x1_0000 * t.stepJump
  }

  lemma {:induction false} LinearTotalStepRoundTrip(t: Tunables, val: U64)
    ensures LinearTotalStepValue(SetLinearTotalStep(t, val)) == val % 0x100_0000
  {
    ThreeBytes(val);
  }

  /** `set_af_initial`: bytes 0, 1 and 2 are the first lens code, the forward
      small step and the forward settle time. */
  function SetAfInitial(t: Tunables, val: U64): (r: Tunables)
    ensures Bits(val, 0x100, 0x100) > 0 && Sane(t) ==> Sane(r)
    ensures r.(afInitialValue := t.afInitialValue, smallStepFwd := t.smallStepFwd, timeWaitFwd := t.timeWaitFwd) == t
  {
    t.(afInitialValue := Bits(val, 1, 0x100), smallStepFwd := Bits(val, 0x100, 0x100),
       timeWaitFwd := Bits(val, 0x1_0000, 0x100))
  }

  function AfInitialParam(t: Tunables): int {
    t.afInitialValue + 0x100 * t.smallStepFwd + 0x1_0000 * t.timeWaitFwd
  }

  lemma {:induction false} AfInitialRoundTrip(t: Tunables, val: U64)
    ensures AfInitialParam(SetAfInitial(t, val)) == val % 0x100_0000
  {
    ThreeBytes(val);
  }
}
