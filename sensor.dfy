/** The MT9E013 driver state and its operations: the control record, the
    step-position table, the autofocus tunables, the OTP words with their
    validity flag, and the CSI-configured flag, with the bus log that records
    every register transaction. */
module Sensor {
  import opened Arith
  import opened Bus
  import opened Tuning
  import opened FocusSpec
  import opened Exposure
  import opened OtpSpec

  /** Values of `sensormode`. */
  const SensorPreviewMode: int := 0
  const SensorSnapshotMode: int := 1
  const SensorRawSnapshotMode: int := 2

  /** `TEST_OFF`, the test-pattern mode the driver starts with. */
  const TestOff: nat := 0

  /** `30 * Q8`: the frame rate `open_init` stores. */
  const DefaultFps: Word := 30 * 0x100

  const RegResetControl: Word := 0x301A
  /** `MT9E013_REG_MODEL_ID` and the id `probe_init_sensor` expects there. */
  const RegModelId: Word := 0x0000
  const ModelId: Word := 0x4B00
  const RegTestPatternMode: Word := 0x0601

  /** The two kinds of `sensor_setting` update. */
  datatype UpdateType = RegInit | UpdatePeriodic

  /** The resolution table a periodic update programs. */
  datatype ResType = ResPreview | ResCapture

  /** The register tables of the sensor header, which are inputs here. */
  datatype RegTables = RegTables(
    prev: seq<RegConf>,
    snap: seq<RegConf>,
    mipi: seq<RegConf>,
    rec: seq<RegConf>,
    pll: seq<RegConf>,
    shading: seq<RegConf>,
    timing: Timing)

  /** Everything the driver holds apart from the bus log and the two arrays. */
  datatype Snapshot = Snapshot(
    sensorMode: int,
    fpsDivider: Word32,
    pictFpsDivider: Word32,
    fps: Word,
    currLensPos: Word,
    currStepPos: Word,
    myRegGain: Word,
    myRegLineCount: Word32,
    prevRes: Resolution,
    pictRes: Resolution,
    currRes: Resolution,
    setTest: nat,
    tuning: Tunables,
    otpValid: bool,
    csiConfig: bool)

  /** The `sensor_config` commands with the request fields each one uses;
      `CFG_SET_FPS` and `CFG_SET_PICT_FPS` run the same code and share
      `SetFpsCmd`; `Unknown` stands for every other command code. */
  datatype Command =
    | GetPictFps(prevFps: Word)
    | GetPrevLinesPf
    | GetPrevPixelsPl
    | GetPictLinesPf
    | GetPictPixelsPl
    | GetPictMaxExpLc
    | SetFpsCmd(fpsDiv: Word32, pictFpsDiv: Word32)
    | SetExpGain(gain: Word, line: Word32)
    | SetPictExpGainCmd(gain: Word, line: Word32)
    | SetMode(mode: int)
    | PowerDown
    | MoveFocusCmd(dir: Direction, steps: int)
    | SetDefaultFocusCmd
    | SetEffect
    | GetAfMaxSteps
    | SendWbInfo
    | GetCalibData
    | Unknown

  /** What `sensor_config` copies back to the caller. */
  datatype Output = NoOutput | Value(v: int) | Calib(info: CalibInfo)

  /** Writes of `start_stream`. */
  const StartStreamLog: seq<Txn> := [
    WordWrite(RegResetControl, 0x8250), WordWrite(RegResetControl, 0x8650), WordWrite(RegResetControl, 0x8658),
    ByteWrite(RegGroupedParameterHold, 0x00), WordWrite(RegResetControl, 0x065C)]

  /** Writes of `stop_stream`. */
  const StopStreamLog: seq<Txn> := [
    WordWrite(RegResetControl, 0x0058), WordWrite(RegResetControl, 0x0050),
    ByteWrite(RegGroupedParameterHold, 0x01)]

  const HoldOn: Txn := ByteWrite(RegGroupedParameterHold, 1)
  const HoldOff: Txn := ByteWrite(RegGroupedParameterHold, 0)


  class Mt9e013 {
    /** The sensor's bus, with the log of every transaction so far. */
    const bus: I2cBus
    const regs: RegTables
    /** The module maker read at probe time is LiteOn. */
    const liteOn: bool

    // mt9e013_ctrl_t
    var sensorMode: int
    var fpsDivider: Word32
    var pictFpsDivider: Word32
    var fps: Word
    var currLensPos: Word
    var currStepPos: Word
    var myRegGain: Word
    var myRegLineCount: Word32
    var prevRes: Resolution
    var pictRes: Resolution
    var currRes: Resolution
    var setTest: nat

    var tuning: Tunables
    /** `mt9e013_step_position_table`. */
    const table: array<int>
    /** The data words of the OTP register table. */
    const otp: array<Word>
    var otpValid: bool
    /** `CSI_CONFIG`. */
    var csiConfig: bool

    /** What the driver keeps true between calls. */
    predicate Valid()
      reads this, table
    {
      && table.Length == TableSize
      && table[0] == 0
      && (forall i :: 0 <= i < table.Length ==> 0 <= table[i] <= MaxCode)
      && otp.Length > Sentinel1
      && otp.Length <= Two16
      && ShadingStart + |regs.shading| <= otp.Length
      && Sane(tuning)
      && currStepPos < TableSize
      && currLensPos <= MaxCode
      && TimingOk(regs.timing)
    }

    function State(): Snapshot
      reads this
    {
      Snapshot(sensorMode, fpsDivider, pictFpsDivider, fps, currLensPos, currStepPos, myRegGain, myRegLineCount,
               prevRes, pictRes, currRes, setTest, tuning, otpValid, csiConfig)
    }

    /** The control record as `open_init` allocates and seeds it. The
        tunables, the step-position table and the OTP validity flag are
        statics of the driver that start as at module load here; the driver
        keeps them from one session to the next. */
    constructor (oracle: Oracle, regs: RegTables, otpWords: seq<Word>, liteOn: bool)
      requires |otpWords| > Sentinel1 && |otpWords| <= Two16
      requires ShadingStart + |regs.shading| <= |otpWords|
      requires TimingOk(regs.timing)
      ensures Valid()
      ensures bus.log == [] && bus.oracle == oracle && this.regs == regs && this.liteOn == liteOn
      ensures otp[..] == otpWords && fresh(bus) && fresh(otp) && fresh(table)
      ensures forall i :: 0 <= i < table.Length ==> table[i] == 0
      ensures State() == Snapshot(SensorPreviewMode, Q10, Q10, 0, 0, 0, 0, 0, QtrSize, FullSize, QtrSize, TestOff,
                                  Defaults, false, false)
    {
      bus := new I2cBus(oracle);
      this.regs := regs;
      this.liteOn := liteOn;
      sensorMode, fpsDivider, pictFpsDivider, fps := SensorPreviewMode, Q10, Q10, 0;
      currLensPos, currStepPos, myRegGain, myRegLineCount := 0, 0, 0, 0;
      prevRes, pictRes, currRes, setTest := QtrSize, FullSize, QtrSize, TestOff;
      tuning := Defaults;
      table := new int[TableSize](_ => 0);
      otp := new Word[|otpWords|](i requires 0 <= i < |otpWords| => otpWords[i]);
      otpValid, csiConfig := false, false;
    }

    // -------------------------------------------------------------------
    // Streaming

    /** `group_hold_on` and `group_hold_off`. */
    method GroupHold(on: bool)
      modifies bus
      ensures bus.log == old(bus.log) + [ByteWrite(RegGroupedParameterHold, if on then 1 else 0)]
    {
      var rc := bus.WriteByte(RegGroupedParameterHold, if on then 1 else 0);
    }

    /** `start_stream`. */
    method StartStream()
      modifies bus
      ensures bus.log == old(bus.log) + StartStreamLog
    {
      var rc := bus.WriteWord(RegResetControl, 0x8250);
      rc := bus.WriteWord(RegResetControl, 0x8650);
      rc := bus.WriteWord(RegResetControl, 0x8658);
      rc := bus.WriteByte(RegGroupedParameterHold, 0x00);
      rc := bus.WriteWord(RegResetControl, 0x065C);
    }

    /** `stop_stream`. */
    method StopStream()
      modifies bus
      ensures bus.log == old(bus.log) + StopStreamLog
    {
      var rc := bus.WriteWord(RegResetControl, 0x0058);
      rc := bus.WriteWord(RegResetControl, 0x0050);
      rc := bus.WriteByte(RegGroupedParameterHold, 0x01);
    }
  
    // -------------------------------------------------------------------
    // Focus

    /** `init_focus`: entries 0 and 1 are always set, entries 2 up to the
        total step count follow the table definition, the rest keep their
        values. */
    method InitFocus()
      requires Valid()
      modifies table
      ensures Valid()
      ensures forall i {:trigger table[i]} :: 0 <= i <= Max(1, tuning.linearTotalStep) ==> table[i] == StepCode(tuning, i)
      ensures forall i :: Max(1, tuning.linearTotalStep) < i < table.Length ==> table[i] == old(table[i])
    {
      BuildTable(table, tuning);
      forall i | 0 <= i <= Max(1, tuning.linearTotalStep)
        ensures 0 <= table[i] <= MaxCode
      {
        StepCodeInRange(tuning, i);
      }
    }

    /** The bus log of `move_focus` from lens code `lens` and step `step`:
        nothing when the clamped destination is the current step, otherwise
        the lens codes of the move, each followed by its settle delay. */
    function MoveLog(lens: int, step: int, d: Direction, numSteps: int): seq<Txn>
      requires table.Length == TableSize && Sane(tuning)
      reads this`tuning, table
    {
      var dest := DestStep(step, d, numSteps, tuning.linearTotalStep);
      if dest == step then []
      else
        var p := SelectProfile(tuning, d, numSteps);
        var damping := tuning.enableDamping != 0;
        VcmLog(LensCodes(lens, table[dest], Sign(d), p.smallStep, damping), if damping then p.wait else 1)
    }

    /** `move_focus`: moves to the clamped destination step, through the
        damped lens codes when damping is on, and always returns 0. */
    method MoveFocus(d: Direction, numSteps: int) returns (rc: int)
      requires Valid()
      requires -0x8000 <= currStepPos + Sign(d) * numSteps < 0x8000
      modifies this, bus
      ensures Valid()
      ensures rc == 0
      ensures bus.log == old(bus.log) + MoveLog(old(currLensPos), old(currStepPos), d, numSteps)
      ensures var dest := DestStep(old(currStepPos), d, numSteps, tuning.linearTotalStep);
        State() == old(State()).(currStepPos := dest, currLensPos := if dest == old(currStepPos) then old(currLensPos) else table[dest])
    {
      rc := 0;
      var dest := DestStep(currStepPos, d, numSteps, tuning.linearTotalStep);
      if dest == currStepPos {
        return;
      }
      var p := SelectProfile(tuning, d, numSteps);
      var damping := tuning.enableDamping != 0;
      DriveLens(table[dest], Sign(d), p.smallStep, if damping then p.wait else 1, damping);
      currStepPos := dest;
    }

    /** The lens motion of `move_focus`: the damped loop (when damping is on)
        and the final write of the destination code when the loop did not
        stop on it. */
    method DriveLens(destLens: int, s: int, small: int, wait: nat, damping: bool)
      requires Valid()
      requires 0 <= destLens <= MaxCode
      requires s == 1 || s == -1
      requires 0 < small <= 0xFF
      modifies this, bus
      ensures Valid()
      ensures bus.log == old(bus.log) + VcmLog(LensCodes(old(currLensPos), destLens, s, small, damping), wait)
      ensures State() == old(State()).(currLensPos := destLens)
    {
      LensWrites(bus, currLensPos, destLens, s, small, wait, damping);
      currLensPos := destLens;
    }

    /** The log `set_default_focus` produces from the current state. */
    function DefaultFocusLog(): seq<Txn>
      requires Valid()
      reads this, table
    {
      if currStepPos == 0 then [WordWrite(RegVcmNewCode, 0)]
      else MoveLog(currLensPos, currStepPos, Far, currStepPos)
    }

    /** `set_default_focus`: always leaves the lens at code 0 and step 0;
        from step 0 it still writes lens code 0 and returns that write's
        status, otherwise it moves far by the current step count. */
    method SetDefaultFocus() returns (rc: int)
      requires Valid()
      modifies this, bus
      ensures Valid()
      ensures bus.log == old(bus.log) + old(DefaultFocusLog())
      ensures State() == old(State()).(currLensPos := 0, currStepPos := 0)
      ensures rc == if old(currStepPos) == 0 then bus.oracle.Status(|old(bus.log)|) else 0
    {
      if currStepPos != 0 {
        rc := MoveFocus(Far, currStepPos);
      } else {
        rc := bus.WriteWord(RegVcmNewCode, 0);
      }
      currLensPos := 0;
      currStepPos := 0;
    }
    // -------------------------------------------------------------------
    // Exposure, gain and frame rate

    /** `set_fps`: programs the frame length of the current mode's table
        scaled by the divider in force BEFORE the call, inside a parameter
        hold, then stores the new dividers; returns the status of the frame
        length write. */
    method SetFps(fpsDiv: Word32, pictFpsDiv: Word32) returns (rc: int)
      modifies this, bus
      ensures bus.log == old(bus.log) + [HoldOn, WordWrite(RegFrameLengthLines, old(ModeFrameLines())), HoldOff]
      ensures rc == bus.oracle.Status(|old(bus.log)| + 1)
      ensures State() == old(State()).(fpsDivider := fpsDiv, pictFpsDivider := pictFpsDiv)
    {
      var lines: Word;
      if sensorMode == SensorPreviewMode {
        lines := ScaledFrameLines(regs.timing.prevFrameLines, fpsDivider);
      } else {
        lines := ScaledFrameLines(regs.timing.snapFrameLines, pictFpsDivider);
      }
      fpsDivider := fpsDiv;
      pictFpsDivider := pictFpsDiv;
      GroupHold(true);
      rc := bus.WriteWord(RegFrameLengthLines, lines);
      GroupHold(false);
    }

    /** The frame length `set_fps` writes: the preview table's, scaled by
        the preview divider, in preview mode; the snapshot table's, scaled by
        the picture divider, otherwise. */
    function ModeFrameLines(): (r: Word)
      reads this
      ensures fpsDivider == Q10 && sensorMode == SensorPreviewMode ==> r == regs.timing.prevFrameLines
      ensures pictFpsDivider == Q10 && sensorMode != SensorPreviewMode ==> r == regs.timing.snapFrameLines
    {
      ScaledFrameLinesUnity(regs.timing.prevFrameLines);
      ScaledFrameLinesUnity(regs.timing.snapFrameLines);
      if sensorMode == SensorPreviewMode then ScaledFrameLines(regs.timing.prevFrameLines, fpsDivider)
      else ScaledFrameLines(regs.timing.snapFrameLines, pictFpsDivider)
    }

    /** At unity dividers, when the mode runs at the resolution whose
        getter is asked, the lines-per-frame getter returns the frame length
        `set_fps` writes. */
    lemma FrameLinesGetterMatchesSetFps()
      requires fpsDivider == Q10 && pictFpsDivider == Q10
      requires sensorMode == SensorPreviewMode ==> prevRes == QtrSize
      requires sensorMode != SensorPreviewMode ==> pictRes == FullSize
      ensures ModeFrameLines() == FrameLines(regs.timing, if sensorMode == SensorPreviewMode then prevRes else pictRes)
    {
    }

    /** The divider `write_exp_gain` scales the line count by. */
    function ExposureDivider(): Word32
      reads this
    {
      if sensorMode == SensorPreviewMode then fpsDivider else pictFpsDivider
    }

    /** `write_exp_gain`: writes the clamped gain with its range bit and the
        scaled line count (truncated to the 16-bit register) inside a
        parameter hold. Only in preview mode does it remember the clamped
        gain and the unscaled line count (cut to 16 bits). Returns the
        status of the line count write alone. */
    method WriteExpGain(gain: Word, line: Word32) returns (rc: int)
      modifies this, bus
      ensures bus.log == old(bus.log) + old(ExpGainLog(gain, line))
      ensures rc == bus.oracle.Status(|old(bus.log)| + 2)
      ensures old(sensorMode) == SensorPreviewMode ==>
        State() == old(State()).(myRegGain := Min(gain, MaxLegalGain), myRegLineCount := U16(line))
      ensures old(sensorMode) != SensorPreviewMode ==> State() == old(State())
    {
      var g := gain;
      if g > MaxLegalGain {
        g := MaxLegalGain;
      }
      var scaled: int;
      if sensorMode == SensorPreviewMode {
        myRegGain := g;
        myRegLineCount := U16(line);
        scaled := ScaledLine(line, fpsDivider);
      } else {
        scaled := ScaledLine(line, pictFpsDivider);
      }
      var reg := SetRangeBit(g);
      GroupHold(true);
      rc := bus.WriteWord(RegGlobalGain, reg);
      rc := bus.WriteWord(RegCoarseIntegrationTime, U16(scaled));
      GroupHold(false);
    }

    /** The writes of `write_exp_gain`, in order: hold on, gain, integration
        time, hold off. */
    function ExpGainLog(gain: Word, line: Word32): (log: seq<Txn>)
      reads this
      ensures |log| == 4 && log[0] == HoldOn && log[3] == HoldOff
      ensures log[1] == WordWrite(RegGlobalGain, GainRegister(gain))
      ensures log[1].value % GainRangeBit == Min(gain, MaxLegalGain) && log[1].value / GainRangeBit == 1
      ensures log[2].Write? && log[2].addr == RegCoarseIntegrationTime && log[2].width == WordWide
      ensures ExposureDivider() == Q10 && line < Two16 ==> log[2].value == line
    {
      GainRegisterDecodes(gain);
      ScaledLineUnity(line);
      [HoldOn, WordWrite(RegGlobalGain, GainRegister(gain)),
       WordWrite(RegCoarseIntegrationTime, U16(ScaledLine(line, ExposureDivider()))), HoldOff]
    }

    /** `set_pict_exp_gain`: `write_exp_gain`, then the restart write to the
        reset register, whose status is ignored. */
    method SetPictExpGain(gain: Word, line: Word32) returns (rc: int)
      modifies this, bus
      ensures bus.log == old(bus.log) + old(ExpGainLog(gain, line)) + [WordWrite(RegResetControl, 0x065E)]
      ensures rc == bus.oracle.Status(|old(bus.log)| + 2)
      ensures old(sensorMode) == SensorPreviewMode ==>
        State() == old(State()).(myRegGain := Min(gain, MaxLegalGain), myRegLineCount := U16(line))
      ensures old(sensorMode) != SensorPreviewMode ==> State() == old(State())
    {
      rc := WriteExpGain(gain, line);
      var r := bus.WriteWord(RegResetControl, 0x065E);
    }

    /** `test`: programs the test-pattern register with the low byte of the
        mode unless the mode is `TEST_OFF`; returns 0 whatever the write
        does. */
    method Test(mo: nat) returns (rc: int)
      modifies bus
      ensures rc == 0
      ensures bus.log == old(bus.log) + TestLog(mo)
    {
      rc := 0;
      if mo == TestOff {
        return;
      }
      var r := bus.WriteByte(RegTestPatternMode, mo % 0x100);
    }

    // -------------------------------------------------------------------
    // Debug setters of the autofocus tunables

    /** `set_sw_damping`. */
    method SetSwDampingParam(val: U64)
      requires Valid()
      modifies this
      ensures Valid()
      ensures State() == old(State()).(tuning := SetSwDamping(old(tuning), val))
    {
      tuning := SetSwDamping(tuning, val);
    }

    /** `set_af_codestep`: stores the linear-region code per step and
        rebuilds the step-position table with it. */
    method SetAfCodestepParam(val: U64)
      requires Valid()
      modifies this, table
      ensures Valid()
      ensures State() == old(State()).(tuning := SetAfCodestep(old(tuning), val))
      ensures forall i {:trigger table[i]} :: 0 <= i <= Max(1, tuning.linearTotalStep) ==> table[i] == StepCode(tuning, i)
      ensures forall i :: Max(1, tuning.linearTotalStep) < i < table.Length ==> table[i] == old(table[i])
    {
      tuning := SetAfCodestep(tuning, val);
      InitFocus();
    }

    /** `set_af_nonlinear`: the table is NOT rebuilt. */
    method SetAfNonlinearParam(val: U64)
      requires Valid()
      modifies this
      ensures Valid()
      ensures State() == old(State()).(tuning := SetAfNonlinear(old(tuning), val))
    {
      tuning := SetAfNonlinear(tuning, val);
    }

    /** `set_af_stepparam`: each of the four step bytes must be positive
        for the damped motion to advance. */
    method SetAfStepparamParam(val: U64)
      requires Valid()
      requires StepparamFieldsPositive(val)
      modifies this
      ensures Valid()
      ensures State() == old(State()).(tuning := SetAfStepparam(old(tuning), val))
    {
      tuning := SetAfStepparam(tuning, val);
    }

    /** `set_af_timeparam`. */
    method SetAfTimeparamParam(val: U64)
      requires Valid()
      modifies this
      ensures Valid()
      ensures State() == old(State()).(tuning := SetAfTimeparam(old(tuning), val))
    {
      tuning := SetAfTimeparam(tuning, val);
    }

    /** `set_linear_total_step`: the new total must index the 42-entry
        table; the table is NOT rebuilt. */
    method SetLinearTotalStepParam(val: U64)
      requires Valid()
      requires Bits(val, 1, 0x100) < TableSize
      modifies this
      ensures Valid()
      ensures State() == old(State()).(tuning := SetLinearTotalStep(old(tuning), val))
    {
      tuning := SetLinearTotalStep(tuning, val);
    }

    /** `set_af_initial`: the forward step byte must be positive; the table
        is NOT rebuilt. */
    method SetAfInitialParam(val: U64)
      requires Valid()
      requires Bits(val, 0x100, 0x100) > 0
      modifies this
      ensures Valid()
      ensures State() == old(State()).(tuning := SetAfInitial(old(tuning), val))
    {
      tuning := SetAfInitial(tuning, val);
    }

    // -------------------------------------------------------------------
    // OTP calibration

    /** Number of words `save_otp` reads: the OTP table size less 8. */
    function OtpCount(): nat
      reads this
      requires otp.Length >= ShadingStart
    {
      otp.Length - ShadingStart
    }

    /** `save_otp`: reads the OTP words in order from 0x3800 on, storing
        each one read, and stops at the first failed read. */
    method SaveOtp() returns (rc: int)
      requires otp.Length >= ShadingStart
      modifies otp, bus
      ensures bus.log == old(bus.log) + SaveLog(bus.oracle, |old(bus.log)|, OtpCount())
      ensures otp[..] == Saved(old(otp[..]), bus.oracle, |old(bus.log)|, OtpCount())
      ensures rc == SaveStatus(bus.oracle, |old(bus.log)|, OtpCount())
    {
      ghost var n, words := |bus.log|, otp[..];
      var cnt := otp.Length - ShadingStart;
      rc := -1;
      var i := 0;
      while i < cnt
        invariant 0 <= i <= cnt
        invariant forall p :: n <= p < n + i ==> bus.oracle.Ok(p)
        invariant bus.log == old(bus.log) + ReadsLog(i)
        invariant forall j :: 0 <= j < otp.Length ==> otp[j] == if j < i then bus.oracle.Value(n + j) else words[j]
        invariant rc == if i == 0 then -1 else 0
      {
        var value: Word;
        rc, value := bus.ReadWord(OtpAddr(i));
        assert ReadsLog(i + 1) == ReadsLog(i) + [Read(OtpAddr(i))];
        if rc < 0 {
          FirstFailIs(bus.oracle, n, cnt, i);
          assert otp[..] == Saved(words, bus.oracle, n, cnt);
          return;
        }
        otp[i] := value;
        i := i + 1;
      }
      FirstFailIs(bus.oracle, n, cnt, cnt);
      assert otp[..] == Saved(words, bus.oracle, n, cnt);
    }

    /** `is_otp`: polls the OTP status register up to five times; at the
        first ready status it reads the block (ignoring that read's status)
        and returns 1, otherwise -1. */
    method IsOtp() returns (rc: int)
      requires otp.Length >= ShadingStart
      modifies otp, bus
      ensures bus.log == old(bus.log) + IsOtpLog(bus.oracle, |old(bus.log)|, OtpCount())
      ensures rc == (if FirstReady(bus.oracle, |old(bus.log)|) < MaxPolls then 1 else -1)
      ensures otp[..] == IsOtpWords(old(otp[..]), bus.oracle, |old(bus.log)|, OtpCount())
    {
      ghost var n, words := |bus.log|, otp[..];
      rc := -1;
      var j := PollOtpStatus(bus);
      FirstReadyUnique(bus.oracle, n, j);
      assert otp[..] == words;
      if j < MaxPolls {
        rc := 1;
        ghost var polls := PollLog(j + 1);
        assert bus.log == old(bus.log) + polls;
        var r := SaveOtp();
        ghost var block := SaveLog(bus.oracle, n + j + 1, OtpCount());
        LogAppend(old(bus.log), polls, block);
        assert IsOtpLog(bus.oracle, n, OtpCount()) == polls + block;
        assert otp[..] == Saved(words, bus.oracle, n + j + 1, OtpCount());
        assert IsOtpWords(words, bus.oracle, n, OtpCount()) == Saved(words, bus.oracle, n + j + 1, OtpCount());
      } else {
        assert IsOtpLog(bus.oracle, n, OtpCount()) == PollLog(MaxPolls);
        assert IsOtpWords(words, bus.oracle, n, OtpCount()) == words;
      }
    }

    /** `read_otp`: opens the OTP read, probes the six memory types in
        priority order until one is found ready, then checks the two
        sentinel words. Returns 0 and marks the OTP block valid only when a
        type was found and both sentinels hold; -1 otherwise, leaving the
        validity flag as it was (it is never cleared). */
    method ReadOtp() returns (rc: int)
      requires Valid()
      modifies this, otp, bus
      ensures Valid()
      ensures bus.log == old(bus.log) + ReadOtpLog(bus.oracle, |old(bus.log)|, OtpCount())
      ensures otp[..] == ReadOtpWords(old(otp[..]), bus.oracle, |old(bus.log)|, OtpCount())
      ensures rc == 0 || rc == -1
      ensures rc == 0 <==> ReadOtpFound(bus.oracle, |old(bus.log)|, OtpCount()) && SentinelsOk(otp[..])
      ensures State() == old(State()).(otpValid := old(otpValid) || rc == 0)
    {
      ghost var n := |bus.log|;
      var r := bus.WriteWord(0x301A, 0x0610);
      r := bus.WriteWord(0x3134, 0xCD95);
      assert bus.log == old(bus.log) + OtpHeaderLog;
      rc := ProbeOtp();
      LogAppend(old(bus.log), OtpHeaderLog, ProbeRun(bus.oracle, n + 2, 0, OtpCount()));
      assert rc > 0 <==> ReadOtpFound(bus.oracle, n, OtpCount());
      if rc > 0 {
        if otp[Sentinel0] != 0 {
          rc := -1;
        } else if otp[Sentinel1] != 0xFFFF {
          rc := -1;
        } else {
          otpValid := true;
          rc := 0;
        }
      }
    }

    /** `shading_setting`: turns lens shading off, writes the shading table
        (from the OTP block when it supplies one, each failed write retried
        once; the default table otherwise, without retry) and turns shading
        back on. Returns the status of the last table write's first attempt. */
    method ShadingSetting() returns (rc: int)
      requires Valid()
      modifies bus
      ensures bus.log == old(bus.log) + ShadingLog(bus.oracle, |old(bus.log)|, otp[..], otpValid, regs.shading)
      ensures rc == ShadingStatus(bus.oracle, |old(bus.log)| + 1, ShadingEntries(otp[..], otpValid, regs.shading),
                                  OtpShading(otp[..], otpValid))
    {
      rc := ShadingUpload(bus, otp, otpValid, regs.shading);
    }

    /** `read_awb_data`: the white-balance ratios of the OTP block. */
    method ReadAwbData() returns (r: AwbResult)
      requires Valid()
      ensures r == AwbData(otp[..], otpValid, liteOn)
    {
      if otp[4] == 0 || !otpValid {
        return AwbErr(ENODEV);
      }
      if liteOn {
        r := AwbOk(CalibInfo(otp[4], otp[6], otp[5]));
      } else {
        r := AwbOk(CalibInfo(otp[4], otp[5], otp[6]));
      }
    }

    /** One probe of `read_otp`: selects memory type `OtpTypes[k]`, starts
        the read and runs `is_otp`. */
    method ProbeType(k: nat) returns (rc: int)
      requires k < |OtpTypes| && otp.Length >= ShadingStart
      modifies otp, bus
      ensures bus.log == old(bus.log) + ProbeLog(bus.oracle, |old(bus.log)|, k, OtpCount())
      ensures rc == 1 || rc == -1
      ensures rc == 1 <==> ProbeReady(bus.oracle, |old(bus.log)|)
      ensures otp[..] == IsOtpWords(old(otp[..]), bus.oracle, |old(bus.log)| + 2, OtpCount())
    {
      var r := bus.WriteWord(RegOtpType, OtpTypes[k]);
      r := bus.WriteWord(RegOtpControl, 0x0010);
      rc := IsOtp();
    }

    /** The six probes of `read_otp`: selects each memory type in priority
        order, starts the read and runs `is_otp`, stopping at the first type
        found ready. Returns 1 when one is found, -1 otherwise. */
    method ProbeOtp() returns (rc: int)
      requires otp.Length >= ShadingStart
      modifies otp, bus
      ensures bus.log == old(bus.log) + ProbeRun(bus.oracle, |old(bus.log)|, 0, OtpCount())
      ensures otp[..] == WordsAfter(old(otp[..]), bus.oracle, |old(bus.log)|, 0, OtpCount())
      ensures rc == 1 || rc == -1
      ensures rc == 1 <==> ReadyType(bus.oracle, |old(bus.log)|, 0, OtpCount()) < |OtpTypes|
    {
      ghost var n, words, o, cnt := |bus.log|, otp[..], bus.oracle, OtpCount();
      rc := -1;
      var k := 0;
      while k < |OtpTypes|
        invariant k <= |OtpTypes|
        invariant old(bus.log) + ProbeRun(o, n, 0, cnt) == bus.log + ProbeRun(o, |bus.log|, k, cnt)
        invariant ReadyType(o, n, 0, cnt) == ReadyType(o, |bus.log|, k, cnt)
        invariant WordsAfter(words, o, n, 0, cnt) == WordsAfter(words, o, |bus.log|, k, cnt)
        invariant otp[..] == words
        invariant rc == -1
      {
        ghost var prev := bus.log;
        ghost var p := |prev|;
        ghost var before := otp[..];
        assert before == words;
        rc := ProbeType(k);
        ghost var probe := ProbeLog(o, p, k, cnt);
        assert bus.log == prev + probe;
        if rc > 0 {
          ProbeHitRun(o, p, k, cnt);
          ProbeHitType(o, p, k, cnt);
          ProbeHitWords(words, o, p, k, cnt);
          assert otp[..] == WordsAfter(words, o, p, k, cnt);
          return;
        }
        ProbeMiss(words, o, p, k, cnt);
        LogAppend(prev, probe, ProbeRun(o, |bus.log|, k + 1, cnt));
        k := k + 1;
      }
    }


    // -------------------------------------------------------------------
    // Mode sequencer

    /** The table a periodic update programs. */
    function ResTable(rt: ResType): seq<RegConf> {
      if rt == ResPreview then regs.prev else regs.snap
    }

    /** The status `sensor_setting` returns: only a periodic update that has
        to configure the CSI receiver can fail, with that call's status. */
    function SettingStatus(u: UpdateType): int
      reads this`csiConfig
    {
      if u == UpdatePeriodic && !csiConfig then bus.oracle.csiStatus else 0
    }

    /** The log of the periodic path of `sensor_setting` from position `n`,
        the lens being parked at step 0: the resolution table, the stream
        start and the move back to the saved step `stored`. */
    function PeriodicLog(n: nat, rt: ResType, stored: Word): seq<Txn>
      requires table.Length == TableSize && Sane(tuning)
      reads this`tuning, table
    {
      TableLog(bus.oracle, n, ResTable(rt)) + StartStreamLog + MoveLog(0, 0, Near, stored)
    }

    /** The log of parking the lens and stopping the stream. */
    function ParkLog(): seq<Txn>
      requires Valid()
      reads this, table
    {
      DefaultFocusLog() + StopStreamLog
    }

    /** The log after the periodic path of `sensor_setting` runs on log
        `prefix`: the resolution table, the stream start and the move from
        the parked lens back to the saved step `stored`. */
    function PeriodicAfter(prefix: seq<Txn>, rt: ResType, stored: Word): seq<Txn>
      requires table.Length == TableSize && Sane(tuning)
      reads this`tuning, table
    {
      prefix + PeriodicLog(|prefix|, rt, stored)
    }

    /** The log after `sensor_setting` has parked the lens and stopped the
        stream with log `prefix`: the path of the update type. */
    function SettingAfter(prefix: seq<Txn>, u: UpdateType, rt: ResType, stored: Word): seq<Txn>
      requires table.Length == TableSize && Sane(tuning)
      requires ShadingStart + |regs.shading| <= otp.Length && otp.Length > ShadingStart
      reads this`otpValid, this`tuning, otp, table
    {
      if u == RegInit then InitAfter(bus.oracle, prefix, regs, otp[..], otpValid) else PeriodicAfter(prefix, rt, stored)
    }

    /** The step a periodic update moves the lens back to: the saved step,
        clamped to the total step count. */
    function RestoredStep(): int
      reads this`currStepPos, this`tuning
    {
      DestStep(0, Near, currStepPos, tuning.linearTotalStep)
    }

    /** The lens code the periodic update leaves: that of the restored step,
        or 0 when there was no move. */
    function RestoredLens(): int
      requires table.Length == TableSize && Sane(tuning)
      reads this`currStepPos, this`tuning, table
    {
      if RestoredStep() == 0 then 0 else table[RestoredStep()]
    }

    /** The driver record after `sensor_setting`: the lens at step 0 after an
        init, which also marks the CSI receiver unconfigured; after a
        periodic update, which leaves it configured, the lens back at the
        saved step whenever that is within the total step count. */
    function AfterSetting(u: UpdateType): (r: Snapshot)
      requires Valid()
      reads this, table
      ensures u == RegInit ==> r.currStepPos == 0 && r.currLensPos == 0 && !r.csiConfig
      ensures u == UpdatePeriodic && currStepPos <= tuning.linearTotalStep ==>
        r.currStepPos == currStepPos && r.currLensPos == (if currStepPos == 0 then 0 else table[currStepPos]) && r.csiConfig
      ensures r.(currStepPos := currStepPos, currLensPos := currLensPos, csiConfig := csiConfig) == State()
    {
      if u == RegInit then State().(currLensPos := 0, currStepPos := 0, csiConfig := false)
      else State().(currStepPos := RestoredStep(), currLensPos := RestoredLens(), csiConfig := true)
    }

    /** `sensor_setting`: saves the focus step, parks the lens, stops the
        stream and runs the init or the periodic path. Table upload results
        are discarded; the status is that of the CSI configuration alone. */
    method SensorSetting(u: UpdateType, rt: ResType) returns (rc: int)
      requires Valid()
      modifies this, bus
      ensures Valid()
      ensures bus.log == SettingAfter(old(bus.log) + old(ParkLog()), u, rt, old(currStepPos))
      ensures rc == old(SettingStatus(u))
      ensures State() == old(AfterSetting(u))
    {
      if u == RegInit {
        rc := InitSetting();
      } else {
        rc := PeriodicSetting(rt);
      }
    }

    /** `sensor_setting` for an init update. */
    method InitSetting() returns (rc: int)
      requires Valid()
      modifies this, bus
      ensures Valid()
      ensures bus.log == InitAfter(bus.oracle, old(bus.log) + old(ParkLog()), regs, otp[..], otpValid)
      ensures rc == 0
      ensures State() == old(AfterSetting(RegInit))
    {
      Park();
      rc := InitPath();
    }

    /** `sensor_setting` for a periodic update. */
    method PeriodicSetting(rt: ResType) returns (rc: int)
      requires Valid()
      modifies this, bus
      ensures Valid()
      ensures bus.log == PeriodicAfter(old(bus.log) + old(ParkLog()), rt, old(currStepPos))
      ensures rc == old(SettingStatus(UpdatePeriodic))
      ensures State() == old(AfterSetting(UpdatePeriodic))
    {
      var stored := currStepPos;
      Park();
      rc := PeriodicPath(rt, stored);
    }

    /** The start of `sensor_setting`: the lens to step 0, the stream
        stopped. */
    method Park()
      requires Valid()
      modifies this, bus
      ensures Valid()
      ensures bus.log == old(bus.log) + old(ParkLog())
      ensures State() == old(State()).(currLensPos := 0, currStepPos := 0)
    {
      var r := SetDefaultFocus();
      StopStream();
      LogAppend(old(bus.log), old(DefaultFocusLog()), StopStreamLog);
    }

    /** The init path of `sensor_setting`, after the lens is parked. */
    method InitPath() returns (rc: int)
      requires Valid()
      modifies this, bus
      ensures Valid()
      ensures bus.log == InitAfter(bus.oracle, old(bus.log), regs, otp[..], otpValid)
      ensures rc == 0
      ensures State() == old(State()).(csiConfig := false)
    {
      InitUploads(bus, regs, otp, otpValid);
      csiConfig := false;
      rc := 0;
    }

    /** The periodic path of `sensor_setting`, after the lens is parked. */
    method PeriodicPath(rt: ResType, stored: Word) returns (rc: int)
      requires Valid()
      requires currStepPos == 0 && currLensPos == 0 && stored < TableSize
      modifies this, bus
      ensures Valid()
      ensures bus.log == PeriodicAfter(old(bus.log), rt, stored)
      ensures rc == old(SettingStatus(UpdatePeriodic))
      ensures var dest := DestStep(0, Near, stored, tuning.linearTotalStep);
        State() == old(State()).(currStepPos := dest, currLensPos := if dest == 0 then 0 else table[dest], csiConfig := true)
    {
      rc := 0;
      var r := bus.WriteTable(ResTable(rt));
      if !csiConfig {
        rc := bus.oracle.csiStatus;
        csiConfig := true;
      }
      StartStream();
      r := MoveFocus(Near, stored);
      LogAppend(old(bus.log), TableLog(bus.oracle, |old(bus.log)|, ResTable(rt)), StartStreamLog);
      LogAppend(old(bus.log), TableLog(bus.oracle, |old(bus.log)|, ResTable(rt)) + StartStreamLog, MoveLog(0, 0, Near, stored));
    }

    /** `video_config`: always runs a periodic update for the preview
        resolution; unless it failed, programs the test pattern when one is
        set, then makes the preview resolution current and records the mode.
        Returns 0 in every case. */
    method VideoConfig(mode: int) returns (rc: int)
      requires Valid()
      modifies this, bus
      ensures Valid()
      ensures rc == 0
      ensures var ok := old(SettingStatus(UpdatePeriodic)) >= 0;
        bus.log == SettingAfter(old(bus.log) + old(ParkLog()), UpdatePeriodic, ResTypeOf(old(prevRes)), old(currStepPos))
                   + (if ok then TestLog(old(setTest)) else [])
      ensures old(SettingStatus(UpdatePeriodic)) < 0 ==> State() == old(AfterSetting(UpdatePeriodic))
      ensures old(SettingStatus(UpdatePeriodic)) >= 0 ==>
        State() == old(AfterSetting(UpdatePeriodic)).(currRes := old(prevRes), sensorMode := mode)
    {
      rc := 0;
      var r := SensorSetting(UpdatePeriodic, ResTypeOf(prevRes));
      if r < 0 {
        return;
      }
      if setTest != TestOff {
        r := Test(setTest);
      }
      currRes := prevRes;
      sensorMode := mode;
    }

    /** `snapshot_config` (and `raw_snapshot_config`, which is the same
        code): runs a periodic update for the picture resolution only when it
        is not already current; unless that update failed, makes the picture
        resolution current and records the mode. Returns 0 in every case. */
    method SnapshotConfig(mode: int) returns (rc: int)
      requires Valid()
      modifies this, bus
      ensures Valid()
      ensures rc == 0
      ensures old(currRes) == old(pictRes) ==>
        bus.log == old(bus.log) && State() == old(State()).(sensorMode := mode)
      ensures old(currRes) != old(pictRes) ==>
        bus.log == SettingAfter(old(bus.log) + old(ParkLog()), UpdatePeriodic, ResTypeOf(old(pictRes)), old(currStepPos))
      ensures old(currRes) != old(pictRes) && old(SettingStatus(UpdatePeriodic)) < 0 ==>
        State() == old(AfterSetting(UpdatePeriodic))
      ensures old(currRes) != old(pictRes) && old(SettingStatus(UpdatePeriodic)) >= 0 ==>
        State() == old(AfterSetting(UpdatePeriodic)).(currRes := old(pictRes), sensorMode := mode)
    {
      rc := 0;
      if currRes != pictRes {
        var r := SensorSetting(UpdatePeriodic, ResTypeOf(pictRes));
        if r < 0 {
          return;
        }
      }
      currRes := pictRes;
      sensorMode := mode;
    }

    /** `set_sensor_mode`: the preview mode runs `video_config`, the two
        snapshot modes `snapshot_config`; any other mode is refused with
        -EINVAL and changes nothing. The resolution argument is not used. */
    method SetSensorMode(mode: int) returns (rc: int)
      requires Valid()
      modifies this, bus
      ensures Valid()
      ensures rc == if IsSensorMode(mode) then 0 else EINVAL
      ensures !IsSensorMode(mode) ==> bus.log == old(bus.log) && State() == old(State())
      ensures IsSensorMode(mode) ==> sensorMode == mode || old(SettingStatus(UpdatePeriodic)) < 0
      ensures mode == SensorPreviewMode && old(SettingStatus(UpdatePeriodic)) >= 0 ==> currRes == old(prevRes)
      ensures (mode == SensorSnapshotMode || mode == SensorRawSnapshotMode) && old(SettingStatus(UpdatePeriodic)) >= 0 ==> currRes == old(pictRes)
    {
      if mode == SensorPreviewMode {
        rc := VideoConfig(mode);
      } else if mode == SensorSnapshotMode || mode == SensorRawSnapshotMode {
        rc := SnapshotConfig(mode);
      } else {
        rc := EINVAL;
      }
    }

    /** `open_init` once the sensor is probed: the init update, the frame
        rate of 30 frames per second in Q8, and the step-position table. The
        init update reports no failure, so the open succeeds. */
    method OpenInit() returns (rc: int)
      requires Valid()
      modifies this, bus, table
      ensures Valid()
      ensures rc == 0
      ensures bus.log == InitAfter(bus.oracle, old(bus.log) + old(ParkLog()), regs, otp[..], otpValid)
      ensures State() == old(AfterSetting(RegInit)).(fps := DefaultFps)
      ensures forall i {:trigger table[i]} :: 0 <= i <= Max(1, tuning.linearTotalStep) ==> table[i] == StepCode(tuning, i)
    {
      rc := SensorSetting(RegInit, ResTypeOf(prevRes));
      if rc < 0 {
        return;
      }
      fps := DefaultFps;
      InitFocus();
    }

    /** Bus position of the model-id read of `probe_init_sensor` started at
        position `n`: right after the OTP read. */
    function ModelIdPos(n: nat): nat
      requires otp.Length >= ShadingStart
      reads this
    {
      n + |ReadOtpLog(bus.oracle, n, OtpCount())|
    }

    /** `probe_init_sensor` once the reset line is raised: reads the OTP
        block, whatever `read_otp` returns, then the model id. Fails with the
        read's status when the model-id read fails, with -ENODEV when the id
        is not 0x4B00, and succeeds otherwise. */
    method ProbeInitSensor() returns (rc: int)
      requires Valid()
      modifies this, otp, bus
      ensures Valid()
      ensures bus.log == old(bus.log) + ReadOtpLog(bus.oracle, |old(bus.log)|, OtpCount()) + [Read(RegModelId)]
      ensures otp[..] == ReadOtpWords(old(otp[..]), bus.oracle, |old(bus.log)|, OtpCount())
      ensures State() == old(State()).(otpValid := old(otpValid) ||
                                        (ReadOtpFound(bus.oracle, |old(bus.log)|, OtpCount()) && SentinelsOk(otp[..])))
      ensures rc == 0 <==> bus.oracle.Ok(ModelIdPos(|old(bus.log)|)) && bus.oracle.Value(ModelIdPos(|old(bus.log)|)) == ModelId
      ensures !bus.oracle.Ok(ModelIdPos(|old(bus.log)|)) ==> rc == EIO
      ensures rc == 0 || rc == EIO || rc == ENODEV
    {
      var otpRc := ReadOtp();
      var chipId;
      rc, chipId := bus.ReadWord(RegModelId);
      if rc < 0 {
        return;
      }
      if chipId != ModelId {
        rc := ENODEV;
      }
    }

    /** `open_init`: probes the sensor, which reads the OTP block, and once
        the model id matches runs the init update with the block just read,
        sets 30 frames per second and builds the step-position table. A
        failed probe returns its status and programs nothing more (the
        driver then frees the control record). */
    method Open() returns (rc: int)
      requires Valid()
      modifies this, otp, bus, table
      ensures Valid()
      ensures otp[..] == ReadOtpWords(old(otp[..]), bus.oracle, |old(bus.log)|, OtpCount())
      ensures otpValid == (old(otpValid) || (ReadOtpFound(bus.oracle, |old(bus.log)|, OtpCount()) && SentinelsOk(otp[..])))
      ensures rc == 0 <==> bus.oracle.Ok(ModelIdPos(|old(bus.log)|)) && bus.oracle.Value(ModelIdPos(|old(bus.log)|)) == ModelId
      ensures rc != 0 ==> bus.log == old(bus.log) + ReadOtpLog(bus.oracle, |old(bus.log)|, OtpCount()) + [Read(RegModelId)]
      ensures rc != 0 ==> State() == old(State()).(otpValid := otpValid)
      ensures rc == 0 ==>
        bus.log == InitAfter(bus.oracle, old(bus.log) + ReadOtpLog(bus.oracle, |old(bus.log)|, OtpCount()) + [Read(RegModelId)]
                                         + old(ParkLog()), regs, otp[..], otpValid)
      ensures rc == 0 ==> State() == old(AfterSetting(RegInit)).(fps := DefaultFps, otpValid := otpValid)
      ensures rc == 0 ==> forall i {:trigger table[i]} :: 0 <= i <= Max(1, tuning.linearTotalStep) ==> table[i] == StepCode(tuning, i)
    {
      rc := ProbeInitSensor();
      if rc != 0 {
        return;
      }
      assert ParkLog() == old(ParkLog());
      rc := OpenInit();
    }

    /** The reply `sensor_config` gives to a command that only reads the
        driver: its status and what it copies back. */
    function Answer(c: Command): (int, Output)
      requires Valid() && IsQuery(c)
      reads this, table, otp
    {
      match c
      case GetPictFps(prevFps) => (0, Value(PictFps(prevFps, regs.timing)))
      case GetPrevLinesPf => (0, Value(FrameLines(regs.timing, prevRes)))
      case GetPrevPixelsPl => (0, Value(LinePck(regs.timing, prevRes)))
      case GetPictLinesPf => (0, Value(FrameLines(regs.timing, pictRes)))
      case GetPictPixelsPl => (0, Value(LinePck(regs.timing, pictRes)))
      case GetPictMaxExpLc => (0, Value(PictMaxExpLineCount(regs.timing, pictRes)))
      case GetAfMaxSteps => (0, Value(tuning.linearTotalStep))
      case GetCalibData =>
        (match AwbData(otp[..], otpValid, liteOn)
         case AwbOk(info) => (0, Calib(info))
         case AwbErr(code) => (code, NoOutput))
      case Unknown => (EFAULT, NoOutput)
      case _ => (0, NoOutput)
    }

    /** `sensor_config`: dispatches one command. Queries answer from the
        driver state without bus traffic or state change; an unknown command
        is refused with -EFAULT; the other commands run their operation and
        return its status. */
    method SensorConfig(c: Command) returns (rc: int, out: Output)
      requires Valid()
      requires c.MoveFocusCmd? ==> -0x8000 <= currStepPos + Sign(c.dir) * c.steps < 0x8000
      modifies this, bus
      ensures Valid()
      ensures IsQuery(c) ==> bus.log == old(bus.log) && State() == old(State()) && (rc, out) == old(Answer(c))
      ensures !IsQuery(c) ==> out == NoOutput
      ensures c.SetFpsCmd? ==>
        rc == bus.oracle.Status(|old(bus.log)| + 1)
        && State() == old(State()).(fpsDivider := c.fpsDiv, pictFpsDivider := c.pictFpsDiv)
      ensures c.SetExpGain? || c.SetPictExpGainCmd? ==>
        rc == bus.oracle.Status(|old(bus.log)| + 2)
        && bus.log == old(bus.log) + old(ExpGainLog(c.gain, c.line))
                      + (if c.SetPictExpGainCmd? then [WordWrite(RegResetControl, 0x065E)] else [])
        && State() == if old(sensorMode) == SensorPreviewMode
                      then old(State()).(myRegGain := Min(c.gain, MaxLegalGain), myRegLineCount := U16(c.line))
                      else old(State())
      ensures c.SetMode? ==> rc == if IsSensorMode(c.mode) then 0 else EINVAL
      ensures c.SetMode? && !IsSensorMode(c.mode) ==> bus.log == old(bus.log) && State() == old(State())
      ensures c.SetMode? && IsSensorMode(c.mode) ==> sensorMode == c.mode || old(SettingStatus(UpdatePeriodic)) < 0
      ensures c.SetMode? && c.mode == SensorPreviewMode && old(SettingStatus(UpdatePeriodic)) >= 0 ==>
        currRes == old(prevRes)
      ensures c.SetMode? && (c.mode == SensorSnapshotMode || c.mode == SensorRawSnapshotMode) && old(SettingStatus(UpdatePeriodic)) >= 0 ==>
        currRes == old(pictRes)
      ensures c.MoveFocusCmd? ==>
        rc == 0 && currStepPos == DestStep(old(currStepPos), c.dir, c.steps, tuning.linearTotalStep)
      ensures c.SetDefaultFocusCmd? || c.SetEffect? ==>
        currStepPos == 0 && currLensPos == 0 && rc == if old(currStepPos) == 0 then bus.oracle.Status(|old(bus.log)|) else 0
    {
      out := NoOutput;
      match c {
        case GetPictFps(prevFps) =>
          rc, out := 0, Value(PictFps(prevFps, regs.timing));
        case GetPrevLinesPf =>
          rc, out := 0, Value(FrameLines(regs.timing, prevRes));
        case GetPrevPixelsPl =>
          rc, out := 0, Value(LinePck(regs.timing, prevRes));
        case GetPictLinesPf =>
          rc, out := 0, Value(FrameLines(regs.timing, pictRes));
        case GetPictPixelsPl =>
          rc, out := 0, Value(LinePck(regs.timing, pictRes));
        case GetPictMaxExpLc =>
          rc, out := 0, Value(PictMaxExpLineCount(regs.timing, pictRes));
        case SetFpsCmd(fpsDiv, pictFpsDiv) =>
          rc := SetFps(fpsDiv, pictFpsDiv);
        case SetExpGain(gain, line) =>
          rc := WriteExpGain(gain, line);
        case SetPictExpGainCmd(gain, line) =>
          rc := SetPictExpGain(gain, line);
        case SetMode(mode) =>
          rc := SetSensorMode(mode);
        case PowerDown =>
          rc := 0;
        case MoveFocusCmd(dir, steps) =>
          rc := MoveFocus(dir, steps);
        case SetDefaultFocusCmd =>
          rc := SetDefaultFocus();
        case SetEffect =>
          rc := SetDefaultFocus();
        case GetAfMaxSteps =>
          rc, out := 0, Value(tuning.linearTotalStep);
        case SendWbInfo =>
          rc := 0;
        case GetCalibData =>
          var awb := ReadAwbData();
          if awb.AwbErr? {
            rc := awb.code;
          } else {
            rc, out := 0, Calib(awb.info);
          }
        case Unknown =>
          rc := EFAULT;
      }
    }
  }

  /** The write of `test`: the low byte of the mode to the test-pattern
      register, and nothing for `TEST_OFF`. */
  function TestLog(mo: nat): seq<Txn> {
    if mo == TestOff then [] else [ByteWrite(RegTestPatternMode, mo % 0x100)]
  }

  /** The periodic table a resolution is programmed with. */
  function ResTypeOf(res: Resolution): ResType {
    if res == QtrSize then ResPreview else ResCapture
  }

  /** The modes `set_sensor_mode` accepts. */
  predicate IsSensorMode(mode: int) {
    mode == SensorPreviewMode || mode == SensorSnapshotMode || mode == SensorRawSnapshotMode
  }

  /** The commands that only read the driver, or do nothing. */
  predicate IsQuery(c: Command) {
    !(c.SetFpsCmd? || c.SetExpGain? || c.SetPictExpGainCmd? || c.SetMode? || c.MoveFocusCmd?
      || c.SetDefaultFocusCmd? || c.SetEffect?)
  }

  /** The log of the init path of `sensor_setting` from position `n`: the
      MIPI, recommended-settings, shading and PLL uploads, in order, each
      going on whatever the previous one returned. */
  function InitLog(o: Oracle, n: nat, regs: RegTables, words: seq<Word>, valid: bool): seq<Txn>
    requires |words| > ShadingStart && ShadingStart + |regs.shading| <= |words|
  {
    TableLog(o, n, regs.mipi) + TableLog(o, RecAt(o, n, regs), regs.rec)
      + ShadingLog(o, ShadingAt(o, n, regs), words, valid, regs.shading)
      + TableLog(o, PllAt(o, n, regs, words, valid), regs.pll)
  }

  /** The log after the init path of `sensor_setting` runs on log `prefix`. */
  function InitAfter(o: Oracle, prefix: seq<Txn>, regs: RegTables, words: seq<Word>, valid: bool): seq<Txn>
    requires |words| > ShadingStart && ShadingStart + |regs.shading| <= |words|
  {
    prefix + InitLog(o, |prefix|, regs, words, valid)
  }

  /** Log positions at which the recommended settings, the shading table and
      the PLL table of the init path start. */
  function RecAt(o: Oracle, n: nat, regs: RegTables): nat {
    n + |TableLog(o, n, regs.mipi)|
  }

  function ShadingAt(o: Oracle, n: nat, regs: RegTables): nat {
    RecAt(o, n, regs) + |TableLog(o, RecAt(o, n, regs), regs.rec)|
  }

  function PllAt(o: Oracle, n: nat, regs: RegTables, words: seq<Word>, valid: bool): nat
    requires |words| > ShadingStart && ShadingStart + |regs.shading| <= |words|
  {
    ShadingAt(o, n, regs) + |ShadingLog(o, ShadingAt(o, n, regs), words, valid, regs.shading)|
  }

  /** The uploads of the init path of `sensor_setting`. */
  method InitUploads(bus: I2cBus, regs: RegTables, otp: array<Word>, valid: bool)
    requires otp.Length > ShadingStart && ShadingStart + |regs.shading| <= otp.Length
    modifies bus
    ensures bus.log == old(bus.log) + InitLog(bus.oracle, |old(bus.log)|, regs, otp[..], valid)
  {
    ghost var n, o, words := |bus.log|, bus.oracle, otp[..];
    ghost var mipi := TableLog(o, n, regs.mipi);
    ghost var rec := TableLog(o, RecAt(o, n, regs), regs.rec);
    ghost var shading := ShadingLog(o, ShadingAt(o, n, regs), words, valid, regs.shading);
    ghost var pll := TableLog(o, PllAt(o, n, regs, words, valid), regs.pll);
    var r := bus.WriteTable(regs.mipi);
    assert bus.log == old(bus.log) + mipi;
    r := bus.WriteTable(regs.rec);
    LogAppend(old(bus.log), mipi, rec);
    assert bus.log == old(bus.log) + (mipi + rec);
    r := ShadingUpload(bus, otp, valid, regs.shading);
    assert otp[..] == words;
    LogAppend(old(bus.log), mipi + rec, shading);
    assert bus.log == old(bus.log) + (mipi + rec + shading);
    r := bus.WriteTable(regs.pll);
    LogAppend(old(bus.log), mipi + rec + shading, pll);
    assert bus.log == old(bus.log) + (mipi + rec + shading + pll);
    assert InitLog(o, n, regs, words, valid) == mipi + rec + shading + pll;
  }

  /** The body of `shading_setting`, on the OTP words and validity flag. */
  method ShadingUpload(bus: I2cBus, otp: array<Word>, valid: bool, shading: seq<RegConf>) returns (rc: int)
    requires otp.Length > ShadingStart && ShadingStart + |shading| <= otp.Length
    modifies bus
    ensures bus.log == old(bus.log) + ShadingLog(bus.oracle, |old(bus.log)|, otp[..], valid, shading)
    ensures rc == ShadingStatus(bus.oracle, |old(bus.log)| + 1, ShadingEntries(otp[..], valid, shading),
                                OtpShading(otp[..], valid))
  {
    ghost var n := |bus.log|;
    ghost var writes := ShadingWrites(bus.oracle, n + 1, ShadingEntries(otp[..], valid, shading),
                                      OtpShading(otp[..], valid));
    var r := bus.WriteWord(RegShadingControl, 0);
    if otp[ShadingStart] == 0 || !valid {
      rc := DefaultShadingWrites(bus, shading);
    } else {
      rc := OtpShadingWrites(bus, otp, shading);
    }
    r := bus.WriteWord(RegShadingControl, 0x8000);
    LogAppend(old(bus.log), [WordWrite(RegShadingControl, 0)], writes);
    LogAppend(old(bus.log), [WordWrite(RegShadingControl, 0)] + writes, [WordWrite(RegShadingControl, 0x8000)]);
  }

  /** The loop of `init_focus`: entry 0 is 0, entry 1 the initial AF value,
      and each entry up to the linear total step the previous one plus the
      step increment, stored in 16 bits and clamped to 255. */
  method BuildTable(table: array<int>, t: Tunables)
    requires Max(1, t.linearTotalStep) < table.Length
    modifies table
    ensures forall i {:trigger table[i]} :: 0 <= i <= Max(1, t.linearTotalStep) ==> table[i] == StepCode(t, i)
    ensures forall i :: Max(1, t.linearTotalStep) < i < table.Length ==> table[i] == old(table[i])
  {
    table[0] := 0;
    table[1] := t.afInitialValue;
    var i := 2;
    while i <= t.linearTotalStep
      invariant 2 <= i <= Max(2, t.linearTotalStep + 1)
      invariant forall k {:trigger table[k]} :: 0 <= k < i ==> table[k] == StepCode(t, k)
      invariant forall k :: i <= k < table.Length ==> table[k] == old(table[k])
    {
      var sum := U16(table[i - 1] + StepIncrement(t, i));
      var code := if sum > MaxCode then MaxCode else sum;
      ClampedSumTruncates(table[i - 1], StepIncrement(t, i));
      assert code == StepCode(t, i);
      table[i] := code;
      i := i + 1;
    }
  }

  /** The writes of one lens move: the damped loop (when damping is on),
      then the destination code with its settle delay unless the loop
      stopped on it. */
  method LensWrites(bus: I2cBus, curr: int, destLens: int, s: int, small: int, wait: nat, damping: bool)
    requires s == 1 || s == -1
    requires small > 0
    modifies bus
    ensures bus.log == old(bus.log) + VcmLog(LensCodes(curr, destLens, s, small, damping), wait)
  {
    var lens := curr;
    ghost var written: seq<int> := [];
    if damping {
      lens := DampedWrites(bus, curr, destLens, s, small, wait);
      written := DampedCodes(curr, destLens, s, small);
    }
    assert bus.log == old(bus.log) + VcmLog(written, wait);
    assert LensCodes(curr, destLens, s, small, damping) == written + (if lens != destLens then [destLens] else []);
    if lens != destLens {
      var r := bus.WriteWord(RegVcmNewCode, U16(destLens));
      bus.Delay(wait * 50);
      VcmLogConcat(written, [destLens], wait);
      assert [destLens][1..] == [];
      assert VcmLog([destLens], wait) == [WordWrite(RegVcmNewCode, U16(destLens)), Settle(wait * 50)];
      LogAppend(old(bus.log), VcmLog(written, wait), VcmLog([destLens], wait));
    } else {
      assert written + [] == written;
    }
  }

  /** The default-table loop of `shading_setting`: writes every entry once,
      keeping the status of the last write. */
  method DefaultShadingWrites(bus: I2cBus, shading: seq<RegConf>) returns (rc: int)
    modifies bus
    ensures bus.log == old(bus.log) + ShadingWrites(bus.oracle, |old(bus.log)|, shading, false)
    ensures rc == ShadingStatus(bus.oracle, |old(bus.log)|, shading, false)
  {
    ghost var n := |bus.log|;
    rc := 0;
    var i := 0;
    while i < |shading|
      invariant 0 <= i <= |shading|
      invariant bus.log == old(bus.log) + ShadingWrites(bus.oracle, n, shading[..i], false)
      invariant rc == ShadingStatus(bus.oracle, n, shading[..i], false)
    {
      rc := bus.WriteWord(shading[i].waddr, shading[i].wdata);
      assert shading[..i + 1][..i] == shading[..i];
      i := i + 1;
    }
    assert shading[..i] == shading;
  }

  /** The OTP-table loop of `shading_setting`: writes each default address
      with the OTP word from index 8 on, retrying a failed write once and
      keeping the status of each entry's first attempt. */
  method OtpShadingWrites(bus: I2cBus, otp: array<Word>, shading: seq<RegConf>) returns (rc: int)
    requires ShadingStart + |shading| <= otp.Length
    modifies bus
    ensures bus.log == old(bus.log) + ShadingWrites(bus.oracle, |old(bus.log)|, OtpShadingTable(otp[..], shading), true)
    ensures rc == ShadingStatus(bus.oracle, |old(bus.log)|, OtpShadingTable(otp[..], shading), true)
  {
    ghost var n, es := |bus.log|, OtpShadingTable(otp[..], shading);
    rc := 0;
    var i := 0;
    while i < |shading|
      invariant 0 <= i <= |shading|
      invariant bus.log == old(bus.log) + ShadingWrites(bus.oracle, n, es[..i], true)
      invariant rc == ShadingStatus(bus.oracle, n, es[..i], true)
    {
      assert es[i] == RegConf(shading[i].waddr, otp[ShadingStart + i]);
      rc := bus.WriteWord(shading[i].waddr, otp[ShadingStart + i]);
      if rc < 0 {
        var r := bus.WriteWord(shading[i].waddr, otp[ShadingStart + i]);
      }
      assert es[..i + 1][..i] == es[..i];
      i := i + 1;
    }
    assert es[..i] == es;
  }

  /** The damped loop of `move_focus`: steps the lens code by `small`
      towards `dest`, writing each code that does not pass it, each write
      followed by the settle delay; returns the code it stopped at. */
  method DampedWrites(bus: I2cBus, curr: int, dest: int, s: int, small: int, wait: nat) returns (lens: int)
    requires s == 1 || s == -1
    requires small > 0
    modifies bus
    ensures bus.log == old(bus.log) + VcmLog(DampedCodes(curr, dest, s, small), wait)
    ensures lens == DampedEnd(curr, dest, s, small)
  {
    lens := curr;
    while NotPast(s, lens + Offset(s, small), dest)
      invariant old(bus.log) + VcmLog(DampedCodes(curr, dest, s, small), wait)
        == bus.log + VcmLog(DampedCodes(lens, dest, s, small), wait)
      invariant DampedEnd(curr, dest, s, small) == DampedEnd(lens, dest, s, small)
      decreases Offset(s, dest - lens)
    {
      var next := lens + Offset(s, small);
      var r := bus.WriteWord(RegVcmNewCode, U16(next));
      bus.Delay(wait * 50);
      lens := next;
    }
  }

  /** The polling loop of `is_otp`: reads the OTP status register up to
      five times and stops at the first ready status, returning its index
      (5 when none is ready). A failed read leaves the previous value
      (initially 0) in place. */
  method PollOtpStatus(bus: I2cBus) returns (j: nat)
    modifies bus
    ensures j <= MaxPolls
    ensures j < MaxPolls ==> PollReady(bus.oracle, |old(bus.log)|, j)
    ensures forall k :: 0 <= k < j ==> !PollReady(bus.oracle, |old(bus.log)|, k)
    ensures bus.log == old(bus.log) + PollLog(Min(j + 1, MaxPolls))
  {
    ghost var n := |bus.log|;
    var value: Word := 0;
    j := 0;
    while j < MaxPolls
      invariant j <= MaxPolls
      invariant forall k :: 0 <= k < j ==> !PollReady(bus.oracle, n, k)
      invariant j > 0 ==> value == PollValue(bus.oracle, n, j - 1)
      invariant j == 0 ==> value == 0
      invariant bus.log == old(bus.log) + PollLog(j)
    {
      var r, v := bus.ReadWord(RegOtpControl);
      if r == 0 {
        value := v;
      }
      assert value == PollValue(bus.oracle, n, j);
      assert PollLog(j + 1) == PollLog(j) + [Read(RegOtpControl)];
      if OtpReady(value) {
        return;
      }
      j := j + 1;
    }
  }
}
