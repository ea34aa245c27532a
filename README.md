# MT9E013 camera sensor driver, modelled in Dafny

This project models the control logic of the MT9E013 image-sensor driver for
MSM camera platforms (`drivers/media/platform/msm_huawei/mt9e013.c`) and proves
properties of that model. The driver talks to the sensor over a two-wire
register bus. It keeps a control record (mode, frame-rate dividers, lens and
step position, gain and line count, resolutions, test pattern), a 42-entry
table that maps focus steps to lens codes, a set of autofocus tunables that a
debug interface can rewrite, an OTP (one-time-programmable) calibration block
with a validity flag, and a flag that says whether the CSI receiver has been
configured.

The model has seven modules:

- `Arith`: the C integer widths the driver computes in (`uint16_t` and
  `uint32_t` wrap-around) and the bit fields the debug setters extract.
- `Bus`: how register reads and writes are framed as bytes; the transaction
  log that stands in for the bus; the oracle that decides which transactions
  fail and what reads return; `write_w_table`.
- `Tuning`: the autofocus tunables and the debug setters and getters that pack
  them into a 64-bit value.
- `FocusSpec`: the step-position table `init_focus` builds, the clamped
  destination of `move_focus`, the choice of damping profile, and the lens
  codes a move writes.
- `Exposure`: the fixed-point frame-rate, line-count and gain arithmetic
  (scale 0x400).
- `OtpSpec`: status polling, the block read, the probe of six memory types in
  priority order, the sentinel check, and the two consumers that check
  validity (lens shading and white balance).
- `Sensor`: the class `Mt9e013` holds the driver state.
  - It has the control record's fields, the step table and the OTP words as
    arrays, the tunables, the OTP validity flag and the CSI flag.
  - Its methods are the driver's operations: streaming, focus, exposure, OTP,
    the `sensor_setting` sequencer, the mode configuration functions,
    `open_init` after the probe, and the `sensor_config` dispatch.
  - Each method states its new bus log and its new state against the
    specification functions of the other modules.

Every register access appends a `Txn` to the log of the `I2cBus` object. The
log's length is the position of the next transaction. The oracle decides, by
position, whether a transaction fails and what a read returns. So each
operation's contract gives the exact log and the exact result it produces for
every bus behaviour.

## Model

| member | source | states |
|---|---|---|
| Bus.WordFrame | drivers/media/platform/msm_huawei/mt9e013.c:186-203 | a word write goes on the wire as 4 bytes, big-endian address then big-endian data, and both are recovered from the bytes |
| Bus.ByteFrame | drivers/media/platform/msm_huawei/mt9e013.c:205-221 | a byte write goes on the wire as 3 bytes, big-endian address then the data byte, and both are recovered |
| Bus.FrameRoundTrip | drivers/media/platform/msm_huawei/mt9e013.c:186-221 | decoding the frame of any write gives back that write: address, data and width |
| Bus.FrameInjective | drivers/media/platform/msm_huawei/mt9e013.c:186-221 | two different writes never produce the same bytes on the wire |
| Bus.ReadValue | drivers/media/platform/msm_huawei/mt9e013.c:165-184 | a 2-byte read yields the big-endian word of the two bytes; any other length yields the first byte |
| Bus.ReadDecodesFrame | drivers/media/platform/msm_huawei/mt9e013.c:181-194 | reading back the data bytes a word write frames gives the written word |
| Bus.I2cBus.WriteWord | drivers/media/platform/msm_huawei/mt9e013.c:186-203 | `write_w_sensor` logs one word write and returns 0 or -EIO, as the bus decides for that transaction |
| Bus.I2cBus.WriteByte | drivers/media/platform/msm_huawei/mt9e013.c:205-221 | `write_b_sensor` logs one byte write and returns its status |
| Bus.I2cBus.ReadWord | drivers/media/platform/msm_huawei/mt9e013.c:165-184 | `i2c_read` logs one read; the value is the bus's answer when the status is 0 |
| Bus.TableWrites | drivers/media/platform/msm_huawei/mt9e013.c:223-236 | the writes of a whole table are one word write per entry, in table order |
| Bus.TableLog | drivers/media/platform/msm_huawei/mt9e013.c:223-236 | `write_w_table` logs the entries up to and including the first failing write |
| Bus.TableLogStopsAtFailure | drivers/media/platform/msm_huawei/mt9e013.c:223-236 | the upload writes a prefix of the table in order; it returns 0 exactly when the table is non-empty and every write succeeded; otherwise the last logged write is the only one that failed, and an empty table gives -EIO |
| Bus.I2cBus.WriteTable | drivers/media/platform/msm_huawei/mt9e013.c:223-236 | the loop of `write_w_table` produces that log and status |
| Tuning.DefaultsSane | drivers/media/platform/msm_huawei/mt9e013.c:64-84 | the initial tunables keep the total step count within the 42-entry table and every damping step positive |
| Tuning.SetSwDamping | drivers/media/platform/msm_huawei/mt9e013.c:1127-1131 | the damping switch becomes the low 16 bits of the value; nothing else changes |
| Tuning.SetAfCodestep | drivers/media/platform/msm_huawei/mt9e013.c:1141-1146 | the linear code per step becomes the low 16 bits of the value; nothing else changes |
| Tuning.SetAfNonlinear | drivers/media/platform/msm_huawei/mt9e013.c:1156-1161 | only the non-linear code per step and the boundary change, and sanity is kept |
| Tuning.GetAfNonlinear | drivers/media/platform/msm_huawei/mt9e013.c:1163-1168 | the getter as evidently intended: boundary and code per step packed into 32 bits |
| Tuning.NonlinearRoundTrip | drivers/media/platform/msm_huawei/mt9e013.c:1156-1168 | reading back the non-linear tunables gives the low 32 bits of what was written |
| Tuning.GetAfNonlinearAsWritten | drivers/media/platform/msm_huawei/mt9e013.c:1163-1168 | the getter as written agrees with the intended one below boundary 0x8000 and sign-extends from there on |
| Tuning.NonlinearAsWrittenSignExtends | drivers/media/platform/msm_huawei/mt9e013.c:1163-1168 | writing 0x8000_0000 reads back as 0xFFFF_FFFF_8000_0000 through the getter as written |
| Tuning.SetAfStepparam | drivers/media/platform/msm_huawei/mt9e013.c:1172-1184 | the four step bytes go to default, coarse, fine and snap; forward copies snap; no other tunable changes |
| Tuning.StepparamRoundTrip | drivers/media/platform/msm_huawei/mt9e013.c:1172-1184 | the stored step sizes keep every bit of the low 32 bits written |
| Tuning.SetAfTimeparam | drivers/media/platform/msm_huawei/mt9e013.c:1193-1205 | the four time bytes go to default, coarse, fine and snap; forward copies snap; no other tunable changes |
| Tuning.TimeparamRoundTrip | drivers/media/platform/msm_huawei/mt9e013.c:1193-1205 | the stored settle times keep every bit of the low 32 bits written |
| Tuning.SetLinearTotalStep | drivers/media/platform/msm_huawei/mt9e013.c:1214-1219 | bytes 0-2 become the total step count, the damping threshold and the step jump; sanity is kept only for a total below 42 |
| Tuning.LinearTotalStepRoundTrip | drivers/media/platform/msm_huawei/mt9e013.c:1214-1219 | the three stored bytes give back the low 24 bits written |
| Tuning.SetAfInitial | drivers/media/platform/msm_huawei/mt9e013.c:1259-1267 | bytes 0-2 become the first lens code, the forward step and the forward time; nothing else changes |
| Tuning.AfInitialRoundTrip | drivers/media/platform/msm_huawei/mt9e013.c:1259-1267 | the three stored bytes give back the low 24 bits written |
| FocusSpec.StepCode | drivers/media/platform/msm_huawei/mt9e013.c:474-493 | entry 0 of the table is 0, entry 1 the initial AF value, and every later entry is at most 255 |
| FocusSpec.ClampedSum | drivers/media/platform/msm_huawei/mt9e013.c:479-492 | a table sum is at most 255, and it is the exact sum when that is at most 255 |
| FocusSpec.ClampedSumTruncates | drivers/media/platform/msm_huawei/mt9e013.c:479-492 | the sum is stored in a 16-bit entry, so it wraps before it is clamped |
| FocusSpec.StepCodeInRange | drivers/media/platform/msm_huawei/mt9e013.c:474-493 | every entry is a lens code (0 to 255) when the initial value is |
| FocusSpec.StepCodeStep | drivers/media/platform/msm_huawei/mt9e013.c:479-492 | without 16-bit wrap, each entry is min(255, previous entry + increment) and at least the previous entry |
| FocusSpec.StepCodeMonotone | drivers/media/platform/msm_huawei/mt9e013.c:474-493 | without 16-bit wrap the table is non-decreasing |
| FocusSpec.StepCodeLinearRegion | drivers/media/platform/msm_huawei/mt9e013.c:479-492 | below the clamp, an entry past the boundary is the boundary entry plus one linear step per index |
| FocusSpec.LinearStep | drivers/media/platform/msm_huawei/mt9e013.c:484-488 | one linear step below the clamp adds exactly the linear code per step |
| FocusSpec.DefaultTableStart | drivers/media/platform/msm_huawei/mt9e013.c:474-493 | with the default tunables the table starts 0, 25, 50, 53, 56 |
| FocusSpec.DefaultTableEnd | drivers/media/platform/msm_huawei/mt9e013.c:474-493 | with the default tunables the last entry (step 41) is 167 |
| FocusSpec.DestStep | drivers/media/platform/msm_huawei/mt9e013.c:397-403 | the destination step is the requested one when it lies in [0, total], 0 below that range and total above it |
| FocusSpec.SelectProfile | drivers/media/platform/msm_huawei/mt9e013.c:411-436 | first match wins: far moves use snap from the damping threshold on, fine below it for at most 4 steps and the default profile otherwise; near moves use forward beyond the step jump and coarse otherwise (step and wait both); the chosen step is positive |
| FocusSpec.OffsetIsProduct | drivers/media/platform/msm_huawei/mt9e013.c:438-442 | the loop's step and stop test are the driver's products with the direction sign |
| FocusSpec.DampedCodesCount | drivers/media/platform/msm_huawei/mt9e013.c:438-447 | the damped loop writes as many codes as whole small steps fit between start and destination |
| FocusSpec.DampedCodesAt | drivers/media/platform/msm_huawei/mt9e013.c:438-447 | damped code k is the start plus k + 1 small steps in the move's direction |
| FocusSpec.DampedCodeBetween | drivers/media/platform/msm_huawei/mt9e013.c:438-447 | every damped code lies between start and destination and differs from the start |
| FocusSpec.DampedEndIsLast | drivers/media/platform/msm_huawei/mt9e013.c:438-450 | the lens position the loop leaves is the last code written, or the start when none was |
| FocusSpec.LensCodesLand | drivers/media/platform/msm_huawei/mt9e013.c:438-455 | a move writes nothing when the lens is already at the destination code; otherwise its last write is the destination code, and every code lies between start and destination |
| FocusSpec.LoopCodeIsDamped | drivers/media/platform/msm_huawei/mt9e013.c:438-442 | with a positive small step, the loop variable of the `for` at line 438 after `k` iterations is the `k`-th damped code |
| FocusSpec.ZeroStepNeverExits | drivers/media/platform/msm_huawei/mt9e013.c:438-442 | with a small step of 0 the loop variable stays at the start, and the loop test keeps holding on every iteration |
| FocusSpec.ZeroStepparamHangsFarMove | drivers/media/platform/msm_huawei/mt9e013.c:1172-1184 | after `set_af_stepparam(0)` every far profile has small step 0, and a damped far move from above the destination never leaves the loop |
| FocusSpec.TotalStepOverrunsTable | drivers/media/platform/msm_huawei/mt9e013.c:479 | a stored total byte of 42 or more makes the last index `init_focus` writes lie past the 42-entry table, and the tunables are no longer sane |
| FocusSpec.VcmLog | drivers/media/platform/msm_huawei/mt9e013.c:443-453 | each lens code is one lens register write followed by one settle delay |
| FocusSpec.VcmLogConcat | drivers/media/platform/msm_huawei/mt9e013.c:443-453 | the log of a run of codes followed by another run is the concatenation of their logs |
| Exposure.PictFps | drivers/media/platform/msm_huawei/mt9e013.c:266-283 | the capture frame rate: the preview fps times the divider built from the two `uint32` ratios, wrapped to 32 bits, over 0x400, cut to 16 bits; never above the preview fps when the divider is at most 0x400 |
| Exposure.FrameLines | drivers/media/platform/msm_huawei/mt9e013.c:285-291 | lines per frame of the table for a resolution: one of the two tables' frame lengths, non-zero at full size |
| Exposure.LinePck | drivers/media/platform/msm_huawei/mt9e013.c:293-299 | pixels per line of the table for a resolution: one of the two tables' line lengths, non-zero at full size |
| Exposure.PictMaxExpLineCount | drivers/media/platform/msm_huawei/mt9e013.c:317-325 | the maximum exposure line count is exactly 24 frames of the picture resolution |
| Exposure.PictFpsSameTiming | drivers/media/platform/msm_huawei/mt9e013.c:266-283 | with identical preview and snapshot timing the capture frame rate equals the preview frame rate |
| Exposure.PictFpsNotFaster | drivers/media/platform/msm_huawei/mt9e013.c:266-283 | a snapshot frame at least as long as the preview frame never gives a faster capture frame rate |
| Exposure.ScaledFrameLinesUnity | drivers/media/platform/msm_huawei/mt9e013.c:331-339 | a divider of 0x400 leaves the frame length unchanged |
| Exposure.ScaledLine | drivers/media/platform/msm_huawei/mt9e013.c:359-367 | the scaled line count is below 2^32 / 0x400, as the 32-bit product divided by 0x400 |
| Exposure.ScaledLineUnity | drivers/media/platform/msm_huawei/mt9e013.c:359-367 | a divider of 0x400 leaves a line count unchanged when its product fits 32 bits |
| Exposure.SetRangeBit | drivers/media/platform/msm_huawei/mt9e013.c:369-369 | `gain \| 0x1000` sets bit 12 and keeps every other bit |
| Exposure.GainRegister | drivers/media/platform/msm_huawei/mt9e013.c:352-369 | the gain word written has the range bit set and no bit above it |
| Exposure.GainRegisterDecodes | drivers/media/platform/msm_huawei/mt9e013.c:352-369 | the low bits of the gain word are the gain clamped to 0xE7F |
| OtpSpec.OtpReadyBits | drivers/media/platform/msm_huawei/mt9e013.c:539-539 | `(value \| 0xFF9F) == 0xFFFF` holds exactly when status bits 5 and 6 are both set |
| OtpSpec.FirstReady | drivers/media/platform/msm_huawei/mt9e013.c:536-544 | the poll that ends `is_otp` is the first ready one among at most five, or 5 when none is ready |
| OtpSpec.FirstReadyUnique | drivers/media/platform/msm_huawei/mt9e013.c:536-544 | any index that is the first ready poll is that poll |
| OtpSpec.IsOtpPollsAtMostFive | drivers/media/platform/msm_huawei/mt9e013.c:536-544 | `is_otp` logs at most five polls plus the block read, and exactly five polls when none is ready |
| OtpSpec.IsOtpSelectsNothing | drivers/media/platform/msm_huawei/mt9e013.c:530-547 | `is_otp` only reads: it selects no memory type |
| OtpSpec.ProbeSelects | drivers/media/platform/msm_huawei/mt9e013.c:558-560 | one probe selects its own memory type exactly once |
| OtpSpec.ProbeMiss | drivers/media/platform/msm_huawei/mt9e013.c:558-604 | a probe that finds nothing ready hands over to the next memory type right after its own log |
| OtpSpec.ProbeHitRun | drivers/media/platform/msm_huawei/mt9e013.c:558-604 | a probe that finds the block ready is the last probe |
| OtpSpec.ProbeHitType | drivers/media/platform/msm_huawei/mt9e013.c:558-604 | a probe that finds the block ready selects its own type as the result |
| OtpSpec.ProbeHitWords | drivers/media/platform/msm_huawei/mt9e013.c:558-604 | the OTP words after probing are those saved by the first ready probe |
| OtpSpec.ProbesSelectInOrder | drivers/media/platform/msm_huawei/mt9e013.c:558-604 | the probes select the memory types in priority order, up to and including the first one found ready |
| OtpSpec.ReadOtpProbesInOrder | drivers/media/platform/msm_huawei/mt9e013.c:551-607 | `read_otp` selects 0x3500, 0x3400, ..., 0x3000 in that order and stops at the first one found ready; with none ready it selects all six |
| OtpSpec.AwbData | drivers/media/platform/msm_huawei/mt9e013.c:665-684 | the call fails with -ENODEV exactly when the block is invalid or word 4 is 0; otherwise r/g is word 4, and words 5 and 6 are reported in the order set by the LiteOn module |
| OtpSpec.OtpShadingTable | drivers/media/platform/msm_huawei/mt9e013.c:648-651 | the OTP shading table has one entry per default entry |
| OtpSpec.ShadingEntries | drivers/media/platform/msm_huawei/mt9e013.c:637-651 | the programmed shading table always has the default table's addresses, in order |
| OtpSpec.ShadingUsesOtpOnlyWhenValid | drivers/media/platform/msm_huawei/mt9e013.c:637-651 | without validity, or with OTP word 8 equal to 0, the default shading values are written; otherwise OTP words 8 onwards are written |
| OtpSpec.ShadingWritesNoRetry | drivers/media/platform/msm_huawei/mt9e013.c:639-643 | the default shading loop writes every entry exactly once, in order |
| Sensor.Mt9e013.constructor | drivers/media/platform/msm_huawei/mt9e013.c:873-884 | the control record starts zeroed, with both dividers at 0x400, test off, preview at quarter size and picture at full size |
| Sensor.Mt9e013.GroupHold | drivers/media/platform/msm_huawei/mt9e013.c:238-248 | the parameter hold is one byte write of 1 or 0 |
| Sensor.Mt9e013.StartStream | drivers/media/platform/msm_huawei/mt9e013.c:250-257 | `start_stream` writes exactly its five registers, in order |
| Sensor.Mt9e013.StopStream | drivers/media/platform/msm_huawei/mt9e013.c:259-264 | `stop_stream` writes exactly its three registers, in order |
| Sensor.Mt9e013.InitFocus | drivers/media/platform/msm_huawei/mt9e013.c:474-493 | the table up to the total step count is `StepCode`; later entries keep their values |
| Sensor.BuildTable | drivers/media/platform/msm_huawei/mt9e013.c:476-492 | the in-place fill loop of `init_focus` produces that table |
| Sensor.Mt9e013.MoveFocus | drivers/media/platform/msm_huawei/mt9e013.c:386-458 | the step becomes the clamped destination; an unchanged step means no write and no state change; otherwise the lens becomes the table code of that step; always returns 0 |
| Sensor.Mt9e013.DriveLens | drivers/media/platform/msm_huawei/mt9e013.c:411-455 | the lens motion logs the damped codes and the final code, then sets the lens position to the destination |
| Sensor.LensWrites | drivers/media/platform/msm_huawei/mt9e013.c:438-454 | the damped loop followed by the final write of the destination code when the loop did not land on it |
| Sensor.DampedWrites | drivers/media/platform/msm_huawei/mt9e013.c:438-447 | the damped loop writes each code with its settle delay and stops at the last code that does not pass the destination |
| Sensor.Mt9e013.SetDefaultFocus | drivers/media/platform/msm_huawei/mt9e013.c:460-472 | always leaves step 0 and lens 0; from step 0 it still writes lens code 0 and returns that write's status, otherwise it moves far by the current step |
| Sensor.Mt9e013.SetFps | drivers/media/platform/msm_huawei/mt9e013.c:327-348 | the frame length is computed with the divider in force before the call and written inside a parameter hold; then the new dividers are stored; returns the frame-length write's status |
| Sensor.Mt9e013.ModeFrameLines | drivers/media/platform/msm_huawei/mt9e013.c:331-339 | at a divider of 0x400 the frame length is that of the mode's table |
| Sensor.Mt9e013.FrameLinesGetterMatchesSetFps | drivers/media/platform/msm_huawei/mt9e013.c:285-307 | at unity dividers, the lines-per-frame getter for the resolution the mode runs at returns the frame length `set_fps` writes |
| Sensor.Mt9e013.ExpGainLog | drivers/media/platform/msm_huawei/mt9e013.c:350-376 | hold on, gain (clamped to 0xE7F, range bit set), integration time, hold off, in that order; the line count is unscaled at a divider of 0x400 |
| Sensor.Mt9e013.WriteExpGain | drivers/media/platform/msm_huawei/mt9e013.c:350-376 | the clamped gain and the 16-bit line are cached only in preview mode; returns the status of the line write alone |
| Sensor.Mt9e013.SetPictExpGain | drivers/media/platform/msm_huawei/mt9e013.c:378-384 | `write_exp_gain`, then the restart write whose status is ignored |
| Sensor.Mt9e013.Test | drivers/media/platform/msm_huawei/mt9e013.c:495-511 | writes the mode's low byte to the test-pattern register unless the mode is off; always returns 0 |
| Sensor.Mt9e013.SetSwDampingParam | drivers/media/platform/msm_huawei/mt9e013.c:1127-1131 | the damping switch is stored; the table and the rest of the state are unchanged |
| Sensor.Mt9e013.SetAfCodestepParam | drivers/media/platform/msm_huawei/mt9e013.c:1141-1146 | the code per step is stored and the table is rebuilt with it |
| Sensor.Mt9e013.SetAfNonlinearParam | drivers/media/platform/msm_huawei/mt9e013.c:1156-1161 | the non-linear tunables are stored; the table is not rebuilt |
| Sensor.Mt9e013.SetAfStepparamParam | drivers/media/platform/msm_huawei/mt9e013.c:1172-1184 | the step sizes are stored |
| Sensor.Mt9e013.SetAfTimeparamParam | drivers/media/platform/msm_huawei/mt9e013.c:1193-1205 | the settle times are stored |
| Sensor.Mt9e013.SetLinearTotalStepParam | drivers/media/platform/msm_huawei/mt9e013.c:1214-1219 | the total step count, threshold and jump are stored; the table is not rebuilt |
| Sensor.Mt9e013.SetAfInitialParam | drivers/media/platform/msm_huawei/mt9e013.c:1259-1267 | the first lens code and the forward profile are stored; the table is not rebuilt |
| Sensor.Mt9e013.SaveOtp | drivers/media/platform/msm_huawei/mt9e013.c:513-528 | reads OTP words from 0x3800 on, in order, stopping at the first failed read; words read before it take the value read and all others are unchanged; returns -1 for an empty block and -EIO on a failure |
| Sensor.PollOtpStatus | drivers/media/platform/msm_huawei/mt9e013.c:536-544 | at most five polls, stopping at the first ready status; a failed read keeps the previous value |
| Sensor.Mt9e013.IsOtp | drivers/media/platform/msm_huawei/mt9e013.c:530-547 | the polls, then the block read right after the first ready poll; returns 1 in that case and -1 when none is ready; the read's own status is ignored |
| Sensor.Mt9e013.ProbeType | drivers/media/platform/msm_huawei/mt9e013.c:558-560 | one probe: select the type, start the read, run `is_otp`; returns 1 exactly when the block is ready |
| Sensor.Mt9e013.ProbeOtp | drivers/media/platform/msm_huawei/mt9e013.c:558-604 | the six probes in priority order, stopping at the first ready one; returns 1 exactly when one is ready |
| Sensor.Mt9e013.ReadOtp | drivers/media/platform/msm_huawei/mt9e013.c:551-628 | returns 0 exactly when a type was found and both sentinels hold (word 7 is 0, word 114 is 0xFFFF), and then sets validity; otherwise returns -1 and validity is unchanged (never cleared) |
| Sensor.Mt9e013.ShadingSetting | drivers/media/platform/msm_huawei/mt9e013.c:630-663 | shading off, the shading table, shading on; OTP entries retried once after a failure; returns the first attempt's status for the last entry |
| Sensor.ShadingUpload | drivers/media/platform/msm_huawei/mt9e013.c:630-663 | the same upload on any OTP words and validity flag |
| Sensor.DefaultShadingWrites | drivers/media/platform/msm_huawei/mt9e013.c:637-645 | the default-table loop writes every entry once and returns the last write's status |
| Sensor.OtpShadingWrites | drivers/media/platform/msm_huawei/mt9e013.c:648-658 | the OTP-table loop retries each failed write once and keeps the first attempt's status |
| Sensor.Mt9e013.ReadAwbData | drivers/media/platform/msm_huawei/mt9e013.c:665-684 | returns the white-balance ratios, or -ENODEV, as `AwbData` says |
| Sensor.InitUploads | drivers/media/platform/msm_huawei/mt9e013.c:696-703 | uploads MIPI, recommended settings, shading and PLL in that order, each whatever the previous one returned |
| Sensor.Mt9e013.AfterSetting | drivers/media/platform/msm_huawei/mt9e013.c:686-730 | after an init the lens is at 0 and CSI is unconfigured; after a periodic update CSI is configured and the lens is back at the saved step (lens code from the table, 0 at step 0); nothing else changes |
| Sensor.Mt9e013.SensorSetting | drivers/media/platform/msm_huawei/mt9e013.c:686-730 | saves the step, parks the lens and stops the stream, then runs the init or periodic path; the status is the CSI configuration's alone, table results discarded |
| Sensor.Mt9e013.Park | drivers/media/platform/msm_huawei/mt9e013.c:692-694 | `set_default_focus` then `stop_stream`; the lens ends at step 0 |
| Sensor.Mt9e013.InitSetting | drivers/media/platform/msm_huawei/mt9e013.c:692-705 | an init update: park, the four uploads, CSI unconfigured; returns 0 |
| Sensor.Mt9e013.InitPath | drivers/media/platform/msm_huawei/mt9e013.c:696-705 | the uploads of an init update, which mark CSI unconfigured |
| Sensor.Mt9e013.PeriodicSetting | drivers/media/platform/msm_huawei/mt9e013.c:690-728 | a periodic update logs stop_stream before the resolution table, then start_stream, then the move back to the saved step; its status is the CSI call's when CSI was unconfigured, 0 otherwise |
| Sensor.Mt9e013.PeriodicPath | drivers/media/platform/msm_huawei/mt9e013.c:706-727 | after parking: resolution table, CSI configured once, stream start, move near by the saved step |
| Sensor.Mt9e013.VideoConfig | drivers/media/platform/msm_huawei/mt9e013.c:732-754 | always a periodic update for the preview resolution; unless it failed, the test pattern (if set), then current resolution := preview and mode := mode; returns 0 in every case |
| Sensor.Mt9e013.SnapshotConfig | drivers/media/platform/msm_huawei/mt9e013.c:756-792 | `snapshot_config` and `raw_snapshot_config` (the same code): a periodic update only when the current resolution is not the picture one; unless it failed, current resolution := picture and mode := mode; returns 0 |
| Sensor.Mt9e013.SetSensorMode | drivers/media/platform/msm_huawei/mt9e013.c:794-812 | preview and the two snapshot modes reach their config (mode recorded unless the update failed); any other mode returns -EINVAL and changes nothing |
| Sensor.Mt9e013.OpenInit | drivers/media/platform/msm_huawei/mt9e013.c:896-906 | after the probe: the init update, 30 fps in Q8, the table rebuilt; returns 0 |
| Sensor.Mt9e013.ProbeInitSensor | drivers/media/platform/msm_huawei/mt9e013.c:847-866 | the OTP read (its result ignored) then the model-id read; succeeds exactly when that read succeeds and returns 0x4B00, fails with the read's -EIO or with -ENODEV on another id |
| Sensor.Mt9e013.Open | drivers/media/platform/msm_huawei/mt9e013.c:892-911 | the probe first, so the init update's shading upload uses the OTP block just read; on a matching model id the init update, 30 fps and the table, returning 0; otherwise the probe's status with nothing more programmed |
| Sensor.Mt9e013.SensorConfig | drivers/media/platform/msm_huawei/mt9e013.c:921-1016 | queries answer from the state without bus traffic or change; an unknown command gives -EFAULT; commands that change state return their operation's status; the exposure commands log the exposure writes (and the restart write for the picture one) and cache gain and line only in preview; a mode change gives -EINVAL and changes nothing for an unknown mode, and otherwise records the mode and resolution unless the update failed; the focus commands leave the lens at the destination or at step 0 |

## Left out

- The bus transfer itself (`i2c_rxdata` and `i2c_txdata`, message
  construction and retries) is not modelled. The oracle stands for it: it
  decides by log position whether a transaction fails and what a read
  returns. Reads always move two bytes, as every read in the driver does.
- The log is a real field of the bus object rather than a ghost one, because
  the oracle answers by log position.
- GPIO reset handling, the probe and registration glue, `sensor_release`,
  the master clock, the VFE clock and the maker-id read of `sensor_probe` are not modelled.
  The module maker read at probe time is the constructor parameter `liteOn`.
  The allocation and seeding of the control record in `open_init` are the
  constructor. The driver keeps the tunables, the step-position table and
  the OTP validity flag as statics across sessions, and the constructor
  starts them as at module load.
- The maker-id read of `sensor_probe` (register 0x3806) keeps the raw
  register word when the read succeeds and clears the id to 0 when it fails,
  so the LiteOn value 1 survives only when the register holds exactly 1.
  The model takes the maker as the parameter `liteOn` and does not claim
  the driver computes it reliably.
- `msm_camio_csi_config` is a platform call. Its status is the oracle's
  `csiStatus`.
- `kzalloc`/`kfree`, the mutex, and `copy_from_user`/`copy_to_user` are not
  modelled. Operations are sequential. A command is a `Command` value, so
  the user-copy failures that return -EFAULT are not modelled.
- The debugfs directory and file creation are not modelled. The stream
  on/off debug file is not modelled, nor is the `cam_debug_init` call at the
  end of an init update.
- Sleeps are not logged, except the lens settle delays of `move_focus`,
  which appear as `Settle` entries because their length depends on the
  damping profile.
- The diagnostic sweeps `focus_test` and `step_test` are not modelled. They
  are repeated `move_focus` calls with long sleeps.
- The register tables of the sensor header are inputs (`RegTables`). The
  frame-length and line-length words of the preview and snapshot tables are
  given as `Timing`.
- The trivial getters `get_sw_damping` and `get_af_codestep` read back one
  tunable. That round trip is the setters' `ensures`. `get_af_stepparam` and
  `get_af_timeparam` return nothing. `StepparamValue` and `TimeparamValue`
  state what a getter would read back.
- `read_otp` repeats the probe six times in straight-line code. The model
  runs one probe per memory type in a loop (`Sensor.Mt9e013.ProbeOtp`),
  with the same order and the same early exit.
- `sensor_setting` takes any integer as the update type. The model has only
  the two values the driver passes. The `uint8_t` copy of the saved step is
  exact, because the step is below 42.
- Sensor.Mt9e013.MoveFocus: requires the destination step sum to fit the
  `int16_t` it is computed in. The wrap-around of larger requests is not
  modelled.
- Sensor.Mt9e013.SetLinearTotalStepParam: requires a total below 42. The
  setter accepts any byte, but a larger total would index past the 42-entry
  table.
- Sensor.Mt9e013.SetAfStepparamParam: requires positive step bytes. A step
  of 0 never advances the damped loop.
- Sensor.Mt9e013.SetAfInitialParam: requires a positive forward step byte,
  for the same reason.
- Sensor.Mt9e013.SensorConfig: for `SetFpsCmd`, `SetMode` with a valid
  mode and the focus commands, the contract gives the status and the state
  effect but not the log, and for the focus commands not the lens code
  either. The log and the full new state are in the contracts of the
  methods it calls. For the two exposure commands it gives the status, the
  log and the whole new state.
- Sensor.Mt9e013.SetSensorMode: states the status and the resulting mode
  and resolution. The full log and state are in the contracts of
  `VideoConfig` and `SnapshotConfig`.

## Findings

| source | as written | input that shows it | evidently intended | confidence | as-written member | corrected member |
|---|---|---|---|---|---|---|
| drivers/media/platform/msm_huawei/mt9e013.c:1163-1168 | `get_af_nonlinear` shifts the `uint16_t` boundary left by 16 in a signed 32-bit `int`, then stores the result in a `u64` | `set_af_nonlinear(0x8000_0000)`, then `get_af_nonlinear` gives 0xFFFF_FFFF_8000_0000 | the getter returns the low 32 bits written, 0x8000_0000 | not executed | Tuning.NonlinearAsWrittenSignExtends | Tuning.NonlinearRoundTrip |
| drivers/media/platform/msm_huawei/mt9e013.c:438-447 | `set_af_stepparam` and `set_af_initial` store any byte as a small step, including 0, and the damped loop then adds 0 to its lens code on every iteration | `set_af_stepparam(0)`, then a far move of one step from step 5 with damping on | a damped move always reaches its destination code | not executed | FocusSpec.ZeroStepparamHangsFarMove | FocusSpec.LensCodesLand |
| drivers/media/platform/msm_huawei/mt9e013.c:479-492 | `set_linear_total_step` stores any byte as the total, and `init_focus` writes entries 2 up to that total in a table of 42 entries | `set_linear_total_step(42)`, then `init_focus` writes entry 42 | the total stays below the table size, so every entry written lies in the table | not executed | FocusSpec.TotalStepOverrunsTable | Sensor.Mt9e013.InitFocus |
