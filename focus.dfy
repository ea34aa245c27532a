/** Specification of the focus controller: the step-to-lens-code table that
    `init_focus` builds, the clamped destination of `move_focus`, the choice
    of damping profile, and the sequence of lens codes a move writes. */
module FocusSpec {
  import opened Arith
  import opened Bus
  import opened Tuning

  /** Lens-drive code register of the voice-coil motor. */
  const RegVcmNewCode: Word := 0x30F2

  /** Largest lens code the table holds. */
  const MaxCode: int := 0xFF

  datatype Direction = Near | Far

  function Sign(d: Direction): int { if d == Near then 1 else -1 }

  // ---------------------------------------------------------------------
  // Step-position table

  /** Code added when stepping to index `i`: the non-linear step up to and
      including the boundary, the linear step after it. */
  function StepIncrement(t: Tunables, i: nat): Word {
    if i <= t.nlRegionBoundary1 then t.nlRegionCodePerStep1 else t.lRegionCodePerStep
  }

  /** Entry `i` of the table `init_focus` builds: 0, then the initial AF
      value, then each entry the previous one plus the increment, stored in
      16 bits and clamped to 255. */
  function StepCode(t: Tunables, i: nat): (r: Word)
    ensures i == 0 ==> r == 0
    ensures i == 1 ==> r == t.afInitialValue
    ensures i >= 2 ==> r <= MaxCode
  {
    if i == 0 then 0
    else if i == 1 then t.afInitialValue
    else ClampedSum(StepCode(t, i - 1), StepIncrement(t, i))
  }

  /** A table sum as `init_focus` stores it: truncated to 16 bits (two
      16-bit operands wrap at most once), then clamped to 255. */
  function ClampedSum(prev: Word, inc: Word): (r: Word)
    ensures r <= MaxCode
    ensures prev + inc <= MaxCode ==> r == prev + inc
  {
    var sum := if prev + inc < Two16 then prev + inc else prev + inc - Two16;
    if sum > MaxCode then MaxCode else sum
  }

  /** The single wrap of `ClampedSum` is the 16-bit truncation. */
  lemma ClampedSumTruncates(prev: Word, inc: Word)
    ensures var sum := U16(prev + inc);
      ClampedSum(prev, inc) == if sum > MaxCode then MaxCode else sum
  {
    if prev + inc >= Two16 {
      DivModUnique(prev + inc, Two16, 1, prev + inc - Two16);
    }
  }

  /** The sums of `init_focus` never wrap 16 bits: the first code is a lens
      code and neither increment can carry a lens code past 0xFFFF. */
  predicate NoWrap(t: Tunables) {
    t.afInitialValue <= MaxCode
    && t.nlRegionCodePerStep1 <= 0xFFFF - MaxCode
    && t.lRegionCodePerStep <= 0xFFFF - MaxCode
  }

  /** Every entry is a lens code (0 to 255) when the first code is. */
  lemma StepCodeInRange(t: Tunables, i: nat)
    requires t.afInitialValue <= MaxCode
    ensures StepCode(t, i) <= MaxCode
  {
  }

  /** Without wrap-around each entry is at least the one before it, and is
      exactly the clamped sum. */
  lemma StepCodeStep(t: Tunables, i: nat)
    requires NoWrap(t) && i >= 1
    ensures StepCode(t, i) <= StepCode(t, i + 1)
    ensures StepCode(t, i + 1) == Min(MaxCode, StepCode(t, i) + StepIncrement(t, i + 1))
  {
    StepCodeInRange(t, i);
  }

  /** The table is non-decreasing whenever no sum wraps 16 bits. */
  lemma {:induction false} StepCodeMonotone(t: Tunables, i: nat, j: nat)
    requires NoWrap(t) && i <= j
    ensures StepCode(t, i) <= StepCode(t, j)
  {
    if i < j {
      StepCodeMonotone(t, i, j - 1);
      if j - 1 == 0 {
        assert StepCode(t, 0) == 0;
      } else {
        StepCodeStep(t, j - 1);
      }
    }
  }

  /** Below the clamp, entry `i` of the linear region is the entry at the
      boundary plus one linear step per index beyond it. */
  lemma {:induction false} StepCodeLinearRegion(t: Tunables, i: nat)
    requires NoWrap(t) && 1 <= t.nlRegionBoundary1 <= i
    requires StepCode(t, t.nlRegionBoundary1) + (i - t.nlRegionBoundary1) * t.lRegionCodePerStep <= MaxCode
    ensures StepCode(t, i) == StepCode(t, t.nlRegionBoundary1) + (i - t.nlRegionBoundary1) * t.lRegionCodePerStep
  {
    var b, l := t.nlRegionBoundary1, t.lRegionCodePerStep;
    if i > b {
      var x := i - 1 - b;
      assert i - b == x + 1;
      MulSucc(x, l);
      StepCodeLinearRegion(t, i - 1);
      LinearStep(t, i);
    }
  }

  /** One step in the linear region below the clamp adds the linear
      increment. */
  lemma LinearStep(t: Tunables, i: nat)
    requires NoWrap(t) && 1 <= t.nlRegionBoundary1 < i
    requires StepCode(t, i - 1) + t.lRegionCodePerStep <= MaxCode
    ensures StepCode(t, i) == StepCode(t, i - 1) + t.lRegionCodePerStep
  {
    StepCodeStep(t, i - 1);
  }

  /** With the driver's default tunables the table starts 0, 25, 50, 53, 56:
      one non-linear step of 25 up to the boundary 2, then steps of 3. */
  lemma DefaultTableStart()
    ensures StepCode(Defaults, 0) == 0 && StepCode(Defaults, 1) == 25
    ensures StepCode(Defaults, 2) == 50 && StepCode(Defaults, 3) == 53 && StepCode(Defaults, 4) == 56
  {
  }

  /** The last default entry, step 41, is 50 + 39 * 3 = 167. */
  lemma DefaultTableEnd()
    ensures StepCode(Defaults, 41) == 167
  {
    StepCodeLinearRegion(Defaults, 41);
  }

  // ---------------------------------------------------------------------
  // Destination and damping profile of a move

  /** Destination step of `move_focus`: the requested step clamped to
      `[0, total]`. */
  function DestStep(curr: int, d: Direction, numSteps: int, total: nat): (r: int)
    ensures 0 <= r <= total
    ensures 0 <= curr + Sign(d) * numSteps <= total ==> r == curr + Sign(d) * numSteps
    ensures curr + Sign(d) * numSteps < 0 ==> r == 0
    ensures curr + Sign(d) * numSteps > total ==> r == total
  {
    var dest := curr + Sign(d) * numSteps;
    if dest < 0 then 0 else if dest > total then total else dest
  }

  /** A (small step, settle time) pair. */
  datatype Profile = Profile(smallStep: int, wait: nat)

  /** The damping profile, first match wins: far moves use the snap profile
      from the damping threshold on, the fine profile for at most 4 steps and
      the default one otherwise; near moves use the forward profile beyond
      the step jump and the coarse one otherwise. */
  function SelectProfile(t: Tunables, d: Direction, numSteps: int): (p: Profile)
    ensures Sane(t) ==> p.smallStep > 0
    ensures d == Far && numSteps >= t.dampingThreshold ==> p == Profile(t.smallStepSnap, t.timeWaitSnap)
    ensures d == Far && numSteps < t.dampingThreshold && numSteps <= 4 ==> p == Profile(t.smallStepFine, t.timeWaitFine)
    ensures d == Far && 4 < numSteps < t.dampingThreshold ==> p == Profile(t.smallStep, t.timeWait)
    ensures d == Near && numSteps > t.stepJump ==> p == Profile(t.smallStepFwd, t.timeWaitFwd)
    ensures d == Near && numSteps <= t.stepJump ==> p == Profile(t.smallStepCoarse, t.timeWaitCoarse)
  {
    if d == Far then
      if numSteps >= t.dampingThreshold then Profile(t.smallStepSnap, t.timeWaitSnap)
      else if numSteps <= 4 then Profile(t.smallStepFine, t.timeWaitFine)
      else Profile(t.smallStep, t.timeWait)
    else
      if numSteps > t.stepJump then Profile(t.smallStepFwd, t.timeWaitFwd)
      else Profile(t.smallStepCoarse, t.timeWaitCoarse)
  }

  // ---------------------------------------------------------------------
  // Lens codes written by a move

  /** `s * m` for a direction sign `s`. */
  function Offset(s: int, m: int): int
    requires s == 1 || s == -1
  {
    if s == 1 then m else -m
  }

  /** `s * x <= s * dest`: moving in direction `s`, `x` has not passed
      `dest`. */
  predicate NotPast(s: int, x: int, dest: int)
    requires s == 1 || s == -1
  {
    if s == 1 then x <= dest else x >= dest
  }

  /** Both helpers are the products the driver writes. */
  lemma OffsetIsProduct(s: int, x: int, dest: int)
    requires s == 1 || s == -1
    ensures Offset(s, x) == s * x
    ensures NotPast(s, x, dest) <==> s * x <= s * dest
  {
  }

  /** Codes of the damped loop: from `curr`, advance by `small` in direction
      `s` and write every code that does not pass `dest`. */
  function DampedCodes(curr: int, dest: int, s: int, small: int): (codes: seq<int>)
    requires s == 1 || s == -1
    requires small > 0
    decreases Offset(s, dest - curr)
  {
    var next := curr + Offset(s, small);
    if NotPast(s, next, dest) then [next] + DampedCodes(next, dest, s, small) else []
  }

  /** The damped loop writes as many codes as whole small steps fit between
      start and destination. */
  lemma {:induction false} DampedCodesCount(curr: int, dest: int, s: int, small: int)
    requires s == 1 || s == -1
    requires small > 0
    ensures var dist := Offset(s, dest - curr);
      |DampedCodes(curr, dest, s, small)| == (if dist >= 0 then dist / small else 0)
    decreases Offset(s, dest - curr)
  {
    var next := curr + Offset(s, small);
    var dist := Offset(s, dest - curr);
    assert Offset(s, dest - next) == dist - small;
    if dist >= small {
      DampedCodesCount(next, dest, s, small);
      DivModUnique(dist, small, (dist - small) / small + 1, (dist - small) % small);
    } else if dist >= 0 {
      DivModUnique(dist, small, 0, dist);
    }
  }

  /** The `k`-th code of the damped loop is `k + 1` small steps from the
      start. */
  lemma {:induction false} DampedCodesAt(curr: int, dest: int, s: int, small: int, k: nat)
    requires s == 1 || s == -1
    requires small > 0
    requires k < |DampedCodes(curr, dest, s, small)|
    ensures DampedCodes(curr, dest, s, small)[k] == curr + Offset(s, (k + 1) * small)
    decreases k
  {
    if k > 0 {
      DampedCodesAt(curr + Offset(s, small), dest, s, small, k - 1);
      assert (k + 1) * small == k * small + small;
    }
  }

  /** The lens code the damped loop stops at: the last code it wrote, or
      `curr` when it wrote none. */
  function DampedEnd(curr: int, dest: int, s: int, small: int): int
    requires s == 1 || s == -1
    requires small > 0
    decreases Offset(s, dest - curr)
  {
    var next := curr + Offset(s, small);
    if NotPast(s, next, dest) then DampedEnd(next, dest, s, small) else curr
  }

  /** The loop's stopping code is the last damped code written. */
  lemma {:induction false} DampedEndIsLast(curr: int, dest: int, s: int, small: int)
    requires s == 1 || s == -1
    requires small > 0
    ensures var codes := DampedCodes(curr, dest, s, small);
      DampedEnd(curr, dest, s, small) == if codes == [] then curr else codes[|codes| - 1]
    decreases Offset(s, dest - curr)
  {
    var next := curr + Offset(s, small);
    if NotPast(s, next, dest) {
      DampedEndIsLast(next, dest, s, small);
    }
  }

  /** The codes written by a move from lens code `curr` to `dest`: the damped
      codes (when damping is on), then `dest` itself unless the loop already
      stopped on it. */
  function LensCodes(curr: int, dest: int, s: int, small: int, damping: bool): (codes: seq<int>)
    requires s == 1 || s == -1
    requires small > 0
  {
    var damped := if damping then DampedCodes(curr, dest, s, small) else [];
    var last := if damping then DampedEnd(curr, dest, s, small) else curr;
    damped + (if last != dest then [dest] else [])
  }

  /** A move writes nothing when the lens is already at the destination code,
      and otherwise ends on exactly the destination code, every code it
      writes lying between start and destination. */
  lemma LensCodesLand(curr: int, dest: int, s: int, small: int, damping: bool)
    requires s == 1 || s == -1
    requires small > 0
    ensures var codes := LensCodes(curr, dest, s, small, damping);
      && (curr == dest <==> codes == [])
      && (curr != dest ==> codes[|codes| - 1] == dest)
      && forall k :: 0 <= k < |codes| ==> Min(curr, dest) <= codes[k] <= Max(curr, dest)
  {
    var damped := if damping then DampedCodes(curr, dest, s, small) else [];
    DampedEndIsLast(curr, dest, s, small);
    forall k | 0 <= k < |damped|
      ensures Min(curr, dest) <= damped[k] <= Max(curr, dest) && damped[k] != curr
    {
      DampedCodeBetween(curr, dest, s, small, k);
    }
  }

  /** Each damped code moves away from the start and stays on its side of
      the destination. */
  lemma DampedCodeBetween(curr: int, dest: int, s: int, small: int, k: nat)
    requires s == 1 || s == -1
    requires small > 0
    requires k < |DampedCodes(curr, dest, s, small)|
    ensures var c := DampedCodes(curr, dest, s, small)[k];
      Min(curr, dest) <= c <= Max(curr, dest) && c != curr
  {
    var dist := Offset(s, dest - curr);
    var m := (k + 1) * small;
    DampedCodesAt(curr, dest, s, small, k);
    assert small <= m <= dist by {
      DampedCodesCount(curr, dest, s, small);
      var q := dist / small;
      assert k + 1 <= q;
      QuotientBelow(dist, small);
      MulLe(1, k + 1, small);
      MulLe(k + 1, q, small);
    }
  }

  /** The loop variable of the damped loop as the driver writes it, for any
      small step, after `k` iterations: one step from `curr` at the start,
      one more step per iteration. */
  function LoopCode(curr: int, s: int, small: int, k: nat): int
    requires s == 1 || s == -1
  {
    if k == 0 then curr + Offset(s, small) else LoopCode(curr, s, small, k - 1) + Offset(s, small)
  }

  /** With a positive small step the loop variable runs through the damped
      codes. */
  lemma {:induction false} LoopCodeIsDamped(curr: int, dest: int, s: int, small: int, k: nat)
    requires s == 1 || s == -1
    requires small > 0
    requires k < |DampedCodes(curr, dest, s, small)|
    ensures LoopCode(curr, s, small, k) == DampedCodes(curr, dest, s, small)[k]
  {
    DampedCodesAt(curr, dest, s, small, k);
    LoopCodeClosed(curr, s, small, k);
  }

  lemma {:induction false} LoopCodeClosed(curr: int, s: int, small: int, k: nat)
    requires s == 1 || s == -1
    ensures LoopCode(curr, s, small, k) == curr + Offset(s, (k + 1) * small)
  {
    if k > 0 {
      LoopCodeClosed(curr, s, small, k - 1);
      assert (k + 1) * small == k * small + small;
    }
  }

  /** With a small step of 0 the loop variable never moves: from a lens code
      not past the destination the loop test holds on every iteration, so
      the damped loop never ends. */
  lemma {:induction false} ZeroStepNeverExits(curr: int, dest: int, s: int, k: nat)
    requires s == 1 || s == -1
    requires NotPast(s, curr, dest)
    ensures LoopCode(curr, s, 0, k) == curr
    ensures NotPast(s, LoopCode(curr, s, 0, k), dest)
  {
    if k > 0 {
      ZeroStepNeverExits(curr, dest, s, k - 1);
    }
  }

  /** `set_af_stepparam(0)` stores 0 for every far-move step, so the next
      damped far move from a lens code above the destination never ends. */
  lemma {:induction false} ZeroStepparamHangsFarMove(t: Tunables, curr: int, dest: int, numSteps: int, k: nat)
    requires curr >= dest
    ensures SelectProfile(SetAfStepparam(t, 0), Far, numSteps).smallStep == 0
    ensures LoopCode(curr, -1, SelectProfile(SetAfStepparam(t, 0), Far, numSteps).smallStep, k) == curr
    ensures NotPast(-1, LoopCode(curr, -1, SelectProfile(SetAfStepparam(t, 0), Far, numSteps).smallStep, k), dest)
  {
    ZeroStepNeverExits(curr, dest, -1, k);
  }

  /** `set_linear_total_step` stores any byte as the total, and `init_focus`
      then writes entries 2 up to that total: from 42 on, the last index
      written lies past the 42-entry table. */
  lemma TotalStepOverrunsTable(t: Tunables, val: U64)
    requires Bits(val, 1, 0x100) >= TableSize
    ensures 2 <= SetLinearTotalStep(t, val).linearTotalStep
    ensures !(SetLinearTotalStep(t, val).linearTotalStep < TableSize)
    ensures !Sane(SetLinearTotalStep(t, val))
  {
  }

  lemma MulSucc(x: nat, l: nat)
    ensures (x + 1) * l == x * l + l
  {
  }

  lemma MulLe(a: int, b: int, c: nat)
    requires a <= b
    ensures a * c <= b * c
  {
    assert b * c == a * c + (b - a) * c;
  }

  /** The bus log of a move: each code is written to the lens register
      (truncated to 16 bits, as `write_w_sensor` takes a `uint16_t`) and
      followed by a settle delay of `wait * 50` microseconds. */
  function VcmLog(codes: seq<int>, wait: nat): (log: seq<Txn>)
    ensures |log| == 2 * |codes|
  {
    if codes == [] then []
    else [WordWrite(RegVcmNewCode, U16(codes[0])), Settle(wait * 50)] + VcmLog(codes[1..], wait)
  }

  /** The log of consecutive runs of codes is the concatenation of their logs. */
  lemma {:induction false} VcmLogConcat(a: seq<int>, b: seq<int>, wait: nat)
    ensures VcmLog(a + b, wait) == VcmLog(a, wait) + VcmLog(b, wait)
  {
    if a != [] {
      assert (a + b)[0] == a[0] && (a + b)[1..] == a[1..] + b;
      VcmLogConcat(a[1..], b, wait);
      assert VcmLog(a + b, wait)
        == [WordWrite(RegVcmNewCode, U16(a[0])), Settle(wait * 50)] + (VcmLog(a[1..], wait) + VcmLog(b, wait));
    } else {
      assert a + b == b;
    }
  }
}
