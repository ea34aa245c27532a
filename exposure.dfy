/** Exposure, gain and frame-rate arithmetic of the driver: fixed-point values
    with a 0x400 (2^10) scale, computed in the driver's unsigned 16- and
    32-bit types. */
module Exposure {
  import opened Arith
  import opened Bus

  /** Fixed-point one: dividers are multiples of 1/0x400. */
  const Q10: int := 0x400

  const RegGroupedParameterHold: Word := 0x0104
  const RegCoarseIntegrationTime: Word := 0x3012
  const RegGlobalGain: Word := 0x305E
  const RegFrameLengthLines: Word := 0x0340

  /** Largest gain the analog gain register accepts. */
  const MaxLegalGain: int := 0xE7F
  /** Gain register bit that selects the analog gain range. */
  const GainRangeBit: int := 0x1000

  datatype Resolution = QtrSize | FullSize

  /** The frame-length-lines and line-length-pck words of the preview
      (quarter size) and snapshot (full size) register tables. */
  datatype Timing = Timing(prevFrameLines: Word, prevLinePck: Word, snapFrameLines: Word, snapLinePck: Word)

  /** The snapshot table must have non-zero lengths: the driver divides by
      them. */
  predicate TimingOk(tm: Timing) {
    tm.snapFrameLines > 0 && tm.snapLinePck > 0
  }

  /** Frame length of the table that programs `res`: what the preview and
      picture "lines per frame" getters return for their resolution. */
  function FrameLines(tm: Timing, res: Resolution): (r: Word)
    ensures r == tm.prevFrameLines || r == tm.snapFrameLines
    ensures TimingOk(tm) && res == FullSize ==> r > 0
  {
    if res == QtrSize then tm.prevFrameLines else tm.snapFrameLines
  }

  /** Line length of the table that programs `res`: what the "pixels per
      line" getters return. */
  function LinePck(tm: Timing, res: Resolution): (r: Word)
    ensures r == tm.prevLinePck || r == tm.snapLinePck
    ensures TimingOk(tm) && res == FullSize ==> r > 0
  {
    if res == QtrSize then tm.prevLinePck else tm.snapLinePck
  }

  /** Largest picture exposure line count: 24 frames of the picture
      resolution. */
  function PictMaxExpLineCount(tm: Timing, pictRes: Resolution): (r: nat)
    ensures r < 24 * Two16
    ensures r % 24 == 0 && r / 24 == FrameLines(tm, pictRes)
  {
    FrameLines(tm, pictRes) * 24
  }

  /** `get_pict_fps`: the capture frame rate for a preview frame rate, scaled
      by the ratios of preview to snapshot frame length and line length. */
  function PictFps(fps: Word, tm: Timing): (r: Word)
    requires TimingOk(tm)
    ensures PictFpsDivider(tm) <= Q10 ==> r <= fps
  {
    assert PictFpsDivider(tm) <= Q10 ==> U32(fps * PictFpsDivider(tm)) / Q10 <= fps by {
      if PictFpsDivider(tm) <= Q10 {
        ScaleByFraction(fps, PictFpsDivider(tm));
      }
    }
    U16(U32(fps * PictFpsDivider(tm)) / Q10)
  }

  /** The fixed-point ratio of capture to preview frame rate. */
  function PictFpsDivider(tm: Timing): nat
    requires TimingOk(tm)
  {
    var d1 := U32(tm.prevFrameLines * Q10) / tm.snapFrameLines;
    var d2 := U32(tm.prevLinePck * Q10) / tm.snapLinePck;
    U32(d1 * d2) / Q10
  }

  /** With identical preview and snapshot timings the capture frame rate is
      the preview frame rate. */
  lemma PictFpsSameTiming(fps: Word, tm: Timing)
    requires TimingOk(tm)
    requires tm.prevFrameLines == tm.snapFrameLines && tm.prevLinePck == tm.snapLinePck
    ensures PictFps(fps, tm) == fps
  {
    DivModUnique(tm.prevFrameLines * Q10, tm.snapFrameLines, Q10, 0);
    DivModUnique(tm.prevLinePck * Q10, tm.snapLinePck, Q10, 0);
    DivModUnique(Q10 * Q10, Q10, Q10, 0);
    assert PictFpsDivider(tm) == Q10;
    DivModUnique(fps * Q10, Q10, fps, 0);
  }

  /** A snapshot frame at least as long (in lines and in pixels per line) as
      the preview frame never gives a faster capture frame rate. */
  lemma PictFpsNotFaster(fps: Word, tm: Timing)
    requires TimingOk(tm)
    requires tm.prevFrameLines <= tm.snapFrameLines && tm.prevLinePck <= tm.snapLinePck
    ensures PictFps(fps, tm) <= fps
  {
    assert PictFpsDivider(tm) <= Q10 by {
      var d1 := U32(tm.prevFrameLines * Q10) / tm.snapFrameLines;
      var d2 := U32(tm.prevLinePck * Q10) / tm.snapLinePck;
      RatioAtMostScale(tm.prevFrameLines, tm.snapFrameLines);
      RatioAtMostScale(tm.prevLinePck, tm.snapLinePck);
      ProductOfFractions(d1, d2);
    }
  }

  /** The product of two fixed-point fractions at most one is at most one. */
  lemma ProductOfFractions(d1: nat, d2: nat)
    requires d1 <= Q10 && d2 <= Q10
    ensures U32(d1 * d2) / Q10 <= Q10
  {
    MulBoth(d1, d2, Q10);
    assert U32(d1 * d2) == d1 * d2;
    DivMono(d1 * d2, Q10 * Q10, Q10);
    DivModUnique(Q10 * Q10, Q10, Q10, 0);
  }

  /** Scaling a 16-bit value by a fixed-point fraction at most one does not
      increase it. */
  lemma ScaleByFraction(v: Word, divider: nat)
    requires divider <= Q10
    ensures U32(v * divider) / Q10 <= v
  {
    var scaled, full := v * divider, v * Q10;
    assert scaled <= full by {
      MulMono(v, divider, Q10);
    }
    assert U32(scaled) == scaled by {
      assert full < Two32;
    }
    assert full / Q10 == v by {
      DivModUnique(full, Q10, v, 0);
    }
    DivMono(scaled, full, Q10);
  }

  lemma DivMono(a: nat, b: nat, d: nat)
    requires a <= b && d > 0
    ensures a / d <= b / d
  {
    var qa, qb := a / d, b / d;
    assert qa * d <= a;
    assert b < qb * d + d;
    if qa > qb {
      MulMono(d, qb + 1, qa);
      assert false;
    }
  }

  lemma RatioAtMostScale(a: nat, b: nat)
    requires 0 < b && a <= b && a < Two16
    ensures U32(a * Q10) / b <= Q10
  {
    MulMono(Q10, a, b);
    assert a * Q10 <= b * Q10;
    var q := (a * Q10) / b;
    assert q * b <= a * Q10;
    if q > Q10 {
      MulMono(b, Q10 + 1, q);
      assert false;
    }
  }

  lemma MulMono(a: nat, b: nat, c: nat)
    requires b <= c
    ensures a * b <= a * c
  {
    assert a * c == a * b + a * (c - b);
  }

  lemma MulBoth(x: nat, y: nat, m: nat)
    requires x <= m && y <= m
    ensures x * y <= m * m
  {
    MulMono(x, y, m);
    MulMono(m, x, m);
  }

  /** Frame length programmed by `set_fps`: the table's frame length scaled by
      a divider, in 32-bit arithmetic, truncated to 16 bits. */
  function ScaledFrameLines(frameLines: Word, divider: nat): Word {
    U16(U32(frameLines * divider) / Q10)
  }

  /** A divider of one (0x400) leaves the frame length unchanged. */
  lemma ScaledFrameLinesUnity(frameLines: Word)
    ensures ScaledFrameLines(frameLines, Q10) == frameLines
  {
    DivModUnique(frameLines * Q10, Q10, frameLines, 0);
  }

  /** Integration time computed by `write_exp_gain`: the line count scaled by
      a divider in 32-bit arithmetic. */
  function ScaledLine(line: nat, divider: nat): (r: nat)
    ensures r < Two32 / Q10
  {
    U32(line * divider) / Q10
  }

  /** A divider of one leaves a line count that fits the 32-bit product
      unchanged. */
  lemma ScaledLineUnity(line: nat)
    ensures line * Q10 < Two32 ==> ScaledLine(line, Q10) == line
  {
    if line * Q10 < Two32 {
      DivModUnique(line * Q10, Q10, line, 0);
    }
  }

  /** `gain | 0x1000`: sets the gain range bit and keeps the other bits. */
  function SetRangeBit(g: Word): (r: Word)
    ensures (r / GainRangeBit) % 2 == 1
    ensures r % GainRangeBit == g % GainRangeBit && r / (2 * GainRangeBit) == g / (2 * GainRangeBit)
  {
    if (g / GainRangeBit) % 2 == 1 then g else g + GainRangeBit
  }

  /** The gain word `write_exp_gain` writes: the gain clamped to the largest
      legal value, with the range bit set. */
  function GainRegister(gain: Word): (r: Word)
    ensures r / GainRangeBit == 1
  {
    SetRangeBit(if gain > MaxLegalGain then MaxLegalGain else gain)
  }

  /** The gain written is recoverable from the register word: a legal gain
      comes back unchanged and any larger gain comes back as the maximum. */
  lemma GainRegisterDecodes(gain: Word)
    ensures GainRegister(gain) % GainRangeBit == (if gain <= MaxLegalGain then gain else MaxLegalGain)
  {
  }
}
