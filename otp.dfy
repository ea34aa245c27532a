/** Specification of the OTP (one-time-programmable calibration memory)
    reader: the polling of the status register, the block read, the probe of
    the six memory types, and the consumers that gate on validity (lens
    shading and white balance). Each function gives the bus log and the result
    the driver produces from a log position and an oracle. */
module OtpSpec {
  import opened Arith
  import opened Bus

  const OtpBase: Word := 0x3800
  const RegOtpType: Word := 0x304C
  const RegOtpControl: Word := 0x304A
  const RegShadingControl: Word := 0x3780

  /** Memory types probed, in priority order. */
  const OtpTypes: seq<Word> := [0x3500, 0x3400, 0x3300, 0x3200, 0x3100, 0x3000]

  /** Status polls per memory type. */
  const MaxPolls: nat := 5

  /** Index of the first shading word and of the validity sentinels. */
  const ShadingStart: nat := 8
  const Sentinel0: nat := 7
  const Sentinel1: nat := 114

  /** The OTP block is ready when `(value | 0xFF9F) == 0xFFFF`. */
  predicate OtpReady(v: Word) {
    ((v as bv16) | 0xFF9F) == 0xFFFF
  }

  /** Readiness is exactly "status bits 5 and 6 both set". */
  lemma OtpReadyBits(v: Word)
    ensures OtpReady(v) <==> (v as bv16) & 0x60 == 0x60
  {
  }

  // ---------------------------------------------------------------------
  // is_otp: up to five polls of the status register

  /** The value `is_otp` holds after poll `k` of polls logged from `n` on: a
      read that fails leaves the previous value (initially 0) in place. */
  function PollValue(o: Oracle, n: nat, k: nat): Word
    decreases k
  {
    var prev := if k == 0 then 0 else PollValue(o, n, k - 1);
    if o.Ok(n + k) then o.Value(n + k) else prev
  }

  /** Poll `k` of the polls logged from `n` on sees the block ready. */
  predicate PollReady(o: Oracle, n: nat, k: nat) {
    OtpReady(PollValue(o, n, k))
  }

  /** Index of the poll that found the block ready, or `MaxPolls`. */
  function FirstReady(o: Oracle, n: nat): (j: nat)
    ensures j <= MaxPolls
    ensures j < MaxPolls ==> PollReady(o, n, j)
    ensures forall k :: 0 <= k < j ==> !PollReady(o, n, k)
  {
    FirstReadyFrom(o, n, 0)
  }

  /** Index of the first ready poll from poll `k` on, or `MaxPolls`. */
  function FirstReadyFrom(o: Oracle, n: nat, k: nat): (j: nat)
    requires k <= MaxPolls
    ensures k <= j <= MaxPolls
    ensures j < MaxPolls ==> PollReady(o, n, j)
    ensures forall i :: k <= i < j ==> !PollReady(o, n, i)
    decreases MaxPolls - k
  {
    if k == MaxPolls then k else if PollReady(o, n, k) then k else FirstReadyFrom(o, n, k + 1)
  }

  /** The ready poll is determined by the poll values: any index that is
      the first ready one (or 5 with none ready) is `FirstReady`. */
  lemma FirstReadyUnique(o: Oracle, n: nat, j: nat)
    requires j <= MaxPolls
    requires j < MaxPolls ==> PollReady(o, n, j)
    requires forall k :: 0 <= k < j ==> !PollReady(o, n, k)
    ensures j == FirstReady(o, n)
  {
  }

  /** `count` reads of the status register. */
  function PollLog(count: nat): seq<Txn> {
    seq(count, _ => Read(RegOtpControl))
  }

  // ---------------------------------------------------------------------
  // save_otp: read the block word by word, stop at the first failed read

  /** Address of OTP word `i` (computed in an `unsigned short`). */
  function OtpAddr(i: int): Word { U16(OtpBase + 2 * i) }

  /** Reads `save_otp` issues from position `n` for a block of `cnt` words:
      all of them, or up to and including the first failing one. */
  function SaveLog(o: Oracle, n: nat, cnt: nat): seq<Txn> {
    ReadsLog(Min(FirstFail(o, n, cnt) + 1, cnt))
  }

  /** Reads of the first `count` OTP words, in order. */
  function ReadsLog(count: nat): seq<Txn> {
    seq(count, i => Read(OtpAddr(i)))
  }

  /** The OTP words after `save_otp`: each word read before the first failure
      takes the value read, every other word keeps its old value. */
  function Saved(words: seq<Word>, o: Oracle, n: nat, cnt: nat): seq<Word>
    requires cnt <= |words|
  {
    seq(|words|, i requires 0 <= i < |words| => SavedWord(words, o, n, cnt, i))
  }

  function SavedWord(words: seq<Word>, o: Oracle, n: nat, cnt: nat, i: nat): Word
    requires i < |words|
  {
    if i < FirstFail(o, n, cnt) then o.Value(n + i) else words[i]
  }

  /** Status `save_otp` returns: -1 for an empty block, the status of the last
      read otherwise. */
  function SaveStatus(o: Oracle, n: nat, cnt: nat): int {
    if cnt == 0 then -1 else if FirstFail(o, n, cnt) < cnt then EIO else 0
  }

  /** Bus log of `is_otp` from position `n`: the polls up to the ready one,
      followed by the block read when one was ready. */
  function IsOtpLog(o: Oracle, n: nat, cnt: nat): (r: seq<Txn>)
    ensures |r| == IsOtpLen(o, n, cnt)
  {
    var j := FirstReady(o, n);
    if j < MaxPolls then PollLog(j + 1) + SaveLog(o, n + j + 1, cnt) else PollLog(MaxPolls)
  }

  /** The OTP words after `is_otp` from position `n`: the block read right
      after the ready poll, or unchanged when no poll was ready. */
  function IsOtpWords(words: seq<Word>, o: Oracle, n: nat, cnt: nat): seq<Word>
    requires cnt <= |words|
  {
    var j := FirstReady(o, n);
    if j < MaxPolls then Saved(words, o, n + j + 1, cnt) else words
  }

  /** Number of transactions of `is_otp` from position `n`. */
  function IsOtpLen(o: Oracle, n: nat, cnt: nat): nat {
    var j := FirstReady(o, n);
    if j < MaxPolls then j + 1 + Min(FirstFail(o, n + j + 1, cnt) + 1, cnt) else MaxPolls
  }

  // ---------------------------------------------------------------------
  // read_otp: probe the memory types in order

  /** Every probe polls the status register at most five times. */
  lemma IsOtpPollsAtMostFive(o: Oracle, n: nat, cnt: nat)
    ensures |IsOtpLog(o, n, cnt)| <= MaxPolls + cnt
    ensures FirstReady(o, n) == MaxPolls ==> |IsOtpLog(o, n, cnt)| == MaxPolls
  {
  }

  /** Bus log of probing memory type `OtpTypes[k]` from position `p`: the
      type select, the read start, then `is_otp`. */
  function ProbeLog(o: Oracle, p: nat, k: nat, cnt: nat): (r: seq<Txn>)
    requires k < |OtpTypes|
    ensures |r| == ProbeEnd(o, p, cnt) - p
  {
    [WordWrite(RegOtpType, OtpTypes[k]), WordWrite(RegOtpControl, 0x0010)] + IsOtpLog(o, p + 2, cnt)
  }

  /** Position right after the probe that starts at position `p`. */
  function ProbeEnd(o: Oracle, p: nat, cnt: nat): nat {
    p + 2 + IsOtpLen(o, p + 2, cnt)
  }

  /** The probe that starts at position `p` finds the block ready. */
  predicate ProbeReady(o: Oracle, p: nat) {
    FirstReady(o, p + 2) < MaxPolls
  }

  /** Bus log of probing the memory types from index `k` on, starting at
      position `p`, up to and including the first probe that finds the
      block ready. */
  function ProbeRun(o: Oracle, p: nat, k: nat, cnt: nat): seq<Txn>
    requires k <= |OtpTypes|
    decreases |OtpTypes| - k
  {
    if k == |OtpTypes| then [] else
      ProbeLog(o, p, k, cnt) + if ProbeReady(o, p) then [] else ProbeRun(o, ProbeEnd(o, p, cnt), k + 1, cnt)
  }

  /** Index of the memory type, from `k` on, whose probe finds the block
      ready, or 6 when none does. */
  function ReadyType(o: Oracle, p: nat, k: nat, cnt: nat): (r: nat)
    requires k <= |OtpTypes|
    ensures k <= r <= |OtpTypes|
    decreases |OtpTypes| - k
  {
    if k == |OtpTypes| then k
    else if ProbeReady(o, p) then k
    else ReadyType(o, ProbeEnd(o, p, cnt), k + 1, cnt)
  }

  /** The OTP words after probing from index `k` on: only the probe that
      finds the block ready reads it, right after its ready poll. */
  function WordsAfter(words: seq<Word>, o: Oracle, p: nat, k: nat, cnt: nat): seq<Word>
    requires k <= |OtpTypes| && cnt <= |words|
    decreases |OtpTypes| - k
  {
    if k == |OtpTypes| then words
    else if ProbeReady(o, p) then IsOtpWords(words, o, p + 2, cnt)
    else WordsAfter(words, o, ProbeEnd(o, p, cnt), k + 1, cnt)
  }

  /** A probe that does not find the block ready hands over to the next
      memory type, right after its own log. */
  lemma ProbeMiss(words: seq<Word>, o: Oracle, p: nat, k: nat, cnt: nat)
    requires k < |OtpTypes| && cnt <= |words|
    requires !ProbeReady(o, p)
    ensures var q := ProbeEnd(o, p, cnt);
      && ProbeRun(o, p, k, cnt) == ProbeLog(o, p, k, cnt) + ProbeRun(o, q, k + 1, cnt)
      && ReadyType(o, p, k, cnt) == ReadyType(o, q, k + 1, cnt)
      && WordsAfter(words, o, p, k, cnt) == WordsAfter(words, o, q, k + 1, cnt)
  {
  }

  /** A probe that finds the block ready ends the probing: its log is the
      last one. */
  lemma ProbeHitRun(o: Oracle, p: nat, k: nat, cnt: nat)
    requires k < |OtpTypes|
    requires ProbeReady(o, p)
    ensures ProbeRun(o, p, k, cnt) == ProbeLog(o, p, k, cnt)
  {
    assert ProbeRun(o, p, k, cnt) == ProbeLog(o, p, k, cnt) + [];
  }

  /** A probe that finds the block ready selects its own memory type. */
  lemma ProbeHitType(o: Oracle, p: nat, k: nat, cnt: nat)
    requires k < |OtpTypes|
    requires ProbeReady(o, p)
    ensures ReadyType(o, p, k, cnt) == k
  {
  }

  /** A probe that finds the block ready ends the probing with the words its
      `is_otp` saved. */
  lemma ProbeHitWords(words: seq<Word>, o: Oracle, p: nat, k: nat, cnt: nat)
    requires k < |OtpTypes| && cnt <= |words|
    requires ProbeReady(o, p)
    ensures WordsAfter(words, o, p, k, cnt) == IsOtpWords(words, o, p + 2, cnt)
  {
  }

  /** Writes that open `read_otp`. */
  const OtpHeaderLog: seq<Txn> := [WordWrite(0x301A, 0x0610), WordWrite(0x3134, 0xCD95)]

  /** Bus log of `read_otp` from position `n`. */
  function ReadOtpLog(o: Oracle, n: nat, cnt: nat): seq<Txn> {
    OtpHeaderLog + ProbeRun(o, n + 2, 0, cnt)
  }

  /** Some probe of `read_otp` from position `n` finds the block ready. */
  predicate ReadOtpFound(o: Oracle, n: nat, cnt: nat) {
    ReadyType(o, n + 2, 0, cnt) < |OtpTypes|
  }

  /** The OTP words after `read_otp` from position `n`. */
  function ReadOtpWords(words: seq<Word>, o: Oracle, n: nat, cnt: nat): seq<Word>
    requires cnt <= |words|
  {
    WordsAfter(words, o, n + 2, 0, cnt)
  }

  /** The memory types a log selects, in order: the values of its writes to
      the OTP type register. */
  function TypeSelects(log: seq<Txn>): seq<Word> {
    if log == [] then []
    else (if log[0].Write? && log[0].addr == RegOtpType then [log[0].value] else []) + TypeSelects(log[1..])
  }

  lemma {:induction false} TypeSelectsConcat(a: seq<Txn>, b: seq<Txn>)
    ensures TypeSelects(a + b) == TypeSelects(a) + TypeSelects(b)
  {
    if a == [] {
      assert a + b == b;
    } else {
      assert (a + b)[0] == a[0] && (a + b)[1..] == a[1..] + b;
      TypeSelectsConcat(a[1..], b);
    }
  }

  /** A log of reads selects no memory type. */
  lemma {:induction false} ReadsSelectNothing(log: seq<Txn>)
    requires forall i :: 0 <= i < |log| ==> log[i].Read?
    ensures TypeSelects(log) == []
  {
    if log != [] {
      ReadsSelectNothing(log[1..]);
    }
  }

  /** `is_otp` only reads. */
  lemma IsOtpSelectsNothing(o: Oracle, n: nat, cnt: nat)
    ensures TypeSelects(IsOtpLog(o, n, cnt)) == []
  {
    var polls := IsOtpLog(o, n, cnt);
    assert forall i :: 0 <= i < |polls| ==> polls[i].Read?;
    ReadsSelectNothing(polls);
  }

  /** A probe selects its own memory type, once. */
  lemma ProbeSelects(o: Oracle, p: nat, k: nat, cnt: nat)
    requires k < |OtpTypes|
    ensures TypeSelects(ProbeLog(o, p, k, cnt)) == [OtpTypes[k]]
  {
    var head := [WordWrite(RegOtpType, OtpTypes[k]), WordWrite(RegOtpControl, 0x0010)];
    assert TypeSelects(head) == [OtpTypes[k]] by {
      assert head[1..][1..] == [];
      assert TypeSelects(head[1..]) == [] + TypeSelects(head[1..][1..]);
    }
    IsOtpSelectsNothing(o, p + 2, cnt);
    TypeSelectsConcat(head, IsOtpLog(o, p + 2, cnt));
  }

  /** A non-empty slice is its first element followed by the rest. */
  lemma SliceFirst<T>(s: seq<T>, i: nat, j: nat)
    requires i < j <= |s|
    ensures s[i..j] == [s[i]] + s[i + 1..j]
  {
  }

  /** A slice from the start is a prefix, the whole sequence at full length. */
  lemma SliceFromStart<T>(s: seq<T>, j: nat)
    requires j <= |s|
    ensures s[0..j] == s[..j]
    ensures j == |s| ==> s[0..j] == s
  {
  }

  /** The probes select the memory types from `k` on in priority order, up
      to and including the first whose probe finds the block ready, and no
      other type. */
  lemma {:induction false} ProbesSelectInOrder(o: Oracle, p: nat, k: nat, cnt: nat)
    requires k <= |OtpTypes|
    ensures TypeSelects(ProbeRun(o, p, k, cnt)) == OtpTypes[k..Min(ReadyType(o, p, k, cnt) + 1, |OtpTypes|)]
    decreases |OtpTypes| - k
  {
    if k < |OtpTypes| {
      ProbeSelects(o, p, k, cnt);
      if ProbeReady(o, p) {
        ProbeHitRun(o, p, k, cnt);
        ProbeHitType(o, p, k, cnt);
        SliceFirst(OtpTypes, k, k + 1);
      } else {
        var q := ProbeEnd(o, p, cnt);
        assert ProbeRun(o, p, k, cnt) == ProbeLog(o, p, k, cnt) + ProbeRun(o, q, k + 1, cnt);
        assert ReadyType(o, p, k, cnt) == ReadyType(o, q, k + 1, cnt);
        TypeSelectsConcat(ProbeLog(o, p, k, cnt), ProbeRun(o, q, k + 1, cnt));
        ProbesSelectInOrder(o, q, k + 1, cnt);
        SliceFirst(OtpTypes, k, Min(ReadyType(o, q, k + 1, cnt) + 1, |OtpTypes|));
      }
    }
  }

  /** `read_otp` selects the memory types 0x3500 down to 0x3000 in that
      order and stops at the first one found ready; with none ready it
      selects all six. */
  lemma ReadOtpProbesInOrder(o: Oracle, n: nat, cnt: nat)
    ensures TypeSelects(ReadOtpLog(o, n, cnt)) == OtpTypes[..Min(ReadyType(o, n + 2, 0, cnt) + 1, |OtpTypes|)]
    ensures !ReadOtpFound(o, n, cnt) ==> TypeSelects(ReadOtpLog(o, n, cnt)) == OtpTypes
  {
    var header := OtpHeaderLog;
    assert header[1..][1..] == [];
    assert TypeSelects(header[1..]) == [] + TypeSelects(header[1..][1..]);
    TypeSelectsConcat(header, ProbeRun(o, n + 2, 0, cnt));
    ProbesSelectInOrder(o, n + 2, 0, cnt);
    SliceFromStart(OtpTypes, Min(ReadyType(o, n + 2, 0, cnt) + 1, |OtpTypes|));
  }

  // ---------------------------------------------------------------------
  // Validity and its consumers

  /** The block read passes both sentinel checks of `read_otp`. */
  predicate SentinelsOk(words: seq<Word>)
    requires |words| > Sentinel1
  {
    words[Sentinel0] == 0 && words[Sentinel1] == 0xFFFF
  }

  /** White-balance ratios reported from the OTP block. */
  datatype CalibInfo = CalibInfo(rOverG: Word, bOverG: Word, grOverGb: Word)

  datatype AwbResult = AwbOk(info: CalibInfo) | AwbErr(code: int)

  /** `read_awb_data`: white-balance ratios from OTP words 4 to 6, refused
      with -ENODEV unless the block is valid and word 4 is non-zero; modules
      other than LiteOn store the two last ratios in the other order. */
  function AwbData(words: seq<Word>, valid: bool, liteOn: bool): (r: AwbResult)
    requires |words| > ShadingStart
    ensures r.AwbErr? <==> (words[4] == 0 || !valid)
    ensures r.AwbErr? ==> r.code == ENODEV
    ensures r.AwbOk? ==> r.info.rOverG == words[4]
    ensures r.AwbOk? ==> multiset{r.info.bOverG, r.info.grOverGb} == multiset{words[5], words[6]}
    ensures r.AwbOk? ==> (r.info.grOverGb == words[5] <==> liteOn) || words[5] == words[6]
  {
    if words[4] == 0 || !valid then AwbErr(ENODEV)
    else if liteOn then AwbOk(CalibInfo(words[4], words[6], words[5]))
    else AwbOk(CalibInfo(words[4], words[5], words[6]))
  }

  /** The OTP block supplies the shading table: it is valid and its first
      shading word is non-zero. */
  predicate OtpShading(words: seq<Word>, valid: bool)
    requires |words| > ShadingStart
  {
    valid && words[ShadingStart] != 0
  }

  /** The default shading table's addresses with the OTP words from index 8
      on as data. */
  function OtpShadingTable(words: seq<Word>, shading: seq<RegConf>): (es: seq<RegConf>)
    requires ShadingStart + |shading| <= |words|
    ensures |es| == |shading|
  {
    seq(|shading|, i requires 0 <= i < |shading| => RegConf(shading[i].waddr, words[ShadingStart + i]))
  }

  /** The shading table the driver programs: the OTP-derived table when the
      block supplies one, the default table otherwise. */
  function ShadingEntries(words: seq<Word>, valid: bool, shading: seq<RegConf>): (es: seq<RegConf>)
    requires |words| > ShadingStart && ShadingStart + |shading| <= |words|
    ensures |es| == |shading|
    ensures forall i :: 0 <= i < |es| ==> es[i].waddr == shading[i].waddr
  {
    if OtpShading(words, valid) then OtpShadingTable(words, shading) else shading
  }

  /** No OTP-derived shading value is programmed unless the block is valid. */
  lemma ShadingUsesOtpOnlyWhenValid(words: seq<Word>, valid: bool, shading: seq<RegConf>, i: nat)
    requires |words| > ShadingStart && ShadingStart + |shading| <= |words|
    requires i < |shading|
    ensures !valid || words[ShadingStart] == 0 ==> ShadingEntries(words, valid, shading)[i] == shading[i]
    ensures valid && words[ShadingStart] != 0 ==> ShadingEntries(words, valid, shading)[i].wdata == words[ShadingStart + i]
  {
  }

  /** Bus log of one shading write at position `n`, retried once after a
      failure when `retry` is set. */
  function ShadingAttempt(o: Oracle, n: nat, e: RegConf, retry: bool): seq<Txn> {
    [WordWrite(e.waddr, e.wdata)] + if retry && !o.Ok(n) then [WordWrite(e.waddr, e.wdata)] else []
  }

  /** Bus log of writing the shading entries from position `n`. */
  function ShadingWrites(o: Oracle, n: nat, es: seq<RegConf>, retry: bool): seq<Txn> {
    if es == [] then [] else
      var pre := ShadingWrites(o, n, es[..|es| - 1], retry);
      pre + ShadingAttempt(o, n + |pre|, es[|es| - 1], retry)
  }

  /** Status `shading_setting` returns: that of the first attempt at the last
      entry (a retry's status is discarded), 0 for an empty table. */
  function ShadingStatus(o: Oracle, n: nat, es: seq<RegConf>, retry: bool): int {
    if es == [] then 0 else
      o.Status(n + |ShadingWrites(o, n, es[..|es| - 1], retry)|)
  }

  /** The log of `shading_setting` from position `n`: shading off, the
      shading table, shading on. */
  function ShadingLog(o: Oracle, n: nat, words: seq<Word>, valid: bool, shading: seq<RegConf>): seq<Txn>
    requires |words| > ShadingStart && ShadingStart + |shading| <= |words|
  {
    [WordWrite(RegShadingControl, 0)] + ShadingWrites(o, n + 1, ShadingEntries(words, valid, shading), OtpShading(words, valid))
      + [WordWrite(RegShadingControl, 0x8000)]
  }

  /** Without retry every entry is written exactly once, in order. */
  lemma {:induction false} ShadingWritesNoRetry(o: Oracle, n: nat, es: seq<RegConf>)
    ensures ShadingWrites(o, n, es, false) == TableWrites(es)
  {
    if es != [] {
      ShadingWritesNoRetry(o, n, es[..|es| - 1]);
    }
  }
}
