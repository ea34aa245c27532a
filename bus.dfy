/** Register bus adapter of the MT9E013 driver: the byte framing of register
    reads and writes, the transaction log that stands in for the two-wire bus,
    and the oracle that decides which transactions fail and what reads return. */
module Bus {
  import opened Arith

  type Byte = x: int | 0 <= x < 0x100
  type Word = x: int | 0 <= x < 0x1_0000

  /** Kernel error codes returned by the driver (negated errno values). */
  const EIO: int := -5
  const ENODEV: int := -19
  const EFAULT: int := -14
  const EINVAL: int := -22

  /** Data width of a register write: `write_b_sensor` or `write_w_sensor`. */
  datatype Width = ByteWide | WordWide

  /** One entry of the bus log: a register write, a register read, or the
      settle delay the focus motor waits after a lens write (in microseconds). */
  datatype Txn =
    | Write(addr: Word, value: Word, width: Width)
    | Read(addr: Word)
    | Settle(us: nat)

  /** One entry of a register table (`struct mt9e013_i2c_reg_conf`). */
  datatype RegConf = RegConf(waddr: Word, wdata: Word)

  /** What the bus answers. The transaction logged at position `n` fails when
      `n` is in `fails`; a read logged at position `n` that does not fail
      returns `data[n]` (0 when absent). `csiStatus` is the status the
      platform's CSI configuration call returns. */
  datatype Oracle = Oracle(fails: set<nat>, data: map<nat, Word>, csiStatus: int)
  {
    predicate Ok(n: nat) { n !in fails }

    function Value(n: nat): Word { if n in data then data[n] else 0 }

    /** Status code the driver's bus helpers return for transaction `n`. */
    function Status(n: nat): (rc: int)
      ensures rc == 0 <==> Ok(n)
      ensures rc == 0 || rc == EIO
    {
      if Ok(n) then 0 else EIO
    }
  }

  /** Offset of the first failing transaction among the `cnt` transactions
      logged from position `n` on, or `cnt` when none of them fails. */
  function FirstFail(o: Oracle, n: nat, cnt: nat): (f: nat)
    ensures f <= cnt
    ensures f < cnt ==> !o.Ok(n + f)
    ensures forall p :: n <= p < n + f ==> o.Ok(p)
    decreases cnt
  {
    if cnt == 0 then 0
    else
      var f := FirstFail(o, n, cnt - 1);
      if f < cnt - 1 then f else if o.Ok(n + cnt - 1) then cnt else cnt - 1
  }

  /** An offset with every transaction before it successful and the one at
      it failing (or the end reached) is the first failure. */
  lemma FirstFailIs(o: Oracle, n: nat, cnt: nat, f: nat)
    requires f <= cnt
    requires forall p :: n <= p < n + f ==> o.Ok(p)
    requires f < cnt ==> !o.Ok(n + f)
    ensures FirstFail(o, n, cnt) == f
  {
  }

  /** Appending to a log in two steps appends the concatenation. */
  lemma LogAppend(a: seq<Txn>, b: seq<Txn>, c: seq<Txn>)
    ensures a + (b + c) == (a + b) + c
  {
  }

  function WordWrite(addr: Word, data: Word): Txn { Write(addr, data, WordWide) }

  function ByteWrite(addr: Word, data: Byte): Txn { Write(addr, data, ByteWide) }

  /** The log of a table whose entries are all written as words, in order. */
  function TableWrites(tbl: seq<RegConf>): (log: seq<Txn>)
    ensures |log| == |tbl|
    ensures forall i :: 0 <= i < |tbl| ==> log[i] == WordWrite(tbl[i].waddr, tbl[i].wdata)
  {
    if tbl == [] then [] else TableWrites(tbl[..|tbl| - 1]) + [WordWrite(tbl[|tbl| - 1].waddr, tbl[|tbl| - 1].wdata)]
  }

  /** The writes `write_w_table` logs from position `n`: the entries in
      order, up to and including the first one that fails. */
  function TableLog(o: Oracle, n: nat, tbl: seq<RegConf>): (log: seq<Txn>)
    ensures |log| == Min(FirstFail(o, n, |tbl|) + 1, |tbl|)
  {
    TableWrites(tbl[..Min(FirstFail(o, n, |tbl|) + 1, |tbl|)])
  }

  /** Status `write_w_table` returns: -EIO for an empty table, the status of
      the failing write when one fails, 0 otherwise. */
  function TableStatus(o: Oracle, n: nat, tbl: seq<RegConf>): int {
    if tbl == [] || FirstFail(o, n, |tbl|) < |tbl| then EIO else 0
  }

  /** A table upload writes a prefix of the table in order; it returns 0
      exactly when the table is not empty and every entry was written
      successfully; otherwise every write but the last logged one succeeded
      and the last one failed. */
  lemma TableLogStopsAtFailure(o: Oracle, n: nat, tbl: seq<RegConf>)
    ensures var log := TableLog(o, n, tbl);
      && (forall i :: 0 <= i < |log| ==> log[i] == WordWrite(tbl[i].waddr, tbl[i].wdata))
      && (TableStatus(o, n, tbl) == 0 <==>
            tbl != [] && log == TableWrites(tbl) && forall p :: n <= p < n + |tbl| ==> o.Ok(p))
      && (forall p :: n <= p < n + |log| - 1 ==> o.Ok(p))
      && (TableStatus(o, n, tbl) != 0 && tbl != [] ==> !o.Ok(n + |log| - 1))
  {
    var f := FirstFail(o, n, |tbl|);
    if f == |tbl| {
      assert tbl[..|tbl|] == tbl;
    } else {
      assert !o.Ok(n + f);
    }
  }

  /** The big-endian word made of a high and a low byte. */
  function Join(hi: Byte, lo: Byte): Word { hi as int * 0x100 + lo as int }

  /** Bytes sent on the wire for a word write: big-endian address, then
      big-endian data. */
  function WordFrame(addr: Word, data: Word): (f: seq<Byte>)
    ensures |f| == 4
    ensures Join(f[0], f[1]) == addr && Join(f[2], f[3]) == data
  {
    [addr / 0x100, addr % 0x100, data / 0x100, data % 0x100]
  }

  /** Bytes sent on the wire for a byte write: big-endian address, then data. */
  function ByteFrame(addr: Word, data: Byte): (f: seq<Byte>)
    ensures |f| == 3
    ensures Join(f[0], f[1]) == addr && f[2] == data
  {
    [addr / 0x100, addr % 0x100, data]
  }

  /** The frame of a logged write. */
  function Frame(t: Txn): (f: seq<Byte>)
    requires t.Write? && (t.width == ByteWide ==> t.value < 0x100)
  {
    if t.width == WordWide then WordFrame(t.addr, t.value) else ByteFrame(t.addr, t.value)
  }

  /** Recovers the write a frame carries, or None when it is not a
      3- or 4-byte frame. */
  function Unframe(f: seq<Byte>): (t: Option<Txn>)
    ensures t.Some? <==> |f| == 3 || |f| == 4
  {
    if |f| == 4 then Some(Write(Join(f[0], f[1]), Join(f[2], f[3]), WordWide))
    else if |f| == 3 then Some(Write(Join(f[0], f[1]), f[2], ByteWide))
    else None
  }

  datatype Option<T> = None | Some(value: T)

  /** The frame of every write is decoded back to that write: address, data
      and width are recoverable from the bytes on the wire. */
  lemma FrameRoundTrip(t: Txn)
    requires t.Write? && (t.width == ByteWide ==> t.value < 0x100)
    ensures Unframe(Frame(t)) == Some(t)
  {
  }

  /** Two different writes never share a frame. */
  lemma FrameInjective(s: Txn, t: Txn)
    requires s.Write? && (s.width == ByteWide ==> s.value < 0x100)
    requires t.Write? && (t.width == ByteWide ==> t.value < 0x100)
    requires Frame(s) == Frame(t)
    ensures s == t
  {
    FrameRoundTrip(s);
    FrameRoundTrip(t);
  }

  /** The value `i2c_read` stores from the two bytes the bus returned:
      a big-endian word for a 2-byte read, the first byte otherwise. */
  function ReadValue(buf: seq<Byte>, rlen: int): (v: Word)
    requires |buf| == 2
    ensures rlen == 2 ==> v / 0x100 == buf[0] && v % 0x100 == buf[1]
    ensures rlen != 2 ==> v == buf[0]
  {
    if rlen == 2 then Join(buf[0], buf[1]) else buf[0]
  }

  /** A word read decodes exactly the data bytes a word write would frame. */
  lemma ReadDecodesFrame(addr: Word, data: Word)
    ensures ReadValue(WordFrame(addr, data)[2..], 2) == data
  {
  }

  /** The bus as the driver sees it: the transactions logged so far and the
      oracle that answers them. `write_w_sensor`, `write_b_sensor`, `i2c_read`
      and `write_w_table` are its operations. */
  class I2cBus {
    var log: seq<Txn>
    const oracle: Oracle

    constructor (oracle: Oracle)
      ensures log == [] && this.oracle == oracle
    {
      log := [];
      this.oracle := oracle;
    }

    /** `write_w_sensor`: one word write, whose status the oracle decides. */
    method WriteWord(addr: Word, value: Word) returns (rc: int)
      modifies this
      ensures log == old(log) + [WordWrite(addr, value)]
      ensures rc == oracle.Status(|old(log)|)
    {
      rc := oracle.Status(|log|);
      log := log + [WordWrite(addr, value)];
    }

    /** `write_b_sensor`. */
    method WriteByte(addr: Word, value: Byte) returns (rc: int)
      modifies this
      ensures log == old(log) + [ByteWrite(addr, value)]
      ensures rc == oracle.Status(|old(log)|)
    {
      rc := oracle.Status(|log|);
      log := log + [ByteWrite(addr, value)];
    }

    /** `i2c_read` of a word: `value` is meaningful only when `rc` is 0. */
    method ReadWord(addr: Word) returns (rc: int, value: Word)
      modifies this
      ensures log == old(log) + [Read(addr)]
      ensures rc == oracle.Status(|old(log)|)
      ensures rc == 0 ==> value == oracle.Value(|old(log)|)
    {
      rc := oracle.Status(|log|);
      value := oracle.Value(|log|);
      log := log + [Read(addr)];
    }

    /** A settle delay of the focus motor. */
    method Delay(us: nat)
      modifies this
      ensures log == old(log) + [Settle(us)]
    {
      log := log + [Settle(us)];
    }

    /** `write_w_table`: writes the entries in order and stops at the first
        failure. */
    method WriteTable(tbl: seq<RegConf>) returns (rc: int)
      modifies this
      ensures log == old(log) + TableLog(oracle, |old(log)|, tbl)
      ensures rc == TableStatus(oracle, |old(log)|, tbl)
    {
      ghost var n := |log|;
      rc := EIO;
      var i := 0;
      while i < |tbl|
        invariant 0 <= i <= |tbl|
        invariant log == old(log) + TableWrites(tbl[..i])
        invariant forall p :: n <= p < n + i ==> oracle.Ok(p)
        invariant rc == if i == 0 then EIO else 0
      {
        rc := WriteWord(tbl[i].waddr, tbl[i].wdata);
        assert tbl[..i + 1][..i] == tbl[..i];
        if rc < 0 {
          assert FirstFail(oracle, n, |tbl|) == i;
          return;
        }
        i := i + 1;
      }
      assert tbl[..i] == tbl;
      assert FirstFail(oracle, n, |tbl|) == |tbl|;
    }
  }
}
