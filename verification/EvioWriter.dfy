/**
 The writers that put EVIO messages into the asynchronous FIFO: control events, user events
 (directly or under flow control) and the connection data.

 Every writer is a function on the FIFO (the specification) and a method of `AsyncPort`
 that makes the register accesses one at a time, as the driver does.
 */
module EvioWriter {
  import opened Bytes
  import opened AsyncFifo

  /** `Ok` is the source's OK.  The source returns ERROR both for `Rejected` (nothing written)
      and for `FifoFull` (abandoned part way through the message). */
  datatype Reply = Ok | Rejected | FifoFull

  const MAX_USER_WORDS: nat := 1024 * 1024
  const END_TYPE: Word := 0xffd4

  // ---------------------------------------------------------------- messages

  function BlockHeader(total: Word, rocId: Word, kind: Word): seq<Word> {
    [total, 0xffff_ffff, 8, 1, rocId, kind, 0, 0xc0da_0100]
  }

  /** The 13 words of a control event, preceded by the cMsg header unless sent over UDP. */
  function ControlMessage(udp: bool, rocId: Word, kind: Word, val0: Word, val1: Word): seq<Word> {
    (if udp then [] else [if kind == END_TYPE then 3 else 1, 52])
    + BlockHeader(13, rocId, 0x1604)
    + [4, kind % 0x1_0000 * 0x1_0000 + 0x100, 1200, val0, val1]
  }

  /** `buf[0] + 1` in 32-bit arithmetic. */
  function UserWords(buf: seq<Word>): nat
    requires |buf| >= 2
  {
    var length: int := buf[0];
    (length + 1) % 0x1_0000_0000
  }

  /** The length written to the length FIFO for a user event. */
  function UserFrame(buf: seq<Word>): nat
    requires |buf| >= 2
  {
    UserWords(buf) + 10
  }

  function UserPrefix(buf: seq<Word>, rocId: Word): seq<Word>
    requires |buf| >= 2 && UserWords(buf) <= MAX_USER_WORDS
  {
    var total: Word := UserWords(buf) + 8;
    [1, 4 * total] + BlockHeader(total, rocId, 0x1204) + [(UserWords(buf) - 1) % 0x1_0000_0000]
  }

  /** The words of `buf` the loops send after its length word. */
  function UserBody(buf: seq<Word>): seq<Word>
    requires |buf| >= 2 && |buf| >= UserWords(buf)
  {
    if UserWords(buf) == 0 then [] else buf[1..UserWords(buf)]
  }

  function UserMessage(buf: seq<Word>, rocId: Word): seq<Word>
    requires |buf| >= 2 && UserWords(buf) <= MAX_USER_WORDS && UserWords(buf) <= |buf|
  {
    UserPrefix(buf, rocId) + UserBody(buf)
  }

  /** The checks on the caller's bank: length, tag, data type and num. */
  predicate Admissible(buf: seq<Word>)
    requires |buf| >= 2
  {
    var tag := buf[1] / 0x1_0000;
    var dt := buf[1] / 0x100 % 0x40;
    && UserWords(buf) <= MAX_USER_WORDS
    && tag < 0xff00
    && (dt <= 0x10 || dt == 0x20)
    && buf[1] % 0x100 == 0
  }

  /** The caller's buffer holds the words its length word promises. */
  predicate Readable(buf: seq<Word>) {
    |buf| >= 2 && (UserWords(buf) <= MAX_USER_WORDS ==> UserWords(buf) <= |buf|)
  }

  // ---------------------------------------------------------------- the writers as functions

  function WriteFrame(f: Fifo, schedule: Schedule, message: seq<Word>): Fifo
    requires |message| < 0x1_0000_0000
  {
    PushLen(PushAll(f, schedule, message), schedule, |message|)
  }

  /** vtpRocEvioWriteControl: refused unless the FIFO reads empty. */
  function WriteRocControl(f: Fifo, schedule: Schedule, rocId: Word, kind: Word, val0: Word, val1: Word): (Reply, Fifo)
    requires f.Valid()
  {
    var g := Drain(f, schedule);
    if LevelField(Status(g)) > 0 then (Rejected, g)
    else (Ok, WriteFrame(g, schedule, ControlMessage(false, rocId, kind, val0, val1)))
  }

  /** How many of the remaining words the driver sends after sampling the level. */
  function BurstSize(b: Fifo, rest: seq<Word>): (avail: nat)
    requires b.Valid()
    ensures avail <= |rest|
    ensures b.level < DEPTH && rest != [] ==> avail > 0
  {
    LevelFieldReading(b);
    var room := DEPTH - LevelField(Status(b));
    if room > |rest| then |rest| else room
  }

  /** The words sent after that sample. */
  function Burst(b: Fifo, schedule: Schedule, rest: seq<Word>): (c: Fifo)
    requires b.Valid()
    ensures c.Valid() && c.level <= b.level + BurstSize(b, rest)
    ensures c.tick == b.tick + BurstSize(b, rest) && b.lost <= c.lost
    ensures b.level + BurstSize(b, rest) <= DEPTH ==> c.lost == b.lost
  {
    PushAllEffect(b, schedule, rest[..BurstSize(b, rest)]);
    PushAll(b, schedule, rest[..BurstSize(b, rest)])
  }

  /** The part of a flow-controlled write that follows the eleventh word. */
  function SendUnderFlowControl(f: Fifo, schedule: Schedule, rest: seq<Word>): (Reply, Fifo)
    requires f.Valid() && rest != []
    decreases |rest|
  {
    var a := Drain(f, schedule);
    if FullFlag(Status(a)) then (FifoFull, a) else
    var b := Drain(a, schedule);
    LevelFieldReading(a);
    var avail := BurstSize(b, rest);
    var c := Burst(b, schedule, rest);
    if avail == |rest| then (Ok, c)
    else SendUnderFlowControl(c, schedule, rest[avail..])
  }

  /** The length and the first eleven words of a user event. */
  function SendPrefix(f: Fifo, schedule: Schedule, rocId: Word, buf: seq<Word>): (g: Fifo)
    requires f.Valid() && |buf| >= 2 && UserWords(buf) <= MAX_USER_WORDS
    ensures g.Valid()
  {
    PushAllEffect(PushLen(f, schedule, UserFrame(buf)), schedule, UserPrefix(buf, rocId));
    PushAll(PushLen(f, schedule, UserFrame(buf)), schedule, UserPrefix(buf, rocId))
  }

  /** vtpRocEvioWriteUserEvent. */
  function WriteUser(f: Fifo, schedule: Schedule, rocId: Word, buf: seq<Word>): (Reply, Fifo)
    requires f.Valid() && Readable(buf)
  {
    if !Admissible(buf) then (Rejected, f)
    else if UserFrame(buf) > DEPTH then
      var g := Drain(f, schedule);
      if LevelField(Status(g)) > DEPTH - 12 then (Rejected, g)
      else SendUnderFlowControl(SendPrefix(g, schedule, rocId, buf), schedule, UserBody(buf))
    else
      (Ok, PushAll(SendPrefix(f, schedule, rocId, buf), schedule, UserBody(buf)))
  }

  // ---------------------------------------------------------------- the writers as methods

  class AsyncPort {
    var fifo: Fifo
    var rocId: Word
    const schedule: Schedule

    constructor (schedule: Schedule, level: nat, rocId: Word)
      requires level <= DEPTH
      ensures fifo == Fifo(level, 0, [], [], 0) && this.schedule == schedule && this.rocId == rocId
    {
      fifo := Fifo(level, 0, [], [], 0);
      this.schedule := schedule;
      this.rocId := rocId;
    }

    method PutData(w: Word)
      modifies this`fifo
      ensures fifo == PushWord(old(fifo), schedule, w)
    {
      fifo := PushWord(fifo, schedule, w);
    }

    method PutLen(n: Word)
      modifies this`fifo
      ensures fifo == PushLen(old(fifo), schedule, n)
    {
      fifo := PushLen(fifo, schedule, n);
    }

    method ReadStatus() returns (status: Word)
      requires fifo.Valid()
      modifies this`fifo
      ensures fifo == Drain(old(fifo), schedule) && fifo.Valid() && status == Status(fifo)
    {
      fifo := Drain(fifo, schedule);
      status := Status(fifo);
    }

    /** A straight run of writes to the data register. */
    method PutAll(ws: seq<Word>)
      modifies this`fifo
      ensures fifo == PushAll(old(fifo), schedule, ws)
    {
      for i := 0 to |ws|
        invariant fifo == PushAll(old(fifo), schedule, ws[..i])
      {
        PutData(ws[i]);
        assert ws[..i + 1][..i] == ws[..i];
      }
      assert ws[..|ws|] == ws;
    }

    method RocWriteControl(kind: Word, val0: Word, val1: Word) returns (r: Reply)
      requires fifo.Valid()
      modifies this`fifo
      ensures (r, fifo) == WriteRocControl(old(fifo), schedule, rocId, kind, val0, val1)
    {
      var status := ReadStatus();
      if LevelField(status) > 0 {
        return Rejected;
      }
      PutAll(ControlMessage(false, rocId, kind, val0, val1));
      PutLen(15);
      r := Ok;
    }

    /** vtpStreamingEvioWriteControl, once the port has been selected: no look at the level. */
    method StreamingWriteControl(udp: bool, kind: Word, val0: Word, val1: Word)
      modifies this`fifo
      ensures fifo == WriteFrame(old(fifo), schedule, ControlMessage(udp, rocId, kind, val0, val1))
    {
      PutAll(ControlMessage(udp, rocId, kind, val0, val1));
      PutLen(if udp then 13 else 15);
    }

    /** The connection data sent by the two connect routines. */
    method WriteConnectData(cdata: seq<Word>)
      requires |cdata| < 0x1_0000_0000
      modifies this`fifo
      ensures fifo == if cdata == [] then old(fifo) else WriteFrame(old(fifo), schedule, cdata)
    {
      if |cdata| != 0 {
        PutAll(cdata);
        PutLen(|cdata|);
      }
    }

    method RocWriteUserEvent(buf: seq<Word>) returns (r: Reply)
      requires fifo.Valid() && Readable(buf)
      modifies this`fifo
      ensures (r, fifo) == WriteUser(old(fifo), schedule, rocId, buf)
    {
      if !Admissible(buf) {
        return Rejected;
      }
      var blen := UserWords(buf);
      var flowControl := blen + 10 > DEPTH;
      if flowControl {
        var status := ReadStatus();
        if LevelField(status) > DEPTH - 12 {
          return Rejected;
        }
      }
      ghost var start := fifo;
      PutLen(blen + 10);
      PutAll(UserPrefix(buf, rocId));
      assert fifo == SendPrefix(start, schedule, rocId, buf);
      if !flowControl {
        PutAll(UserBody(buf));
        return Ok;
      }
      r := PutUnderFlowControl(UserBody(buf));
    }

    /** The do-while loop of a flow-controlled user event; `rest` is what is still to be sent. */
    method PutUnderFlowControl(body: seq<Word>) returns (r: Reply)
      requires fifo.Valid() && body != []
      modifies this`fifo
      ensures (r, fifo) == SendUnderFlowControl(old(fifo), schedule, body)
    {
      ghost var goal := SendUnderFlowControl(fifo, schedule, body);
      var rest := body;
      while |rest| > 0
        invariant fifo.Valid()
        invariant goal == if rest != [] then SendUnderFlowControl(fifo, schedule, rest) else (Ok, fifo)
      {
        var first := ReadStatus();
        if FullFlag(first) {
          return FifoFull;
        }
        LevelFieldReading(fifo);
        var second := ReadStatus();
        ghost var sampled := fifo;
        LevelFieldReading(fifo);
        var avail := DEPTH - LevelField(second);
        if avail > |rest| {
          avail := |rest|;
        }
        PutAll(rest[..avail]);
        assert fifo == Burst(sampled, schedule, rest);
        rest := rest[avail..];
      }
      r := Ok;
    }
  }
}
