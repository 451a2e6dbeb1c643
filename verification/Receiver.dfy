/**
 A receiver that reads an event out of a frame by word position, and what it finds there for every
 message that is written.
 */
module Receiver {
  import opened Options
  import opened Bytes
  import opened AsyncFifo
  import opened EvioWriter
  import opened Framing
  import opened Delivery

  /** The eight block-header words at `at`, up to the version word. */
  predicate IsBlock(frame: seq<Word>, at: nat, total: int, rocId: Word, kind: Word)
    requires at + 8 <= |frame|
  {
    && frame[at] == total && frame[at + 1] == 0xffff_ffff && frame[at + 2] == 8 && frame[at + 3] == 1
    && frame[at + 4] == rocId && frame[at + 5] == kind && frame[at + 6] == 0 && frame[at + 7] == 0xc0da_0100
  }

  /** The five words of a control bank at `at`: length, type and data type, time, and two values. */
  predicate IsControlBank(frame: seq<Word>, at: nat, kind: Word, val0: Word, val1: Word)
    requires at + 5 <= |frame|
  {
    && frame[at] == 4 && frame[at + 1] / 0x1_0000 == kind % 0x1_0000 && frame[at + 1] % 0x1_0000 == 0x0100
    && frame[at + 2] == 1200 && frame[at + 3] == val0 && frame[at + 4] == val1
  }

  /** A control event over TCP: type 3 for END and 1 for all others, 52 bytes, then the block. */
  predicate IsTcpControl(frame: seq<Word>, rocId: Word, kind: Word, val0: Word, val1: Word) {
    && |frame| == 15 && frame[0] == (if kind == 0xffd4 then 3 else 1) && frame[1] == 52
    && IsBlock(frame, 2, 13, rocId, 0x1604) && IsControlBank(frame, 10, kind, val0, val1)
  }

  /** Over UDP the block comes first. */
  predicate IsUdpControl(frame: seq<Word>, rocId: Word, kind: Word, val0: Word, val1: Word) {
    && |frame| == 13 && IsBlock(frame, 0, 13, rocId, 0x1604) && IsControlBank(frame, 8, kind, val0, val1)
  }

  /** A user event: its words without the length word's one, nine more than that in the block. */
  predicate IsUser(frame: seq<Word>, rocId: Word, buf: seq<Word>)
    requires buf != []
  {
    var length: int := buf[0];
    && |frame| == length + 11 && |buf| > length
    && frame[0] == 1 && frame[1] == 4 * (length + 9) && IsBlock(frame, 2, length + 9, rocId, 0x1204)
    && frame[10] == length && frame[11..] == buf[1..length + 1]
  }

  lemma ControlRead(rocId: Word, kind: Word, val0: Word, val1: Word)
    ensures IsTcpControl(ControlMessage(false, rocId, kind, val0, val1), rocId, kind, val0, val1)
    ensures IsUdpControl(ControlMessage(true, rocId, kind, val0, val1), rocId, kind, val0, val1)
  {
  }

  lemma UserRead(rocId: Word, buf: seq<Word>)
    requires Readable(buf) && Admissible(buf) && buf[0] != 0xffff_ffff
    ensures IsUser(UserMessage(buf, rocId), rocId, buf)
  {
    var length: int := buf[0];
    assert UserWords(buf) == length + 1;
  }

  /** The frame says what was written. */
  predicate Tells(frame: seq<Word>, rocId: Word, w: Write)
    requires w.Callable()
  {
    match w
    case RocControl(kind, val0, val1) => IsTcpControl(frame, rocId, kind, val0, val1)
    case StreamingControl(udp, kind, val0, val1) =>
      if udp then IsUdpControl(frame, rocId, kind, val0, val1) else IsTcpControl(frame, rocId, kind, val0, val1)
    case User(buf) => IsUser(frame, rocId, buf)
    case Connect(cdata) => frame == cdata
  }

  /** The frames tell the accepted writes, one each and in order; empty connection data sends none. */
  predicate AllTold(frames: seq<seq<Word>>, rocId: Word, ws: seq<Write>, replies: seq<Reply>)
    requires AllCallable(ws) && |replies| == |ws|
    decreases |ws|
  {
    if ws == [] then frames == []
    else
      var n := |ws| - 1;
      if replies[n] != Ok || (ws[n].Connect? && ws[n].cdata == []) then AllTold(frames, rocId, ws[..n], replies[..n])
      else
        && frames != [] && Tells(frames[|frames| - 1], rocId, ws[n])
        && AllTold(frames[..|frames| - 1], rocId, ws[..n], replies[..n])
  }

  lemma WriteTold(f: Fifo, schedule: Schedule, rocId: Word, w: Write)
    requires f.Valid() && w.Callable() && w.Countable()
    ensures var reply := Perform(f, schedule, rocId, w).0;
            var ms := MessagesOf(rocId, w, reply);
            if reply != Ok || (w.Connect? && w.cdata == []) then ms == []
            else |ms| == 1 && Tells(ms[0], rocId, w)
  {
    match w
    case RocControl(kind, val0, val1) => ControlRead(rocId, kind, val0, val1);
    case StreamingControl(udp, kind, val0, val1) => ControlRead(rocId, kind, val0, val1);
    case User(buf) =>
      if Admissible(buf) {
        UserRead(rocId, buf);
      }
    case Connect(cdata) =>
  }

  lemma OneMoreTold(
    frames: seq<seq<Word>>, rocId: Word, ws: seq<Write>, replies: seq<Reply>, reply: Reply, ms: seq<seq<Word>>)
    requires ws != [] && AllCallable(ws) && |replies| == |ws| - 1 && AllTold(frames, rocId, ws[..|ws| - 1], replies)
    requires var w := ws[|ws| - 1];
             if reply != Ok || (w.Connect? && w.cdata == []) then ms == []
             else |ms| == 1 && Tells(ms[0], rocId, w)
    ensures AllTold(frames + ms, rocId, ws, replies + [reply])
  {
    assert (replies + [reply])[..|ws| - 1] == replies;
    if ms == [] {
      assert frames + ms == frames;
    } else {
      assert (frames + ms)[..|frames|] == frames;
    }
  }

  lemma {:induction false} MessagesTell(f: Fifo, schedule: Schedule, rocId: Word, ws: seq<Write>)
    requires f.Valid() && AllCallable(ws) && AllCountable(ws)
    ensures var out := Run(f, schedule, rocId, ws);
            |out.replies| == |ws| && AllTold(out.messages, rocId, ws, out.replies)
    decreases |ws|
  {
    if ws != [] {
      var init, last := ws[..|ws| - 1], ws[|ws| - 1];
      SplitCountable(ws);
      MessagesTell(f, schedule, rocId, init);
      var before := Run(f, schedule, rocId, init);
      WriteTold(before.fifo, schedule, rocId, last);
      var reply := Perform(before.fifo, schedule, rocId, last).0;
      OneMoreTold(before.messages, rocId, ws, before.replies, reply, MessagesOf(rocId, last, reply));
    }
  }

  /** A history whose writes fit is not only cut into the right frames: read by position they tell,
      under every behaviour of the hardware, exactly the accepted writes. */
  lemma FramesTell(f: Fifo, schedule: Schedule, rocId: Word, ws: seq<Write>)
    requires f.Valid() && f.data == [] && f.lens == [] && AllCallable(ws) && HighestLevel(f.level, ws).Some?
    ensures var out := Run(f, schedule, rocId, ws);
            var frames := Cut(out.fifo.data, out.fifo.lens);
            frames.Some? && |out.replies| == |ws| && AllTold(frames.value, rocId, ws, out.replies)
  {
    HistoryFits(f, schedule, rocId, ws);
    FramingIff(f, schedule, rocId, ws);
    MessagesTell(f, schedule, rocId, ws);
  }

  // ---------------------------------------------------------------- what is refused

  /** The second word of a bank: tag, two bits of padding, data type and num. */
  function BankWord(tag: int, pad: int, kind: int, num: int): Word
    requires 0 <= tag < 0x1_0000 && 0 <= pad < 4 && 0 <= kind < 0x40 && 0 <= num < 0x100
  {
    tag * 0x1_0000 + pad * 0x4000 + kind * 0x100 + num
  }

  lemma BankFields(tag: int, pad: int, kind: int, num: int)
    requires 0 <= tag < 0x1_0000 && 0 <= pad < 4 && 0 <= kind < 0x40 && 0 <= num < 0x100
    ensures var w := BankWord(tag, pad, kind, num);
            w / 0x1_0000 == tag && w / 0x100 % 0x40 == kind && w % 0x100 == num
  {
    assert BankWord(tag, pad, kind, num) / 0x100 == tag * 0x100 + pad * 0x40 + kind;
  }

  lemma AdmissibleIff(buf: seq<Word>, tag: int, pad: int, kind: int, num: int)
    requires |buf| >= 2 && 0 <= tag < 0x1_0000 && 0 <= pad < 4 && 0 <= kind < 0x40 && 0 <= num < 0x100
    requires buf[1] == BankWord(tag, pad, kind, num)
    ensures Admissible(buf) <==> !(1048576 <= buf[0] < 0xffff_ffff) && tag < 0xff00
                                 && (kind <= 16 || kind == 32) && num == 0
  {
    BankFields(tag, pad, kind, num);
  }

  lemma AdmissibleGoesIn(f: Fifo, schedule: Schedule, rocId: Word, buf: seq<Word>)
    requires f.Valid() && Readable(buf) && Admissible(buf) && f.level == 0
    ensures WriteUser(f, schedule, rocId, buf).0 != Rejected
  {
    var g := Drain(f, schedule);
    LevelFieldReading(g);
    if UserFrame(buf) > DEPTH {
      LoopDelivers(SendPrefix(g, schedule, rocId, buf), schedule, UserBody(buf));
    }
  }

  /** An empty FIFO refuses a user event for a bank of more than 2^20 words, a reserved tag, a data
      type above 16 other than 32, or a num that is not 0, and for nothing else. */
  lemma RefusedIff(f: Fifo, schedule: Schedule, rocId: Word, buf: seq<Word>, tag: int, pad: int, kind: int, num: int)
    requires f.Valid() && Readable(buf) && 0 <= tag < 0x1_0000 && 0 <= pad < 4 && 0 <= kind < 0x40 && 0 <= num < 0x100
    requires buf[1] == BankWord(tag, pad, kind, num) && f.level == 0
    ensures WriteUser(f, schedule, rocId, buf).0 == Rejected
       <==> 1048576 <= buf[0] < 0xffff_ffff || tag >= 0xff00 || (kind > 16 && kind != 32) || num > 0
  {
    AdmissibleIff(buf, tag, pad, kind, num);
    if Admissible(buf) {
      AdmissibleGoesIn(f, schedule, rocId, buf);
    }
  }

  /** A long event that passes those checks is refused exactly at a full FIFO: of the levels above 500
      that is the only one that reads so. */
  lemma LongRefusedIff(f: Fifo, schedule: Schedule, rocId: Word, buf: seq<Word>)
    requires f.Valid() && Readable(buf) && Admissible(buf) && UserFrame(buf) > 512
    ensures WriteUser(f, schedule, rocId, buf).0 == Rejected <==> Drain(f, schedule).level == 512
  {
    var g := Drain(f, schedule);
    LevelFieldReading(g);
    LoopDelivers(SendPrefix(g, schedule, rocId, buf), schedule, UserBody(buf));
  }
}
