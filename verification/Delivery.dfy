/**
 Which sequences of writes are delivered whatever the hardware does.  The condition is worked out
 before the first write, from the level found in the FIFO and the sizes of the messages.
 */
module Delivery {
  import opened Options
  import opened Bytes
  import opened AsyncFifo
  import opened EvioWriter
  import opened FlowControl
  import opened Framing

  // ---------------------------------------------------------------- the condition

  /** The words a write other than a ROC control event puts into the FIFO. */
  function Size(w: Write): nat
    requires w.Callable()
  {
    match w
    case RocControl(_, _, _) => 15
    case StreamingControl(udp, _, _, _) => if udp then 13 else 15
    case User(buf) => if Admissible(buf) then UserFrame(buf) else 0
    case Connect(cdata) => |cdata|
  }

  /** The highest level after a write that finds at most `level` words, or None if it might not fit.
      A ROC control event goes in only when the level reads 0, that is at 0 or 256, and the hardware
      may bring any higher level down to those. */
  function NextLevel(level: nat, w: Write): Option<nat>
    requires w.Callable()
  {
    if w.RocControl? then
      Some(if level <= 15 then 15 else if 256 <= level <= 271 then 271 else level)
    else if w.Countable() && level + Size(w) <= DEPTH then Some(level + Size(w))
    else None
  }

  function HighestLevel(level: nat, ws: seq<Write>): Option<nat>
    requires AllCallable(ws)
    decreases |ws|
  {
    if ws == [] then Some(level)
    else
      match HighestLevel(level, ws[..|ws| - 1])
      case None => None
      case Some(before) => NextLevel(before, ws[|ws| - 1])
  }

  // ---------------------------------------------------------------- what fits is delivered

  lemma FrameFits(f: Fifo, schedule: Schedule, m: seq<Word>)
    requires f.Valid() && f.level + |m| <= DEPTH
    ensures var g := WriteFrame(f, schedule, m);
            g.lost == f.lost && g.level <= f.level + |m| && g.tick == f.tick + |m| + 1
  {
    PushAllEffect(f, schedule, m);
  }

  lemma UserFits(f: Fifo, schedule: Schedule, rocId: Word, buf: seq<Word>)
    requires f.Valid() && Readable(buf) && Admissible(buf) && buf[0] != 0xffff_ffff
    requires f.level + UserFrame(buf) <= DEPTH
    ensures var (reply, g) := WriteUser(f, schedule, rocId, buf);
            && reply == Ok && g.lost == f.lost
            && g.level <= f.level + UserFrame(buf) && g.tick == f.tick + UserFrame(buf) + 1
  {
    UserFrameIff(rocId, buf);
    PushAllEffect(PushLen(f, schedule, UserFrame(buf)), schedule, UserPrefix(buf, rocId));
    PushAllEffect(SendPrefix(f, schedule, rocId, buf), schedule, UserBody(buf));
  }

  /** A write that fits goes through, and leaves at most the level foreseen. */
  lemma WriteFits(f: Fifo, schedule: Schedule, rocId: Word, w: Write, level: nat)
    requires f.Valid() && f.level <= level <= DEPTH && w.Callable() && NextLevel(level, w).Some?
    ensures var (reply, g) := Perform(f, schedule, rocId, w);
            && reply != FifoFull && g.lost == f.lost && f.tick <= g.tick
            && g.level <= NextLevel(level, w).value <= DEPTH
  {
    match w
    case RocControl(kind, val0, val1) =>
      var g := Drain(f, schedule);
      LevelFieldReading(g);
      if LevelField(Status(g)) == 0 {
        FrameFits(g, schedule, ControlMessage(false, rocId, kind, val0, val1));
      }
    case StreamingControl(udp, kind, val0, val1) =>
      FrameFits(f, schedule, ControlMessage(udp, rocId, kind, val0, val1));
    case User(buf) =>
      if Admissible(buf) {
        UserFits(f, schedule, rocId, buf);
      }
    case Connect(cdata) =>
      FrameFits(f, schedule, cdata);
  }

  lemma {:induction false} HistoryFits(f: Fifo, schedule: Schedule, rocId: Word, ws: seq<Write>)
    requires f.Valid() && AllCallable(ws) && HighestLevel(f.level, ws).Some?
    ensures var out := Run(f, schedule, rocId, ws);
            && FifoFull !in out.replies && out.fifo.lost == f.lost && AllCountable(ws)
            && f.tick <= out.fifo.tick && out.fifo.level <= HighestLevel(f.level, ws).value <= DEPTH
    decreases |ws|
  {
    if ws != [] {
      var init, last := ws[..|ws| - 1], ws[|ws| - 1];
      HistoryFits(f, schedule, rocId, init);
      var before := Run(f, schedule, rocId, init);
      WriteFits(before.fifo, schedule, rocId, last, HighestLevel(f.level, init).value);
      SplitCountable(ws);
    }
  }

  // ---------------------------------------------------------------- only the accesses made matter

  function At(s: Schedule, t: nat): nat {
    if t < |s| then s[t] else 0
  }

  ghost predicate Agree(s: Schedule, s': Schedule, lo: nat, hi: nat) {
    forall t :: lo <= t < hi ==> At(s, t) == At(s', t)
  }

  ghost predicate AgreeFrom(s: Schedule, s': Schedule, lo: nat) {
    forall t :: lo <= t ==> At(s, t) == At(s', t)
  }

  lemma DrainLocal(f: Fifo, s: Schedule, s': Schedule)
    requires At(s, f.tick) == At(s', f.tick)
    ensures Drain(f, s) == Drain(f, s')
  {
  }

  lemma {:induction false} PushAllLocal(f: Fifo, s: Schedule, s': Schedule, ws: seq<Word>)
    requires Agree(s, s', f.tick, f.tick + |ws|)
    ensures PushAll(f, s, ws) == PushAll(f, s', ws) && PushAll(f, s, ws).tick == f.tick + |ws|
    decreases |ws|
  {
    if ws != [] {
      PushAllLocal(f, s, s', ws[..|ws| - 1]);
      DrainLocal(PushAll(f, s, ws[..|ws| - 1]), s, s');
    }
  }

  lemma FrameLocal(f: Fifo, s: Schedule, s': Schedule, m: seq<Word>)
    requires Agree(s, s', f.tick, f.tick + |m| + 1) && |m| < 0x1_0000_0000
    ensures WriteFrame(f, s, m) == WriteFrame(f, s', m)
  {
    PushAllLocal(f, s, s', m);
    DrainLocal(PushAll(f, s, m), s, s');
  }

  lemma PrefixLocal(f: Fifo, s: Schedule, s': Schedule, rocId: Word, buf: seq<Word>)
    requires f.Valid() && Readable(buf) && Admissible(buf) && Agree(s, s', f.tick, f.tick + 12)
    ensures SendPrefix(f, s, rocId, buf) == SendPrefix(f, s', rocId, buf)
    ensures SendPrefix(f, s, rocId, buf).tick == f.tick + 12
  {
    DrainLocal(f, s, s');
    PushAllLocal(PushLen(f, s, UserFrame(buf)), s, s', UserPrefix(buf, rocId));
  }

  lemma {:induction false} LoopLocal(f: Fifo, s: Schedule, s': Schedule, rest: seq<Word>)
    requires f.Valid() && rest != [] && AgreeFrom(s, s', f.tick)
    ensures SendUnderFlowControl(f, s, rest) == SendUnderFlowControl(f, s', rest)
    decreases |rest|
  {
    var a := Drain(f, s);
    DrainLocal(f, s, s');
    LevelFieldReading(a);
    if !FullFlag(Status(a)) {
      var b := Drain(a, s);
      DrainLocal(a, s, s');
      var avail := BurstSize(b, rest);
      PushAllLocal(b, s, s', rest[..avail]);
      if avail < |rest| {
        LoopLocal(Burst(b, s, rest), s, s', rest[avail..]);
      }
    }
  }

  lemma LongUserFrom(f: Fifo, s: Schedule, s': Schedule, rocId: Word, buf: seq<Word>)
    requires f.Valid() && Readable(buf) && Admissible(buf) && UserFrame(buf) > DEPTH && AgreeFrom(s, s', f.tick)
    ensures WriteUser(f, s, rocId, buf) == WriteUser(f, s', rocId, buf)
  {
    var g := Drain(f, s);
    DrainLocal(f, s, s');
    PrefixLocal(g, s, s', rocId, buf);
    LoopLocal(SendPrefix(g, s, rocId, buf), s, s', UserBody(buf));
  }

  lemma ShortUserFrom(f: Fifo, s: Schedule, s': Schedule, rocId: Word, buf: seq<Word>)
    requires f.Valid() && Readable(buf) && Admissible(buf) && UserFrame(buf) <= DEPTH && AgreeFrom(s, s', f.tick)
    ensures WriteUser(f, s, rocId, buf) == WriteUser(f, s', rocId, buf)
  {
    PrefixLocal(f, s, s', rocId, buf);
    PushAllLocal(SendPrefix(f, s, rocId, buf), s, s', UserBody(buf));
  }

  /** A write depends only on the schedule from its first access on. */
  lemma WriteFrom(f: Fifo, s: Schedule, s': Schedule, rocId: Word, w: Write)
    requires f.Valid() && w.Callable() && AgreeFrom(s, s', f.tick)
    ensures Perform(f, s, rocId, w) == Perform(f, s', rocId, w)
  {
    match w
    case RocControl(kind, val0, val1) =>
      DrainLocal(f, s, s');
      FrameLocal(Drain(f, s), s, s', ControlMessage(false, rocId, kind, val0, val1));
    case StreamingControl(udp, kind, val0, val1) =>
      FrameLocal(f, s, s', ControlMessage(udp, rocId, kind, val0, val1));
    case User(buf) =>
      if Admissible(buf) {
        if UserFrame(buf) > DEPTH {
          LongUserFrom(f, s, s', rocId, buf);
        } else {
          ShortUserFrom(f, s, s', rocId, buf);
        }
      }
    case Connect(cdata) =>
      FrameLocal(f, s, s', cdata);
  }

  lemma UserWithin(f: Fifo, s: Schedule, s': Schedule, rocId: Word, buf: seq<Word>)
    requires f.Valid() && Readable(buf) && Admissible(buf) && buf[0] != 0xffff_ffff
    requires f.level + UserFrame(buf) <= DEPTH && Agree(s, s', f.tick, f.tick + UserFrame(buf) + 1)
    ensures WriteUser(f, s, rocId, buf) == WriteUser(f, s', rocId, buf)
  {
    UserFrameIff(rocId, buf);
    PrefixLocal(f, s, s', rocId, buf);
    PushAllLocal(SendPrefix(f, s, rocId, buf), s, s', UserBody(buf));
  }

  /** A write that fits depends only on the schedule up to its last access. */
  lemma WriteWithin(f: Fifo, s: Schedule, s': Schedule, rocId: Word, w: Write, level: nat)
    requires f.Valid() && f.level <= level <= DEPTH && w.Callable() && NextLevel(level, w).Some?
    requires Agree(s, s', f.tick, Perform(f, s, rocId, w).1.tick)
    ensures Perform(f, s, rocId, w) == Perform(f, s', rocId, w)
  {
    match w
    case RocControl(kind, val0, val1) =>
      var g := Drain(f, s);
      LevelFieldReading(g);
      if LevelField(Status(g)) == 0 {
        FrameFits(g, s, ControlMessage(false, rocId, kind, val0, val1));
        DrainLocal(f, s, s');
        FrameLocal(g, s, s', ControlMessage(false, rocId, kind, val0, val1));
      } else {
        DrainLocal(f, s, s');
      }
    case StreamingControl(udp, kind, val0, val1) =>
      FrameFits(f, s, ControlMessage(udp, rocId, kind, val0, val1));
      FrameLocal(f, s, s', ControlMessage(udp, rocId, kind, val0, val1));
    case User(buf) =>
      if Admissible(buf) {
        UserFits(f, s, rocId, buf);
        UserWithin(f, s, s', rocId, buf);
      }
    case Connect(cdata) =>
      if cdata != [] {
        FrameFits(f, s, cdata);
        FrameLocal(f, s, s', cdata);
      }
  }

  lemma {:induction false} HistoryWithin(f: Fifo, s: Schedule, s': Schedule, rocId: Word, ws: seq<Write>)
    requires f.Valid() && AllCallable(ws) && HighestLevel(f.level, ws).Some?
    requires Agree(s, s', 0, Run(f, s, rocId, ws).fifo.tick)
    ensures Run(f, s, rocId, ws) == Run(f, s', rocId, ws)
    decreases |ws|
  {
    if ws != [] {
      var init, last := ws[..|ws| - 1], ws[|ws| - 1];
      var before := Run(f, s, rocId, init);
      HistoryFits(f, s, rocId, init);
      var level := HighestLevel(f.level, init).value;
      WriteFits(before.fifo, s, rocId, last, level);
      HistoryWithin(f, s, s', rocId, init);
      WriteWithin(before.fifo, s, s', rocId, last, level);
    }
  }

  // ---------------------------------------------------------------- what might not fit can go wrong

  /** `s` before access `tick`, `s'` from then on. */
  function Spliced(s: Schedule, tick: nat, s': Schedule): Schedule {
    seq(if |s'| > tick then |s'| else tick, t requires 0 <= t => if t < tick then At(s, t) else At(s', t))
  }

  lemma SplicedAgrees(s: Schedule, tick: nat, s': Schedule)
    ensures Agree(s, Spliced(s, tick, s'), 0, tick) && AgreeFrom(s', Spliced(s, tick, s'), tick)
  {
  }

  /** The hardware behaviour under which a write that fits leaves the highest level: pause, except to
      let a ROC control event in. */
  function Filler(f: Fifo, w: Write): Schedule {
    if w.RocControl? && f.level <= 15 then Idle(f.tick) + [f.level]
    else if w.RocControl? && 256 <= f.level <= 271 then Idle(f.tick) + [f.level - 256]
    else []
  }

  lemma IdleFrame(f: Fifo, s: Schedule, m: seq<Word>)
    requires f.Valid() && f.level + |m| <= DEPTH && forall t :: f.tick <= t ==> At(s, t) == 0
    ensures WriteFrame(f, s, m).level == f.level + |m|
  {
    forall t | f.tick <= t < f.tick + |m| && t < |s| ensures s[t] == 0 {
      assert At(s, t) == 0;
    }
    PushAllIdle(f, s, m);
    assert At(s, f.tick + |m|) == 0;
  }

  lemma IdleUser(f: Fifo, rocId: Word, buf: seq<Word>)
    requires f.Valid() && Readable(buf) && Admissible(buf) && buf[0] != 0xffff_ffff
    requires f.level + UserFrame(buf) <= DEPTH
    ensures WriteUser(f, [], rocId, buf).1.level == f.level + UserFrame(buf)
  {
    UserFrameIff(rocId, buf);
    PushAllIdle(PushLen(f, [], UserFrame(buf)), [], UserPrefix(buf, rocId));
    PushAllIdle(SendPrefix(f, [], rocId, buf), [], UserBody(buf));
  }

  lemma FillerFills(f: Fifo, rocId: Word, w: Write)
    requires f.Valid() && w.Callable() && NextLevel(f.level, w).Some?
    ensures Perform(f, Filler(f, w), rocId, w).1.level == NextLevel(f.level, w).value
  {
    var s := Filler(f, w);
    match w
    case RocControl(kind, val0, val1) =>
      var g := Drain(f, s);
      LevelFieldReading(g);
      if LevelField(Status(g)) == 0 {
        IdleFrame(g, s, ControlMessage(false, rocId, kind, val0, val1));
      }
    case StreamingControl(udp, kind, val0, val1) =>
      IdleFrame(f, s, ControlMessage(udp, rocId, kind, val0, val1));
    case User(buf) =>
      if Admissible(buf) {
        IdleUser(f, rocId, buf);
      }
    case Connect(cdata) =>
      IdleFrame(f, s, cdata);
  }

  /** The hardware behaviour that fills the FIFO most over a history that fits. */
  function Filling(f: Fifo, rocId: Word, ws: seq<Write>): Schedule
    requires f.Valid() && AllCallable(ws)
    decreases |ws|
  {
    if ws == [] then []
    else
      var s := Filling(f, rocId, ws[..|ws| - 1]);
      var g := Run(f, s, rocId, ws[..|ws| - 1]).fifo;
      Spliced(s, g.tick, Filler(g, ws[|ws| - 1]))
  }

  lemma {:induction false} FillingFills(f: Fifo, rocId: Word, ws: seq<Write>)
    requires f.Valid() && AllCallable(ws) && HighestLevel(f.level, ws).Some?
    ensures Run(f, Filling(f, rocId, ws), rocId, ws).fifo.level == HighestLevel(f.level, ws).value
    decreases |ws|
  {
    if ws != [] {
      var init, last := ws[..|ws| - 1], ws[|ws| - 1];
      FillingFills(f, rocId, init);
      var s := Filling(f, rocId, init);
      var g := Run(f, s, rocId, init).fifo;
      HistoryFits(f, s, rocId, init);
      var t := Spliced(s, g.tick, Filler(g, last));
      SplicedAgrees(s, g.tick, Filler(g, last));
      HistoryWithin(f, s, t, rocId, init);
      WriteFrom(g, Filler(g, last), t, rocId, last);
      FillerFills(g, rocId, last);
    }
  }

  /** The behaviour under which a write that does not fit loses a word or is abandoned. */
  function Upset(f: Fifo, rocId: Word, w: Write): Schedule
    requires w.Callable()
  {
    if w.User? && Admissible(w.buf) then Obstacle(f, rocId, w.buf) else []
  }

  lemma FrameOverflows(f: Fifo, m: seq<Word>)
    requires f.Valid() && f.level + |m| > DEPTH && |m| < 0x1_0000_0000
    ensures WriteFrame(f, [], m).lost > f.lost
  {
    PushAllIdle(f, [], m);
  }

  lemma UpsetUpsets(f: Fifo, rocId: Word, w: Write)
    requires f.Valid() && w.Callable() && w.Countable() && NextLevel(f.level, w).None?
    ensures var (reply, g) := Perform(f, Upset(f, rocId, w), rocId, w);
            reply == FifoFull || g.lost > f.lost
  {
    match w
    case StreamingControl(udp, kind, val0, val1) => FrameOverflows(f, ControlMessage(udp, rocId, kind, val0, val1));
    case User(buf) =>
      UserFrameIff(rocId, buf);
      Undelivered(f, rocId, buf);
    case Connect(cdata) => FrameOverflows(f, cdata);
  }

  /** Something is lost or given up for good. */
  ghost predicate Spoiled(f: Fifo, out: Outcome) {
    out.fifo.lost > f.lost || FifoFull in out.replies
  }

  lemma SpoiledStays(f: Fifo, s: Schedule, rocId: Word, ws: seq<Write>)
    requires f.Valid() && AllCallable(ws) && ws != [] && Spoiled(f, Run(f, s, rocId, ws[..|ws| - 1]))
    ensures Spoiled(f, Run(f, s, rocId, ws))
  {
    PerformLens(Run(f, s, rocId, ws[..|ws| - 1]).fifo, s, rocId, ws[|ws| - 1]);
  }

  /** The behaviour that fills the FIFO up to the first write that might not fit, and upsets that. */
  function Breaking(f: Fifo, rocId: Word, ws: seq<Write>): Schedule
    requires f.Valid() && AllCallable(ws)
    decreases |ws|
  {
    if ws == [] then []
    else
      var init := ws[..|ws| - 1];
      if HighestLevel(f.level, init).None? then Breaking(f, rocId, init)
      else
        var s := Filling(f, rocId, init);
        var g := Run(f, s, rocId, init).fifo;
        Spliced(s, g.tick, Upset(g, rocId, ws[|ws| - 1]))
  }

  lemma {:induction false} BreakingBreaks(f: Fifo, rocId: Word, ws: seq<Write>)
    requires f.Valid() && AllCallable(ws) && AllCountable(ws) && HighestLevel(f.level, ws).None?
    ensures Spoiled(f, Run(f, Breaking(f, rocId, ws), rocId, ws))
    decreases |ws|
  {
    var init, last := ws[..|ws| - 1], ws[|ws| - 1];
    SplitCountable(ws);
    if HighestLevel(f.level, init).None? {
      BreakingBreaks(f, rocId, init);
      SpoiledStays(f, Breaking(f, rocId, init), rocId, ws);
    } else {
      var s := Filling(f, rocId, init);
      var g := Run(f, s, rocId, init).fifo;
      var t := Spliced(s, g.tick, Upset(g, rocId, last));
      FillingFills(f, rocId, init);
      HistoryFits(f, s, rocId, init);
      SplicedAgrees(s, g.tick, Upset(g, rocId, last));
      HistoryWithin(f, s, t, rocId, init);
      WriteFrom(g, Upset(g, rocId, last), t, rocId, last);
      UpsetUpsets(g, rocId, last);
    }
  }

  // ---------------------------------------------------------------- the result

  /** The receiver cuts exactly the accepted messages, in order, out of the data. */
  predicate Framed(f: Fifo, schedule: Schedule, rocId: Word, ws: seq<Write>)
    requires f.Valid() && AllCallable(ws)
  {
    var out := Run(f, schedule, rocId, ws);
    Cut(out.fifo.data, out.fifo.lens) == Some(out.messages)
  }

  /** A sequence of writes is framed right under every behaviour of the hardware if and only if each
      write fits on top of the highest level those before it can leave. */
  lemma FramedAlwaysIff(f: Fifo, rocId: Word, ws: seq<Write>)
    requires f.Valid() && f.data == [] && f.lens == [] && AllCallable(ws)
    ensures (forall schedule: Schedule :: Framed(f, schedule, rocId, ws)) <==> HighestLevel(f.level, ws).Some?
  {
    if HighestLevel(f.level, ws).Some? {
      forall schedule: Schedule ensures Framed(f, schedule, rocId, ws) {
        HistoryFits(f, schedule, rocId, ws);
        FramingIff(f, schedule, rocId, ws);
      }
    } else {
      var s := Breaking(f, rocId, ws);
      FramingIff(f, s, rocId, ws);
      if AllCountable(ws) {
        BreakingBreaks(f, rocId, ws);
      }
      assert !Framed(f, s, rocId, ws);
    }
  }

  function TotalSize(ws: seq<Write>): nat
    requires AllCallable(ws)
    decreases |ws|
  {
    if ws == [] then 0 else TotalSize(ws[..|ws| - 1]) + Size(ws[|ws| - 1])
  }

  /** Without ROC control events that is just the level and the sizes of the messages together. */
  lemma {:induction false} HighestIsTotal(level: nat, ws: seq<Write>)
    requires level <= DEPTH && AllCallable(ws) && forall i :: 0 <= i < |ws| ==> !ws[i].RocControl?
    ensures HighestLevel(level, ws)
         == if AllCountable(ws) && level + TotalSize(ws) <= DEPTH then Some(level + TotalSize(ws)) else None
    decreases |ws|
  {
    if ws != [] {
      HighestIsTotal(level, ws[..|ws| - 1]);
      SplitCountable(ws);
    }
  }
}
