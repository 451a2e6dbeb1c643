/**
 When a write can overrun the 512-word data FIFO.

 `vtpRocEvioWriteUserEvent` admits a long message only below 501 words, sends eleven words
 blind, and then sends as many words as its last level sample leaves room for.  That is safe
 as long as the samples are right.  The driver masks the status with 0x2ff, which reads the
 levels 256 to 511 as 0 to 255, and the second half of this file works out exactly which
 messages are still safe against every behaviour of the hardware.
 */
module FlowControl {
  import opened Bytes
  import opened AsyncFifo
  import opened EvioWriter

  // ---------------------------------------------------------------- samples that read right

  ghost predicate ReadsRight(f: Fifo)
    requires f.Valid()
  {
    LevelField(Status(f)) == f.level
  }

  /** Every level sample of the flow-control loop reads right. */
  ghost predicate LoopSamplesRight(f: Fifo, schedule: Schedule, rest: seq<Word>)
    requires f.Valid() && rest != []
    decreases |rest|
  {
    var a := Drain(f, schedule);
    LevelFieldReading(a);
    FullFlag(Status(a)) ||
    var b := Drain(a, schedule);
    var avail := BurstSize(b, rest);
    && ReadsRight(b)
    && (avail < |rest| ==> LoopSamplesRight(Burst(b, schedule, rest), schedule, rest[avail..]))
  }

  /** The admission sample and every sample after it read right. */
  ghost predicate SamplesRight(f: Fifo, schedule: Schedule, rocId: Word, buf: seq<Word>)
    requires f.Valid() && Readable(buf) && Admissible(buf) && UserFrame(buf) > DEPTH
  {
    var g := Drain(f, schedule);
    && ReadsRight(g)
    && LoopSamplesRight(SendPrefix(g, schedule, rocId, buf), schedule, UserBody(buf))
  }

  lemma {:induction false} LoopNeverOverflows(f: Fifo, schedule: Schedule, rest: seq<Word>)
    requires f.Valid() && rest != [] && LoopSamplesRight(f, schedule, rest)
    ensures SendUnderFlowControl(f, schedule, rest).1.lost == f.lost
    decreases |rest|
  {
    var a := Drain(f, schedule);
    LevelFieldReading(a);
    if !FullFlag(Status(a)) {
      var b := Drain(a, schedule);
      var avail := BurstSize(b, rest);
      if avail < |rest| {
        LoopNeverOverflows(Burst(b, schedule, rest), schedule, rest[avail..]);
      }
    }
  }

  /** Whatever the hardware does between the register accesses, a long message never meets a
      full FIFO when the samples read right. */
  lemma LongMessageNeverOverflows(f: Fifo, schedule: Schedule, rocId: Word, buf: seq<Word>)
    requires f.Valid() && Readable(buf) && Admissible(buf) && UserFrame(buf) > DEPTH
    requires SamplesRight(f, schedule, rocId, buf)
    ensures WriteUser(f, schedule, rocId, buf).1.lost == f.lost
  {
    var g := Drain(f, schedule);
    if g.level <= DEPTH - 12 {
      PushAllEffect(PushLen(g, schedule, UserFrame(buf)), schedule, UserPrefix(buf, rocId));
      LoopNeverOverflows(SendPrefix(g, schedule, rocId, buf), schedule, UserBody(buf));
    }
  }

  // ---------------------------------------------------------------- the samples as coded

  /** No write ever un-loses a word. */
  lemma {:induction false} LoopKeepsLosses(f: Fifo, schedule: Schedule, rest: seq<Word>)
    requires f.Valid() && rest != []
    ensures SendUnderFlowControl(f, schedule, rest).1.Valid()
    ensures SendUnderFlowControl(f, schedule, rest).1.lost >= f.lost
    decreases |rest|
  {
    var a := Drain(f, schedule);
    LevelFieldReading(a);
    if !FullFlag(Status(a)) {
      var b := Drain(a, schedule);
      var avail := BurstSize(b, rest);
      if avail < |rest| {
        LoopKeepsLosses(Burst(b, schedule, rest), schedule, rest[avail..]);
      }
    }
  }

  /** A level of 256 to 511 at a sample, more words left than room, and a consumer that then
      pauses: the burst overruns the FIFO. */
  lemma MisreadBurstOverflows(f: Fifo, schedule: Schedule, rest: seq<Word>)
    requires f.Valid() && 256 <= Drain(f, schedule).level < DEPTH
    requires |rest| > DEPTH - Drain(f, schedule).level
    requires forall t :: f.tick < t < |schedule| ==> schedule[t] == 0
    ensures SendUnderFlowControl(f, schedule, rest).1.lost > f.lost
  {
    var a := Drain(f, schedule);
    LevelFieldReading(a);
    var b := Drain(a, schedule);
    assert b.level == a.level;
    LevelFieldReading(b);
    var avail := BurstSize(b, rest);
    PushAllIdle(b, schedule, rest[..avail]);
    if avail < |rest| {
      LoopKeepsLosses(Burst(b, schedule, rest), schedule, rest[avail..]);
    }
  }

  function Idle(n: nat): Schedule {
    seq(n, _ => 0)
  }

  /** A hardware behaviour that overruns the FIFO, when there is one: pause throughout, except
      for one word taken just before the access at which one free place does the harm. */
  function Spoiler(f: Fifo, frame: nat): Schedule {
    if frame <= DEPTH then []
    else if f.level == 501 || f.level == DEPTH then Idle(f.tick) + [1]
    else if f.level >= 245 then []
    else Idle(f.tick + 516 - f.level) + [1]
  }

  /** Eleven words leave the FIFO at a level the mask misreads, or do not fit. */
  lemma SpoiledAtOnce(f: Fifo, rocId: Word, buf: seq<Word>)
    requires f.Valid() && Readable(buf) && Admissible(buf) && UserFrame(buf) > DEPTH
    requires f.level >= 245
    ensures WriteUser(f, Spoiler(f, UserFrame(buf)), rocId, buf).1.lost > f.lost
  {
    var s := Spoiler(f, UserFrame(buf));
    var g := Drain(f, s);
    LevelFieldReading(g);
    assert g.level == if f.level == 501 || f.level == DEPTH then f.level - 1 else f.level;
    var p := PushLen(g, s, UserFrame(buf));
    PushAllIdle(p, s, UserPrefix(buf, rocId));
    var q := SendPrefix(g, s, rocId, buf);
    if g.level <= 500 {
      MisreadBurstOverflows(q, s, UserBody(buf));
    } else {
      LoopKeepsLosses(q, s, UserBody(buf));
    }
  }

  /** The first burst fills the FIFO exactly; one word drained before the next sample makes it
      read 255. */
  lemma SecondBurstOverflows(q: Fifo, s: Schedule, rest: seq<Word>)
    requires q.level < 256 && |rest| >= 514 - q.level
    requires s == Idle(q.tick + 514 - q.level) + [1]
    ensures SendUnderFlowControl(q, s, rest).1.lost > q.lost
  {
    var a := Drain(q, s);
    LevelFieldReading(a);
    var b := Drain(a, s);
    LevelFieldReading(b);
    var avail := BurstSize(b, rest);
    assert avail == DEPTH - q.level;
    PushAllIdle(b, s, rest[..avail]);
    MisreadBurstOverflows(Burst(b, s, rest), s, rest[avail..]);
  }

  lemma SpoiledAtSecondSample(f: Fifo, rocId: Word, buf: seq<Word>)
    requires f.Valid() && Readable(buf) && Admissible(buf) && UserFrame(buf) > DEPTH
    requires f.level < 245 && !(f.level == 0 && UserFrame(buf) == 513)
    ensures WriteUser(f, Spoiler(f, UserFrame(buf)), rocId, buf).1.lost > f.lost
  {
    var s := Spoiler(f, UserFrame(buf));
    var g := Drain(f, s);
    LevelFieldReading(g);
    PushAllIdle(PushLen(g, s, UserFrame(buf)), s, UserPrefix(buf, rocId));
    SecondBurstOverflows(SendPrefix(g, s, rocId, buf), s, UserBody(buf));
  }

  lemma LastWordAccepted(f: Fifo, schedule: Schedule, rest: seq<Word>)
    requires f.Valid() && |rest| == 1
    ensures SendUnderFlowControl(f, schedule, rest).1.lost == f.lost
  {
    var a := Drain(f, schedule);
    LevelFieldReading(a);
    LevelFieldReading(Drain(a, schedule));
  }

  lemma SecondBurstOfOne(q: Fifo, schedule: Schedule, rest: seq<Word>)
    requires q.level <= 11 && |rest| == 502
    ensures SendUnderFlowControl(q, schedule, rest).1.lost == q.lost
  {
    var a := Drain(q, schedule);
    LevelFieldReading(a);
    var b := Drain(a, schedule);
    LevelFieldReading(b);
    var avail := BurstSize(b, rest);
    if avail < |rest| {
      LastWordAccepted(Burst(b, schedule, rest), schedule, rest[avail..]);
    }
  }

  /** 513 words into an empty FIFO: the second burst is a single word at most. */
  lemma OneWordOver(f: Fifo, schedule: Schedule, rocId: Word, buf: seq<Word>)
    requires f.Valid() && Readable(buf) && Admissible(buf)
    requires f.level == 0 && UserFrame(buf) == 513
    ensures WriteUser(f, schedule, rocId, buf).1.lost == f.lost
  {
    var g := Drain(f, schedule);
    PushAllEffect(PushLen(g, schedule, UserFrame(buf)), schedule, UserPrefix(buf, rocId));
    SecondBurstOfOne(SendPrefix(g, schedule, rocId, buf), schedule, UserBody(buf));
  }

  lemma ShortMessageFits(f: Fifo, schedule: Schedule, rocId: Word, buf: seq<Word>)
    requires f.Valid() && Readable(buf) && Admissible(buf)
    requires f.level + |UserMessage(buf, rocId)| <= DEPTH && UserFrame(buf) <= DEPTH
    ensures WriteUser(f, schedule, rocId, buf).1.lost == f.lost
  {
    var p := PushLen(f, schedule, UserFrame(buf));
    PushAllEffect(p, schedule, UserPrefix(buf, rocId));
    PushAllEffect(SendPrefix(f, schedule, rocId, buf), schedule, UserBody(buf));
  }

  /** The direct path sends whatever it has: too much for the room there is overruns it. */
  lemma ShortMessageSpoiled(f: Fifo, rocId: Word, buf: seq<Word>)
    requires f.Valid() && Readable(buf) && Admissible(buf)
    requires f.level + |UserMessage(buf, rocId)| > DEPTH && UserFrame(buf) <= DEPTH
    ensures WriteUser(f, [], rocId, buf).1.lost > f.lost
  {
    var p := PushLen(f, [], UserFrame(buf));
    PushAllIdle(p, [], UserPrefix(buf, rocId));
    PushAllIdle(SendPrefix(f, [], rocId, buf), [], UserBody(buf));
  }

  /** A user event is safe against every behaviour of the hardware exactly when it fits on top
      of what is in the FIFO, or is 513 words long and finds the FIFO empty. */
  lemma UserEventSafeIff(f: Fifo, rocId: Word, buf: seq<Word>)
    requires f.Valid() && Readable(buf) && Admissible(buf)
    ensures (forall schedule: Schedule :: WriteUser(f, schedule, rocId, buf).1.lost == f.lost)
       <==> (f.level + |UserMessage(buf, rocId)| <= DEPTH
             || (f.level == 0 && |UserMessage(buf, rocId)| == 513))
  {
    var n := |UserMessage(buf, rocId)|;
    if f.level + n <= DEPTH && UserFrame(buf) <= DEPTH {
      forall schedule: Schedule ensures WriteUser(f, schedule, rocId, buf).1.lost == f.lost {
        ShortMessageFits(f, schedule, rocId, buf);
      }
    } else if f.level == 0 && n == 513 {
      forall schedule: Schedule ensures WriteUser(f, schedule, rocId, buf).1.lost == f.lost {
        OneWordOver(f, schedule, rocId, buf);
      }
    } else if UserFrame(buf) <= DEPTH {
      ShortMessageSpoiled(f, rocId, buf);
      var s: Schedule := [];
      assert WriteUser(f, s, rocId, buf).1.lost != f.lost;
    } else {
      if f.level >= 245 {
        SpoiledAtOnce(f, rocId, buf);
      } else {
        SpoiledAtSecondSample(f, rocId, buf);
      }
      var s := Spoiler(f, UserFrame(buf));
      assert WriteUser(f, s, rocId, buf).1.lost != f.lost;
    }
  }

  // ---------------------------------------------------------------- delivery

  /** The write is accepted, runs to its end and loses no word. */
  predicate Delivers(f: Fifo, schedule: Schedule, rocId: Word, buf: seq<Word>)
    requires f.Valid() && Readable(buf)
  {
    var (reply, g) := WriteUser(f, schedule, rocId, buf);
    reply == Ok && g.lost == f.lost
  }

  /** A hardware behaviour under which a user event that does not fit is not delivered: the
      spoiler, or none at all for 513 words into an empty FIFO. */
  function Obstacle(f: Fifo, rocId: Word, buf: seq<Word>): Schedule
    requires Readable(buf) && Admissible(buf)
  {
    if f.level == 0 && UserFrame(buf) == 513 then [] else Spoiler(f, UserFrame(buf))
  }

  /** 513 words into an empty FIFO, and the hardware pauses: 512 fill it, and the next look at the
      status finds it full. */
  lemma AbandonedWhenFull(f: Fifo, rocId: Word, buf: seq<Word>)
    requires f.Valid() && Readable(buf) && Admissible(buf)
    requires f.level == 0 && UserFrame(buf) == 513
    ensures WriteUser(f, [], rocId, buf).0 == FifoFull
  {
    var g := Drain(f, []);
    PushAllIdle(PushLen(g, [], UserFrame(buf)), [], UserPrefix(buf, rocId));
    var q := SendPrefix(g, [], rocId, buf);
    FullAfterBurst(q, UserBody(buf));
  }

  lemma FullAfterBurst(q: Fifo, rest: seq<Word>)
    requires q.level == 11 && |rest| == 502
    ensures SendUnderFlowControl(q, [], rest).0 == FifoFull
  {
    var b := Drain(Drain(q, []), []);
    LevelFieldReading(b);
    PushAllIdle(b, [], rest[..501]);
    var c := Burst(b, [], rest);
    LevelFieldReading(Drain(c, []));
  }

  lemma Undelivered(f: Fifo, rocId: Word, buf: seq<Word>)
    requires f.Valid() && Readable(buf) && Admissible(buf)
    requires f.level + |UserMessage(buf, rocId)| > DEPTH
    ensures var (reply, g) := WriteUser(f, Obstacle(f, rocId, buf), rocId, buf);
            reply == FifoFull || g.lost > f.lost
  {
    if f.level == 0 && UserFrame(buf) == 513 {
      AbandonedWhenFull(f, rocId, buf);
    } else if UserFrame(buf) <= DEPTH {
      ShortMessageSpoiled(f, rocId, buf);
    } else if f.level >= 245 {
      SpoiledAtOnce(f, rocId, buf);
    } else {
      SpoiledAtSecondSample(f, rocId, buf);
    }
  }

  /** A user event is delivered whole under every behaviour of the hardware exactly when it fits on
      top of what is in the FIFO. */
  lemma UserEventDeliveredIff(f: Fifo, rocId: Word, buf: seq<Word>)
    requires f.Valid() && Readable(buf) && Admissible(buf)
    ensures (forall schedule: Schedule :: Delivers(f, schedule, rocId, buf))
       <==> f.level + |UserMessage(buf, rocId)| <= DEPTH
  {
    if f.level + |UserMessage(buf, rocId)| <= DEPTH {
      forall schedule: Schedule ensures Delivers(f, schedule, rocId, buf) {
        ShortMessageFits(f, schedule, rocId, buf);
      }
    } else {
      Undelivered(f, rocId, buf);
      assert !Delivers(f, Obstacle(f, rocId, buf), rocId, buf);
    }
  }

  /** Control events never overrun the FIFO, and are accepted at the two levels that read 0. */
  lemma ControlEventSafe(f: Fifo, schedule: Schedule, rocId: Word, kind: Word, val0: Word, val1: Word)
    requires f.Valid()
    ensures var (reply, g) := WriteRocControl(f, schedule, rocId, kind, val0, val1);
            && g.lost == f.lost
            && (reply == Ok <==> Drain(f, schedule).level == 0 || Drain(f, schedule).level == 256)
  {
    var g := Drain(f, schedule);
    LevelFieldReading(g);
    PushAllEffect(g, schedule, ControlMessage(false, rocId, kind, val0, val1));
  }
}
