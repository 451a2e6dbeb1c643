/**
 The receiving end cuts the word stream by the lengths in the length FIFO.  Over any sequence
 of writes that is exactly right as long as nothing was lost, and only then.
 */
module Framing {
  import opened Options
  import opened Bytes
  import opened AsyncFifo
  import opened EvioWriter
  import opened FlowControl

  datatype Write =
    | RocControl(kind: Word, val0: Word, val1: Word)
    | StreamingControl(udp: bool, kind: Word, val0: Word, val1: Word)
    | User(buf: seq<Word>)
    | Connect(cdata: seq<Word>)
  {
    predicate Callable() {
      match this
      case User(buf) => Readable(buf)
      case Connect(cdata) => |cdata| < 0x1_0000_0000
      case _ => true
    }

    /** The length word of a user event does not wrap when one is added to it. */
    predicate Countable()
      requires Callable()
    {
      User? && Admissible(buf) ==> buf[0] != 0xffff_ffff
    }
  }

  function Perform(f: Fifo, schedule: Schedule, rocId: Word, w: Write): (Reply, Fifo)
    requires f.Valid() && w.Callable()
  {
    match w
    case RocControl(kind, val0, val1) => WriteRocControl(f, schedule, rocId, kind, val0, val1)
    case StreamingControl(udp, kind, val0, val1) =>
      (Ok, WriteFrame(f, schedule, ControlMessage(udp, rocId, kind, val0, val1)))
    case User(buf) => WriteUser(f, schedule, rocId, buf)
    case Connect(cdata) => (Ok, if cdata == [] then f else WriteFrame(f, schedule, cdata))
  }

  /** The messages an accepted write stands for: one, or none for empty connection data. */
  function MessagesOf(rocId: Word, w: Write, reply: Reply): (ms: seq<seq<Word>>)
    requires w.Callable()
  {
    if reply != Ok then []
    else
      match w
      case RocControl(kind, val0, val1) => [ControlMessage(false, rocId, kind, val0, val1)]
      case StreamingControl(udp, kind, val0, val1) => [ControlMessage(udp, rocId, kind, val0, val1)]
      case User(buf) => if Admissible(buf) then [UserMessage(buf, rocId)] else []
      case Connect(cdata) => if cdata == [] then [] else [cdata]
  }

  // ---------------------------------------------------------------- histories

  datatype Outcome = Outcome(fifo: Fifo, replies: seq<Reply>, messages: seq<seq<Word>>)

  predicate AllCallable(ws: seq<Write>) {
    forall i :: 0 <= i < |ws| ==> ws[i].Callable()
  }

  predicate AllCountable(ws: seq<Write>)
    requires AllCallable(ws)
  {
    forall i :: 0 <= i < |ws| ==> ws[i].Countable()
  }

  function Run(f: Fifo, schedule: Schedule, rocId: Word, ws: seq<Write>): (out: Outcome)
    requires f.Valid() && AllCallable(ws)
    ensures out.fifo.Valid()
    decreases |ws|
  {
    if ws == [] then Outcome(f, [], [])
    else
      var before := Run(f, schedule, rocId, ws[..|ws| - 1]);
      var (reply, g) := Perform(before.fifo, schedule, rocId, ws[|ws| - 1]);
      PerformLens(before.fifo, schedule, rocId, ws[|ws| - 1]);
      Outcome(g, before.replies + [reply], before.messages + MessagesOf(rocId, ws[|ws| - 1], reply))
  }

  /** Cutting a word stream into frames of the given lengths, with nothing left over. */
  function Cut(data: seq<Word>, lens: seq<Word>): Option<seq<seq<Word>>>
    decreases |lens|
  {
    if lens == [] then if data == [] then Some([]) else None
    else
      var last := lens[|lens| - 1];
      if last > |data| then None
      else
        match Cut(data[..|data| - last], lens[..|lens| - 1])
        case None => None
        case Some(frames) => Some(frames + [data[|data| - last..]])
  }

  function Sum(lens: seq<Word>): nat
    decreases |lens|
  {
    if lens == [] then 0 else Sum(lens[..|lens| - 1]) + lens[|lens| - 1]
  }

  /** Words promised to the length FIFO and not delivered to the data FIFO. */
  function Owed(f: Fifo): int {
    Sum(f.lens) - |f.data|
  }

  lemma SumAppend(lens: seq<Word>, n: Word)
    ensures Sum(lens + [n]) == Sum(lens) + n
  {
    assert (lens + [n])[..|lens|] == lens;
  }

  lemma CutAppend(data: seq<Word>, lens: seq<Word>, frames: seq<seq<Word>>, m: seq<Word>)
    requires |m| < 0x1_0000_0000 && Cut(data, lens) == Some(frames)
    ensures Cut(data + m, lens + [|m|]) == Some(frames + [m])
  {
    assert (lens + [|m|])[..|lens|] == lens;
    assert (data + m)[..|data|] == data && (data + m)[|data|..] == m;
  }

  /** What can be cut was delivered in full. */
  lemma {:induction false} CutMeasures(data: seq<Word>, lens: seq<Word>)
    requires Cut(data, lens).Some?
    ensures Sum(lens) == |data|
    decreases |lens|
  {
    if lens != [] {
      CutMeasures(data[..|data| - lens[|lens| - 1]], lens[..|lens| - 1]);
    }
  }

  // ---------------------------------------------------------------- one write

  lemma BurstDelivers(b: Fifo, schedule: Schedule, rest: seq<Word>)
    requires b.Valid()
    ensures var c, n := Burst(b, schedule, rest), BurstSize(b, rest);
            && c.lens == b.lens && |c.data| + c.lost == |b.data| + b.lost + n
            && (c.lost == b.lost ==> c.data + rest[n..] == b.data + rest)
  {
    var n := BurstSize(b, rest);
    PushAllEffect(b, schedule, rest[..n]);
    assert (b.data + rest[..n]) + rest[n..] == b.data + rest;
  }

  lemma {:induction false} LoopDelivers(f: Fifo, schedule: Schedule, rest: seq<Word>)
    requires f.Valid() && rest != []
    ensures var (reply, g) := SendUnderFlowControl(f, schedule, rest);
            && reply != Rejected && g.lens == f.lens && f.lost <= g.lost && g.Valid()
            && (reply == Ok ==> |g.data| + g.lost == |f.data| + f.lost + |rest|)
            && (reply == Ok && g.lost == f.lost ==> g.data == f.data + rest)
            && (reply == FifoFull ==> |g.data| + g.lost < |f.data| + f.lost + |rest|)
    decreases |rest|
  {
    var a := Drain(f, schedule);
    LevelFieldReading(a);
    if !FullFlag(Status(a)) {
      var b := Drain(a, schedule);
      var avail := BurstSize(b, rest);
      BurstDelivers(b, schedule, rest);
      if avail < |rest| {
        LoopDelivers(Burst(b, schedule, rest), schedule, rest[avail..]);
      }
    }
  }

  /** A write that lost nothing and was not abandoned. */
  predicate Clean(f: Fifo, reply: Reply, g: Fifo) {
    reply != FifoFull && g.lost == f.lost
  }

  /** A step keeps the books: a clean write adds its messages and their lengths, and any other
      leaves the reader short of words. */
  ghost predicate KeepsBooks(f: Fifo, reply: Reply, g: Fifo, ms: seq<seq<Word>>) {
    && g.Valid() && f.lost <= g.lost && Owed(f) <= Owed(g)
    && (Clean(f, reply, g) ==>
          (ms == [] && g.data == f.data && g.lens == f.lens)
          || (|ms| == 1 && |ms[0]| < 0x1_0000_0000
              && g.data == f.data + ms[0] && g.lens == f.lens + [|ms[0]|]))
    && (!Clean(f, reply, g) ==> Owed(f) < Owed(g))
  }

  lemma FrameKeepsBooks(f: Fifo, schedule: Schedule, m: seq<Word>)
    requires f.Valid() && |m| < 0x1_0000_0000
    ensures KeepsBooks(f, Ok, WriteFrame(f, schedule, m), [m])
  {
    PushAllEffect(f, schedule, m);
    SumAppend(f.lens, |m|);
  }

  /** The books after the length and the first eleven words. */
  lemma PrefixDelivers(f: Fifo, schedule: Schedule, rocId: Word, buf: seq<Word>)
    requires f.Valid() && Readable(buf) && Admissible(buf) && buf[0] != 0xffff_ffff
    ensures var q := SendPrefix(f, schedule, rocId, buf);
            && q.lens == f.lens + [UserFrame(buf)] && Sum(q.lens) == Sum(f.lens) + UserFrame(buf)
            && f.lost <= q.lost && |q.data| + q.lost == |f.data| + f.lost + 11
            && (q.lost == f.lost ==> q.data == f.data + UserPrefix(buf, rocId))
  {
    SumAppend(f.lens, UserFrame(buf));
    PushAllEffect(PushLen(f, schedule, UserFrame(buf)), schedule, UserPrefix(buf, rocId));
  }

  /** The books after the rest of the message, or after giving up on it. */
  lemma BodyKeepsBooks(f: Fifo, q: Fifo, reply: Reply, g: Fifo, prefix: seq<Word>, rest: seq<Word>)
    requires |prefix + rest| < 0x1_0000_0000
    requires q.lens == f.lens + [|prefix + rest|] && Sum(q.lens) == Sum(f.lens) + |prefix + rest|
    requires f.lost <= q.lost && |q.data| + q.lost == |f.data| + f.lost + |prefix|
    requires q.lost == f.lost ==> q.data == f.data + prefix
    requires reply != Rejected && g.lens == q.lens && q.lost <= g.lost && g.Valid()
    requires reply == Ok ==> |g.data| + g.lost == |q.data| + q.lost + |rest|
    requires reply == Ok && g.lost == q.lost ==> g.data == q.data + rest
    requires reply == FifoFull ==> |g.data| + g.lost < |q.data| + q.lost + |rest|
    ensures KeepsBooks(f, reply, g, if reply == Ok then [prefix + rest] else [])
  {
    assert (f.data + prefix) + rest == f.data + (prefix + rest);
  }

  lemma LoopKeepsBooks(f: Fifo, q: Fifo, schedule: Schedule, prefix: seq<Word>, rest: seq<Word>)
    requires q.Valid() && rest != [] && |prefix + rest| < 0x1_0000_0000
    requires q.lens == f.lens + [|prefix + rest|] && Sum(q.lens) == Sum(f.lens) + |prefix + rest|
    requires f.lost <= q.lost && |q.data| + q.lost == |f.data| + f.lost + |prefix|
    requires q.lost == f.lost ==> q.data == f.data + prefix
    ensures var (reply, g) := SendUnderFlowControl(q, schedule, rest);
            KeepsBooks(f, reply, g, if reply == Ok then [prefix + rest] else [])
  {
    LoopDelivers(q, schedule, rest);
    var (reply, g) := SendUnderFlowControl(q, schedule, rest);
    BodyKeepsBooks(f, q, reply, g, prefix, rest);
  }

  lemma LongUserKeepsBooks(f: Fifo, schedule: Schedule, rocId: Word, buf: seq<Word>)
    requires f.Valid() && Readable(buf) && Admissible(buf) && UserFrame(buf) > DEPTH
    ensures var (reply, g) := SendUnderFlowControl(SendPrefix(f, schedule, rocId, buf), schedule, UserBody(buf));
            KeepsBooks(f, reply, g, if reply == Ok then [UserMessage(buf, rocId)] else [])
  {
    PrefixDelivers(f, schedule, rocId, buf);
    LoopKeepsBooks(f, SendPrefix(f, schedule, rocId, buf), schedule, UserPrefix(buf, rocId), UserBody(buf));
  }

  lemma ShortUserKeepsBooks(f: Fifo, schedule: Schedule, rocId: Word, buf: seq<Word>)
    requires f.Valid() && Readable(buf) && Admissible(buf) && buf[0] != 0xffff_ffff
    ensures var g := PushAll(SendPrefix(f, schedule, rocId, buf), schedule, UserBody(buf));
            KeepsBooks(f, Ok, g, [UserMessage(buf, rocId)])
  {
    PrefixDelivers(f, schedule, rocId, buf);
    var q := SendPrefix(f, schedule, rocId, buf);
    PushAllEffect(q, schedule, UserBody(buf));
    BodyKeepsBooks(f, q, Ok, PushAll(q, schedule, UserBody(buf)), UserPrefix(buf, rocId), UserBody(buf));
  }

  lemma UserKeepsBooks(f: Fifo, schedule: Schedule, rocId: Word, buf: seq<Word>)
    requires f.Valid() && Readable(buf) && Admissible(buf) && buf[0] != 0xffff_ffff
    ensures var (reply, g) := WriteUser(f, schedule, rocId, buf);
            KeepsBooks(f, reply, g, if reply == Ok then [UserMessage(buf, rocId)] else [])
  {
    if UserFrame(buf) > DEPTH {
      LongUserKeepsBooks(Drain(f, schedule), schedule, rocId, buf);
    } else {
      ShortUserKeepsBooks(f, schedule, rocId, buf);
    }
  }

  lemma PerformFrames(f: Fifo, schedule: Schedule, rocId: Word, w: Write)
    requires f.Valid() && w.Callable() && w.Countable()
    ensures var (reply, g) := Perform(f, schedule, rocId, w);
            KeepsBooks(f, reply, g, MessagesOf(rocId, w, reply))
  {
    match w
    case RocControl(kind, val0, val1) =>
      var g := Drain(f, schedule);
      FrameKeepsBooks(g, schedule, ControlMessage(false, rocId, kind, val0, val1));
    case StreamingControl(udp, kind, val0, val1) =>
      FrameKeepsBooks(f, schedule, ControlMessage(udp, rocId, kind, val0, val1));
    case User(buf) =>
      if Admissible(buf) {
        UserKeepsBooks(f, schedule, rocId, buf);
      }
    case Connect(cdata) =>
      FrameKeepsBooks(f, schedule, cdata);
  }

  // ---------------------------------------------------------------- any history

  lemma {:induction false} RunKeepsBooks(f: Fifo, schedule: Schedule, rocId: Word, ws: seq<Write>)
    requires f.Valid() && f.data == [] && f.lens == [] && AllCallable(ws) && AllCountable(ws)
    ensures var out := Run(f, schedule, rocId, ws);
            && f.lost <= out.fifo.lost && 0 <= Owed(out.fifo)
            && (if out.fifo.lost == f.lost && FifoFull !in out.replies
                then Cut(out.fifo.data, out.fifo.lens) == Some(out.messages)
                else Owed(out.fifo) > 0)
    decreases |ws|
  {
    if ws != [] {
      var init, last := ws[..|ws| - 1], ws[|ws| - 1];
      RunKeepsBooks(f, schedule, rocId, init);
      var before := Run(f, schedule, rocId, init);
      PerformFrames(before.fifo, schedule, rocId, last);
      var (reply, g) := Perform(before.fifo, schedule, rocId, last);
      var ms := MessagesOf(rocId, last, reply);
      assert FifoFull in before.replies + [reply] <==> FifoFull in before.replies || reply == FifoFull;
      if FifoFull !in before.replies && before.fifo.lost == f.lost && Clean(before.fifo, reply, g) {
        if |ms| == 1 {
          CutAppend(before.fifo.data, before.fifo.lens, before.messages, ms[0]);
          assert before.messages + ms == before.messages + [ms[0]];
        } else {
          assert before.messages + ms == before.messages;
        }
      }
    }
  }

  /** A write adds the lengths `x` to the length history and loses no word it has not already lost. */
  ghost predicate Adds(f: Fifo, g: Fifo, x: seq<Word>) {
    g.Valid() && f.lost <= g.lost && g.lens == f.lens + x
  }

  lemma FrameLens(f: Fifo, schedule: Schedule, m: seq<Word>)
    requires f.Valid() && |m| < 0x1_0000_0000
    ensures Adds(f, WriteFrame(f, schedule, m), [|m|])
  {
    PushAllEffect(f, schedule, m);
  }

  lemma PrefixLens(f: Fifo, schedule: Schedule, rocId: Word, buf: seq<Word>)
    requires f.Valid() && Readable(buf) && Admissible(buf)
    ensures Adds(f, SendPrefix(f, schedule, rocId, buf), [UserFrame(buf)])
  {
    PushAllEffect(PushLen(f, schedule, UserFrame(buf)), schedule, UserPrefix(buf, rocId));
  }

  /** The lengths a user event adds: none if it is refused. */
  function UserLengths(buf: seq<Word>, reply: Reply): seq<Word>
    requires Readable(buf) && Admissible(buf)
  {
    if reply == Rejected then [] else [UserFrame(buf)]
  }

  lemma UserLens(f: Fifo, schedule: Schedule, rocId: Word, buf: seq<Word>)
    requires f.Valid() && Readable(buf) && Admissible(buf)
    ensures var (reply, g) := WriteUser(f, schedule, rocId, buf);
            Adds(f, g, UserLengths(buf, reply)) && (buf[0] == 0xffff_ffff ==> reply == Ok)
  {
    var d := Drain(f, schedule);
    if UserFrame(buf) > DEPTH {
      PrefixLens(d, schedule, rocId, buf);
      LoopDelivers(SendPrefix(d, schedule, rocId, buf), schedule, UserBody(buf));
    } else {
      PrefixLens(f, schedule, rocId, buf);
      PushAllEffect(SendPrefix(f, schedule, rocId, buf), schedule, UserBody(buf));
    }
  }

  /** What a write adds to the length history. */
  function Lengths(rocId: Word, w: Write, reply: Reply): (x: seq<Word>)
    requires w.Callable()
    ensures |MessagesOf(rocId, w, reply)| <= |x| <= 1
    ensures !w.Countable() && reply == Ok ==> x == [10] && |MessagesOf(rocId, w, reply)[0]| == 11
  {
    match w
    case RocControl(_, _, _) => if reply == Ok then [15] else []
    case StreamingControl(udp, _, _, _) => [if udp then 13 else 15]
    case User(buf) => if Admissible(buf) then UserLengths(buf, reply) else []
    case Connect(cdata) => if cdata == [] then [] else [|cdata|]
  }

  lemma PerformLens(f: Fifo, schedule: Schedule, rocId: Word, w: Write)
    requires f.Valid() && w.Callable()
    ensures var (reply, g) := Perform(f, schedule, rocId, w);
            Adds(f, g, Lengths(rocId, w, reply)) && (!w.Countable() ==> reply == Ok)
  {
    match w
    case RocControl(kind, val0, val1) =>
      FrameLens(Drain(f, schedule), schedule, ControlMessage(false, rocId, kind, val0, val1));
    case StreamingControl(udp, kind, val0, val1) =>
      FrameLens(f, schedule, ControlMessage(udp, rocId, kind, val0, val1));
    case User(buf) =>
      if Admissible(buf) {
        UserLens(f, schedule, rocId, buf);
      }
    case Connect(cdata) =>
      FrameLens(f, schedule, cdata);
  }

  /** The lengths are those of the messages, one for one. */
  ghost predicate Aligned(lens: seq<Word>, ms: seq<seq<Word>>) {
    |lens| == |ms| && forall i :: 0 <= i < |ms| ==> lens[i] == |ms[i]|
  }

  lemma {:induction false} CutAligned(data: seq<Word>, lens: seq<Word>)
    ensures Cut(data, lens).Some? ==> Aligned(lens, Cut(data, lens).value)
    decreases |lens|
  {
    if lens != [] && lens[|lens| - 1] <= |data| {
      CutAligned(data[..|data| - lens[|lens| - 1]], lens[..|lens| - 1]);
    }
  }

  /** Lengths and messages that do not line up never will again. */
  lemma AlignmentStep(lens: seq<Word>, ms: seq<seq<Word>>, x: seq<Word>, m: seq<seq<Word>>)
    requires |ms| <= |lens| && |m| <= |x| <= 1
    ensures |ms + m| <= |lens + x|
    ensures !Aligned(lens, ms) || (|m| == 1 && x[0] != |m[0]|) ==> !Aligned(lens + x, ms + m)
  {
    if Aligned(lens + x, ms + m) {
      assert |lens| == |ms|;
      forall i | 0 <= i < |ms| ensures lens[i] == |ms[i]| {
        assert (lens + x)[i] == lens[i] && (ms + m)[i] == ms[i];
      }
      if |m| == 1 {
        assert (lens + x)[|ms|] == x[0] && (ms + m)[|ms|] == m[0];
      }
    }
  }

  lemma {:induction false} WrappedMisaligns(f: Fifo, schedule: Schedule, rocId: Word, ws: seq<Write>)
    requires f.Valid() && f.lens == [] && AllCallable(ws)
    ensures var out := Run(f, schedule, rocId, ws);
            && |out.messages| <= |out.fifo.lens|
            && (!AllCountable(ws) ==> !Aligned(out.fifo.lens, out.messages))
    decreases |ws|
  {
    if ws != [] {
      var init, last := ws[..|ws| - 1], ws[|ws| - 1];
      WrappedMisaligns(f, schedule, rocId, init);
      var before := Run(f, schedule, rocId, init);
      PerformLens(before.fifo, schedule, rocId, last);
      var reply := Perform(before.fifo, schedule, rocId, last).0;
      AlignmentStep(before.fifo.lens, before.messages, Lengths(rocId, last, reply), MessagesOf(rocId, last, reply));
      SplitCountable(ws);
    }
  }

  lemma SplitCountable(ws: seq<Write>)
    requires ws != [] && AllCallable(ws)
    ensures AllCountable(ws) <==> AllCountable(ws[..|ws| - 1]) && ws[|ws| - 1].Countable()
  {
  }

  /** For any sequence of writes and any hardware behaviour, cutting the data history by the
      length history gives back exactly the accepted messages, in order, if and only if no word
      was lost to a full FIFO, no write was abandoned on the full flag and no length wrapped. */
  lemma FramingIff(f: Fifo, schedule: Schedule, rocId: Word, ws: seq<Write>)
    requires f.Valid() && f.data == [] && f.lens == [] && AllCallable(ws)
    ensures var out := Run(f, schedule, rocId, ws);
            Cut(out.fifo.data, out.fifo.lens) == Some(out.messages)
            <==> out.fifo.lost == f.lost && FifoFull !in out.replies && AllCountable(ws)
  {
    var out := Run(f, schedule, rocId, ws);
    if AllCountable(ws) {
      RunKeepsBooks(f, schedule, rocId, ws);
      if Cut(out.fifo.data, out.fifo.lens).Some? {
        CutMeasures(out.fifo.data, out.fifo.lens);
      }
    } else {
      WrappedMisaligns(f, schedule, rocId, ws);
      CutAligned(out.fifo.data, out.fifo.lens);
    }
  }

  /** The length word 0xffffffff wraps: the length FIFO is promised ten words and eleven are sent.
      With any other length word the two agree. */
  lemma UserFrameIff(rocId: Word, buf: seq<Word>)
    requires Readable(buf) && Admissible(buf)
    ensures |UserMessage(buf, rocId)| == UserFrame(buf) <==> buf[0] != 0xffff_ffff
  {
  }

  lemma OneFrame(m: seq<Word>)
    requires |m| < 0x1_0000_0000
    ensures Cut(m, [|m|]) == Some([m])
  {
    var none: seq<seq<Word>> := [];
    CutAppend([], [], none, m);
    assert [] + m == m && none + [m] == [m];
  }

  /** One accepted user event that lost nothing is one frame. */
  lemma UserIsOneFrame(f: Fifo, schedule: Schedule, rocId: Word, buf: seq<Word>)
    requires f.Valid() && f.data == [] && f.lens == []
    requires Readable(buf) && Admissible(buf) && buf[0] != 0xffff_ffff
    ensures var (reply, g) := WriteUser(f, schedule, rocId, buf);
            reply == Ok && g.lost == f.lost ==> Cut(g.data, g.lens) == Some([UserMessage(buf, rocId)])
  {
    UserKeepsBooks(f, schedule, rocId, buf);
    var (reply, g) := WriteUser(f, schedule, rocId, buf);
    if reply == Ok && g.lost == f.lost {
      OneFrame(UserMessage(buf, rocId));
      assert g.data == f.data + UserMessage(buf, rocId) == UserMessage(buf, rocId);
      assert g.lens == f.lens + [|UserMessage(buf, rocId)|] == [|UserMessage(buf, rocId)|];
    }
  }

  // ---------------------------------------------------------------- inside a frame

  /** The block length and cMsg byte count agree with the frame length in every event, and a UDP
      control frame is the TCP one without its two cMsg words. */
  lemma FrameHeaders(rocId: Word, w: Write)
    requires w.Callable() && w.Countable() && !w.Connect? && (w.User? ==> Admissible(w.buf))
    ensures var ms := MessagesOf(rocId, w, Ok);
            && |ms| == 1
            && (w.StreamingControl? && w.udp ==>
                  && ms[0][0] == |ms[0]|
                  && ms[0] == MessagesOf(rocId, w.(udp := false), Ok)[0][2..])
            && (!(w.StreamingControl? && w.udp) ==>
                  ms[0][2] == |ms[0]| - 2 && ms[0][1] == 4 * ms[0][2])
  {
    if w.StreamingControl? && w.udp {
      var udp := ControlMessage(true, rocId, w.kind, w.val0, w.val1);
      var tcp := ControlMessage(false, rocId, w.kind, w.val0, w.val1);
      assert tcp[..2] + udp == tcp;
    }
  }
}
