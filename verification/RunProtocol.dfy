/**
 The readout list's transitions over the event builder: Prestart, Go, Pause and End, and the
 message history of every stream over a whole run.
 */
module RunProtocol {
  import opened Bytes
  import opened StreamingEb
  import opened Options
  import EvioWriter
  import Receiver

  const EV_PRESTART: Word := 0xffd1
  const EV_GO: Word := 0xffd2
  const EV_END: Word := 0xffd4

  /** What the transitions take from the configuration file, which a run does not change; the counts
      and the port are 0 when the file does not give them.  `ports` are the streams of the payloads. */
  datatype Setup = Setup(
    connections: nat, netMode: int, localPort: nat, ejfat: bool, ppmask: int, rocId: int, ports: PortStreams)

  /** Go and End make do with one connection when the file gives none. */
  function Fallback(s: Setup): nat {
    if s.connections == 0 then 1 else s.connections
  }

  // ---------------------------------------------------------------- transitions as functions

  function ConnectAll(e: Eb, n: nat, connect: int): Eb
  {
    if n == 0 then e else TcpConnect(ConnectAll(e, n - 1, connect), n - 1, connect, []).1
  }

  function CloseAll(e: Eb, n: nat): Eb {
    if n == 0 then e else TcpConnect(CloseAll(e, n - 1), n - 1, 0, []).1
  }

  /** One control event to each of the first `n` instances; `vals[i]` goes to instance `i`. */
  function WriteAll(e: Eb, n: nat, kind: Word, val0: Word, vals: seq<Word>): Eb
    requires |vals| >= n
  {
    if n == 0 then e
    else EvioWriteControl(WriteAll(e, n - 1, kind, val0, vals), n - 1, kind, val0, vals[n - 1]).1
  }

  function Same(n: nat, v: Word): (vs: seq<Word>)
    ensures |vs| == n
  {
    seq(n, _ => v)
  }

  /** The builder once Prestart has configured it, before any socket is opened. */
  function Configured(e: Eb, s: Setup): Eb {
    var c := SetEbCfg(e, s.ppmask, s.connections, 0xffff, s.rocId, Some(s.ports));
    var d := if s.netMode != 0 then EbDisable(c, CMSG_HDR_EN).1 else c;
    var x := if s.netMode != 0 && s.ejfat then EbEnable(d, EJFAT_EN).1 else d;
    EbioReset(EbEnable(x, ASYNC_FIFO_EN).1, s.netMode)
  }

  /** `rocPrestart` gives up before touching the builder on a bad configuration. */
  predicate Usable(s: Setup) {
    s.connections > 0 && s.localPort > 0 && (s.netMode == 0 || s.netMode == 1)
  }

  function Prestart(e: Eb, s: Setup, run: Word, runType: Word): Eb {
    if !Usable(s) then e
    else
      var c := ConnectAll(Configured(e, s), s.connections, s.netMode + 1);
      WriteAll(c, s.connections, EV_PRESTART, run, Same(s.connections, runType))
  }

  function GoTransition(e: Eb, s: Setup): Eb {
    EbEnable(WriteAll(e, Fallback(s), EV_GO, 0, Same(Fallback(s), 0)), PP_STREAM_EN).1
  }

  function EndTransition(e: Eb, s: Setup, run: Word, frames: seq<Word>): Eb
    requires |frames| == Fallback(s)
  {
    CloseAll(WriteAll(EbEnable(e, ASYNC_FIFO_EN).1, Fallback(s), EV_END, run, frames), Fallback(s))
  }

  // ---------------------------------------------------------------- transitions as methods

  class ReadoutList {
    const eb: Builder
    const setup: Setup

    constructor (eb: Builder, setup: Setup)
      ensures this.eb == eb && this.setup == setup
    {
      this.eb := eb;
      this.setup := setup;
    }

    method SendToAll(kind: Word, val0: Word, vals: seq<Word>)
      modifies eb
      ensures eb.View() == WriteAll(old(eb.View()), |vals|, kind, val0, vals)
    {
      for ii := 0 to |vals|
        invariant eb.View() == WriteAll(old(eb.View()), ii, kind, val0, vals)
      {
        var _ := eb.WriteControl(ii, kind, val0, vals[ii]);
      }
    }

    method RocPrestart(run: Word, runType: Word)
      modifies eb
      ensures eb.View() == Prestart(old(eb.View()), setup, run, runType)
    {
      if setup.connections == 0 || setup.localPort == 0 || (setup.netMode != 0 && setup.netMode != 1) {
        return;
      }
      eb.SetCfg(setup.ppmask, setup.connections, 0xffff, setup.rocId, Some(setup.ports));
      if setup.netMode != 0 {
        var _ := eb.Disable(CMSG_HDR_EN);
        if setup.ejfat {
          var _ := eb.Enable(EJFAT_EN);
        }
      }
      var _ := eb.Enable(ASYNC_FIFO_EN);
      eb.SetMode(setup.netMode);
      ghost var configured := eb.View();
      assert configured == Configured(old(eb.View()), setup);
      for inst := 0 to setup.connections
        invariant eb.View() == ConnectAll(configured, inst, setup.netMode + 1)
      {
        var _ := eb.Connect(inst, setup.netMode + 1, []);
      }
      SendToAll(EV_PRESTART, run, Same(setup.connections, runType));
    }

    method RocGo()
      modifies eb
      ensures eb.View() == GoTransition(old(eb.View()), setup)
    {
      var numConnections := Fallback(setup);
      SendToAll(EV_GO, 0, Same(numConnections, 0));
      var _ := eb.Enable(PP_STREAM_EN);
    }

    /** Pause stops the trigger and the stats sender; the builder is left as it is. */
    method RocPause()
    {
    }

    method RocEnd(run: Word, frames: seq<Word>)
      requires |frames| == Fallback(setup)
      modifies eb
      ensures eb.View() == EndTransition(old(eb.View()), setup, run, frames)
    {
      var _ := eb.Enable(ASYNC_FIFO_EN);
      SendToAll(EV_END, run, frames);
      ghost var sent := eb.View();
      for ii := 0 to Fallback(setup)
        invariant eb.View() == CloseAll(sent, ii)
      {
        var _ := eb.Connect(ii, 0, []);
      }
    }
  }

  // ---------------------------------------------------------------- whole runs

  datatype Run = Run(setup: Setup, run: Word, runType: Word, pauses: nat, frames: seq<Word>)

  ghost predicate LegalRun(r: Run) {
    Usable(r.setup) && |r.frames| == r.setup.connections
  }

  /** Prestart, Go, and then `pauses` times Pause and Go. */
  function Running(e: Eb, s: Setup, run: Word, runType: Word, pauses: nat): Eb
    requires Usable(s)
  {
    if pauses == 0 then GoTransition(Prestart(e, s, run, runType), s)
    else GoTransition(Running(e, s, run, runType, pauses - 1), s)
  }

  function Ran(e: Eb, r: Run): Eb
    requires LegalRun(r)
  {
    EndTransition(Running(e, r.setup, r.run, r.runType, r.pauses), r.setup, r.run, r.frames)
  }

  /** Instances 0 to 3 exist; a larger configured count reaches those four. */
  function Streams(s: Setup): int {
    if s.connections > 4 then 4 else s.connections
  }

  /** What the log must say about one message: written out of reset, with the async FIFO on (bit 6), to
      the instance's own port (bits 5 and 4), over its open socket, and with stream processing (bit 7)
      on or off. */
  ghost predicate Sound(entry: Entry, inst: int, streaming: bool, message: seq<Word>) {
    && entry.ctrl < 0x8000_0000
    && 6 in entry.ctrl3
    && Field2(entry.ctrl3, 4) == inst
    && inst in entry.open
    && (7 in entry.ctrl3 <==> streaming)
    && entry.message == message
  }

  /** The builder is fit for control events to the run's streams. */
  ghost predicate Ready(e: Eb, s: Setup, streaming: bool) {
    && e.ctrl < RESET_BIT
    && ASYNC_FIFO_EN <= e.ctrl3
    && (PP_STREAM_EN <= e.ctrl3 <==> streaming)
    && (forall i :: 0 <= i < Streams(s) ==> i in e.open)
    && e.udp == (s.netMode != 0)
    && e.rocId == Clamp(s.rocId, 0, 127)
  }

  function Message(s: Setup, kind: Word, val0: Word, val1: Word): seq<Word> {
    EvioWriter.ControlMessage(s.netMode != 0, Clamp(s.rocId, 0, 127), kind, val0, val1)
  }

  /** The entries a round of control events adds: one for each stream, in order. */
  ghost predicate IsRound(
    entries: seq<Entry>, s: Setup, n: int, streaming: bool, kind: Word, val0: Word, vals: seq<Word>) {
    && |entries| == n <= |vals|
    && forall i :: 0 <= i < n ==> Sound(entries[i], i, streaming, Message(s, kind, val0, vals[i]))
  }

  lemma ControlWritten(d: Eb, s: Setup, inst: nat, streaming: bool, kind: Word, val0: Word, val1: Word)
    requires Ready(d, s, streaming) && inst < s.connections
    ensures var f := EvioWriteControl(d, inst, kind, val0, val1).1;
            && Ready(f, s, streaming) && d.log <= f.log && |f.log| == |d.log| + (if inst < 4 then 1 else 0)
            && (inst < 4 ==> Sound(f.log[|d.log|], inst, streaming, Message(s, kind, val0, val1)))
  {
    if inst < 4 {
      var added := EvioWriteControl(d, inst, kind, val0, val1).1.log[|d.log|];
      assert added.ctrl3 * AFIFO_MASK == PortBits(inst);
      PortNumber(added.ctrl3, inst);
    }
  }

  lemma RoundGrows(
    before: seq<Entry>, d: seq<Entry>, added: Entry, s: Setup, n: nat, streaming: bool, kind: Word, val0: Word,
    vals: seq<Word>)
    requires before <= d && IsRound(d[|before|..], s, n, streaming, kind, val0, vals) && n < |vals|
    requires Sound(added, n, streaming, Message(s, kind, val0, vals[n]))
    ensures IsRound((d + [added])[|before|..], s, n + 1, streaming, kind, val0, vals)
  {
    assert (d + [added])[|before|..] == d[|before|..] + [added];
  }

  lemma {:induction false} WriteAllRound(
    e: Eb, s: Setup, n: nat, streaming: bool, kind: Word, val0: Word, vals: seq<Word>)
    requires Ready(e, s, streaming) && n <= |vals| && s.connections >= n
    ensures var f := WriteAll(e, n, kind, val0, vals);
            var m := if n > 4 then 4 else n;
            && Ready(f, s, streaming) && e.log <= f.log
            && IsRound(f.log[|e.log|..], s, m, streaming, kind, val0, vals)
  {
    if n > 0 {
      WriteAllRound(e, s, n - 1, streaming, kind, val0, vals);
      var d := WriteAll(e, n - 1, kind, val0, vals);
      ControlWritten(d, s, n - 1, streaming, kind, val0, vals[n - 1]);
      var f := EvioWriteControl(d, n - 1, kind, val0, vals[n - 1]).1;
      if n <= 4 {
        RoundGrows(e.log, d.log, f.log[|d.log|], s, n - 1, streaming, kind, val0, vals);
        assert f.log == d.log + [f.log[|d.log|]];
      } else {
        assert f.log == d.log;
      }
    }
  }

  lemma ConnectOpens(e: Eb, inst: nat, connect: int)
    requires connect > 0
    ensures var f := TcpConnect(e, inst, connect, []).1;
            && f.ctrl == (if inst < 4 then ClearReset(e.ctrl) else e.ctrl)
            && f.ctrl3 - AFIFO_MASK == e.ctrl3 - AFIFO_MASK
            && f.open == (if inst < 4 then e.open + {inst} else e.open)
            && f.udp == e.udp && f.rocId == e.rocId && f.log == e.log
  {
  }

  lemma {:induction false} ConnectAllOpens(e: Eb, n: nat, connect: int)
    requires connect > 0
    ensures var f := ConnectAll(e, n, connect);
            && f.ctrl == (if n == 0 then e.ctrl else ClearReset(e.ctrl))
            && f.ctrl3 - AFIFO_MASK == e.ctrl3 - AFIFO_MASK
            && (forall i :: 0 <= i < n && i < 4 ==> i in f.open)
            && f.udp == e.udp && f.rocId == e.rocId && f.log == e.log
  {
    if n > 0 {
      ConnectAllOpens(e, n - 1, connect);
      ConnectOpens(ConnectAll(e, n - 1, connect), n - 1, connect);
    }
  }

  lemma PrestartReady(e: Eb, s: Setup)
    requires Usable(s)
    ensures var c := ConnectAll(Configured(e, s), s.connections, s.netMode + 1);
            Ready(c, s, false) && c.log == e.log
  {
    var g := Configured(e, s);
    assert ASYNC_FIFO_EN <= g.ctrl3 - AFIFO_MASK && !(PP_STREAM_EN <= g.ctrl3);
    ConnectAllOpens(g, s.connections, s.netMode + 1);
    var c := ConnectAll(g, s.connections, s.netMode + 1);
    assert 7 in c.ctrl3 <==> 7 in c.ctrl3 - AFIFO_MASK;
  }

  /** The log of a run still going: a PRESTART round and a GO round for each Go.  The streams are
      off in the PRESTART round and the first GO round, and on in every later one. */
  ghost predicate RunningLog(log: seq<Entry>, s: Setup, run: Word, runType: Word, pauses: nat)
    requires Usable(s)
    decreases pauses
  {
    var n := Streams(s);
    && |log| >= n
    && var before := log[..|log| - n];
       && IsRound(log[|log| - n..], s, n, pauses > 0, EV_GO, 0, Same(s.connections, 0))
       && (if pauses == 0
           then IsRound(before, s, n, false, EV_PRESTART, run, Same(s.connections, runType))
           else RunningLog(before, s, run, runType, pauses - 1))
  }

  /** The log of a whole run: the same, and an END round. */
  ghost predicate WholeLog(log: seq<Entry>, r: Run)
    requires LegalRun(r)
  {
    var n := Streams(r.setup);
    && |log| >= n
    && RunningLog(log[..|log| - n], r.setup, r.run, r.runType, r.pauses)
    && IsRound(log[|log| - n..], r.setup, n, true, EV_END, r.run, r.frames)
  }

  /** Every transition adds one round to the log and leaves the builder fit for the next. */
  lemma RoundAdded(e: Eb, s: Setup, streaming: bool, kind: Word, val0: Word, vals: seq<Word>)
    requires Usable(s) && Ready(e, s, streaming) && |vals| == s.connections
    ensures var f := WriteAll(e, s.connections, kind, val0, vals);
            var n := Streams(s);
            && Ready(f, s, streaming) && |f.log| == |e.log| + n && f.log[..|f.log| - n] == e.log
            && IsRound(f.log[|f.log| - n..], s, n, streaming, kind, val0, vals)
  {
    WriteAllRound(e, s, s.connections, streaming, kind, val0, vals);
  }

  lemma PrestartLog(e: Eb, s: Setup, run: Word, runType: Word)
    requires Usable(s) && e.log == []
    ensures var p := Prestart(e, s, run, runType);
            && Ready(p, s, false)
            && IsRound(p.log, s, Streams(s), false, EV_PRESTART, run, Same(s.connections, runType))
  {
    PrestartReady(e, s);
    var c := ConnectAll(Configured(e, s), s.connections, s.netMode + 1);
    RoundAdded(c, s, false, EV_PRESTART, run, Same(s.connections, runType));
    var p := Prestart(e, s, run, runType);
    assert p.log[|p.log| - Streams(s)..] == p.log;
  }

  lemma {:induction false} RunningKeepsLog(e: Eb, s: Setup, run: Word, runType: Word, pauses: nat)
    requires Usable(s) && e.log == []
    ensures var f := Running(e, s, run, runType, pauses);
            Ready(f, s, true) && RunningLog(f.log, s, run, runType, pauses)
  {
    if pauses == 0 {
      PrestartLog(e, s, run, runType);
      RoundAdded(Prestart(e, s, run, runType), s, false, EV_GO, 0, Same(s.connections, 0));
    } else {
      RunningKeepsLog(e, s, run, runType, pauses - 1);
      RoundAdded(Running(e, s, run, runType, pauses - 1), s, true, EV_GO, 0, Same(s.connections, 0));
    }
  }

  lemma {:induction false} CloseAllQuiet(e: Eb, n: nat)
    ensures CloseAll(e, n).log == e.log
  {
    if n > 0 {
      CloseAllQuiet(e, n - 1);
    }
  }

  /** The whole log of a run.  Everything is written to the right port over an open socket, out
      of reset and with the async FIFO on, and streams are off until the first GO round is
      complete. */
  lemma RunLog(e: Eb, r: Run)
    requires LegalRun(r) && e.log == []
    ensures WholeLog(Ran(e, r).log, r)
  {
    RunningKeepsLog(e, r.setup, r.run, r.runType, r.pauses);
    var x := EbEnable(Running(e, r.setup, r.run, r.runType, r.pauses), ASYNC_FIFO_EN).1;
    RoundAdded(x, r.setup, true, EV_END, r.run, r.frames);
    CloseAllQuiet(WriteAll(x, r.setup.connections, EV_END, r.run, r.frames), r.setup.connections);
  }

  // ---------------------------------------------------------------- one stream's view

  /** The messages routed to one port. */
  function History(log: seq<Entry>, inst: int): seq<seq<Word>>
    decreases |log|
  {
    if log == [] then []
    else
      var last := log[|log| - 1];
      History(log[..|log| - 1], inst) + if Field2(last.ctrl3, 4) == inst then [last.message] else []
  }

  lemma {:induction false} HistoryAppend(a: seq<Entry>, b: seq<Entry>, inst: int)
    ensures History(a + b, inst) == History(a, inst) + History(b, inst)
    decreases |b|
  {
    if b == [] {
      assert a + b == a;
    } else {
      HistoryAppend(a, b[..|b| - 1], inst);
      assert (a + b)[..|a + b| - 1] == a + b[..|b| - 1];
    }
  }

  /** A round gives each of its streams one message and other ports none. */
  lemma {:induction false} HistoryOfRound(
    entries: seq<Entry>, s: Setup, n: int, streaming: bool, kind: Word, val0: Word, vals: seq<Word>, inst: int)
    requires 0 <= n <= 4 && IsRound(entries, s, n, streaming, kind, val0, vals) && ValidInst(inst)
    ensures History(entries, inst) == if inst < n then [Message(s, kind, val0, vals[inst])] else []
    decreases n
  {
    if n > 0 {
      var init := entries[..n - 1];
      assert IsRound(init, s, n - 1, streaming, kind, val0, vals);
      HistoryOfRound(init, s, n - 1, streaming, kind, val0, vals, inst);
      assert Sound(entries[n - 1], n - 1, streaming, Message(s, kind, val0, vals[n - 1]));
    }
  }

  lemma RoundAfter(
    before: seq<Entry>, last: seq<Entry>, s: Setup, streaming: bool, kind: Word, val0: Word, vals: seq<Word>, inst: int)
    requires Usable(s) && 0 <= inst < Streams(s)
    requires IsRound(last, s, Streams(s), streaming, kind, val0, vals)
    ensures History(before + last, inst) == History(before, inst) + [Message(s, kind, val0, vals[inst])]
  {
    HistoryOfRound(last, s, Streams(s), streaming, kind, val0, vals, inst);
    HistoryAppend(before, last, inst);
  }

  lemma LastRound(log: seq<Entry>, s: Setup, streaming: bool, kind: Word, val0: Word, vals: seq<Word>, inst: int)
    requires Usable(s) && 0 <= inst < Streams(s) <= |log|
    requires IsRound(log[|log| - Streams(s)..], s, Streams(s), streaming, kind, val0, vals)
    ensures History(log, inst)
         == History(log[..|log| - Streams(s)], inst) + [Message(s, kind, val0, vals[inst])]
  {
    var before, last := log[..|log| - Streams(s)], log[|log| - Streams(s)..];
    assert log == before + last;
    RoundAfter(before, last, s, streaming, kind, val0, vals, inst);
  }

  /** PRESTART and then `gos` times GO. */
  function Expected(s: Setup, run: Word, runType: Word, gos: nat): seq<seq<Word>> {
    if gos == 0 then [Message(s, EV_PRESTART, run, runType)]
    else Expected(s, run, runType, gos - 1) + [Message(s, EV_GO, 0, 0)]
  }

  lemma {:induction false} HistoryWhileRunning(
    log: seq<Entry>, s: Setup, run: Word, runType: Word, pauses: nat, inst: int)
    requires Usable(s) && 0 <= inst < Streams(s) && RunningLog(log, s, run, runType, pauses)
    ensures History(log, inst) == Expected(s, run, runType, pauses + 1)
    decreases pauses
  {
    LastRound(log, s, pauses > 0, EV_GO, 0, Same(s.connections, 0), inst);
    var before := log[..|log| - Streams(s)];
    if pauses == 0 {
      HistoryOfRound(before, s, Streams(s), false, EV_PRESTART, run, Same(s.connections, runType), inst);
    } else {
      HistoryWhileRunning(before, s, run, runType, pauses - 1, inst);
    }
  }

  lemma WholeHistory(log: seq<Entry>, r: Run, inst: int)
    requires LegalRun(r) && WholeLog(log, r) && 0 <= inst < Streams(r.setup)
    ensures History(log, inst)
         == Expected(r.setup, r.run, r.runType, r.pauses + 1)
            + [Message(r.setup, EV_END, r.run, r.frames[inst])]
  {
    LastRound(log, r.setup, true, EV_END, r.run, r.frames, inst);
    HistoryWhileRunning(log[..|log| - Streams(r.setup)], r.setup, r.run, r.runType, r.pauses, inst);
  }

  /** For every run Prestart, Go, (Pause, Go)*, End, the history of every stream is PRESTART, one
      GO for each Go, and END. */
  lemma StreamHistory(e: Eb, r: Run, inst: int)
    requires LegalRun(r) && e.log == [] && 0 <= inst < Streams(r.setup)
    ensures History(Ran(e, r).log, inst)
         == Expected(r.setup, r.run, r.runType, r.pauses + 1)
            + [Message(r.setup, EV_END, r.run, r.frames[inst])]
  {
    RunLog(e, r);
    WholeHistory(Ran(e, r).log, r, inst);
  }

  /** Read by position, a control event for the run's transport and roc id. */
  predicate Reads(frame: seq<Word>, s: Setup, kind: Word, val0: Word, val1: Word) {
    var rocId := if s.rocId < 0 then 0 else if s.rocId > 127 then 127 else s.rocId;
    if s.netMode == 0 then Receiver.IsTcpControl(frame, rocId, kind, val0, val1)
    else Receiver.IsUdpControl(frame, rocId, kind, val0, val1)
  }

  lemma {:induction false} ExpectedReads(s: Setup, run: Word, runType: Word, gos: nat)
    ensures var h := Expected(s, run, runType, gos);
            && |h| == gos + 1 && Reads(h[0], s, 0xffd1, run, runType)
            && forall k :: 1 <= k < |h| ==> Reads(h[k], s, 0xffd2, 0, 0)
  {
    if gos == 0 {
      Receiver.ControlRead(Clamp(s.rocId, 0, 127), EV_PRESTART, run, runType);
    } else {
      ExpectedReads(s, run, runType, gos - 1);
      Receiver.ControlRead(Clamp(s.rocId, 0, 127), EV_GO, 0, 0);
    }
  }

  /** What the receiver of one stream finds over a run: 0xffd1 with the run's number and type, 0xffd2
      once for each Go, and 0xffd4 with the run's number and the stream's own frame count. */
  lemma StreamReads(e: Eb, r: Run, inst: int)
    requires LegalRun(r) && e.log == [] && 0 <= inst < Streams(r.setup)
    ensures var h := History(Ran(e, r).log, inst);
            && |h| == r.pauses + 3 && Reads(h[0], r.setup, 0xffd1, r.run, r.runType)
            && (forall k :: 1 <= k < |h| - 1 ==> Reads(h[k], r.setup, 0xffd2, 0, 0))
            && Reads(h[|h| - 1], r.setup, 0xffd4, r.run, r.frames[inst])
  {
    StreamHistory(e, r, inst);
    ExpectedReads(r.setup, r.run, r.runType, r.pauses + 1);
    Receiver.ControlRead(Clamp(r.setup.rocId, 0, 127), EV_END, r.run, r.frames[inst]);
  }

  // ---------------------------------------------------------------- the registers over a run

  lemma {:induction false} WriteAllRegisters(e: Eb, n: nat, kind: Word, val0: Word, vals: seq<Word>)
    requires |vals| >= n
    ensures var f := WriteAll(e, n, kind, val0, vals);
            && f.ctrl == e.ctrl && f.open == e.open && f.udp == e.udp && f.rocId == e.rocId && f.ppCfg == e.ppCfg
            && f.ctrl3 - AFIFO_MASK == e.ctrl3 - AFIFO_MASK
  {
    if n > 0 {
      WriteAllRegisters(e, n - 1, kind, val0, vals);
    }
  }

  lemma {:induction false} ConnectAllOpen(e: Eb, n: nat, connect: int)
    requires connect > 0
    ensures var f := ConnectAll(e, n, connect);
            && f.ppCfg == e.ppCfg && forall inst :: inst in f.open <==> inst in e.open || (0 <= inst < n && inst < 4)
  {
    if n > 0 {
      ConnectAllOpen(e, n - 1, connect);
    }
  }

  lemma {:induction false} CloseAllCloses(e: Eb, n: nat)
    ensures var f := CloseAll(e, n);
            && f.ctrl == (if n == 0 then e.ctrl else 0x8000_0000)
            && forall inst :: inst in f.open <==> inst in e.open && !(0 <= inst < n && inst < 4)
  {
    if n > 0 {
      CloseAllCloses(e, n - 1);
    }
  }

  /** Bits of a register outside the port field. */
  lemma BitsOutside(r: Bits, r': Bits)
    requires r - AFIFO_MASK == r' - AFIFO_MASK
    ensures forall b: nat :: b != 4 && b != 5 ==> (b in r <==> b in r')
  {
    assert forall b: nat :: b != 4 && b != 5 ==> (b in r <==> b in r - AFIFO_MASK);
    assert forall b: nat :: b != 4 && b != 5 ==> (b in r' <==> b in r' - AFIFO_MASK);
  }

  /** The builder as Prestart leaves it: out of reset, with the longest frames and the payload mask; the
      stream count; cMsg headers (bit 3) only over TCP, EJFAT headers (bit 8) only over UDP when asked
      for, the async FIFO (bit 6) on and the streams (bit 7) off; and every stream connected. */
  lemma PrestartState(e: Eb, s: Setup, run: Word, runType: Word)
    requires Usable(s)
    ensures var p := Prestart(e, s, run, runType);
            && p.ctrl == 2047 * 0x1_0000 + s.ppmask % 0x1_0000
            && Field3(p.ctrl3, 0) == Clamp(s.connections, 1, 4)
            && (3 in p.ctrl3 <==> s.netMode == 0) && (8 in p.ctrl3 <==> s.netMode == 1 && s.ejfat)
            && 6 in p.ctrl3 && 7 !in p.ctrl3
            && (p.udp <==> s.netMode == 1) && p.rocId == Clamp(s.rocId, 0, 127)
            && p.ppCfg == PortConfig(e.ppCfg, s.ppmask, Some(s.ports))
            && forall inst :: inst in p.open <==> inst in e.open || 0 <= inst < Streams(s)
  {
    var g := Configured(e, s);
    ConfiguredBits(e, s);
    ConnectAllOpens(g, s.connections, s.netMode + 1);
    ConnectAllOpen(g, s.connections, s.netMode + 1);
    var c := ConnectAll(g, s.connections, s.netMode + 1);
    WriteAllRegisters(c, s.connections, EV_PRESTART, run, Same(s.connections, runType));
    BitsOutside(Prestart(e, s, run, runType).ctrl3, c.ctrl3);
    BitsOutside(c.ctrl3, g.ctrl3);
  }

  lemma ConfiguredBits(e: Eb, s: Setup)
    requires Usable(s)
    ensures var g := Configured(e, s);
            && g.ctrl == 2047 * 0x1_0000 + s.ppmask % 0x1_0000
            && Field3(g.ctrl3, 0) == Clamp(s.connections, 1, 4)
            && (3 in g.ctrl3 <==> s.netMode == 0) && (8 in g.ctrl3 <==> s.netMode == 1 && s.ejfat)
            && 6 in g.ctrl3 && 7 !in g.ctrl3
            && (g.udp <==> s.netMode == 1) && g.rocId == Clamp(s.rocId, 0, 127) && g.open == e.open
            && g.ppCfg == PortConfig(e.ppCfg, s.ppmask, Some(s.ports))
  {
    assert FrameField(0xffff) == 2047;
    var c := SetEbCfg(e, s.ppmask, s.connections, 0xffff, s.rocId, Some(s.ports));
    assert c.ctrl3 * STREAM_MASK == StreamBits(s.connections);
    var g := Configured(e, s);
    assert forall b :: b in {0, 1, 2} ==> (b in g.ctrl3 <==> b in c.ctrl3);
    StreamNumber(c.ctrl3, s.connections);
  }

  /** End from any state: the builder disabled, every stream of the run closed, the others as they were. */
  lemma EndState(e: Eb, s: Setup, run: Word, frames: seq<Word>)
    requires |frames| == Fallback(s)
    ensures var f := EndTransition(e, s, run, frames);
            && f.ctrl == 0x8000_0000
            && forall inst :: inst in f.open <==> inst in e.open && !(0 <= inst < Fallback(s) && inst < 4)
  {
    var x := EbEnable(e, ASYNC_FIFO_EN).1;
    WriteAllRegisters(x, Fallback(s), EV_END, run, frames);
    CloseAllCloses(WriteAll(x, Fallback(s), EV_END, run, frames), Fallback(s));
  }

  lemma {:induction false} RunningOpen(e: Eb, s: Setup, run: Word, runType: Word, pauses: nat)
    requires Usable(s)
    ensures forall inst :: inst in Running(e, s, run, runType, pauses).open
                      <==> inst in e.open || 0 <= inst < Streams(s)
  {
    if pauses == 0 {
      PrestartState(e, s, run, runType);
      var p := Prestart(e, s, run, runType);
      WriteAllRegisters(p, Fallback(s), EV_GO, 0, Same(Fallback(s), 0));
    } else {
      RunningOpen(e, s, run, runType, pauses - 1);
      WriteAllRegisters(Running(e, s, run, runType, pauses - 1), Fallback(s), EV_GO, 0, Same(Fallback(s), 0));
    }
  }

  /** A run leaves the builder disabled and its own streams closed, and touches no other connection. */
  lemma RunClosed(e: Eb, r: Run)
    requires LegalRun(r)
    ensures var f := Ran(e, r);
            && f.ctrl == 0x8000_0000
            && (forall inst :: 0 <= inst < Streams(r.setup) ==> inst !in f.open)
            && (forall inst :: !(0 <= inst < Streams(r.setup)) ==> (inst in f.open <==> inst in e.open))
  {
    RunningOpen(e, r.setup, r.run, r.runType, r.pauses);
    EndState(Running(e, r.setup, r.run, r.runType, r.pauses), r.setup, r.run, r.frames);
  }
}
