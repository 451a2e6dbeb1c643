/**
 The streaming event builder's control registers.

   Ctrl  : reset (bit 31), frame length (29-16), payload-port mask (15-0)
   Ctrl3 : EJFAT (8), streams on (7), async FIFO on (6), async port (5-4), cMsg (3), streams (2-0)

 Ctrl3 is only ever changed by setting and clearing bits, so it is the set of its bits that are
 1; the constants below are its masks in the same form.  Every driver routine is a function on
 the register file and a method of `Builder` that performs its read-modify-writes.
 */
module StreamingEb {
  import opened Bytes
  import opened Options
  import PayloadBits = Bits
  import EvioWriter

  type Bits = set<nat>

  const PP_STREAM_EN: Bits := {7}
  const ASYNC_FIFO_EN: Bits := {6}
  const CMSG_HDR_EN: Bits := {3}
  const EJFAT_EN: Bits := {8}
  /** The bits VTP_STREB_ENABLE_MASK leaves to the enable and disable routines. */
  const ENABLE_BITS: Bits := {3, 6, 7, 8}
  const AFIFO_MASK: Bits := {4, 5}
  const STREAM_MASK: Bits := {0, 1, 2}
  const RESET_BIT: int := 0x8000_0000

  /** A message handed to the builder, with the registers and sockets as they were when its
      length was written. */
  datatype Entry = Entry(ctrl: Word, ctrl3: Bits, open: set<int>, message: seq<Word>)

  /** `udp` is bit 8 of the EBIO receiver's control register, `open` the instances whose TCP/UDP
      stack has been asked to connect, `log` every asynchronous message so far. */
  datatype Eb = Eb(
    ctrl: Word, ctrl3: Bits, rocId: Word, ppCfg: PortWords, udp: bool, open: set<int>, log: seq<Entry>)

  /** One word, or one stream number, for each of the sixteen payload ports. */
  type PortWords = s: seq<Word> | |s| == 16 witness seq(16, _ => 0)
  type PortStreams = s: seq<nat> | |s| == 16 witness seq(16, _ => 0)

  datatype Reply = Ok | Error

  function Clamp(v: int, lo: int, hi: int): int
    requires lo <= hi
  {
    if v > hi then hi else if v < lo then lo else v
  }

  /** C division by 32, which truncates toward zero. */
  function Div32(v: int): int {
    if v >= 0 then v / 32 else -(-v / 32)
  }

  /** The frame-length field of Ctrl: 32 ns clocks less one. */
  function FrameField(frameLen: int): (field: int)
    ensures 32 <= field < 2048
  {
    Clamp(Div32(frameLen + 31) * 32 - 1, 1024, 65535) / 32
  }

  function StreamBits(nstreams: int): Bits {
    var n := Clamp(if nstreams <= 0 then 1 else nstreams, 1, 4);
    if n == 1 then {0} else if n == 2 then {1} else if n == 3 then {0, 1} else {2}
  }

  /** `inst << 4`. */
  function PortBits(inst: int): Bits {
    if inst == 0 then {} else if inst == 1 then {4} else if inst == 2 then {5} else {4, 5}
  }

  predicate ValidInst(inst: int) {
    0 <= inst <= 3
  }

  function SetReset(ctrl: Word): Word {
    ctrl % RESET_BIT + RESET_BIT
  }

  function ClearReset(ctrl: Word): Word {
    ctrl % RESET_BIT
  }

  // ---------------------------------------------------------------- the routines as functions

  /** `(streamInfo - 1) << 30` in 32 bits. */
  function StreamField(stream: nat): Word {
    (stream + 3) % 4 * 0x4000_0000
  }

  /** The ports in the mask get their stream; the others, and all without port information, stay. */
  function PortConfig(before: PortWords, mask: int, ports: Option<PortStreams>): PortWords {
    seq(16, i requires 0 <= i < 16 =>
      if ports.Some? && PayloadBits.Bit(mask % 0x1_0000, i) then StreamField(ports.value[i]) else before[i])
  }

  function SetEbCfg(e: Eb, mask: int, nstreams: int, frameLen: int, rocId: int, ports: Option<PortStreams>): Eb {
    e.(ctrl := RESET_BIT + FrameField(frameLen) * 0x1_0000 + mask % 0x1_0000,
       rocId := Clamp(rocId, 0, 127),
       ctrl3 := CMSG_HDR_EN + StreamBits(nstreams),
       ppCfg := PortConfig(e.ppCfg, mask, ports))
  }

  function EbEnable(e: Eb, mask: Bits): (Reply, Eb) {
    if !(mask <= ENABLE_BITS) then (Error, e)
    else (Ok, e.(ctrl3 := e.ctrl3 + mask, ctrl := ClearReset(e.ctrl)))
  }

  function EbDisable(e: Eb, mask: Bits): (Reply, Eb) {
    if !(mask <= ENABLE_BITS) then (Error, e)
    else (Ok, e.(ctrl3 := e.ctrl3 - mask, ctrl := SetReset(e.ctrl)))
  }

  function EbGo(e: Eb): Eb {
    e.(ctrl := ClearReset(e.ctrl))
  }

  function EbReset(e: Eb): Eb {
    e.(ctrl := SetReset(e.ctrl))
  }

  function EbioReset(e: Eb, mode: int): Eb {
    e.(udp := mode != 0)
  }

  function Logged(e: Eb, message: seq<Word>): Eb {
    e.(log := e.log + [Entry(e.ctrl, e.ctrl3, e.open, message)])
  }

  /** `connect` is 0 to close, 1 to open TCP, 2 to open UDP. */
  function TcpConnect(e: Eb, inst: int, connect: int, cdata: seq<Word>): (Reply, Eb) {
    if !ValidInst(inst) then (Error, e)
    else if connect > 0 then
      var o := e.(ctrl := ClearReset(SetReset(e.ctrl)),
                  ctrl3 := PortBits(inst) + (e.ctrl3 - AFIFO_MASK),
                  open := e.open + {inst});
      (Ok, if cdata == [] then o else Logged(o, cdata))
    else
      (Ok, e.(ctrl := RESET_BIT, open := e.open - {inst}))
  }

  function EvioWriteControl(e: Eb, inst: int, kind: Word, val0: Word, val1: Word): (Reply, Eb) {
    if !ValidInst(inst) then (Error, e)
    else
      var p := e.(ctrl3 := PortBits(inst) + (e.ctrl3 - AFIFO_MASK));
      (Ok, Logged(p, EvioWriter.ControlMessage(e.udp, e.rocId, kind, val0, val1)))
  }

  // ---------------------------------------------------------------- the routines as methods

  class Builder {
    var ctrl: Word
    var ctrl3: Bits
    var rocId: Word
    var ppCfg: PortWords
    var udp: bool
    var open: set<int>
    var log: seq<Entry>

    ghost function View(): Eb
      reads this
    {
      Eb(ctrl, ctrl3, rocId, ppCfg, udp, open, log)
    }

    method SetCfg(mask: int, nstreams: int, frameLen: int, newRocId: int, ports: Option<PortStreams>)
      modifies this
      ensures View() == SetEbCfg(old(View()), mask, nstreams, frameLen, newRocId, ports)
    {
      var n := if nstreams <= 0 then 1 else nstreams;
      var len := Div32(frameLen + 31);
      len := len * 32;
      len := len - 1;
      len := Clamp(len, 1024, 65535);
      rocId := Clamp(newRocId, 0, 127);
      n := Clamp(n, 1, 4);
      ctrl := RESET_BIT + len / 32 * 0x1_0000 + mask % 0x1_0000;
      ctrl3 := CMSG_HDR_EN + StreamBits(n);
      if ports.Some? {
        ghost var before := ppCfg;
        for ii := 0 to 16
          invariant View() == old(View()).(ctrl := ctrl, rocId := rocId, ctrl3 := ctrl3, ppCfg := ppCfg)
          invariant ctrl == RESET_BIT + len / 32 * 0x1_0000 + mask % 0x1_0000
          invariant rocId == Clamp(newRocId, 0, 127) && ctrl3 == CMSG_HDR_EN + StreamBits(nstreams)
          invariant forall i :: 0 <= i < 16 ==>
            ppCfg[i] == if i < ii then PortConfig(before, mask, ports)[i] else before[i]
        {
          if PayloadBits.Bit(mask % 0x1_0000, ii) {
            ppCfg := ppCfg[ii := StreamField(ports.value[ii])];
          }
        }
        assert ppCfg == PortConfig(before, mask, ports);
      } else {
        assert ppCfg == PortConfig(ppCfg, mask, ports);
      }
    }

    method Enable(mask: Bits) returns (r: Reply)
      modifies this
      ensures (r, View()) == EbEnable(old(View()), mask)
    {
      if !(mask <= ENABLE_BITS) {
        return Error;
      }
      ctrl3 := ctrl3 + mask;
      ctrl := ClearReset(ctrl);
      r := Ok;
    }

    method Disable(mask: Bits) returns (r: Reply)
      modifies this
      ensures (r, View()) == EbDisable(old(View()), mask)
    {
      if !(mask <= ENABLE_BITS) {
        return Error;
      }
      ctrl3 := ctrl3 - mask;
      ctrl := SetReset(ctrl);
      r := Ok;
    }

    method Go()
      modifies this
      ensures View() == EbGo(old(View()))
    {
      ctrl := ClearReset(ctrl);
    }

    method Reset()
      modifies this
      ensures View() == EbReset(old(View()))
    {
      ctrl := SetReset(ctrl);
    }

    method SetMode(mode: int)
      modifies this
      ensures View() == EbioReset(old(View()), mode)
    {
      udp := mode != 0;
    }

    method Connect(inst: int, connect: int, cdata: seq<Word>) returns (r: Reply)
      modifies this
      ensures (r, View()) == TcpConnect(old(View()), inst, connect, cdata)
    {
      if inst < 0 || inst > 3 {
        return Error;
      }
      if connect > 0 {
        var temp := ctrl3 - AFIFO_MASK;
        ctrl := SetReset(ctrl);
        ctrl := ClearReset(ctrl);
        ctrl3 := PortBits(inst) + temp;
        open := open + {inst};
        if |cdata| != 0 {
          log := log + [Entry(ctrl, ctrl3, open, cdata)];
        }
      } else {
        ctrl := RESET_BIT;
        open := open - {inst};
      }
      r := Ok;
    }

    method WriteControl(inst: int, kind: Word, val0: Word, val1: Word) returns (r: Reply)
      modifies this
      ensures (r, View()) == EvioWriteControl(old(View()), inst, kind, val0, val1)
    {
      if inst < 0 || inst > 3 {
        return Error;
      }
      var temp := ctrl3 - AFIFO_MASK;
      ctrl3 := PortBits(inst) + temp;
      log := log + [Entry(ctrl, ctrl3, open, EvioWriter.ControlMessage(udp, rocId, kind, val0, val1))];
      r := Ok;
    }
  }

  // ---------------------------------------------------------------- what every sequence keeps

  datatype Op =
    | Enable(mask: Bits)
    | Disable(mask: Bits)
    | Go
    | Reset
    | Open(inst: int, udp: bool, cdata: seq<Word>)
    | Close(inst: int)
    | Control(inst: int, kind: Word, val0: Word, val1: Word)

  function Apply(e: Eb, op: Op): Eb {
    match op
    case Enable(mask) => EbEnable(e, mask).1
    case Disable(mask) => EbDisable(e, mask).1
    case Go => EbGo(e)
    case Reset => EbReset(e)
    case Open(inst, udp, cdata) => TcpConnect(e, inst, if udp then 2 else 1, cdata).1
    case Close(inst) => TcpConnect(e, inst, 0, []).1
    case Control(inst, kind, val0, val1) => EvioWriteControl(e, inst, kind, val0, val1).1
  }

  function ApplyAll(e: Eb, ops: seq<Op>): Eb
    decreases |ops|
  {
    if ops == [] then e else Apply(ApplyAll(e, ops[..|ops| - 1]), ops[|ops| - 1])
  }

  /** The instance last addressed by an open or a control write that was not refused. */
  function Addressed(ops: seq<Op>): (inst: int)
    ensures ValidInst(inst)
    decreases |ops|
  {
    if ops == [] then 0
    else
      var op := ops[|ops| - 1];
      if (op.Open? || op.Control?) && ValidInst(op.inst) then op.inst
      else Addressed(ops[..|ops| - 1])
  }

  predicate NoClose(ops: seq<Op>) {
    forall i :: 0 <= i < |ops| ==> !(ops[i].Close? && ValidInst(ops[i].inst))
  }

  lemma FieldsKept(e: Eb, op: Op)
    ensures var f := Apply(e, op);
            && f.ctrl3 * STREAM_MASK == e.ctrl3 * STREAM_MASK
            && (if (op.Open? || op.Control?) && ValidInst(op.inst)
                then f.ctrl3 * AFIFO_MASK == PortBits(op.inst)
                else f.ctrl3 * AFIFO_MASK == e.ctrl3 * AFIFO_MASK)
            && (!(op.Close? && ValidInst(op.inst)) ==> f.ctrl % RESET_BIT == e.ctrl % RESET_BIT)
            && f.ppCfg == e.ppCfg && f.rocId == e.rocId
  {
  }

  lemma {:induction false} SequenceKeeps(e: Eb, ops: seq<Op>)
    requires e.ctrl3 * AFIFO_MASK == PortBits(Addressed([]))
    ensures var f := ApplyAll(e, ops);
            && f.ctrl3 * STREAM_MASK == e.ctrl3 * STREAM_MASK
            && f.ctrl3 * AFIFO_MASK == PortBits(Addressed(ops))
            && (NoClose(ops) ==> f.ctrl % RESET_BIT == e.ctrl % RESET_BIT)
            && f.ppCfg == e.ppCfg && f.rocId == e.rocId
    decreases |ops|
  {
    if ops != [] {
      var init := ops[..|ops| - 1];
      SequenceKeeps(e, init);
      assert NoClose(ops) ==> NoClose(init);
      FieldsKept(ApplyAll(e, init), ops[|ops| - 1]);
    }
  }

  /** The number in bits `lo` to `lo + 2` of a register. */
  function Field3(r: Bits, lo: nat): nat {
    (if lo in r then 1 else 0) + (if lo + 1 in r then 2 else 0) + (if lo + 2 in r then 4 else 0)
  }

  /** And in two bits. */
  function Field2(r: Bits, lo: nat): nat {
    (if lo in r then 1 else 0) + (if lo + 1 in r then 2 else 0)
  }

  lemma StreamNumber(r: Bits, nstreams: int)
    requires r * STREAM_MASK == StreamBits(nstreams)
    ensures Field3(r, 0) == Clamp(nstreams, 1, 4)
  {
    assert forall b :: b in {0, 1, 2} ==> (b in r <==> b in r * STREAM_MASK);
  }

  lemma PortNumber(r: Bits, inst: int)
    requires ValidInst(inst) && r * AFIFO_MASK == PortBits(inst)
    ensures Field2(r, 4) == inst
  {
    assert forall b :: b in {4, 5} ==> (b in r <==> b in r * AFIFO_MASK);
  }

  /** After configuration no sequence of calls disturbs the stream count, the async port is the
      instance last addressed, the ports in the mask keep their streams, and until a socket is closed
      Ctrl keeps its mask and frame field. */
  lemma RegistersKept(
    e: Eb, mask: int, nstreams: int, frameLen: int, rocId: int, ports: Option<PortStreams>, ops: seq<Op>)
    ensures var f := ApplyAll(SetEbCfg(e, mask, nstreams, frameLen, rocId, ports), ops);
            && Field3(f.ctrl3, 0) == Clamp(nstreams, 1, 4) && Field2(f.ctrl3, 4) == Addressed(ops)
            && f.rocId == Clamp(rocId, 0, 127)
            && (NoClose(ops) ==>
                  && f.ctrl % 0x1_0000 == mask % 0x1_0000
                  && f.ctrl / 0x1_0000 % 0x4000 == FrameField(frameLen))
            && forall i: nat :: i < 16 ==>
                 f.ppCfg[i] == if ports.Some? && PayloadBits.Bit(mask % 0x1_0000, i)
                               then (ports.value[i] + 3) % 4 * 0x4000_0000
                               else e.ppCfg[i]
  {
    var g := SetEbCfg(e, mask, nstreams, frameLen, rocId, ports);
    SequenceKeeps(g, ops);
    StreamNumber(ApplyAll(g, ops).ctrl3, nstreams);
    PortNumber(ApplyAll(g, ops).ctrl3, Addressed(ops));
    CtrlFields(mask % 0x1_0000, FrameField(frameLen), ApplyAll(g, ops).ctrl);
  }

  // ---------------------------------------------------------------- what the last calls decided

  /** The bits the enable and disable calls accept: cMsg headers, async FIFO, streams and EJFAT. */
  predicate Legal(mask: Bits) {
    forall b :: b in mask ==> b == 3 || 6 <= b <= 8
  }

  /** The builder is held in reset: the last call that decides it was a disable, a reset or a close. */
  predicate Held(ops: seq<Op>)
    decreases |ops|
  {
    if ops == [] then true
    else
      match ops[|ops| - 1]
      case Enable(mask) => !Legal(mask) && Held(ops[..|ops| - 1])
      case Disable(mask) => Legal(mask) || Held(ops[..|ops| - 1])
      case Go => false
      case Reset => true
      case Open(inst, _, _) => !(0 <= inst < 4) && Held(ops[..|ops| - 1])
      case Close(inst) => 0 <= inst < 4 || Held(ops[..|ops| - 1])
      case Control(_, _, _, _) => Held(ops[..|ops| - 1])
  }

  /** Bit `b` is on: the last accepted enable or disable that names it enabled it; only the cMsg
      headers are on to begin with. */
  predicate On(ops: seq<Op>, b: nat)
    decreases |ops|
  {
    if ops == [] then b == 3
    else
      match ops[|ops| - 1]
      case Enable(mask) => (Legal(mask) && b in mask) || On(ops[..|ops| - 1], b)
      case Disable(mask) => !(Legal(mask) && b in mask) && On(ops[..|ops| - 1], b)
      case _ => On(ops[..|ops| - 1], b)
  }

  /** Instance `inst` is connected: the last open or close of it was an open. */
  predicate Connected(ops: seq<Op>, before: bool, inst: int)
    decreases |ops|
  {
    if ops == [] then before
    else
      match ops[|ops| - 1]
      case Open(i, _, _) => (i == inst && 0 <= i < 4) || Connected(ops[..|ops| - 1], before, inst)
      case Close(i) => !(i == inst && 0 <= i < 4) && Connected(ops[..|ops| - 1], before, inst)
      case _ => Connected(ops[..|ops| - 1], before, inst)
  }

  lemma LegalIs(mask: Bits)
    ensures Legal(mask) <==> mask <= ENABLE_BITS
  {
  }

  /** The same registers read bit by bit: whatever the calls, reset, the enable bits and the
      connections are what the last call that decides each of them made of it. */
  lemma {:induction false} LastCallDecides(
    e: Eb, mask: int, nstreams: int, frameLen: int, rocId: int, ports: Option<PortStreams>, ops: seq<Op>)
    ensures var f := ApplyAll(SetEbCfg(e, mask, nstreams, frameLen, rocId, ports), ops);
            && (f.ctrl >= 0x8000_0000 <==> Held(ops))
            && (forall b: nat :: b == 3 || 6 <= b <= 8 ==> (b in f.ctrl3 <==> On(ops, b)))
            && (forall inst :: inst in f.open <==> Connected(ops, inst in e.open, inst))
    decreases |ops|
  {
    if ops != [] {
      var init, op := ops[..|ops| - 1], ops[|ops| - 1];
      LastCallDecides(e, mask, nstreams, frameLen, rocId, ports, init);
      if op.Enable? || op.Disable? {
        LegalIs(op.mask);
      }
    }
  }

  lemma CtrlFields(mask: int, field: int, ctrl: Word)
    requires 0 <= mask < 0x1_0000 && 0 <= field < 0x4000
    ensures ctrl % RESET_BIT == field * 0x1_0000 + mask ==>
              ctrl % 0x1_0000 == mask && ctrl / 0x1_0000 % 0x4000 == field
  {
  }

  /** The field really is the rounded and clamped frame length. */
  lemma FrameLengthClamped(frameLen: int)
    ensures FrameField(frameLen) + 1
         == Clamp(if frameLen <= 0 then 0 else (frameLen + 31) / 32, 33, 2048)
  {
  }
}
