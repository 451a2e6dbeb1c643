/**
 The clock chip's paged registers.  The driver keeps the number of the selected page and skips
 the page write when it thinks the page is already selected.
 */
module PageCache {
  import opened Bytes
  import opened Options

  /** A register is a page and an address in it; address 0x01 is the page register on every page. */
  datatype Reg = Reg(page: Byte, low: Byte)

  const PAGE_ADDRESS: Byte := 0x01
  const RESET_REG := Reg(0x00, 0x1E)
  const SOFT_RESET_REG := Reg(0x00, 0x1C)
  const HARD_RESET: Byte := 2
  const SOFT_RESET: Byte := 1
  const SYNC: Byte := 4

  type Registers = map<Reg, Byte>

  datatype Device = Device(page: Byte, regs: Registers)

  function ValueOf(regs: Registers, r: Reg): Byte {
    if r in regs then regs[r] else 0
  }

  /** A write that sets the hard-reset bit. */
  predicate Resets(r: Reg, data: Byte) {
    r == RESET_REG && data / 2 % 2 == 1
  }

  /** si5341_write on the chip: to the page register, the hard-reset bit, or a plain register of
      the selected page.  A hard reset restores the power-on registers and selects page 0. */
  function DeviceWrite(d: Device, powerOn: Registers, low: Byte, data: Byte): Device {
    if low == PAGE_ADDRESS then d.(page := data)
    else if Resets(Reg(d.page, low), data) then Device(0, powerOn)
    else d.(regs := d.regs[Reg(d.page, low) := data])
  }

  function DeviceRead(d: Device, low: Byte): Byte {
    if low == PAGE_ADDRESS then d.page else ValueOf(d.regs, Reg(d.page, low))
  }

  datatype Op = Write(r: Reg, data: Byte) | ReadBack(r: Reg)

  /** The access itself, once the page is selected. */
  function Access(d: Device, powerOn: Registers, op: Op): (Device, Option<Byte>) {
    match op
    case Write(r, data) => (DeviceWrite(d, powerOn, r.low, data), None)
    case ReadBack(r) => (d, Some(DeviceRead(d, r.low)))
  }

  /** Reference: select the page every time. */
  function Direct(d: Device, powerOn: Registers, op: Op): (Device, Option<Byte>) {
    Access(DeviceWrite(d, powerOn, PAGE_ADDRESS, op.r.page), powerOn, op)
  }

  /** The driver: the chip and the remembered page, -1 before the first access. */
  datatype Driver = Driver(device: Device, current: int)

  function SetPage(s: Driver, powerOn: Registers, page: Byte): Driver {
    if s.current != page then Driver(DeviceWrite(s.device, powerOn, PAGE_ADDRESS, page), page) else s
  }

  function Cached(s: Driver, powerOn: Registers, op: Op): (Driver, Option<Byte>) {
    var selected := SetPage(s, powerOn, op.r.page);
    var (d, value) := Access(selected.device, powerOn, op);
    (selected.(device := d), value)
  }

  function DirectAll(d: Device, powerOn: Registers, ops: seq<Op>): (Device, seq<Option<Byte>>)
    decreases |ops|
  {
    if ops == [] then (d, [])
    else
      var (before, values) := DirectAll(d, powerOn, ops[..|ops| - 1]);
      var (after, value) := Direct(before, powerOn, ops[|ops| - 1]);
      (after, values + [value])
  }

  function CachedAll(s: Driver, powerOn: Registers, ops: seq<Op>): (Driver, seq<Option<Byte>>)
    decreases |ops|
  {
    if ops == [] then (s, [])
    else
      var (before, values) := CachedAll(s, powerOn, ops[..|ops| - 1]);
      var (after, value) := Cached(before, powerOn, ops[|ops| - 1]);
      (after, values + [value])
  }

  // ---------------------------------------------------------------- the driver

  class Si5341 {
    var device: Device
    var currentPage: int
    const powerOn: Registers

    ghost function View(): Driver
      reads this
    {
      Driver(device, currentPage)
    }

    constructor (device: Device, powerOn: Registers)
      ensures View() == Driver(device, -1) && this.powerOn == powerOn
    {
      this.device := device;
      this.powerOn := powerOn;
      currentPage := -1;
    }

    method SelectPage(page: Byte)
      modifies this
      ensures View() == SetPage(old(View()), powerOn, page)
    {
      if currentPage != page {
        device := DeviceWrite(device, powerOn, PAGE_ADDRESS, page);
        currentPage := page;
      }
    }

    method WriteReg(r: Reg, data: Byte)
      modifies this
      ensures View() == Cached(old(View()), powerOn, Write(r, data)).0
    {
      SelectPage(r.page);
      device := DeviceWrite(device, powerOn, r.low, data);
    }

    method ReadReg(r: Reg) returns (data: Byte)
      modifies this
      ensures (View(), Some(data)) == Cached(old(View()), powerOn, ReadBack(r))
    {
      SelectPage(r.page);
      data := DeviceRead(device, r.low);
    }

    /** si5341_configure; `table` is None for an unknown clock source, which is reported as an
        error after the two resets. */
    method Configure(table: Option<seq<(Reg, Byte)>>) returns (ok: bool)
      modifies this
      ensures ok == table.Some?
      ensures View() == CachedAll(old(View()), powerOn, ConfigureOps(table)).0
    {
      ghost var start := View();
      assert ConfigureOps(None) == [Write(RESET_REG, HARD_RESET), Write(SOFT_RESET_REG, SOFT_RESET)];
      WriteReg(RESET_REG, HARD_RESET);
      WriteReg(SOFT_RESET_REG, SOFT_RESET);
      TwoOps(start, powerOn, Write(RESET_REG, HARD_RESET), Write(SOFT_RESET_REG, SOFT_RESET));
      if table.None? {
        return false;
      }
      assert ConfigureOps(None) + Writes(table.value[..0]) == ConfigureOps(None);
      for i := 0 to |table.value|
        invariant View() == CachedAll(start, powerOn, ConfigureOps(None) + Writes(table.value[..i])).0
      {
        WriteReg(table.value[i].0, table.value[i].1);
        WritesAppend(table.value, i);
        var (r, data) := table.value[i];
        OneMoreOp(start, powerOn, ConfigureOps(None) + Writes(table.value[..i]), Write(r, data));
        assert ConfigureOps(None) + Writes(table.value[..i]) + [Write(r, data)]
            == ConfigureOps(None) + Writes(table.value[..i + 1]);
      }
      WriteReg(RESET_REG, SYNC);
      assert table.value[..|table.value|] == table.value;
      OneMoreOp(start, powerOn, ConfigureOps(None) + Writes(table.value), Write(RESET_REG, SYNC));
      assert ConfigureOps(table) == ConfigureOps(None) + Writes(table.value) + [Write(RESET_REG, SYNC)];
      ok := true;
    }
  }

  function Writes(table: seq<(Reg, Byte)>): (ops: seq<Op>)
    ensures |ops| == |table|
  {
    seq(|table|, i requires 0 <= i < |table| => Write(table[i].0, table[i].1))
  }

  /** The accesses of a configuration: hard reset, soft reset, the table, sync. */
  function ConfigureOps(table: Option<seq<(Reg, Byte)>>): seq<Op> {
    [Write(RESET_REG, HARD_RESET), Write(SOFT_RESET_REG, SOFT_RESET)]
    + match table
      case None => []
      case Some(entries) => Writes(entries) + [Write(RESET_REG, SYNC)]
  }

  lemma OneMoreOp(s: Driver, powerOn: Registers, ops: seq<Op>, op: Op)
    ensures CachedAll(s, powerOn, ops + [op]).0 == Cached(CachedAll(s, powerOn, ops).0, powerOn, op).0
    ensures CachedAll(s, powerOn, ops + [op]).1
         == CachedAll(s, powerOn, ops).1 + [Cached(CachedAll(s, powerOn, ops).0, powerOn, op).1]
  {
    assert (ops + [op])[..|ops|] == ops;
  }

  lemma TwoOps(s: Driver, powerOn: Registers, a: Op, b: Op)
    ensures CachedAll(s, powerOn, [a, b]).0 == Cached(Cached(s, powerOn, a).0, powerOn, b).0
  {
    OneMoreOp(s, powerOn, [], a);
    OneMoreOp(s, powerOn, [a], b);
    assert [] + [a] == [a] && [a] + [b] == [a, b];
  }

  lemma WritesAppend(table: seq<(Reg, Byte)>, i: nat)
    requires i < |table|
    ensures Writes(table[..i + 1]) == Writes(table[..i]) + [Write(table[i].0, table[i].1)]
  {
  }

  // ---------------------------------------------------------------- cached refines direct

  ghost predicate Coherent(s: Driver) {
    s.current == -1 || s.current == s.device.page
  }

  /** A write to the page register behind the cache's back is harmless only if it writes the page
      already selected. */
  predicate Harmless(op: Op) {
    op.Write? && op.r.low == PAGE_ADDRESS ==> op.data == op.r.page
  }

  /** From a coherent state one cached access does what the direct one does, and the cache stays
      coherent exactly when the access is harmless; hard resets included. */
  lemma StepRefines(s: Driver, powerOn: Registers, op: Op)
    requires Coherent(s)
    ensures var ((after, value), (device, direct)) := (Cached(s, powerOn, op), Direct(s.device, powerOn, op));
            && after.device == device && value == direct
            && (Coherent(after) <==> Harmless(op))
  {
  }

  /** Cached access refines direct access: same chip, same values read, over any sequence. */
  lemma {:induction false} CacheRefinesDirect(s: Driver, powerOn: Registers, ops: seq<Op>)
    requires Coherent(s) && forall i :: 0 <= i < |ops| ==> Harmless(ops[i])
    ensures var ((after, values), (device, direct)) := (CachedAll(s, powerOn, ops), DirectAll(s.device, powerOn, ops));
            after.device == device && values == direct && Coherent(after)
    decreases |ops|
  {
    if ops != [] {
      CacheRefinesDirect(s, powerOn, ops[..|ops| - 1]);
      StepRefines(CachedAll(s, powerOn, ops[..|ops| - 1]).0, powerOn, ops[|ops| - 1]);
    }
  }

  /** After harmless accesses and one more, every next access agrees with direct access if and
      only if that one was harmless: reading the page register back tells the difference. */
  lemma AgreementIff(s: Driver, powerOn: Registers, ops: seq<Op>, op: Op)
    requires Coherent(s) && forall i :: 0 <= i < |ops| ==> Harmless(ops[i])
    ensures (forall next: Op ::
               Cached(CachedAll(s, powerOn, ops + [op]).0, powerOn, next).1
               == Direct(DirectAll(s.device, powerOn, ops + [op]).0, powerOn, next).1)
       <==> Harmless(op)
  {
    CacheRefinesDirect(s, powerOn, ops);
    var before := CachedAll(s, powerOn, ops).0;
    StepRefines(before, powerOn, op);
    OneMoreOp(s, powerOn, ops, op);
    assert (ops + [op])[..|ops|] == ops;
    var after := CachedAll(s, powerOn, ops + [op]).0;
    assert after.device == DirectAll(s.device, powerOn, ops + [op]).0;
    if Harmless(op) {
      forall next: Op ensures Cached(after, powerOn, next).1 == Direct(after.device, powerOn, next).1 {
        StepRefines(after, powerOn, next);
      }
    } else {
      var probe := ReadBack(Reg(op.r.page, PAGE_ADDRESS));
      assert Cached(after, powerOn, probe).1 != Direct(after.device, powerOn, probe).1;
    }
  }

  // ---------------------------------------------------------------- the configured chip

  /** An ordinary register write: neither the page register nor the hard-reset bit. */
  predicate Plain(r: Reg, data: Byte) {
    r.low != PAGE_ADDRESS && !Resets(r, data)
  }

  /** The last value a table has for a register. */
  function LastWrite(table: seq<(Reg, Byte)>, r: Reg): Option<Byte>
    decreases |table|
  {
    if table == [] then None
    else if table[|table| - 1].0 == r then Some(table[|table| - 1].1)
    else LastWrite(table[..|table| - 1], r)
  }

  lemma {:induction false} DirectAppend(d: Device, powerOn: Registers, a: seq<Op>, b: seq<Op>)
    ensures DirectAll(d, powerOn, a + b).0 == DirectAll(DirectAll(d, powerOn, a).0, powerOn, b).0
    decreases |b|
  {
    if b == [] {
      assert a + b == a;
    } else {
      DirectAppend(d, powerOn, a, b[..|b| - 1]);
      assert (a + b)[..|a + b| - 1] == a + b[..|b| - 1];
    }
  }

  /** Plain writes: the last one to each register wins and the others keep their value. */
  lemma {:induction false} TableLastWins(d: Device, powerOn: Registers, table: seq<(Reg, Byte)>, r: Reg)
    requires forall i :: 0 <= i < |table| ==> Plain(table[i].0, table[i].1)
    ensures ValueOf(DirectAll(d, powerOn, Writes(table)).0.regs, r)
         == match LastWrite(table, r) case Some(v) => v case None => ValueOf(d.regs, r)
    decreases |table|
  {
    if table != [] {
      var n := |table| - 1;
      TableLastWins(d, powerOn, table[..n], r);
      WritesAppend(table, n);
      assert table[..n + 1] == table;
      assert Writes(table)[..n] == Writes(table[..n]);
      assert Plain(table[n].0, table[n].1);
    }
  }

  /** What every configuration leaves in the chip, through the cache and from any coherent start:
      the sync command in the reset register, and in every other register the table's last entry,
      or what the soft reset wrote, or the power-on value. */
  lemma ConfiguredChip(s: Driver, powerOn: Registers, table: seq<(Reg, Byte)>, r: Reg)
    requires Coherent(s) && forall i :: 0 <= i < |table| ==> Plain(table[i].0, table[i].1)
    ensures var d := CachedAll(s, powerOn, ConfigureOps(Some(table))).0.device;
            ValueOf(d.regs, r) ==
              if r == RESET_REG then SYNC
              else match LastWrite(table, r)
                   case Some(v) => v
                   case None => if r == SOFT_RESET_REG then SOFT_RESET else ValueOf(powerOn, r)
  {
    var ops := ConfigureOps(Some(table));
    forall i | 0 <= i < |ops| ensures Harmless(ops[i]) {
      if 2 <= i < |ops| - 1 {
        assert ops[i] == Writes(table)[i - 2];
        assert Plain(table[i - 2].0, table[i - 2].1);
      }
    }
    CacheRefinesDirect(s, powerOn, ops);
    var resets := [Write(RESET_REG, HARD_RESET), Write(SOFT_RESET_REG, SOFT_RESET)];
    AfterResets(s.device, powerOn);
    var d0 := DirectAll(s.device, powerOn, resets).0;
    DirectAppend(s.device, powerOn, resets, Writes(table));
    TableLastWins(d0, powerOn, table, r);
    assert ops[..|ops| - 1] == resets + Writes(table);
  }

  /** The two resets leave the power-on registers with page 0 selected, and the soft-reset command
      in its register. */
  lemma AfterResets(d: Device, powerOn: Registers)
    ensures DirectAll(d, powerOn, [Write(RESET_REG, HARD_RESET), Write(SOFT_RESET_REG, SOFT_RESET)]).0
         == Device(0, powerOn[SOFT_RESET_REG := SOFT_RESET])
  {
    var a, b := Write(RESET_REG, HARD_RESET), Write(SOFT_RESET_REG, SOFT_RESET);
    assert [a, b][..1] == [a] && [a][..0] == [];
    assert DirectAll(d, powerOn, [a]).0 == Direct(DirectAll(d, powerOn, []).0, powerOn, a).0;
    assert DirectAll(d, powerOn, [a, b]).0 == Direct(DirectAll(d, powerOn, [a]).0, powerOn, b).0;
  }

  /** A 16-bit address: the page and the address in it. */
  function At(address: int): Reg
    requires 0 <= address < 0x1_0000
  {
    Reg(address / 256, address % 256)
  }

  /** The accesses of a configuration by their addresses: 2 to 0x1E, 1 to 0x1C, the table in order, and 4 to
      0x1E; without a table only the first two. */
  lemma ConfigureSteps(table: seq<(Reg, Byte)>)
    ensures ConfigureOps(None) == [Write(At(0x1E), 2), Write(At(0x1C), 1)]
    ensures var ops := ConfigureOps(Some(table));
            && |ops| == |table| + 3 && ops[0] == Write(At(0x1E), 2) && ops[1] == Write(At(0x1C), 1)
            && (forall i :: 0 <= i < |table| ==> ops[2 + i] == Write(table[i].0, table[i].1))
            && ops[|ops| - 1] == Write(At(0x1E), 4)
  {
  }

  /** The chip: address 1 of every page selects the page, bit 1 of 0x1E resets everything, and any other
      write sets the register of the selected page. */
  lemma ChipWrites(d: Device, powerOn: Registers, low: Byte, data: Byte)
    ensures var e := DeviceWrite(d, powerOn, low, data);
            if low == 1 then e == Device(data, d.regs)
            else if d.page == 0 && low == 0x1E && data / 2 % 2 == 1 then e == Device(0, powerOn)
            else
              && e.page == d.page && DeviceRead(e, low) == data
              && forall other: Byte :: other != low ==> DeviceRead(e, other) == DeviceRead(d, other)
  {
  }
}
