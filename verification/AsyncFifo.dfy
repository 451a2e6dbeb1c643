/**
 The asynchronous-event port of the VTP: a 512-word data FIFO and a length FIFO that the
 CPU fills one register write at a time while the hardware drains them.

 The hardware is the environment.  A schedule says how many words it takes out just before
 each register access; quantifying over schedules quantifies over every interleaving.
 */
module AsyncFifo {

  import opened Bytes

  const DEPTH: nat := 512
  const FULL_BIT: nat := 0x8000_0000

  /** `schedule[t]` words are wanted by the hardware just before register access `t`;
      it takes what there is, and nothing once the schedule has run out. */
  type Schedule = seq<nat>

  /** `data` and `lens` are the histories of words and lengths the FIFOs accepted, `lost`
      counts the words written to a full data FIFO. */
  datatype Fifo = Fifo(level: nat, tick: nat, data: seq<Word>, lens: seq<Word>, lost: nat) {
    ghost predicate Valid() { level <= DEPTH }
  }

  function Drain(f: Fifo, schedule: Schedule): (g: Fifo)
    ensures g.level <= f.level && (f.level == 0 ==> g.level == 0)
  {
    var wanted := if f.tick < |schedule| then schedule[f.tick] else 0;
    f.(level := if wanted <= f.level then f.level - wanted else 0, tick := f.tick + 1)
  }

  /** A write to CpuAsyncEventData. */
  function PushWord(f: Fifo, schedule: Schedule, w: Word): Fifo {
    var g := Drain(f, schedule);
    if g.level < DEPTH then g.(level := g.level + 1, data := g.data + [w])
    else g.(lost := g.lost + 1)
  }

  /** A write to CpuAsyncEventLen. */
  function PushLen(f: Fifo, schedule: Schedule, n: Word): Fifo {
    var g := Drain(f, schedule);
    g.(lens := g.lens + [n])
  }

  /** CpuAsyncEventStatus: the level in the low bits, and the full flag. */
  function Status(f: Fifo): Word
    requires f.Valid()
  {
    f.level + if f.level == DEPTH then FULL_BIT else 0
  }

  predicate FullFlag(status: Word) {
    status / FULL_BIT % 2 == 1
  }

  /** The expression `status & 0x2ff`: bits 0 to 7 and bit 9. */
  function LevelField(status: Word): nat {
    status % 256 + status / 512 % 2 * 512
  }

  /** What the driver takes the level to be: right below 256 and at 512, short by 256 between. */
  lemma LevelFieldReading(f: Fifo)
    requires f.Valid()
    ensures FullFlag(Status(f)) <==> f.level == DEPTH
    ensures LevelField(Status(f)) == if 256 <= f.level < DEPTH then f.level - 256 else f.level
  {
  }

  /** Successive writes to the data register. */
  function PushAll(f: Fifo, schedule: Schedule, ws: seq<Word>): Fifo
    decreases |ws|
  {
    if ws == [] then f
    else PushWord(PushAll(f, schedule, ws[..|ws| - 1]), schedule, ws[|ws| - 1])
  }

  lemma {:induction false} PushAllAppend(f: Fifo, schedule: Schedule, a: seq<Word>, b: seq<Word>)
    ensures PushAll(f, schedule, a + b) == PushAll(PushAll(f, schedule, a), schedule, b)
    decreases |b|
  {
    if b == [] {
      assert a + b == a;
    } else {
      PushAllAppend(f, schedule, a, b[..|b| - 1]);
      assert (a + b)[..|a + b| - 1] == a + b[..|b| - 1];
    }
  }

  /** What any consumer leaves true: each word is accepted or counted as lost, and words that
      fit on top of the level found at the start are all accepted, in order. */
  lemma {:induction false} PushAllEffect(f: Fifo, schedule: Schedule, ws: seq<Word>)
    requires f.Valid()
    ensures var g := PushAll(f, schedule, ws);
            && g.Valid() && g.level <= f.level + |ws|
            && g.tick == f.tick + |ws| && g.lens == f.lens
            && f.lost <= g.lost && |g.data| + g.lost == |f.data| + f.lost + |ws|
            && (g.lost == f.lost ==> g.data == f.data + ws)
            && (f.level + |ws| <= DEPTH ==> g.lost == f.lost)
    decreases |ws|
  {
    if ws != [] {
      PushAllEffect(f, schedule, ws[..|ws| - 1]);
    }
  }

  /** With the hardware idle the level just rises, and everything beyond 512 is lost. */
  lemma {:induction false} PushAllIdle(f: Fifo, schedule: Schedule, ws: seq<Word>)
    requires f.Valid()
    requires forall t :: f.tick <= t < f.tick + |ws| && t < |schedule| ==> schedule[t] == 0
    ensures var g := PushAll(f, schedule, ws);
            && g.tick == f.tick + |ws|
            && g.level == (if f.level + |ws| <= DEPTH then f.level + |ws| else DEPTH)
            && g.lost == f.lost + (if f.level + |ws| <= DEPTH then 0 else f.level + |ws| - DEPTH)
    decreases |ws|
  {
    if ws != [] {
      PushAllIdle(f, schedule, ws[..|ws| - 1]);
    }
  }
}
