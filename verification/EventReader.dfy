/** The FIFO event readers `vtpEbReadEvent` and `vtpTiLinkReadEvent`: poll, pop, store, until the
    buffer is full, the end-of-event flag shows, or the retry budget is spent. */
module EventReader {
  import opened Bytes

  /** The status bits a reader looks at, and how many empty polls it forgives in all. */
  datatype Port = Port(emptyBit: nat, endBit: nat, retries: nat)

  const EB: Port := Port(0x2, 0x2_0000, 10000)
  const TI_LINK: Port := Port(0x1, 0x1_0000, 100)

  predicate Usable(p: Port) {
    p.emptyBit > 0 && p.endBit > 0
  }

  datatype Stop = Full | EndOfEvent | TimedOut

  /** How a read ended: words stored, the returned count, status polls made, and why. */
  datatype Outcome = Outcome(stored: nat, count: int, polls: nat, stop: Stop)

  predicate Empty(p: Port, status: Word)
    requires Usable(p)
  {
    status / p.emptyBit % 2 == 1
  }

  predicate Ends(p: Port, status: Word)
    requires Usable(p)
  {
    status / p.endBit % 2 == 1
  }

  /** The reader against a port whose `k`-th poll answers `status(k)`. */
  function Read(p: Port, status: nat -> Word, maxsize: nat, polls: nat, stored: nat, retry: nat): Outcome
    requires Usable(p) && stored <= maxsize
    decreases maxsize - stored, retry
  {
    if stored == maxsize then Outcome(stored, stored, polls, Full)
    else if Empty(p, status(polls)) then
      if retry > 0 then Read(p, status, maxsize, polls + 1, stored, retry - 1)
      else Outcome(stored, stored, polls + 1, TimedOut)
    else if Ends(p, status(polls)) then Outcome(stored + 1, stored, polls + 1, EndOfEvent)
    else Read(p, status, maxsize, polls + 1, stored + 1, retry)
  }

  /** The words popped first. */
  function Popped(fifo: nat -> Word, n: nat): (ws: seq<Word>)
    ensures |ws| == n
  {
    seq(n, k requires 0 <= k < n => fifo(k))
  }

  method ReadEvent(p: Port, status: nat -> Word, fifo: nat -> Word, buf: array<Word>, maxsize: nat)
    returns (cnt: int, ghost out: Outcome)
    requires Usable(p) && maxsize <= buf.Length
    modifies buf
    ensures out == Read(p, status, maxsize, 0, 0, p.retries)
    ensures cnt == out.count && out.stored <= maxsize
    ensures buf[..out.stored] == Popped(fifo, out.stored)
    ensures buf[out.stored..] == old(buf[out.stored..])
  {
    cnt := 0;
    var retry: int := p.retries;
    ghost var polls, stored := 0, 0;
    var poll := 0;
    while cnt < maxsize
      invariant 0 <= retry && cnt == stored <= maxsize && poll == polls
      invariant Read(p, status, maxsize, 0, 0, p.retries) == Read(p, status, maxsize, polls, stored, retry)
      invariant forall k :: 0 <= k < stored ==> buf[k] == fifo(k)
      invariant forall k :: stored <= k < buf.Length ==> buf[k] == old(buf[k])
      decreases maxsize - cnt, retry
    {
      var st := status(poll);
      poll := poll + 1;
      polls := polls + 1;
      if Empty(p, st) {
        if retry > 0 {
          retry := retry - 1;
          continue;
        }
        out := Outcome(stored, stored, polls, TimedOut);
        return;
      }
      buf[cnt] := fifo(cnt);
      stored := stored + 1;
      if Ends(p, st) {
        out := Outcome(stored, cnt, polls, EndOfEvent);
        return;
      }
      cnt := cnt + 1;
    }
    out := Outcome(stored, cnt, polls, Full);
  }

  /** How many of the `n` polls from `from` on found the FIFO empty. */
  function EmptyPolls(p: Port, status: nat -> Word, from: nat, n: nat): (count: nat)
    requires Usable(p)
    ensures count <= n
    decreases n
  {
    if n == 0 then 0
    else (if Empty(p, status(from)) then 1 else 0) + EmptyPolls(p, status, from + 1, n - 1)
  }

  lemma {:induction false} ReadFrom(p: Port, status: nat -> Word, maxsize: nat, polls: nat, stored: nat, retry: nat)
    requires Usable(p) && stored <= maxsize
    ensures var out := Read(p, status, maxsize, polls, stored, retry);
            && stored <= out.stored <= maxsize && polls <= out.polls
            && var empty := EmptyPolls(p, status, polls, out.polls - polls);
               && out.polls - polls == out.stored - stored + empty
               && (if out.stop.TimedOut? then empty == retry + 1 else empty <= retry)
    decreases maxsize - stored, retry
  {
    if stored < maxsize {
      if Empty(p, status(polls)) {
        if retry > 0 {
          ReadFrom(p, status, maxsize, polls + 1, stored, retry - 1);
        }
      } else if !Ends(p, status(polls)) {
        ReadFrom(p, status, maxsize, polls + 1, stored + 1, retry);
      }
    }
  }

  /** A poll that pops a word flagged as the last one. */
  predicate LastWord(p: Port, status: Word)
    requires Usable(p)
  {
    !Empty(p, status) && Ends(p, status)
  }

  lemma {:induction false} ReadStops(p: Port, status: nat -> Word, maxsize: nat, polls: nat, stored: nat, retry: nat)
    requires Usable(p) && stored <= maxsize
    ensures var out := Read(p, status, maxsize, polls, stored, retry);
            && polls <= out.polls
            && out.count == (if out.stop.EndOfEvent? then out.stored - 1 else out.stored)
            && (out.stop.Full? ==> out.stored == maxsize)
            && (out.stop.EndOfEvent? <==> polls < out.polls && LastWord(p, status(out.polls - 1)))
            && (forall k :: polls <= k < out.polls - 1 ==> !LastWord(p, status(k)))
    decreases maxsize - stored, retry
  {
    if stored < maxsize {
      if Empty(p, status(polls)) {
        if retry > 0 {
          ReadStops(p, status, maxsize, polls + 1, stored, retry - 1);
        }
      } else if !Ends(p, status(polls)) {
        ReadStops(p, status, maxsize, polls + 1, stored + 1, retry);
      }
    }
  }

  /** Whatever the status register says, a read stores at most `maxsize` words, polls once for each
      of them and for each time it found the FIFO empty, and gives up at the first empty poll past
      its budget.  It never reads past the end-of-event flag, and returns the number of words
      stored, less one exactly when it stopped there. */
  lemma ReaderBounds(p: Port, status: nat -> Word, maxsize: nat)
    requires Usable(p)
    ensures var out := Read(p, status, maxsize, 0, 0, p.retries);
            var empty := EmptyPolls(p, status, 0, out.polls);
            && out.stored <= maxsize && out.polls == out.stored + empty
            && empty <= p.retries + 1 && (out.stop.TimedOut? <==> empty == p.retries + 1)
            && (out.stop.Full? ==> out.stored == maxsize)
            && (out.count == out.stored - 1 <==> out.stop.EndOfEvent?)
            && (out.count == out.stored <==> !out.stop.EndOfEvent?)
            && (out.stop.EndOfEvent? <==> 0 < out.polls && LastWord(p, status(out.polls - 1)))
            && (forall k :: 0 <= k < out.polls - 1 ==> !LastWord(p, status(k)))
  {
    ReadFrom(p, status, maxsize, 0, 0, p.retries);
    ReadStops(p, status, maxsize, 0, 0, p.retries);
  }

  /** Not empty, and the end of an event. */
  predicate EbLast(status: Word) {
    status / 0x2 % 2 == 0 && status / 0x2_0000 % 2 == 1
  }

  predicate TiLast(status: Word) {
    status % 2 == 0 && status / 0x1_0000 % 2 == 1
  }

  /** The event builder's reader by its numbers: bit 1 of the status is empty, bit 17 the end of an event,
      and the first of 10001 empty polls ends the read. */
  lemma EbBounds(status: nat -> Word, maxsize: nat)
    ensures var out := Read(EB, status, maxsize, 0, 0, EB.retries);
            var empty := EmptyPolls(EB, status, 0, out.polls);
            && out.stored <= maxsize && out.polls == out.stored + empty
            && empty <= 10001 && (out.stop.TimedOut? <==> empty == 10001)
            && (out.count == out.stored - 1 <==> out.stop.EndOfEvent?)
            && (out.stop.EndOfEvent? <==> 0 < out.polls && EbLast(status(out.polls - 1)))
            && (forall k :: 0 <= k < out.polls - 1 ==> !EbLast(status(k)))
  {
    ReaderBounds(EB, status, maxsize);
    forall k | 0 <= k < Read(EB, status, maxsize, 0, 0, EB.retries).polls - 1
      ensures !EbLast(status(k))
    {
      assert !LastWord(EB, status(k));
    }
  }

  /** And the trigger link's: bits 0 and 16, and the first of 101. */
  lemma TiLinkBounds(status: nat -> Word, maxsize: nat)
    ensures var out := Read(TI_LINK, status, maxsize, 0, 0, TI_LINK.retries);
            var empty := EmptyPolls(TI_LINK, status, 0, out.polls);
            && out.stored <= maxsize && out.polls == out.stored + empty
            && empty <= 101 && (out.stop.TimedOut? <==> empty == 101)
            && (out.count == out.stored - 1 <==> out.stop.EndOfEvent?)
            && (out.stop.EndOfEvent? <==> 0 < out.polls && TiLast(status(out.polls - 1)))
            && (forall k :: 0 <= k < out.polls - 1 ==> !TiLast(status(k)))
  {
    ReaderBounds(TI_LINK, status, maxsize);
    forall k | 0 <= k < Read(TI_LINK, status, maxsize, 0, 0, TI_LINK.retries).polls - 1
      ensures !TiLast(status(k))
    {
      assert !LastWord(TI_LINK, status(k));
    }
  }
}
