/**
 The stats sender's view of the frame counter: a 32-bit register that wraps, sampled about once
 a second and extended to 64 bits.
 */
module FrameCounter {
  import opened Bytes

  /** The register shows the low 32 bits of the true frame count. */
  function Low(count: nat): Word {
    count % 0x1_0000_0000
  }

  datatype Tracker = Tracker(prevLow: Word, prevExt: nat)

  /** What goes into one sync packet, and the frame difference behind its rate. */
  datatype Sample = Sample(ext: nat, frames: nat, nanos: nat)

  function Start(count: nat): Tracker {
    Tracker(Low(count), Low(count))
  }

  /** `prev + (1 << 32)` in 64 bits. */
  function Bumped(prevExt: nat): nat {
    (prevExt + 0x1_0000_0000) % 0x1_0000_0000_0000_0000
  }

  /** The high half of one value over the low half of the other. */
  function Joined(prevExt: nat, cur: Word): nat {
    prevExt / 0x1_0000_0000 * 0x1_0000_0000 + cur
  }

  function Nanos(ext: nat): nat {
    ext * 65535 % 0x1_0000_0000_0000_0000
  }

  /** One pass of the loop. */
  function Advance(k: Tracker, cur: Word): (Tracker, Sample) {
    var prevExt := if cur < k.prevLow then Bumped(k.prevExt) else k.prevExt;
    var ext := Joined(prevExt, cur);
    var frames := if ext >= prevExt then ext - prevExt else 0;
    (Tracker(cur, ext), Sample(ext, frames, Nanos(ext)))
  }

  /** The samples at the counts `counts`, from tracker `k` on. */
  function Track(k: Tracker, counts: seq<nat>): (samples: seq<Sample>)
    ensures |samples| == |counts|
    decreases |counts|
  {
    if counts == [] then []
    else
      var (after, sample) := Advance(k, Low(counts[0]));
      [sample] + Track(after, counts[1..])
  }

  /** The body of the loop: detect a wrap, extend, and take the difference. */
  method OneSample(prevLow: Word, prevExt0: nat, cur: Word) returns (k: Tracker, sample: Sample)
    ensures (k, sample) == Advance(Tracker(prevLow, prevExt0), cur)
  {
    var prevExt := prevExt0;
    if cur < prevLow {
      prevExt := Bumped(prevExt);
    }
    var ext := Joined(prevExt, cur);
    var frames := if ext >= prevExt then ext - prevExt else 0;
    sample := Sample(ext, frames, Nanos(ext));
    k := Tracker(cur, ext);
  }

  /** The sender's loop: `first` is the count when it starts, `counts` the ones it then samples. */
  method SenderLoop(first: nat, counts: seq<nat>) returns (samples: seq<Sample>)
    ensures samples == Track(Start(first), counts)
  {
    var k := Start(first);
    samples := [];
    for i := 0 to |counts|
      invariant samples + Track(k, counts[i..]) == Track(Start(first), counts)
    {
      assert counts[i..][1..] == counts[i + 1..];
      var cur := Low(counts[i]);
      var after, sample := OneSample(k.prevLow, k.prevExt, cur);
      k, samples := after, samples + [sample];
    }
  }

  // ---------------------------------------------------------------- the extension is right

  predicate Rising(from: nat, counts: seq<nat>)
    decreases |counts|
  {
    counts != [] ==> from <= counts[0] && Rising(counts[0], counts[1..])
  }

  /** Fewer than 2^32 frames between samples. */
  predicate SmallGaps(from: nat, counts: seq<nat>)
    decreases |counts|
  {
    counts != [] ==> counts[0] < from + 0x1_0000_0000 && SmallGaps(counts[0], counts[1..])
  }

  /** `base` is a multiple of 2^32 at or below `from`. */
  predicate BaseOf(base: nat, from: nat) {
    base % 0x1_0000_0000 == 0 && base <= from
  }

  /** The counts stay below `limit` frames past the base. */
  predicate Below(base: nat, counts: seq<nat>, limit: nat) {
    forall i :: 0 <= i < |counts| ==> counts[i] < base + limit
  }

  /** The tracker holds the true count `from` less `base`. */
  predicate Exact(k: Tracker, from: nat, base: nat) {
    base <= from && k == Tracker(Low(from), from - base)
  }

  lemma SplitCount(count: nat, base: nat)
    requires BaseOf(base, count)
    ensures Low(count) == (count - base) % 0x1_0000_0000
  {
    var b := base / 0x1_0000_0000;
    assert count - base == count - b * 0x1_0000_0000;
  }

  /** One step from a right value: right again exactly when the gap was small. */
  lemma AdvanceExact(k: Tracker, from: nat, to: nat, base: nat)
    requires BaseOf(base, from) && from <= to < base + 0x1_0000_0000_0000_0000 && Exact(k, from, base)
    ensures var (after, s) := Advance(k, Low(to));
            && (s.ext == to - base <==> to < from + 0x1_0000_0000)
            && (to < from + 0x1_0000_0000 ==>
                  && Exact(after, to, base)
                  && s.frames == (if Low(to) < Low(from) then 0 else to - from))
  {
    SplitCount(from, base);
    SplitCount(to, base);
    AdvanceBy(from - base, to - base);
  }

  lemma JoinedHalves(q: nat, x: Word, cur: Word)
    ensures Joined(q * 0x1_0000_0000 + x, cur) == q * 0x1_0000_0000 + cur
  {
    assert (q * 0x1_0000_0000 + x) / 0x1_0000_0000 == q;
  }

  lemma BumpedHalves(q: nat, x: Word)
    requires (q + 1) * 0x1_0000_0000 + x < 0x1_0000_0000_0000_0000
    ensures Bumped(q * 0x1_0000_0000 + x) == (q + 1) * 0x1_0000_0000 + x
  {
  }

  /** The same with the base taken off, the counts as halves `q`, `r` and `q'`, `r'`. */
  lemma AdvanceHalves(q: nat, r: Word, q': nat, r': Word)
    requires q * 0x1_0000_0000 + r <= q' * 0x1_0000_0000 + r' < 0x1_0000_0000_0000_0000
    ensures var f, t := q * 0x1_0000_0000 + r, q' * 0x1_0000_0000 + r';
            var (after, s) := Advance(Tracker(r, f), r');
            && (s.ext == t <==> t - f < 0x1_0000_0000)
            && after == Tracker(r', s.ext)
            && (t - f < 0x1_0000_0000 ==> s.frames == if r' < r then 0 else t - f)
  {
    if r' < r {
      BumpedHalves(q, r);
      JoinedHalves(q + 1, r, r');
    } else {
      JoinedHalves(q, r, r');
    }
  }

  lemma AdvanceBy(f: nat, t: nat)
    requires f <= t < 0x1_0000_0000_0000_0000
    ensures var (after, s) := Advance(Tracker(f % 0x1_0000_0000, f), t % 0x1_0000_0000);
            && (s.ext == t <==> t - f < 0x1_0000_0000)
            && after == Tracker(t % 0x1_0000_0000, s.ext)
            && (t - f < 0x1_0000_0000 ==> s.frames == if t % 0x1_0000_0000 < f % 0x1_0000_0000 then 0 else t - f)
  {
    AdvanceHalves(f / 0x1_0000_0000, f % 0x1_0000_0000, t / 0x1_0000_0000, t % 0x1_0000_0000);
  }

  /** Every extended count is the true count less the multiple of 2^32 the sender started in, if
      and only if fewer than 2^32 frames pass between samples. */
  lemma {:induction false} ExtensionIff(k: Tracker, from: nat, base: nat, counts: seq<nat>)
    requires BaseOf(base, from) && Exact(k, from, base)
    requires Rising(from, counts) && Below(base, counts, 0x1_0000_0000_0000_0000)
    ensures (forall i :: 0 <= i < |counts| ==> Track(k, counts)[i].ext == counts[i] - base)
       <==> SmallGaps(from, counts)
    decreases |counts|
  {
    if counts != [] {
      var (after, s) := Advance(k, Low(counts[0]));
      AdvanceExact(k, from, counts[0], base);
      var samples := Track(k, counts);
      assert samples[0] == s && samples[1..] == Track(after, counts[1..]);
      if counts[0] < from + 0x1_0000_0000 {
        ExtensionIff(after, counts[0], base, counts[1..]);
        assert (forall i :: 0 <= i < |counts| ==> samples[i].ext == counts[i] - base)
          <==> (forall i :: 0 <= i < |counts[1..]| ==> samples[1..][i].ext == counts[1..][i] - base) by {
          assert forall i :: 1 <= i < |counts| ==> samples[i] == samples[1..][i - 1] && counts[i] == counts[1..][i - 1];
        }
      }
    }
  }

  /** The count sampled before `counts[i]`. */
  function Previous(from: nat, counts: seq<nat>, i: nat): nat
    requires i < |counts|
  {
    if i == 0 then from else counts[i - 1]
  }

  /** The difference behind the rate is the true gap, except that a wrap of the register between
      two samples makes it 0; and the timestamp is 65535 ns a frame in 64 bits. */
  lemma {:induction false} SampleExact(k: Tracker, from: nat, base: nat, counts: seq<nat>, i: nat)
    requires BaseOf(base, from) && Exact(k, from, base) && i < |counts|
    requires Rising(from, counts) && SmallGaps(from, counts) && Below(base, counts, 0x1_0000_0000_0000_0000)
    ensures var s, prev := Track(k, counts)[i], Previous(from, counts, i);
            && prev <= counts[i]
            && s.ext == counts[i] - base
            && s.frames == (if Low(counts[i]) < Low(prev) then 0 else counts[i] - prev)
            && s.nanos == Nanos(s.ext)
    decreases |counts|
  {
    AdvanceExact(k, from, counts[0], base);
    if i > 0 {
      var (after, s) := Advance(k, Low(counts[0]));
      SampleExact(after, counts[0], base, counts[1..], i - 1);
    }
  }

  lemma {:induction false} RisingBetween(from: nat, counts: seq<nat>, i: nat, j: nat)
    requires Rising(from, counts) && i <= j < |counts|
    ensures from <= counts[i] <= counts[j]
    decreases j
  {
    if i > 0 {
      RisingBetween(counts[0], counts[1..], i - 1, j - 1);
    } else if j > 0 {
      RisingBetween(counts[0], counts[1..], 0, j - 1);
    }
  }

  lemma NanosFit(ext: nat)
    requires ext < 0x1_0000_0000_0000
    ensures Nanos(ext) == 65535 * ext
  {
  }

  /** Below 2^48 frames the timestamps are 65535 ns a frame without wrap-around and never go back. */
  lemma Timestamps(k: Tracker, from: nat, base: nat, counts: seq<nat>, i: nat, j: nat)
    requires BaseOf(base, from) && Exact(k, from, base) && i <= j < |counts|
    requires Rising(from, counts) && SmallGaps(from, counts) && Below(base, counts, 0x1_0000_0000_0000)
    ensures var s := Track(k, counts);
            && s[i].nanos == 65535 * (counts[i] - base)
            && s[j].nanos == 65535 * (counts[j] - base)
            && s[i].nanos <= s[j].nanos
  {
    SampleExact(k, from, base, counts, i);
    SampleExact(k, from, base, counts, j);
    NanosFit(counts[i] - base);
    NanosFit(counts[j] - base);
    RisingBetween(from, counts, i, j);
  }

  /** The sender starts exact, with the multiple of 2^32 below its first count as the base. */
  lemma StartExact(first: nat)
    ensures var base := first - first % 0x1_0000_0000; BaseOf(base, first) && Exact(Start(first), first, base)
  {
  }

  // ---------------------------------------------------------------- the bytes on the wire

  function ImageLE(w: Word): seq<Byte> {
    [ByteOf(w, 0), ByteOf(w, 1), ByteOf(w, 2), ByteOf(w, 3)]
  }

  /** htonl on a little-endian host. */
  function Htonl(w: Word): Word {
    WordLE(ByteOf(w, 3), ByteOf(w, 2), ByteOf(w, 1), ByteOf(w, 0))
  }

  /** A 64-bit field after the driver's htonll, as it lies in the packet: each half is swapped, but
      the halves are not, so the low half comes first. */
  function Wire64(v: nat): seq<Byte>
    requires v < 0x1_0000_0000_0000_0000
  {
    ImageLE(Htonl(v % 0x1_0000_0000)) + ImageLE(Htonl(v / 0x1_0000_0000))
  }

  /** Four bytes read most significant first. */
  function ReadBE(b: seq<Byte>): Word
    requires |b| == 4
  {
    WordLE(b[3], b[2], b[1], b[0])
  }

  lemma HtonlReadsBack(w: Word)
    ensures ReadBE(ImageLE(Htonl(w))) == w
  {
    BytesOfWordLE(ByteOf(w, 3), ByteOf(w, 2), ByteOf(w, 1), ByteOf(w, 0));
    WordOfBytes(w);
  }

  /** A receiver reading the field as one big-endian number gets the frame number if and only if
      its two halves are equal. */
  lemma WireOrderIff(v: nat)
    requires v < 0x1_0000_0000_0000_0000
    ensures ReadBE(Wire64(v)[..4]) * 0x1_0000_0000 + ReadBE(Wire64(v)[4..]) == v
       <==> v % 0x1_0000_0000 == v / 0x1_0000_0000
  {
    HtonlReadsBack(v % 0x1_0000_0000);
    HtonlReadsBack(v / 0x1_0000_0000);
    assert Wire64(v)[..4] == ImageLE(Htonl(v % 0x1_0000_0000)) && Wire64(v)[4..] == ImageLE(Htonl(v / 0x1_0000_0000));
  }
}
