/**
 A text file as a user event: `vtpRocFile2Event` builds the event in a byte buffer, which
 `vtpRocEvioWriteUserEvent` then reads as 32-bit words (little-endian, as on the VTP's ARM).
 */
module UserFile {
  import opened Options
  import opened Bytes
  import opened AsyncFifo
  import opened EvioWriter
  import opened FlowControl
  import opened Framing

  const MAX_BYTES: int := 4 * 1024 * 1024

  // ---------------------------------------------------------------- bytes and words

  function BytesLE(w: Word): seq<Byte> {
    [ByteOf(w, 0), ByteOf(w, 1), ByteOf(w, 2), ByteOf(w, 3)]
  }

  /** The buffer as the writer sees it. */
  function WordsLE(bytes: seq<Byte>): (ws: seq<Word>)
    ensures |ws| == |bytes| / 4
  {
    if |bytes| < 4 then []
    else [WordLE(bytes[0], bytes[1], bytes[2], bytes[3])] + WordsLE(bytes[4..])
  }

  /** The words as the receiver reads them, most significant byte first. */
  function BytesBE(ws: seq<Word>): (bytes: seq<Byte>)
    ensures |bytes| == 4 * |ws|
  {
    if ws == [] then []
    else [ByteOf(ws[0], 3), ByteOf(ws[0], 2), ByteOf(ws[0], 1), ByteOf(ws[0], 0)] + BytesBE(ws[1..])
  }

  /** Each group of four bytes reversed. */
  function Swapped(bytes: seq<Byte>): (r: seq<Byte>)
    requires |bytes| % 4 == 0
    ensures |r| == |bytes|
  {
    if bytes == [] then []
    else [bytes[3], bytes[2], bytes[1], bytes[0]] + Swapped(bytes[4..])
  }

  /** A sequence of words as it lies in memory. */
  function Image(ws: seq<Word>): (bytes: seq<Byte>)
    ensures |bytes| == 4 * |ws|
  {
    if ws == [] then [] else BytesLE(ws[0]) + Image(ws[1..])
  }

  lemma {:induction false} WordsOfImage(ws: seq<Word>)
    ensures WordsLE(Image(ws)) == ws
  {
    if ws != [] {
      WordOfBytes(ws[0]);
      var bytes := Image(ws);
      assert bytes[4..] == Image(ws[1..]);
      WordsOfImage(ws[1..]);
      assert bytes[0] == ByteOf(ws[0], 0) && bytes[1] == ByteOf(ws[0], 1);
      assert bytes[2] == ByteOf(ws[0], 2) && bytes[3] == ByteOf(ws[0], 3);
    }
  }

  lemma {:induction false} WordsAppend(a: seq<Byte>, b: seq<Byte>)
    requires |a| % 4 == 0
    ensures WordsLE(a + b) == WordsLE(a) + WordsLE(b)
  {
    if a == [] {
      assert a + b == b;
    } else {
      var first := WordLE(a[0], a[1], a[2], a[3]);
      WordsAppend(a[4..], b);
      assert (a + b)[4..] == a[4..] + b;
      assert WordsLE(a + b) == [first] + (WordsLE(a[4..]) + WordsLE(b));
      assert WordsLE(a) == [first] + WordsLE(a[4..]);
    }
  }

  lemma {:induction false} SwappedAppend(a: seq<Byte>, b: seq<Byte>)
    requires |a| % 4 == 0 && |b| % 4 == 0
    ensures Swapped(a + b) == Swapped(a) + Swapped(b)
  {
    if a == [] {
      assert a + b == b;
    } else {
      SwappedAppend(a[4..], b);
      assert (a + b)[4..] == a[4..] + b;
    }
  }

  /** The swap is what turns little-endian words into the file's own byte order. */
  lemma {:induction false} SwapThenRead(bytes: seq<Byte>)
    requires |bytes| % 4 == 0
    ensures BytesBE(WordsLE(Swapped(bytes))) == bytes
  {
    if bytes != [] {
      var s := Swapped(bytes);
      assert s[4..] == Swapped(bytes[4..]);
      SwapThenRead(bytes[4..]);
      BytesOfWordLE(bytes[3], bytes[2], bytes[1], bytes[0]);
      assert WordsLE(s)[1..] == WordsLE(s[4..]);
      assert bytes == [bytes[0], bytes[1], bytes[2], bytes[3]] + bytes[4..];
    }
  }

  // ---------------------------------------------------------------- the event

  function Limit(maxbytes: int): int {
    if maxbytes == 0 || maxbytes > MAX_BYTES then MAX_BYTES else maxbytes
  }

  /** As much of the file as goes in behind the 16 header bytes. */
  function Taken(file: seq<Byte>, maxbytes: int): (t: seq<Byte>)
    ensures |t| <= |file| && 16 + |t| <= MAX_BYTES
  {
    var room := Limit(maxbytes) - 16;
    if room <= 0 then [] else if |file| <= room then file else file[..room]
  }

  predicate Fits(file: seq<Byte>, maxbytes: int) {
    16 + |file| <= Limit(maxbytes) || file == []
  }

  function PadCount(n: nat): (p: nat)
    ensures p < 4 && (n + p) % 4 == 0
  {
    (4 - n % 4) % 4
  }

  function Zeros(n: nat): seq<Byte> {
    seq(n, _ => 0)
  }

  function Padded(t: seq<Byte>): (r: seq<Byte>)
    ensures |r| % 4 == 0
  {
    t + Zeros(PadCount(|t|))
  }

  /** The four header words: the outer bank (the roc id as its tag) and the inner one (the user
      tag, with the pad count in bits 15 and 14).  Tags keep their low 16 bits. */
  function Header(t: seq<Byte>, utag: int, rocid: int): (h: seq<Word>)
    requires 16 + |t| <= MAX_BYTES
    ensures |h| == 4
  {
    var words: nat := 4 + |Padded(t)| / 4;
    [words - 1, rocid % 0x1_0000 * 0x1_0000 + 0x1000, words - 3,
     utag % 0x1_0000 * 0x1_0000 + PadCount(|t|) * 0x4000 + 0x300]
  }

  function EventBytes(t: seq<Byte>, utag: int, rocid: int): (b: seq<Byte>)
    requires 16 + |t| <= MAX_BYTES
    ensures |b| == 16 + |Padded(t)| && |b| % 4 == 0
  {
    Image(Header(t, utag, rocid)) + Swapped(Padded(t))
  }

  /** Buffer bytes the routine may write: the padded event, or one more for the final NUL. */
  function Footprint(t: seq<Byte>): nat {
    16 + |Padded(t)| + if PadCount(|t|) == 0 then 1 else 0
  }

  // ---------------------------------------------------------------- the routine

  /** `s` with `x` written over it from index `at` on. */
  function Splice(s: seq<Byte>, at: nat, x: seq<Byte>): (r: seq<Byte>)
    requires at + |x| <= |s|
    ensures |r| == |s|
  {
    seq(|s|, k requires 0 <= k < |s| => if at <= k < at + |x| then x[k - at] else s[k])
  }

  /** What padding writes at the end of the text. */
  function Tail(n: nat): seq<Byte> {
    if PadCount(n) == 0 then [0] else Zeros(PadCount(n))
  }

  /** The getc loop. */
  method ReadFile(file: seq<Byte>, buf: array<Byte>, maxbytes: int) returns (ilen: nat)
    requires buf.Length >= 16 + |Taken(file, maxbytes)|
    modifies buf
    ensures ilen == 16 + |Taken(file, maxbytes)|
    ensures buf[..] == Splice(old(buf[..]), 16, Taken(file, maxbytes))
  {
    ilen := 16;
    var c := 0;
    while ilen < Limit(maxbytes) && c < |file|
      invariant ilen == 16 + c && c <= |Taken(file, maxbytes)|
      invariant forall k :: 0 <= k < buf.Length ==>
                  buf[k] == if 16 <= k < ilen then file[k - 16] else old(buf[k])
    {
      buf[ilen] := file[c];
      ilen, c := ilen + 1, c + 1;
    }
  }

  /** Null-terminate, or pad to a whole number of words. */
  method PadBuffer(buf: array<Byte>, ilen: nat) returns (padded: nat)
    requires ilen + |Tail(ilen)| <= buf.Length
    modifies buf
    ensures padded == ilen + PadCount(ilen)
    ensures buf[..] == Splice(old(buf[..]), ilen, Tail(ilen))
  {
    padded := ilen;
    var rem := 4 - ilen % 4;
    if rem < 4 {
      for ii := 0 to rem
        invariant forall k :: 0 <= k < buf.Length ==>
                    buf[k] == if ilen <= k < ilen + ii then 0 else old(buf[k])
      {
        buf[ilen + ii] := 0;
      }
      padded := ilen + rem;
    } else {
      buf[ilen] := 0;
    }
  }

  /** memcpy. */
  method CopyIn(buf: array<Byte>, image: seq<Byte>)
    requires |image| <= buf.Length
    modifies buf
    ensures buf[..] == Splice(old(buf[..]), 0, image)
  {
    for i := 0 to |image|
      invariant forall k :: 0 <= k < buf.Length ==> buf[k] == if k < i then image[k] else old(buf[k])
    {
      buf[i] := image[i];
    }
  }

  /** Four bytes of the buffer in reverse order. */
  method ReverseWord(buf: array<Byte>, ii: nat)
    requires ii + 4 <= buf.Length
    modifies buf
    ensures var r := old(buf[..]);
            buf[..] == Splice(r, ii, [r[ii + 3], r[ii + 2], r[ii + 1], r[ii]])
  {
    var aa, bb := buf[ii], buf[ii + 1];
    buf[ii] := buf[ii + 3];
    buf[ii + 1] := buf[ii + 2];
    buf[ii + 2] := bb;
    buf[ii + 3] := aa;
  }

  /** `s` with the words from 16 up to `ii` swapped. */
  function SwappedUpTo(s: seq<Byte>, ii: nat): seq<Byte>
    requires ii % 4 == 0 && 16 <= ii <= |s|
  {
    Splice(s, 16, Swapped(s[16..ii]))
  }

  lemma SwapStep(s: seq<Byte>, ii: nat)
    requires ii % 4 == 0 && 16 <= ii && ii + 4 <= |s|
    ensures var r := SwappedUpTo(s, ii);
            && |r| == |s|
            && SwappedUpTo(s, ii + 4) == Splice(r, ii, [r[ii + 3], r[ii + 2], r[ii + 1], r[ii]])
  {
    var word := s[ii..ii + 4];
    assert word[4..] == [];
    assert Swapped(word) == [s[ii + 3], s[ii + 2], s[ii + 1], s[ii]];
    assert s[16..ii + 4] == s[16..ii] + word;
    SwappedAppend(s[16..ii], word);
  }

  /** The in-place swap of the words behind the header. */
  method SwapWords(buf: array<Byte>, last: nat)
    requires last % 4 == 0 && 12 <= last && last + 4 <= buf.Length
    modifies buf
    ensures buf[..] == SwappedUpTo(old(buf[..]), last + 4)
  {
    ghost var s := buf[..];
    var ii := 16;
    assert buf[..] == SwappedUpTo(s, ii);
    while ii <= last
      invariant ii % 4 == 0 && 16 <= ii <= last + 4
      invariant buf[..] == SwappedUpTo(s, ii)
    {
      SwapStep(s, ii);
      ReverseWord(buf, ii);
      ii := ii + 4;
    }
  }

  /** The buffer the routine leaves: the event over the front of what was there, and the NUL
      behind an event that needed no padding. */
  function Written(s: seq<Byte>, t: seq<Byte>, utag: int, rocid: int): seq<Byte>
    requires |s| >= Footprint(t) && 16 + |t| <= MAX_BYTES
  {
    Splice(s, 0, EventBytes(t, utag, rocid) + if PadCount(|t|) == 0 then [0] else [])
  }

  lemma StepsWrite(s: seq<Byte>, t: seq<Byte>, tail: seq<Byte>, h: seq<Byte>, padded: nat)
    requires |h| == 16 && |t| <= padded <= |t + tail| && padded % 4 == 0 && |s| >= 16 + |t + tail|
    ensures var s3 := Splice(Splice(Splice(s, 16, t), 16 + |t|, tail), 0, h);
            Splice(s3, 16, Swapped(s3[16..16 + padded]))
            == Splice(s, 0, h + Swapped((t + tail)[..padded]) + (t + tail)[padded..])
  {
    var s3 := Splice(Splice(Splice(s, 16, t), 16 + |t|, tail), 0, h);
    assert s3 == Splice(s, 0, h + (t + tail));
    assert s3[16..16 + padded] == (t + tail)[..padded];
  }

  lemma TailOfEvent(t: seq<Byte>)
    ensures var tail := Tail(16 + |t|);
            && PadCount(16 + |t|) == PadCount(|t|) && |Padded(t)| <= |t + tail|
            && (t + tail)[..|Padded(t)|] == Padded(t)
            && (t + tail)[|Padded(t)|..] == (if PadCount(|t|) == 0 then [0] else [])
            && 16 + |t + tail| == Footprint(t)
  {
  }

  /** The four in-place edits one after the other. */
  function Edited(s: seq<Byte>, t: seq<Byte>, h: seq<Byte>): seq<Byte>
    requires |h| == 16 && |s| >= Footprint(t)
  {
    TailOfEvent(t);
    var s3 := Splice(Splice(Splice(s, 16, t), 16 + |t|, Tail(16 + |t|)), 0, h);
    SwappedUpTo(s3, 16 + |Padded(t)|)
  }

  lemma EditedIsWritten(s: seq<Byte>, t: seq<Byte>, utag: int, rocid: int)
    requires |s| >= Footprint(t) && 16 + |t| <= MAX_BYTES
    ensures Edited(s, t, Image(Header(t, utag, rocid))) == Written(s, t, utag, rocid)
  {
    TailOfEvent(t);
    StepsWrite(s, t, Tail(16 + |t|), Image(Header(t, utag, rocid)), |Padded(t)|);
  }

  /** vtpRocFile2Event.  `file` is None when it cannot be opened; None is the ERROR result. */
  method FileToEvent(file: Option<seq<Byte>>, buf: array<Byte>, utag: int, rocid: int, maxbytes: int)
    returns (r: Option<nat>)
    requires file.Some? ==> buf.Length >= Footprint(Taken(file.value, maxbytes))
    modifies buf
    ensures r.Some? <==> utag != 0 && utag < 0xff00 && file.Some?
    ensures r.None? ==> buf[..] == old(buf[..])
    ensures r.Some? ==>
              var t := Taken(file.value, maxbytes);
              && 4 * (r.value + 1) == |EventBytes(t, utag, rocid)|
              && buf[..] == Written(old(buf[..]), t, utag, rocid)
  {
    if utag == 0 || utag >= 0xff00 || file.None? {
      return None;
    }
    ghost var t := Taken(file.value, maxbytes);
    TailOfEvent(t);
    var read := ReadFile(file.value, buf, maxbytes);
    var ilen := PadBuffer(buf, read);
    var rem := ilen - read;
    var h := [ilen / 4 - 1, rocid % 0x1_0000 * 0x1_0000 + 0x1000, ilen / 4 - 3,
              utag % 0x1_0000 * 0x1_0000 + rem * 0x4000 + 0x300];
    assert h == Header(t, utag, rocid);
    InstallEvent(buf, t, old(buf[..]), h, ilen - 4);
    EditedIsWritten(old(buf[..]), t, utag, rocid);
    r := Some(ilen / 4 - 1);
  }

  /** The header goes in front, then the words behind it are swapped. */
  method InstallEvent(buf: array<Byte>, ghost t: seq<Byte>, ghost s: seq<Byte>, h: seq<Word>, last: nat)
    requires |h| == 4 && |s| >= Footprint(t) && last == 12 + |Padded(t)|
    requires |s| >= 16 + |t| + |Tail(16 + |t|)|
    requires buf[..] == Splice(Splice(s, 16, t), 16 + |t|, Tail(16 + |t|))
    modifies buf
    ensures buf[..] == Edited(s, t, Image(h))
  {
    var image := Image(h);
    CopyIn(buf, image);
    SwapWords(buf, last);
  }

  // ---------------------------------------------------------------- from file to stream

  /** The file a receiver recovers from a user-event frame. */
  function FileIn(frame: seq<Word>): seq<Byte>
    requires |frame| >= 14
    requires frame[13] / 0x4000 % 4 <= 4 * (|frame| - 14)
  {
    var bytes := BytesBE(frame[14..]);
    bytes[..|bytes| - frame[13] / 0x4000 % 4]
  }

  lemma EventWords(t: seq<Byte>, utag: int, rocid: int)
    requires 16 + |t| <= MAX_BYTES
    ensures WordsLE(EventBytes(t, utag, rocid)) == Header(t, utag, rocid) + WordsLE(Swapped(Padded(t)))
  {
    WordsOfImage(Header(t, utag, rocid));
    WordsAppend(Image(Header(t, utag, rocid)), Swapped(Padded(t)));
  }

  /** Reading the fields back out of the header words. */
  lemma HeaderFields(tag: int, pad: int)
    requires 0 <= tag < 0x1_0000 && 0 <= pad < 4
    ensures (tag * 0x1_0000 + 0x1000) / 0x1_0000 == tag
    ensures (tag * 0x1_0000 + 0x1000) / 0x100 % 0x40 == 0x10
    ensures (tag * 0x1_0000 + 0x1000) % 0x100 == 0
    ensures (tag * 0x1_0000 + pad * 0x4000 + 0x300) / 0x4000 % 4 == pad
  {
    assert (tag * 0x1_0000 + 0x1000) / 0x100 == tag * 0x100 + 0x10;
    assert (tag * 0x1_0000 + pad * 0x4000 + 0x300) / 0x4000 == tag * 4 + pad;
  }

  /** The event passes the writer's checks exactly when the roc id is a legal tag, and both of
      its nested banks have the right length. */
  lemma EventAccepted(t: seq<Byte>, utag: int, rocid: int)
    requires 16 + |t| <= MAX_BYTES
    ensures var ws := WordsLE(EventBytes(t, utag, rocid));
            && Readable(ws) && ws[0] == |ws| - 1 && ws[2] == |ws[2..]| - 1
            && (Admissible(ws) <==> rocid % 0x1_0000 < 0xff00)
  {
    EventWords(t, utag, rocid);
    ChecksOnWords(WordsLE(EventBytes(t, utag, rocid)), rocid % 0x1_0000);
  }

  lemma ChecksOnWords(ws: seq<Word>, tag: int)
    requires 2 <= |ws| <= MAX_USER_WORDS && ws[0] == |ws| - 1
    requires 0 <= tag < 0x1_0000 && ws[1] == tag * 0x1_0000 + 0x1000
    ensures Readable(ws) && (Admissible(ws) <==> tag < 0xff00)
  {
    HeaderFields(tag, 0);
    assert UserWords(ws) == |ws|;
  }

  /** The frame is ten header words and then the bank as it stands in the buffer. */
  lemma FrameOfEvent(h: seq<Word>, body: seq<Word>, rocReg: Word)
    requires |h| == 4 && |h + body| <= MAX_USER_WORDS && h[0] == |h + body| - 1
    ensures var frame := UserMessage(h + body, rocReg);
            |frame| == 14 + |body| && frame[13] == h[3] && frame[14..] == body
  {
    var ws := h + body;
    assert UserWords(ws) == |ws|;
    var prefix := UserPrefix(ws, rocReg);
    assert |prefix| == 11;
    assert UserBody(ws) == h[1..] + body;
  }

  /** A frame from which a receiver recovers this file. */
  predicate Carries(frame: seq<Word>, file: seq<Byte>) {
    && |frame| >= 14 && frame[13] / 0x4000 % 4 <= 4 * (|frame| - 14)
    && FileIn(frame) == file
  }

  /** The header fits its text: length word, total size and pad count. */
  ghost predicate Heads(h: seq<Word>, t: seq<Byte>) {
    && |h| == 4 && 4 + |Padded(t)| / 4 <= MAX_USER_WORDS && h[0] == 3 + |Padded(t)| / 4
    && h[3] / 0x4000 % 4 == PadCount(|t|)
  }

  lemma HeaderHeads(t: seq<Byte>, utag: int, rocid: int)
    requires 16 + |t| <= MAX_BYTES
    ensures Heads(Header(t, utag, rocid), t)
  {
    HeaderFields(utag % 0x1_0000, PadCount(|t|));
  }

  /** The writer takes the whole bank. */
  ghost predicate Whole(ws: seq<Word>) {
    Readable(ws) && UserWords(ws) == |ws| <= MAX_USER_WORDS
  }

  lemma BodyBack(t: seq<Byte>)
    ensures BytesBE(WordsLE(Swapped(Padded(t))))[..|t|] == t && |WordsLE(Swapped(Padded(t)))| == |Padded(t)| / 4
  {
    SwapThenRead(Padded(t));
    assert Padded(t)[..|t|] == t;
  }

  lemma FrameCarries(frame: seq<Word>, t: seq<Byte>)
    requires |frame| == 14 + |Padded(t)| / 4 && frame[13] / 0x4000 % 4 == PadCount(|t|)
    requires frame[14..] == WordsLE(Swapped(Padded(t)))
    ensures Carries(frame, t)
  {
    BodyBack(t);
  }

  lemma RecoverFromWords(h: seq<Word>, t: seq<Byte>, rocReg: Word)
    requires Heads(h, t)
    ensures var ws := h + WordsLE(Swapped(Padded(t)));
            Whole(ws) && Carries(UserMessage(ws, rocReg), t)
  {
    var body := WordsLE(Swapped(Padded(t)));
    FrameOfEvent(h, body, rocReg);
    FrameCarries(UserMessage(h + body, rocReg), t);
  }

  lemma EventCarries(t: seq<Byte>, utag: int, rocid: int, rocReg: Word)
    requires 16 + |t| <= MAX_BYTES
    ensures var ws := WordsLE(EventBytes(t, utag, rocid));
            Whole(ws) && |ws| == 4 + |Padded(t)| / 4 && Carries(UserMessage(ws, rocReg), t)
  {
    EventWords(t, utag, rocid);
    HeaderHeads(t, utag, rocid);
    RecoverFromWords(Header(t, utag, rocid), t, rocReg);
  }

  /** By position, an outer bank of banks tagged with the roc id and an inner one of characters tagged by
      the user, each with its own length. */
  predicate Tagged(frame: seq<Word>, utag: int, rocid: int) {
    && |frame| >= 14 && frame[10] == |frame| - 11 && frame[12] == |frame| - 13
    && frame[11] / 0x1_0000 == rocid % 0x1_0000 && frame[11] / 0x100 % 0x100 == 0x10 && frame[11] % 0x100 == 0
    && frame[13] / 0x1_0000 == utag % 0x1_0000 && frame[13] / 0x100 % 0x40 == 3 && frame[13] % 0x100 == 0
  }

  lemma TagFields(tag: int, pad: int)
    requires 0 <= tag < 0x1_0000 && 0 <= pad < 4
    ensures (tag * 0x1_0000 + 0x1000) / 0x1_0000 == tag
    ensures (tag * 0x1_0000 + 0x1000) / 0x100 % 0x100 == 0x10 && (tag * 0x1_0000 + 0x1000) % 0x100 == 0
    ensures var w := tag * 0x1_0000 + pad * 0x4000 + 0x300;
            w / 0x1_0000 == tag && w / 0x100 % 0x40 == 3 && w % 0x100 == 0
  {
    assert (tag * 0x1_0000 + 0x1000) / 0x100 == tag * 0x100 + 0x10;
    assert (tag * 0x1_0000 + pad * 0x4000 + 0x300) / 0x100 == tag * 0x100 + pad * 0x40 + 3;
  }

  /** Words 10 to 13 of a frame are the event's header. */
  lemma HeaderInFrame(h: seq<Word>, body: seq<Word>, rocReg: Word)
    requires |h| == 4 && |h + body| <= MAX_USER_WORDS && h[0] == |h + body| - 1
    ensures var frame := UserMessage(h + body, rocReg);
            |frame| == 14 + |body| && frame[10] == h[0] && frame[11] == h[1] && frame[12] == h[2] && frame[13] == h[3]
  {
    var ws := h + body;
    assert UserWords(ws) == |ws|;
    var prefix := UserPrefix(ws, rocReg);
    assert |prefix| == 11 && prefix[10] == h[0];
    assert UserBody(ws) == h[1..] + body;
  }

  lemma FrameTagged(frame: seq<Word>, t: seq<Byte>, utag: int, rocid: int)
    requires 16 + |t| <= MAX_BYTES && |frame| == 14 + |Padded(t)| / 4
    requires var h := Header(t, utag, rocid);
             frame[10] == h[0] && frame[11] == h[1] && frame[12] == h[2] && frame[13] == h[3]
    ensures Tagged(frame, utag, rocid)
  {
    TagFields(rocid % 0x1_0000, 0);
    TagFields(utag % 0x1_0000, PadCount(|t|));
  }

  lemma EventTagged(t: seq<Byte>, utag: int, rocid: int, rocReg: Word)
    requires 16 + |t| <= MAX_BYTES
    ensures var ws := WordsLE(EventBytes(t, utag, rocid));
            Whole(ws) && Tagged(UserMessage(ws, rocReg), utag, rocid)
  {
    var h, body := Header(t, utag, rocid), WordsLE(Swapped(Padded(t)));
    EventWords(t, utag, rocid);
    HeaderHeads(t, utag, rocid);
    RecoverFromWords(h, t, rocReg);
    HeaderInFrame(h, body, rocReg);
    FrameTagged(UserMessage(h + body, rocReg), t, utag, rocid);
  }

  lemma TakenWhole(file: seq<Byte>, maxbytes: int)
    ensures Taken(file, maxbytes) == file <==> Fits(file, maxbytes)
  {
  }

  /** From file to stream and back.  For every file, tag and size limit, the buffer the routine
      builds is accepted by the writer exactly when the roc id is a legal tag; the frame carries both
      tags, and what a receiver recovers from it is what was read of the file, and the file itself
      exactly when it fits below the limit. */
  lemma FileRoundTrip(file: seq<Byte>, utag: int, rocid: int, maxbytes: int, rocReg: Word)
    ensures var ws := WordsLE(EventBytes(Taken(file, maxbytes), utag, rocid));
            && Readable(ws) && UserWords(ws) <= MAX_USER_WORDS
            && (Admissible(ws) <==> rocid % 0x1_0000 < 0xff00)
            && Tagged(UserMessage(ws, rocReg), utag, rocid)
            && Carries(UserMessage(ws, rocReg), Taken(file, maxbytes))
            && (Carries(UserMessage(ws, rocReg), file) <==> Fits(file, maxbytes))
  {
    EventAccepted(Taken(file, maxbytes), utag, rocid);
    EventCarries(Taken(file, maxbytes), utag, rocid, rocReg);
    EventTagged(Taken(file, maxbytes), utag, rocid, rocReg);
    TakenWhole(file, maxbytes);
  }

  /** The write is accepted, and the receiver cuts out one frame, which carries the file under its tags. */
  ghost predicate Delivered(
    f: Fifo, schedule: Schedule, rocReg: Word, ws: seq<Word>, file: seq<Byte>, utag: int, rocid: int)
    requires f.Valid() && Readable(ws)
  {
    var (reply, g) := WriteUser(f, schedule, rocReg, ws);
    reply == Ok
    && exists frame :: Cut(g.data, g.lens) == Some([frame]) && Carries(frame, file) && Tagged(frame, utag, rocid)
  }

  /** What is cut out of a write that ran to its end: the message, or nothing if a word was lost. */
  lemma CutOfUser(f: Fifo, schedule: Schedule, rocReg: Word, ws: seq<Word>)
    requires f.Valid() && f.data == [] && f.lens == []
    requires Readable(ws) && Admissible(ws) && ws[0] != 0xffff_ffff
    ensures var (reply, g) := WriteUser(f, schedule, rocReg, ws);
            reply == Ok ==>
              Cut(g.data, g.lens) == if g.lost == f.lost then Some([UserMessage(ws, rocReg)]) else None
  {
    UserIsOneFrame(f, schedule, rocReg, ws);
    UserKeepsBooks(f, schedule, rocReg, ws);
    var (reply, g) := WriteUser(f, schedule, rocReg, ws);
    if Cut(g.data, g.lens).Some? {
      CutMeasures(g.data, g.lens);
    }
  }

  lemma WordsDeliveredIff(f: Fifo, rocReg: Word, ws: seq<Word>, file: seq<Byte>, utag: int, rocid: int)
    requires f.Valid() && f.data == [] && f.lens == []
    requires Readable(ws) && UserWords(ws) <= MAX_USER_WORDS && ws[0] != 0xffff_ffff
    requires Tagged(UserMessage(ws, rocReg), utag, rocid)
    ensures (forall schedule: Schedule :: Delivered(f, schedule, rocReg, ws, file, utag, rocid))
       <==> Admissible(ws) && f.level + |UserMessage(ws, rocReg)| <= DEPTH && Carries(UserMessage(ws, rocReg), file)
  {
    var idle: Schedule := [];
    if !Admissible(ws) {
      assert !Delivered(f, idle, rocReg, ws, file, utag, rocid);
    } else {
      UserEventDeliveredIff(f, rocReg, ws);
      forall schedule: Schedule
        ensures Delivered(f, schedule, rocReg, ws, file, utag, rocid)
           <==> Delivers(f, schedule, rocReg, ws) && Carries(UserMessage(ws, rocReg), file)
      {
        CutOfUser(f, schedule, rocReg, ws);
      }
      if !Carries(UserMessage(ws, rocReg), file) {
        assert !Delivered(f, idle, rocReg, ws, file, utag, rocid);
      }
    }
  }

  /** Through the FIFO: the file reaches the receiver whole and under its tags, whatever the hardware
      does, if and only if the roc id is a legal tag, the file and the 16 header bytes fit below the
      limit, 4 MB if none or a larger one is given, and its padded words and 14 more fit on top of what
      is in the FIFO. */
  lemma FileReachesReceiver(f: Fifo, file: seq<Byte>, utag: int, rocid: int, maxbytes: int, rocReg: Word)
    requires f.Valid() && f.data == [] && f.lens == []
    ensures var ws := WordsLE(EventBytes(Taken(file, maxbytes), utag, rocid));
            && Readable(ws)
            && ((forall schedule: Schedule :: Delivered(f, schedule, rocReg, ws, file, utag, rocid))
                <==> rocid % 0x1_0000 < 0xff00
                     && (file == [] ||
                         16 + |file| <= if maxbytes == 0 || maxbytes > 4194304 then 4194304 else maxbytes)
                     && f.level + 14 + |Padded(file)| / 4 <= DEPTH)
  {
    var t := Taken(file, maxbytes);
    var ws := WordsLE(EventBytes(t, utag, rocid));
    FileRoundTrip(file, utag, rocid, maxbytes, rocReg);
    EventCarries(t, utag, rocid, rocReg);
    EventAccepted(t, utag, rocid);
    TakenWhole(file, maxbytes);
    WordsDeliveredIff(f, rocReg, ws, file, utag, rocid);
  }
}
