/** `vtpTIData2TriggerBank`: a block of trigger-interface data becomes a CODA trigger bank by
    overwriting its header word with a bank length. */
module TriggerBank {
  import opened Bytes

  const ERROR: int := -1

  /** Bit 31 marks a defining word; bits 30 to 27 are its type. */
  predicate IsHeader(w: Word) {
    w / 0x800_0000 == 16
  }

  predicate IsTrailer(w: Word) {
    w / 0x800_0000 == 17
  }

  /** The word count a block trailer carries, `word & 0x3fffff`. */
  function TrailerCount(w: Word): nat {
    w % 0x40_0000
  }

  /** The index of the first block header, or -1. */
  function FirstHeader(s: seq<Word>): (h: int)
    ensures -1 <= h < |s|
  {
    if s == [] then -1
    else if IsHeader(s[0]) then 0
    else
      var rest := FirstHeader(s[1..]);
      if rest == -1 then -1 else rest + 1
  }

  /** The index of the last block trailer, or -1. */
  function LastTrailer(s: seq<Word>): (t: int)
    ensures -1 <= t < |s|
    decreases |s|
  {
    if s == [] then -1
    else if IsTrailer(s[|s| - 1]) then |s| - 1
    else LastTrailer(s[..|s| - 1])
  }

  /** The result and the data afterwards.  The count is compared, and the length stored, as a
      32-bit unsigned number. */
  function Rewrite(s: seq<Word>): (int, seq<Word>) {
    var h, t := FirstHeader(s), LastTrailer(s);
    if h == -1 || t == -1 then (ERROR, s)
    else if (t - h + 1) % 0x1_0000_0000 != TrailerCount(s[t]) then (ERROR, s)
    else (t - h, s[h := (t - h - 1) % 0x1_0000_0000])
  }

  lemma {:induction false} FirstHeaderIs(s: seq<Word>)
    ensures var h := FirstHeader(s);
            && (forall k :: 0 <= k < |s| && (h == -1 || k < h) ==> !IsHeader(s[k]))
            && (h >= 0 ==> IsHeader(s[h]))
  {
    if s != [] && !IsHeader(s[0]) {
      FirstHeaderIs(s[1..]);
      forall k | 0 <= k < |s| && (FirstHeader(s) == -1 || k < FirstHeader(s)) ensures !IsHeader(s[k]) {
        if k > 0 {
          assert s[k] == s[1..][k - 1];
        }
      }
    }
  }

  lemma {:induction false} LastTrailerIs(s: seq<Word>)
    ensures var t := LastTrailer(s);
            && (forall k :: t < k < |s| ==> !IsTrailer(s[k]))
            && (t >= 0 ==> IsTrailer(s[t]))
    decreases |s|
  {
    if s != [] && !IsTrailer(s[|s| - 1]) {
      LastTrailerIs(s[..|s| - 1]);
    }
  }

  /** Work down to the block header. */
  method FindHeader(data: array<Word>, ndata: int) returns (iblkhead: int)
    requires ndata <= data.Length
    ensures -1 <= iblkhead < ndata || iblkhead == -1
    ensures forall k :: 0 <= k < ndata && (iblkhead == -1 || k < iblkhead) ==> !IsHeader(data[k])
    ensures iblkhead >= 0 ==> IsHeader(data[iblkhead])
  {
    iblkhead := -1;
    var iword := 0;
    while iword < ndata
      invariant 0 <= iword
      invariant forall k :: 0 <= k < iword && k < ndata ==> !IsHeader(data[k])
    {
      if IsHeader(data[iword]) {
        return iword;
      }
      iword := iword + 1;
    }
  }

  /** Work up to the block trailer. */
  method FindTrailer(data: array<Word>, ndata: int) returns (iblktrl: int)
    requires ndata <= data.Length
    ensures -1 <= iblktrl < ndata || iblktrl == -1
    ensures forall k :: 0 <= k < ndata && iblktrl < k ==> !IsTrailer(data[k])
    ensures iblktrl >= 0 ==> IsTrailer(data[iblktrl])
  {
    iblktrl := -1;
    var iword := ndata - 1;
    while iword >= 0
      invariant iword < ndata
      invariant forall k :: iword < k < ndata && 0 <= k ==> !IsTrailer(data[k])
    {
      if IsTrailer(data[iword]) {
        return iword;
      }
      iword := iword - 1;
    }
  }

  /** The two scans and the rewrite, in place.  The indices start at -1. */
  method TIDataToTriggerBank(data: array<Word>, ndata: int) returns (r: int)
    requires ndata <= data.Length
    modifies data
    ensures var n := if ndata < 0 then 0 else ndata;
            var (result, after) := Rewrite(old(data[..n]));
            r == result && data[..] == after + old(data[n..])
  {
    ghost var n := if ndata < 0 then 0 else ndata;
    ghost var s := data[..n];
    assert data[..] == s + data[n..];
    FirstHeaderIs(s);
    LastTrailerIs(s);
    var iblkhead := FindHeader(data, ndata);
    assert iblkhead == FirstHeader(s);
    if iblkhead == -1 {
      return ERROR;
    }
    var iblktrl := FindTrailer(data, ndata);
    assert iblktrl == LastTrailer(s);
    if iblktrl == -1 {
      return ERROR;
    }
    var word := data[iblktrl];
    if (iblktrl - iblkhead + 1) % 0x1_0000_0000 != TrailerCount(word) {
      return ERROR;
    }
    r := iblktrl - iblkhead;
    data[iblkhead] := (r - 1) % 0x1_0000_0000;
  }

  /** `h` is the first header and `t` the last trailer of the block. */
  ghost predicate Bounds(s: seq<Word>, h: int, t: int) {
    && 0 <= h < |s| && IsHeader(s[h]) && (forall k :: 0 <= k < h ==> !IsHeader(s[k]))
    && 0 <= t < |s| && IsTrailer(s[t]) && (forall k :: t < k < |s| ==> !IsTrailer(s[k]))
  }

  /** A well-formed block, whatever surrounds it: only the header word changes, and what runs
      from it up to the trailer is a bank of its own length.  A trailer just before the header
      with a zero count is taken for one too.  Everything else is an error and changes nothing. */
  lemma TriggerBankCases(s: seq<Word>, h: int, t: int)
    requires Bounds(s, h, t) && |s| < 0x8000_0000
    ensures var (r, after) := Rewrite(s);
            if t >= h && TrailerCount(s[t]) == t - h + 1 then
              && r == t - h > 0 && after == s[h := t - h - 1]
              && after[h] == |after[h..t]| - 1
            else if t == h - 1 && TrailerCount(s[t]) == 0 then
              r == ERROR && after == s[h := 0xffff_fffe]
            else
              r == ERROR && after == s
  {
    FirstHeaderIs(s);
    LastTrailerIs(s);
    assert h == FirstHeader(s) && t == LastTrailer(s);
  }

  /** A block with no header, or no trailer, is an error and unchanged. */
  lemma NoBounds(s: seq<Word>)
    requires (forall k :: 0 <= k < |s| ==> !IsHeader(s[k])) || (forall k :: 0 <= k < |s| ==> !IsTrailer(s[k]))
    ensures Rewrite(s) == (ERROR, s)
  {
    FirstHeaderIs(s);
    LastTrailerIs(s);
  }

  /** The two words by their values: bit 31 set and type 0 in bits 30 to 27, or type 1; the count of a
      trailer is in its low 22 bits. */
  lemma WordTypes(w: Word, kind: int, low: int)
    requires 0 <= kind < 16 && 0 <= low < 0x800_0000
    ensures IsHeader(w) <==> 0x8000_0000 <= w < 0x8800_0000
    ensures IsTrailer(w) <==> 0x8800_0000 <= w < 0x9000_0000
    ensures w == 0x8000_0000 + kind * 0x800_0000 + low ==> (IsHeader(w) <==> kind == 0) && (IsTrailer(w) <==> kind == 1)
    ensures w == 0x8800_0000 + low ==> TrailerCount(w) == low % 4194304
  {
  }
}
