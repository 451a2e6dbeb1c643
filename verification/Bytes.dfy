/** 32-bit words and their bytes. */
module Bytes {

  type Word = w: int | 0 <= w < 0x1_0000_0000
  type Byte = b: int | 0 <= b < 256

  /** The word with these bytes, least significant first. */
  function WordLE(b0: Byte, b1: Byte, b2: Byte, b3: Byte): Word {
    var v: int := b0 + 0x100 * b1 + 0x1_0000 * b2 + 0x100_0000 * b3;
    v
  }

  /** Byte `k` of a word, counted from the least significant. */
  function ByteOf(w: nat, k: nat): Byte
    decreases k, w
  {
    if k == 0 then w % 0x100 else ByteOf(w / 0x100, k - 1)
  }

  lemma BytesOfWordLE(b0: Byte, b1: Byte, b2: Byte, b3: Byte)
    ensures var w := WordLE(b0, b1, b2, b3);
            ByteOf(w, 0) == b0 && ByteOf(w, 1) == b1 && ByteOf(w, 2) == b2 && ByteOf(w, 3) == b3
  {
    var w0 := WordLE(b0, b1, b2, b3);
    var w1 := b1 + 0x100 * b2 + 0x1_0000 * b3;
    var w2 := b2 + 0x100 * b3;
    assert w0 == b0 + 0x100 * w1 && w0 / 0x100 == w1;
    assert w1 == b1 + 0x100 * w2 && w1 / 0x100 == w2;
    assert w2 / 0x100 == b3;
    assert ByteOf(w0, 3) == ByteOf(w1, 2) == ByteOf(w2, 1) == ByteOf(b3, 0);
    assert ByteOf(w0, 2) == ByteOf(w1, 1) == ByteOf(w2, 0);
  }

  lemma WordOfBytes(w: Word)
    ensures WordLE(ByteOf(w, 0), ByteOf(w, 1), ByteOf(w, 2), ByteOf(w, 3)) == w
  {
    var w1: int := w / 0x100;
    var w2 := w1 / 0x100;
    var w3 := w2 / 0x100;
    assert w2 < 0x1_0000 && w3 < 0x100;
    assert ByteOf(w, 1) == ByteOf(w1, 0) == w1 - 0x100 * w2;
    assert ByteOf(w, 2) == ByteOf(w1, 1) == ByteOf(w2, 0) == w2 - 0x100 * w3;
    assert ByteOf(w, 3) == ByteOf(w1, 2) == ByteOf(w2, 1) == ByteOf(w3, 0) == w3;
  }

  lemma BytesOfPair(b0: Byte, b1: Byte)
    ensures ByteOf(b1 * 0x100 + b0, 0) == b0 && ByteOf(b1 * 0x100 + b0, 1) == b1
  {
  }
}
