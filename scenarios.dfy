/** Sequences of buffer operations, each stating what a caller observes. The
    last three exhibit, on concrete inputs, where the code as written differs
    from what the buffer is evidently meant to do, next to the corrected
    operation. */
module Scenarios {
  import opened Bytes
  import opened FastBuffers

  /** An 8-byte buffer: poke 200 at 3, peek it, seek to 3 and read it (the
      cursor is then 4), clear from 2, and index 3 is 0 again. */
  method PokeSeekReadClear() returns (peeked: Octet, read: Octet, pos: int, cleared: Octet)
    ensures peeked == U(200) && read == U(200) && pos == 4 && cleared == U(0)
  {
    var b := new FastBuffer(8);
    b.Poke(U(200), 3);
    peeked := b.Peek(Unsigned, 3);
    b.Seek(Start, 3);
    read := b.Read(Unsigned);
    pos := b.Position();
    b.ClearRange(2, 4);
    cleared := b.Peek(Unsigned, 3);
  }

  /** A signed byte is stored in two's complement: poking -56 leaves the byte
      200, and peeking it as signed gives -56 back. */
  method SignedPokeUnsignedPeek() returns (unsigned: Octet, signed: Octet)
    ensures unsigned == U(200) && signed == S(-56)
  {
    var b := new FastBuffer(4);
    b.Poke(S(-56), 1);
    unsigned := b.Peek(Unsigned, 1);
    signed := b.Peek(Signed, 1);
  }

  /** Seeking to `p`, writing `v`, seeking to `p` again and reading gives `v`
      back; only byte `p` changed, and the cursor ends one past `p`. */
  method SeekWriteSeekRead(b: FastBuffer, p: int, v: Octet) returns (r: Octet)
    requires b.Valid() && 0 <= p < b.buf.Length
    modifies b, b.buf
    ensures b.Valid() && b.buf == old(b.buf) && r == v && b.Position() == p + 1
    ensures b.buf[..] == old(b.buf[..])[p := Store(v)]
    ensures b.size == old(b.size) && b.cachedSize == old(b.cachedSize)
  {
    b.Seek(Start, p);
    b.Write(v);
    b.Seek(Start, p);
    r := b.Read(v.Kind());
  }

  /** Assigning through `b[i]` and converting `b[i]` back gives the stored
      value, as `poke` and `peek` do; the cursor is not involved. */
  method AssignThenConvertAtIndex(b: FastBuffer, i: int, v: Octet) returns (stored: Octet, read: Octet)
    requires b.Valid() && 0 <= i < b.buf.Length
    modifies b.buf
    ensures stored == v && read == v && read == b.Peek(v.Kind(), i)
    ensures b.buf[..] == old(b.buf[..])[i := Store(v)]
  {
    stored := b.Index(i).Assign(v);
    read := b.Index(i).Convert(v.Kind());
  }

  /** Reading through `b[i]` is `peek(i)`. */
  lemma IndexConvertIsPeek(b: FastBuffer, kind: ByteKind, i: int)
    requires b.Valid() && 0 <= i < b.buf.Length
    ensures b.Index(i).Convert(kind) == b.Peek(kind, i)
  {
  }

  /** Shrinking and then growing back within the old length keeps the same
      storage with all its bytes, including those past the shrunk length. */
  method ShrinkThenRegrow(b: FastBuffer, small: int, big: int)
    requires b.Valid() && b.Sound() && b.cachedSize <= 0 && 0 <= small <= big <= b.size
    modifies b
    ensures b.Valid() && b.Sound() && b.size == big && b.cachedSize == old(b.size)
    ensures b.buf == old(b.buf) && b.buf[..] == old(b.buf[..])
  {
    b.Resize(small);
    b.Resize(big);
  }

  /** `clear(2, 4)` on 8 bytes leaves byte 4 alone, where clearing 4 bytes
      from index 2 zeroes it. */
  method ClearTwoFourKeepsFour() returns (asWritten: Octet, intended: Octet)
    ensures asWritten == U(7) && intended == U(0)
  {
    var b := new FastBuffer(8);
    b.Poke(U(7), 4);
    b.ClearRange(2, 4);
    asWritten := b.Peek(Unsigned, 4);
    var c := new FastBuffer(8);
    c.Poke(U(7), 4);
    c.ClearCount(2, 4);
    intended := c.Peek(Unsigned, 4);
  }

  /** A 4-byte buffer grown to 16 bytes of storage and then resized to 8
      gets 8 bytes of storage (copied wholly from inside the 16) but keeps
      `length()` at 4. */
  method ResizeGrowKeepsLength() returns (asWritten: int, intended: int, storage: int)
    ensures asWritten == 4 && intended == 8 && storage == 8
  {
    var b := new FastBuffer(4);
    b.Grow();
    assert b.buf.Length == 16;
    b.Resize(8);
    asWritten, storage := b.Length(), b.buf.Length;
    var c := new FastBuffer(4);
    c.Grow();
    c.ResizeSettingLength(8);
    intended := c.Length();
  }

  /** A 10-byte buffer resized to 2, grown, and resized to 8 ends with a
      logical length of 8 over 4 bytes of storage, so that `clear()` would
      write past the storage. Dropping the remembered length in `grow` makes
      the last resize reallocate instead. */
  method GrowAfterShrinkOverruns() returns (length: int, storage: int, fixedLength: int, fixedStorage: int)
    ensures length == 8 && storage == 4
    ensures fixedLength == 2 && fixedStorage == 8
  {
    var b := new FastBuffer(10);
    b.Resize(2);
    b.Grow();
    b.Resize(8);
    length, storage := b.Length(), b.buf.Length;
    var c := new FastBuffer(10);
    c.Resize(2);
    c.GrowForgettingCache();
    c.Resize(8);
    fixedLength, fixedStorage := c.Length(), c.buf.Length;
  }
}
