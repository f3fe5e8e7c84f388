/** `fast_buffer`: a byte buffer with a read/write cursor, and
    `fastbuff_iterator`, the proxy that `operator[]` returns.

    The buffer keeps four fields: the storage array `buf`, the logical length
    `size`, the cursor `seekpos`, and `cachedSize`, the length remembered by a
    `resize` that takes the first fast path, so that a later `resize` up to
    it needs no new storage (a value `<= 0`, initially -1, when nothing is
    remembered). All fields are C++ `int`s, so
    `Valid()` keeps them within 32 bits, and the `requires` clauses rule out
    the signed overflow and out-of-range indexing that the C++ code leaves
    undefined. */
module FastBuffers {
  import opened Bytes

  const INT_MIN: int := -0x8000_0000
  const INT_MAX: int := 0x7fff_ffff

  predicate IsInt(x: int) {
    INT_MIN <= x <= INT_MAX
  }

  function Min(a: int, b: int): int {
    if a <= b then a else b
  }

  /** The three seek modes: absolute, relative to the cursor, and relative to
      the last byte of the logical length. */
  datatype SeekMode = Start | Relative | End

  /** `s` with the bytes at indices `lo` up to (not including) `hi` set to 0,
      one index at a time as the zeroing loops do; an empty range leaves `s`
      as it is. */
  function ZeroFill(s: seq<ubyte>, lo: int, hi: int): (r: seq<ubyte>)
    requires lo < hi ==> 0 <= lo && hi <= |s|
    ensures |r| == |s| && (lo >= hi ==> r == s)
    ensures forall i :: 0 <= i < |s| ==> r[i] == if lo <= i < hi then 0 else s[i]
    decreases hi - lo
  {
    if lo >= hi then s else ZeroFill(s[lo := 0], lo + 1, hi)
  }

  /** The end index that `clear(x1, x2)` zeroes up to, as written: the
      logical length when `x1 + x2` exceeds it, and `x2` itself otherwise. */
  function ClearEnd(x1: int, x2: int, size: int): (e: int)
    ensures 0 <= x1 ==> e <= size && e <= x1 + x2
    ensures x1 + x2 > size ==> e == size
    ensures x1 + x2 <= size ==> e == x2
  {
    if x1 + x2 > size then size else x2
  }

  /** The end index of the range [x1, x1 + x2) cut at the logical length:
      what `clear(start, count)` is meant to zero. */
  function IntendedClearEnd(x1: int, x2: int, size: int): (e: int)
    ensures 0 <= x1 <= size && 0 <= x2 ==> e - x1 == Min(x2, size - x1)
    ensures e <= size && e <= x1 + x2
  {
    if x1 + x2 > size then size else x1 + x2
  }

  /** `fastbuff_iterator`: the storage pointer captured when `operator[]` was
      applied, and an absolute index into it. */
  datatype FastBuffIterator = FastBuffIterator(pointer: array<ubyte>, index: int) {

    /** `operator T()`: the byte at the index, read as type `kind`. */
    function Convert(kind: ByteKind): (r: Octet)
      reads pointer
      requires 0 <= index < pointer.Length
      ensures r.Kind() == kind && Store(r) == pointer[index]
    {
      Load(kind, pointer[index])
    }

    /** `operator =(T)`: stores `v` at the index and yields the stored byte
        read back as the type of `v`, that is `v` itself. */
    method Assign(v: Octet) returns (r: Octet)
      requires 0 <= index < pointer.Length
      modifies pointer
      ensures pointer[..] == old(pointer[..])[index := Store(v)]
      ensures r == v
    {
      pointer[index] := Store(v);
      r := Load(v.Kind(), pointer[index]);
      LoadStore(v);
    }
  }

  class FastBuffer {
    var buf: array<ubyte>
    var size: int
    var seekpos: int
    var cachedSize: int

    /** The fields are 32-bit, the logical length is never negative, and a
        remembered length is never below the logical length. */
    ghost predicate Valid()
      reads this
    {
      IsInt(size) && IsInt(seekpos) && IsInt(cachedSize) &&
      0 <= size && buf.Length <= INT_MAX &&
      (cachedSize > 0 ==> size <= cachedSize)
    }

    /** The logical length, and a remembered length when there is one, fit in
        the storage. Every operation but `Grow` keeps this. */
    ghost predicate Sound()
      reads this
    {
      size <= buf.Length && (cachedSize > 0 ==> cachedSize <= buf.Length)
    }

    /** The owning constructor `fast_buffer(int)`: `n` zero bytes. */
    constructor (n: int)
      requires 0 <= n <= INT_MAX
      ensures Valid() && Sound() && fresh(buf)
      ensures buf.Length == n && size == n && seekpos == 0 && cachedSize == -1
      ensures forall i :: 0 <= i < n ==> buf[i] == 0
    {
      buf := new ubyte[n](_ => 0);
      size := n;
      seekpos := 0;
      cachedSize := -1;
    }

    /** `length()`. */
    function Length(): (r: int)
      reads this
      requires Valid()
      ensures 0 <= r <= INT_MAX && r == size
    {
      size
    }

    /** `position()`: the cursor, which nothing clamps. */
    function Position(): (r: int)
      reads this
      requires Valid()
      ensures IsInt(r) && r == seekpos
    {
      seekpos
    }

    /** `peek<T>(pos)`: the byte at absolute index `pos`, read as `kind`. */
    function Peek(kind: ByteKind, pos: int): (r: Octet)
      reads this, buf
      requires Valid() && 0 <= pos < buf.Length
      ensures r.Kind() == kind && Store(r) == buf[pos]
    {
      Load(kind, buf[pos])
    }

    /** The length up to which `resize` needs no new storage: the logical
        length when nothing is remembered, the remembered length otherwise. */
    function ResizeLimit(): (r: int)
      reads this
      requires Valid()
      ensures size <= r
      ensures Sound() ==> r <= buf.Length
    {
      if cachedSize <= 0 then size else cachedSize
    }

    /** `clear()`: zeroes the logical length; bytes of the storage beyond it
        stay. */
    method Clear()
      requires Valid() && size <= buf.Length
      modifies buf
      ensures buf[..] == ZeroFill(old(buf[..]), 0, size)
    {
      var i := 0;
      while i < size
        invariant 0 <= i <= size
        invariant forall k :: 0 <= k < buf.Length ==> buf[k] == if k < i then 0 else old(buf[k])
      {
        buf[i] := 0;
        i := i + 1;
      }
    }

    /** `clear(x1, x2)` as written: zeroes [x1, ClearEnd(x1, x2, size)). */
    method ClearRange(x1: int, x2: int)
      requires Valid() && IsInt(x1) && IsInt(x2) && IsInt(x1 + x2)
      requires x1 < ClearEnd(x1, x2, size) ==> 0 <= x1 && ClearEnd(x1, x2, size) <= buf.Length
      modifies buf
      ensures buf[..] == ZeroFill(old(buf[..]), x1, ClearEnd(x1, x2, size))
    {
      var endPoint := if x1 + x2 > size then size else x2;
      var i := x1;
      while i < endPoint
        invariant i == x1 || x1 <= i <= endPoint
        invariant forall k :: 0 <= k < buf.Length ==> buf[k] == if x1 <= k < i then 0 else old(buf[k])
      {
        buf[i] := 0;
        i := i + 1;
      }
    }

    /** `clear(start, count)` as it is meant to be: zeroes
        [start, min(start + count, size)). */
    method ClearCount(start: int, count: int)
      requires Valid() && IsInt(start) && IsInt(count) && IsInt(start + count)
      requires start < IntendedClearEnd(start, count, size) ==> 0 <= start && IntendedClearEnd(start, count, size) <= buf.Length
      modifies buf
      ensures buf[..] == ZeroFill(old(buf[..]), start, IntendedClearEnd(start, count, size))
    {
      var endPoint := if start + count > size then size else start + count;
      var i := start;
      while i < endPoint
        invariant i == start || start <= i <= endPoint
        invariant forall k :: 0 <= k < buf.Length ==> buf[k] == if start <= k < i then 0 else old(buf[k])
      {
        buf[i] := 0;
        i := i + 1;
      }
    }

    /** `grow()` as written: new storage of `size * size` bytes whose first
        `size` bytes are the old ones; the logical length, the cursor and the
        remembered length are left alone. */
    method Grow()
      requires Valid() && size <= buf.Length && size * size <= INT_MAX
      modifies this`buf
      ensures Valid() && fresh(buf) && size <= buf.Length
      ensures buf.Length == size * size && buf[..size] == old(buf[..size])
    {
      var grown := new ubyte[size * size];
      var i := 0;
      while i < size
        invariant 0 <= i <= size
        invariant forall k :: 0 <= k < i ==> grown[k] == buf[k]
        modifies grown
      {
        grown[i] := buf[i];
        i := i + 1;
      }
      buf := grown;
    }

    /** `grow()` with the remembered length dropped, as the reallocating
        branch of `resize` does, so that `Sound()` is kept. */
    method GrowForgettingCache()
      requires Valid() && Sound() && size * size <= INT_MAX
      modifies this`buf, this`cachedSize
      ensures Valid() && Sound() && fresh(buf) && cachedSize == -1
      ensures buf.Length == size * size && buf[..size] == old(buf[..size])
    {
      Grow();
      cachedSize := -1;
    }

    /** `resize(n)` as written. Up to `ResizeLimit()` only the logical length
        changes, and the old length is remembered. Beyond it the storage is
        replaced by `n` bytes starting with the old ones, the remembered
        length is dropped, and the logical length is left unchanged. */
    method Resize(n: int)
      requires Valid() && 0 <= n <= INT_MAX
      modifies this
      ensures Valid() && seekpos == old(seekpos)
      ensures old(Sound()) ==> Sound()
      ensures n <= old(ResizeLimit()) ==>
        buf == old(buf) && buf[..] == old(buf[..]) && size == n && n <= cachedSize &&
        cachedSize == (if old(cachedSize) <= 0 then old(size) else old(cachedSize))
      ensures n > old(ResizeLimit()) ==>
        fresh(buf) && buf.Length == n && size == old(size) < n && cachedSize == -1 &&
        buf[..Min(old(buf.Length), n)] == old(buf[..Min(buf.Length, n)])
    {
      if cachedSize <= 0 {
        if size >= n {
          cachedSize := size;
          size := n;
          return;
        }
      } else {
        if n <= cachedSize {
          size := n;
          return;
        }
      }
      Reallocate(n);
    }

    /** `resize(n)` with the logical length set to `n` on the reallocating
        branch too, so that `length()` is `n` afterwards in every case. */
    method ResizeSettingLength(n: int)
      requires Valid() && 0 <= n <= INT_MAX
      modifies this
      ensures Valid() && seekpos == old(seekpos) && size == n
      ensures old(Sound()) ==> Sound()
      ensures n <= old(ResizeLimit()) ==>
        buf == old(buf) && buf[..] == old(buf[..]) && n <= cachedSize &&
        cachedSize == (if old(cachedSize) <= 0 then old(size) else old(cachedSize))
      ensures n > old(ResizeLimit()) ==>
        fresh(buf) && buf.Length == n && cachedSize == -1 && Sound() &&
        buf[..Min(old(buf.Length), n)] == old(buf[..Min(buf.Length, n)])
    {
      Resize(n);
      size := n;
    }

    /** The reallocating branch of `resize`: `n` new bytes, the first ones
        copied from the old storage, and no remembered length. */
    method Reallocate(n: int)
      requires Valid() && size < n <= INT_MAX
      modifies this`buf, this`cachedSize
      ensures Valid() && Sound() && fresh(buf) && buf.Length == n && cachedSize == -1
      ensures buf[..Min(old(buf.Length), n)] == old(buf[..Min(buf.Length, n)])
    {
      var grown := new ubyte[n];
      var copied := Min(buf.Length, n);
      var i := 0;
      while i < copied
        invariant 0 <= i <= copied
        invariant forall k :: 0 <= k < i ==> grown[k] == buf[k]
        modifies grown
      {
        grown[i] := buf[i];
        i := i + 1;
      }
      buf := grown;
      cachedSize := -1;
    }

    /** `seek(mode, offset)`: moves the cursor without clamping it. */
    method Seek(mode: SeekMode, offset: int)
      requires Valid() && IsInt(offset)
      requires mode.Relative? ==> IsInt(seekpos + offset)
      requires mode.End? ==> IsInt(size - 1 + offset)
      modifies this`seekpos
      ensures Valid()
      ensures mode.Start? ==> seekpos == offset
      ensures mode.Relative? ==> seekpos == old(seekpos) + offset
      ensures mode.End? ==> seekpos == size - 1 + offset
    {
      match mode
      case Start => seekpos := offset;
      case Relative => seekpos := seekpos + offset;
      case End => seekpos := (size - 1) + offset;
    }

    /** `write<T>(v)`: stores `v` at the cursor, then advances the cursor. */
    method Write(v: Octet)
      requires Valid() && 0 <= seekpos < buf.Length
      modifies this`seekpos, buf
      ensures Valid() && seekpos == old(seekpos) + 1
      ensures buf[..] == old(buf[..])[old(seekpos) := Store(v)]
      ensures Peek(v.Kind(), old(seekpos)) == v
    {
      buf[seekpos] := Store(v);
      seekpos := seekpos + 1;
      LoadStore(v);
    }

    /** `read<T>()`: the byte at the cursor read as `kind`, then the cursor
        advances. */
    method Read(kind: ByteKind) returns (r: Octet)
      requires Valid() && 0 <= seekpos < buf.Length
      modifies this`seekpos
      ensures Valid() && seekpos == old(seekpos) + 1
      ensures r == Peek(kind, old(seekpos))
    {
      r := Load(kind, buf[seekpos]);
      seekpos := seekpos + 1;
    }

    /** `poke<T>(v, pos)`: stores `v` at absolute index `pos`; the cursor is
        not moved. */
    method Poke(v: Octet, pos: int)
      requires Valid() && 0 <= pos < buf.Length
      modifies buf
      ensures buf[..] == old(buf[..])[pos := Store(v)]
      ensures Peek(v.Kind(), pos) == v
    {
      buf[pos] := Store(v);
      LoadStore(v);
    }

    /** `operator[](index)`: a proxy on the current storage at absolute
        `index`, whatever the cursor. */
    function Index(index: int): (it: FastBuffIterator)
      reads this
      ensures it.pointer == buf && it.index == index
    {
      FastBuffIterator(buf, index)
    }

    /** `operator T()` of the buffer: the same as `read<T>()`. */
    method ConvertAtCursor(kind: ByteKind) returns (r: Octet)
      requires Valid() && 0 <= seekpos < buf.Length
      modifies this`seekpos
      ensures Valid() && seekpos == old(seekpos) + 1
      ensures r == Peek(kind, old(seekpos))
    {
      r := Load(kind, buf[seekpos]);
      seekpos := seekpos + 1;
    }

    /** `operator =(T)` of the buffer: the same as `write<T>(v)`, yielding
        the stored byte read back as the type of `v`, which is `v`. */
    method AssignAtCursor(v: Octet) returns (r: Octet)
      requires Valid() && 0 <= seekpos < buf.Length
      modifies this`seekpos, buf
      ensures Valid() && seekpos == old(seekpos) + 1
      ensures buf[..] == old(buf[..])[old(seekpos) := Store(v)]
      ensures r == v
    {
      buf[seekpos] := Store(v);
      r := Load(v.Kind(), buf[seekpos]);
      seekpos := seekpos + 1;
      LoadStore(v);
    }
  }
}
