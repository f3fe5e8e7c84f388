# Fast-Buffer in Dafny

This project models `fast_buffer.hpp`, a single C++ header. The header defines `fast_buffer`: a byte buffer with a read/write cursor. It also defines `fastbuff_iterator`: the proxy that `operator[]` returns, which reads or assigns one byte at an absolute index.

- `bytes.dfy` (module `Bytes`): the two element types `ubyte` and `sbyte`. In debug builds (`_DEBUG`) the C++ templates accept only these two; the model makes that restriction a type for every build (see Left out): `Octet` is either kind, and `ByteKind` chooses the type a read produces. The module also holds the conversions between values and storage bytes: modulo 2^8, which is two's complement for `sbyte`.
- `fast_buffer.dfy` (module `FastBuffers`): the class `FastBuffer` has the header's four fields:
  - `buf`: the storage array.
  - `size`: the logical length.
  - `seekpos`: the cursor.
  - `cachedSize`: the length remembered by a `resize` that takes the first fast path; a value `<= 0` (initially -1) means nothing is remembered.

  Every state-changing operation is a method. Its `ensures` gives the new array contents and fields in terms of the old ones. The module also holds `FastBuffIterator`, the proxy, and `ZeroFill`, the specification function of the zeroing loops.
- `scenarios.dfy` (module `Scenarios`): client methods that run sequences of operations and state what a caller observes. Three of them exhibit the findings below.

The model follows the code as written, including places where the code does not do what its operations are evidently meant to do:

- `clear(x1, x2)` zeroes up to `x2`, not up to `x1 + x2`, whenever `x1 + x2` fits in the length.
- The reallocating branch of `resize` does not update the length (the statement `this->size;` has no effect).
- `grow` keeps the remembered length, which can then exceed the new storage.

In one place the model departs from the code: the copy loop of `resize`'s reallocating branch reads `n` bytes of the old storage, past its end whenever the old storage is shorter than `n`. The model bounds that copy by the old storage length (see "Left out").

`Valid()` keeps the fields within 32 bits and the length non-negative. It also keeps `cachedSize >= size` whenever a length is remembered. The separate predicate `Sound()` says that the length and the remembered length both fit in the storage. `Grow` does not preserve `Sound()`.

## Model

| member | source | states |
|---|---|---|
| `Bytes.Store` | fast_buffer.hpp:162-169 | storing a value of type `T` into the `unsigned char` storage gives the value reduced modulo 256; an unsigned value is stored unchanged |
| `Bytes.Load` | fast_buffer.hpp:171-178 | the `(T)` cast of a storage byte gives a value of the requested type that is congruent to the byte modulo 256, and storing that value gives the byte back |
| `Bytes.LoadStore` | fast_buffer.hpp:162-178 | storing a value and reading it back as the same type (unsigned or signed) gives the value |
| `Bytes.StoreInjective` | fast_buffer.hpp:162-178 | two values of one type that are stored as the same byte are equal |
| `FastBuffers.ZeroFill` | fast_buffer.hpp:83-93 | the zeroing loops' result: the same length, 0 at every index in `[lo, hi)`, every other byte unchanged, and the sequence itself when the range is empty |
| `FastBuffers.ClearEnd` | fast_buffer.hpp:89 | the end index of `clear(x1, x2)`: for `x1 >= 0` it never passes the logical length or `x1 + x2`, and it is the length when `x1 + x2` exceeds it |
| `FastBuffers.IntendedClearEnd` | fast_buffer.hpp:88-93 | the corrected end index: for a start within the length it zeroes exactly `min(count, length - start)` bytes |
| `FastBuffers.FastBuffIterator.Convert` | fast_buffer.hpp:20-29 | reading through the proxy gives a value of the requested type whose stored form is the byte at the proxy's index |
| `FastBuffers.FastBuffIterator.Assign` | fast_buffer.hpp:31-40 | assigning through the proxy changes only the byte at its index, which becomes the stored value; the assignment yields the assigned value |
| `FastBuffers.FastBuffer.constructor` | fast_buffer.hpp:50-53 | owning construction with `n`: storage of `n` bytes, all 0; length `n`; cursor 0; no remembered length (-1) |
| `FastBuffers.FastBuffer.Length` | fast_buffer.hpp:75-77 | `length()` is the logical length, between 0 and the largest `int` |
| `FastBuffers.FastBuffer.Position` | fast_buffer.hpp:79-81 | `position()` is the cursor, a 32-bit value that nothing clamps |
| `FastBuffers.FastBuffer.Peek` | fast_buffer.hpp:171-178 | `peek<T>(pos)` gives a value of type `T` whose stored form is the byte at `pos` |
| `FastBuffers.FastBuffer.ResizeLimit` | fast_buffer.hpp:106-117 | the length up to which `resize` keeps the storage is at least the logical length, and it fits in the storage when `Sound()` holds |
| `FastBuffers.FastBuffer.Clear` | fast_buffer.hpp:83-86 | `clear()` zeroes every byte below the length; the rest of the storage, the cursor, the length and the remembered length are unchanged |
| `FastBuffers.FastBuffer.ClearRange` | fast_buffer.hpp:88-93 | `clear(x1, x2)` zeroes exactly `[x1, ClearEnd(x1, x2, size))` and nothing else; it does nothing when `x1` is not below that end |
| `FastBuffers.FastBuffer.ClearCount` | fast_buffer.hpp:88-93 | the corrected `clear(start, count)` zeroes exactly `[start, min(start + count, length))` |
| `FastBuffers.FastBuffer.Grow` | fast_buffer.hpp:95-103 | `grow()` installs new storage of `size * size` bytes whose first `size` bytes are the old ones; the length, the cursor and the remembered length are unchanged |
| `FastBuffers.FastBuffer.GrowForgettingCache` | fast_buffer.hpp:95-103 | the corrected `grow()` does the same and drops the remembered length, so that `Sound()` is preserved |
| `FastBuffers.FastBuffer.Resize` | fast_buffer.hpp:105-128 | `resize(n)` up to the limit sets only the length to `n` and remembers a length `>= n`, leaving the storage and its bytes unchanged; beyond the limit it installs `n` new bytes starting with the old ones, drops the remembered length and leaves the length unchanged; it preserves `Valid()` and `Sound()` and never moves the cursor |
| `FastBuffers.FastBuffer.ResizeSettingLength` | fast_buffer.hpp:105-128 | the corrected `resize(n)` has length `n` afterwards on both branches and keeps the rest of `resize`'s behaviour |
| `FastBuffers.FastBuffer.Reallocate` | fast_buffer.hpp:119-126 | the reallocating branch: fresh storage of `n` bytes whose prefix, up to the old storage length, is the old bytes; no remembered length; `Sound()` holds afterwards |
| `FastBuffers.FastBuffer.Seek` | fast_buffer.hpp:130-142 | `seek` sets the cursor to `offset` (start), adds `offset` to it (relative) or sets it to `size - 1 + offset` (end), without clamping; nothing else changes |
| `FastBuffers.FastBuffer.Write` | fast_buffer.hpp:144-151 | `write<T>(v)` stores `v` at the old cursor, changes no other byte and advances the cursor by one; peeking there gives `v` back |
| `FastBuffers.FastBuffer.Read` | fast_buffer.hpp:153-160 | `read<T>()` gives `peek<T>` at the old cursor, changes no byte and advances the cursor by one |
| `FastBuffers.FastBuffer.Poke` | fast_buffer.hpp:162-169 | `poke<T>(v, pos)` changes only the byte at `pos` and leaves the cursor, the length and the remembered length unchanged; `peek` of the same type there gives `v` |
| `FastBuffers.FastBuffer.Index` | fast_buffer.hpp:180-182 | `operator[]` gives a proxy on the buffer's current storage at the absolute index, not relative to the cursor |
| `FastBuffers.FastBuffer.ConvertAtCursor` | fast_buffer.hpp:184-190 | converting the buffer itself behaves as `read<T>()` |
| `FastBuffers.FastBuffer.AssignAtCursor` | fast_buffer.hpp:192-199 | assigning to the buffer itself behaves as `write<T>(v)` and yields `v` |
| `Scenarios.PokeSeekReadClear` | fast_buffer.hpp:88-178 | on 8 zero bytes: poke 200 at 3; peek(3) is 200; seek to 3; read is 200; the position is then 4; after `clear(2, 4)`, peek(3) is 0 |
| `Scenarios.SignedPokeUnsignedPeek` | fast_buffer.hpp:162-178 | poking the signed byte -56 stores 200; peeking as signed gives -56 again |
| `Scenarios.SeekWriteSeekRead` | fast_buffer.hpp:130-160 | seek to `p`, write `v`, seek to `p`, read: the result is `v`, the cursor is `p + 1`, and only byte `p` changed |
| `Scenarios.AssignThenConvertAtIndex` | fast_buffer.hpp:20-40 | `b[i] = v` yields `v` and changes only byte `i`; reading `b[i]` then gives `v`, which is also `peek(i)` |
| `Scenarios.IndexConvertIsPeek` | fast_buffer.hpp:171-182 | reading through `b[i]` equals `peek(i)` |
| `Scenarios.ShrinkThenRegrow` | fast_buffer.hpp:105-117 | shrinking and then regrowing within the old length keeps the same storage and all of its bytes, and remembers the old length |
| `Scenarios.ClearTwoFourKeepsFour` | fast_buffer.hpp:89 | on 8 bytes, `clear(2, 4)` leaves byte 4 as it was; the corrected clear zeroes it |
| `Scenarios.ResizeGrowKeepsLength` | fast_buffer.hpp:95-127 | a 4-byte buffer grown to 16 bytes of storage and resized to 8 gets 8 bytes of storage, but `length()` stays 4; the corrected resize gives 8 |
| `Scenarios.GrowAfterShrinkOverruns` | fast_buffer.hpp:95-117 | 10 bytes, resize to 2, grow, resize to 8: the length is 8 over 4 bytes of storage; with the corrected grow, the same calls reallocate 8 bytes and keep the length at 2 (that reallocation copies the 4 bytes of old storage, bounded as noted under Left out) |

## Left out

- The aliasing constructors `fast_buffer(uint64, int)` and `fast_buffer(void*, int)`: they reinterpret raw addresses, and the model has no memory outside its own arrays.
- The destructor and the class-level `operator delete`: they only release memory, and Dafny's heap is garbage-collected.
- The debug-only `static_assert`s on `T`: replaced by the `Octet` type, which admits only the two byte types in every build. Release builds also accept wider `T` (e.g. `write(300)` stores the byte 44); those instantiations are not modelled.
- The proxy's pointer lifetime: a proxy holds the storage array it was created on, and it is meant to be consumed at once. After `grow`, or a `resize` that reallocates, the C++ pointer dangles; in the model it still refers to the old array. A `resize` on the fast path keeps the storage, so the pointer stays valid there.
- Undefined behaviour is excluded by `requires` clauses, not modelled: indices outside the storage and signed 32-bit overflow (`x1 + x2`, `size * size`, seek targets).
- Negative sizes are excluded by `requires 0 <= n` on the constructor and on `resize`, and by `0 <= size` in `Valid()`. This gives up two defined behaviours of the source. `fast_buffer(n)` with `n < 0` throws `std::bad_array_new_length` from the allocation. `resize(n)` with `n < 0` takes the fast path, so `length()` becomes negative.
- FastBuffers.FastBuffer.Reallocate: copies only `min(old storage length, n)` bytes. The source's loop reads `n` bytes of the old storage, which reads past its end when the storage grows.
- The contents of newly allocated storage beyond the copied prefix are uninitialised in the source. The model leaves them unconstrained.
- Thread safety: the source has none, and the model is sequential.

## Findings

| source | as written | input that shows it | evidently intended | confidence | as-written member | corrected member |
|---|---|---|---|---|---|---|
| fast_buffer.hpp:89 | the end index is `x2` when `x1 + x2 <= size`, so `clear(x1, x2)` zeroes `[x1, x2)` | 8-byte buffer, `clear(2, 4)`: bytes 4 and 5 are not zeroed | zero `[x1, min(x1 + x2, size))`, i.e. `x2` bytes from `x1` | high, not executed | `Scenarios.ClearTwoFourKeepsFour` | `FastBuffers.FastBuffer.ClearCount` |
| fast_buffer.hpp:127 | `this->size;` has no effect, so a reallocating `resize(n)` leaves `length()` at the old value | `fast_buffer(4)`, `grow()`, `resize(8)`: 8 bytes of storage (copied from within the 16), but `length()` is 4 | `this->size = size;` | high, not executed | `Scenarios.ResizeGrowKeepsLength` | `FastBuffers.FastBuffer.ResizeSettingLength` |
| fast_buffer.hpp:95-103 | `grow()` replaces the storage but keeps `cached_size`, which can exceed the new storage; a later `resize` within `cached_size` then sets a length past the end of the storage | `fast_buffer(10)`, `resize(2)`, `grow()`, `resize(8)`: length 8 over 4 bytes, so `clear()` writes 4 bytes out of bounds | drop the remembered length when the storage is replaced, as the reallocating branch of `resize` does | medium, not executed | `Scenarios.GrowAfterShrinkOverruns` | `FastBuffers.FastBuffer.GrowForgettingCache` |
