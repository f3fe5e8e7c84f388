/** The two 8-bit element types a fast buffer accepts, and the conversions the
    buffer applies between them and its unsigned storage bytes.

    The C++ operations are templates whose type argument is restricted to
    `ubyte` (unsigned char) or `sbyte` (signed char) only in debug builds,
    by `static_assert`s under `_DEBUG`. Here that restriction is a type, in
    every build: an `Octet` is either an unsigned or a signed byte, and `ByteKind`
    names which of the two a read should produce. */
module Bytes {

  newtype ubyte = x: int | 0 <= x < 256
  newtype sbyte = x: int | -128 <= x < 128

  /** The type argument `T` of a typed read: `ubyte` or `sbyte`. */
  datatype ByteKind = Unsigned | Signed

  /** A value of type `T`, for `T` one of the two byte types. */
  datatype Octet = U(u: ubyte) | S(s: sbyte) {

    function Kind(): ByteKind {
      if U? then Unsigned else Signed
    }

    /** The integer the value denotes. */
    function Value(): int {
      if U? then u as int else s as int
    }
  }

  /** Conversion of a value to a storage byte, as happens when a value of type
      `T` is assigned to an element of the `unsigned char` storage: the
      result is the value reduced modulo 2^8. */
  function Store(v: Octet): (b: ubyte)
    ensures b as int == v.Value() % 256
    ensures v.U? ==> b == v.u
  {
    match v
    case U(u) => u
    case S(s) => if s < 0 then (s as int + 256) as ubyte else s as ubyte
  }

  /** Conversion of a storage byte to a value of type `T` (the `(T)` cast of
      a read): the one value of that type congruent to the byte modulo 2^8,
      which for `sbyte` is the two's-complement reading of the byte. */
  function Load(kind: ByteKind, b: ubyte): (r: Octet)
    ensures r.Kind() == kind
    ensures r.Value() % 256 == b as int
    ensures Store(r) == b
  {
    match kind
    case Unsigned => U(b)
    case Signed => S(if b >= 128 then (b as int - 256) as sbyte else b as sbyte)
  }

  /** Storing a value and reading it back as the same type gives the value:
      the round trip behind `poke`/`peek` and `write`/`read`. */
  lemma LoadStore(v: Octet)
    ensures Load(v.Kind(), Store(v)) == v
  {
    var r := Load(v.Kind(), Store(v));
    assert r.Value() % 256 == v.Value() % 256;
    if v.S? {
      assert -128 <= r.Value() < 128 && -128 <= v.Value() < 128;
    }
  }

  /** Two values of the same type that are stored as the same byte are equal:
      storage loses nothing once the type is known. */
  lemma StoreInjective(v: Octet, w: Octet)
    requires v.Kind() == w.Kind() && Store(v) == Store(w)
    ensures v == w
  {
    LoadStore(v);
    LoadStore(w);
  }
}
