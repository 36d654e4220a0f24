// SystemEx's MemoryReader, the byte cursor the decoders advance, with a
// reference definition for each of its reads: a function of the buffer and
// the cursor position that gives the value read and the position after it,
// or the exception the read raises.
module MemoryReaders {
  import opened Util

  type uint8 = b: int | 0 <= b < 256

  /** A decoded item and the cursor position just after it. */
  datatype Decoded<T> = Decoded(value: T, next: nat)

  /**
   * A reader operation returned `r` and left the cursor at `pos`, as the
   * reference definition `spec` says: the same value and position on
   * success, the same exception on failure.
   */
  predicate Agrees<T(==)>(r: Result<T>, spec: Result<Decoded<T>>, pos: nat)
  {
    match spec
    case Success(d) => r == Success(d.value) && pos == d.next
    case Failure(e) => r == Failure(e)
  }

  /** Applies `f` to a decoded value, keeping the position and any failure. */
  function Fmap<T, U>(r: Result<Decoded<T>>, f: T -> U): (q: Result<Decoded<U>>)
    ensures q.Success? <==> r.Success?
    ensures r.Success? ==> q.value == Decoded(f(r.value.value), r.value.next)
    ensures r.Failure? ==> q.error == r.error
  {
    match r
    case Success(d) => Success(Decoded(f(d.value), d.next))
    case Failure(e) => Failure(e)
  }

  // ---------------------------------------------------------------- bytes

  function Pow256(n: nat): (p: nat)
    ensures p > 0
  {
    if n == 0 then 1 else 256 * Pow256(n - 1)
  }

  /** A positive power of 256 is even. */
  lemma Pow256Even(n: nat)
    requires n > 0
    ensures Pow256(n) % 2 == 0
  {
    var h := 128 * Pow256(n - 1);
    assert Pow256(n) == 2 * h;
  }

  /** Eight bytes hold the values below 2^64. */
  lemma Pow256Of8()
    ensures Pow256(8) == 0x1_0000_0000_0000_0000
  {
    assert Pow256(2) == 0x1_0000;
    assert Pow256(4) == 0x1_0000_0000;
    assert Pow256(6) == 0x1_0000_0000_0000;
  }

  /** The unsigned little-endian value of a byte string. */
  function LittleEndian(s: seq<uint8>): (v: nat)
    ensures v < Pow256(|s|)
  {
    if |s| == 0 then 0 else s[0] + 256 * LittleEndian(s[1..])
  }

  /** The `n` low-order bytes of `v`, least significant first. */
  function LittleEndianBytes(v: nat, n: nat): (s: seq<uint8>)
    ensures |s| == n
  {
    if n == 0 then [] else [v % 256] + LittleEndianBytes(v / 256, n - 1)
  }

  /** Little-endian encoding and decoding are inverse on values that fit. */
  lemma {:induction false} LittleEndianRoundTrip(v: nat, n: nat)
    requires v < Pow256(n)
    ensures LittleEndian(LittleEndianBytes(v, n)) == v
  {
    if n > 0 {
      LittleEndianRoundTrip(v / 256, n - 1);
      assert LittleEndianBytes(v, n)[1..] == LittleEndianBytes(v / 256, n - 1);
    }
  }

  /** The two's-complement reading of an unsigned value of the given range. */
  function ToSigned(u: nat, range: nat): (i: int)
    requires u < range && range % 2 == 0
    ensures -(range / 2) <= i < range / 2
  {
    if u >= range / 2 then u - range else u
  }

  /** The `n` bytes at `pos`; too few bytes left (or a negative count) is EndOfData. */
  function BytesAt(data: seq<uint8>, pos: nat, n: int): (r: Result<Decoded<seq<uint8>>>)
    requires pos <= |data|
    ensures r.Success? <==> 0 <= n <= |data| - pos
    ensures r.Success? ==> r.value.next == pos + n && r.value.value == data[pos..pos + n]
    ensures r.Failure? ==> r.error == EndOfData
  {
    if 0 <= n <= |data| - pos then Success(Decoded(data[pos..pos + n], pos + n))
    else Failure(EndOfData)
  }

  function ByteAt(data: seq<uint8>, pos: nat): (r: Result<Decoded<uint8>>)
    requires pos <= |data|
    ensures r.Success? <==> pos < |data|
    ensures r.Success? ==> r.value == Decoded(data[pos], pos + 1)
    ensures r.Failure? ==> r.error == EndOfData
  {
    if pos < |data| then Success(Decoded(data[pos], pos + 1)) else Failure(EndOfData)
  }

  /** An unsigned little-endian integer of `n` bytes. */
  function UIntAt(data: seq<uint8>, pos: nat, n: nat): (r: Result<Decoded<nat>>)
    requires pos <= |data|
    ensures r.Success? <==> n <= |data| - pos
    ensures r.Success? ==> r.value == Decoded(LittleEndian(data[pos..pos + n]), pos + n)
    ensures r.Success? ==> r.value.value < Pow256(n)
    ensures r.Failure? ==> r.error == EndOfData
  {
    Fmap(BytesAt(data, pos, n), LittleEndian)
  }

  /** A signed (two's-complement) little-endian integer of `n` bytes. */
  function SIntAt(data: seq<uint8>, pos: nat, n: nat): (r: Result<Decoded<int>>)
    requires pos <= |data| && n > 0
    ensures r.Success? <==> n <= |data| - pos
    ensures r.Success? ==> r.value.next == pos + n
    ensures r.Success? ==> var u := LittleEndian(data[pos..pos + n]);
              r.value.value == if u >= Pow256(n) / 2 then u - Pow256(n) else u
    ensures r.Success? ==> -(Pow256(n) / 2) <= r.value.value < Pow256(n) / 2
    ensures r.Failure? ==> r.error == EndOfData
  {
    match UIntAt(data, pos, n)
    case Success(d) =>
      Pow256Even(n);
      Success(Decoded(ToSigned(d.value, Pow256(n)), d.next))
    case Failure(e) => Failure(e)
  }

  /** Puts already decoded items in front of a decoded sequence. */
  function Prepend<T>(done: seq<T>, r: Result<Decoded<seq<T>>>): (q: Result<Decoded<seq<T>>>)
    ensures q.Success? <==> r.Success?
    ensures r.Success? ==> q.value == Decoded(done + r.value.value, r.value.next)
    ensures r.Failure? ==> q.error == r.error
  {
    match r
    case Success(d) => Success(Decoded(done + d.value, d.next))
    case Failure(e) => Failure(e)
  }

  lemma PrependPrepend<T>(a: seq<T>, b: seq<T>, r: Result<Decoded<seq<T>>>)
    ensures Prepend(a, Prepend(b, r)) == Prepend(a + b, r)
  {
    if r.Success? {
      assert a + (b + r.value.value) == (a + b) + r.value.value;
    }
  }

  // ------------------------------------------------------------ the cursor

  /** SystemEx's MemoryReader: a byte buffer and a cursor into it. */
  class MemoryReader {
    const data: seq<uint8>
    var pos: nat

    predicate Valid()
      reads this
    {
      pos <= |data|
    }

    constructor (data: seq<uint8>)
      ensures this.data == data && pos == 0
    {
      this.data := data;
      pos := 0;
    }

    method ReadBytes(n: int) returns (r: Result<seq<uint8>>)
      requires Valid()
      modifies this
      ensures Valid() && Agrees(r, BytesAt(data, old(pos), n), pos)
    {
      if 0 <= n <= |data| - pos {
        r := Success(data[pos..pos + n]);
        pos := pos + n;
      } else {
        r := Failure(EndOfData);
      }
    }

    method ReadByte() returns (r: Result<uint8>)
      requires Valid()
      modifies this
      ensures Valid() && Agrees(r, ByteAt(data, old(pos)), pos)
    {
      if pos < |data| {
        r := Success(data[pos]);
        pos := pos + 1;
      } else {
        r := Failure(EndOfData);
      }
    }

    method ReadBoolean() returns (r: Result<bool>)
      requires Valid()
      modifies this
      ensures Valid() && Agrees(r, Fmap(ByteAt(data, old(pos)), (b: uint8) => b != 0), pos)
    {
      var b :- ReadByte();
      r := Success(b != 0);
    }

    /** An unsigned little-endian integer of `n` bytes. */
    method ReadUIntLittleEndian(n: nat) returns (r: Result<nat>)
      requires Valid()
      modifies this
      ensures Valid() && Agrees(r, UIntAt(data, old(pos), n), pos)
    {
      var bytes :- ReadBytes(n);
      r := Success(LittleEndian(bytes));
    }

    /** A signed little-endian integer of `n` bytes. */
    method ReadIntLittleEndian(n: nat) returns (r: Result<int>)
      requires Valid() && n > 0
      modifies this
      ensures Valid() && Agrees(r, SIntAt(data, old(pos), n), pos)
    {
      var u :- ReadUIntLittleEndian(n);
      Pow256Even(n);
      r := Success(ToSigned(u, Pow256(n)));
    }
  }
}
