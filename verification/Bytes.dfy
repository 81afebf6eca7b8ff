/** Bytes, little-endian numbers as `DataView` reads and writes them, and writing into a buffer. */
module ByteStrings {

  newtype Byte = x: int | 0 <= x < 0x100

  type Bytes = seq<Byte>

  datatype Result<T> = Ok(value: T) | ProtocolError

  /** `setUint16(.., n, true)`: what does not fit in sixteen bits is cut off. */
  function Uint16(n: nat): (b: Bytes)
    ensures |b| == 2
  {
    [(n % 0x100) as Byte, (n / 0x100 % 0x100) as Byte]
  }

  /** `setUint32(.., n, true)`. */
  function Uint32(n: nat): (b: Bytes)
    ensures |b| == 4
  {
    Uint16(n) + Uint16(n / 0x1_0000)
  }

  function GetUint16(b: Bytes): (n: nat)
    requires |b| >= 2
  {
    b[0] as int + 0x100 * b[1] as int
  }

  function GetUint32(b: Bytes): (n: nat)
    requires |b| >= 4
  {
    GetUint16(b) + 0x1_0000 * GetUint16(b[2..])
  }

  lemma Uint16RoundTrip(n: nat, rest: Bytes)
    ensures GetUint16(Uint16(n) + rest) == n % 0x1_0000
  {
    var low, high := n % 0x100, n / 0x100;
    assert n == 0x100 * high + low;
    assert high == 0x100 * (high / 0x100) + high % 0x100;
    assert n == 0x1_0000 * (high / 0x100) + (0x100 * (high % 0x100) + low);
  }

  lemma Uint32RoundTrip(n: nat, rest: Bytes)
    ensures GetUint32(Uint32(n) + rest) == n % 0x1_0000_0000
  {
    hide Uint16, GetUint16;
    var high := n / 0x1_0000;
    Uint16RoundTrip(n, Uint16(high) + rest);
    Uint16RoundTrip(high, rest);
    assert Uint32(n) + rest == Uint16(n) + (Uint16(high) + rest);
    assert (Uint32(n) + rest)[2..] == Uint16(high) + rest;
    ModuloSplits(n);
  }

  lemma ModuloSplits(n: nat)
    ensures n % 0x1_0000_0000 == n % 0x1_0000 + 0x1_0000 * (n / 0x1_0000 % 0x1_0000)
  {
    var low, high := n % 0x1_0000, n / 0x1_0000;
    assert n == 0x1_0000 * high + low;
    assert high == 0x1_0000 * (high / 0x1_0000) + high % 0x1_0000;
    assert n == 0x1_0000_0000 * (high / 0x1_0000) + (0x1_0000 * (high % 0x1_0000) + low);
  }

  /** A number that was read is written as it was. */
  lemma Uint16Restored(b: Bytes)
    requires |b| >= 2
    ensures GetUint16(b) < 0x1_0000 && Uint16(GetUint16(b)) == b[..2]
  {}

  lemma Uint32Restored(b: Bytes)
    requires |b| >= 4
    ensures GetUint32(b) < 0x1_0000_0000 && Uint32(GetUint32(b)) == b[..4]
  {
    Uint16Restored(b);
    Uint16Restored(b[2..]);
    var low, high := GetUint16(b), GetUint16(b[2..]);
    var n := GetUint32(b);
    assert n / 0x1_0000 == high;
    assert n % 0x100 == low % 0x100 && n / 0x100 % 0x100 == low / 0x100 % 0x100;
    assert Uint16(n) == Uint16(low);
    assert b[..4] == b[..2] + b[2..][..2];
  }

  /** Write `data` at `offset`; everything before it stays. */
  method Put(buffer: array<Byte>, offset: nat, data: Bytes) returns (next: nat)
    requires offset + |data| <= buffer.Length
    modifies buffer
    ensures next == offset + |data| && buffer[..next] == old(buffer[..offset]) + data
  {
    for i := 0 to |data|
      invariant buffer[..offset + i] == old(buffer[..offset]) + data[..i]
    {
      buffer[offset + i] := data[i];
      assert data[..i + 1] == data[..i] + [data[i]];
    }
    assert data[..|data|] == data;
    next := offset + |data|;
  }

  /** The bytes stand lowest first. */
  lemma LowestByteFirst(n: nat)
    requires n < 0x1_0000_0000
    ensures var b := Uint32(n);
      n == b[0] as int + 0x100 * b[1] as int + 0x1_0000 * b[2] as int + 0x100_0000 * b[3] as int
  {
    hide Uint16;
    Uint32RoundTrip(n, []);
    assert Uint32(n) + [] == Uint32(n);
  }
}
