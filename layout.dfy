/** Bytes of an archive and the little-endian 32-bit fields stored in them. */
module Layout {

  newtype byte = b: int | 0 <= b < 256

  const TWO_31: int := 0x8000_0000
  const TWO_32: int := 0x1_0000_0000

  /** The unsigned 32-bit little-endian integer stored in buf[pos..pos + 4]. */
  function LoadU32(buf: seq<byte>, pos: nat): (v: nat)
    requires pos + 4 <= |buf|
    ensures v < TWO_32
  {
    buf[pos] as int + 0x100 * buf[pos + 1] as int
    + 0x1_0000 * buf[pos + 2] as int + 0x100_0000 * buf[pos + 3] as int
  }

  /** The signed (two's complement) 32-bit little-endian integer stored in buf[pos..pos + 4]. */
  function LoadI32(buf: seq<byte>, pos: nat): (v: int)
    requires pos + 4 <= |buf|
    ensures -TWO_31 <= v < TWO_31
  {
    var u := LoadU32(buf, pos);
    if u < TWO_31 then u else u - TWO_32
  }

  /** The four bytes a writer stores for the unsigned 32-bit value v. */
  function StoreU32(v: nat): (b: seq<byte>)
    requires v < TWO_32
    ensures |b| == 4
  {
    [(v % 0x100) as byte, (v / 0x100 % 0x100) as byte,
     (v / 0x1_0000 % 0x100) as byte, (v / 0x100_0000) as byte]
  }

  /** The four bytes a writer stores for the signed 32-bit value v. */
  function StoreI32(v: int): (b: seq<byte>)
    requires -TWO_31 <= v < TWO_31
    ensures |b| == 4
  {
    StoreU32(if v < 0 then v + TWO_32 else v)
  }

  /** Reading back what was stored gives the stored value. */
  lemma LoadStoreU32(v: nat)
    requires v < TWO_32
    ensures LoadU32(StoreU32(v), 0) == v
  {
    var b := StoreU32(v);
    var q1, q2, q3 := v / 0x100, v / 0x1_0000, v / 0x100_0000;
    assert q2 == q1 / 0x100;
    assert q3 == q2 / 0x100;
    assert v == v % 0x100 + 0x100 * q1;
    assert q1 == q1 % 0x100 + 0x100 * q2;
    assert q2 == q2 % 0x100 + 0x100 * q3;
    assert b[0] as int == v % 0x100 && b[1] as int == q1 % 0x100;
    assert b[2] as int == q2 % 0x100 && b[3] as int == q3;
  }

  /** Storing what was read gives back the same four bytes. */
  lemma StoreLoadU32(b: seq<byte>)
    requires |b| == 4
    ensures StoreU32(LoadU32(b, 0)) == b
  {
    var v := LoadU32(b, 0);
    var b0, b1, b2, b3 := b[0] as int, b[1] as int, b[2] as int, b[3] as int;
    var r1 := b1 + 0x100 * b2 + 0x1_0000 * b3;
    var r2 := b2 + 0x100 * b3;
    assert v == b0 + 0x100 * r1;
    assert v % 0x100 == b0 && v / 0x100 == r1;
    assert r1 == b1 + 0x100 * r2;
    assert r1 % 0x100 == b1 && r1 / 0x100 == r2;
    assert r2 % 0x100 == b2 && r2 / 0x100 == b3;
    assert v / 0x1_0000 == r1 / 0x100;
    assert v / 0x100_0000 == r2 / 0x100;
  }

  /** The signed round trip: reading back a stored offset gives the offset. */
  lemma LoadStoreI32(v: int)
    requires -TWO_31 <= v < TWO_31
    ensures LoadI32(StoreI32(v), 0) == v
  {
    LoadStoreU32(if v < 0 then v + TWO_32 else v);
  }

  /** The signed round trip in the other direction. */
  lemma StoreLoadI32(b: seq<byte>)
    requires |b| == 4
    ensures StoreI32(LoadI32(b, 0)) == b
  {
    StoreLoadU32(b);
  }
}
