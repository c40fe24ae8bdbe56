/** The per-tuple header that `insert_tuple` writes in front of every payload
    (`TupleHeader` with `to_bytes` / `from_bytes` in src/storage/page.rs).

    The encoding is 20 bytes: `xmin` as 8 little-endian bytes, `xmax` as 8
    little-endian bytes, and the tuple length as 4 little-endian bytes. The
    length field is modelled as 32 bits wide, the only width on which the
    encoder (a 4-byte slot at bytes 16..20), the decoder and the 20 bytes that
    `insert_tuple` reserves agree. */
module TupleCodec {
  import opened Wrappers

  type byte = x: int | 0 <= x < 0x100
  type u32 = x: int | 0 <= x < 0x1_0000_0000
  type u64 = x: int | 0 <= x < 0x1_0000_0000_0000_0000

  /** Bytes reserved in the data region for a tuple header. */
  const TUPLE_HEADER_SIZE: nat := 20

  function Pow256(n: nat): (r: nat)
    ensures r > 0
  {
    if n == 0 then 1 else 256 * Pow256(n - 1)
  }

  /** `to_le_bytes` of an unsigned integer that is `n` bytes wide. */
  function LittleEndian(x: nat, n: nat): (r: seq<byte>)
    requires x < Pow256(n)
    ensures |r| == n
  {
    if n == 0 then [] else [x % 256] + LittleEndian(x / 256, n - 1)
  }

  /** `from_le_bytes`: the unsigned value of a little-endian byte string. */
  function FromLittleEndian(bs: seq<byte>): (r: nat)
    ensures r < Pow256(|bs|)
  {
    if bs == [] then 0
    else
      var rest := FromLittleEndian(bs[1..]);
      assert rest <= Pow256(|bs| - 1) - 1;
      assert 256 * rest <= 256 * Pow256(|bs| - 1) - 256;
      bs[0] + 256 * rest
  }

  /** Decoding an encoded integer gives the integer back. */
  lemma {:induction false} FromLittleEndianInverse(x: nat, n: nat)
    requires x < Pow256(n)
    ensures FromLittleEndian(LittleEndian(x, n)) == x
  {
    if n > 0 {
      var bs := LittleEndian(x, n);
      assert bs[1..] == LittleEndian(x / 256, n - 1);
      FromLittleEndianInverse(x / 256, n - 1);
    }
  }

  /** Encoding a decoded byte string gives the byte string back. */
  lemma {:induction false} LittleEndianInverse(bs: seq<byte>)
    ensures LittleEndian(FromLittleEndian(bs), |bs|) == bs
  {
    if bs != [] {
      var x := FromLittleEndian(bs);
      var rest := FromLittleEndian(bs[1..]);
      assert x % 256 == bs[0] && x / 256 == rest;
      LittleEndianInverse(bs[1..]);
    }
  }

  datatype TupleHeader = TupleHeader(xmin: u64, xmax: u64, lengthOfTuple: u32)

  /** `TupleHeader::to_bytes`. */
  function ToBytes(h: TupleHeader): (r: seq<byte>)
    ensures |r| == TUPLE_HEADER_SIZE
  {
    LittleEndian(h.xmin, 8) + LittleEndian(h.xmax, 8) + LittleEndian(h.lengthOfTuple, 4)
  }

  /** `TupleHeader::from_bytes`: reads the first 20 bytes, ignores the rest. */
  function FromBytes(bytes: seq<byte>): (r: Option<TupleHeader>)
    ensures r.None? <==> |bytes| < TUPLE_HEADER_SIZE
  {
    if |bytes| < 20 then None
    else
      Some(TupleHeader(FromLittleEndian(bytes[0..8]),
                       FromLittleEndian(bytes[8..16]),
                       FromLittleEndian(bytes[16..20])))
  }

  /** A header followed by any bytes at all decodes to that header. */
  lemma HeaderRoundTrip(h: TupleHeader, rest: seq<byte>)
    ensures FromBytes(ToBytes(h) + rest) == Some(h)
  {
    var bs := ToBytes(h) + rest;
    assert bs[0..8] == LittleEndian(h.xmin, 8);
    assert bs[8..16] == LittleEndian(h.xmax, 8);
    assert bs[16..20] == LittleEndian(h.lengthOfTuple, 4);
    FromLittleEndianInverse(h.xmin, 8);
    FromLittleEndianInverse(h.xmax, 8);
    FromLittleEndianInverse(h.lengthOfTuple, 4);
  }

  /** Re-encoding a decoded header reproduces the 20 bytes it was read from. */
  lemma HeaderBytesRoundTrip(bytes: seq<byte>)
    requires |bytes| >= TUPLE_HEADER_SIZE
    ensures FromBytes(bytes).Some? && ToBytes(FromBytes(bytes).value) == bytes[..20]
  {
    LittleEndianInverse(bytes[0..8]);
    LittleEndianInverse(bytes[8..16]);
    LittleEndianInverse(bytes[16..20]);
    assert bytes[..20] == bytes[0..8] + bytes[8..16] + bytes[16..20];
  }
}
