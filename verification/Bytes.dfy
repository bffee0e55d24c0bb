/** Bytes and big-endian integers. */
module Bytes {

  type Byte = b: nat | b < 256

  const U64_RANGE: nat := 0x1_0000_0000_0000_0000
  const U32_RANGE: nat := 0x1_0000_0000

  /** `n.to_be_bytes()` for an integer of `width` bytes. */
  function BigEndian(n: nat, width: nat): (bytes: seq<Byte>)
    ensures |bytes| == width
  {
    if width == 0 then [] else BigEndian(n / 256, width - 1) + [n % 256]
  }

  /** `from_be_bytes` */
  function FromBigEndian(bytes: seq<Byte>): nat {
    if bytes == [] then 0
    else
      var last: nat := bytes[|bytes| - 1];
      256 * FromBigEndian(bytes[..|bytes| - 1]) + last
  }

  /** How many numbers `width` bytes can write. */
  function Range(width: nat): nat {
    if width == 0 then 1 else 256 * Range(width - 1)
  }

  /** A number that fits is read back from its bytes. */
  lemma {:induction false} BigEndianRoundTrip(n: nat, width: nat)
    requires n < Range(width)
    ensures FromBigEndian(BigEndian(n, width)) == n
  {
    if width > 0 {
      BigEndianRoundTrip(n / 256, width - 1);
      assert BigEndian(n, width)[..width - 1] == BigEndian(n / 256, width - 1);
    }
  }

  lemma RangeOfEight()
    ensures Range(8) == U64_RANGE && Range(4) == U32_RANGE
  {
    assert Range(2) == 65536;
    assert Range(4) == 256 * (256 * Range(2));
    assert Range(6) == 256 * (256 * Range(4));
    assert Range(8) == 256 * (256 * Range(6));
  }
}
