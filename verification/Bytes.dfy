/** Octets, fixed-width unsigned integers and their big-endian encodings. */
module Bytes {
  import opened Wrappers

  type Byte = b: int | 0 <= b < 0x100
  type Octets = seq<Byte>
  type U16 = n: int | 0 <= n < 0x1_0000
  type U32 = n: int | 0 <= n < 0x1_0000_0000
  type U64 = n: int | 0 <= n < 0x1_0000_0000_0000_0000

  const U64_MAX: U64 := 0xFFFF_FFFF_FFFF_FFFF

  /** `u64::checked_add`. */
  function CheckedAdd(a: U64, b: U64): (r: Option<U64>)
    ensures r.Some? <==> a + b <= U64_MAX
  {
    if a + b <= U64_MAX then Some(a + b) else None
  }

  /** `u64::saturating_add`. */
  function SaturatingAdd(a: U64, b: U64): (r: U64)
    ensures a <= r <= a + b
  {
    if a + b <= U64_MAX then a + b else U64_MAX
  }

  /** `u64::saturating_sub`. */
  function SaturatingSub(a: U64, b: U64): (r: U64)
    ensures r <= a <= r + b || (r == 0 && a <= b)
  {
    if b <= a then a - b else 0
  }

  function BigEndian16(n: U16): (s: Octets)
    ensures |s| == 2
  {
    [n / 0x100, n % 0x100]
  }

  function FromBigEndian16(s: Octets): (n: U16)
    requires |s| == 2
  {
    (s[0] as int) * 0x100 + s[1] as int
  }

  function BigEndian32(n: U32): (s: Octets)
    ensures |s| == 4
  {
    BigEndian16(n / 0x1_0000) + BigEndian16(n % 0x1_0000)
  }

  function FromBigEndian32(s: Octets): (n: U32)
    requires |s| == 4
  {
    (FromBigEndian16(s[..2]) as int) * 0x1_0000 + FromBigEndian16(s[2..]) as int
  }

  lemma RoundTrip16(n: U16)
    ensures FromBigEndian16(BigEndian16(n)) == n
  {
  }

  lemma Canonical16(s: Octets)
    requires |s| == 2
    ensures BigEndian16(FromBigEndian16(s)) == s
  {
  }

  lemma RoundTrip32(n: U32)
    ensures FromBigEndian32(BigEndian32(n)) == n
  {
    var s := BigEndian32(n);
    assert s[..2] == BigEndian16(n / 0x1_0000) && s[2..] == BigEndian16(n % 0x1_0000);
  }

  lemma Canonical32(s: Octets)
    requires |s| == 4
    ensures BigEndian32(FromBigEndian32(s)) == s
  {
    Canonical16(s[..2]);
    Canonical16(s[2..]);
    var n := FromBigEndian32(s);
    assert n / 0x1_0000 == FromBigEndian16(s[..2]) && n % 0x1_0000 == FromBigEndian16(s[2..]);
    assert s == s[..2] + s[2..];
  }
}
