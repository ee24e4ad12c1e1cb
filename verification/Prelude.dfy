/** Values shared by every part of the model: optional values, results, bytes, big-endian integers. */
module Prelude {

  datatype Option<+T> = None | Some(value: T)

  datatype Result<+T, +E> = Ok(value: T) | Err(error: E)

  newtype u8 = x: int | 0 <= x < 0x100
  type bytes = seq<u8>

  const U16_MAX: nat := 0xFFFF
  const U32_MAX: nat := 0xFFFF_FFFF
  const U64_MAX: nat := 0xFFFF_FFFF_FFFF_FFFF

  type u16 = x: nat | x <= U16_MAX
  type u32 = x: nat | x <= U32_MAX
  type u64 = x: nat | x <= U64_MAX

  type pos = x: nat | 0 < x witness 1

  function Min(a: nat, b: nat): nat {
    if a <= b then a else b
  }

  function SaturatingSub(a: nat, b: nat): nat {
    if a <= b then 0 else a - b
  }

  function SaturatingAdd32(a: nat, b: nat): nat {
    Min(a + b, U32_MAX)
  }

  /** `n` times `k`, by repeated addition, which keeps arithmetic linear for the verifier. */
  function Times(n: nat, k: nat): nat {
    if n == 0 then 0 else Times(n - 1, k) + k
  }

  lemma {:induction false} TimesIs(n: nat, k: nat)
    ensures Times(n, k) == n * k
  {
    if n > 0 {
      TimesIs(n - 1, k);
      assert n * k == (n - 1) * k + k;
    }
  }

  function PutU16(n: u16): (b: bytes)
    ensures |b| == 2
  {
    [(n / 0x100) as u8, (n % 0x100) as u8]
  }

  function GetU16(b: bytes): (n: u16)
    requires |b| == 2
  {
    b[0] as int * 0x100 + b[1] as int
  }

  function PutU32(n: u32): (b: bytes)
    ensures |b| == 4
  {
    PutU16(n / 0x10000) + PutU16(n % 0x10000)
  }

  function GetU32(b: bytes): (n: u32)
    requires |b| == 4
  {
    GetU16(b[..2]) * 0x10000 + GetU16(b[2..])
  }

  function PutU64(n: u64): (b: bytes)
    ensures |b| == 8
  {
    PutU32(n / 0x1_0000_0000) + PutU32(n % 0x1_0000_0000)
  }

  function GetU64(b: bytes): (n: u64)
    requires |b| == 8
  {
    GetU32(b[..4]) * 0x1_0000_0000 + GetU32(b[4..])
  }

  lemma U16Inverse(n: u16, b: bytes)
    ensures GetU16(PutU16(n)) == n
    ensures |b| == 2 ==> PutU16(GetU16(b)) == b
  {
  }

  lemma GetPutU32(n: u32)
    ensures GetU32(PutU32(n)) == n
  {
    var high: u16, low: u16 := n / 0x10000, n % 0x10000;
    U16Inverse(high, []);
    U16Inverse(low, []);
    assert PutU32(n)[..2] == PutU16(high) && PutU32(n)[2..] == PutU16(low);
  }

  lemma PutGetU32(b: bytes)
    requires |b| == 4
    ensures PutU32(GetU32(b)) == b
  {
    var high: nat, low: nat := GetU16(b[..2]), GetU16(b[2..]);
    U16Inverse(0, b[..2]);
    U16Inverse(0, b[2..]);
    assert (high * 0x10000 + low) / 0x10000 == high;
    assert b == b[..2] + b[2..];
  }

  lemma U32Inverse(n: u32, b: bytes)
    ensures GetU32(PutU32(n)) == n
    ensures |b| == 4 ==> PutU32(GetU32(b)) == b
  {
    GetPutU32(n);
    if |b| == 4 {
      PutGetU32(b);
    }
  }

  lemma GetPutU64(n: u64)
    ensures GetU64(PutU64(n)) == n
  {
    var high, low: u32 := n / 0x1_0000_0000, n % 0x1_0000_0000;
    U32Inverse(high, []);
    U32Inverse(low, []);
    assert PutU64(n)[..4] == PutU32(high) && PutU64(n)[4..] == PutU32(low);
  }

  lemma PutGetU64(b: bytes)
    requires |b| == 8
    ensures PutU64(GetU64(b)) == b
  {
    var high: nat, low: nat := GetU32(b[..4]), GetU32(b[4..]);
    U32Inverse(0, b[..4]);
    U32Inverse(0, b[4..]);
    assert (high * 0x1_0000_0000 + low) / 0x1_0000_0000 == high;
    assert b == b[..4] + b[4..];
  }

  /** All parts one after another. */
  function Concat<T>(parts: seq<seq<T>>): seq<T> {
    if parts == [] then [] else parts[0] + Concat(parts[1..])
  }

  lemma {:induction false} ConcatAppend<T>(a: seq<seq<T>>, b: seq<seq<T>>)
    ensures Concat(a + b) == Concat(a) + Concat(b)
  {
    if a == [] {
      assert a + b == b;
    } else {
      assert (a + b)[1..] == a[1..] + b;
      ConcatAppend(a[1..], b);
    }
  }

  lemma ConcatSnoc<T>(a: seq<seq<T>>, last: seq<T>)
    ensures Concat(a + [last]) == Concat(a) + last
  {
    ConcatAppend(a, [last]);
    assert Concat([last]) == last;
  }
}
