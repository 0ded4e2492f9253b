/** Bytes, machine words and the two byte orders a stream can use. */
module Bytes {
  type Byte = x: int | 0 <= x < 0x100

  const U32 := 0x1_0000_0000
  const U64 := 0x1_0000_0000_0000_0000

  type Word32 = x: int | 0 <= x < U32
  type Word64 = x: int | 0 <= x < U64

  datatype Option<+T> = None | Some(value: T)

  function Min(a: nat, b: nat): nat { if a < b then a else b }
  function Max(a: nat, b: nat): nat { if a < b then b else a }

  /** Release-build arithmetic on u64 and u32 counters: wrap around. */
  function Wrap64(x: int): Word64 { x % 0x1_0000_0000_0000_0000 }
  function Wrap32(x: int): Word32 { x % 0x1_0000_0000 }

  /** `u64::wrapping_add`. */
  function Add64(x: Word64, y: Word64): Word64 {
    var sum: int := x + y as int;
    if sum < 0x1_0000_0000_0000_0000 then sum else sum - 0x1_0000_0000_0000_0000
  }

  lemma Add64Wraps(x: int, y: int)
    ensures Add64(Wrap64(x), Wrap64(y)) == Wrap64(x + y)
  {
  }

  /** The number `s` spells, low byte first, or high byte first when `swap`. */
  function Value(s: seq<Byte>, swap: bool): nat {
    if s == [] then 0
    else if swap then s[|s| - 1] + 0x100 * Value(s[..|s| - 1], swap)
    else s[0] + 0x100 * Value(s[1..], swap)
  }

  function Limit(n: nat): nat { if n == 0 then 1 else 0x100 * Limit(n - 1) }

  lemma {:induction false} ValueBound(s: seq<Byte>, swap: bool)
    ensures Value(s, swap) < Limit(|s|)
  {
    if s != [] {
      ValueBound(if swap then s[..|s| - 1] else s[1..], swap);
    }
  }

  lemma Limits()
    ensures Limit(4) == U32 && Limit(8) == U64
  {
    assert Limit(2) == 0x1_0000;
    assert Limit(4) == U32;
    assert Limit(6) == 0x1_0000_0000_0000;
  }

  /** `u32::from_le_bytes`, or `from_be_bytes` when `swap`. */
  function Word32At(s: seq<Byte>, off: nat, swap: bool): Word32
    requires off + 4 <= |s|
  {
    ValueBound(s[off..off + 4], swap);
    Limits();
    Value(s[off..off + 4], swap)
  }

  /** `u64::from_le_bytes`, or `from_be_bytes` when `swap`. */
  function Word64At(s: seq<Byte>, off: nat, swap: bool): Word64
    requires off + 8 <= |s|
  {
    ValueBound(s[off..off + 8], swap);
    Limits();
    Value(s[off..off + 8], swap)
  }

  /** The `n` low bytes of `x`, low byte first. */
  function LeBytes(x: nat, n: nat): (s: seq<Byte>)
    ensures |s| == n
    ensures x < Limit(n) ==> Value(s, false) == x
  {
    if n == 0 then [] else
    var s := LeBytes(x / 0x100, n - 1);
    assert ([x % 0x100] + s)[1..] == s;
    [x % 0x100] + s
  }

  /** The `n` low bytes of `x`, high byte first. */
  function BeBytes(x: nat, n: nat): (s: seq<Byte>)
    ensures |s| == n
  {
    if n == 0 then [] else BeBytes(x / 0x100, n - 1) + [x % 0x100]
  }

  /** A number as it is spelled in a stream of either byte order. */
  function NumBytes(x: nat, n: nat, swap: bool): (s: seq<Byte>)
    ensures |s| == n
  {
    if swap then BeBytes(x, n) else LeBytes(x, n)
  }

  /** What is spelled in a byte order reads back in it. */
  lemma {:induction false} NumReads(x: nat, n: nat, swap: bool)
    requires x < Limit(n)
    ensures Value(NumBytes(x, n, swap), swap) == x
  {
    if swap && n > 0 {
      NumReads(x / 0x100, n - 1, swap);
      var s := BeBytes(x, n);
      assert s[..n - 1] == BeBytes(x / 0x100, n - 1);
    }
  }

  /** `u32::to_le_bytes`. */
  function Le32(x: Word32): (s: seq<Byte>)
    ensures |s| == 4 && Value(s, false) == x
  {
    Limits();
    LeBytes(x, 4)
  }

  /** `u64::to_le_bytes`. */
  function Le64(x: Word64): (s: seq<Byte>)
    ensures |s| == 8 && Value(s, false) == x
  {
    Limits();
    LeBytes(x, 8)
  }

  function Zeros(n: nat): (s: seq<Byte>)
    ensures |s| == n && forall i :: 0 <= i < n ==> s[i] == 0
  {
    seq(n, i => 0)
  }
}
