/** Byte strings with the big-endian integer access the Git index format needs. */
module Bytes {

  type byte = x: int | 0 <= x < 256
  type bytes = seq<byte>

  const WORD := 0x1_0000_0000

  /** Appends one byte to a big-endian integer. */
  function Join(high: int, low: int): int {
    high * 0x100 + low
  }

  function U16(b: bytes, at: nat): (v: nat)
    requires at + 2 <= |b|
    ensures v < 0x1_0000
  {
    Join(b[at], b[at + 1])
  }

  function U32(b: bytes, at: nat): (v: nat)
    requires at + 4 <= |b|
    ensures v < WORD
  {
    Join(Join(Join(b[at], b[at + 1]), b[at + 2]), b[at + 3])
  }

  /** Byte `k` of the four bytes that `struct.pack(">I", v)` yields. */
  function PackedByte(v: nat, k: nat): byte
    requires v < WORD && k < 4
  {
    if k == 0 then v / 0x100_0000
    else if k == 1 then v / 0x1_0000 % 0x100
    else if k == 2 then v / 0x100 % 0x100
    else v % 0x100
  }

  /** The four bytes at `at` are `v`, packed. */
  predicate Holds(b: bytes, at: nat, v: nat)
    requires at + 4 <= |b| && v < WORD
  {
    && b[at] == PackedByte(v, 0) && b[at + 1] == PackedByte(v, 1)
    && b[at + 2] == PackedByte(v, 2) && b[at + 3] == PackedByte(v, 3)
  }

  /** Packing and unpacking are inverse: four bytes are the packed `v` exactly when they read as `v`. */
  lemma HoldsReads(b: bytes, at: nat, v: nat)
    requires at + 4 <= |b| && v < WORD
    ensures Holds(b, at, v) <==> U32(b, at) == v
  {
    var high := Join(b[at], b[at + 1]);
    var middle := Join(high, b[at + 2]);
    assert U32(b, at) / 0x100 == middle && middle / 0x100 == high && high / 0x100 == b[at];
    assert U32(b, at) / 0x1_0000 == high && U32(b, at) / 0x100_0000 == b[at];
    assert v / 0x1_0000 == v / 0x100_0000 * 0x100 + v / 0x1_0000 % 0x100;
    assert v / 0x100 == v / 0x1_0000 * 0x100 + v / 0x100 % 0x100;
  }

  /** Position of the first `wanted` byte in `b[from..end]`, if any (`bytes.find`). */
  function Find(b: bytes, wanted: byte, from: nat, end: nat): (r: int)
    requires from <= end <= |b|
    ensures r == -1 || from <= r < end
    ensures r >= 0 ==> b[r] == wanted && wanted !in b[from..r]
    ensures r == -1 ==> wanted !in b[from..end]
    decreases end - from
  {
    if from == end then -1
    else if b[from] == wanted then from
    else
      var r := Find(b, wanted, from + 1, end);
      assert b[from..end] == [b[from]] + b[from + 1..end];
      assert r >= 0 ==> b[from..r] == [b[from]] + b[from + 1..r];
      r
  }

  /** `Find` reads nothing behind the byte it returns. */
  lemma {:induction false} FindAgrees(a: bytes, b: bytes, wanted: byte, from: nat, end: nat)
    requires |a| == |b| && from <= end <= |a|
    requires Find(a, wanted, from, end) >= 0
    requires a[from..Find(a, wanted, from, end) + 1] == b[from..Find(a, wanted, from, end) + 1]
    ensures Find(b, wanted, from, end) == Find(a, wanted, from, end)
    decreases end - from
  {
    var r := Find(a, wanted, from, end);
    assert a[from] == a[from..r + 1][0] == b[from..r + 1][0] == b[from];
    if a[from] != wanted {
      assert a[from + 1..r + 1] == a[from..r + 1][1..] == b[from..r + 1][1..] == b[from + 1..r + 1];
      FindAgrees(a, b, wanted, from + 1, end);
    }
  }
}
