/** The 64-bit global address space as a flat sequence of bytes, the alignment helpers of
    utils.h and in-place replacement of a range of bytes. */
module FlatMemory {

  type Byte = bv8
  type Bytes = seq<Byte>

  const ADDRESS_SPACE: nat := 0x1_0000_0000_0000_0000

  function AlignDown(x: nat, alignment: nat): (r: nat)
    requires alignment > 0
    ensures r <= x < r + alignment && r % alignment == 0
  {
    assert x == x / alignment * alignment + x % alignment;
    ModOfProduct(x / alignment, alignment);
    x - x % alignment
  }

  function AlignUp(x: nat, alignment: nat): (r: nat)
    requires alignment > 0
    ensures r - alignment < x <= r && r % alignment == 0
  {
    AlignDown(x + alignment - 1, alignment)
  }

  lemma ModOfProduct(q: nat, d: nat)
    requires d > 0
    ensures q * d % d == 0
  {
    if q > 0 {
      ModOfProduct(q - 1, d);
      assert q * d == (q - 1) * d + d;
      ModPlusDivisor((q - 1) * d, d);
    }
  }

  lemma ModPlusDivisor(x: nat, d: nat)
    requires d > 0
    ensures (x + d) % d == x % d
  {
    var q, r := x / d, x % d;
    assert x + d == (q + 1) * d + r;
    DivModUnique(x + d, d, q + 1, r);
  }

  lemma DivModUnique(x: nat, d: nat, q: nat, r: nat)
    requires x == q * d + r && r < d
    ensures x / d == q && x % d == r
  {
    var q', r' := x / d, x % d;
    assert x == q' * d + r';
    assert (q - q') * d == r' - r;
    if q > q' {
      assert (q - q') * d >= d by { MulMonotone(1, q - q', d); }
    } else if q < q' {
      assert (q' - q) * d >= d by { MulMonotone(1, q' - q, d); }
    }
  }

  lemma MulMonotone(a: int, b: int, d: nat)
    requires a <= b
    ensures a * d <= b * d
  {
  }

  /** `m` with the bytes from `at` on replaced by `data`. */
  function Patch(m: Bytes, at: nat, data: Bytes): (r: Bytes)
    requires at + |data| <= |m|
    ensures |r| == |m|
    ensures forall i :: 0 <= i < |m| ==> r[i] == if at <= i < at + |data| then data[i - at] else m[i]
  {
    m[..at] + data + m[at + |data|..]
  }

  lemma PrefixOfSlice(m: Bytes, from: nat, to: nat, end: nat)
    requires from <= end <= to <= |m|
    ensures m[from..to][..end - from] == m[from..end]
  {
  }
}
