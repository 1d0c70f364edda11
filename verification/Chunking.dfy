/** How an allocation is cut into physical chunks. */
module Chunking {
  import opened Prelude

  /** Rounds up to a multiple of `unit`. */
  function AlignUp(x: nat, unit: nat): (r: nat)
    requires unit >= 1
    ensures x <= r
  {
    (x + unit - 1) / unit * unit
  }

  function ChunkCount(total: nat, chunk: nat): nat
    requires chunk >= 1
  {
    (total + chunk - 1) / chunk
  }

  function Offset(sizes: seq<nat>, k: nat): nat
    requires k <= |sizes|
  {
    if k == 0 then 0 else Offset(sizes, k - 1) + sizes[k - 1]
  }

  lemma MulLeast(a: int, b: int, unit: int)
    requires unit >= 1 && a < b
    ensures a * unit + unit <= b * unit
  {
    assert (a + 1) * unit == a * unit + unit;
    assert (b - a - 1) * unit >= 0;
  }

  /** The aligned size is the least multiple of the unit that is large enough. */
  lemma AlignUpIsLeast(x: nat, unit: nat)
    requires unit >= 1
    ensures x <= AlignUp(x, unit) < x + unit && AlignUp(x, unit) % unit == 0
    ensures forall q: nat | q * unit >= x :: AlignUp(x, unit) <= q * unit
  {
    var a := (x + unit - 1) / unit;
    assert x + unit - 1 == a * unit + (x + unit - 1) % unit;
    MultipleOf(a, unit);
    forall q: nat | q * unit >= x ensures a * unit <= q * unit {
      if a > q { MulLeast(q, a, unit); }
    }
  }

  lemma MultipleOf(a: int, unit: nat)
    requires unit >= 1
    ensures a * unit % unit == 0
  {
    var x := a * unit;
    var q, r := x / unit, x % unit;
    assert x == q * unit + r;
    assert (a - q) * unit == r by { Distribute(a, q, unit); }
    MulLess(a - q, 1, unit);
    MulLess(-1, a - q, unit);
  }

  lemma Distribute(a: int, b: int, unit: int)
    ensures (a - b) * unit == a * unit - b * unit
  {
  }

  /** The chunk count is the least number of chunks that covers the total. */
  lemma CountCovers(total: nat, chunk: nat, i: nat)
    requires chunk >= 1
    ensures i < ChunkCount(total, chunk) <==> i * chunk < total
  {
    var n := ChunkCount(total, chunk);
    assert total + chunk - 1 == n * chunk + (total + chunk - 1) % chunk;
    if i < n { MulLeast(i, n, chunk); }
    if i * chunk < total {
      assert (i + 1) * chunk == i * chunk + chunk;
      MulLess(i, n, chunk);
    }
  }

  lemma DifferenceOfMultiples(a: nat, b: nat, unit: nat)
    requires unit >= 1 && a % unit == 0 && b % unit == 0 && b <= a
    ensures (a - b) % unit == 0
  {
    var p, q := a / unit, b / unit;
    assert a == p * unit && b == q * unit;
    Distribute(p, q, unit);
    MultipleOf(p - q, unit);
  }

  lemma ProductOfMultiple(i: nat, chunk: nat, unit: nat)
    requires unit >= 1 && chunk % unit == 0
    ensures i * chunk % unit == 0
  {
    var q := chunk / unit;
    assert chunk == q * unit;
    Associate(i, q, unit);
    MultipleOf(i * q, unit);
  }

  lemma Associate(i: int, q: int, unit: int)
    ensures i * (q * unit) == (i * q) * unit
  {
  }

  /** Every size is a positive multiple of the granularity, and the sizes fill the total exactly. */
  predicate Fills(sizes: seq<nat>, total: nat, chunk: nat, unit: nat)
    requires unit >= 1
  {
    && Offset(sizes, |sizes|) == total
    && (forall i | 0 <= i < |sizes| :: 0 < sizes[i] <= chunk && sizes[i] % unit == 0)
    && (forall i | 0 <= i < |sizes| - 1 :: sizes[i] == chunk)
  }

  lemma {:induction false} OffsetPrefix(sizes: seq<nat>, more: seq<nat>, k: nat)
    requires k <= |sizes|
    ensures Offset(sizes + more, k) == Offset(sizes, k)
  {
    if k > 0 { OffsetPrefix(sizes, more, k - 1); }
  }

  /** The chunk table of an allocation. */
  method ChunkSizes(total: nat, chunk: nat, unit: nat) returns (sizes: seq<nat>)
    requires unit >= 1 && chunk >= 1 && total % unit == 0 && chunk % unit == 0
    ensures Fills(sizes, total, chunk, unit)
    ensures |sizes| == ChunkCount(total, chunk)
  {
    hide ChunkCount;
    var n := ChunkCount(total, chunk);
    sizes := [];
    var i := 0;
    CountCovers(total, chunk, 0);
    while i < n
      invariant i <= n && |sizes| == i
      invariant forall j | 0 <= j < i :: 0 < sizes[j] <= chunk && sizes[j] % unit == 0
      invariant forall j | 0 <= j < i && j < n - 1 :: sizes[j] == chunk
      invariant Offset(sizes, i) == if i < n then i * chunk else total
      decreases n - i
    {
      CountCovers(total, chunk, i);
      CountCovers(total, chunk, i + 1);
      ProductOfMultiple(i, chunk, unit);
      DifferenceOfMultiples(total, i * chunk, unit);
      assert (i + 1) * chunk == i * chunk + chunk;
      var left := total - i * chunk;
      var size := if left < chunk then left else chunk;
      OffsetPrefix(sizes, [size], i);
      sizes := sizes + [size];
      i := i + 1;
    }
  }

  /** Chunks follow one another without gap or overlap. */
  lemma {:induction false} OffsetsIncrease(sizes: seq<nat>, j: nat, k: nat)
    requires j <= k <= |sizes|
    ensures Offset(sizes, j) <= Offset(sizes, k)
    ensures j < k ==> Offset(sizes, j) + sizes[j] <= Offset(sizes, k)
  {
    if j < k { OffsetsIncrease(sizes, j, k - 1); }
  }

  /** Every byte of the range lies in exactly one chunk. */
  lemma {:induction false} ByteInOneChunk(sizes: seq<nat>, x: nat, n: nat)
    requires n <= |sizes| && x < Offset(sizes, n)
    ensures exists k :: 0 <= k < n && Offset(sizes, k) <= x < Offset(sizes, k) + sizes[k]
    ensures forall j, k | 0 <= j < k < n ::
              !(Offset(sizes, j) <= x < Offset(sizes, j) + sizes[j]
                && Offset(sizes, k) <= x < Offset(sizes, k) + sizes[k])
  {
    if x < Offset(sizes, n - 1) {
      ByteInOneChunk(sizes, x, n - 1);
      var k :| 0 <= k < n - 1 && Offset(sizes, k) <= x < Offset(sizes, k) + sizes[k];
      assert 0 <= k < n;
    } else {
      assert Offset(sizes, n - 1) <= x < Offset(sizes, n - 1) + sizes[n - 1];
    }
    forall j, k | 0 <= j < k < n
      ensures !(Offset(sizes, j) <= x < Offset(sizes, j) + sizes[j]
                && Offset(sizes, k) <= x < Offset(sizes, k) + sizes[k])
    {
      OffsetsIncrease(sizes, j, k);
    }
  }
}
