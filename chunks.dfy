/**
 * The integer arithmetic of the SGL translator: splitting a length into I/O-unit
 * chunks (SPDK_CEIL_DIV and the remaining-length loop of the buffer filler) and the
 * 4 KiB alignment of pooled buffer addresses.
 */
module Chunks {
  import opened NvmfTypes

  /** SPDK_CEIL_DIV(a, u). */
  function CeilDiv(a: nat, u: nat): nat
    requires u > 0
  {
    (a + u - 1) / u
  }

  function Min(a: nat, b: nat): nat
  {
    if a <= b then a else b
  }

  function Sum(s: seq<nat>): nat
  {
    if s == [] then 0 else s[0] + Sum(s[1..])
  }

  /** The Euclidean quotient brackets its dividend. */
  lemma DivBounds(a: nat, u: nat)
    requires u > 0
    ensures (a / u) * u <= a < (a / u) * u + u
  {
    assert a == (a / u) * u + a % u;
  }

  lemma MulCancelLt(x: int, y: int, u: int)
    requires u > 0 && x * u < y * u
    ensures x < y
  {
    assert (y - x) * u == y * u - x * u;
    assert (y - x) * u > 0;
  }

  /** The quotient is the one q with q * u <= a < q * u + u. */
  lemma DivUnique(a: nat, u: nat, q: nat)
    requires u > 0 && q * u <= a < q * u + u
    ensures a / u == q
  {
    DivBounds(a, u);
    var q' := a / u;
    assert q * u < (q' + 1) * u by { assert (q' + 1) * u == q' * u + u; }
    MulCancelLt(q, q' + 1, u);
    assert q' * u < (q + 1) * u by { assert (q + 1) * u == q * u + u; }
    MulCancelLt(q', q + 1, u);
  }

  lemma DivLessThan(a: nat, u: nat, q: nat)
    requires u > 0 && a < q * u
    ensures a / u < q
  {
    DivBounds(a, u);
    MulCancelLt(a / u, q, u);
  }

  lemma CeilDivStep(len: nat, unit: nat)
    requires unit > 0 && len > unit
    ensures CeilDiv(len, unit) == 1 + CeilDiv(len - unit, unit)
  {
    var a := len - 1;
    var q := a / unit;
    DivBounds(a, unit);
    assert CeilDiv(len - unit, unit) == q;
    assert (q + 1) * unit == q * unit + unit;
    DivUnique(len + unit - 1, unit, q + 1);
  }

  lemma CeilDivSmall(len: nat, unit: nat)
    requires unit > 0 && 0 < len <= unit
    ensures CeilDiv(len, unit) == 1
  {
    DivUnique(len + unit - 1, unit, 1);
  }

  lemma ModShift(x: nat, u: nat)
    requires u > 0
    ensures (x + u) % u == x % u
  {
    var q := x / u;
    DivBounds(x, u);
    assert (q + 1) * u == q * u + u;
    DivUnique(x + u, u, q + 1);
    assert (x + u) % u == x + u - (q + 1) * u;
  }

  /**
   * The lengths the buffer filler gives the iovecs of one descriptor: while bytes remain,
   * min(remaining, io_unit_size).
   */
  function ChunkLens(len: nat, unit: nat): seq<nat>
    requires unit > 0
    decreases len
  {
    if len == 0 then []
    else if len <= unit then [len]
    else [unit] + ChunkLens(len - unit, unit)
  }

  /** There are SPDK_CEIL_DIV(len, unit) chunks: as many as get_buffers is asked for. */
  lemma {:induction false} ChunkLensCount(len: nat, unit: nat)
    requires unit > 0
    ensures |ChunkLens(len, unit)| == CeilDiv(len, unit)
    decreases len
  {
    if len == 0 {
    } else if len <= unit {
      CeilDivSmall(len, unit);
    } else {
      ChunkLensCount(len - unit, unit);
      CeilDivStep(len, unit);
    }
  }

  /**
   * All chunks but the last are full units, the last holds what is left, none is empty,
   * and together they cover the length exactly.
   */
  lemma {:induction false} ChunkLensShape(len: nat, unit: nat)
    requires unit > 0
    ensures var r := ChunkLens(len, unit);
      && Sum(r) == len
      && (forall i :: 0 <= i < |r| ==> 0 < r[i] <= unit)
      && (forall i :: 0 <= i < |r| - 1 ==> r[i] == unit)
      && (|r| > 0 ==> r[|r| - 1] == len - unit * (|r| - 1))
    decreases len
  {
    if len > unit {
      var rest := ChunkLens(len - unit, unit);
      ChunkLensShape(len - unit, unit);
      var r := ChunkLens(len, unit);
      assert r == [unit] + rest;
      assert r[1..] == rest;
      assert unit * |rest| == unit * (|rest| - 1) + unit;
    }
  }

  /** The last chunk is the remainder of the length, or a full unit when it divides evenly. */
  lemma {:induction false} LastChunkIsRemainder(len: nat, unit: nat)
    requires unit > 0 && len > 0
    ensures var r := ChunkLens(len, unit);
      |r| > 0 && r[|r| - 1] == (if len % unit == 0 then unit else len % unit)
    decreases len
  {
    if len > unit {
      LastChunkIsRemainder(len - unit, unit);
      ChunkLensShape(len, unit);
      ChunkLensShape(len - unit, unit);
      var r := ChunkLens(len, unit);
      assert r == [unit] + ChunkLens(len - unit, unit);
      ModShift(len - unit, unit);
    }
  }

  /** A length within the maximum I/O size needs at most max_io_size / io_unit_size chunks. */
  lemma ChunksWithinMax(len: nat, o: TransportOpts)
    requires ValidOpts(o) && len <= o.maxIoSize
    ensures CeilDiv(len, o.ioUnitSize) <= o.maxIoSize / o.ioUnitSize <= MaxSglEntries
  {
    var u := o.ioUnitSize;
    var m := o.maxIoSize / u;
    DivBounds(o.maxIoSize, u);
    assert o.maxIoSize == m * u;
    assert (m + 1) * u == m * u + u;
    DivLessThan(len + u - 1, u, m + 1);
  }

  lemma DivMonotone(a: nat, b: nat, u: nat)
    requires u > 0 && a <= b
    ensures a / u <= b / u
  {
    var q := b / u;
    DivBounds(b, u);
    assert (q + 1) * u == q * u + u;
    DivLessThan(a, u, q + 1);
  }

  /** ceil(a/u) exceeds floor(a/u) by at most one. */
  lemma CeilDivAtMostFloorPlusOne(a: nat, u: nat)
    requires u > 0
    ensures CeilDiv(a, u) <= a / u + 1
  {
    var q := a / u;
    DivBounds(a, u);
    assert (q + 2) * u == q * u + u + u;
    DivLessThan(a + u - 1, u, q + 2);
  }

  /** Floors of parts never add up to more than the floor of the whole. */
  lemma FloorSuperadditive(a: nat, b: nat, u: nat)
    requires u > 0
    ensures a / u + b / u <= (a + b) / u
  {
    var qa, qb, q := a / u, b / u, (a + b) / u;
    DivBounds(a, u);
    DivBounds(b, u);
    DivBounds(a + b, u);
    assert (qa + qb) * u == qa * u + qb * u;
    assert (q + 1) * u == q * u + u;
    MulCancelLt(qa + qb, q + 1, u);
  }

  /**
   * AlignUp: (addr + NVMF_DATA_BUFFER_MASK) & ~NVMF_DATA_BUFFER_MASK in 64-bit arithmetic,
   * the address stored in an iovec and a scatter-gather element for a raw pooled buffer.
   */
  function AlignUp(addr: Addr): Addr
  {
    (addr + DataBufferMask) & !DataBufferMask
  }

  /** The aligned address is a multiple of 4 KiB, and an aligned address is left as it is. */
  lemma AlignUpAligned(addr: Addr)
    ensures AlignUp(addr) & DataBufferMask == 0
    ensures addr & DataBufferMask == 0 ==> AlignUp(addr) == addr
  {
  }

  /** Away from the top of the address space, alignment moves an address up by less than 4 KiB. */
  lemma AlignUpBounds(addr: Addr)
    requires addr <= 0xFFFF_FFFF_FFFF_F000
    ensures addr <= AlignUp(addr) && AlignUp(addr) - addr <= DataBufferMask
  {
  }
}
