/**
 * What parse_sgl promises, stated over Sgl.ParseSpec: chunking and key propagation for a
 * keyed descriptor, the error cases, the retry outcome when buffers run out, the
 * in-capsule bounds, one work request per descriptor of a last segment, and that no
 * buffer or work request is lost.
 */
module SglProps {
  import opened NvmfTypes
  import opened Chunks
  import opened BufPool
  import opened Sgl

  /** The parse_sgl preconditions that the request lifecycle guarantees. */
  predicate Parsable(o: TransportOpts, r: Req)
  {
    ValidOpts(o) && Shaped(r) && r.recv.Some? && r.pooledWrs == []
  }

  predicate IsKeyed(sgl: SglDescriptor)
  {
    sgl.sglType == SglTypeKeyedDataBlock &&
    (sgl.subtype == SglSubtypeAddress || sgl.subtype == SglSubtypeInvalidateKey)
  }

  /**
   * A keyed descriptor within max_io_size, with enough buffers: ceil(length / io_unit_size)
   * elements, all full units but the last, which holds the rest; each element and iovec is
   * the aligned buffer, translated for its lkey; the WR carries the descriptor's key and
   * address; buffers come from the allocator in its order; data is the first iovec.
   */
  lemma KeyedSuccess(o: TransportOpts, r: Req, b: BufState, wrPool: seq<nat>, xlate: Addr -> nat)
    requires Parsable(o, r) && IsKeyed(r.cmd.sgl1) && r.cmd.sgl1.length <= o.maxIoSize
    requires CeilDiv(r.cmd.sgl1.length, o.ioUnitSize) <= |b.cache| + |b.pool|
    ensures var p := ParseSpec(o, r, b, wrPool, xlate);
      var len, u := r.cmd.sgl1.length, o.ioUnitSize;
      var n := CeilDiv(len, u);
      var t := TakeBuffers(b, n);
      var wr := p.req.wrs[0];
      && n <= MaxSglEntries
      && p.rc == 0 && p.req.dataFromPool && p.req.length == len && p.req.iovcnt == n
      && p.req.outstandingDataWr == 1 && |p.req.wrs| == 1
      && wr.rkey == r.cmd.sgl1.key && wr.remoteAddr == r.cmd.sgl1.address
      && |wr.sgList| == n
      && (forall i :: 0 <= i < n - 1 ==> wr.sgList[i].length == u)
      && (n > 0 ==> wr.sgList[n - 1].length == len - u * (n - 1))
      && p.req.buffers[..n] == t.taken && p.bufs == t.bufs && p.wrPool == wrPool
      && (forall i :: 0 <= i < n ==>
            && wr.sgList[i].addr == AlignUp(p.req.buffers[i])
            && wr.sgList[i].lkey == xlate(wr.sgList[i].addr)
            && p.req.iov[i] == Iovec(wr.sgList[i].addr, wr.sgList[i].length))
      && (n > 0 ==> p.req.data == p.req.iov[0].base)
  {
    var len, u := r.cmd.sgl1.length, o.ioUnitSize;
    KeyedUnfold(o, r, b, wrPool, xlate);
    ChunkLensShape(len, u);
    var t := TakeBuffers(b, CeilDiv(len, u));
    assert ParseSpec(o, r, b, wrPool, xlate) == ParseKeyed(o, r, b, wrPool, xlate);
    FilledElements(r.iov, r.buffers, t.taken, ChunkLens(len, u), xlate);
  }

  /**
   * Iovecs and elements filled from buffers taken in order: element i is buffer i aligned,
   * with the translated lkey and chunk length i, and iovec i has the same address and length.
   */
  lemma FilledElements(iov0: seq<Iovec>, bufs0: seq<Addr>, taken: seq<Addr>, lens: seq<nat>, xlate: Addr -> nat)
    requires |taken| == |lens| <= |iov0| && |taken| <= |bufs0|
    ensures var vs := IovsFor(taken, lens);
      var iov, bufs, sg := Overlay(iov0, vs), Overlay(bufs0, taken), SgesOf(vs, xlate);
      && bufs[..|taken|] == taken && |sg| == |lens|
      && forall i :: 0 <= i < |lens| ==>
           && sg[i].addr == AlignUp(bufs[i]) && sg[i].lkey == xlate(sg[i].addr)
           && sg[i].length == lens[i] && iov[i] == Iovec(sg[i].addr, sg[i].length)
  {
    var vs := IovsFor(taken, lens);
    var iov, bufs := Overlay(iov0, vs), Overlay(bufs0, taken);
    forall i | 0 <= i < |lens|
      ensures iov[i] == vs[i] && bufs[i] == taken[i]
    {
      assert iov[..|vs|][i] == iov[i];
      assert bufs[..|taken|][i] == bufs[i];
    }
  }

  /** A keyed descriptor fails exactly when its length exceeds max_io_size. */
  lemma KeyedFailsIffTooLong(o: TransportOpts, r: Req, b: BufState, wrPool: seq<nat>, xlate: Addr -> nat)
    requires Parsable(o, r) && IsKeyed(r.cmd.sgl1)
    ensures var p := ParseSpec(o, r, b, wrPool, xlate);
      (p.rc == -1) == (r.cmd.sgl1.length > o.maxIoSize)
  {
    assert ParseSpec(o, r, b, wrPool, xlate) == ParseKeyed(o, r, b, wrPool, xlate);
  }

  /**
   * A keyed descriptor when the cache and the pool together cannot supply the buffers:
   * success is reported (the request waits for buffers), the length is recorded, but no
   * data is held, the cached buffers taken return to the cache, and the work request is
   * untouched; on a cleared request data stays NULL, num_sge 0, buffers[0] and sg_list
   * stay zero.
   */
  lemma KeyedNoBuffers(o: TransportOpts, r: Req, b: BufState, wrPool: seq<nat>, xlate: Addr -> nat)
    requires Parsable(o, r) && IsKeyed(r.cmd.sgl1) && r.cmd.sgl1.length <= o.maxIoSize
    requires CacheBounded(b) && CeilDiv(r.cmd.sgl1.length, o.ioUnitSize) > |b.cache| + |b.pool|
    ensures var p := ParseSpec(o, r, b, wrPool, xlate);
      && p.rc == 0 && !p.req.dataFromPool && p.req.length == r.cmd.sgl1.length
      && p.req.data == r.data && p.req.wrs == r.wrs && p.req.iovcnt == r.iovcnt
      && p.bufs == BufState(Reverse(b.cache), b.cacheSize, b.pool) && p.wrPool == wrPool
      && (Cleared(r) ==> p.req.data == 0 && p.req.wrs[0] == SendWr([], 0, 0) && p.req.buffers[0] == 0)
  {
    ChunksWithinMax(r.cmd.sgl1.length, o);
    TakeFailureLeaksNothing(b, CeilDiv(r.cmd.sgl1.length, o.ioUnitSize));
    var p := ParseSpec(o, r, b, wrPool, xlate);
    assert p == ParseKeyed(o, r, b, wrPool, xlate);
    if |b.cache| == 0 {
      assert p.req.buffers[0..] == r.buffers[0..];
      assert p.req.buffers[0] == p.req.buffers[0..][0];
    }
  }

  /**
   * A data block with an offset succeeds exactly when offset + length stays within
   * in_capsule_data_size; then data points into the receive buffer at the offset, the
   * length is recorded, one iovec covers it, and no pool buffer is used.
   */
  lemma InCapsule(o: TransportOpts, r: Req, b: BufState, wrPool: seq<nat>, xlate: Addr -> nat)
    requires Parsable(o, r)
    requires r.cmd.sgl1.sglType == SglTypeDataBlock && r.cmd.sgl1.subtype == SglSubtypeOffset
    ensures var p := ParseSpec(o, r, b, wrPool, xlate); var sgl := r.cmd.sgl1;
      && (p.rc == 0 <==> sgl.address + sgl.length <= o.inCapsuleDataSize)
      && (p.rc == 0 ==>
            && sgl.address < 0x1_0000_0000
            && p.req.data == AddrAt(r.recv.value.buf, sgl.address)
            && p.req.length == sgl.length && !p.req.dataFromPool
            && p.req.iovcnt == 1 && p.req.iov[0] == Iovec(p.req.data, sgl.length)
            && p.req.outstandingDataWr == 0 && p.bufs == b && p.wrPool == wrPool)
  {
    var sgl := r.cmd.sgl1;
    var p := ParseSpec(o, r, b, wrPool, xlate);
    assert p == ParseInCapsule(o, r, b, wrPool);
    if sgl.address <= o.inCapsuleDataSize && sgl.length <= o.inCapsuleDataSize - sgl.address {
      var d := AddrAt(r.recv.value.buf, sgl.address);
      assert p.req == r.(outstandingDataWr := 0, data := d, dataFromPool := false, length := sgl.length,
                         iov := r.iov[0 := Iovec(d, sgl.length)], iovcnt := 1);
    }
  }

  /** Any descriptor form other than the three accepted ones fails. */
  lemma UnsupportedFails(o: TransportOpts, r: Req, b: BufState, wrPool: seq<nat>, xlate: Addr -> nat)
    requires Parsable(o, r)
    requires var sgl := r.cmd.sgl1;
      && !IsKeyed(sgl)
      && !(sgl.sglType == SglTypeDataBlock && sgl.subtype == SglSubtypeOffset)
      && !(sgl.sglType == SglTypeLastSegment && sgl.subtype == SglSubtypeOffset)
    ensures ParseSpec(o, r, b, wrPool, xlate) == Parsed(-1, r, b, wrPool)
  {
  }

  predicate IsLastSegment(sgl: SglDescriptor)
  {
    sgl.sglType == SglTypeLastSegment && sgl.subtype == SglSubtypeOffset
  }

  /** The descriptors a last segment names, when there are any. */
  function Segment(r: Req): seq<SglDescriptor>
    requires r.recv.Some?
  {
    var seg := r.recv.value.segment;
    var n := r.cmd.sgl1.length / SglDescriptorSize;
    if n <= |seg| then seg[..n] else []
  }

  /**
   * A last segment fails exactly when it names no descriptor, more than
   * SPDK_NVMF_MAX_SGL_ENTRIES, more than the capsule holds, one that is not a keyed data
   * block with an address, or more than max_io_size in all.
   */
  lemma MultiFailsIff(o: TransportOpts, r: Req, b: BufState, wrPool: seq<nat>, xlate: Addr -> nat)
    requires Parsable(o, r) && IsLastSegment(r.cmd.sgl1)
    ensures var p := ParseSpec(o, r, b, wrPool, xlate);
      var n := r.cmd.sgl1.length / SglDescriptorSize;
      (p.rc == -1) == (n == 0 || n > MaxSglEntries || n > |r.recv.value.segment|
                       || !AllKeyedAddress(Segment(r)) || TotalLength(Segment(r)) > o.maxIoSize)
  {
    assert ParseSpec(o, r, b, wrPool, xlate) == ParseMulti(o, r, b, wrPool, xlate);
  }

  /** Without a data WR for every descriptor beyond the first, nothing changes and the request waits. */
  lemma MultiNoWorkRequests(o: TransportOpts, r: Req, b: BufState, wrPool: seq<nat>, xlate: Addr -> nat)
    requires Parsable(o, r) && IsLastSegment(r.cmd.sgl1)
    requires var n := r.cmd.sgl1.length / SglDescriptorSize;
      0 < n <= MaxSglEntries && n <= |r.recv.value.segment|
      && AllKeyedAddress(Segment(r)) && TotalLength(Segment(r)) <= o.maxIoSize
      && n - 1 > |wrPool|
    ensures ParseSpec(o, r, b, wrPool, xlate) == Parsed(0, r, b, wrPool)
  {
    assert ParseSpec(o, r, b, wrPool, xlate) == ParseMulti(o, r, b, wrPool, xlate);
  }

  /** Without enough buffers, the borrowed data WRs all go back and the request holds no data. */
  lemma MultiNoBuffers(o: TransportOpts, r: Req, b: BufState, wrPool: seq<nat>, xlate: Addr -> nat)
    requires Parsable(o, r) && IsLastSegment(r.cmd.sgl1) && CacheBounded(b)
    requires var n := r.cmd.sgl1.length / SglDescriptorSize;
      0 < n <= MaxSglEntries && n <= |r.recv.value.segment|
      && AllKeyedAddress(Segment(r)) && TotalLength(Segment(r)) <= o.maxIoSize
      && n - 1 <= |wrPool| && NumBuffers(Segment(r), o.ioUnitSize) > |b.cache| + |b.pool|
    ensures var p := ParseSpec(o, r, b, wrPool, xlate);
      && p.rc == 0 && !p.req.dataFromPool && p.req.data == r.data && p.req.length == r.length
      && p.req.pooledWrs == [] && p.req.wrs == [r.wrs[0].(sgList := [])] && p.req.outstandingDataWr == 0
      && multiset(p.wrPool) == multiset(wrPool)
      && p.bufs == BufState(Reverse(b.cache), b.cacheSize, b.pool)
  {
    var n := r.cmd.sgl1.length / SglDescriptorSize;
    TakeFailureLeaksNothing(b, NumBuffers(Segment(r), o.ioUnitSize));
    assert ParseSpec(o, r, b, wrPool, xlate) == ParseMulti(o, r, b, wrPool, xlate);
    assert wrPool == wrPool[..n - 1] + wrPool[n - 1..];
  }

  // ---------------------------------------------------------------------------------
  // Where each descriptor's chunks and work request sit.

  lemma NumBuffersSnoc(descs: seq<SglDescriptor>, unit: nat, i: nat)
    requires unit > 0 && i < |descs|
    ensures NumBuffers(descs[..i + 1], unit) == NumBuffers(descs[..i], unit) + CeilDiv(descs[i].length, unit)
    ensures TotalLength(descs[..i + 1]) == TotalLength(descs[..i]) + descs[i].length
  {
    assert descs[..i + 1][..i] == descs[..i];
  }

  lemma {:induction false} NumBuffersPrefix(descs: seq<SglDescriptor>, unit: nat, j: nat)
    requires unit > 0 && j <= |descs|
    ensures NumBuffers(descs[..j], unit) <= NumBuffers(descs, unit)
    decreases |descs|
  {
    if j < |descs| {
      var init := descs[..|descs| - 1];
      assert descs[..j] == init[..j];
      NumBuffersPrefix(init, unit, j);
    } else {
      assert descs[..j] == descs;
    }
  }

  /** Descriptor i's chunk lengths occupy positions [NumBuffers(descs[..i]), NumBuffers(descs[..i+1])). */
  lemma {:induction false} DescChunksAt(descs: seq<SglDescriptor>, unit: nat, i: nat)
    requires unit > 0 && i < |descs|
    ensures var s, e := NumBuffers(descs[..i], unit), NumBuffers(descs[..i + 1], unit);
      s <= e <= NumBuffers(descs, unit) && DescChunks(descs, unit)[s..e] == ChunkLens(descs[i].length, unit)
    decreases |descs|
  {
    var init := descs[..|descs| - 1];
    NumBuffersSnoc(descs, unit, i);
    NumBuffersPrefix(descs, unit, i + 1);
    var front, last := DescChunks(init, unit), ChunkLens(descs[|descs| - 1].length, unit);
    assert DescChunks(descs, unit) == front + last;
    if i == |descs| - 1 {
      assert init == descs[..i];
      assert descs[..i + 1] == descs;
      SliceRight(front, last);
    } else {
      assert init[..i] == descs[..i] && init[..i + 1] == descs[..i + 1];
      DescChunksAt(init, unit, i);
      NumBuffersPrefix(init, unit, i + 1);
      SliceLeft(front, last, NumBuffers(descs[..i], unit), NumBuffers(descs[..i + 1], unit));
    }
  }

  lemma SliceRight(a: seq<nat>, b: seq<nat>)
    ensures (a + b)[|a|..|a| + |b|] == b
  {
  }

  lemma SliceLeft(a: seq<nat>, b: seq<nat>, s: nat, e: nat)
    requires s <= e <= |a|
    ensures (a + b)[s..e] == a[s..e]
  {
  }

  /** Work request i holds the elements of descriptor i's chunks and carries its key and address. */
  lemma {:induction false} MultiWrsAt(descs: seq<SglDescriptor>, vs: seq<Iovec>, unit: nat, xlate: Addr -> nat, i: nat)
    requires unit > 0 && |vs| == NumBuffers(descs, unit) && i < |descs|
    ensures var s, e := NumBuffers(descs[..i], unit), NumBuffers(descs[..i + 1], unit);
      s <= e <= |vs| &&
      MultiWrs(descs, vs, unit, xlate)[i] == SendWr(SgesOf(vs[s..e], xlate), descs[i].key, descs[i].address)
    decreases |descs|
  {
    var init := descs[..|descs| - 1];
    var k := NumBuffers(init, unit);
    NumBuffersSnoc(descs, unit, i);
    NumBuffersPrefix(descs, unit, i + 1);
    if i == |descs| - 1 {
      assert init == descs[..i];
      assert descs[..i + 1] == descs;
    } else {
      assert init[..i] == descs[..i] && init[..i + 1] == descs[..i + 1];
      MultiWrsAt(init, vs[..k], unit, xlate, i);
      var s, e := NumBuffers(descs[..i], unit), NumBuffers(descs[..i + 1], unit);
      assert vs[..k][s..e] == vs[s..e];
    }
  }

  /** The enabling conditions of a last segment that parses with all its WRs and buffers. */
  predicate MultiFits(o: TransportOpts, r: Req, b: BufState, wrPool: seq<nat>)
    requires Parsable(o, r)
  {
    var n := r.cmd.sgl1.length / SglDescriptorSize;
    && IsLastSegment(r.cmd.sgl1)
    && 0 < n <= MaxSglEntries && n <= |r.recv.value.segment|
    && AllKeyedAddress(Segment(r)) && TotalLength(Segment(r)) <= o.maxIoSize
    && n - 1 <= |wrPool| && NumBuffers(Segment(r), o.ioUnitSize) <= |b.cache| + |b.pool|
  }

  /** One descriptor's work request: its elements are its own chunks, in their own buffers. */
  predicate WrMatches(q: Req, descs: seq<SglDescriptor>, unit: nat, xlate: Addr -> nat, i: nat)
    requires unit > 0 && i < |descs| && i < |q.wrs|
  {
    var s, e := NumBuffers(descs[..i], unit), NumBuffers(descs[..i + 1], unit);
    && s <= e <= |q.iov|
    && e - s == CeilDiv(descs[i].length, unit)
    && q.wrs[i] == SendWr(SgesOf(q.iov[s..e], xlate), descs[i].key, descs[i].address)
    && Lens(q.iov[s..e]) == ChunkLens(descs[i].length, unit)
  }

  /**
   * A last segment that fits: the request gets one data WR per descriptor (data.wr and
   * n - 1 from the front of the WR pool, chained in order), the total length, one iovec per
   * chunk with buffers from the allocator in its order at the aligned address, and each WR
   * holds exactly its descriptor's chunks with its key and address.
   */
  lemma MultiSuccess(o: TransportOpts, r: Req, b: BufState, wrPool: seq<nat>, xlate: Addr -> nat)
    requires Parsable(o, r) && MultiFits(o, r, b, wrPool)
    ensures var p := ParseSpec(o, r, b, wrPool, xlate);
      var n, descs, u := r.cmd.sgl1.length / SglDescriptorSize, Segment(r), o.ioUnitSize;
      var nb := NumBuffers(descs, u);
      var t := TakeBuffers(b, nb);
      && |descs| == n && nb <= MaxBuffers
      && p.rc == 0 && p.req.dataFromPool && p.req.length == TotalLength(descs)
      && p.req.iovcnt == nb && p.req.outstandingDataWr == n
      && |p.req.wrs| == n && p.req.pooledWrs == wrPool[..n - 1] && p.wrPool == wrPool[n - 1..]
      && p.bufs == t.bufs && p.req.buffers[..nb] == t.taken
      && (forall j :: 0 <= j < nb ==> p.req.iov[j].base == AlignUp(p.req.buffers[j]))
      && (forall i :: 0 <= i < n ==> WrMatches(p.req, descs, u, xlate, i))
      && p.req.data == p.req.iov[0].base
  {
    var n, descs, u := r.cmd.sgl1.length / SglDescriptorSize, Segment(r), o.ioUnitSize;
    var p := ParseSpec(o, r, b, wrPool, xlate);
    MultiUnfold(o, r, b, wrPool, xlate);
    NumBuffersWithinMax(descs, o);
    var nb := NumBuffers(descs, u);
    var t := TakeBuffers(b, nb);
    var vs := IovsFor(t.taken, DescChunks(descs, u));
    forall j | 0 <= j < nb
      ensures p.req.iov[j] == vs[j] && p.req.buffers[j] == t.taken[j]
    {
      assert p.req.iov[..nb][j] == p.req.iov[j];
      assert p.req.buffers[..nb][j] == p.req.buffers[j];
    }
    forall i | 0 <= i < n
      ensures WrMatches(p.req, descs, u, xlate, i)
    {
      WrMatchesFrom(p.req, descs, u, xlate, t.taken, i);
    }
  }

  /** ParseSpec on a last segment that fits, written out. */
  lemma MultiUnfold(o: TransportOpts, r: Req, b: BufState, wrPool: seq<nat>, xlate: Addr -> nat)
    requires Parsable(o, r) && MultiFits(o, r, b, wrPool)
    ensures var n, descs, u := r.cmd.sgl1.length / SglDescriptorSize, Segment(r), o.ioUnitSize;
      var nb := NumBuffers(descs, u);
      var t := TakeBuffers(b, nb);
      var vs := IovsFor(t.taken, DescChunks(descs, u));
      && |descs| == n && nb <= MaxBuffers && t.ok
      && ParseSpec(o, r, b, wrPool, xlate) ==
         Parsed(0, r.(length := TotalLength(descs), iovcnt := nb, buffers := Overlay(r.buffers, t.taken),
                      iov := Overlay(r.iov, vs), wrs := MultiWrs(descs, vs, u, xlate), pooledWrs := wrPool[..n - 1],
                      outstandingDataWr := n, dataFromPool := true, data := Overlay(r.iov, vs)[0].base),
                t.bufs, wrPool[n - 1..])
  {
    var n := r.cmd.sgl1.length / SglDescriptorSize;
    assert ParseSpec(o, r, b, wrPool, xlate) == ParseMulti(o, r, b, wrPool, xlate);
    assert Segment(r) == r.recv.value.segment[..n];
    NumBuffersWithinMax(Segment(r), o);
  }

  /** WrMatches for work request i of a request whose iovecs and WRs the last-segment parse built. */
  lemma WrMatchesFrom(q: Req, descs: seq<SglDescriptor>, u: nat, xlate: Addr -> nat, taken: seq<Addr>, i: nat)
    requires u > 0 && i < |descs| && |taken| == NumBuffers(descs, u)
    requires var vs := IovsFor(taken, DescChunks(descs, u));
      |vs| <= |q.iov| && q.iov[..|vs|] == vs && q.wrs == MultiWrs(descs, vs, u, xlate)
    ensures WrMatches(q, descs, u, xlate, i)
  {
    var lens := DescChunks(descs, u);
    var vs := IovsFor(taken, lens);
    MultiWrsAt(descs, vs, u, xlate, i);
    DescChunksAt(descs, u, i);
    NumBuffersSnoc(descs, u, i);
    var s, e := NumBuffers(descs[..i], u), NumBuffers(descs[..i + 1], u);
    assert e <= |vs|;
    SliceOfPrefix(q.iov, |vs|, s, e);
    assert Lens(q.iov[s..e]) == lens[s..e];
  }

  lemma SliceOfPrefix<T>(a: seq<T>, m: nat, s: nat, e: nat)
    requires s <= e <= m <= |a|
    ensures a[..m][s..e] == a[s..e]
  {
  }


  /**
   * One very large descriptor and one very small one (15.5 and 0.5 I/O units): the first
   * fills all 16 elements of data.wr, its last chunk half a unit, and the second gets its
   * own WR with one half-unit element; the two half chunks are not merged into one buffer,
   * so 17 iovecs are used.
   */
  lemma ShortTailNotPacked(o: TransportOpts, r: Req, b: BufState, wrPool: seq<nat>, xlate: Addr -> nat)
    requires Parsable(o, r) && MultiFits(o, r, b, wrPool)
    requires var u := o.ioUnitSize; var descs := Segment(r);
      u % 2 == 0 && |descs| == 2 && descs[0].length == 15 * u + u / 2 && descs[1].length == u / 2
    ensures var p := ParseSpec(o, r, b, wrPool, xlate); var u := o.ioUnitSize;
      && p.rc == 0 && p.req.dataFromPool && p.req.length == 16 * u && p.req.iovcnt == 17
      && |p.req.wrs| == 2
      && |p.req.wrs[0].sgList| == 16
      && (forall i :: 0 <= i < 15 ==> p.req.wrs[0].sgList[i].length == u)
      && p.req.wrs[0].sgList[15].length == u / 2
      && |p.req.wrs[1].sgList| == 1 && p.req.wrs[1].sgList[0].length == u / 2
  {
    var u, descs := o.ioUnitSize, Segment(r);
    var p := ParseSpec(o, r, b, wrPool, xlate);
    MultiSuccess(o, r, b, wrPool, xlate);
    HalfUnitChunks(u);
    TwoDescriptorTotals(descs, u);
    ShortTailWrs(p.req, descs, u, xlate);
  }

  /** The two matching work requests of a 15.5-unit and a half-unit descriptor. */
  lemma ShortTailWrs(q: Req, descs: seq<SglDescriptor>, u: nat, xlate: Addr -> nat)
    requires u > 0 && u % 2 == 0 && |descs| == 2 && |q.wrs| == 2
    requires descs[0].length == 15 * u + u / 2 && descs[1].length == u / 2
    requires WrMatches(q, descs, u, xlate, 0) && WrMatches(q, descs, u, xlate, 1)
    ensures |q.wrs[0].sgList| == 16
    ensures forall i :: 0 <= i < 15 ==> q.wrs[0].sgList[i].length == u
    ensures q.wrs[0].sgList[15].length == u / 2
    ensures |q.wrs[1].sgList| == 1 && q.wrs[1].sgList[0].length == u / 2
  {
    HalfUnitChunks(u);
    WrElementLengths(q, descs, u, xlate, 0);
    WrElementLengths(q, descs, u, xlate, 1);
  }

  /** The buffers and bytes of two descriptors are the sums of their own. */
  lemma TwoDescriptorTotals(descs: seq<SglDescriptor>, u: nat)
    requires u > 0 && |descs| == 2
    ensures NumBuffers(descs, u) == CeilDiv(descs[0].length, u) + CeilDiv(descs[1].length, u)
    ensures TotalLength(descs) == descs[0].length + descs[1].length
  {
    assert descs[..0] == [] && descs[..2] == descs;
    NumBuffersSnoc(descs, u, 0);
    NumBuffersSnoc(descs, u, 1);
    assert TotalLength(descs) == TotalLength(descs[..1]) + descs[1].length;
    assert descs[..1][..0] == [];
  }

  /** 15.5 units make 16 chunks, 15 full and half a unit; half a unit makes one chunk. */
  lemma HalfUnitChunks(u: nat)
    requires u > 0 && u % 2 == 0
    ensures var c := ChunkLens(15 * u + u / 2, u);
      && CeilDiv(15 * u + u / 2, u) == 16 && |c| == 16
      && (forall i :: 0 <= i < 15 ==> c[i] == u) && c[15] == u / 2
    ensures CeilDiv(u / 2, u) == 1 && ChunkLens(u / 2, u) == [u / 2]
  {
    assert 0 < u / 2 < u;
    DivUnique(15 * u + u / 2 + u - 1, u, 16);
    CeilDivSmall(u / 2, u);
    ChunkLensCount(15 * u + u / 2, u);
    ChunkLensShape(15 * u + u / 2, u);
  }

  /** The elements of a descriptor's matching work request have its chunk lengths. */
  lemma WrElementLengths(q: Req, descs: seq<SglDescriptor>, u: nat, xlate: Addr -> nat, i: nat)
    requires u > 0 && i < |descs| && i < |q.wrs| && WrMatches(q, descs, u, xlate, i)
    ensures var c := ChunkLens(descs[i].length, u);
      |q.wrs[i].sgList| == |c| && forall k :: 0 <= k < |c| ==> q.wrs[i].sgList[k].length == c[k]
  {
    var s, e := NumBuffers(descs[..i], u), NumBuffers(descs[..i + 1], u);
    var c := ChunkLens(descs[i].length, u);
    forall k | 0 <= k < |c|
      ensures q.wrs[i].sgList[k].length == c[k]
    {
      assert Lens(q.iov[s..e])[k] == q.iov[s..e][k].len;
    }
  }

  // ---------------------------------------------------------------------------------
  // Conservation.

  /** The pool buffers a request holds: its first iovcnt slots while data_from_pool is set. */
  function Held(q: Req): multiset<Addr>
    requires Shaped(q)
  {
    if q.dataFromPool then multiset(q.buffers[..q.iovcnt]) else multiset{}
  }

  /**
   * parse_sgl on a request that holds no pooled data loses and invents no buffer and no
   * data WR: what the cache and pool lose, the request holds, and the WRs it borrows are
   * the ones the WR pool no longer has; the cache stays within its capacity.
   */
  lemma ParseConserves(o: TransportOpts, r: Req, b: BufState, wrPool: seq<nat>, xlate: Addr -> nat)
    requires Parsable(o, r) && !r.dataFromPool && CacheBounded(b)
    ensures var p := ParseSpec(o, r, b, wrPool, xlate);
      && Owned(p.bufs) + Held(p.req) == Owned(b)
      && multiset(p.wrPool) + multiset(p.req.pooledWrs) == multiset(wrPool)
      && CacheBounded(p.bufs) && p.bufs.cacheSize == b.cacheSize
  {
    var sgl := r.cmd.sgl1;
    if ParseSpec(o, r, b, wrPool, xlate).rc == -1 {
    } else if IsKeyed(sgl) {
      KeyedConserves(o, r, b, wrPool, xlate);
    } else if sgl.sglType == SglTypeDataBlock && sgl.subtype == SglSubtypeOffset {
      InCapsule(o, r, b, wrPool, xlate);
    } else {
      MultiConserves(o, r, b, wrPool, xlate);
    }
  }

  lemma KeyedConserves(o: TransportOpts, r: Req, b: BufState, wrPool: seq<nat>, xlate: Addr -> nat)
    requires Parsable(o, r) && !r.dataFromPool && CacheBounded(b) && IsKeyed(r.cmd.sgl1)
    ensures var p := ParseSpec(o, r, b, wrPool, xlate);
      && Owned(p.bufs) + Held(p.req) == Owned(b)
      && multiset(p.wrPool) + multiset(p.req.pooledWrs) == multiset(wrPool)
      && CacheBounded(p.bufs) && p.bufs.cacheSize == b.cacheSize
  {
    var sgl := r.cmd.sgl1;
    if sgl.length <= o.maxIoSize {
      var n := CeilDiv(sgl.length, o.ioUnitSize);
      if n <= |b.cache| + |b.pool| {
        KeyedSuccess(o, r, b, wrPool, xlate);
        TakeSuccess(b, n);
      } else {
        KeyedNoBuffers(o, r, b, wrPool, xlate);
        TakeFailureLeaksNothing(b, n);
      }
    }
  }

  lemma MultiConserves(o: TransportOpts, r: Req, b: BufState, wrPool: seq<nat>, xlate: Addr -> nat)
    requires Parsable(o, r) && !r.dataFromPool && CacheBounded(b) && IsLastSegment(r.cmd.sgl1)
    ensures var p := ParseSpec(o, r, b, wrPool, xlate);
      && Owned(p.bufs) + Held(p.req) == Owned(b)
      && multiset(p.wrPool) + multiset(p.req.pooledWrs) == multiset(wrPool)
      && CacheBounded(p.bufs) && p.bufs.cacheSize == b.cacheSize
  {
    var n := r.cmd.sgl1.length / SglDescriptorSize;
    MultiFailsIff(o, r, b, wrPool, xlate);
    if ParseSpec(o, r, b, wrPool, xlate).rc == -1 {
    } else if n - 1 > |wrPool| {
      MultiNoWorkRequests(o, r, b, wrPool, xlate);
    } else if NumBuffers(Segment(r), o.ioUnitSize) > |b.cache| + |b.pool| {
      MultiNoBuffers(o, r, b, wrPool, xlate);
      TakeFailureLeaksNothing(b, NumBuffers(Segment(r), o.ioUnitSize));
    } else {
      MultiSuccessConserves(o, r, b, wrPool, xlate);
    }
  }

  lemma MultiSuccessConserves(o: TransportOpts, r: Req, b: BufState, wrPool: seq<nat>, xlate: Addr -> nat)
    requires Parsable(o, r) && MultiFits(o, r, b, wrPool) && CacheBounded(b)
    ensures var p := ParseSpec(o, r, b, wrPool, xlate);
      && Owned(p.bufs) + Held(p.req) == Owned(b)
      && multiset(p.wrPool) + multiset(p.req.pooledWrs) == multiset(wrPool)
      && CacheBounded(p.bufs) && p.bufs.cacheSize == b.cacheSize
  {
    var n := r.cmd.sgl1.length / SglDescriptorSize;
    MultiSuccess(o, r, b, wrPool, xlate);
    TakeSuccess(b, NumBuffers(Segment(r), o.ioUnitSize));
    assert wrPool == wrPool[..n - 1] + wrPool[n - 1..];
  }
}
