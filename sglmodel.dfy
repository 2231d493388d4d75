/**
 * The SGL translator (spdk_nvmf_rdma_request_parse_sgl) as a function on a snapshot of
 * one RDMA request, the buffer cache and pool, and the transport's pool of data work
 * requests. The three descriptor forms it accepts are those of section 4.4 of the NVM
 * Express Base Specification, revision 1.4: a keyed data block with an address, a data
 * block with an offset into the in-capsule data, and a last segment holding an array of
 * keyed data block descriptors.
 */
module Sgl {
  import opened NvmfTypes
  import opened Chunks
  import opened BufPool

  /**
   * A snapshot of struct spdk_nvmf_rdma_request and its embedded spdk_nvmf_request.
   * wrs[0] is the embedded data work request (data.wr); wrs[1..] are the data work
   * requests borrowed from the transport's pool, in chain order, whose pool identities
   * are pooledWrs. A work request's sgList holds its first num_sge elements.
   */
  datatype Req = Req(
    id: nat,
    state: State,
    recv: Option<Recv>,
    cmd: Command,
    xfer: Xfer,
    status: nat,
    length: nat,
    dataFromPool: bool,
    data: Addr,
    iovcnt: nat,
    buffers: seq<Addr>,
    iov: seq<Iovec>,
    wrs: seq<SendWr>,
    pooledWrs: seq<nat>,
    outstandingDataWr: nat)

  /** The fixed sizes of the request: NVMF_REQ_MAX_BUFFERS slots, one WR per pooled WR plus data.wr. */
  predicate Shaped(r: Req)
  {
    |r.buffers| == MaxBuffers && |r.iov| == MaxBuffers && r.iovcnt <= MaxBuffers &&
    |r.wrs| == |r.pooledWrs| + 1
  }

  /**
   * reset_nvmf_rdma_request: no length, no pooled data, no data address, an empty data
   * work request with zero key and address, and the first SPDK_NVMF_MAX_SGL_ENTRIES iovecs,
   * buffer slots and scatter-gather elements zero.
   */
  predicate Cleared(r: Req)
  {
    && r.length == 0 && !r.dataFromPool && r.data == 0
    && |r.wrs| > 0 && r.wrs[0] == SendWr([], 0, 0)
    && (forall i :: 0 <= i < MaxSglEntries && i < |r.buffers| ==> r.buffers[i] == 0)
    && (forall i :: 0 <= i < MaxSglEntries && i < |r.iov| ==> r.iov[i] == Iovec(0, 0))
  }

  function Reset(r: Req): (c: Req)
    requires Shaped(r)
    ensures Cleared(c) && Shaped(c)
    ensures c.id == r.id && c.state == r.state && c.recv == r.recv && c.cmd == r.cmd && c.xfer == r.xfer
    ensures c.pooledWrs == r.pooledWrs && c.wrs[1..] == r.wrs[1..] && c.iovcnt == r.iovcnt
    ensures c.buffers[MaxSglEntries..] == r.buffers[MaxSglEntries..] && c.iov[MaxSglEntries..] == r.iov[MaxSglEntries..]
  {
    r.(length := 0, dataFromPool := false, data := 0,
       wrs := [SendWr([], 0, 0)] + r.wrs[1..],
       buffers := Overlay(r.buffers, NullBuffers(MaxSglEntries)),
       iov := Overlay(r.iov, NullIovs(MaxSglEntries)))
  }

  /** The effect of spdk_nvmf_request_free_buffers on the request for its first k slots. */
  function FreedBuffers(r: Req, k: nat): (f: Req)
    requires Shaped(r) && k <= MaxBuffers
    ensures Shaped(f) && !f.dataFromPool
    ensures forall i :: 0 <= i < k ==> f.buffers[i] == 0 && f.iov[i] == Iovec(0, 0)
    ensures f.buffers[k..] == r.buffers[k..] && f.iov[k..] == r.iov[k..]
  {
    r.(buffers := Overlay(r.buffers, NullBuffers(k)),
       iov := Overlay(r.iov, NullIovs(k)),
       dataFromPool := false)
  }

  /** The iovecs for raw buffers bufs and chunk lengths lens: aligned base, chunk length. */
  function IovsFor(bufs: seq<Addr>, lens: seq<nat>): (vs: seq<Iovec>)
    requires |bufs| == |lens|
    ensures |vs| == |lens|
    ensures forall j :: 0 <= j < |lens| ==> vs[j] == Iovec(AlignUp(bufs[j]), lens[j])
  {
    seq(|lens|, j requires 0 <= j < |lens| => Iovec(AlignUp(bufs[j]), lens[j]))
  }

  /** The lengths of some iovecs. */
  function Lens(vs: seq<Iovec>): (ls: seq<nat>)
    ensures |ls| == |vs| && forall j :: 0 <= j < |vs| ==> ls[j] == vs[j].len
  {
    seq(|vs|, j requires 0 <= j < |vs| => vs[j].len)
  }

  /** The scatter-gather elements for iovecs: same address and length, lkey from the translation. */
  function SgesOf(vs: seq<Iovec>, xlate: Addr -> nat): (sges: seq<Sge>)
    ensures |sges| == |vs|
    ensures forall j :: 0 <= j < |vs| ==> sges[j] == Sge(vs[j].base, vs[j].len, xlate(vs[j].base))
  {
    seq(|vs|, j requires 0 <= j < |vs| => Sge(vs[j].base, vs[j].len, xlate(vs[j].base)))
  }

  /**
   * a is where an iovec or element for the raw buffer x points: 4 KiB aligned and, for a
   * buffer below the top page, inside that buffer less than 4 KiB past its start.
   */
  predicate AlignedIn(x: Addr, a: Addr)
  {
    a & DataBufferMask == 0 && (x <= 0xFFFF_FFFF_FFFF_F000 ==> x <= a && a - x <= DataBufferMask)
  }

  /**
   * What the iovecs and elements built for pooled buffers look like: every address is the
   * aligned start of its buffer, and each carries its chunk's length and the lkey of that
   * address.
   */
  lemma ElementsAligned(bufs: seq<Addr>, lens: seq<nat>, xlate: Addr -> nat)
    requires |bufs| == |lens|
    ensures var vs := IovsFor(bufs, lens); var sges := SgesOf(vs, xlate);
      && |sges| == |lens|
      && forall j :: 0 <= j < |lens| ==>
           && sges[j].addr == vs[j].base && AlignedIn(bufs[j], vs[j].base)
           && sges[j].length == vs[j].len == lens[j] && sges[j].lkey == xlate(vs[j].base)
  {
    var vs := IovsFor(bufs, lens);
    forall j | 0 <= j < |lens| ensures AlignedIn(bufs[j], vs[j].base) {
      AlignUpIn(bufs[j]);
    }
  }

  lemma AlignUpIn(x: Addr)
    ensures AlignedIn(x, AlignUp(x))
  {
    AlignUpAligned(x);
    if x <= 0xFFFF_FFFF_FFFF_F000 {
      AlignUpBounds(x);
    }
  }

  predicate IsKeyedAddress(d: SglDescriptor)
  {
    d.sglType == SglTypeKeyedDataBlock && d.subtype == SglSubtypeAddress
  }

  predicate AllKeyedAddress(descs: seq<SglDescriptor>)
  {
    forall i :: 0 <= i < |descs| ==> IsKeyedAddress(descs[i])
  }

  /** The sum of the descriptor lengths. */
  function TotalLength(descs: seq<SglDescriptor>): nat
  {
    if descs == [] then 0 else TotalLength(descs[..|descs| - 1]) + descs[|descs| - 1].length
  }

  /** The buffers the descriptors need: each starts afresh, so the counts add up per descriptor. */
  function NumBuffers(descs: seq<SglDescriptor>, unit: nat): nat
    requires unit > 0
  {
    if descs == [] then 0
    else NumBuffers(descs[..|descs| - 1], unit) + CeilDiv(descs[|descs| - 1].length, unit)
  }

  /** The chunk lengths of all descriptors, descriptor after descriptor. */
  function DescChunks(descs: seq<SglDescriptor>, unit: nat): (lens: seq<nat>)
    requires unit > 0
    ensures |lens| == NumBuffers(descs, unit)
  {
    if descs == [] then []
    else
      ChunkLensCount(descs[|descs| - 1].length, unit);
      DescChunks(descs[..|descs| - 1], unit) + ChunkLens(descs[|descs| - 1].length, unit)
  }

  /**
   * The data work requests for the descriptors, given the iovecs of all their chunks:
   * one per descriptor, holding the elements of that descriptor's chunks and carrying
   * its key and remote address.
   */
  function MultiWrs(descs: seq<SglDescriptor>, vs: seq<Iovec>, unit: nat, xlate: Addr -> nat): (wrs: seq<SendWr>)
    requires unit > 0 && |vs| == NumBuffers(descs, unit)
    ensures |wrs| == |descs|
  {
    if descs == [] then []
    else
      var init, d := descs[..|descs| - 1], descs[|descs| - 1];
      var k := NumBuffers(init, unit);
      MultiWrs(init, vs[..k], unit, xlate) + [SendWr(SgesOf(vs[k..], xlate), d.key, d.address)]
  }

  /** The outcome of parse_sgl: its return code and the new request, buffers and WR pool. */
  datatype Parsed = Parsed(rc: int, req: Req, bufs: BufState, wrPool: seq<nat>)

  /**
   * Keyed data block (address or invalidate-key sub type): a length beyond max_io_size
   * fails; otherwise the length is recorded and ceil(length / io_unit_size) buffers are
   * requested. Without them the request keeps no data (it will be retried); with them the
   * iovecs and the data WR's elements get the aligned buffers in io_unit_size chunks, the
   * WR gets the descriptor's key and address, and data points at the first iovec.
   */
  function ParseKeyed(o: TransportOpts, r: Req, b: BufState, wrPool: seq<nat>, xlate: Addr -> nat): (p: Parsed)
    requires ValidOpts(o) && Shaped(r) && r.pooledWrs == []
    ensures p.rc == -1 <==> r.cmd.sgl1.length > o.maxIoSize
    ensures p.rc == -1 ==> p == Parsed(-1, r, b, wrPool)
    ensures p.wrPool == wrPool && Shaped(p.req)
    ensures p.rc == 0 ==> p.req.length == r.cmd.sgl1.length && p.req.pooledWrs == []
    ensures p.rc == 0 && p.req.dataFromPool ==>
      && p.req.iovcnt == CeilDiv(r.cmd.sgl1.length, o.ioUnitSize) <= MaxSglEntries && p.req.outstandingDataWr == 1
      && p.req.wrs[0].rkey == r.cmd.sgl1.key && p.req.wrs[0].remoteAddr == r.cmd.sgl1.address
  {
    var sgl := r.cmd.sgl1;
    if sgl.length > o.maxIoSize then Parsed(-1, r, b, wrPool)
    else
      ChunksWithinMax(sgl.length, o);
      ChunkLensCount(sgl.length, o.ioUnitSize);
      var n := CeilDiv(sgl.length, o.ioUnitSize);
      var t := TakeBuffers(b, n);
      var r1 := r.(length := sgl.length);
      if !t.ok then Parsed(0, FreedBuffers(r1, |t.taken|), t.bufs, wrPool)
      else
        var vs := IovsFor(t.taken, ChunkLens(sgl.length, o.ioUnitSize));
        var iov := Overlay(r.iov, vs);
        Parsed(0, r1.(buffers := Overlay(r.buffers, t.taken), iov := iov, iovcnt := n,
                      wrs := [SendWr(SgesOf(vs, xlate), sgl.key, sgl.address)],
                      dataFromPool := true, data := iov[0].base, outstandingDataWr := 1),
               t.bufs, wrPool)
  }

  /** ParseKeyed's two outcomes once the length is within the maximum. */
  lemma KeyedUnfold(o: TransportOpts, r: Req, b: BufState, wrPool: seq<nat>, xlate: Addr -> nat)
    requires ValidOpts(o) && Shaped(r) && r.pooledWrs == [] && r.cmd.sgl1.length <= o.maxIoSize
    ensures var sgl, unit := r.cmd.sgl1, o.ioUnitSize;
      var n := CeilDiv(sgl.length, unit);
      var t := TakeBuffers(b, n);
      && n <= MaxSglEntries && |ChunkLens(sgl.length, unit)| == n
      && (!t.ok ==> ParseKeyed(o, r, b, wrPool, xlate) ==
                    Parsed(0, FreedBuffers(r.(length := sgl.length), |t.taken|), t.bufs, wrPool))
      && (t.ok ==> var vs := IovsFor(t.taken, ChunkLens(sgl.length, unit));
                   ParseKeyed(o, r, b, wrPool, xlate) ==
                   Parsed(0, r.(length := sgl.length, buffers := Overlay(r.buffers, t.taken),
                                iov := Overlay(r.iov, vs), iovcnt := n,
                                wrs := [SendWr(SgesOf(vs, xlate), sgl.key, sgl.address)],
                                dataFromPool := true, data := Overlay(r.iov, vs)[0].base, outstandingDataWr := 1),
                          t.bufs, wrPool))
  {
    ChunksWithinMax(r.cmd.sgl1.length, o);
    ChunkLensCount(r.cmd.sgl1.length, o.ioUnitSize);
  }

  /** The address off bytes past base, in 64-bit address arithmetic. */
  function AddrAt(base: Addr, off: nat): Addr
    requires off < 0x1_0000_0000
  {
    base + off as bv64
  }

  /**
   * Data block with an offset: the data lies in the receive buffer at that offset. The
   * offset must not pass in_capsule_data_size and the length must fit in what is left.
   */
  function ParseInCapsule(o: TransportOpts, r: Req, b: BufState, wrPool: seq<nat>): (p: Parsed)
    requires ValidOpts(o) && Shaped(r) && r.recv.Some?
    ensures p.rc == 0 <==> r.cmd.sgl1.address + r.cmd.sgl1.length <= o.inCapsuleDataSize
    ensures p.rc == -1 ==> p == Parsed(-1, r, b, wrPool)
    ensures p.bufs == b && p.wrPool == wrPool && Shaped(p.req)
    ensures p.rc == 0 ==>
      && p.req.length == r.cmd.sgl1.length && !p.req.dataFromPool && p.req.outstandingDataWr == 0
      && p.req.data == AddrAt(r.recv.value.buf, r.cmd.sgl1.address)
      && p.req.iovcnt == 1 && p.req.iov[0] == Iovec(p.req.data, r.cmd.sgl1.length)
  {
    var sgl := r.cmd.sgl1;
    var icds := o.inCapsuleDataSize;
    if sgl.address > icds then Parsed(-1, r, b, wrPool)
    else if sgl.length > icds - sgl.address then Parsed(-1, r, b, wrPool)
    else
      var d := AddrAt(r.recv.value.buf, sgl.address);
      Parsed(0, r.(outstandingDataWr := 0, data := d, dataFromPool := false, length := sgl.length,
                   iov := r.iov[0 := Iovec(d, sgl.length)], iovcnt := 1),
             b, wrPool)
  }

  /**
   * Last segment with an offset: length / 16 keyed descriptors follow in the capsule. The
   * WR pool must supply one data WR per descriptor beyond the first, from its front (else
   * nothing changes and the request is retried); all descriptors' buffers are requested in
   * one call, and when that fails the borrowed WRs are put back at the pool's end. On success each descriptor fills its own
   * WR from a fresh buffer, so a short final chunk is never shared with the next descriptor.
   * It fails with -1, before anything is taken, when the descriptor count is 0 or above 16,
   * when a descriptor is not keyed data block / address, or when the summed length exceeds
   * max_io_size; these four conditions are choices of this model, not fixed by a test.
   */
  function ParseMulti(o: TransportOpts, r: Req, b: BufState, wrPool: seq<nat>, xlate: Addr -> nat): (p: Parsed)
    requires ValidOpts(o) && Shaped(r) && r.recv.Some? && r.pooledWrs == []
    ensures p.rc == 0 || p.rc == -1
    ensures p.rc == -1 ==> p == Parsed(-1, r, b, wrPool)
    ensures Shaped(p.req)
    ensures p.rc == 0 ==> 0 < r.cmd.sgl1.length / SglDescriptorSize <= MaxSglEntries
  {
    var seg := r.recv.value.segment;
    var n := r.cmd.sgl1.length / SglDescriptorSize;
    if n == 0 || n > MaxSglEntries || n > |seg| then Parsed(-1, r, b, wrPool)
    else
      var descs := seg[..n];
      if !AllKeyedAddress(descs) || TotalLength(descs) > o.maxIoSize then Parsed(-1, r, b, wrPool)
      else MultiAllocate(o, r, b, wrPool, xlate, descs)
  }

  /**
   * The allocation half of the last-segment branch, for descriptors already validated:
   * |descs| - 1 data WRs from the WR pool, then the buffers for all descriptors.
   */
  function MultiAllocate(o: TransportOpts, r: Req, b: BufState, wrPool: seq<nat>, xlate: Addr -> nat,
                         descs: seq<SglDescriptor>): (p: Parsed)
    requires ValidOpts(o) && Shaped(r) && r.pooledWrs == []
    requires 0 < |descs| <= MaxSglEntries && TotalLength(descs) <= o.maxIoSize
    ensures p.rc == 0 && Shaped(p.req)
    ensures p.req.pooledWrs == [] || (|descs| - 1 <= |wrPool| && p.req.pooledWrs == wrPool[..|descs| - 1])
  {
    var n := |descs|;
    if n - 1 > |wrPool| then Parsed(0, r, b, wrPool)
    else
      var unit := o.ioUnitSize;
      var nb := NumBuffers(descs, unit);
      NumBuffersWithinMax(descs, o);
      assert wrPool == wrPool[..n - 1] + wrPool[n - 1..];
      var t := TakeBuffers(b, nb);
      if !t.ok then
        Parsed(0, FreedBuffers(r, |t.taken|).(wrs := [r.wrs[0].(sgList := [])], outstandingDataWr := 0),
               t.bufs, wrPool[n - 1..] + wrPool[..n - 1])
      else
        var vs := IovsFor(t.taken, DescChunks(descs, unit));
        var iov := Overlay(r.iov, vs);
        Parsed(0, r.(length := TotalLength(descs), iovcnt := nb, buffers := Overlay(r.buffers, t.taken),
                     iov := iov, wrs := MultiWrs(descs, vs, unit, xlate), pooledWrs := wrPool[..n - 1],
                     outstandingDataWr := n, dataFromPool := true, data := iov[0].base),
               t.bufs, wrPool[n - 1..])
  }

  /** MultiAllocate's two outcomes once the WR pool suffices. */
  lemma MultiUnfoldBuffers(o: TransportOpts, r: Req, b: BufState, wrPool: seq<nat>, xlate: Addr -> nat,
                           descs: seq<SglDescriptor>)
    requires ValidOpts(o) && Shaped(r) && r.pooledWrs == []
    requires 0 < |descs| <= MaxSglEntries && TotalLength(descs) <= o.maxIoSize && |descs| - 1 <= |wrPool|
    ensures var n, unit := |descs|, o.ioUnitSize;
      var nb := NumBuffers(descs, unit);
      var t := TakeBuffers(b, nb);
      var p := MultiAllocate(o, r, b, wrPool, xlate, descs);
      && nb <= MaxBuffers
      && (!t.ok ==> p == Parsed(0, FreedBuffers(r, |t.taken|).(wrs := [r.wrs[0].(sgList := [])], outstandingDataWr := 0),
                                t.bufs, wrPool[n - 1..] + wrPool[..n - 1]))
      && (t.ok ==> var vs := IovsFor(t.taken, DescChunks(descs, unit));
                   p == Parsed(0, r.(length := TotalLength(descs), iovcnt := nb, buffers := Overlay(r.buffers, t.taken),
                                     iov := Overlay(r.iov, vs), wrs := MultiWrs(descs, vs, unit, xlate),
                                     pooledWrs := wrPool[..n - 1], outstandingDataWr := n, dataFromPool := true,
                                     data := Overlay(r.iov, vs)[0].base),
                               t.bufs, wrPool[n - 1..]))
  {
    NumBuffersWithinMax(descs, o);
  }

  /**
   * spdk_nvmf_rdma_request_parse_sgl on the command's first SGL descriptor. Any other
   * type and sub type combination fails. A failure leaves everything as it was.
   */
  function ParseSpec(o: TransportOpts, r: Req, b: BufState, wrPool: seq<nat>, xlate: Addr -> nat): (p: Parsed)
    requires ValidOpts(o) && Shaped(r) && r.recv.Some? && r.pooledWrs == []
    ensures p.rc == 0 || p.rc == -1
    ensures p.rc == -1 ==> p.req == r && p.bufs == b && p.wrPool == wrPool
    ensures Shaped(p.req)
    ensures p.req.id == r.id && p.req.state == r.state && p.req.recv == r.recv && p.req.cmd == r.cmd
    ensures p.req.xfer == r.xfer && p.req.status == r.status
  {
    var sgl := r.cmd.sgl1;
    if sgl.sglType == SglTypeKeyedDataBlock &&
       (sgl.subtype == SglSubtypeAddress || sgl.subtype == SglSubtypeInvalidateKey) then
      ParseKeyed(o, r, b, wrPool, xlate)
    else if sgl.sglType == SglTypeDataBlock && sgl.subtype == SglSubtypeOffset then
      ParseInCapsule(o, r, b, wrPool)
    else if sgl.sglType == SglTypeLastSegment && sgl.subtype == SglSubtypeOffset then
      ParseMulti(o, r, b, wrPool, xlate)
    else
      Parsed(-1, r, b, wrPool)
  }

  // ---------------------------------------------------------------------------------
  // Arithmetic about several descriptors.

  lemma {:induction false} TotalLengthBounds(descs: seq<SglDescriptor>, i: nat)
    requires i < |descs|
    ensures descs[i].length <= TotalLength(descs)
    decreases |descs|
  {
    if i < |descs| - 1 {
      TotalLengthBounds(descs[..|descs| - 1], i);
    }
  }

  /** Each descriptor costs at most one buffer more than its share of whole units. */
  lemma {:induction false} NumBuffersAtMost(descs: seq<SglDescriptor>, unit: nat)
    requires unit > 0
    ensures NumBuffers(descs, unit) <= TotalLength(descs) / unit + |descs|
    decreases |descs|
  {
    if descs != [] {
      var init, d := descs[..|descs| - 1], descs[|descs| - 1];
      NumBuffersAtMost(init, unit);
      CeilDivAtMostFloorPlusOne(d.length, unit);
      FloorSuperadditive(TotalLength(init), d.length, unit);
    }
  }

  /**
   * Within max_io_size, at most SPDK_NVMF_MAX_SGL_ENTRIES descriptors need no more than
   * NVMF_REQ_MAX_BUFFERS buffers, and each descriptor fits in one work request.
   */
  lemma NumBuffersWithinMax(descs: seq<SglDescriptor>, o: TransportOpts)
    requires ValidOpts(o) && |descs| <= MaxSglEntries && TotalLength(descs) <= o.maxIoSize
    ensures NumBuffers(descs, o.ioUnitSize) <= MaxBuffers
    ensures forall i :: 0 <= i < |descs| ==> CeilDiv(descs[i].length, o.ioUnitSize) <= MaxSglEntries
  {
    NumBuffersAtMost(descs, o.ioUnitSize);
    DivMonotone(TotalLength(descs), o.maxIoSize, o.ioUnitSize);
    forall i | 0 <= i < |descs|
      ensures CeilDiv(descs[i].length, o.ioUnitSize) <= MaxSglEntries
    {
      TotalLengthBounds(descs, i);
      ChunksWithinMax(descs[i].length, o);
    }
  }
}
