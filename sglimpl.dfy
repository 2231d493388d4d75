/**
 * spdk_nvmf_rdma_request_parse_sgl on the objects it updates in place: the RDMA request
 * (its iovec and buffer arrays, its data work requests), the poll group's buffer cache and
 * the transport's pools. Each method is proved against the value model in Sgl: the
 * request, cache, pool and WR pool after the call are what ParseSpec gives for the
 * snapshot before it.
 */
module SglImpl {
  import opened NvmfTypes
  import opened Chunks
  import opened BufPool
  import opened Buffers
  import opened Sgl
  import opened SglProps

  /**
   * struct spdk_nvmf_rdma_request: the embedded generic request, the state, the receive
   * carrying the command, the data work requests (wrs[0] is data.wr, the rest are borrowed
   * from the transport by identity pooledWrs) and the number of outstanding data WRs.
   */
  class RdmaRequest {
    const id: nat
    const req: NvmfRequest
    var state: State
    var recv: Option<Recv>
    var wrs: seq<SendWr>
    var pooledWrs: seq<nat>
    var outstandingDataWr: nat

    predicate Valid()
      reads this, req
    {
      req.Valid() && |wrs| == |pooledWrs| + 1
    }

    /** The request as the value the model reasons about. */
    function Snap(): Req
      reads this, req, req.buffers, req.iov
    {
      Req(id, state, recv, req.cmd, req.xfer, req.status, req.length, req.dataFromPool, req.data,
          req.iovcnt, req.buffers[..], req.iov[..], wrs, pooledWrs, outstandingDataWr)
    }

    /** A request as its pool creates it: free, cleared, with an empty data WR. */
    constructor (i: nat)
      ensures Valid() && fresh(req) && fresh(req.buffers) && fresh(req.iov)
      ensures id == i && state == Free && recv == None && pooledWrs == [] && outstandingDataWr == 0
      ensures Cleared(Snap()) && Shaped(Snap())
    {
      id := i;
      req := new NvmfRequest();
      state := Free;
      recv := None;
      wrs := [SendWr([], 0, 0)];
      pooledWrs := [];
      outstandingDataWr := 0;
    }
  }

  /** The chunk lengths of a positive remaining length: one chunk of min(remaining, unit), then the rest. */
  lemma ChunkLensHead(rem: nat, unit: nat)
    requires unit > 0 && rem > 0
    ensures ChunkLens(rem, unit) == [Min(rem, unit)] + ChunkLens(rem - Min(rem, unit), unit)
  {
    if rem <= unit {
      assert ChunkLens(0, unit) == [];
    }
  }

  /** s with p written over it from position at on. */
  function Splice<T>(s: seq<T>, at: nat, p: seq<T>): (r: seq<T>)
    requires at + |p| <= |s|
    ensures |r| == |s|
  {
    s[..at] + p + s[at + |p|..]
  }

  /**
   * nvmf_rdma_fill_buffers for one descriptor of length len: while bytes remain, the
   * iovec at iovcnt gets the aligned buffer and min(remaining, io_unit_size) bytes, and the
   * work request one element with the same address and length and the translated lkey.
   */
  method FillBuffers(req: NvmfRequest, len: nat, unit: nat, xlate: Addr -> nat) returns (sges: seq<Sge>)
    requires req.Valid() && unit > 0 && req.iovcnt + |ChunkLens(len, unit)| <= MaxBuffers
    modifies req.iov, req`iovcnt
    ensures var s, n := old(req.iovcnt), |ChunkLens(len, unit)|;
      var vs := IovsFor(req.buffers[s..s + n], ChunkLens(len, unit));
      && req.iovcnt == s + n
      && req.iov[..] == Splice(old(req.iov[..]), s, vs)
      && sges == SgesOf(vs, xlate)
  {
    ghost var iov0 := req.iov[..];
    var c;
    c, sges := FillLoop(req.iov, req.buffers, req.iovcnt, len, unit, xlate);
    FilledAre(req.iov, iov0, req.buffers[..], ChunkLens(len, unit), sges, req.iovcnt, xlate);
    req.iovcnt := c;
  }

  /** The loop of nvmf_rdma_fill_buffers, on the request's iovec and buffer arrays. */
  method FillLoop(iov: array<Iovec>, buffers: array<Addr>, s: nat, len: nat, unit: nat, xlate: Addr -> nat)
    returns (c: nat, sges: seq<Sge>)
    requires iov.Length == buffers.Length == MaxBuffers && iov as object != buffers as object
    requires unit > 0 && s + |ChunkLens(len, unit)| <= MaxBuffers
    modifies iov
    ensures var lens := ChunkLens(len, unit);
      && c == s + |lens| && |sges| == |lens|
      && (forall k :: 0 <= k < |lens| ==> iov[s + k] == Iovec(AlignUp(buffers[s + k]), lens[k]))
      && (forall k :: 0 <= k < |lens| ==> sges[k] == Sge(AlignUp(buffers[s + k]), lens[k], xlate(AlignUp(buffers[s + k]))))
      && (forall k :: 0 <= k < MaxBuffers && (k < s || c <= k) ==> iov[k] == old(iov[k]))
  {
    ghost var lens := ChunkLens(len, unit);
    ghost var i := 0;
    c := s;
    var remaining: nat := len;
    sges := [];
    while remaining > 0
      invariant i <= |lens| && c == s + i && |sges| == i
      invariant ChunkLens(remaining, unit) == lens[i..]
      invariant forall k :: 0 <= k < i ==> iov[s + k] == Iovec(AlignUp(buffers[s + k]), lens[k])
      invariant forall k :: 0 <= k < i ==> sges[k] == Sge(AlignUp(buffers[s + k]), lens[k], xlate(AlignUp(buffers[s + k])))
      invariant forall k :: 0 <= k < s ==> iov[k] == old(iov[k])
      invariant forall k :: c <= k < MaxBuffers ==> iov[k] == old(iov[k])
      decreases remaining
    {
      ChunkStep(lens, i, remaining, unit);
      sges := FillChunk(iov, buffers, s, c, remaining, unit, xlate, lens, sges);
      remaining := remaining - Min(remaining, unit);
      c, i := c + 1, i + 1;
    }
  }

  /** One turn of the filling loop: iovec c gets the aligned buffer c and the next chunk, and so does a new element. */
  method FillChunk(iov: array<Iovec>, buffers: array<Addr>, s: nat, c: nat, remaining: nat, unit: nat,
                   xlate: Addr -> nat, ghost lens: seq<nat>, sges: seq<Sge>) returns (sges': seq<Sge>)
    requires iov.Length == buffers.Length == MaxBuffers && iov as object != buffers as object
    requires s <= c < MaxBuffers && c - s < |lens| && |sges| == c - s && lens[c - s] == Min(remaining, unit)
    requires forall k :: 0 <= k < c - s ==> iov[s + k] == Iovec(AlignUp(buffers[s + k]), lens[k])
    requires forall k :: 0 <= k < c - s ==> sges[k] == Sge(AlignUp(buffers[s + k]), lens[k], xlate(AlignUp(buffers[s + k])))
    modifies iov
    ensures |sges'| == c - s + 1
    ensures forall k :: 0 <= k < c - s + 1 ==> iov[s + k] == Iovec(AlignUp(buffers[s + k]), lens[k])
    ensures forall k :: 0 <= k < c - s + 1 ==> sges'[k] == Sge(AlignUp(buffers[s + k]), lens[k], xlate(AlignUp(buffers[s + k])))
    ensures forall k :: 0 <= k < MaxBuffers && k != c ==> iov[k] == old(iov[k])
  {
    var chunk := Min(remaining, unit);
    var base := AlignUp(buffers[c]);
    iov[c] := Iovec(base, chunk);
    sges' := sges + [Sge(base, chunk, xlate(base))];
  }

  /** One turn of the filling loop: the next chunk is min(remaining, unit), then the rest's chunks. */
  lemma ChunkStep(lens: seq<nat>, i: nat, rem: nat, unit: nat)
    requires unit > 0 && rem > 0 && i <= |lens| && ChunkLens(rem, unit) == lens[i..]
    ensures i < |lens| && lens[i] == Min(rem, unit) && ChunkLens(rem - Min(rem, unit), unit) == lens[i + 1..]
  {
    ChunkLensHead(rem, unit);
  }

  /** What the filling loop established, as a spliced iovec array and the elements of its slice. */
  lemma FilledAre(iov: array<Iovec>, iov0: seq<Iovec>, bufs: seq<Addr>, lens: seq<nat>, sges: seq<Sge>,
                  s: nat, xlate: Addr -> nat)
    requires iov.Length == |iov0| && s + |lens| <= |iov0| && s + |lens| <= |bufs| && |sges| == |lens|
    requires forall k :: 0 <= k < |lens| ==> iov[s + k] == Iovec(AlignUp(bufs[s + k]), lens[k])
    requires forall k :: 0 <= k < |sges| ==> sges[k] == Sge(AlignUp(bufs[s + k]), lens[k], xlate(AlignUp(bufs[s + k])))
    requires forall k :: 0 <= k < |iov0| && (k < s || s + |lens| <= k) ==> iov[k] == iov0[k]
    ensures iov[..] == Splice(iov0, s, IovsFor(bufs[s..s + |lens|], lens))
    ensures sges == SgesOf(IovsFor(bufs[s..s + |lens|], lens), xlate)
  {
  }

  /** The keyed data block branch of parse_sgl, proved against Sgl.ParseKeyed. */
  method ParseKeyedBlock(rr: RdmaRequest, group: PollGroup, transport: Transport, xlate: Addr -> nat)
    returns (rc: int)
    requires rr.Valid() && group.Valid() && ValidOpts(transport.opts) && rr.pooledWrs == []
    modifies rr`wrs, rr`outstandingDataWr, rr.req`length, rr.req`iovcnt, rr.req`dataFromPool, rr.req`data,
      rr.req.buffers, rr.req.iov, group`bufCache, group`bufCacheCount, transport`dataBufPool
    ensures rr.Valid() && group.Valid()
    ensures var p := ParseKeyed(transport.opts, old(rr.Snap()), old(Bufs(group, transport)),
                                old(transport.dataWrPool), xlate);
      rc == p.rc && rr.Snap() == p.req && Bufs(group, transport) == p.bufs && transport.dataWrPool == p.wrPool
  {
    var sgl := rr.req.cmd.sgl1;
    var o := transport.opts;
    if sgl.length > o.maxIoSize {
      return -1;
    }
    ghost var r0 := rr.Snap();
    ghost var b0 := Bufs(group, transport);
    KeyedUnfold(o, r0, b0, transport.dataWrPool, xlate);
    rr.req.length := sgl.length;
    var n := CeilDiv(sgl.length, o.ioUnitSize);
    ghost var t := TakeBuffers(b0, n);
    rc := TakeForRequest(rr, group, transport, n);
    if rc != 0 {
      return 0;
    }
    KeyedFillSnap(rr, o.ioUnitSize, xlate, t.taken);
    return 0;
  }

  /**
   * get_buffers on behalf of an RDMA request, as a change of its snapshot: on success the
   * first num buffer slots hold the buffers taken, on failure the slots and iovecs the
   * allocator had filled are cleared again.
   */
  method TakeForRequest(rr: RdmaRequest, group: PollGroup, transport: Transport, num: nat) returns (rc: int)
    requires rr.Valid() && group.Valid() && num <= MaxBuffers
    modifies rr.req.buffers, rr.req.iov, rr.req`dataFromPool, group`bufCache, group`bufCacheCount,
      transport`dataBufPool
    ensures rr.Valid() && group.Valid()
    ensures var t := TakeBuffers(old(Bufs(group, transport)), num);
      && Bufs(group, transport) == t.bufs && (rc == 0 <==> t.ok)
      && (t.ok ==> rr.Snap() == old(rr.Snap()).(buffers := Overlay(old(rr.req.buffers[..]), t.taken)))
      && (!t.ok ==> rr.Snap() == FreedBuffers(old(rr.Snap()), |t.taken|))
  {
    ghost var r0 := rr.Snap();
    ghost var b0 := Bufs(group, transport);
    rc := GetBuffers(rr.req, group, transport, num);
    ghost var r1 := r0.(buffers := rr.req.buffers[..], iov := rr.req.iov[..], dataFromPool := rr.req.dataFromPool);
    assert rr.Snap() == r1;
  }

  /** KeyedFill as a change of the request's snapshot; KeyedFill's contract states what it means. */
  method KeyedFillSnap(rr: RdmaRequest, unit: nat, xlate: Addr -> nat, ghost taken: seq<Addr>)
    requires rr.Valid() && rr.pooledWrs == [] && unit > 0
    requires |ChunkLens(rr.req.cmd.sgl1.length, unit)| == |taken| <= MaxBuffers && rr.req.buffers[..|taken|] == taken
    modifies rr`wrs, rr`outstandingDataWr, rr.req`iovcnt, rr.req`dataFromPool, rr.req`data, rr.req.iov
    ensures rr.Valid()
    ensures var r, sgl := old(rr.Snap()), old(rr.req.cmd.sgl1);
      var vs := IovsFor(taken, ChunkLens(sgl.length, unit));
      rr.Snap() == r.(iov := Overlay(r.iov, vs), iovcnt := |taken|,
                      wrs := [SendWr(SgesOf(vs, xlate), sgl.key, sgl.address)],
                      dataFromPool := true, data := Overlay(r.iov, vs)[0].base, outstandingDataWr := 1)
  {
    KeyedFill(rr, unit, xlate, taken);
  }

  /**
   * The success path of the keyed branch: the iovecs are filled from the buffers just
   * taken, the single data WR gets the key and remote address, and the data address is the
   * first iovec's base.
   */
  method KeyedFill(rr: RdmaRequest, unit: nat, xlate: Addr -> nat, ghost taken: seq<Addr>)
    requires rr.Valid() && rr.pooledWrs == [] && unit > 0
    requires |ChunkLens(rr.req.cmd.sgl1.length, unit)| == |taken| <= MaxBuffers && rr.req.buffers[..|taken|] == taken
    modifies rr`wrs, rr`outstandingDataWr, rr.req`iovcnt, rr.req`dataFromPool, rr.req`data, rr.req.iov
    ensures rr.Valid()
    ensures var sgl := rr.req.cmd.sgl1;
      var vs := IovsFor(taken, ChunkLens(sgl.length, unit));
      && rr.req.iov[..] == Overlay(old(rr.req.iov[..]), vs) && rr.req.iovcnt == |taken|
      && rr.wrs == [SendWr(SgesOf(vs, xlate), sgl.key, sgl.address)]
      && rr.req.dataFromPool && rr.req.data == rr.req.iov[0].base && rr.outstandingDataWr == 1
  {
    var sgl := rr.req.cmd.sgl1;
    rr.req.iovcnt := 0;
    var sges := FillBuffers(rr.req, sgl.length, unit, xlate);
    assert rr.req.buffers[0..|taken|] == taken;
    rr.wrs := [SendWr(sges, sgl.key, sgl.address)];
    rr.req.dataFromPool := true;
    rr.req.data := rr.req.iov[0].base;
    rr.outstandingDataWr := 1;
  }

  /** The in-capsule data block branch of parse_sgl, proved against Sgl.ParseInCapsule. */
  method ParseInCapsuleBlock(rr: RdmaRequest, group: PollGroup, transport: Transport) returns (rc: int)
    requires rr.Valid() && ValidOpts(transport.opts) && rr.recv.Some?
    modifies rr`outstandingDataWr, rr.req`length, rr.req`iovcnt, rr.req`dataFromPool, rr.req`data, rr.req.iov
    ensures rr.Valid()
    ensures var p := ParseInCapsule(transport.opts, old(rr.Snap()), Bufs(group, transport), transport.dataWrPool);
      rc == p.rc && rr.Snap() == p.req
  {
    var sgl := rr.req.cmd.sgl1;
    var icds := transport.opts.inCapsuleDataSize;
    if sgl.address > icds {
      return -1;
    }
    if sgl.length > icds - sgl.address {
      return -1;
    }
    var d := AddrAt(rr.recv.value.buf, sgl.address);
    rr.outstandingDataWr := 0;
    rr.req.data := d;
    rr.req.dataFromPool := false;
    rr.req.length := sgl.length;
    rr.req.iov[0] := Iovec(d, sgl.length);
    rr.req.iovcnt := 1;
    return 0;
  }

  /** The loop of the last-segment branch that adds up SPDK_CEIL_DIV of each descriptor. */
  method CountBuffers(descs: seq<SglDescriptor>, unit: nat) returns (nb: nat)
    requires unit > 0
    ensures nb == NumBuffers(descs, unit)
  {
    nb := 0;
    for i := 0 to |descs|
      invariant nb == NumBuffers(descs[..i], unit)
    {
      NumBuffersSnoc(descs, unit, i);
      nb := nb + CeilDiv(descs[i].length, unit);
    }
    assert descs[..|descs|] == descs;
  }

  /** The WRs for one more descriptor: the ones so far, then one holding that descriptor's chunks. */
  lemma MultiWrsSnoc(descs: seq<SglDescriptor>, vs: seq<Iovec>, unit: nat, xlate: Addr -> nat, i: nat)
    requires unit > 0 && i < |descs| && NumBuffers(descs[..i + 1], unit) <= |vs|
    ensures var s, e := NumBuffers(descs[..i], unit), NumBuffers(descs[..i + 1], unit);
      s <= e &&
      MultiWrs(descs[..i + 1], vs[..e], unit, xlate) ==
      MultiWrs(descs[..i], vs[..s], unit, xlate) + [SendWr(SgesOf(vs[s..e], xlate), descs[i].key, descs[i].address)]
  {
    NumBuffersSnoc(descs, unit, i);
    var s, e := NumBuffers(descs[..i], unit), NumBuffers(descs[..i + 1], unit);
    assert descs[..i + 1][..i] == descs[..i] && descs[..i + 1][i] == descs[i];
    assert vs[..e][..s] == vs[..s] && vs[..e][s..] == vs[s..e];
  }

  /** A slice of the iovecs for a list of buffers and lengths is the iovecs of the slices. */
  lemma IovsSlice(bufs: seq<Addr>, lens: seq<nat>, s: nat, e: nat)
    requires |bufs| == |lens| && s <= e <= |lens|
    ensures IovsFor(bufs, lens)[s..e] == IovsFor(bufs[s..e], lens[s..e])
  {
  }

  /**
   * The descriptor loop of the last-segment branch: each descriptor's length is added to
   * the request length and its chunks are filled from the next buffers into its own WR,
   * which gets the descriptor's key and address.
   */
  method FillDescriptors(req: NvmfRequest, descs: seq<SglDescriptor>, unit: nat, xlate: Addr -> nat,
                         ghost taken: seq<Addr>)
    returns (built: seq<SendWr>)
    requires req.Valid() && unit > 0 && |taken| == NumBuffers(descs, unit) <= MaxBuffers
    requires req.buffers[..|taken|] == taken
    modifies req.iov, req`iovcnt, req`length
    ensures var nb, vs := NumBuffers(descs, unit), IovsFor(taken, DescChunks(descs, unit));
      && req.iovcnt == nb && req.length == TotalLength(descs)
      && req.iov[..nb] == vs && req.iov[nb..] == old(req.iov[nb..])
      && built == MultiWrs(descs, vs, unit, xlate)
  {
    ghost var vs := IovsFor(taken, DescChunks(descs, unit));
    ghost var nb := |taken|;
    ghost var iov0 := req.iov[..];
    req.iovcnt := 0;
    req.length := 0;
    built := [];
    for i := 0 to |descs|
      invariant req.iovcnt == NumBuffers(descs[..i], unit) <= nb
      invariant req.length == TotalLength(descs[..i])
      invariant req.iov[..] == vs[..req.iovcnt] + iov0[req.iovcnt..]
      invariant built == MultiWrs(descs[..i], vs[..req.iovcnt], unit, xlate)
    {
      built := FillDescriptor(req, descs, unit, xlate, taken, iov0, i, built);
    }
    assert descs[..|descs|] == descs;
    assert req.iov[..nb] == req.iov[..][..nb] && req.iov[nb..] == req.iov[..][nb..];
  }

  /** One turn of the descriptor loop: descriptor i is filled after those before it. */
  method FillDescriptor(req: NvmfRequest, descs: seq<SglDescriptor>, unit: nat, xlate: Addr -> nat,
                        ghost taken: seq<Addr>, ghost iov0: seq<Iovec>, i: nat, built: seq<SendWr>)
    returns (built': seq<SendWr>)
    requires req.Valid() && unit > 0 && |taken| == NumBuffers(descs, unit) <= MaxBuffers && i < |descs|
    requires req.buffers[..|taken|] == taken && |iov0| == MaxBuffers
    requires var vs := IovsFor(taken, DescChunks(descs, unit));
      && req.iovcnt == NumBuffers(descs[..i], unit) <= |taken| && req.length == TotalLength(descs[..i])
      && req.iov[..] == vs[..req.iovcnt] + iov0[req.iovcnt..]
      && built == MultiWrs(descs[..i], vs[..req.iovcnt], unit, xlate)
    modifies req.iov, req`iovcnt, req`length
    ensures var vs := IovsFor(taken, DescChunks(descs, unit));
      && req.iovcnt == NumBuffers(descs[..i + 1], unit) <= |taken| && req.length == TotalLength(descs[..i + 1])
      && req.iov[..] == vs[..req.iovcnt] + iov0[req.iovcnt..]
      && built' == MultiWrs(descs[..i + 1], vs[..req.iovcnt], unit, xlate)
  {
    var d := descs[i];
    ghost var before := req.iov[..];
    ghost var st, lens := req.iovcnt, ChunkLens(d.length, unit);
    DescFits(descs, unit, i);
    var sges := FillBuffers(req, d.length, unit, xlate);
    ghost var bufs := req.buffers[..];
    assert bufs[st..st + |lens|] == req.buffers[st..st + |lens|];
    DescStep(descs, unit, xlate, taken, iov0, i, before, req.iov[..], bufs, sges, built);
    built' := built + [SendWr(sges, d.key, d.address)];
    req.length := req.length + d.length;
  }

  /** Descriptor i's chunks fit after those of the descriptors before it. */
  lemma DescFits(descs: seq<SglDescriptor>, unit: nat, i: nat)
    requires unit > 0 && i < |descs|
    ensures NumBuffers(descs[..i], unit) + |ChunkLens(descs[i].length, unit)| == NumBuffers(descs[..i + 1], unit)
    ensures NumBuffers(descs[..i + 1], unit) <= NumBuffers(descs, unit)
    ensures TotalLength(descs[..i + 1]) == TotalLength(descs[..i]) + descs[i].length
  {
    NumBuffersSnoc(descs, unit, i);
    NumBuffersPrefix(descs, unit, i + 1);
    ChunkLensCount(descs[i].length, unit);
  }

  /** One turn of the descriptor loop, on the iovecs before and after filling descriptor i. */
  lemma DescStep(descs: seq<SglDescriptor>, unit: nat, xlate: Addr -> nat, taken: seq<Addr>, iov0: seq<Iovec>,
                 i: nat, before: seq<Iovec>, after: seq<Iovec>, bufs: seq<Addr>, sges: seq<Sge>,
                 built: seq<SendWr>)
    requires unit > 0 && i < |descs| && |taken| == NumBuffers(descs, unit) <= |bufs| && bufs[..|taken|] == taken
    requires |before| == |iov0| && |taken| <= |iov0|
    requires var s, vs := NumBuffers(descs[..i], unit), IovsFor(taken, DescChunks(descs, unit));
      var lens := ChunkLens(descs[i].length, unit);
      && s + |lens| == NumBuffers(descs[..i + 1], unit) <= |taken|
      && before == vs[..s] + iov0[s..]
      && built == MultiWrs(descs[..i], vs[..s], unit, xlate)
      && after == Splice(before, s, IovsFor(bufs[s..s + |lens|], lens))
      && sges == SgesOf(IovsFor(bufs[s..s + |lens|], lens), xlate)
    ensures var e, vs := NumBuffers(descs[..i + 1], unit), IovsFor(taken, DescChunks(descs, unit));
      && after == vs[..e] + iov0[e..]
      && built + [SendWr(sges, descs[i].key, descs[i].address)] == MultiWrs(descs[..i + 1], vs[..e], unit, xlate)
  {
    var vs := IovsFor(taken, DescChunks(descs, unit));
    var s, e := NumBuffers(descs[..i], unit), NumBuffers(descs[..i + 1], unit);
    ChunkIovs(descs, unit, taken, bufs, i);
    SpliceExtends(before, vs, iov0, s, e);
    MultiWrsSnoc(descs, vs, unit, xlate, i);
  }

  /** The iovecs filled for descriptor i are its slice of the iovecs of all descriptors. */
  lemma ChunkIovs(descs: seq<SglDescriptor>, unit: nat, taken: seq<Addr>, bufs: seq<Addr>, i: nat)
    requires unit > 0 && i < |descs| && |taken| == NumBuffers(descs, unit) <= |bufs| && bufs[..|taken|] == taken
    requires NumBuffers(descs[..i], unit) + |ChunkLens(descs[i].length, unit)| == NumBuffers(descs[..i + 1], unit)
    ensures var s, e := NumBuffers(descs[..i], unit), NumBuffers(descs[..i + 1], unit);
      s <= e <= |taken| &&
      IovsFor(bufs[s..e], ChunkLens(descs[i].length, unit)) == IovsFor(taken, DescChunks(descs, unit))[s..e]
  {
    var lens := DescChunks(descs, unit);
    var s, e := NumBuffers(descs[..i], unit), NumBuffers(descs[..i + 1], unit);
    DescChunksAt(descs, unit, i);
    IovsSlice(taken, lens, s, e);
    SliceOfPrefix(bufs, |taken|, s, e);
  }

  /** Writing v[s..e] over a sequence that holds v up to s and i0 after it extends v to e. */
  lemma SpliceExtends<T>(before: seq<T>, v: seq<T>, i0: seq<T>, s: nat, e: nat)
    requires |before| == |i0| && s <= e <= |v| && e <= |i0| && before == v[..s] + i0[s..]
    ensures Splice(before, s, v[s..e]) == v[..e] + i0[e..]
  {
    assert before[..s] == v[..s];
    assert before[s + (e - s)..] == i0[e..];
    assert v[..e] == v[..s] + v[s..e];
  }

  /** The last-segment branch of parse_sgl, proved against Sgl.ParseMulti. */
  method ParseLastSegment(rr: RdmaRequest, group: PollGroup, transport: Transport, xlate: Addr -> nat)
    returns (rc: int)
    requires rr.Valid() && group.Valid() && ValidOpts(transport.opts) && rr.pooledWrs == [] && rr.recv.Some?
    modifies rr`wrs, rr`pooledWrs, rr`outstandingDataWr, rr.req`length, rr.req`iovcnt, rr.req`dataFromPool,
      rr.req`data, rr.req.buffers, rr.req.iov, group`bufCache, group`bufCacheCount, transport`dataBufPool,
      transport`dataWrPool
    ensures rr.Valid() && group.Valid()
    ensures var p := ParseMulti(transport.opts, old(rr.Snap()), old(Bufs(group, transport)),
                                old(transport.dataWrPool), xlate);
      rc == p.rc && rr.Snap() == p.req && Bufs(group, transport) == p.bufs && transport.dataWrPool == p.wrPool
  {
    var o := transport.opts;
    var seg := rr.recv.value.segment;
    var n := rr.req.cmd.sgl1.length / SglDescriptorSize;
    if n == 0 || n > MaxSglEntries || n > |seg| {
      return -1;
    }
    var descs := seg[..n];
    if !AllKeyedAddress(descs) || TotalLength(descs) > o.maxIoSize {
      return -1;
    }
    rc := LastSegmentAllocate(rr, group, transport, xlate, descs);
  }

  /** The allocation half of the last-segment branch, proved against Sgl.MultiAllocate. */
  method LastSegmentAllocate(rr: RdmaRequest, group: PollGroup, transport: Transport, xlate: Addr -> nat,
                             descs: seq<SglDescriptor>)
    returns (rc: int)
    requires rr.Valid() && group.Valid() && ValidOpts(transport.opts) && rr.pooledWrs == []
    requires 0 < |descs| <= MaxSglEntries && TotalLength(descs) <= transport.opts.maxIoSize
    modifies rr`wrs, rr`pooledWrs, rr`outstandingDataWr, rr.req`length, rr.req`iovcnt, rr.req`dataFromPool,
      rr.req`data, rr.req.buffers, rr.req.iov, group`bufCache, group`bufCacheCount, transport`dataBufPool,
      transport`dataWrPool
    ensures rr.Valid() && group.Valid()
    ensures var p := MultiAllocate(transport.opts, old(rr.Snap()), old(Bufs(group, transport)),
                                   old(transport.dataWrPool), xlate, descs);
      rc == p.rc && rr.Snap() == p.req && Bufs(group, transport) == p.bufs && transport.dataWrPool == p.wrPool
  {
    var o := transport.opts;
    var n := |descs|;
    ghost var r0 := rr.Snap();
    ghost var b0 := Bufs(group, transport);
    ghost var w0 := transport.dataWrPool;
    var ok, ws := transport.GetWrs(n - 1);
    if !ok {
      return 0;
    }
    MultiUnfoldBuffers(o, r0, b0, w0, xlate, descs);
    var nb := CountBuffers(descs, o.ioUnitSize);
    ghost var t := TakeBuffers(b0, nb);
    rc := TakeForRequest(rr, group, transport, nb);
    if rc != 0 {
      transport.PutWrs(ws);
      ClearDataWr(rr);
      return 0;
    }
    MultiFillSnap(rr, descs, o.ioUnitSize, xlate, t.taken, ws);
    return 0;
  }

  /** On a failed last-segment parse the data WR loses its elements and nothing is outstanding. */
  method ClearDataWr(rr: RdmaRequest)
    requires rr.Valid() && rr.pooledWrs == []
    modifies rr`wrs, rr`outstandingDataWr
    ensures rr.Valid()
    ensures rr.Snap() == old(rr.Snap()).(wrs := [old(rr.wrs[0]).(sgList := [])], outstandingDataWr := 0)
  {
    rr.wrs := [rr.wrs[0].(sgList := [])];
    rr.outstandingDataWr := 0;
  }

  /** MultiFill as a change of the request's snapshot; MultiFill's contract states what it means. */
  method MultiFillSnap(rr: RdmaRequest, descs: seq<SglDescriptor>, unit: nat, xlate: Addr -> nat,
                       ghost taken: seq<Addr>, ws: seq<nat>)
    requires rr.Valid() && unit > 0 && |descs| == |ws| + 1
    requires |taken| == NumBuffers(descs, unit) <= MaxBuffers && rr.req.buffers[..|taken|] == taken
    modifies rr`wrs, rr`pooledWrs, rr`outstandingDataWr, rr.req`length, rr.req`iovcnt, rr.req`dataFromPool,
      rr.req`data, rr.req.iov
    ensures rr.Valid()
    ensures var r, vs := old(rr.Snap()), IovsFor(taken, DescChunks(descs, unit));
      rr.Snap() == r.(length := TotalLength(descs), iovcnt := |taken|, iov := Overlay(r.iov, vs),
                      wrs := MultiWrs(descs, vs, unit, xlate), pooledWrs := ws, outstandingDataWr := |descs|,
                      dataFromPool := true, data := Overlay(r.iov, vs)[0].base)
  {
    MultiFill(rr, descs, unit, xlate, taken, ws);
  }

  /**
   * The success path of the last-segment branch: one WR per descriptor (data.wr, then the
   * borrowed ones), iovecs filled from the buffers just taken, data at the first iovec.
   */
  method MultiFill(rr: RdmaRequest, descs: seq<SglDescriptor>, unit: nat, xlate: Addr -> nat,
                   ghost taken: seq<Addr>, ws: seq<nat>)
    requires rr.Valid() && unit > 0 && |descs| == |ws| + 1
    requires |taken| == NumBuffers(descs, unit) <= MaxBuffers && rr.req.buffers[..|taken|] == taken
    modifies rr`wrs, rr`pooledWrs, rr`outstandingDataWr, rr.req`length, rr.req`iovcnt, rr.req`dataFromPool,
      rr.req`data, rr.req.iov
    ensures rr.Valid()
    ensures var vs := IovsFor(taken, DescChunks(descs, unit));
      && rr.req.iov[..] == Overlay(old(rr.req.iov[..]), vs) && rr.req.iovcnt == |taken|
      && rr.req.length == TotalLength(descs)
      && rr.wrs == MultiWrs(descs, vs, unit, xlate) && rr.pooledWrs == ws && rr.outstandingDataWr == |descs|
      && rr.req.dataFromPool && rr.req.data == rr.req.iov[0].base
  {
    ghost var vs := IovsFor(taken, DescChunks(descs, unit));
    var built := FillDescriptors(rr.req, descs, unit, xlate, taken);
    rr.wrs := built;
    rr.pooledWrs := ws;
    rr.outstandingDataWr := |descs|;
    rr.req.dataFromPool := true;
    rr.req.data := rr.req.iov[0].base;
    assert rr.req.iov[..] == rr.req.iov[..|taken|] + rr.req.iov[|taken|..];
  }

  /**
   * spdk_nvmf_rdma_request_parse_sgl: dispatch on the first descriptor's type and sub type;
   * any other combination fails with -1 and changes nothing.
   */
  method ParseSgl(rr: RdmaRequest, group: PollGroup, transport: Transport, xlate: Addr -> nat)
    returns (rc: int)
    requires rr.Valid() && group.Valid() && ValidOpts(transport.opts) && rr.pooledWrs == [] && rr.recv.Some?
    modifies rr`wrs, rr`pooledWrs, rr`outstandingDataWr, rr.req`length, rr.req`iovcnt, rr.req`dataFromPool,
      rr.req`data, rr.req.buffers, rr.req.iov, group`bufCache, group`bufCacheCount, transport`dataBufPool,
      transport`dataWrPool
    ensures rr.Valid() && group.Valid()
    ensures var p := ParseSpec(transport.opts, old(rr.Snap()), old(Bufs(group, transport)),
                               old(transport.dataWrPool), xlate);
      rc == p.rc && rr.Snap() == p.req && Bufs(group, transport) == p.bufs && transport.dataWrPool == p.wrPool
  {
    var sgl := rr.req.cmd.sgl1;
    if sgl.sglType == SglTypeKeyedDataBlock &&
       (sgl.subtype == SglSubtypeAddress || sgl.subtype == SglSubtypeInvalidateKey) {
      rc := ParseKeyedBlock(rr, group, transport, xlate);
    } else if sgl.sglType == SglTypeDataBlock && sgl.subtype == SglSubtypeOffset {
      rc := ParseInCapsuleBlock(rr, group, transport);
    } else if sgl.sglType == SglTypeLastSegment && sgl.subtype == SglSubtypeOffset {
      rc := ParseLastSegment(rr, group, transport, xlate);
    } else {
      rc := -1;
    }
  }
}
