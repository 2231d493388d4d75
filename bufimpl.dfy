/**
 * The objects that spdk_nvmf_request_get_buffers and spdk_nvmf_request_free_buffers
 * update in place, and the two functions as loops over them. Each method is proved
 * against the value model in BufPool: the pair (cache, pool) after the call is
 * TakeBuffers / ReleaseAll of the pair before it.
 */
module Buffers {
  import opened NvmfTypes
  import opened Chunks
  import opened BufPool

  /**
   * The buffer cache of struct spdk_nvmf_transport_poll_group, a list and its count, and
   * its queue of requests (by identity) waiting for buffers.
   */
  class PollGroup {
    var bufCache: seq<Addr>
    var bufCacheCount: nat
    const bufCacheSize: nat
    var pendingBufQueue: seq<nat>

    /** buf_cache_count tracks the list, and never exceeds buf_cache_size. */
    predicate Valid()
      reads this
    {
      bufCacheCount == |bufCache| && bufCacheCount <= bufCacheSize
    }

    constructor (size: nat)
      ensures Valid() && bufCache == [] && bufCacheSize == size && pendingBufQueue == []
    {
      bufCache := [];
      pendingBufQueue := [];
      bufCacheCount := 0;
      bufCacheSize := size;
    }
  }

  /**
   * The transport's data buffer pool and its pool of data work requests (by identity),
   * each as an ordered free list.
   */
  class Transport {
    const opts: TransportOpts
    var dataBufPool: seq<Addr>
    var dataWrPool: seq<nat>

    constructor (o: TransportOpts, pool: seq<Addr>, wrPool: seq<nat>)
      ensures opts == o && dataBufPool == pool && dataWrPool == wrPool
    {
      opts := o;
      dataBufPool := pool;
      dataWrPool := wrPool;
    }

    /** spdk_mempool_get_bulk on the WR pool: n work requests from its front, or none. */
    method GetWrs(n: nat) returns (ok: bool, wrs: seq<nat>)
      modifies this`dataWrPool
      ensures ok == (n <= |old(dataWrPool)|)
      ensures ok ==> wrs == old(dataWrPool[..n]) && dataWrPool == old(dataWrPool[n..])
      ensures !ok ==> wrs == [] && dataWrPool == old(dataWrPool)
    {
      if n > |dataWrPool| {
        return false, [];
      }
      wrs := dataWrPool[..n];
      dataWrPool := dataWrPool[n..];
      return true, wrs;
    }

    /** spdk_mempool_put_bulk on the WR pool: the work requests go back to its end. */
    method PutWrs(wrs: seq<nat>)
      modifies this`dataWrPool
      ensures dataWrPool == old(dataWrPool) + wrs
    {
      dataWrPool := dataWrPool + wrs;
    }

    /** spdk_mempool_put on the WR pool: one work request goes back to its end. */
    method PutWr(wr: nat)
      modifies this`dataWrPool
      ensures dataWrPool == old(dataWrPool) + [wr]
    {
      dataWrPool := dataWrPool + [wr];
    }

    /**
     * spdk_mempool_get_bulk(pool, &dst[off], n): all n buffers from the front of the
     * pool into dst[off..off+n], or, when the pool holds fewer, nothing at all.
     */
    method GetBulk(dst: array<Addr>, off: nat, n: nat) returns (ok: bool)
      requires off + n <= dst.Length
      modifies this`dataBufPool, dst
      ensures ok == (n <= |old(dataBufPool)|)
      ensures ok ==> dst[off..off + n] == old(dataBufPool[..n]) && dataBufPool == old(dataBufPool[n..])
      ensures !ok ==> dataBufPool == old(dataBufPool)
      ensures dst[..off] == old(dst[..off]) && dst[off + n..] == old(dst[off + n..])
      ensures !ok ==> dst[..] == old(dst[..])
    {
      if n > |dataBufPool| {
        return false;
      }
      for j := 0 to n
        invariant dataBufPool == old(dataBufPool)
        invariant forall k :: 0 <= k < off ==> dst[k] == old(dst[k])
        invariant forall k :: off + n <= k < dst.Length ==> dst[k] == old(dst[k])
        invariant forall k :: 0 <= k < j ==> dst[off + k] == dataBufPool[k]
      {
        dst[off + j] := dataBufPool[j];
      }
      dataBufPool := dataBufPool[n..];
      assert dst[off..off + n] == old(dataBufPool[..n]) by {
        forall k | 0 <= k < n ensures dst[off..off + n][k] == old(dataBufPool[..n])[k] { }
      }
      return true;
    }

    /** spdk_mempool_put: the buffer goes back to the end of the free list. */
    method Put(x: Addr)
      modifies this`dataBufPool
      ensures dataBufPool == old(dataBufPool) + [x]
    {
      dataBufPool := dataBufPool + [x];
    }
  }

  /** The cache and the pool together, as the value the model reasons about. */
  function Bufs(g: PollGroup, t: Transport): BufState
    reads g, t
  {
    BufState(g.bufCache, g.bufCacheSize, t.dataBufPool)
  }

  /**
   * The data part of struct spdk_nvmf_request: NVMF_REQ_MAX_BUFFERS raw buffer
   * addresses and iovecs, the number of iovecs in use, the transfer length, the
   * data address, and whether the buffers came from the pool.
   */
  class NvmfRequest {
    const buffers: array<Addr>
    const iov: array<Iovec>
    var iovcnt: nat
    var length: nat
    var data: Addr
    var dataFromPool: bool
    var cmd: Command
    var xfer: Xfer
    var status: nat

    predicate Valid()
      reads this
    {
      && buffers.Length == MaxBuffers && iov.Length == MaxBuffers && iovcnt <= MaxBuffers
      && buffers as object != iov as object
    }

    constructor ()
      ensures Valid() && fresh(buffers) && fresh(iov)
      ensures buffers[..] == NullBuffers(MaxBuffers) && iov[..] == NullIovs(MaxBuffers)
      ensures iovcnt == 0 && length == 0 && data == 0 && !dataFromPool
    {
      buffers := new Addr[MaxBuffers](_ => 0);
      iov := new Iovec[MaxBuffers](_ => Iovec(0, 0));
      iovcnt, length, data, dataFromPool := 0, 0, 0, false;
      cmd := Command(0, 0, SglDescriptor(0, 0, 0, 0, 0));
      xfer, status := XferNone, ScSuccess;
    }
  }

  /**
   * spdk_nvmf_request_free_buffers: buffers[0..num) are released in index order, each
   * to the cache head while the cache is under capacity and to the pool otherwise; their
   * slots and iovecs are cleared and the request no longer holds pooled data.
   */
  method FreeBuffers(req: NvmfRequest, group: PollGroup, transport: Transport, num: nat)
    requires req.Valid() && group.Valid() && num <= MaxBuffers
    modifies req.buffers, req.iov, req`dataFromPool, group`bufCache, group`bufCacheCount,
      transport`dataBufPool
    ensures group.Valid()
    ensures Bufs(group, transport) == ReleaseAll(old(Bufs(group, transport)), old(req.buffers[..num]))
    ensures req.buffers[..] == Overlay(old(req.buffers[..]), NullBuffers(num))
    ensures req.iov[..] == Overlay(old(req.iov[..]), NullIovs(num))
    ensures !req.dataFromPool
  {
    ghost var b0 := Bufs(group, transport);
    ghost var xs := req.buffers[..];
    ghost var vs := req.iov[..];
    for i := 0 to num
      invariant group.Valid()
      invariant Bufs(group, transport) == ReleaseAll(b0, xs[..i])
      invariant forall k :: 0 <= k < i ==> req.buffers[k] == 0 && req.iov[k] == Iovec(0, 0)
      invariant forall k :: i <= k < MaxBuffers ==> req.buffers[k] == xs[k] && req.iov[k] == old(req.iov[k])
    {
      var x := req.buffers[i];
      assert x == xs[i];
      ReleaseBuffer(group, transport, x);
      req.iov[i] := Iovec(0, 0);
      req.buffers[i] := 0;
      PrefixSnoc(xs, i);
      ReleaseAllSnoc(b0, xs[..i + 1]);
    }
    req.dataFromPool := false;
    ClearedIsOverlay(req, xs, vs, num);
  }

  /** One iteration of free_buffers: the buffer goes to the cache head while the cache is under capacity, else to the pool. */
  method ReleaseBuffer(group: PollGroup, transport: Transport, x: Addr)
    requires group.Valid()
    modifies group`bufCache, group`bufCacheCount, transport`dataBufPool
    ensures group.Valid()
    ensures Bufs(group, transport) == Release(old(Bufs(group, transport)), x)
  {
    if group.bufCacheCount < group.bufCacheSize {
      group.bufCache := [x] + group.bufCache;
      group.bufCacheCount := group.bufCacheCount + 1;
    } else {
      transport.Put(x);
    }
  }

  /** The first k slots and iovecs cleared, the rest as they were: the snapshots overlaid by nulls. */
  lemma ClearedIsOverlay(req: NvmfRequest, bufs0: seq<Addr>, iov0: seq<Iovec>, k: nat)
    requires req.Valid() && |bufs0| == |iov0| == MaxBuffers && k <= MaxBuffers
    requires forall i :: 0 <= i < k ==> req.buffers[i] == 0 && req.iov[i] == Iovec(0, 0)
    requires forall i :: k <= i < MaxBuffers ==> req.buffers[i] == bufs0[i] && req.iov[i] == iov0[i]
    ensures req.buffers[..] == Overlay(bufs0, NullBuffers(k))
    ensures req.iov[..] == Overlay(iov0, NullIovs(k))
  {
  }

  lemma PrefixSnoc(xs: seq<Addr>, i: nat)
    requires i < |xs|
    ensures xs[..i + 1][..i] == xs[..i] && xs[..i + 1][i] == xs[i]
  {
  }

  /**
   * spdk_nvmf_request_get_buffers: num buffers into buffers[0..num), first from the cache
   * head one at a time, then the rest from the pool in one bulk call. When that call
   * fails, the buffers already taken are released again through free_buffers and the
   * result is -ENOMEM.
   */
  method GetBuffers(req: NvmfRequest, group: PollGroup, transport: Transport, num: nat) returns (rc: int)
    requires req.Valid() && group.Valid() && num <= MaxBuffers
    modifies req.buffers, req.iov, req`dataFromPool, group`bufCache, group`bufCacheCount,
      transport`dataBufPool
    ensures group.Valid()
    ensures var t := TakeBuffers(old(Bufs(group, transport)), num);
      && Bufs(group, transport) == t.bufs
      && (rc == 0 <==> t.ok)
      && (t.ok ==> req.buffers[..] == Overlay(old(req.buffers[..]), t.taken)
                   && req.iov[..] == old(req.iov[..]) && req.dataFromPool == old(req.dataFromPool))
      && (!t.ok ==> rc == -ENOMEM && req.buffers[..] == Overlay(old(req.buffers[..]), NullBuffers(|t.taken|))
                    && req.iov[..] == Overlay(old(req.iov[..]), NullIovs(|t.taken|)) && !req.dataFromPool)
  {
    ghost var b0 := Bufs(group, transport);
    ghost var c0, p0 := group.bufCache, transport.dataBufPool;
    ghost var old0 := req.buffers[..];
    var i: nat := 0;
    while i < num
      invariant i <= num && group.Valid() && group.bufCacheSize == b0.cacheSize
      invariant req.iov[..] == old(req.iov[..]) && req.dataFromPool == old(req.dataFromPool)
      invariant req.buffers[num..] == old0[num..]
      invariant
        || (i <= |c0| && group.bufCache == c0[i..] && transport.dataBufPool == p0
            && req.buffers[..i] == c0[..i] && req.buffers[i..num] == old0[i..num])
        || (i == num && |c0| < num <= |c0| + |p0| && group.bufCache == []
            && transport.dataBufPool == p0[num - |c0|..]
            && req.buffers[..num] == c0 + p0[..num - |c0|])
    {
      if group.bufCache != [] {
        group.bufCacheCount := group.bufCacheCount - 1;
        req.buffers[i] := group.bufCache[0];
        group.bufCache := group.bufCache[1..];
        i := i + 1;
      } else {
        assert i == |c0| && req.buffers[..i] == c0[..i] && c0[..i] == c0;
        assert req.buffers[i..] == old0[i..] by {
          assert req.buffers[i..] == req.buffers[i..num] + req.buffers[num..];
          assert old0[i..] == old0[i..num] + old0[num..];
        }
        var ok := GetRestOrRelease(req, group, transport, i, num, c0, old0);
        if !ok {
          assert !TakeBuffers(b0, num).ok;
          return -ENOMEM;
        }
        i := num;
      }
    }
    ghost var t := TakeBuffers(b0, num);
    if num <= |c0| {
      assert t.ok && Min(num, |c0|) == num;
      assert req.buffers[..num] == c0[..num] == t.taken;
    } else {
      assert Min(num, |c0|) == |c0| && c0[..|c0|] == c0 && c0[|c0|..] == [];
      assert t.ok && req.buffers[..num] == t.taken;
    }
    OverlayFromParts(req.buffers[..], old0, t.taken);
    return 0;
  }

  /**
   * The bulk call of get_buffers once the cache is drained after i buffers: the remaining
   * num - i buffers from the pool into buffers[i..num), or, when the pool holds fewer, the
   * i cached buffers released again through free_buffers.
   */
  method GetRestOrRelease(req: NvmfRequest, group: PollGroup, transport: Transport, i: nat, num: nat,
                          ghost c0: seq<Addr>, ghost old0: seq<Addr>) returns (ok: bool)
    requires req.Valid() && group.Valid() && i < num <= MaxBuffers && |c0| == i && |old0| == MaxBuffers
    requires group.bufCache == [] && req.buffers[..i] == c0 && req.buffers[i..] == old0[i..]
    modifies req.buffers, req.iov, req`dataFromPool, group`bufCache, group`bufCacheCount,
      transport`dataBufPool
    ensures group.Valid()
    ensures ok == (num - i <= |old(transport.dataBufPool)|)
    ensures ok ==> && group.bufCache == [] && transport.dataBufPool == old(transport.dataBufPool)[num - i..]
                   && req.buffers[..num] == c0 + old(transport.dataBufPool)[..num - i]
                   && req.buffers[num..] == old0[num..]
                   && req.iov[..] == old(req.iov[..]) && req.dataFromPool == old(req.dataFromPool)
    ensures !ok ==> && Bufs(group, transport) == ReleaseAll(BufState([], group.bufCacheSize, old(transport.dataBufPool)), c0)
                    && req.buffers[..] == Overlay(old0, NullBuffers(i))
                    && req.iov[..] == Overlay(old(req.iov[..]), NullIovs(i)) && !req.dataFromPool
  {
    ghost var before := req.buffers[..];
    ghost var p0 := transport.dataBufPool;
    ok := transport.GetBulk(req.buffers, i, num - i);
    if !ok {
      assert req.buffers[..i] == c0;
      ghost var mid := req.buffers[..];
      assert mid[i..] == old0[i..];
      FreeBuffers(req, group, transport, i);
      OverlaySameTail(mid, old0, NullBuffers(i));
      return;
    }
    assert req.buffers[..num] == c0 + p0[..num - i] by {
      assert req.buffers[..i] == before[..i];
      assert req.buffers[..num] == req.buffers[..i] + req.buffers[i..num];
    }
    assert req.buffers[num..] == old0[num..] by {
      assert req.buffers[num..] == before[num..];
      assert before[num..] == before[i..][num - i..];
    }
  }

  /** Overlaying p on two sequences that agree after |p| gives the same sequence. */
  lemma OverlaySameTail<T>(a: seq<T>, b: seq<T>, p: seq<T>)
    requires |a| == |b| && |p| <= |a| && a[|p|..] == b[|p|..]
    ensures Overlay(a, p) == Overlay(b, p)
  {
  }

  /** A sequence that starts with p and then agrees with s is s overlaid by p. */
  lemma OverlayFromParts<T>(r: seq<T>, s: seq<T>, p: seq<T>)
    requires |r| == |s| && |p| <= |s| && r[..|p|] == p && r[|p|..] == s[|p|..]
    ensures r == Overlay(s, p)
  {
    assert r == r[..|p|] + r[|p|..];
  }
}
