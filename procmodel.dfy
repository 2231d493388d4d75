/**
 * spdk_nvmf_rdma_request_process as a function on a snapshot of one RDMA request and what
 * it shares with other requests: its queue pair (the sends_to_post batch, the depth
 * counters, the pending RDMA read and write queues), the shared receive resources (the
 * recvs_to_post batch and the free request queue), the poller's lists of queue pairs with
 * pending sends and receives, the poll group's queue of requests waiting for buffers, the
 * buffer cache and pool, and the transport's pool of data work requests.
 *
 * Step is one pass of the state switch; Run is the do-while loop around it, which repeats
 * while a pass changes the state.
 */
module Proc {
  import opened NvmfTypes
  import opened BufPool
  import opened Sgl

  /** The queue pair fields the state machine reads and writes; sends is sends_to_post from first to last. */
  datatype Qpair = Qpair(
    id: nat,
    sends: seq<WrRef>,
    recvDepth: nat,
    sendDepth: nat,
    readDepth: nat,
    maxSendDepth: nat,
    maxReadDepth: nat,
    pendingRead: seq<nat>,
    pendingWrite: seq<nat>,
    sqHead: nat,
    sqHeadMax: nat,
    hasSrq: bool)

  /** struct spdk_nvmf_rdma_resources: recvs_to_post from first to last, and the free request queue. */
  datatype Resources = Resources(recvs: seq<nat>, freeQueue: seq<nat>)

  /** The poller's queues of queue pairs (by id) with sends or receives to post. */
  datatype Poller = Poller(pendingSend: seq<nat>, pendingRecv: seq<nat>)

  datatype World = World(
    req: Req,
    qp: Qpair,
    res: Resources,
    poller: Poller,
    pendingBuf: seq<nat>,
    bufs: BufState,
    wrPool: seq<nat>)

  /** The borrowed data work requests of a request, in chain order. */
  function PooledRefs(ws: seq<nat>): (refs: seq<WrRef>)
    ensures |refs| == |ws| && forall i :: 0 <= i < |ws| ==> refs[i] == PooledWr(ws[i])
  {
    if ws == [] then [] else PooledRefs(ws[..|ws| - 1]) + [PooledWr(ws[|ws| - 1])]
  }

  /**
   * The work requests reached from data.wr by following next: data.wr, the borrowed data
   * WRs, and, when the parse linked the chain for a controller-to-host transfer, the
   * response WR. The parse sets that link only when it filled pooled buffers; otherwise the
   * last data WR's next is NULL, as request_free leaves it.
   */
  function LinkedFromData(r: Req): (chain: seq<WrRef>)
    ensures |chain| >= 1 && chain[0] == DataWr(r.id)
    ensures forall i :: 1 <= i < |chain| ==> chain[i].PooledWr? || chain[i] == RspWr(r.id)
    ensures chain[|chain| - 1] == RspWr(r.id) <==> r.dataFromPool && r.xfer == ControllerToHost
  {
    [DataWr(r.id)] + PooledRefs(r.pooledWrs) +
    (if r.dataFromPool && r.xfer == ControllerToHost then [RspWr(r.id)] else [])
  }

  /**
   * nvmf_rdma_qpair_queue_send_wrs: the chain goes to the end of sends_to_post; a queue
   * pair whose batch was empty joins the poller's list of queue pairs with sends to post.
   */
  function QueueSends(w: World, chain: seq<WrRef>): (v: World)
    ensures v.qp.sends == w.qp.sends + chain
    ensures v == w.(qp := v.qp, poller := v.poller) && v.qp == w.qp.(sends := v.qp.sends)
    ensures v.poller.pendingRecv == w.poller.pendingRecv
    ensures v.poller.pendingSend == w.poller.pendingSend + (if w.qp.sends == [] then [w.qp.id] else [])
  {
    var ps := if w.qp.sends == [] then w.poller.pendingSend + [w.qp.id] else w.poller.pendingSend;
    w.(qp := w.qp.(sends := w.qp.sends + chain), poller := w.poller.(pendingSend := ps))
  }

  /**
   * nvmf_rdma_qpair_queue_recv_wrs for one receive: it goes to the end of recvs_to_post; a
   * queue pair without a shared receive queue whose batch was empty joins the poller's list
   * of queue pairs with receives to post.
   */
  function QueueRecv(w: World, recv: nat): (v: World)
    ensures v.res.recvs == w.res.recvs + [recv] && v.res.freeQueue == w.res.freeQueue
    ensures v == w.(res := v.res, poller := v.poller)
    ensures v.poller.pendingSend == w.poller.pendingSend
    ensures v.poller.pendingRecv ==
      w.poller.pendingRecv + (if w.res.recvs == [] && !w.qp.hasSrq then [w.qp.id] else [])
  {
    var pr := if w.res.recvs == [] && !w.qp.hasSrq then w.poller.pendingRecv + [w.qp.id] else w.poller.pendingRecv;
    w.(res := w.res.(recvs := w.res.recvs + [recv]), poller := w.poller.(pendingRecv := pr))
  }

  /**
   * What every pass of the switch relies on: valid transport options, a request of the
   * fixed shape, the receive held (and counted in current_recv_depth) until the response is
   * built, and no borrowed data WR before the parse.
   */
  predicate WorldOk(o: TransportOpts, w: World)
  {
    && ValidOpts(o) && Shaped(w.req)
    && (HoldsRecv(w.req.state) ==> w.req.recv.Some? && w.qp.recvDepth > 0)
    && (w.req.state == New || w.req.state == NeedBuffer ==> w.req.pooledWrs == [])
  }

  /**
   * NEW: the command comes from the receive, the response is zeroed, and the direction is
   * computed; without data the request is ready to execute, otherwise it joins the poll
   * group's queue of requests waiting for buffers.
   */
  function StepNew(w: World): (v: World)
    requires w.req.recv.Some?
    ensures var cmd := w.req.recv.value.cmd;
      && v.req == w.req.(cmd := cmd, status := ScSuccess, xfer := GetXfer(cmd), state := v.req.state)
      && v.req.state == (if GetXfer(cmd) == XferNone then ReadyToExecute else NeedBuffer)
      && v.pendingBuf == w.pendingBuf + (if v.req.state == NeedBuffer then [w.req.id] else [])
    ensures v.qp == w.qp && v.res == w.res && v.poller == w.poller && v.bufs == w.bufs && v.wrPool == w.wrPool
  {
    var cmd := w.req.recv.value.cmd;
    var x := GetXfer(cmd);
    var r := w.req.(cmd := cmd, status := ScSuccess, xfer := x);
    if x == XferNone then w.(req := r.(state := ReadyToExecute))
    else w.(req := r.(state := NeedBuffer), pendingBuf := w.pendingBuf + [w.req.id])
  }

  /**
   * What NEED_BUFFER does once the parse has run, on the world holding its results: a parse
   * error completes the request with an internal device error; a parse that left data NULL
   * waits for buffers; otherwise the request leaves the waiting queue, and a
   * host-to-controller transfer into pooled buffers waits for an RDMA read, anything else is
   * ready to execute.
   */
  function AfterParse(w: World, rc: int): (v: World)
    requires w.pendingBuf != []
    ensures v == w || v.pendingBuf == w.pendingBuf[1..]
    ensures rc < 0 ==> v.req == w.req.(status := ScInternalDeviceError, state := ReadyToComplete)
    ensures rc >= 0 && w.req.data == 0 ==> v == w
    ensures v.req == w.req.(status := v.req.status, state := v.req.state)
    ensures v.res == w.res && v.poller == w.poller && v.bufs == w.bufs && v.wrPool == w.wrPool
  {
    if rc < 0 then
      w.(pendingBuf := w.pendingBuf[1..], req := w.req.(status := ScInternalDeviceError, state := ReadyToComplete))
    else if w.req.data == 0 then w
    else if w.req.xfer == HostToController && w.req.dataFromPool then
      w.(pendingBuf := w.pendingBuf[1..], qp := w.qp.(pendingRead := w.qp.pendingRead + [w.req.id]),
         req := w.req.(state := DataTransferToControllerPending))
    else
      w.(pendingBuf := w.pendingBuf[1..], req := w.req.(state := ReadyToExecute))
  }

  /** NEED_BUFFER: only the head of the waiting queue parses its SGL. */
  function StepNeedBuffer(o: TransportOpts, w: World, xlate: Addr -> nat): (v: World)
    requires ValidOpts(o) && Shaped(w.req) && w.req.recv.Some? && w.req.pooledWrs == []
    ensures w.pendingBuf == [] || w.pendingBuf[0] != w.req.id ==> v == w
    ensures v.res == w.res && v.poller == w.poller && v.qp.id == w.qp.id && v.qp.sends == w.qp.sends
  {
    if w.pendingBuf == [] || w.pendingBuf[0] != w.req.id then w
    else
      var p := ParseSpec(o, w.req, w.bufs, w.wrPool, xlate);
      AfterParse(w.(req := p.req, bufs := p.bufs, wrPool := p.wrPool), p.rc)
  }

  /**
   * A pass in NEED_BUFFER either changes nothing or takes the buffers, WR pool and request
   * the parse left, up to the status and state it then sets.
   */
  lemma NeedBufferOutcome(o: TransportOpts, w: World, xlate: Addr -> nat)
    requires ValidOpts(o) && Shaped(w.req) && w.req.recv.Some? && w.req.pooledWrs == []
    ensures var v := StepNeedBuffer(o, w, xlate); var p := ParseSpec(o, w.req, w.bufs, w.wrPool, xlate);
      || v == w
      || (v.bufs == p.bufs && v.wrPool == p.wrPool && v.req == p.req.(status := v.req.status, state := v.req.state))
  {
  }

  /**
   * request_transfer_in: the data chain is queued and counted in both the send and the read
   * depth, and the request waits for the RDMA reads.
   */
  function TransferIn(w: World): (v: World)
    ensures v.qp.sends == w.qp.sends + LinkedFromData(w.req)
    ensures v.qp.sendDepth == w.qp.sendDepth + w.req.outstandingDataWr
    ensures v.qp.readDepth == w.qp.readDepth + w.req.outstandingDataWr
    ensures v.req == w.req.(state := TransferringHostToController)
    ensures v.res == w.res && v.bufs == w.bufs && v.wrPool == w.wrPool && v.pendingBuf == w.pendingBuf
  {
    var r, qp := w.req, w.qp;
    var w1 := QueueSends(w, LinkedFromData(r));
    w1.(qp := w1.qp.(readDepth := qp.readDepth + r.outstandingDataWr, sendDepth := qp.sendDepth + r.outstandingDataWr),
        req := r.(state := TransferringHostToController))
  }

  /**
   * DATA_TRANSFER_TO_CONTROLLER_PENDING: the head of the pending read queue, when its data
   * WRs fit under both the send and the read depth, leaves the queue and is transferred in.
   */
  function StepToControllerPending(w: World): (v: World)
    ensures v == w || (w.qp.pendingRead != [] && w.qp.pendingRead[0] == w.req.id && v.qp.pendingRead == w.qp.pendingRead[1..])
    ensures v != w ==> && v.req.state == TransferringHostToController
                       && v.qp.sendDepth <= v.qp.maxSendDepth && v.qp.readDepth <= v.qp.maxReadDepth
                       && v.qp.maxSendDepth == w.qp.maxSendDepth && v.qp.maxReadDepth == w.qp.maxReadDepth
  {
    var r, qp := w.req, w.qp;
    if qp.pendingRead == [] || qp.pendingRead[0] != r.id then w
    else if qp.sendDepth + r.outstandingDataWr > qp.maxSendDepth ||
            qp.readDepth + r.outstandingDataWr > qp.maxReadDepth then w
    else TransferIn(w.(qp := qp.(pendingRead := qp.pendingRead[1..])))
  }

  /** EXECUTED: a controller-to-host transfer waits for an RDMA write, anything else is ready to complete. */
  function StepExecuted(w: World): (v: World)
    ensures v.req == w.req.(state := v.req.state)
    ensures v.req.state == (if w.req.xfer == ControllerToHost then DataTransferToHostPending else ReadyToComplete)
    ensures v.qp == w.qp.(pendingWrite := v.qp.pendingWrite)
    ensures v.qp.pendingWrite == w.qp.pendingWrite + (if w.req.xfer == ControllerToHost then [w.req.id] else [])
    ensures v.res == w.res && v.poller == w.poller && v.bufs == w.bufs && v.wrPool == w.wrPool && v.pendingBuf == w.pendingBuf
  {
    if w.req.xfer == ControllerToHost then
      w.(qp := w.qp.(pendingWrite := w.qp.pendingWrite + [w.req.id]), req := w.req.(state := DataTransferToHostPending))
    else w.(req := w.req.(state := ReadyToComplete))
  }

  /**
   * DATA_TRANSFER_TO_HOST_PENDING: the head of the pending write queue, when its data WRs
   * and the response fit under the send depth, leaves the queue and is ready to complete.
   */
  function StepToHostPending(w: World): (v: World)
    ensures v == w || (w.qp.pendingWrite != [] && w.qp.pendingWrite[0] == w.req.id && v.qp.pendingWrite == w.qp.pendingWrite[1..])
    ensures v != w ==> && v.req == w.req.(state := ReadyToComplete)
                       && v.qp.sendDepth + w.req.outstandingDataWr + 1 <= v.qp.maxSendDepth
  {
    var r, qp := w.req, w.qp;
    if qp.pendingWrite == [] || qp.pendingWrite[0] != r.id then w
    else if qp.sendDepth + r.outstandingDataWr + 1 > qp.maxSendDepth then w
    else w.(qp := qp.(pendingWrite := qp.pendingWrite[1..]), req := r.(state := ReadyToComplete))
  }

  /**
   * The first half of request_transfer_out: sq_head advances (wrapping after sq_head_max),
   * the receive is reposted, and the request drops it and its place in current_recv_depth.
   */
  function RepostRecv(w: World): (v: World)
    requires w.req.recv.Some? && w.qp.recvDepth > 0
    ensures v.res.recvs == w.res.recvs + [w.req.recv.value.id] && v.res.freeQueue == w.res.freeQueue
    ensures v.req == w.req.(recv := None) && v.qp.recvDepth == w.qp.recvDepth - 1
    ensures w.qp.sqHead <= w.qp.sqHeadMax ==> v.qp.sqHead <= v.qp.sqHeadMax
    ensures v.qp == w.qp.(sqHead := v.qp.sqHead, recvDepth := v.qp.recvDepth)
    ensures v.bufs == w.bufs && v.wrPool == w.wrPool && v.pendingBuf == w.pendingBuf
  {
    var qp := w.qp;
    var head := if qp.sqHead == qp.sqHeadMax then 0 else qp.sqHead + 1;
    var w1 := QueueRecv(w, w.req.recv.value.id);
    w1.(qp := qp.(sqHead := head, recvDepth := qp.recvDepth - 1), req := w.req.(recv := None))
  }

  /**
   * The second half of request_transfer_out: the response is queued, preceded by the data
   * chain for a successful controller-to-host transfer, and the send depth grows by the WRs
   * queued; the request then waits for those sends.
   */
  function QueueResponse(w: World): (v: World)
    ensures w.qp.sends <= v.qp.sends && |v.qp.sends| > |w.qp.sends|
    ensures v.req == w.req.(state := v.req.state)
    ensures v.req.state == (if w.req.status == ScSuccess && w.req.xfer == ControllerToHost
                            then TransferringControllerToHost else Completing)
    ensures v.req.state == Completing ==> v.qp.sends == w.qp.sends + [RspWr(w.req.id)]
    ensures v.res == w.res && v.bufs == w.bufs && v.wrPool == w.wrPool && v.pendingBuf == w.pendingBuf
  {
    var r, qp := w.req, w.qp;
    var posted := r.status == ScSuccess && r.xfer == ControllerToHost;
    var chain := if posted then LinkedFromData(r) else [RspWr(r.id)];
    var n := if posted then r.outstandingDataWr else 0;
    var w1 := QueueSends(w, chain);
    w1.(qp := w1.qp.(sendDepth := qp.sendDepth + n + 1),
        req := r.(state := if posted then TransferringControllerToHost else Completing))
  }

  /** READY_TO_COMPLETE: request_transfer_out, which never fails here. */
  function StepReadyToComplete(w: World): (v: World)
    requires w.req.recv.Some? && w.qp.recvDepth > 0
    ensures v.req.recv == None && v.res.recvs == w.res.recvs + [w.req.recv.value.id]
    ensures w.qp.sends <= v.qp.sends && v.qp.recvDepth == w.qp.recvDepth - 1
    ensures v.req.state == TransferringControllerToHost || v.req.state == Completing
    ensures v.bufs == w.bufs && v.wrPool == w.wrPool && v.pendingBuf == w.pendingBuf
  {
    QueueResponse(RepostRecv(w))
  }

  /** The buffers of a request that holds pooled data go back through free_buffers. */
  function ReleaseBuffers(w: World): (v: World)
    requires Shaped(w.req)
    ensures Shaped(v.req) && !v.req.dataFromPool
    ensures !w.req.dataFromPool ==> v == w
    ensures v.wrPool == w.wrPool && v.req.pooledWrs == w.req.pooledWrs && v.qp == w.qp && v.res == w.res
  {
    var r := w.req;
    if r.dataFromPool then
      w.(req := FreedBuffers(r, r.iovcnt), bufs := ReleaseAll(w.bufs, r.buffers[..r.iovcnt]))
    else w
  }

  /**
   * nvmf_rdma_request_free_data: the data WRs lose their elements and the borrowed ones go
   * back to the WR pool in chain order.
   */
  function FreeData(w: World): (v: World)
    requires Shaped(w.req)
    ensures Shaped(v.req) && v.req.pooledWrs == [] && v.req.outstandingDataWr == 0
    ensures multiset(v.wrPool) == multiset(w.wrPool) + multiset(w.req.pooledWrs)
    ensures v.bufs == w.bufs && v.qp == w.qp && v.res == w.res
  {
    var r := w.req;
    w.(req := r.(outstandingDataWr := 0, wrs := [r.wrs[0].(sgList := [])], pooledWrs := []),
       wrPool := w.wrPool + r.pooledWrs)
  }

  /**
   * COMPLETED: nvmf_rdma_request_free. The buffers and data WRs go back, length, iovcnt and
   * data are cleared, and the request goes to the head of the free queue in state FREE.
   */
  function StepCompleted(w: World): (v: World)
    requires Shaped(w.req)
    ensures v.req.state == Free && v.res.freeQueue == [w.req.id] + w.res.freeQueue
    ensures !v.req.dataFromPool && v.req.pooledWrs == [] && v.req.length == 0 && v.req.iovcnt == 0 && v.req.data == 0
    ensures multiset(v.wrPool) == multiset(w.wrPool) + multiset(w.req.pooledWrs)
    ensures !w.req.dataFromPool ==> v.bufs == w.bufs
    ensures v.qp == w.qp && v.res.recvs == w.res.recvs && v.poller == w.poller
  {
    var w1 := FreeData(ReleaseBuffers(w));
    w1.(req := w1.req.(length := 0, iovcnt := 0, data := 0, state := Free),
        res := w1.res.(freeQueue := [w.req.id] + w1.res.freeQueue))
  }

  /** A pass leaves the state as it was, or moves it further along and keeps WorldOk. */
  predicate Advances(o: TransportOpts, w: World, v: World)
  {
    v.req.state == w.req.state || (Rank(v.req.state) > Rank(w.req.state) && WorldOk(o, v))
  }

  /**
   * One pass of the switch. The states that wait for an external event (FREE,
   * TRANSFERRING_HOST_TO_CONTROLLER, EXECUTING, TRANSFERRING_CONTROLLER_TO_HOST, COMPLETING)
   * change nothing. A pass either leaves the state as it was or moves it further along the
   * lifecycle, and then keeps every fact the next pass relies on.
   */
  function Step(o: TransportOpts, w: World, xlate: Addr -> nat): (v: World)
    requires WorldOk(o, w)
    ensures Advances(o, w, v) && Shaped(v.req)
    ensures v.req.id == w.req.id && v.qp.id == w.qp.id
  {
    match w.req.state
    case New => NewAdvances(o, w); StepNew(w)
    case NeedBuffer => NeedBufferAdvances(o, w, xlate); StepNeedBuffer(o, w, xlate)
    case DataTransferToControllerPending => ToControllerAdvances(o, w); StepToControllerPending(w)
    case ReadyToExecute => w.(req := w.req.(state := Executing))
    case Executed => StepExecuted(w)
    case DataTransferToHostPending => StepToHostPending(w)
    case ReadyToComplete => ReadyToCompleteAdvances(o, w); StepReadyToComplete(w)
    case Completed => CompletedAdvances(o, w); StepCompleted(w)
    case _ => w
  }

  lemma NewAdvances(o: TransportOpts, w: World)
    requires WorldOk(o, w) && w.req.state == New
    ensures Advances(o, w, StepNew(w)) && Shaped(StepNew(w).req) && StepNew(w).req.id == w.req.id && StepNew(w).qp == w.qp
  {
  }

  lemma NeedBufferAdvances(o: TransportOpts, w: World, xlate: Addr -> nat)
    requires WorldOk(o, w) && w.req.state == NeedBuffer
    ensures var v := StepNeedBuffer(o, w, xlate); Advances(o, w, v) && Shaped(v.req) && v.req.id == w.req.id && v.qp.id == w.qp.id
  {
    if w.pendingBuf != [] && w.pendingBuf[0] == w.req.id {
      var p := ParseSpec(o, w.req, w.bufs, w.wrPool, xlate);
      AfterParseAdvances(o, w, w.(req := p.req, bufs := p.bufs, wrPool := p.wrPool), p.rc);
    }
  }

  /** Whatever the parse left, the pass after it advances as long as the request kept its identity and receive. */
  lemma AfterParseAdvances(o: TransportOpts, w: World, w1: World, rc: int)
    requires WorldOk(o, w) && w.req.state == NeedBuffer && w.pendingBuf != []
    requires Shaped(w1.req) && w1.req.state == NeedBuffer && w1.req.recv == w.req.recv && w1.req.id == w.req.id
    requires w1.qp == w.qp && w1.pendingBuf == w.pendingBuf
    ensures var v := AfterParse(w1, rc); Advances(o, w, v) && Shaped(v.req) && v.req.id == w.req.id && v.qp.id == w.qp.id
  {
  }

  lemma ToControllerAdvances(o: TransportOpts, w: World)
    requires WorldOk(o, w) && w.req.state == DataTransferToControllerPending
    ensures var v := StepToControllerPending(w); Advances(o, w, v) && Shaped(v.req) && v.req.id == w.req.id && v.qp.id == w.qp.id
  {
  }

  lemma ReadyToCompleteAdvances(o: TransportOpts, w: World)
    requires WorldOk(o, w) && w.req.state == ReadyToComplete
    ensures var v := StepReadyToComplete(w); Advances(o, w, v) && Shaped(v.req) && v.req.id == w.req.id && v.qp.id == w.qp.id
  {
  }

  lemma CompletedAdvances(o: TransportOpts, w: World)
    requires WorldOk(o, w) && w.req.state == Completed
    ensures var v := StepCompleted(w); Advances(o, w, v) && Shaped(v.req) && v.req.id == w.req.id && v.qp.id == w.qp.id
  {
  }

  /** The same request on the same queue pair, no earlier in the lifecycle. */
  predicate Forward(w: World, v: World)
  {
    v.req.id == w.req.id && v.qp.id == w.qp.id && Rank(v.req.state) >= Rank(w.req.state)
  }

  /** The do-while loop of request_process: passes repeat while they change the state. */
  function Run(o: TransportOpts, w: World, xlate: Addr -> nat): (v: World)
    requires WorldOk(o, w)
    ensures Shaped(v.req) && Forward(w, v)
    decreases 13 - Rank(w.req.state)
  {
    var v := Step(o, w, xlate);
    if v.req.state == w.req.state then v else Run(o, v, xlate)
  }

  /** A pass that changes the state is followed by another: one branch of Run, used by ProcImpl.Process. */
  lemma RunThrough(o: TransportOpts, w: World, xlate: Addr -> nat)
    requires WorldOk(o, w) && Step(o, w, xlate).req.state != w.req.state
    ensures WorldOk(o, Step(o, w, xlate)) && Run(o, w, xlate) == Run(o, Step(o, w, xlate), xlate)
  {
  }

  /** A pass that leaves the state as it was ends the call: the other branch of Run, used by ProcImpl.Process. */
  lemma RunStops(o: TransportOpts, w: World, xlate: Addr -> nat)
    requires WorldOk(o, w) && Step(o, w, xlate).req.state == w.req.state
    ensures Run(o, w, xlate) == Step(o, w, xlate)
  {
  }

  /** The progress flag request_process returns: some pass changed the state (ProcProps.RunMovesForward states what it means). */
  function Progress(o: TransportOpts, w: World, xlate: Addr -> nat): bool
    requires WorldOk(o, w)
  {
    Run(o, w, xlate).req.state != w.req.state
  }
}
