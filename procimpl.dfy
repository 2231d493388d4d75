/**
 * spdk_nvmf_rdma_request_process on the objects it updates in place: the RDMA request, its
 * queue pair, the shared receive resources, the poller, the poll group and the transport.
 * Each pass of the state switch is a method proved against the matching function of Proc
 * on the snapshot WorldOf, and the do-while loop around them is proved to end in
 * Proc.Run and to return Proc.Progress.
 */
module ProcImpl {
  import opened NvmfTypes
  import opened BufPool
  import opened Buffers
  import opened Sgl
  import opened SglImpl
  import opened Proc

  /** The fields of struct spdk_nvmf_rdma_qpair the state machine reads and writes. */
  class RdmaQpair {
    const id: nat
    var sends: seq<WrRef>
    var recvDepth: nat
    var sendDepth: nat
    var readDepth: nat
    const maxSendDepth: nat
    const maxReadDepth: nat
    var pendingRead: seq<nat>
    var pendingWrite: seq<nat>
    var sqHead: nat
    const sqHeadMax: nat
    const hasSrq: bool

    function Snap(): Qpair
      reads this
    {
      Qpair(id, sends, recvDepth, sendDepth, readDepth, maxSendDepth, maxReadDepth,
            pendingRead, pendingWrite, sqHead, sqHeadMax, hasSrq)
    }

    /** A connected queue pair: nothing queued, nothing outstanding. */
    constructor (i: nat, sendMax: nat, readMax: nat, headMax: nat, srq: bool)
      ensures Snap() == Qpair(i, [], 0, 0, 0, sendMax, readMax, [], [], 0, headMax, srq)
    {
      id, sends, recvDepth, sendDepth, readDepth := i, [], 0, 0, 0;
      maxSendDepth, maxReadDepth, pendingRead, pendingWrite := sendMax, readMax, [], [];
      sqHead, sqHeadMax, hasSrq := 0, headMax, srq;
    }
  }

  /** struct spdk_nvmf_rdma_resources: recvs_to_post and the free request queue. */
  class RdmaResources {
    var recvs: seq<nat>
    var freeQueue: seq<nat>

    function Snap(): Resources
      reads this
    {
      Resources(recvs, freeQueue)
    }

    constructor (free: seq<nat>)
      ensures Snap() == Resources([], free)
    {
      recvs, freeQueue := [], free;
    }
  }

  /** struct spdk_nvmf_rdma_poller: its queues of queue pairs with sends and receives to post. */
  class RdmaPoller {
    var pendingSend: seq<nat>
    var pendingRecv: seq<nat>

    function Snap(): Poller
      reads this
    {
      Poller(pendingSend, pendingRecv)
    }

    constructor ()
      ensures Snap() == Poller([], [])
    {
      pendingSend, pendingRecv := [], [];
    }
  }

  /** Everything request_process reads, as the value Proc reasons about. */
  function WorldOf(rr: RdmaRequest, qp: RdmaQpair, res: RdmaResources, poller: RdmaPoller,
                   group: PollGroup, transport: Transport): World
    reads rr, rr.req, rr.req.buffers, rr.req.iov, qp, res, poller, group, transport
  {
    World(rr.Snap(), qp.Snap(), res.Snap(), poller.Snap(), group.pendingBufQueue,
          Bufs(group, transport), transport.dataWrPool)
  }

  /** nvmf_rdma_qpair_queue_send_wrs: the chain goes to the end of sends_to_post. */
  method QueueSendWrs(qp: RdmaQpair, poller: RdmaPoller, chain: seq<WrRef>)
    modifies qp`sends, poller`pendingSend
    ensures qp.sends == old(qp.sends) + chain
    ensures poller.pendingSend == old(poller.pendingSend) + (if old(qp.sends) == [] then [qp.id] else [])
  {
    if qp.sends == [] {
      poller.pendingSend := poller.pendingSend + [qp.id];
    }
    qp.sends := qp.sends + chain;
  }

  /** nvmf_rdma_qpair_queue_recv_wrs for one receive: it goes to the end of recvs_to_post. */
  method QueueRecvWr(qp: RdmaQpair, res: RdmaResources, poller: RdmaPoller, recv: nat)
    modifies res`recvs, poller`pendingRecv
    ensures res.recvs == old(res.recvs) + [recv]
    ensures poller.pendingRecv ==
      old(poller.pendingRecv) + (if old(res.recvs) == [] && !qp.hasSrq then [qp.id] else [])
  {
    if res.recvs == [] && !qp.hasSrq {
      poller.pendingRecv := poller.pendingRecv + [qp.id];
    }
    res.recvs := res.recvs + [recv];
  }

  /** The NEW case of the switch. */
  method ProcessNew(rr: RdmaRequest, qp: RdmaQpair, res: RdmaResources, poller: RdmaPoller,
                    group: PollGroup, transport: Transport)
    requires rr.Valid() && rr.recv.Some?
    modifies rr`state, rr.req`cmd, rr.req`status, rr.req`xfer, group`pendingBufQueue
    ensures rr.Valid()
    ensures WorldOf(rr, qp, res, poller, group, transport) ==
            StepNew(old(WorldOf(rr, qp, res, poller, group, transport)))
  {
    rr.req.cmd := rr.recv.value.cmd;
    rr.req.status := ScSuccess;
    rr.req.xfer := GetXfer(rr.req.cmd);
    if rr.req.xfer == XferNone {
      rr.state := ReadyToExecute;
    } else {
      rr.state := NeedBuffer;
      group.pendingBufQueue := group.pendingBufQueue + [rr.id];
    }
  }

  /** The NEED_BUFFER case once the parse has run, with its return code. */
  method FinishNeedBuffer(rr: RdmaRequest, qp: RdmaQpair, res: RdmaResources, poller: RdmaPoller,
                          group: PollGroup, transport: Transport, rc: int)
    requires group.pendingBufQueue != []
    modifies group`pendingBufQueue, rr.req`status, rr`state, qp`pendingRead
    ensures WorldOf(rr, qp, res, poller, group, transport) ==
            AfterParse(old(WorldOf(rr, qp, res, poller, group, transport)), rc)
  {
    if rc < 0 {
      group.pendingBufQueue := group.pendingBufQueue[1..];
      rr.req.status := ScInternalDeviceError;
      rr.state := ReadyToComplete;
    } else if rr.req.data != 0 {
      group.pendingBufQueue := group.pendingBufQueue[1..];
      if rr.req.xfer == HostToController && rr.req.dataFromPool {
        qp.pendingRead := qp.pendingRead + [rr.id];
        rr.state := DataTransferToControllerPending;
      } else {
        rr.state := ReadyToExecute;
      }
    }
  }

  /** The NEED_BUFFER case of the switch: the head of the waiting queue parses its SGL. */
  method ProcessNeedBuffer(rr: RdmaRequest, qp: RdmaQpair, res: RdmaResources, poller: RdmaPoller,
                           group: PollGroup, transport: Transport, xlate: Addr -> nat)
    requires rr.Valid() && group.Valid() && ValidOpts(transport.opts) && rr.pooledWrs == [] && rr.recv.Some?
    modifies rr`wrs, rr`pooledWrs, rr`outstandingDataWr, rr.req`length, rr.req`iovcnt, rr.req`dataFromPool,
      rr.req`data, rr.req.buffers, rr.req.iov, group`bufCache, group`bufCacheCount, transport`dataBufPool,
      transport`dataWrPool, group`pendingBufQueue, rr.req`status, rr`state, qp`pendingRead
    ensures rr.Valid() && group.Valid()
    ensures WorldOf(rr, qp, res, poller, group, transport) ==
            StepNeedBuffer(transport.opts, old(WorldOf(rr, qp, res, poller, group, transport)), xlate)
  {
    if group.pendingBufQueue == [] || group.pendingBufQueue[0] != rr.id {
      return;
    }
    var rc := ParseAtHead(rr, qp, res, poller, group, transport, xlate);
    FinishNeedBuffer(rr, qp, res, poller, group, transport, rc);
  }

  /** The parse run by the head of the waiting queue: only the request, the cache, the pool and the WR pool change. */
  method ParseAtHead(rr: RdmaRequest, qp: RdmaQpair, res: RdmaResources, poller: RdmaPoller,
                     group: PollGroup, transport: Transport, xlate: Addr -> nat) returns (rc: int)
    requires rr.Valid() && group.Valid() && ValidOpts(transport.opts) && rr.pooledWrs == [] && rr.recv.Some?
    modifies rr`wrs, rr`pooledWrs, rr`outstandingDataWr, rr.req`length, rr.req`iovcnt, rr.req`dataFromPool,
      rr.req`data, rr.req.buffers, rr.req.iov, group`bufCache, group`bufCacheCount, transport`dataBufPool,
      transport`dataWrPool
    ensures rr.Valid() && group.Valid()
    ensures var w := old(WorldOf(rr, qp, res, poller, group, transport));
      var p := ParseSpec(transport.opts, w.req, w.bufs, w.wrPool, xlate);
      rc == p.rc && WorldOf(rr, qp, res, poller, group, transport) == w.(req := p.req, bufs := p.bufs, wrPool := p.wrPool)
  {
    rc := ParseSgl(rr, group, transport, xlate);
  }

  /** request_transfer_in: the data chain is queued for the RDMA reads. */
  method RequestTransferIn(rr: RdmaRequest, qp: RdmaQpair, res: RdmaResources, poller: RdmaPoller,
                           group: PollGroup, transport: Transport)
    modifies qp`sends, qp`readDepth, qp`sendDepth, poller`pendingSend, rr`state
    ensures WorldOf(rr, qp, res, poller, group, transport) ==
            TransferIn(old(WorldOf(rr, qp, res, poller, group, transport)))
  {
    QueueSendWrs(qp, poller, LinkedFromData(rr.Snap()));
    qp.readDepth := qp.readDepth + rr.outstandingDataWr;
    qp.sendDepth := qp.sendDepth + rr.outstandingDataWr;
    rr.state := TransferringHostToController;
  }

  /** The DATA_TRANSFER_TO_CONTROLLER_PENDING case: the head of the read queue, when its WRs fit. */
  method ProcessToControllerPending(rr: RdmaRequest, qp: RdmaQpair, res: RdmaResources, poller: RdmaPoller,
                                    group: PollGroup, transport: Transport)
    modifies qp`pendingRead, qp`sends, qp`readDepth, qp`sendDepth, poller`pendingSend, rr`state
    ensures WorldOf(rr, qp, res, poller, group, transport) ==
            StepToControllerPending(old(WorldOf(rr, qp, res, poller, group, transport)))
  {
    if qp.pendingRead == [] || qp.pendingRead[0] != rr.id {
      return;
    }
    if qp.sendDepth + rr.outstandingDataWr > qp.maxSendDepth ||
       qp.readDepth + rr.outstandingDataWr > qp.maxReadDepth {
      return;
    }
    qp.pendingRead := qp.pendingRead[1..];
    RequestTransferIn(rr, qp, res, poller, group, transport);
  }

  /** The EXECUTED case of the switch. */
  method ProcessExecuted(rr: RdmaRequest, qp: RdmaQpair, res: RdmaResources, poller: RdmaPoller,
                         group: PollGroup, transport: Transport)
    modifies qp`pendingWrite, rr`state
    ensures WorldOf(rr, qp, res, poller, group, transport) ==
            StepExecuted(old(WorldOf(rr, qp, res, poller, group, transport)))
  {
    if rr.req.xfer == ControllerToHost {
      qp.pendingWrite := qp.pendingWrite + [rr.id];
      rr.state := DataTransferToHostPending;
    } else {
      rr.state := ReadyToComplete;
    }
  }

  /** The DATA_TRANSFER_TO_HOST_PENDING case of the switch. */
  method ProcessToHostPending(rr: RdmaRequest, qp: RdmaQpair, res: RdmaResources, poller: RdmaPoller,
                              group: PollGroup, transport: Transport)
    modifies qp`pendingWrite, rr`state
    ensures WorldOf(rr, qp, res, poller, group, transport) ==
            StepToHostPending(old(WorldOf(rr, qp, res, poller, group, transport)))
  {
    if qp.pendingWrite == [] || qp.pendingWrite[0] != rr.id {
      return;
    }
    if qp.sendDepth + rr.outstandingDataWr + 1 > qp.maxSendDepth {
      return;
    }
    qp.pendingWrite := qp.pendingWrite[1..];
    rr.state := ReadyToComplete;
  }

  /** The first half of request_transfer_out: sq_head, and the receive reposted. */
  method RepostRecvWr(rr: RdmaRequest, qp: RdmaQpair, res: RdmaResources, poller: RdmaPoller,
                      group: PollGroup, transport: Transport)
    requires rr.recv.Some? && qp.recvDepth > 0
    modifies qp`sqHead, qp`recvDepth, res`recvs, poller`pendingRecv, rr`recv
    ensures WorldOf(rr, qp, res, poller, group, transport) ==
            RepostRecv(old(WorldOf(rr, qp, res, poller, group, transport)))
  {
    qp.sqHead := if qp.sqHead == qp.sqHeadMax then 0 else qp.sqHead + 1;
    QueueRecvWr(qp, res, poller, rr.recv.value.id);
    rr.recv := None;
    qp.recvDepth := qp.recvDepth - 1;
  }

  /** The second half of request_transfer_out: the response, after the data of a read. */
  method QueueResponseWrs(rr: RdmaRequest, qp: RdmaQpair, res: RdmaResources, poller: RdmaPoller,
                          group: PollGroup, transport: Transport)
    modifies qp`sends, qp`sendDepth, poller`pendingSend, rr`state
    ensures WorldOf(rr, qp, res, poller, group, transport) ==
            QueueResponse(old(WorldOf(rr, qp, res, poller, group, transport)))
  {
    var posted := rr.req.status == ScSuccess && rr.req.xfer == ControllerToHost;
    var chain := if posted then LinkedFromData(rr.Snap()) else [RspWr(rr.id)];
    var n := if posted then rr.outstandingDataWr else 0;
    QueueSendWrs(qp, poller, chain);
    qp.sendDepth := qp.sendDepth + n + 1;
    rr.state := if posted then TransferringControllerToHost else Completing;
  }

  /** The READY_TO_COMPLETE case of the switch: request_transfer_out. */
  method ProcessReadyToComplete(rr: RdmaRequest, qp: RdmaQpair, res: RdmaResources, poller: RdmaPoller,
                                group: PollGroup, transport: Transport)
    requires rr.recv.Some? && qp.recvDepth > 0
    modifies qp`sqHead, qp`recvDepth, qp`sends, qp`sendDepth, res`recvs, poller`pendingRecv,
      poller`pendingSend, rr`recv, rr`state
    ensures WorldOf(rr, qp, res, poller, group, transport) ==
            StepReadyToComplete(old(WorldOf(rr, qp, res, poller, group, transport)))
  {
    RepostRecvWr(rr, qp, res, poller, group, transport);
    QueueResponseWrs(rr, qp, res, poller, group, transport);
  }

  /**
   * nvmf_rdma_request_free_data: the data WRs lose their elements and the borrowed ones go
   * back to the WR pool one at a time, in chain order.
   */
  method FreeRequestData(rr: RdmaRequest, qp: RdmaQpair, res: RdmaResources, poller: RdmaPoller,
                         group: PollGroup, transport: Transport)
    requires rr.Valid()
    modifies rr`outstandingDataWr, rr`wrs, rr`pooledWrs, transport`dataWrPool
    ensures rr.Valid()
    ensures WorldOf(rr, qp, res, poller, group, transport) ==
            FreeData(old(WorldOf(rr, qp, res, poller, group, transport)))
  {
    rr.outstandingDataWr := 0;
    var i := 0;
    while i < |rr.pooledWrs|
      modifies transport`dataWrPool
      invariant i <= |rr.pooledWrs|
      invariant transport.dataWrPool == old(transport.dataWrPool) + rr.pooledWrs[..i]
    {
      transport.PutWr(rr.pooledWrs[i]);
      assert rr.pooledWrs[..i + 1] == rr.pooledWrs[..i] + [rr.pooledWrs[i]];
      i := i + 1;
    }
    assert rr.pooledWrs[..i] == rr.pooledWrs;
    rr.wrs := [rr.wrs[0].(sgList := [])];
    rr.pooledWrs := [];
  }

  /** The buffers of a request holding pooled data go back through free_buffers. */
  method ReleaseRequestBuffers(rr: RdmaRequest, qp: RdmaQpair, res: RdmaResources, poller: RdmaPoller,
                               group: PollGroup, transport: Transport)
    requires rr.Valid() && group.Valid()
    modifies rr.req.buffers, rr.req.iov, rr.req`dataFromPool, group`bufCache, group`bufCacheCount,
      transport`dataBufPool
    ensures rr.Valid() && group.Valid()
    ensures WorldOf(rr, qp, res, poller, group, transport) ==
            ReleaseBuffers(old(WorldOf(rr, qp, res, poller, group, transport)))
  {
    if rr.req.dataFromPool {
      FreeBuffers(rr.req, group, transport, rr.req.iovcnt);
    }
  }

  /** The COMPLETED case of the switch: nvmf_rdma_request_free. */
  method ProcessCompleted(rr: RdmaRequest, qp: RdmaQpair, res: RdmaResources, poller: RdmaPoller,
                          group: PollGroup, transport: Transport)
    requires rr.Valid() && group.Valid()
    modifies rr.req.buffers, rr.req.iov, rr.req`dataFromPool, group`bufCache, group`bufCacheCount,
      transport`dataBufPool, rr`outstandingDataWr, rr`wrs, rr`pooledWrs, transport`dataWrPool,
      rr.req`length, rr.req`iovcnt, rr.req`data, res`freeQueue, rr`state
    ensures rr.Valid() && group.Valid()
    ensures WorldOf(rr, qp, res, poller, group, transport) ==
            StepCompleted(old(WorldOf(rr, qp, res, poller, group, transport)))
  {
    ReleaseRequestBuffers(rr, qp, res, poller, group, transport);
    FreeRequestData(rr, qp, res, poller, group, transport);
    rr.req.length := 0;
    rr.req.iovcnt := 0;
    rr.req.data := 0;
    res.freeQueue := [rr.id] + res.freeQueue;
    rr.state := Free;
  }

  /** The cases of the switch up to READY_TO_EXECUTE; a half of ProcessPass, whose contract covers it. */
  method ProcessEarlyPass(rr: RdmaRequest, qp: RdmaQpair, res: RdmaResources, poller: RdmaPoller,
                     group: PollGroup, transport: Transport, xlate: Addr -> nat)
    requires rr.Valid() && group.Valid() && WorldOk(transport.opts, WorldOf(rr, qp, res, poller, group, transport))
    requires Rank(rr.state) <= 5
    modifies rr, rr.req, rr.req.buffers, rr.req.iov, qp, res, poller, group, transport
    ensures rr.Valid() && group.Valid()
    ensures WorldOf(rr, qp, res, poller, group, transport) ==
            Step(transport.opts, old(WorldOf(rr, qp, res, poller, group, transport)), xlate)
  {
    match rr.state
    case New => ProcessNew(rr, qp, res, poller, group, transport);
    case NeedBuffer => ProcessNeedBuffer(rr, qp, res, poller, group, transport, xlate);
    case DataTransferToControllerPending => ProcessToControllerPending(rr, qp, res, poller, group, transport);
    case ReadyToExecute => rr.state := Executing;
    case TransferringHostToController =>
  }

  /** The cases of the switch from EXECUTING on; a half of ProcessPass, whose contract covers it. */
  method ProcessLatePass(rr: RdmaRequest, qp: RdmaQpair, res: RdmaResources, poller: RdmaPoller,
                     group: PollGroup, transport: Transport, xlate: Addr -> nat)
    requires rr.Valid() && group.Valid() && WorldOk(transport.opts, WorldOf(rr, qp, res, poller, group, transport))
    requires Rank(rr.state) > 5
    modifies rr, rr.req, rr.req.buffers, rr.req.iov, qp, res, poller, group, transport
    ensures rr.Valid() && group.Valid()
    ensures WorldOf(rr, qp, res, poller, group, transport) ==
            Step(transport.opts, old(WorldOf(rr, qp, res, poller, group, transport)), xlate)
  {
    match rr.state
    case Executed => ProcessExecuted(rr, qp, res, poller, group, transport);
    case DataTransferToHostPending => ProcessToHostPending(rr, qp, res, poller, group, transport);
    case ReadyToComplete => ProcessReadyToComplete(rr, qp, res, poller, group, transport);
    case Completed => ProcessCompleted(rr, qp, res, poller, group, transport);
    case Executing =>
    case TransferringControllerToHost =>
    case Completing =>
    case Free =>
  }

  /** One pass of the state switch of spdk_nvmf_rdma_request_process. */
  method ProcessPass(rr: RdmaRequest, qp: RdmaQpair, res: RdmaResources, poller: RdmaPoller,
                     group: PollGroup, transport: Transport, xlate: Addr -> nat)
    requires rr.Valid() && group.Valid() && WorldOk(transport.opts, WorldOf(rr, qp, res, poller, group, transport))
    modifies rr, rr.req, rr.req.buffers, rr.req.iov, qp, res, poller, group, transport
    ensures rr.Valid() && group.Valid()
    ensures WorldOf(rr, qp, res, poller, group, transport) ==
            Step(transport.opts, old(WorldOf(rr, qp, res, poller, group, transport)), xlate)
  {
    if Rank(rr.state) <= 5 {
      ProcessEarlyPass(rr, qp, res, poller, group, transport, xlate);
    } else {
      ProcessLatePass(rr, qp, res, poller, group, transport, xlate);
    }
  }

  /**
   * spdk_nvmf_rdma_request_process: passes of the switch repeat while they change the state.
   * The objects end as Proc.Run says, and the result is whether any pass changed the state.
   */
  method Process(rr: RdmaRequest, qp: RdmaQpair, res: RdmaResources, poller: RdmaPoller,
                 group: PollGroup, transport: Transport, xlate: Addr -> nat) returns (progress: bool)
    requires rr.Valid() && group.Valid() && WorldOk(transport.opts, WorldOf(rr, qp, res, poller, group, transport))
    modifies rr, rr.req, rr.req.buffers, rr.req.iov, qp, res, poller, group, transport
    ensures rr.Valid() && group.Valid()
    ensures WorldOf(rr, qp, res, poller, group, transport) ==
            Run(transport.opts, old(WorldOf(rr, qp, res, poller, group, transport)), xlate)
    ensures progress == Progress(transport.opts, old(WorldOf(rr, qp, res, poller, group, transport)), xlate)
  {
    ghost var o := transport.opts;
    ghost var w0 := WorldOf(rr, qp, res, poller, group, transport);
    ghost var cur := w0;
    progress := false;
    var again := true;
    while again
      invariant rr.Valid() && group.Valid()
      invariant cur == WorldOf(rr, qp, res, poller, group, transport)
      invariant again ==> WorldOk(o, cur) && Run(o, cur, xlate) == Run(o, w0, xlate)
      invariant !again ==> cur == Run(o, w0, xlate)
      invariant Rank(cur.req.state) >= Rank(w0.req.state) && (progress <==> cur.req.state != w0.req.state)
      decreases again, 13 - Rank(cur.req.state)
    {
      ghost var w := cur;
      var prev := rr.state;
      ProcessPass(rr, qp, res, poller, group, transport, xlate);
      cur := WorldOf(rr, qp, res, poller, group, transport);
      assert prev == w.req.state && rr.state == cur.req.state;
      LoopTurn(o, w0, w, xlate);
      if rr.state != prev {
        progress := true;
      } else {
        again := false;
      }
    }
  }

  /** One turn of request_process's loop: the pass leads on to the same end, and further along when it changes the state. */
  lemma LoopTurn(o: TransportOpts, w0: World, w: World, xlate: Addr -> nat)
    requires WorldOk(o, w) && WorldOk(o, w0) && Run(o, w, xlate) == Run(o, w0, xlate)
    requires Rank(w.req.state) >= Rank(w0.req.state)
    ensures var v := Step(o, w, xlate);
      && Rank(v.req.state) >= Rank(w0.req.state)
      && (v.req.state != w.req.state ==>
            WorldOk(o, v) && Run(o, v, xlate) == Run(o, w0, xlate) && v.req.state != w0.req.state)
      && (v.req.state == w.req.state ==> v == Run(o, w0, xlate))
  {
    if Step(o, w, xlate).req.state != w.req.state {
      RunThrough(o, w, xlate);
    } else {
      RunStops(o, w, xlate);
    }
  }
}
