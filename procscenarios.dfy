/**
 * The paths a request takes through request_process in the request-process scenarios of
 * test/unit/lib/nvmf/rdma.c/rdma_ut.c: a single keyed read, a single keyed write, two
 * writes batched on one queue pair, the completion paths and request_free; and the paths
 * a malformed descriptor and a shortage of buffers take.
 */
module ProcScenarios {
  import opened NvmfTypes
  import opened Chunks
  import opened BufPool
  import opened Sgl
  import opened SglProps
  import opened Proc
  import opened ProcProps

  /** Buffer addresses as a pool hands them out: never NULL, and not in the last 4 KiB of memory. */
  predicate Usable(b: BufState)
  {
    && (forall i :: 0 <= i < |b.cache| ==> 0 < b.cache[i] <= 0xFFFF_FFFF_FFFF_F000)
    && (forall i :: 0 <= i < |b.pool| ==> 0 < b.pool[i] <= 0xFFFF_FFFF_FFFF_F000)
  }

  /** Dropping buffers from the heads of the cache and the pool keeps the rest usable. */
  lemma UsableDrop(b: BufState, k: nat, m: nat)
    requires Usable(b) && k <= |b.cache| && m <= |b.pool|
    ensures Usable(BufState(b.cache[k..], b.cacheSize, b.pool[m..]))
  {
    var c := BufState(b.cache[k..], b.cacheSize, b.pool[m..]);
    forall i | 0 <= i < |c.cache| ensures 0 < c.cache[i] <= 0xFFFF_FFFF_FFFF_F000 {
      assert c.cache[i] == b.cache[k + i];
    }
    forall i | 0 <= i < |c.pool| ensures 0 < c.pool[i] <= 0xFFFF_FFFF_FFFF_F000 {
      assert c.pool[i] == b.pool[m + i];
    }
  }

  /** Taking buffers keeps the rest usable, and the first one taken aligns to a non-NULL address. */
  lemma TakeUsable(b: BufState, n: nat)
    requires Usable(b) && CacheBounded(b) && 0 < n <= |b.cache| + |b.pool|
    ensures var t := TakeBuffers(b, n);
      && Usable(t.bufs) && CacheBounded(t.bufs) && AlignUp(t.taken[0]) != 0
      && |t.bufs.cache| + |t.bufs.pool| == |b.cache| + |b.pool| - n
  {
    var k := Min(n, |b.cache|);
    var t := TakeBuffers(b, n);
    assert t.bufs == BufState(b.cache[k..], b.cacheSize, b.pool[n - k..]);
    assert t.taken == b.cache[..k] + b.pool[..n - k];
    UsableDrop(b, k, n - k);
    var x := if k > 0 then b.cache[0] else b.pool[0];
    assert t.taken[0] == x;
    AlignUpBounds(x);
  }

  /** A keyed descriptor within max_io_size whose buffers the cache and the pool can supply. */
  predicate KeyedFits(o: TransportOpts, sgl: SglDescriptor, b: BufState)
  {
    && ValidOpts(o) && IsKeyed(sgl) && sgl.length <= o.maxIoSize
    && CeilDiv(sgl.length, o.ioUnitSize) <= |b.cache| + |b.pool| && Usable(b)
  }

  /** A new request with a keyed descriptor that fits, transferring in direction x, and no one waiting for buffers. */
  predicate KeyedNew(o: TransportOpts, w: World, x: Xfer)
  {
    && Accountable(o, w) && w.req.state == New && w.pendingBuf == []
    && GetXfer(w.req.recv.value.cmd) == x && KeyedFits(o, w.req.recv.value.cmd.sgl1, w.bufs)
  }

  /**
   * A new request as create_recv and create_req build it for opcode opc: a non-empty keyed
   * descriptor that fits, and no one waiting for buffers.
   */
  predicate KeyedCommand(o: TransportOpts, w: World, opc: nat)
  {
    && Accountable(o, w) && w.req.state == New && w.pendingBuf == []
    && w.req.recv.value.cmd.opc == opc && w.req.recv.value.cmd.sgl1.length > 0
    && KeyedFits(o, w.req.recv.value.cmd.sgl1, w.bufs)
  }

  /** A READ transfers controller to host and a WRITE host to controller. */
  lemma CommandDirection(o: TransportOpts, w: World, opc: nat)
    requires KeyedCommand(o, w, opc) && (opc == OpcRead || opc == OpcWrite)
    ensures KeyedNew(o, w, if opc == OpcRead then ControllerToHost else HostToController)
  {
    ReadWriteDirections(w.req.recv.value.cmd);
  }

  /** The number of buffers a new request's keyed descriptor needs. */
  function BuffersFor(o: TransportOpts, w: World): nat
    requires ValidOpts(o) && w.req.recv.Some?
  {
    CeilDiv(w.req.recv.value.cmd.sgl1.length, o.ioUnitSize)
  }

  /**
   * The parse at the head of the waiting queue for a keyed descriptor that fits: it
   * succeeds with pooled data at a non-NULL address and one data WR, taking its buffers
   * from the cache and the pool and no WR from the WR pool.
   */
  lemma KeyedParseAdmits(o: TransportOpts, w: World, xlate: Addr -> nat)
    requires Accountable(o, w) && w.req.state == NeedBuffer
    requires w.req.xfer == GetXfer(w.req.cmd) && w.req.xfer != XferNone
    requires KeyedFits(o, w.req.cmd.sgl1, w.bufs)
    ensures var p := ParseSpec(o, w.req, w.bufs, w.wrPool, xlate);
      var n := CeilDiv(w.req.cmd.sgl1.length, o.ioUnitSize); var t := TakeBuffers(w.bufs, n);
      && p.rc == 0 && p.req.data != 0 && p.req.dataFromPool && p.req.outstandingDataWr == 1
      && p.req.pooledWrs == [] && p.req.iovcnt == n && p.req.buffers[..n] == t.taken
      && p.bufs == t.bufs && p.wrPool == w.wrPool && Usable(p.bufs) && CacheBounded(p.bufs)
      && |p.bufs.cache| + |p.bufs.pool| == |w.bufs.cache| + |w.bufs.pool| - n
  {
    var r := w.req;
    var n := CeilDiv(r.cmd.sgl1.length, o.ioUnitSize);
    assert r.cmd.sgl1.length > 0;
    KeyedSuccess(o, r, w.bufs, w.wrPool, xlate);
    TakeUsable(w.bufs, n);
    var p := ParseSpec(o, r, w.bufs, w.wrPool, xlate);
    assert p.req.buffers[0] == p.req.buffers[..n][0];
  }

  /** NEW through NEED_BUFFER for a keyed request that fits: the world right after the parse. */
  function Admitted(o: TransportOpts, w: World, xlate: Addr -> nat): World
    requires WorldOk(o, w) && w.req.state == New
  {
    var w1 := StepNew(w);
    var p := ParseSpec(o, w1.req, w1.bufs, w1.wrPool, xlate);
    w1.(req := p.req, bufs := p.bufs, wrPool := p.wrPool, pendingBuf := [])
  }

  /** The world right after a keyed request that fits has parsed its descriptor. */
  lemma NewToParsed(o: TransportOpts, w: World, x: Xfer, xlate: Addr -> nat)
    requires KeyedNew(o, w, x) && x != XferNone
    ensures var w1 := StepNew(w); var a := Admitted(o, w, xlate); var n := BuffersFor(o, w);
      && w1.req.state == NeedBuffer && w1.pendingBuf == [w.req.id]
      && a.req.data != 0 && a.req.dataFromPool && a.req.outstandingDataWr == 1 && a.req.pooledWrs == []
      && a.req.xfer == x && a.req.state == NeedBuffer && a.req.iovcnt == n && a.req.id == w.req.id
      && a.req.recv == w.req.recv && a.req.status == ScSuccess
      && a.req.buffers[..n] == TakeBuffers(w.bufs, n).taken && a.bufs == TakeBuffers(w.bufs, n).bufs
      && a.wrPool == w.wrPool && a.qp == w.qp && a.res == w.res && a.poller == w.poller
      && Usable(a.bufs) && CacheBounded(a.bufs)
      && |a.bufs.cache| + |a.bufs.pool| == |w.bufs.cache| + |w.bufs.pool| - n
  {
    var w1 := StepNew(w);
    KeyedParseAdmits(o, w1, xlate);
  }

  /** The pass after the parse: a write waits for its RDMA read, a read is ready to execute. */
  lemma ParsedStep(o: TransportOpts, w: World, x: Xfer, xlate: Addr -> nat)
    requires KeyedNew(o, w, x) && (x == HostToController || x == ControllerToHost)
    ensures var w1 := StepNew(w); var a := Admitted(o, w, xlate);
      && WorldOk(o, w1) && w1.req.state == NeedBuffer
      && Step(o, w1, xlate) ==
         if x == HostToController then
           a.(req := a.req.(state := DataTransferToControllerPending), qp := a.qp.(pendingRead := w.qp.pendingRead + [w.req.id]))
         else a.(req := a.req.(state := ReadyToExecute))
  {
    NewToParsed(o, w, x, xlate);
  }

  /**
   * Test 1 of the request-process scenarios, first call: a keyed read goes from NEW to
   * EXECUTING in one call, with its buffers taken, nothing queued for sending, and the
   * direction controller to host.
   */
  lemma ReadNewToExecuting(o: TransportOpts, w: World, xlate: Addr -> nat)
    requires KeyedCommand(o, w, OpcRead)
    ensures var v := Run(o, w, xlate); var n := BuffersFor(o, w);
      && Progress(o, w, xlate)
      && v.req.state == Executing && v.req.xfer == ControllerToHost && v.req.dataFromPool
      && v.req.iovcnt == n && v.req.buffers[..n] == TakeBuffers(w.bufs, n).taken
      && v.req.recv == w.req.recv && v.req.outstandingDataWr == 1
      && v.bufs == TakeBuffers(w.bufs, n).bufs && v.wrPool == w.wrPool
      && v.qp == w.qp && v.res == w.res && v.poller == w.poller && v.pendingBuf == []
  {
    CommandDirection(o, w, OpcRead);
    NewToParsed(o, w, ControllerToHost, xlate);
    ReadRun(o, w, xlate);
  }

  lemma ReadRun(o: TransportOpts, w: World, xlate: Addr -> nat)
    requires KeyedCommand(o, w, OpcRead)
    ensures var a := Admitted(o, w, xlate); Run(o, w, xlate) == a.(req := a.req.(state := Executing))
  {
    CommandDirection(o, w, OpcRead);
    ParsedStep(o, w, ControllerToHost, xlate);
    var w1 := StepNew(w);
    RunThrough(o, w, xlate);
    RunThrough(o, w1, xlate);
    ReadyToExecuteToExecuting(o, Step(o, w1, xlate), xlate);
  }

  /**
   * Test 2 of the request-process scenarios, first call, and each write of test 3: a
   * keyed write goes from NEW to TRANSFERRING_HOST_TO_CONTROLLER in one call. Its data WR
   * alone goes to the end of sends_to_post, counted once in both the send and the read
   * depth, and the queue pair joins the poller's list when its batch was empty.
   */
  lemma WriteNewToH2C(o: TransportOpts, w: World, xlate: Addr -> nat)
    requires KeyedCommand(o, w, OpcWrite) && w.qp.pendingRead == []
    requires w.qp.sendDepth < w.qp.maxSendDepth && w.qp.readDepth < w.qp.maxReadDepth
    ensures var v := Run(o, w, xlate); var n := BuffersFor(o, w);
      && Progress(o, w, xlate)
      && v.req.state == TransferringHostToController && v.req.xfer == HostToController
      && v.req.dataFromPool && v.req.iovcnt == n && v.req.buffers[..n] == TakeBuffers(w.bufs, n).taken
      && v.req.recv == w.req.recv && v.req.outstandingDataWr == 1 && v.req.pooledWrs == []
      && v.qp == w.qp.(sends := w.qp.sends + [DataWr(w.req.id)],
                       sendDepth := w.qp.sendDepth + 1, readDepth := w.qp.readDepth + 1)
      && v.poller.pendingSend == w.poller.pendingSend + (if w.qp.sends == [] then [w.qp.id] else [])
      && v.poller.pendingRecv == w.poller.pendingRecv
      && v.bufs == TakeBuffers(w.bufs, n).bufs && v.wrPool == w.wrPool
      && v.res == w.res && v.pendingBuf == []
      && Usable(v.bufs) && CacheBounded(v.bufs)
      && |v.bufs.cache| + |v.bufs.pool| == |w.bufs.cache| + |w.bufs.pool| - n
  {
    CommandDirection(o, w, OpcWrite);
    WriteRun(o, w, xlate);
    WriteTransferringFacts(o, w, xlate);
  }

  lemma WriteTransferringFacts(o: TransportOpts, w: World, xlate: Addr -> nat)
    requires KeyedNew(o, w, HostToController) && w.qp.pendingRead == []
    ensures var v := WriteTransferring(o, w, xlate); var n := BuffersFor(o, w);
      && v.req.state == TransferringHostToController && v.req.xfer == HostToController
      && v.req.dataFromPool && v.req.iovcnt == n && v.req.buffers[..n] == TakeBuffers(w.bufs, n).taken
      && v.req.recv == w.req.recv && v.req.outstandingDataWr == 1 && v.req.pooledWrs == []
      && v.qp == w.qp.(sends := w.qp.sends + [DataWr(w.req.id)],
                       sendDepth := w.qp.sendDepth + 1, readDepth := w.qp.readDepth + 1)
      && v.poller.pendingSend == w.poller.pendingSend + (if w.qp.sends == [] then [w.qp.id] else [])
      && v.poller.pendingRecv == w.poller.pendingRecv
      && v.bufs == TakeBuffers(w.bufs, n).bufs && v.wrPool == w.wrPool
      && v.res == w.res && v.pendingBuf == []
      && Usable(v.bufs) && CacheBounded(v.bufs)
      && |v.bufs.cache| + |v.bufs.pool| == |w.bufs.cache| + |w.bufs.pool| - n
  {
    NewToParsed(o, w, HostToController, xlate);
  }

  /** Where a keyed write waits for its RDMA read after the parse. */
  function WritePending(o: TransportOpts, w: World, xlate: Addr -> nat): World
    requires WorldOk(o, w) && w.req.state == New
  {
    var a := Admitted(o, w, xlate);
    a.(req := a.req.(state := DataTransferToControllerPending), qp := a.qp.(pendingRead := [w.req.id]))
  }

  /** Where a keyed write that passes every check ends the call: its data WR is queued. */
  function WriteTransferring(o: TransportOpts, w: World, xlate: Addr -> nat): World
    requires WorldOk(o, w) && w.req.state == New
  {
    ReadIssued(WritePending(o, w, xlate))
  }

  /** The only pending read with one data WR, transferred in: its data WR is queued and counted once in each depth. */
  function ReadIssued(w: World): World
  {
    w.(req := w.req.(state := TransferringHostToController),
       qp := w.qp.(sends := w.qp.sends + [DataWr(w.req.id)], pendingRead := [],
                   sendDepth := w.qp.sendDepth + 1, readDepth := w.qp.readDepth + 1),
       poller := QueueSends(w, [DataWr(w.req.id)]).poller)
  }

  lemma WriteRun(o: TransportOpts, w: World, xlate: Addr -> nat)
    requires KeyedCommand(o, w, OpcWrite) && w.qp.pendingRead == []
    requires w.qp.sendDepth < w.qp.maxSendDepth && w.qp.readDepth < w.qp.maxReadDepth
    ensures Run(o, w, xlate) == WriteTransferring(o, w, xlate)
  {
    CommandDirection(o, w, OpcWrite);
    WriteReachesPending(o, w, xlate);
    WritePendingShape(o, w, xlate);
    PendingWriteRun(o, WritePending(o, w, xlate), xlate);
  }

  /** The first two passes of a keyed write: NEW, then the parse, which queues it for an RDMA read. */
  lemma WriteReachesPending(o: TransportOpts, w: World, xlate: Addr -> nat)
    requires KeyedNew(o, w, HostToController) && w.qp.pendingRead == []
    ensures WorldOk(o, WritePending(o, w, xlate))
    ensures Run(o, w, xlate) == Run(o, WritePending(o, w, xlate), xlate)
  {
    ParsedStep(o, w, HostToController, xlate);
    var w1 := StepNew(w);
    RunThrough(o, w, xlate);
    RunThrough(o, w1, xlate);
    assert w.qp.pendingRead + [w.req.id] == [w.req.id];
    assert Step(o, w1, xlate) == WritePending(o, w, xlate);
  }

  /** A keyed write waiting for its RDMA read: the only pending read, with one data WR and the depths it found. */
  lemma WritePendingShape(o: TransportOpts, w: World, xlate: Addr -> nat)
    requires KeyedNew(o, w, HostToController) && w.qp.pendingRead == []
    ensures var p := WritePending(o, w, xlate);
      && p.req.state == DataTransferToControllerPending && p.qp.pendingRead == [p.req.id]
      && p.req.outstandingDataWr == 1 && p.req.pooledWrs == [] && p.req.xfer == HostToController
      && p.qp.sendDepth == w.qp.sendDepth && p.qp.readDepth == w.qp.readDepth
      && p.qp.maxSendDepth == w.qp.maxSendDepth && p.qp.maxReadDepth == w.qp.maxReadDepth
  {
    NewToParsed(o, w, HostToController, xlate);
  }

  /**
   * DATA_TRANSFER_TO_CONTROLLER_PENDING for the only pending read, with one data WR and
   * room in both depths: the data WR is queued and the request waits for the RDMA read.
   */
  lemma PendingWriteRun(o: TransportOpts, w: World, xlate: Addr -> nat)
    requires WorldOk(o, w) && w.req.state == DataTransferToControllerPending && w.qp.pendingRead == [w.req.id]
    requires w.req.outstandingDataWr == 1 && w.req.pooledWrs == [] && w.req.xfer == HostToController
    requires w.qp.sendDepth < w.qp.maxSendDepth && w.qp.readDepth < w.qp.maxReadDepth
    ensures Run(o, w, xlate) == ReadIssued(w)
  {
    WriteToTransfer(o, w, xlate);
    RunThrough(o, w, xlate);
    RunStops(o, Step(o, w, xlate), xlate);
  }

  /** DATA_TRANSFER_TO_CONTROLLER_PENDING for the only pending read, with one data WR and room in both depths. */
  lemma WriteToTransfer(o: TransportOpts, w: World, xlate: Addr -> nat)
    requires WorldOk(o, w) && w.req.state == DataTransferToControllerPending && w.qp.pendingRead == [w.req.id]
    requires w.req.outstandingDataWr == 1 && w.req.pooledWrs == [] && w.req.xfer == HostToController
    requires w.qp.sendDepth < w.qp.maxSendDepth && w.qp.readDepth < w.qp.maxReadDepth
    ensures var v := Step(o, w, xlate);
      && v.req == w.req.(state := TransferringHostToController)
      && v.qp == w.qp.(sends := w.qp.sends + [DataWr(w.req.id)], pendingRead := [],
                       sendDepth := w.qp.sendDepth + 1, readDepth := w.qp.readDepth + 1)
      && v.poller == QueueSends(w, [DataWr(w.req.id)]).poller
      && v.res == w.res && v.bufs == w.bufs && v.wrPool == w.wrPool && v.pendingBuf == w.pendingBuf
  {
    assert LinkedFromData(w.req) == [DataWr(w.req.id)];
  }

  /**
   * Test 3 of the request-process scenarios: two keyed writes on one queue pair, the second
   * processed after the first (with current_recv_depth then set to depth), are batched in
   * order: sends_to_post holds the first one's data WR and then the second one's.
   */
  lemma TwoWritesBatch(o: TransportOpts, w: World, r2: Req, depth: nat, xlate: Addr -> nat)
    requires KeyedCommand(o, w, OpcWrite) && w.qp.pendingRead == []
    requires w.qp.sendDepth + 2 <= w.qp.maxSendDepth && w.qp.readDepth + 2 <= w.qp.maxReadDepth
    requires Shaped(r2) && r2.state == New && r2.recv.Some? && r2.pooledWrs == [] && !r2.dataFromPool
    requires depth > 0
    requires r2.recv.value.cmd.opc == OpcWrite && r2.recv.value.cmd.sgl1.length > 0 && KeyedFits(o, r2.recv.value.cmd.sgl1, w.bufs)
    requires BuffersFor(o, w) + CeilDiv(r2.recv.value.cmd.sgl1.length, o.ioUnitSize) <= |w.bufs.cache| + |w.bufs.pool|
    ensures var v1 := Run(o, w, xlate);
      var v2 := Run(o, v1.(req := r2, qp := v1.qp.(recvDepth := depth)), xlate);
      && v1.req.state == TransferringHostToController && v2.req.state == TransferringHostToController
      && v1.qp.sends == w.qp.sends + [DataWr(w.req.id)]
      && v2.qp.sends == w.qp.sends + [DataWr(w.req.id), DataWr(r2.id)]
  {
    SecondWriteAdmissible(o, w, r2, depth, xlate);
    var v1 := Run(o, w, xlate);
    var w2 := v1.(req := r2, qp := v1.qp.(recvDepth := depth));
    WriteQueuesData(o, w2, xlate);
    assert w2.qp.sends + [DataWr(r2.id)] == w.qp.sends + [DataWr(w.req.id), DataWr(r2.id)];
  }

  /** A keyed write that finds room ends the call transferring, its data WR queued last. */
  lemma WriteQueuesData(o: TransportOpts, w: World, xlate: Addr -> nat)
    requires KeyedCommand(o, w, OpcWrite) && w.qp.pendingRead == []
    requires w.qp.sendDepth < w.qp.maxSendDepth && w.qp.readDepth < w.qp.maxReadDepth
    ensures Run(o, w, xlate).req.state == TransferringHostToController
    ensures Run(o, w, xlate).qp.sends == w.qp.sends + [DataWr(w.req.id)]
  {
    WriteNewToH2C(o, w, xlate);
  }

  /** After the first write, the second finds its buffers, an empty pending read queue and room in both depths. */
  lemma SecondWriteAdmissible(o: TransportOpts, w: World, r2: Req, depth: nat, xlate: Addr -> nat)
    requires KeyedCommand(o, w, OpcWrite) && w.qp.pendingRead == []
    requires w.qp.sendDepth + 2 <= w.qp.maxSendDepth && w.qp.readDepth + 2 <= w.qp.maxReadDepth
    requires Shaped(r2) && r2.state == New && r2.recv.Some? && r2.pooledWrs == [] && !r2.dataFromPool
    requires depth > 0
    requires r2.recv.value.cmd.opc == OpcWrite && r2.recv.value.cmd.sgl1.length > 0 && KeyedFits(o, r2.recv.value.cmd.sgl1, w.bufs)
    requires BuffersFor(o, w) + CeilDiv(r2.recv.value.cmd.sgl1.length, o.ioUnitSize) <= |w.bufs.cache| + |w.bufs.pool|
    ensures var v1 := Run(o, w, xlate); var w2 := v1.(req := r2, qp := v1.qp.(recvDepth := depth));
      && v1.req.state == TransferringHostToController && v1.qp.sends == w.qp.sends + [DataWr(w.req.id)]
      && KeyedCommand(o, w2, OpcWrite) && w2.qp.pendingRead == []
      && w2.qp.sendDepth < w2.qp.maxSendDepth && w2.qp.readDepth < w2.qp.maxReadDepth
  {
    WriteNewToH2C(o, w, xlate);
  }

  /**
   * READY_TO_COMPLETE ends the call: request_transfer_out reposts the receive and queues
   * the response, preceded by the data chain for a successful controller-to-host transfer,
   * and the request waits for those sends to complete.
   */
  lemma ReadyToCompleteRun(o: TransportOpts, w: World, xlate: Addr -> nat)
    requires WorldOk(o, w) && w.req.state == ReadyToComplete
    ensures Run(o, w, xlate) == StepReadyToComplete(w)
  {
    var v := StepReadyToComplete(w);
    assert Step(o, w, xlate) == v;
    assert Step(o, v, xlate) == v;
  }

  /**
   * request_transfer_out: the receive is reposted and dropped, the response is queued,
   * preceded by the data chain for a successful controller-to-host transfer, the send
   * depth counts what was queued, and the request then waits for those sends.
   */
  lemma TransferOut(w: World)
    requires w.req.recv.Some? && w.qp.recvDepth > 0
    ensures var v := StepReadyToComplete(w); var r := w.req;
      var posted := r.status == ScSuccess && r.xfer == ControllerToHost;
      && v.req.state == (if posted then TransferringControllerToHost else Completing)
      && v.req.recv == None && v.req.status == r.status
      && v.qp.sends == w.qp.sends + (if posted then LinkedFromData(r) else [RspWr(r.id)])
      && v.res.recvs == w.res.recvs + [r.recv.value.id] && v.res.freeQueue == w.res.freeQueue
      && v.qp.recvDepth == w.qp.recvDepth - 1
      && v.qp.sendDepth == w.qp.sendDepth + (if posted then r.outstandingDataWr else 0) + 1
      && v.qp.pendingWrite == w.qp.pendingWrite && v.qp.pendingRead == w.qp.pendingRead
      && v.bufs == w.bufs && v.wrPool == w.wrPool && v.pendingBuf == w.pendingBuf
  {
  }

  /**
   * Test 1 of the request-process scenarios, second call: an executed read with pooled data
   * goes to TRANSFERRING_CONTROLLER_TO_HOST. The receive is reposted and dropped, and
   * sends_to_post gains data.wr, the borrowed data WRs and last the response WR.
   */
  lemma ReadExecutedToC2H(o: TransportOpts, w: World, xlate: Addr -> nat)
    requires WorldOk(o, w) && w.req.state == Executed && w.req.xfer == ControllerToHost
    requires w.req.status == ScSuccess && w.req.dataFromPool && w.qp.pendingWrite == []
    requires w.qp.sendDepth + w.req.outstandingDataWr + 1 <= w.qp.maxSendDepth
    ensures var v := Run(o, w, xlate); var r := w.req;
      && Progress(o, w, xlate)
      && v.req.state == TransferringControllerToHost && v.req.recv == None
      && v.qp.sends == w.qp.sends + [DataWr(r.id)] + PooledRefs(r.pooledWrs) + [RspWr(r.id)]
      && v.res.recvs == w.res.recvs + [r.recv.value.id] && v.res.freeQueue == w.res.freeQueue
      && v.qp.recvDepth == w.qp.recvDepth - 1
      && v.qp.sendDepth == w.qp.sendDepth + r.outstandingDataWr + 1
      && v.qp.pendingWrite == [] && v.bufs == w.bufs && v.wrPool == w.wrPool
  {    var r := w.req;
    ExecutedReadRun(o, w, xlate);
    var w2 := w.(req := r.(state := ReadyToComplete));
    TransferOut(w2);
    assert LinkedFromData(w2.req) == [DataWr(r.id)] + PooledRefs(r.pooledWrs) + [RspWr(r.id)];
  }

  /** An executed read that passes the pending write queue and the send depth check is transferred out. */
  lemma ExecutedReadRun(o: TransportOpts, w: World, xlate: Addr -> nat)
    requires WorldOk(o, w) && w.req.state == Executed && w.req.xfer == ControllerToHost
    requires w.qp.pendingWrite == [] && w.qp.sendDepth + w.req.outstandingDataWr + 1 <= w.qp.maxSendDepth
    ensures Run(o, w, xlate) == StepReadyToComplete(w.(req := w.req.(state := ReadyToComplete)))
  {
    var r := w.req;
    var w1 := w.(qp := w.qp.(pendingWrite := [r.id]), req := r.(state := DataTransferToHostPending));
    assert Step(o, w, xlate) == w1;
    RunThrough(o, w, xlate);
    var w2 := w1.(qp := w1.qp.(pendingWrite := []), req := w1.req.(state := ReadyToComplete));
    assert Step(o, w1, xlate) == w2;
    RunThrough(o, w1, xlate);
    assert w2 == w.(req := r.(state := ReadyToComplete));
    ReadyToCompleteRun(o, w2, xlate);
  }

  /**
   * Tests 2 and 3 of the request-process scenarios, completion of a write: an executed
   * request that does not return data goes to COMPLETING. The receive is reposted and
   * dropped, and the response WR alone goes to the end of sends_to_post.
   */
  lemma ExecutedToCompleting(o: TransportOpts, w: World, xlate: Addr -> nat)
    requires WorldOk(o, w) && w.req.state == Executed && w.req.xfer != ControllerToHost
    ensures var v := Run(o, w, xlate); var r := w.req;
      && Progress(o, w, xlate)
      && v.req.state == Completing && v.req.recv == None
      && v.qp.sends == w.qp.sends + [RspWr(r.id)]
      && v.res.recvs == w.res.recvs + [r.recv.value.id] && v.res.freeQueue == w.res.freeQueue
      && v.qp.recvDepth == w.qp.recvDepth - 1 && v.qp.sendDepth == w.qp.sendDepth + 1
      && v.bufs == w.bufs && v.wrPool == w.wrPool
  {    var w1 := w.(req := w.req.(state := ReadyToComplete));
    assert Step(o, w, xlate) == w1;
    RunThrough(o, w, xlate);
    ReadyToCompleteRun(o, w1, xlate);
    TransferOut(w1);
  }

  /** Tests 2 and 3 of the request-process scenarios: READY_TO_EXECUTE goes to EXECUTING and stops there. */
  lemma ReadyToExecuteToExecuting(o: TransportOpts, w: World, xlate: Addr -> nat)
    requires WorldOk(o, w) && w.req.state == ReadyToExecute
    ensures Progress(o, w, xlate) && Run(o, w, xlate) == w.(req := w.req.(state := Executing))
  {
    var w1 := w.(req := w.req.(state := Executing));
    assert Step(o, w1, xlate) == w1;
  }

  /**
   * The last call of each request-process scenario: COMPLETED goes to FREE. The request
   * holds no data any more, its data WR has no elements, its borrowed data WRs are back at
   * the end of the WR pool, it is at the head of the free queue, and the cache and the pool
   * hold every buffer they had plus those the request held.
   */
  lemma CompletedToFree(o: TransportOpts, w: World, xlate: Addr -> nat)
    requires Accountable(o, w) && w.req.state == Completed
    ensures var v := Run(o, w, xlate);
      && Progress(o, w, xlate)
      && v.req.state == Free && !v.req.dataFromPool && v.req.data == 0
      && v.req.length == 0 && v.req.iovcnt == 0 && v.req.outstandingDataWr == 0
      && v.req.pooledWrs == [] && v.req.wrs == [w.req.wrs[0].(sgList := [])]
      && (w.req.dataFromPool ==> forall i :: 0 <= i < w.req.iovcnt ==> v.req.buffers[i] == 0)
      && v.wrPool == w.wrPool + w.req.pooledWrs
      && v.res.freeQueue == [w.req.id] + w.res.freeQueue && v.res.recvs == w.res.recvs
      && v.qp == w.qp && v.poller == w.poller
      && Owned(v.bufs) == Owned(w.bufs) + Held(w.req) && CacheBounded(v.bufs)
  {
    var v := StepCompleted(w);
    CompletedConserves(o, w);
    assert Step(o, w, xlate) == v;
    assert Step(o, v, xlate) == v;
  }

  /**
   * A keyed descriptor longer than max_io_size: the request goes from NEW to COMPLETING in
   * one call with an internal device error, taking no buffer, and only its response goes to
   * the end of sends_to_post.
   */
  lemma TooLongCompletesWithError(o: TransportOpts, w: World, xlate: Addr -> nat)
    requires Accountable(o, w) && w.req.state == New && w.pendingBuf == []
    requires var sgl := w.req.recv.value.cmd.sgl1;
      GetXfer(w.req.recv.value.cmd) != XferNone && IsKeyed(sgl) && sgl.length > o.maxIoSize
    ensures var v := Run(o, w, xlate);
      && Progress(o, w, xlate)
      && v.req.state == Completing && v.req.status == ScInternalDeviceError && v.req.recv == None
      && v.qp.sends == w.qp.sends + [RspWr(w.req.id)]
      && v.res.recvs == w.res.recvs + [w.req.recv.value.id]
      && v.bufs == w.bufs && v.wrPool == w.wrPool && v.pendingBuf == []
  {    var w1 := StepNew(w);
    assert Step(o, w, xlate) == w1;
    RunThrough(o, w, xlate);
    KeyedFailsIffTooLong(o, w1.req, w1.bufs, w1.wrPool, xlate);
    var w2 := w1.(pendingBuf := [], req := w1.req.(status := ScInternalDeviceError, state := ReadyToComplete));
    assert Step(o, w1, xlate) == w2;
    RunThrough(o, w1, xlate);
    ReadyToCompleteRun(o, w2, xlate);
    TransferOut(w2);
  }

  /**
   * A keyed request when the cache and the pool cannot supply its buffers: it stays in
   * NEED_BUFFER at the head of the waiting queue, keeps no buffer and queues nothing, and
   * the call still reports progress (NEW was left).
   */
  lemma ShortOfBuffersWaits(o: TransportOpts, w: World, xlate: Addr -> nat)
    requires Accountable(o, w) && w.req.state == New && w.pendingBuf == [] && w.req.data == 0
    requires var sgl := w.req.recv.value.cmd.sgl1;
      && GetXfer(w.req.recv.value.cmd) != XferNone && IsKeyed(sgl) && sgl.length <= o.maxIoSize
      && CeilDiv(sgl.length, o.ioUnitSize) > |w.bufs.cache| + |w.bufs.pool|
    ensures var v := Run(o, w, xlate);
      && Progress(o, w, xlate)
      && v.req.state == NeedBuffer && v.pendingBuf == [w.req.id] && !v.req.dataFromPool
      && v.bufs == BufState(Reverse(w.bufs.cache), w.bufs.cacheSize, w.bufs.pool)
      && Owned(v.bufs) == Owned(w.bufs) && v.wrPool == w.wrPool
      && v.qp == w.qp && v.res == w.res && v.poller == w.poller
  {
    var w1 := StepNew(w);
    assert Step(o, w, xlate) == w1;
    RunThrough(o, w, xlate);
    ShortParse(o, w1, xlate);
    RunStops(o, w1, xlate);
  }

  /** A request as create_req builds it for a receive: NEW, holding nothing. */
  function CreatedReq(id: nat, recv: Recv): (r: Req)
    ensures Shaped(r) && r.state == New && r.recv == Some(recv) && r.pooledWrs == [] && !r.dataFromPool && r.data == 0
  {
    Req(id, New, Some(recv), recv.cmd, XferNone, ScSuccess, 0, false, 0, 0,
        NullBuffers(MaxBuffers), NullIovs(MaxBuffers), [SendWr([], 0, 0)], [], 0)
  }

  /**
   * The shortage can happen: with an empty cache and pool, a one-byte keyed READ as
   * create_recv builds it waits in NEED_BUFFER at the head of the waiting queue.
   */
  lemma ShortOfBuffersExample(xlate: Addr -> nat)
    ensures var o := TransportOpts(128, 4096, 65536, 4096, 32, 0);
      var cmd := Command(OpcRead, 0, SglDescriptor(SglTypeKeyedDataBlock, SglSubtypeAddress, 1, 0xFFFF, 0xEEEE));
      var w := World(CreatedReq(7, Recv(3, 0xDDDD, cmd, [])),
                     Qpair(1, [], 1, 0, 0, 16, 16, [], [], 0, 0, false),
                     Resources([], []), Poller([], []), [], BufState([], 0, []), []);
      var v := Run(o, w, xlate);
      v.req.state == NeedBuffer && v.pendingBuf == [7] && !v.req.dataFromPool && v.bufs == w.bufs
  {
    var o := TransportOpts(128, 4096, 65536, 4096, 32, 0);
    var cmd := Command(OpcRead, 0, SglDescriptor(SglTypeKeyedDataBlock, SglSubtypeAddress, 1, 0xFFFF, 0xEEEE));
    var w := World(CreatedReq(7, Recv(3, 0xDDDD, cmd, [])),
                   Qpair(1, [], 1, 0, 0, 16, 16, [], [], 0, 0, false),
                   Resources([], []), Poller([], []), [], BufState([], 0, []), []);
    ReadWriteDirections(cmd);
    assert CeilDiv(1, 4096) == 1;
    ShortOfBuffersWaits(o, w, xlate);
  }

  /** The parse at the head of the waiting queue when the buffers run short changes only the cache's order and the length. */
  lemma ShortParse(o: TransportOpts, w: World, xlate: Addr -> nat)
    requires Accountable(o, w) && w.req.state == NeedBuffer && w.pendingBuf == [w.req.id] && w.req.data == 0
    requires var sgl := w.req.cmd.sgl1;
      IsKeyed(sgl) && sgl.length <= o.maxIoSize && CeilDiv(sgl.length, o.ioUnitSize) > |w.bufs.cache| + |w.bufs.pool|
    ensures var v := Step(o, w, xlate);
      && v.req.state == NeedBuffer && v.pendingBuf == w.pendingBuf && !v.req.dataFromPool
      && v.bufs == BufState(Reverse(w.bufs.cache), w.bufs.cacheSize, w.bufs.pool)
      && Owned(v.bufs) == Owned(w.bufs) && v.wrPool == w.wrPool
      && v.qp == w.qp && v.res == w.res && v.poller == w.poller
  {
    KeyedNoBuffers(o, w.req, w.bufs, w.wrPool, xlate);
    TakeFailureLeaksNothing(w.bufs, CeilDiv(w.req.cmd.sgl1.length, o.ioUnitSize));
  }
}
