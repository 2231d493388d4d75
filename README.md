# NVMe-oF RDMA request data path

This project models the data path of SPDK's NVMe-over-Fabrics RDMA target and proves
properties of that model in Dafny. It covers four parts:

- **Buffer handling.** An NVMe-oF request takes data buffers from its poll group's buffer
  cache, and then from the transport's global data buffer pool. It gives them back
  afterwards. This is `spdk_nvmf_request_get_buffers` and `spdk_nvmf_request_free_buffers`.
- **SGL translation.** `spdk_nvmf_rdma_request_parse_sgl` reads an NVMe SGL descriptor and
  produces a request's buffers, iovecs and RDMA work requests. It accepts three descriptor
  forms, all from section 4.4 of the NVM Express Base Specification, revision 1.4:
  - a keyed data block with an address;
  - a data block with an offset into the in-capsule data;
  - a last segment whose descriptors are keyed data blocks.
- **The request state machine.** `spdk_nvmf_rdma_request_process` moves a request through
  its lifecycle, from NEW to FREE. On the way it queues work requests on the queue pair's
  `sends_to_post` batch, and receives on the shared `recvs_to_post` batch.
- **The cleared request.** `reset_nvmf_rdma_request` puts back the fields the SGL parser
  fills in.

Each part has two layers:

- **A specification on values.**
  - `BufPool.TakeBuffers` and `BufPool.ReleaseAll` describe the buffers.
  - `Sgl.ParseSpec` describes the parser.
  - `Proc.Step` is one pass of the state switch.
  - `Proc.Run` is the loop that repeats that pass while the state changes.
- **An imperative layer.** It uses classes whose fields the methods update in place:
  - the poll group's cache, and the transport's pools (`Buffers`);
  - the request, with its `buffers` and `iov` arrays (`Buffers.NvmfRequest`,
    `SglImpl.RdmaRequest`);
  - the queue pair, the shared resources and the poller (`ProcImpl`).

  Every method is proved to move its objects from a state to exactly the state that the
  specification function gives for it. Loops carry the invariants that do this.

The lemmas then state what the system promises, in terms of the specification functions:
no buffer or work request is lost, chunks have the right sizes, errors fail in the right
cases, the lifecycle only moves forward, and the read, write and batching scenarios behave
as stated.

Modules, one per file:

- `NvmfTypes` (types.dfy): the shared data types.
- `Chunks` (chunks.dfy): the arithmetic.
- `BufPool` (bufpool.dfy): the cache and pool on values.
- `Buffers` (bufimpl.dfy): get and free buffers on objects.
- `Sgl` (sglmodel.dfy): the parser on values.
- `SglProps` (sglprops.dfy): the parser's properties.
- `SglImpl` (sglimpl.dfy): the parser on objects.
- `Proc` (procmodel.dfy): the state machine on values.
- `ProcProps` (procprops.dfy): the state machine's invariants.
- `ProcScenarios` (procscenarios.dfy): the test scenarios.
- `ProcImpl` (procimpl.dfy): the state machine on objects.

The get and free routines are modelled from their code in the test file. Two other files,
nvmf/rdma.c and lib/nvmf/transport.c, are not part of this model. The behaviour of
`parse_sgl` and `request_process` therefore comes from what the unit test asserts about
them, completed with the SPDK behaviour those asserts imply. Each such choice is listed
under "Left out" or described in the member's comment.

`free_buffers` as the code writes it always clears `data_from_pool` at the end
(rdma_ut.c:100). That includes the case where `get_buffers` rolls back after a failed bulk
get. A reading of get_buffers that leaves the request unchanged on failure would disagree
with this. The model follows the code: `Buffers.GetBuffers` ensures `!req.dataFromPool`
on the `-ENOMEM` path.

## Model

| member | source | states |
|---|---|---|
| Buffers.PollGroup.constructor | test/unit/lib/nvmf/rdma.c/rdma_ut.c:182-185 | A new poll group has an empty buffer cache of the given capacity, with the count at 0, and no requests waiting for buffers. |
| Buffers.Transport.constructor | test/unit/lib/nvmf/rdma.c/rdma_ut.c:597-600 | A transport starts with the given options, data buffer pool and data WR pool. |
| Buffers.NvmfRequest.constructor | test/unit/lib/nvmf/rdma.c/rdma_ut.c:143-162 | A new request has fresh buffers[] and iov[] arrays of NVMF_REQ_MAX_BUFFERS slots, all NULL and zero, with no data and no pooled buffers. |
| Buffers.Transport.GetBulk | test/unit/lib/nvmf/rdma.c/rdma_ut.c:116-122 | spdk_mempool_get_bulk either hands out exactly the first n pool buffers into dst[off..off+n] or fails, and then leaves both pool and array untouched; slots outside the range never change. |
| Buffers.Transport.Put | test/unit/lib/nvmf/rdma.c/rdma_ut.c:93-95 | spdk_mempool_put returns one buffer to the pool. |
| Buffers.Transport.GetWrs | test/unit/lib/nvmf/rdma.c/rdma_ut.c:304-334 | Borrowing n data work requests succeeds exactly when the WR pool holds n, and then hands out the first n. |
| Buffers.Transport.PutWrs | test/unit/lib/nvmf/rdma.c/rdma_ut.c:304-396 | When a last segment runs short of buffers, the borrowed data work requests go back to the end of the WR pool, in order. |
| Buffers.Transport.PutWr | test/unit/lib/nvmf/rdma.c/rdma_ut.c:626-630 | free_data returns one borrowed data work request at a time to the end of the WR pool. |
| Buffers.ReleaseBuffer | test/unit/lib/nvmf/rdma.c/rdma_ut.c:87-95 | One buffer goes to the head of the cache while the cache is under capacity, otherwise to the pool; the cache never grows past its capacity. |
| Buffers.FreeBuffers | test/unit/lib/nvmf/rdma.c/rdma_ut.c:79-101 | Releasing num buffers leaves the cache and pool as releasing them one by one in order would. It clears buffers[i] and iov[i] for i < num and nothing else, clears data_from_pool, and keeps the cache within capacity. |
| Buffers.GetBuffers | test/unit/lib/nvmf/rdma.c/rdma_ut.c:103-131 | The cache and pool end as TakeBuffers says. rc is 0 exactly when the cache plus the pool hold num buffers, and the request's first num slots are then the taken buffers. Otherwise rc is -ENOMEM: every buffer taken from the cache is released again, its slots are cleared and data_from_pool is false. |
| Buffers.GetRestOrRelease | test/unit/lib/nvmf/rdma.c/rdma_ut.c:116-130 | With the cache drained, the bulk get of the remaining num - i buffers succeeds exactly when the pool holds them. On failure, the i buffers already taken are released through free_buffers. |
| BufPool.Release | test/unit/lib/nvmf/rdma.c/rdma_ut.c:87-95 | One release keeps the capacity, adds one buffer to what the cache and pool hold together, and keeps a bounded cache within capacity. |
| BufPool.ReleaseAll | test/unit/lib/nvmf/rdma.c/rdma_ut.c:86-99 | free_buffers over a list keeps the cache capacity; what it owns afterwards is BufPool.ReleaseAllKeepsBuffers and where each buffer lands is BufPool.ReleaseAllShape. |
| BufPool.TakeBuffers | test/unit/lib/nvmf/rdma.c/rdma_ut.c:103-131 | The take succeeds exactly when cache plus pool hold num buffers, and then yields num buffers; on failure what was taken was the whole cache, which was shorter than num. |
| BufPool.TakeSuccess | test/unit/lib/nvmf/rdma.c/rdma_ut.c:111-123 | A successful take draws from the cache head in insertion order first and then takes the next num - k buffers off the pool head. No buffer is lost: what is left plus what was taken is what there was. |
| BufPool.TakeFromCacheOnly | test/unit/lib/nvmf/rdma.c/rdma_ut.c:410-433 | When the cache holds num buffers, the first num cached buffers are taken and the pool is not touched. |
| BufPool.TakeFailureLeaksNothing | test/unit/lib/nvmf/rdma.c/rdma_ut.c:118-120 | A failed take puts every buffer it took from the cache back, in reverse order. It owns the same buffers as before and the cache stays within capacity. |
| BufPool.ReleaseAllKeepsBuffers | test/unit/lib/nvmf/rdma.c/rdma_ut.c:86-99 | free_buffers adds exactly the released buffers to what the cache and pool own. It keeps the capacity and keeps the cache within it. |
| BufPool.ReleaseKeepsBuffers | test/unit/lib/nvmf/rdma.c/rdma_ut.c:87-95 | One release adds exactly that buffer and keeps the cache within capacity. |
| BufPool.ReleaseAllShape | test/unit/lib/nvmf/rdma.c/rdma_ut.c:86-99 | Releasing xs fills the free room of the cache with the first xs, stacked head-first, and appends the rest to the pool. |
| BufPool.ReverseKeepsElements | test/unit/lib/nvmf/rdma.c/rdma_ut.c:87-92 | Stacking buffers at the cache head keeps the same buffers. |
| Chunks.ChunkLensCount | test/unit/lib/nvmf/rdma.c/rdma_ut.c:231-247 | A length is split into ceil(length / io_unit_size) chunks. |
| Chunks.ChunkLensShape | test/unit/lib/nvmf/rdma.c/rdma_ut.c:212-247 | The chunks add up to the length; each is non-empty and at most io_unit_size; all but the last are exactly io_unit_size; the last holds what remains. |
| Chunks.LastChunkIsRemainder | test/unit/lib/nvmf/rdma.c/rdma_ut.c:212-229 | The last chunk is length mod io_unit_size, or a whole unit when the length divides evenly. |
| Chunks.ChunksWithinMax | test/unit/lib/nvmf/rdma.c/rdma_ut.c:42-52 | A length within max_io_size needs at most max_io_size / io_unit_size chunks, which is at most SPDK_NVMF_MAX_SGL_ENTRIES (16). |
| Chunks.AlignUpAligned | test/unit/lib/nvmf/rdma.c/rdma_ut.c:226-227 | (addr + MASK) & ~MASK is 4 KiB aligned, and leaves an aligned address unchanged. |
| Chunks.AlignUpBounds | test/unit/lib/nvmf/rdma.c/rdma_ut.c:226-227 | Aligning up moves a buffer address forward by less than 4 KiB (below the top page of the address space). |
| NvmfTypes.ReadWriteDirections | test/unit/lib/nvmf/rdma.c/rdma_ut.c:611-647 | With a keyed descriptor, a READ moves data controller to host and a WRITE host to controller, and a descriptor of length 0 moves nothing; these are the directions the READ and WRITE tests assert. |
| Sgl.Reset | test/unit/lib/nvmf/rdma.c/rdma_ut.c:143-162 | reset_nvmf_rdma_request leaves a cleared request that clears the first 16 buffers and iovecs, data, length, data_from_pool and data.wr's SGEs and rkey/address, and keeps everything else. |
| Sgl.FreedBuffers | test/unit/lib/nvmf/rdma.c/rdma_ut.c:96-100 | After free_buffers the first k buffers and iovecs are NULL and zero, the rest are unchanged, and data_from_pool is false. |
| Sgl.ElementsAligned | test/unit/lib/nvmf/rdma.c/rdma_ut.c:222-228 | For pooled buffers, each iovec and SGE address is 4 KiB aligned and lies in its buffer, less than 4 KiB past its start (below the top page). Each carries its chunk length, and each SGE carries the lkey of its address. |
| Sgl.DescChunks | test/unit/lib/nvmf/rdma.c/rdma_ut.c:362-396 | The chunk lengths of a whole last segment number exactly the sum of the per-descriptor chunk counts. |
| Sgl.MultiWrs | test/unit/lib/nvmf/rdma.c/rdma_ut.c:311-334 | A last segment gives one data work request per descriptor. |
| Sgl.ParseKeyed | test/unit/lib/nvmf/rdma.c/rdma_ut.c:208-270 | A keyed data block fails with -1 exactly when its length exceeds max_io_size, and then changes nothing. It never touches the WR pool. On 0 the length is recorded and nothing is borrowed. When buffers were taken, iovcnt is ceil(length / io_unit_size), at most 16, with one data WR carrying the descriptor key and address. |
| Sgl.ParseInCapsule | test/unit/lib/nvmf/rdma.c/rdma_ut.c:273-302 | An in-capsule data block succeeds exactly when offset + length fits in_capsule_data_size, and on -1 changes nothing. Cache, pool and WR pool are never touched. On 0, data is the receive buffer plus the offset, with one iovec of the length and no pooled data or data WR. |
| Sgl.ParseMulti | test/unit/lib/nvmf/rdma.c/rdma_ut.c:304-396 | A last segment returns 0 or -1. On -1 nothing changes. On 0 it has between 1 and 16 descriptors. The full outcome is SglProps.MultiFailsIff, SglProps.MultiSuccess, SglProps.MultiNoWorkRequests and SglProps.MultiNoBuffers. |
| Sgl.MultiAllocate | test/unit/lib/nvmf/rdma.c/rdma_ut.c:311-396 | Allocation for validated descriptors always returns 0. The request borrows either no WR, or exactly the first n - 1 WRs of the pool. |
| Sgl.ParseSpec | test/unit/lib/nvmf/rdma.c/rdma_ut.c:164-485 | The parse returns 0 or -1. On -1 nothing changes, neither the request nor the cache, pool or WR pool. The request keeps its identity, state, receive, command, direction and status. |
| Sgl.TotalLengthBounds | test/unit/lib/nvmf/rdma.c/rdma_ut.c:304-396 | No single descriptor is longer than the segment's total length. |
| Sgl.NumBuffersWithinMax | test/unit/lib/nvmf/rdma.c/rdma_ut.c:362-396 | At most 16 descriptors within max_io_size never need more than NVMF_REQ_MAX_BUFFERS buffers, and no descriptor needs more than 16. |
| SglProps.KeyedSuccess | test/unit/lib/nvmf/rdma.c/rdma_ut.c:212-247 | A keyed SGL within max_io_size, with enough buffers, returns 0 with data_from_pool set, length copied and iovcnt = ceil(length/io_unit_size) SGEs. The SGEs are all io_unit_size except a remainder last. The single WR carries the SGL's rkey and address, its SGEs point at the aligned buffers with their lkeys, and data is the first iovec. |
| SglProps.KeyedFailsIffTooLong | test/unit/lib/nvmf/rdma.c/rdma_ut.c:249-254 | A keyed SGL fails with -1 exactly when its length exceeds max_io_size. |
| SglProps.KeyedNoBuffers | test/unit/lib/nvmf/rdma.c/rdma_ut.c:256-270 | With too few buffers, a keyed SGL still returns 0 but holds nothing: data_from_pool stays false, data, WR and buffer[0] stay NULL and zero on a cleared request, and the cache gets back what was drained. |
| SglProps.InCapsule | test/unit/lib/nvmf/rdma.c/rdma_ut.c:273-302 | An in-capsule SGL succeeds exactly when offset + length fits in_capsule_data_size. Then data is the receive buffer plus the offset, with a single iovec, and no buffer or WR is taken. |
| SglProps.UnsupportedFails | test/unit/lib/nvmf/rdma.c/rdma_ut.c:164-485 | Any other descriptor type or subtype fails with -1 and changes nothing. |
| SglProps.MultiFailsIff | test/unit/lib/nvmf/rdma.c/rdma_ut.c:304-396 | A last segment fails exactly when it holds no descriptor, more than 16, more than the receive carries, one not keyed, or more than max_io_size in total. |
| SglProps.MultiNoWorkRequests | test/unit/lib/nvmf/rdma.c/rdma_ut.c:304-396 | With too few data WRs in the pool, a valid last segment returns 0 and changes nothing. |
| SglProps.MultiNoBuffers | test/unit/lib/nvmf/rdma.c/rdma_ut.c:304-396 | With too few buffers, a valid last segment returns 0 and holds no data and no borrowed WR. The WR pool keeps the same WRs and the cache gets back what was drained. |
| SglProps.MultiSuccess | test/unit/lib/nvmf/rdma.c/rdma_ut.c:311-360 | A valid last segment with enough resources returns 0. length is the sum of the descriptor lengths. There is one WR per descriptor, in order, each with that descriptor's rkey, address and chunked SGEs, and n - 1 WRs are borrowed from the pool head. The buffers come from the take and the iovecs point at them aligned. |
| SglProps.ShortTailNotPacked | test/unit/lib/nvmf/rdma.c/rdma_ut.c:362-396 | Descriptors of 15.5 and 0.5 units give iovcnt 17. The first WR has 16 SGEs, 15 full and one half; the second has one half SGE. The short tail is never packed with the next descriptor. |
| SglProps.WrElementLengths | test/unit/lib/nvmf/rdma.c/rdma_ut.c:336-360 | Each descriptor's WR has exactly that descriptor's chunk lengths. |
| SglProps.HalfUnitChunks | test/unit/lib/nvmf/rdma.c/rdma_ut.c:362-396 | 15.5 units split into 15 full chunks and one half; half a unit is one chunk. |
| SglProps.ParseConserves | test/unit/lib/nvmf/rdma.c/rdma_ut.c:164-485 | The parse neither loses nor invents a buffer or data WR: the cache and pool gain exactly what the request no longer holds. The cache stays within capacity. |
| SglProps.KeyedConserves | test/unit/lib/nvmf/rdma.c/rdma_ut.c:208-270 | Buffer and WR conservation for keyed SGLs. |
| SglProps.MultiConserves | test/unit/lib/nvmf/rdma.c/rdma_ut.c:304-396 | Buffer and WR conservation for last segments. |
| SglImpl.RdmaRequest.constructor | test/unit/lib/nvmf/rdma.c/rdma_ut.c:516-534 | A new RDMA request is FREE, holds no receive, no borrowed WRs and no data, and is cleared. |
| SglImpl.FillBuffers | test/unit/lib/nvmf/rdma.c/rdma_ut.c:212-247 | Filling from iovcnt onwards writes one aligned iovec per chunk into exactly those slots and returns the matching SGEs; iovcnt grows by the chunk count. |
| SglImpl.FillLoop | test/unit/lib/nvmf/rdma.c/rdma_ut.c:231-247 | The loop over chunks writes iov[s + k] as buffer s + k aligned, with chunk k's length, and returns those SGEs. Iovecs outside the range are unchanged. |
| SglImpl.FillChunk | test/unit/lib/nvmf/rdma.c/rdma_ut.c:231-247 | One turn of the fill loop sets exactly one iovec and extends the SGEs by one. |
| SglImpl.ParseKeyedBlock | test/unit/lib/nvmf/rdma.c/rdma_ut.c:208-270 | The keyed-address path leaves request, cache, pool and WR pool, with its rc, exactly as Sgl.ParseKeyed gives them: -1 when too long, otherwise the chunked buffers, iovecs and single WR, or nothing held when buffers are short. |
| SglImpl.TakeForRequest | test/unit/lib/nvmf/rdma.c/rdma_ut.c:103-131 | get_buffers on a request changes only its buffers (or clears them on failure), as TakeBuffers says. |
| SglImpl.KeyedFill | test/unit/lib/nvmf/rdma.c/rdma_ut.c:212-247 | After buffers are taken, a keyed SGL gets aligned iovecs, a single WR with the SGL's key and address, data at the first iovec, and data_from_pool set. |
| SglImpl.ParseInCapsuleBlock | test/unit/lib/nvmf/rdma.c/rdma_ut.c:273-302 | The in-capsule path points data into the receive buffer at the offset when it fits in_capsule_data_size, and fails otherwise, exactly as Sgl.ParseInCapsule gives it. |
| SglImpl.CountBuffers | test/unit/lib/nvmf/rdma.c/rdma_ut.c:362-396 | The loop counting the buffers of a last segment gives the sum of the per-descriptor chunk counts. |
| SglImpl.FillDescriptors | test/unit/lib/nvmf/rdma.c/rdma_ut.c:311-396 | The loop over descriptors fills the first NumBuffers iovecs and builds one WR per descriptor. Length ends as the total, and the iovecs past the filled ones are unchanged. |
| SglImpl.FillDescriptor | test/unit/lib/nvmf/rdma.c/rdma_ut.c:311-396 | One iteration over a descriptor extends the iovecs, the length and the WR list by that descriptor, and keeps the loop invariant. |
| SglImpl.ParseLastSegment | test/unit/lib/nvmf/rdma.c/rdma_ut.c:304-396 | The last-segment path leaves request, cache, pool and WR pool exactly as Sgl.ParseMulti gives them, including each failure case. |
| SglImpl.LastSegmentAllocate | test/unit/lib/nvmf/rdma.c/rdma_ut.c:304-396 | Borrowing n - 1 WRs, then taking the buffers and filling them, gives exactly Sgl.MultiAllocate, including handing back the WRs when buffers are short. |
| SglImpl.ClearDataWr | test/unit/lib/nvmf/rdma.c/rdma_ut.c:256-270 | Dropping the data WR's elements leaves a request with no outstanding data WRs. |
| SglImpl.MultiFill | test/unit/lib/nvmf/rdma.c/rdma_ut.c:311-396 | After buffers are taken, a last segment gets aligned iovecs, one WR per descriptor, the borrowed WRs, the total length, and data_from_pool set. |
| SglImpl.ParseSgl | test/unit/lib/nvmf/rdma.c/rdma_ut.c:164-485 | spdk_nvmf_rdma_request_parse_sgl on objects leaves rc, the request, the cache, the pool and the WR pool exactly as ParseSpec gives them. |
| Proc.PooledRefs | test/unit/lib/nvmf/rdma.c/rdma_ut.c:311-334 | The borrowed WRs appear in the send chain in their chain order. |
| Proc.LinkedFromData | test/unit/lib/nvmf/rdma.c/rdma_ut.c:616-625 | The chain reached from data.wr starts with data.wr, continues with borrowed WRs, and ends with rsp.wr exactly when the request filled pooled buffers for a controller-to-host transfer: the first and last the READ test asserts. |
| Proc.QueueSends | test/unit/lib/nvmf/rdma.c/rdma_ut.c:637-647 | Queuing a chain appends it to sends_to_post and changes nothing else. The queue pair joins the poller's pending-send list only on the first queued send. |
| Proc.QueueRecv | test/unit/lib/nvmf/rdma.c/rdma_ut.c:616-625 | Reposting a receive appends it to recvs_to_post. The queue pair (without an SRQ) joins the pending-receive list only on the first queued receive. |
| Proc.StepNew | test/unit/lib/nvmf/rdma.c/rdma_ut.c:611-615 | NEW takes the command from the receive, zeroes the status and computes the direction. With no data it is READY_TO_EXECUTE, otherwise NEED_BUFFER and appended to the waiting queue. Queue pair, resources, poller, buffers and WR pool are untouched. |
| Proc.AfterParse | test/unit/lib/nvmf/rdma.c/rdma_ut.c:611-615 | After the parse, the request leaves the waiting queue or nothing changes. A parse error completes it with INTERNAL_DEVICE_ERROR in READY_TO_COMPLETE. NULL data leaves everything as it was. Only the status and state of the request change, and resources, poller, buffers and WR pool are untouched. |
| Proc.StepNeedBuffer | test/unit/lib/nvmf/rdma.c/rdma_ut.c:611-615 | Only the head of the waiting queue parses; any other request changes nothing. Resources, poller and the send batch are untouched. |
| Proc.TransferIn | test/unit/lib/nvmf/rdma.c/rdma_ut.c:641-647 | request_transfer_in appends the data chain to sends_to_post, grows both the send and the read depth by the data WRs, and sets TRANSFERRING_HOST_TO_CONTROLLER, changing no buffer, WR pool or waiting queue. |
| Proc.StepToControllerPending | test/unit/lib/nvmf/rdma.c/rdma_ut.c:641-647 | Nothing changes unless the request heads the pending-read queue; then it leaves that queue, is TRANSFERRING_HOST_TO_CONTROLLER, and both depths stay within their unchanged maxima. |
| Proc.StepExecuted | test/unit/lib/nvmf/rdma.c/rdma_ut.c:616-620 | EXECUTED: a controller-to-host request joins the end of the pending-write queue in DATA_TRANSFER_TO_HOST_PENDING; anything else becomes READY_TO_COMPLETE; nothing else changes. |
| Proc.StepToHostPending | test/unit/lib/nvmf/rdma.c/rdma_ut.c:616-625 | Nothing changes unless the request heads the pending-write queue; then it leaves that queue in READY_TO_COMPLETE, with its data WRs and response within the send depth. |
| Proc.RepostRecv | test/unit/lib/nvmf/rdma.c/rdma_ut.c:621-625 | The receive is appended to recvs_to_post and dropped from the request and from current_recv_depth. sq_head stays within sq_head_max. Nothing else of the queue pair, and no buffer or WR pool, changes. |
| Proc.QueueResponse | test/unit/lib/nvmf/rdma.c/rdma_ut.c:655-664 | sends_to_post only grows. Only the request state changes: TRANSFERRING_CONTROLLER_TO_HOST for a successful controller-to-host transfer, else COMPLETING, and then exactly rsp.wr is queued. |
| Proc.StepReadyToComplete | test/unit/lib/nvmf/rdma.c/rdma_ut.c:616-664 | READY_TO_COMPLETE drops the receive and reposts it and lowers current_recv_depth. It only appends sends, and ends TRANSFERRING_CONTROLLER_TO_HOST or COMPLETING. Buffers, WR pool and waiting queue are untouched. |
| Proc.ReleaseBuffers | test/unit/lib/nvmf/rdma.c/rdma_ut.c:626-630 | After release the request holds no pooled data; a request without pooled data is left as it was; WR pool, borrowed WRs, queue pair and resources are untouched. |
| Proc.FreeData | test/unit/lib/nvmf/rdma.c/rdma_ut.c:626-630 | free_data leaves no borrowed and no outstanding data WR, and the WR pool gains exactly the borrowed WRs; buffers, queue pair and resources are untouched. |
| Proc.StepCompleted | test/unit/lib/nvmf/rdma.c/rdma_ut.c:626-630 | COMPLETED ends FREE at the head of the free queue with no pooled data, no borrowed WRs and zero length, iovcnt and data. The WR pool gains exactly the borrowed WRs, buffers are untouched without pooled data, and queue pair and poller are unchanged. Buffer conservation is ProcProps.CompletedConserves. |
| Proc.Step | test/unit/lib/nvmf/rdma.c/rdma_ut.c:574-752 | One pass keeps the request and queue pair identity. It leaves the state as it was or moves it strictly forward along the lifecycle, keeping every fact the next pass needs. |
| Proc.NeedBufferOutcome | test/unit/lib/nvmf/rdma.c/rdma_ut.c:611-615 | A NEED_BUFFER pass either changes nothing or installs what the parse produced, up to status and state. |
| Proc.Run | test/unit/lib/nvmf/rdma.c/rdma_ut.c:574-752 | request_process keeps the request and queue pair, never moves the state backwards, and keeps the request shaped. That progress matches a state change is ProcProps.RunMovesForward, and conservation is ProcProps.RunConserves. |
| ProcProps.RunMovesForward | test/unit/lib/nvmf/rdma.c/rdma_ut.c:574-752 | request_process keeps request and queue pair and never moves the state backwards. It reports progress exactly when the state moved forward. |
| ProcProps.StepAppends | test/unit/lib/nvmf/rdma.c/rdma_ut.c:676-699 | One pass only appends to sends_to_post and recvs_to_post. |
| ProcProps.RunAppends | test/unit/lib/nvmf/rdma.c/rdma_ut.c:676-699 | What was already batched stays, first to last, ahead of what request_process adds. |
| ProcProps.StepConserves | test/unit/lib/nvmf/rdma.c/rdma_ut.c:574-752 | One pass keeps every buffer and data WR between cache, pool, WR pool and request, keeps the cache within capacity, and keeps the request accountable when the state moves. |
| ProcProps.RunConserves | test/unit/lib/nvmf/rdma.c/rdma_ut.c:574-752 | From NEW to FREE no buffer and no data WR is lost or invented, and the cache stays within its capacity. |
| ProcProps.CompletedConserves | test/unit/lib/nvmf/rdma.c/rdma_ut.c:626-630 | Freeing a completed request returns exactly what it held. |
| ProcProps.NeedBufferConserves | test/unit/lib/nvmf/rdma.c/rdma_ut.c:611-615 | The buffer-allocating pass returns exactly what the request does not take. |
| ProcScenarios.KeyedParseAdmits | test/unit/lib/nvmf/rdma.c/rdma_ut.c:487-507 | The one-byte keyed SGL of the tests, with buffers available, parses with non-NULL data, one data WR and the buffers taken. |
| ProcScenarios.CommandDirection | test/unit/lib/nvmf/rdma.c/rdma_ut.c:487-507 | A new request built by create_recv and create_req for READ (or WRITE), with its non-empty keyed descriptor, transfers controller to host (or host to controller). |
| ProcScenarios.ReadNewToExecuting | test/unit/lib/nvmf/rdma.c/rdma_ut.c:611-615 | A new READ command with a non-empty keyed descriptor goes from NEW to EXECUTING with progress. Its direction, derived from the opcode, is controller to host and it holds its pooled buffers and one data WR. No send or receive is queued. |
| ProcScenarios.ReadRun | test/unit/lib/nvmf/rdma.c/rdma_ut.c:611-615 | request_process on a new READ command with a non-empty keyed descriptor is exactly "admit it, then EXECUTING". |
| ProcScenarios.WriteNewToH2C | test/unit/lib/nvmf/rdma.c/rdma_ut.c:641-647 | A new WRITE command with a non-empty keyed descriptor goes from NEW to TRANSFERRING_HOST_TO_CONTROLLER with progress; its direction, derived from the opcode, is host to controller. Only data.wr is queued, both depths grow by one, and the queue pair joins the pending-send list. |
| ProcScenarios.WriteRun | test/unit/lib/nvmf/rdma.c/rdma_ut.c:641-647 | request_process on a new WRITE command with a non-empty keyed descriptor ends in the state that issues the RDMA read. |
| ProcScenarios.WriteToTransfer | test/unit/lib/nvmf/rdma.c/rdma_ut.c:641-647 | A write at the head of the pending-read queue, within both depths, leaves the queue and queues its data WR. |
| ProcScenarios.TwoWritesBatch | test/unit/lib/nvmf/rdma.c/rdma_ut.c:676-699 | Two WRITE commands with non-empty keyed descriptors on one queue pair both reach TRANSFERRING_HOST_TO_CONTROLLER. The second one's data.wr is queued after the first's, so first->next is req2's data.wr and last is req2's data.wr. |
| ProcScenarios.SecondWriteAdmissible | test/unit/lib/nvmf/rdma.c/rdma_ut.c:693-699 | After the first WRITE, the second WRITE command is a new keyed WRITE with no one waiting for buffers, an empty pending-read queue and room in both depths. |
| ProcScenarios.ReadyToExecuteToExecuting | test/unit/lib/nvmf/rdma.c/rdma_ut.c:650-654 | READY_TO_EXECUTE moves to EXECUTING with progress and nothing else changes. |
| ProcScenarios.TransferOut | test/unit/lib/nvmf/rdma.c/rdma_ut.c:616-664 | request_transfer_out drops and reposts the receive and queues the response. For a successful read the data chain comes before it, and the state becomes C2H. Otherwise the state becomes COMPLETING. The depths move accordingly. |
| ProcScenarios.ReadExecutedToC2H | test/unit/lib/nvmf/rdma.c/rdma_ut.c:616-625 | An executed read moves to TRANSFERRING_CONTROLLER_TO_HOST with progress. recv becomes NULL, sends_to_post gains data.wr, the borrowed WRs and rsp.wr, and recvs_to_post gains exactly its receive. |
| ProcScenarios.ExecutedReadRun | test/unit/lib/nvmf/rdma.c/rdma_ut.c:616-625 | request_process on an executed read is exactly the READY_TO_COMPLETE transfer out. |
| ProcScenarios.ExecutedToCompleting | test/unit/lib/nvmf/rdma.c/rdma_ut.c:655-664 | An executed write moves to COMPLETING with progress. recv becomes NULL, only rsp.wr is queued and the receive is reposted. |
| ProcScenarios.ReadyToCompleteRun | test/unit/lib/nvmf/rdma.c/rdma_ut.c:655-664 | request_process in READY_TO_COMPLETE makes exactly one transfer out. |
| ProcScenarios.CompletedToFree | test/unit/lib/nvmf/rdma.c/rdma_ut.c:626-630 | COMPLETED moves to FREE with progress. The buffers return to cache and pool, the borrowed WRs return to the WR pool, length, iovcnt and data are cleared, and the request heads the free queue. |
| ProcScenarios.TooLongCompletesWithError | test/unit/lib/nvmf/rdma.c/rdma_ut.c:249-254 | A new request whose keyed SGL exceeds max_io_size ends COMPLETING with an internal device error. Only its response is queued and no buffer is taken. |
| ProcScenarios.ShortOfBuffersWaits | test/unit/lib/nvmf/rdma.c/rdma_ut.c:256-270 | A new request that cannot get its buffers waits in NEED_BUFFER at the head of the waiting queue. It holds nothing, and the cache gets its drained buffers back. |
| ProcScenarios.ShortOfBuffersExample | test/unit/lib/nvmf/rdma.c/rdma_ut.c:256-270 | A one-byte keyed READ as create_recv builds it, with an empty cache and pool, waits in NEED_BUFFER alone at the head of the waiting queue, holding no pooled data, and the buffers stay as they were. |
| ProcScenarios.ShortParse | test/unit/lib/nvmf/rdma.c/rdma_ut.c:256-270 | A NEED_BUFFER pass without enough buffers leaves the request waiting and takes nothing. |
| ProcImpl.RdmaQpair.constructor | test/unit/lib/nvmf/rdma.c/rdma_ut.c:543-562 | qpair_reset: empty send batch and pending queues, zero depths and sq_head, and the given maximum depths. |
| ProcImpl.RdmaResources.constructor | test/unit/lib/nvmf/rdma.c/rdma_ut.c:561 | Empty recvs_to_post. |
| ProcImpl.RdmaPoller.constructor | test/unit/lib/nvmf/rdma.c/rdma_ut.c:564-572 | poller_reset: empty pending-send and pending-receive lists. |
| ProcImpl.QueueSendWrs | test/unit/lib/nvmf/rdma.c/rdma_ut.c:641-647 | Appends a chain to sends_to_post; the queue pair joins the poller's pending-send list only when the batch was empty. |
| ProcImpl.QueueRecvWr | test/unit/lib/nvmf/rdma.c/rdma_ut.c:616-625 | Appends a receive to recvs_to_post; the queue pair joins the pending-receive list only when that batch was empty and it has no SRQ. |
| ProcImpl.ProcessNew | test/unit/lib/nvmf/rdma.c/rdma_ut.c:611-615 | The NEW case takes the command from the receive, zeroes the status, computes the direction, and either marks the request ready to execute or queues it for buffers, exactly as Proc.StepNew gives it. |
| ProcImpl.ProcessNeedBuffer | test/unit/lib/nvmf/rdma.c/rdma_ut.c:611-615 | The NEED_BUFFER case on objects runs the parse only at the head of the waiting queue and then dispatches on its result, exactly as Proc.StepNeedBuffer gives it. |
| ProcImpl.ParseAtHead | test/unit/lib/nvmf/rdma.c/rdma_ut.c:611-615 | The parse run from NEED_BUFFER changes only the request, the cache, the pool and the WR pool, as Sgl.ParseSpec gives them; queue pair, resources, poller and waiting queue are untouched. |
| ProcImpl.FinishNeedBuffer | test/unit/lib/nvmf/rdma.c/rdma_ut.c:641-647 | After the parse: an error completes with an internal device error, NULL data keeps waiting, a pooled write waits for its RDMA read, anything else is ready to execute; exactly Proc.AfterParse. |
| ProcImpl.RequestTransferIn | test/unit/lib/nvmf/rdma.c/rdma_ut.c:641-647 | request_transfer_in queues the data chain and counts it in both depths. |
| ProcImpl.ProcessToControllerPending | test/unit/lib/nvmf/rdma.c/rdma_ut.c:641-647 | Only the head of the pending-read queue, and only within both depths, leaves the queue and is transferred in; exactly Proc.StepToControllerPending. |
| ProcImpl.ProcessExecuted | test/unit/lib/nvmf/rdma.c/rdma_ut.c:616-625 | An executed read joins the pending-write queue; anything else is ready to complete; exactly Proc.StepExecuted. |
| ProcImpl.ProcessToHostPending | test/unit/lib/nvmf/rdma.c/rdma_ut.c:616-625 | Only the head of the pending-write queue, with room for its data WRs and response, leaves the queue and is ready to complete; exactly Proc.StepToHostPending. |
| ProcImpl.RepostRecvWr | test/unit/lib/nvmf/rdma.c/rdma_ut.c:616-625 | Advances sq_head, reposts the receive, and drops it from the request and from current_recv_depth. |
| ProcImpl.QueueResponseWrs | test/unit/lib/nvmf/rdma.c/rdma_ut.c:655-664 | Queues the response, behind the data chain for a successful read, and grows the send depth by what was queued. |
| ProcImpl.ProcessReadyToComplete | test/unit/lib/nvmf/rdma.c/rdma_ut.c:616-664 | READY_TO_COMPLETE reposts the receive and queues the response, behind the data chain for a successful read; exactly Proc.StepReadyToComplete. |
| ProcImpl.FreeRequestData | test/unit/lib/nvmf/rdma.c/rdma_ut.c:626-630 | Returns the borrowed WRs to the WR pool in chain order and clears the data WR. |
| ProcImpl.ReleaseRequestBuffers | test/unit/lib/nvmf/rdma.c/rdma_ut.c:626-630 | Releases the request's pooled buffers through free_buffers. |
| ProcImpl.ProcessCompleted | test/unit/lib/nvmf/rdma.c/rdma_ut.c:626-630 | COMPLETED returns buffers and WRs, clears the request and puts it at the head of the free queue in state FREE; exactly Proc.StepCompleted. |
| ProcImpl.ProcessPass | test/unit/lib/nvmf/rdma.c/rdma_ut.c:574-752 | One pass of the state switch on objects is exactly Step. |
| ProcImpl.Process | test/unit/lib/nvmf/rdma.c/rdma_ut.c:574-752 | spdk_nvmf_rdma_request_process's loop leaves the objects exactly as Run gives them, and returns progress exactly when the state moved. |

## Left out

- The bodies of `spdk_nvmf_rdma_request_parse_sgl` and `spdk_nvmf_rdma_request_process`: nvmf/rdma.c is not part of this model. Their behaviour comes from the unit test's asserts. Where the asserts leave the order open, the model makes a choice: the descriptors of a last segment are all checked before anything is allocated (no assert exercises a failing last segment after its WRs or buffers have been taken), and the pending queues are FIFO.
- Sgl.ParseMulti: does not read `sgl1.address`, the offset of the descriptor list inside the receive buffer. `Recv.segment` stands for the descriptors found at `recv.buf + address`, with that offset taken as 0, as the test sets it (rdma_ut.c:305-308). The failure when the segment holds fewer than length / 16 descriptors (`n > |segment|`) exists only in the model, which cannot read past the sequence; SglImpl.ParseLastSegment follows it.
- Sgl.ParseMulti: its four failure conditions are choices of this model, since no assert fixes any of them: a descriptor count of 0, a count above 16 (`MaxSglEntries`), a descriptor that is not keyed data block / address, and a summed length above `max_io_size`. nvmf/rdma.c might instead bound the total buffer count (32, `MaxBuffers`), which would accept two descriptors of 16 units each that the model rejects. SglImpl.ParseLastSegment and SglProps.MultiFailsIff follow the model's choice.
- NvmfTypes.ValidOpts: `max_io_size % io_unit_size == 0` and at most 16 units per I/O are assumptions of the model, met by the unit test's options; no code of the transport is modelled as enforcing them.
- NvmfTypes.SendWr: has no RDMA opcode (RDMA READ for host to controller, RDMA WRITE for controller to host) and no `send_flags`, which parse_sgl sets on the data WR; no assert checks them.
- BufPool.ReleaseAll: its own contract states only that the capacity is kept; what it owns and where each buffer lands are stated in BufPool.ReleaseAllKeepsBuffers and BufPool.ReleaseAllShape, so that callers do not pay for them in every proof.
- NvmfTypes.GetXfer: leaves out the admin-queue rule of get_xfer in nvmf/rdma.c, under which a Get or Set Features command on queue 0 transfers nothing unless its feature is LBA range, autonomous power state transition or host identifier. The model has no queue id, and no test command is an admin command.
- Queue pair error and disconnect handling (`qpair.state`, `ibv_state`), queue depth statistics, tracing, DIF, SEND_WITH_INVALIDATE and RDMA device capabilities: connection plumbing that does not affect the asserted behaviour.
- A memory translation that covers less than a whole buffer. Translation is the parameter `xlate`, which gives an lkey for an address, because the mock in the test is a stub.
- The completion queue entry's fields other than the status, such as `sqhd`.
- Hardware posting of `sends_to_post` and `recvs_to_post`, completion polling, and the callbacks that set EXECUTED, READY_TO_EXECUTE or COMPLETED. In the model these are states set from outside.
- The first/last fields of `sends_to_post` and `recvs_to_post`, and the walk to the last WR of a chain. Both batches are sequences of work request identities, appended in order.
- The real mempool allocator. Pools are ordered sequences that may hold the same address more than once, as the test's mock returns the same buffer repeatedly. Conservation is stated on multisets.
- The scenario lemmas in ProcScenarios assume buffer addresses that are non-NULL and below the last 4 KiB page (`ProcScenarios.Usable`). The tests' buffers meet this, and a NULL data address is how the source tells that buffers are missing.
- The raw `spdk_nvme_sgl_descriptor` union layout. A descriptor is a datatype with type, subtype, length, address and key.
- Test scaffolding: the stubs and mocks, `create_recv`/`create_req`/`free_*`, and the CUnit `main`. `create_recv` is reflected only in what the scenarios require of a new request.
- scripts/rpc/bdev.py: JSON-RPC wrappers with no logic of their own.
