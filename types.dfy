/**
 * Values shared by the whole model of the NVMe-over-Fabrics RDMA data path:
 * transport options, NVMe SGL descriptors, commands, transfer directions,
 * request states and the RDMA work-request values the request builds.
 */
module NvmfTypes {

  /** A virtual address (a C address or a uint64_t value); 0 stands for NULL. */
  type Addr = bv64

  datatype Option<T> = None | Some(value: T)

  /** s with its first |p| elements replaced by p. */
  function Overlay<T>(s: seq<T>, p: seq<T>): (r: seq<T>)
    requires |p| <= |s|
    ensures |r| == |s| && r[..|p|] == p && r[|p|..] == s[|p|..]
  {
    p + s[|p|..]
  }

  /** num zero buffer addresses and num zero iovecs: what free_buffers leaves in the slots it clears. */
  function NullBuffers(num: nat): (z: seq<Addr>)
    ensures |z| == num && forall i :: 0 <= i < num ==> z[i] == 0
  {
    if num == 0 then [] else NullBuffers(num - 1) + [0]
  }

  function NullIovs(num: nat): (z: seq<Iovec>)
    ensures |z| == num && forall i :: 0 <= i < num ==> z[i] == Iovec(0, 0)
  {
    if num == 0 then [] else NullIovs(num - 1) + [Iovec(0, 0)]
  }

  /** SPDK_NVMF_MAX_SGL_ENTRIES: scatter-gather elements per work request. */
  const MaxSglEntries: nat := 16
  /** NVMF_REQ_MAX_BUFFERS: buffer and iovec slots of one request. */
  const MaxBuffers: nat := 32
  /** sizeof(struct spdk_nvme_sgl_descriptor). */
  const SglDescriptorSize: nat := 16
  /** NVMF_DATA_BUFFER_MASK: pooled buffers are aligned to 4 KiB. */
  const DataBufferMask: Addr := 0xFFF
  /** ENOMEM, returned negated by the buffer allocator. */
  const ENOMEM: int := 12
  /** SPDK_NVME_SC_INTERNAL_DEVICE_ERROR and the success status. */
  const ScSuccess: nat := 0x00
  const ScInternalDeviceError: nat := 0x06

  // SGL descriptor types and sub types, section 4.4 of the NVM Express Base
  // Specification, revision 1.4.
  const SglTypeDataBlock: nat := 0x0
  const SglTypeBitBucket: nat := 0x1
  const SglTypeSegment: nat := 0x2
  const SglTypeLastSegment: nat := 0x3
  const SglTypeKeyedDataBlock: nat := 0x4
  const SglTypeTransportDataBlock: nat := 0x5
  const SglSubtypeAddress: nat := 0x0
  const SglSubtypeOffset: nat := 0x1
  const SglSubtypeInvalidateKey: nat := 0xF

  /** One SGL descriptor: its type, sub type, length, address (or offset) and key. */
  datatype SglDescriptor = SglDescriptor(sglType: nat, subtype: nat, length: nat, address: nat, key: nat)

  // Opcodes used by the model.
  const OpcWrite: nat := 0x01
  const OpcRead: nat := 0x02
  const OpcFabric: nat := 0x7F

  /** The part of an NVMe command the data path looks at: opcode, fabrics command type, SGL1. */
  datatype Command = Command(opc: nat, fctype: nat, sgl1: SglDescriptor)

  /** enum spdk_nvme_data_transfer, in the order of its numeric values 0..3. */
  datatype Xfer = XferNone | HostToController | ControllerToHost | Bidirectional

  /** spdk_nvme_opc_get_data_transfer: the two low bits of an opcode give the direction. */
  function OpcDataTransfer(opc: nat): Xfer
  {
    match opc % 4
    case 0 => XferNone
    case 1 => HostToController
    case 2 => ControllerToHost
    case _ => Bidirectional
  }

  /** The opcode whose low bits decide the direction: a fabrics command uses its fctype. */
  function EffectiveOpcode(cmd: Command): nat
  {
    if cmd.opc == OpcFabric then cmd.fctype else cmd.opc
  }

  /** True for the descriptor types whose zero length turns a transfer into no transfer. */
  predicate IsDataDescriptorType(t: nat)
  {
    t <= SglTypeTransportDataBlock
  }

  /**
   * spdk_nvmf_rdma_request_get_xfer: the direction implied by the opcode, except that a
   * command whose data descriptor has length 0 transfers nothing.
   */
  function GetXfer(cmd: Command): (x: Xfer)
    ensures x == XferNone <==>
      (OpcDataTransfer(EffectiveOpcode(cmd)) == XferNone ||
       (IsDataDescriptorType(cmd.sgl1.sglType) && cmd.sgl1.length == 0))
    ensures x != XferNone ==> x == OpcDataTransfer(EffectiveOpcode(cmd))
  {
    var xfer := OpcDataTransfer(EffectiveOpcode(cmd));
    if xfer == XferNone then XferNone
    else if IsDataDescriptorType(cmd.sgl1.sglType) && cmd.sgl1.length == 0 then XferNone
    else xfer
  }

  /**
   * The directions of READ and WRITE with a keyed descriptor: a READ moves data from the
   * controller to the host and a WRITE from the host to the controller, unless the
   * descriptor is empty, in which case nothing moves.
   */
  lemma ReadWriteDirections(cmd: Command)
    requires cmd.sgl1.sglType == SglTypeKeyedDataBlock
    ensures cmd.opc == OpcRead ==> GetXfer(cmd) == (if cmd.sgl1.length == 0 then XferNone else ControllerToHost)
    ensures cmd.opc == OpcWrite ==> GetXfer(cmd) == (if cmd.sgl1.length == 0 then XferNone else HostToController)
  {
  }

  /** The transport options the data path reads (struct spdk_nvmf_transport_opts). */
  datatype TransportOpts = TransportOpts(
    maxQueueDepth: nat,
    inCapsuleDataSize: nat,
    maxIoSize: nat,
    ioUnitSize: nat,
    maxAqDepth: nat,
    numSharedBuffers: nat)

  /**
   * The configuration this model assumes: a positive I/O unit, a maximum I/O size that is a
   * whole number of units, no more units per I/O than one work request has scatter-gather
   * elements, and an in-capsule data size that fits its 32-bit field. The unit test's
   * options meet it; no code of the transport is modelled as checking it.
   */
  predicate ValidOpts(o: TransportOpts)
  {
    o.ioUnitSize > 0 && o.maxIoSize % o.ioUnitSize == 0 &&
    o.maxIoSize / o.ioUnitSize <= MaxSglEntries &&
    o.inCapsuleDataSize < 0x1_0000_0000
  }

  /** One iovec: a base address and a length. */
  datatype Iovec = Iovec(base: Addr, len: nat)

  /** One scatter-gather element of a work request. */
  datatype Sge = Sge(addr: Addr, length: nat, lkey: nat)

  /** An RDMA data work request: its scatter-gather list and remote key and address. */
  datatype SendWr = SendWr(sgList: seq<Sge>, rkey: nat, remoteAddr: nat)

  /**
   * The identity of a work request queued for sending: the data WR embedded in a request,
   * a data WR borrowed from the transport's WR pool, or the response WR of a request.
   */
  datatype WrRef = DataWr(req: nat) | PooledWr(wr: nat) | RspWr(rsp: nat)

  /** A receive: its identity (that of its receive WR), its buffer, the command and the
   *  descriptor list that the capsule carries for a last-segment SGL. */
  datatype Recv = Recv(id: nat, buf: Addr, cmd: Command, segment: seq<SglDescriptor>)

  /** enum spdk_nvmf_rdma_request_state. */
  datatype State =
    | Free
    | New
    | NeedBuffer
    | DataTransferToControllerPending
    | TransferringHostToController
    | ReadyToExecute
    | Executing
    | Executed
    | DataTransferToHostPending
    | ReadyToComplete
    | TransferringControllerToHost
    | Completing
    | Completed

  /** The position of a state along the lifecycle; FREE is last. */
  function Rank(s: State): (r: nat)
    ensures 1 <= r <= 13
  {
    match s
    case New => 1
    case NeedBuffer => 2
    case DataTransferToControllerPending => 3
    case TransferringHostToController => 4
    case ReadyToExecute => 5
    case Executing => 6
    case Executed => 7
    case DataTransferToHostPending => 8
    case ReadyToComplete => 9
    case TransferringControllerToHost => 10
    case Completing => 11
    case Completed => 12
    case Free => 13
  }

  /** The states in which the request still holds the receive that carried its command. */
  predicate HoldsRecv(s: State)
  {
    1 <= Rank(s) <= 9
  }
}
