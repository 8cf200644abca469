/** The host end of the mass-storage driver: a thread routine that steps one SCSI command at a time
    through command, data and status stage, and an interrupt routine that records how each packet
    ended. The bus operations issued are kept in a log. */
module MassStorageHost {
  import opened Machine
  import opened BulkOnly

  datatype Comm =
    | Idle | GetMaxLun | Inquiry | ReadFormatCapacity | ReadCapacity | ModeSense6
    | WaitReadWrite | TestUnitReady | ReadBlocks | WriteBlocks

  datatype Scsi =
    | ScsiIdle | SendCommand | WaitSendCommand | ReceiveData | WaitReceiveData | ReceiveStatus | WaitReceiveStatus

  /** class_scsi_cmd_Ready: a status wrapper waits to be checked. */
  datatype Ready = DataNone | DataCheck

  datatype PacketStatus = PacketIdle | PacketSucceed | PacketFail

  /** Where a command's data goes. */
  datatype Target = ToInquiry | ToFormat | ToCapacity | ToSense | ToBlock | ToNowhere

  datatype BusOp =
    | Command(tag: u32, op: byte, data: bool)
    | AskData
    | AskStatus
    | Done(csw: packet)
    | Accepted
    | Rejected
    | Aborted

  const ERROR_CODE_CLASS_BASE := 15
  const INQUIRY_ERR := ERROR_CODE_CLASS_BASE + 2
  const INQUIRY_CSW_ERR := ERROR_CODE_CLASS_BASE + 3
  const FORMAT_CAPACITY_ERR := ERROR_CODE_CLASS_BASE + 4
  const FORMAT_CAPACITY_CSW_ERR := ERROR_CODE_CLASS_BASE + 5
  const CAPACITY_ERR := ERROR_CODE_CLASS_BASE + 6
  const BLOCK_LENGTH_ERR := ERROR_CODE_CLASS_BASE + 8
  const SENSE6_CSW_ERR := ERROR_CODE_CLASS_BASE + 10
  const READ_ERR := ERROR_CODE_CLASS_BASE + 11
  const READ_CSW_ERR := ERROR_CODE_CLASS_BASE + 12

  /** CBW_Param: whether a data stage follows, the bytes expected (0 when not known) and received so
      far, and where the next ones go. */
  datatype Param = Param(hasReply: bool, replyLength: nat, count: nat, target: Target, at: nat)

  /** The memory the data of the commands is copied to; block is the caller's buffer. */
  datatype Memory = Memory(inquiry: seq<byte>, format: seq<byte>, capacity: seq<byte>, sense: seq<byte>,
                           block: seq<byte>)

  /** RW_BlockAddr, RW_Length, and whether RW_Buffer is the null pointer. */
  datatype Transfer = Transfer(address: u32, length: u32, isNull: bool)

  /** Endpoint 1: the packet in the transmit FIFO, the outstanding IN request, the operations so far. */
  datatype Port = Port(tx: Option<packet>, rxReq: bool, log: seq<BusOp>)

  /** The static variables of the driver. gone tells that it has asked for DEVICE_DISCONNECT, after
      which the thread routine is not called again. */
  datatype Host = Host(comm: Comm, scsi: Scsi, ready: Ready, wait: PacketStatus,
                       cbw: seq<byte>, csw: seq<byte>, param: Param, mem: Memory, rw: Transfer,
                       deviceCapacity: u32, gone: bool, error: nat, port: Port)

  predicate Sized(h: Host) {
    && |h.cbw| == CBW_LENGTH && |h.csw| == CSW_LENGTH
    && MemorySized(h.mem)
    && h.rw.length < 0x1_0000
  }

  predicate MemorySized(m: Memory) {
    |m.inquiry| == 36 && |m.format| == 60 && |m.capacity| == 8 && |m.sense| == 16
  }

  /** The port with one more operation in its log. */
  function Logged(q: Port, op: BusOp): Port {
    q.(log := q.log + [op])
  }

  // ----- the commands

  /** What the handler fills in for a command: length, flags, length and contents of the command
      block, and where how many bytes are expected. A reply length of 0 means not known. */
  datatype Request = Request(length: u32, flags: byte, cbLength: byte, cb: seq<byte>, replyLength: nat, target: Target)

  function Zeros(n: nat): (s: seq<byte>)
    ensures |s| == n
  {
    seq(n, _ => 0)
  }

  predicate IsCommand(c: Comm) {
    c.Inquiry? || c.ReadFormatCapacity? || c.ReadCapacity? || c.ModeSense6? || c.TestUnitReady? || c.ReadBlocks?
  }

  function RequestOf(c: Comm, address: u32, length: u32): (r: Request)
    requires IsCommand(c) && length < 0x1_0000
    ensures |r.cb| == 16
  {
    match c
    case Inquiry => Request(36, 0x80, 6, [SCSI_INQUIRY, 0, 0, 0, 0x24, 0] + Zeros(10), 36, ToInquiry)
    case ReadFormatCapacity =>
      Request(60, 0x80, 10, [SCSI_READ_FORMAT_CAPACITY] + Zeros(7) + [60] + Zeros(7), 0, ToFormat)
    case ReadCapacity => Request(8, 0x80, 10, [SCSI_READ_CAPACITY] + Zeros(15), 8, ToCapacity)
    case ModeSense6 => Request(64, 0x80, 6, [SCSI_MODE_SENSE6, 0, 0x1C, 0, 64] + Zeros(11), 4, ToSense)
    case TestUnitReady => Request(0, 0, 6, [SCSI_TEST_UNIT_READY] + Zeros(15), 0, ToNowhere)
    case ReadBlocks => Request(512, 0x80, 10, Read10Block(address, length), 512, ToBlock)
  }

  function Op(h: Host): byte
    requires Sized(h)
  {
    CbwBlock(h.cbw)[0]
  }

  // ----- the thread routine

  /** The wrapper of the next command: each command takes the next tag. */
  function NextCbw(cbw: seq<byte>, r: Request): (c: seq<byte>)
    requires |cbw| == CBW_LENGTH && |r.cb| == 16
    ensures |c| == CBW_LENGTH
  {
    Cbw(Add32(CbwTag(cbw), 1), r.length, r.flags, r.cbLength, r.cb)
  }

  function NewParam(r: Request, isNull: bool): Param {
    Param(!(r.target.ToNowhere? || (r.target.ToBlock? && isNull)), r.replyLength, 0, r.target, 0)
  }

  /** The part of the handler that fills in the wrapper and starts the transfer. */
  function Prepared(h: Host): Host
    requires Sized(h) && IsCommand(h.comm)
  {
    var r := RequestOf(h.comm, h.rw.address, h.rw.length);
    h.(scsi := SendCommand, cbw := NextCbw(h.cbw, r), param := NewParam(r, h.rw.isNull))
  }

  /** usbh_scsi_comm: the new state and its error code. */
  function ScsiComm(h: Host): (Host, nat)
    requires Sized(h)
  {
    match h.scsi
    case ScsiIdle => (h, 0)
    case SendCommand =>
      (h.(scsi := WaitSendCommand, wait := PacketIdle,
          port := Logged(h.port.(tx := Some(h.cbw)), Command(CbwTag(h.cbw), Op(h), h.param.hasReply))), 0)
    case WaitSendCommand =>
      if h.wait.PacketSucceed? then (h.(wait := PacketIdle, scsi := ReceiveData), 0)
      else if h.wait.PacketFail? then (Failed(h), 1)
      else (h, 0)
    case ReceiveData =>
      if !h.param.hasReply then (h.(scsi := ReceiveStatus), 0)
      else (h.(scsi := WaitReceiveData, port := Logged(h.port.(rxReq := true), AskData)), 0)
    case WaitReceiveData =>
      if h.wait.PacketSucceed? then (h.(wait := PacketIdle, scsi := ReceiveStatus), 0)
      else if h.wait.PacketFail? then (Failed(h), 1)
      else (h, 0)
    case ReceiveStatus =>
      (h.(scsi := WaitReceiveStatus, port := Logged(h.port.(rxReq := true), AskStatus)), 0)
    case WaitReceiveStatus =>
      if h.wait.PacketSucceed? then
        (h.(wait := PacketIdle, scsi := ScsiIdle, ready := DataCheck, port := Logged(h.port, Done(h.csw))), 0)
      else if h.wait.PacketFail? then (Failed(h), 2)
      else (h, 0)
  }

  function Failed(h: Host): Host {
    h.(wait := PacketIdle, scsi := ScsiIdle, port := Logged(h.port, Aborted))
  }

  function Disconnected(h: Host, error: nat): Host {
    h.(gone := true, error := error)
  }

  /** What the handler does when usbh_scsi_comm reports an error. */
  function CommandFailed(h: Host): Host
    requires IsCommand(h.comm)
  {
    match h.comm
    case Inquiry => Disconnected(h, INQUIRY_ERR)
    case ReadFormatCapacity => Disconnected(h, FORMAT_CAPACITY_ERR)
    case ReadCapacity => Disconnected(h, CAPACITY_ERR)
    case ModeSense6 => h.(comm := WaitReadWrite, ready := DataNone)
    case TestUnitReady => Disconnected(h, CAPACITY_ERR)
    case ReadBlocks => Disconnected(h, READ_ERR)
  }

  predicate StatusMatches(h: Host)
    requires Sized(h)
  {
    CswSignature(h.csw) == CSW_SIGNATURE && CswTag(h.csw) == CbwTag(h.cbw)
  }

  predicate StatusGood(h: Host)
    requires Sized(h)
  {
    StatusMatches(h) && CswStatus(h.csw) == 0
  }

  function Passed(h: Host, next: Comm): Host {
    h.(comm := next, ready := DataNone, port := Logged(h.port, Accepted))
  }

  function Refused(h: Host, error: nat): Host {
    Disconnected(h, error).(port := Logged(h.port, Rejected))
  }

  /** The part of the handler that checks the status wrapper and chooses the next command. */
  function Checked(h: Host): Host
    requires Sized(h) && IsCommand(h.comm)
  {
    match h.comm
    case Inquiry => if StatusGood(h) then Passed(h, ReadFormatCapacity) else Refused(h, INQUIRY_CSW_ERR)
    case ReadFormatCapacity =>
      if !StatusGood(h) then Refused(h, FORMAT_CAPACITY_CSW_ERR)
      else if h.mem.format[3] / 8 > 0 then Passed(h, ReadCapacity)
      else h
    case ReadCapacity =>
      if !StatusGood(h) then Refused(h, FORMAT_CAPACITY_CSW_ERR)
      else if FromBe32(h.mem.capacity[4..8]) == BLOCK_SIZE then
        Passed(h.(deviceCapacity := Add32(FromBe32(h.mem.capacity[0..4]), 1) / 2), ModeSense6)
      else Refused(h, BLOCK_LENGTH_ERR)
    case ModeSense6 => if StatusGood(h) then Passed(h, WaitReadWrite) else Refused(h, SENSE6_CSW_ERR)
    case TestUnitReady => if StatusMatches(h) then Passed(h, WaitReadWrite) else Refused(h, FORMAT_CAPACITY_CSW_ERR)
    case ReadBlocks => if StatusGood(h) then Passed(h, WaitReadWrite) else Refused(h, READ_CSW_ERR)
  }

  /** usbh_msu_handler, without the endpoint-0 request for the number of units. */
  function Threaded(h: Host): (g: Host)
    requires Sized(h)
    ensures Sized(g)
  {
    if h.gone || !IsCommand(h.comm) then h
    else if h.ready.DataNone? then
      var h1 := if h.scsi.ScsiIdle? then Prepared(h) else h;
      var (h2, err) := ScsiComm(h1);
      if err != 0 then CommandFailed(h2) else h2
    else Checked(h)
  }

  /** The class request GET_MAX_LUN has been answered with a supported value. */
  function LunKnown(h: Host): Host {
    if !h.gone && h.comm.GetMaxLun? then h.(comm := Inquiry) else h
  }

  /** usbh_msu_connect_handle, and the loss of the packets under way that comes with a new connection. */
  function Connected(h: Host): Host {
    h.(comm := GetMaxLun, ready := DataNone, scsi := ScsiIdle, gone := false,
       port := Port(None, false, if Unfinished(h) then h.port.log + [Aborted] else h.port.log))
  }

  /** usbh_msu_disconnect_handle: the same resets, and the thread routine is not called any more. */
  function Unplugged(h: Host): Host {
    Connected(h).(gone := true)
  }

  /** A command has been sent and neither completed nor given up. */
  predicate Unfinished(h: Host) {
    (h.ready.DataCheck? && !h.gone) || !(h.scsi.ScsiIdle? || h.scsi.SendCommand?)
  }

  /** usbh_msu_read_block: the new state and the return value. The buffer may be the null pointer. */
  function ReadRequested(h: Host, address: u32, length: u32, buffer: Option<seq<byte>>): (Host, nat) {
    if !h.comm.WaitReadWrite? then (h, 1)
    else (h.(rw := Transfer(address, length, buffer.None?),
             mem := h.mem.(block := if buffer.Some? then buffer.value else []), comm := ReadBlocks), 0)
  }

  /** The first part of usbh_msu_test_unit_ready, before its busy-wait. */
  function TestRequested(h: Host): (Host, nat) {
    if !h.comm.WaitReadWrite? then (h, 1) else (h.(comm := TestUnitReady), 0)
  }

  // ----- the interrupt routine

  datatype TxResult = TxDone | TxError | TxNakTimeout | TxStall

  datatype RxResult = RxPacket(p: packet) | RxError | RxNakTimeout | RxStall | RxNothing

  function TxInterrupted(h: Host, res: TxResult): Host {
    h.(wait := if !h.scsi.WaitSendCommand? then h.wait else if res.TxDone? then PacketSucceed else PacketFail,
       port := h.port.(tx := None))
  }

  function Contents(m: Memory, t: Target): seq<byte> {
    match t
    case ToInquiry => m.inquiry
    case ToFormat => m.format
    case ToCapacity => m.capacity
    case ToSense => m.sense
    case ToBlock => m.block
    case ToNowhere => []
  }

  function Stored(m: seq<byte>, at: nat, p: packet): (r: seq<byte>)
    requires at + |p| <= |m|
    ensures |r| == |m|
  {
    m[..at] + p + m[at + |p|..]
  }

  /** The memory after a packet was copied to offset at of the target. */
  function MemoryStored(m: Memory, t: Target, at: nat, p: packet): (r: Memory)
    requires at + |p| <= |Contents(m, t)|
    ensures MemorySized(m) ==> MemorySized(r)
  {
    match t
    case ToInquiry => m.(inquiry := Stored(m.inquiry, at, p))
    case ToFormat => m.(format := Stored(m.format, at, p))
    case ToCapacity => m.(capacity := Stored(m.capacity, at, p))
    case ToSense => m.(sense := Stored(m.sense, at, p))
    case ToBlock => m.(block := Stored(m.block, at, p))
    case ToNowhere => m
  }

  /** A data packet fits the buffer it is copied to, and a status packet is a whole status wrapper. */
  predicate RxFits(h: Host, res: RxResult) {
    && Sized(h)
    && (res.RxPacket? && h.scsi.WaitReceiveData? ==>
          h.param.at + |res.p| <= |Contents(h.mem, h.param.target)| && h.param.count + |res.p| < 0x1_0000)
    && (res.RxPacket? && h.scsi.WaitReceiveStatus? ==> |res.p| == CSW_LENGTH)
  }

  /** The length becomes known with the first packet of READ FORMAT CAPACITIES. */
  function ParamCounted(q: Param, op: byte, n: nat): Param {
    var count := q.count + n;
    q.(count := count,
       replyLength := if q.replyLength == 0 && op == SCSI_READ_FORMAT_CAPACITY then count else q.replyLength)
  }

  function DataArrived(h: Host, p: packet): Host
    requires RxFits(h, RxPacket(p)) && h.scsi.WaitReceiveData?
  {
    var q := ParamCounted(h.param, Op(h), |p|);
    var h1 := h.(mem := MemoryStored(h.mem, h.param.target, h.param.at, p), param := q);
    if q.count >= q.replyLength then h1.(port := h.port.(rxReq := false), wait := PacketSucceed)
    else h1.(param := q.(at := q.at + |p|), port := Logged(h.port.(rxReq := true), AskData))
  }

  function StatusArrived(h: Host, p: packet): Host {
    h.(csw := p, port := h.port.(rxReq := false), wait := PacketSucceed)
  }

  function RxFailed(h: Host): Host {
    h.(port := h.port.(rxReq := false), wait := PacketFail)
  }

  function RxInterrupted(h: Host, res: RxResult): (g: Host)
    requires RxFits(h, res)
    ensures Sized(g)
  {
    if res.RxNothing? || !(h.scsi.WaitReceiveData? || h.scsi.WaitReceiveStatus?) then h
    else if !res.RxPacket? then RxFailed(h)
    else if h.scsi.WaitReceiveData? then DataArrived(h, res.p)
    else StatusArrived(h, res.p)
  }

  // ----- the routines themselves

  class MassStorage {
    var comm: Comm
    var scsi: Scsi
    var ready: Ready
    var wait: PacketStatus
    var cbw: seq<byte>
    var csw: seq<byte>
    var param: Param
    var mem: Memory
    var rw: Transfer
    var deviceCapacity: u32
    var gone: bool
    var error: nat
    var port: Port

    function State(): Host
      reads this
    {
      Host(comm, scsi, ready, wait, cbw, csw, param, mem, rw, deviceCapacity, gone, error, port)
    }

    /** usbh_mass_storage_init and the static initial values. */
    constructor ()
      ensures Sized(State())
      ensures comm == Idle && scsi == ScsiIdle && ready == DataNone && wait == PacketIdle && !gone
      ensures CbwSignature(cbw) == CBW_SIGNATURE && CbwTag(cbw) == 0x10105050
      ensures port == Port(None, false, [])
    {
      CbwRoundTrip(0x10105050, 0, 0, 0, Zeros(16));
      comm, scsi, ready, wait := Idle, ScsiIdle, DataNone, PacketIdle;
      cbw, csw := Cbw(0x10105050, 0, 0, 0, Zeros(16)), Zeros(CSW_LENGTH);
      param := Param(false, 0, 0, ToNowhere, 0);
      mem := Memory(Zeros(36), Zeros(60), Zeros(8), Zeros(16), []);
      rw := Transfer(0, 0, true);
      deviceCapacity, gone, error := 0, false, 0;
      port := Port(None, false, []);
    }

    /** usbh_msu_read_block */
    method ReadBlock(address: u32, length: u32, buffer: Option<seq<byte>>) returns (r: nat)
      modifies this
      ensures (State(), r) == ReadRequested(old(State()), address, length, buffer)
    {
      if comm != WaitReadWrite {
        return 1;
      }
      rw := Transfer(address, length, buffer.None?);
      mem := mem.(block := if buffer.Some? then buffer.value else []);
      comm := ReadBlocks;
      return 0;
    }

    /** usbh_msu_connect_handle */
    method Connect()
      modifies this
      ensures State() == Connected(old(State()))
    {
      var log := port.log;
      if (ready.DataCheck? && !gone) || !(scsi.ScsiIdle? || scsi.SendCommand?) {
        log := log + [Aborted];
      }
      ready := DataNone;
      comm := GetMaxLun;
      scsi := ScsiIdle;
      gone := false;
      port := Port(None, false, log);
    }

    /** usbh_msu_disconnect_handle */
    method Unplug()
      modifies this
      ensures State() == Unplugged(old(State()))
    {
      Connect();
      gone := true;
    }

    /** The answer to GET_MAX_LUN has come. */
    method LunAnswered()
      modifies this`comm
      ensures State() == LunKnown(old(State()))
    {
      if !gone && comm == GetMaxLun {
        comm := Inquiry;
      }
    }

    /** usbh_msu_test_unit_ready, before its busy-wait */
    method TestUnit() returns (r: nat)
      modifies this`comm
      ensures (State(), r) == TestRequested(old(State()))
    {
      if comm != WaitReadWrite {
        return 1;
      }
      comm := TestUnitReady;
      return 0;
    }

    method Disconnect(code: nat)
      modifies this`gone, this`error
      ensures State() == Disconnected(old(State()), code)
    {
      error := code;
      gone := true;
    }

    method Fail()
      modifies this`wait, this`scsi, this`port
      ensures State() == Failed(old(State()))
    {
      wait := PacketIdle;
      scsi := ScsiIdle;
      port := Logged(port, Aborted);
    }

    /** usbh_scsi_comm */
    method ScsiStep() returns (err: nat)
      requires Sized(State())
      modifies this`scsi, this`wait, this`ready, this`port
      ensures (State(), err) == ScsiComm(old(State()))
    {
      err := 0;
      match scsi {
        case SendCommand =>
          scsi := WaitSendCommand;
          wait := PacketIdle;
          port := Logged(port.(tx := Some(cbw)), Command(CbwTag(cbw), CbwBlock(cbw)[0], param.hasReply));
        case WaitSendCommand =>
          if wait == PacketSucceed {
            wait := PacketIdle;
            scsi := ReceiveData;
          } else if wait == PacketFail {
            Fail();
            err := 1;
          }
        case ReceiveData =>
          if !param.hasReply {
            scsi := ReceiveStatus;
          } else {
            scsi := WaitReceiveData;
            port := Logged(port.(rxReq := true), AskData);
          }
        case WaitReceiveData =>
          if wait == PacketSucceed {
            wait := PacketIdle;
            scsi := ReceiveStatus;
          } else if wait == PacketFail {
            Fail();
            err := 1;
          }
        case ReceiveStatus =>
          scsi := WaitReceiveStatus;
          port := Logged(port.(rxReq := true), AskStatus);
        case WaitReceiveStatus =>
          if wait == PacketSucceed {
            wait := PacketIdle;
            scsi := ScsiIdle;
            ready := DataCheck;
            port := Logged(port, Done(csw));
          } else if wait == PacketFail {
            Fail();
            err := 2;
          }
        case _ =>
      }
    }

    method Prepare()
      requires Sized(State()) && IsCommand(comm)
      modifies this`scsi, this`cbw, this`param
      ensures Sized(State()) && State() == Prepared(old(State()))
    {
      var r := RequestOf(comm, rw.address, rw.length);
      scsi := SendCommand;
      cbw := NextCbw(cbw, r);
      param := NewParam(r, rw.isNull);
    }

    /** usbh_msu_handler: start or continue the command of the current state, or check its status. */
    method Handler()
      requires Sized(State())
      modifies this
      ensures State() == Threaded(old(State()))
    {
      if gone || !IsCommand(comm) {
        return;
      }
      if ready == DataNone {
        if scsi == ScsiIdle {
          Prepare();
        }
        var err := ScsiStep();
        if err != 0 {
          GiveUp();
        }
      } else {
        Check();
      }
    }

    method GiveUp()
      requires IsCommand(comm)
      modifies this`comm, this`ready, this`gone, this`error
      ensures State() == CommandFailed(old(State()))
    {
      match comm {
        case Inquiry => Disconnect(INQUIRY_ERR);
        case ReadFormatCapacity => Disconnect(FORMAT_CAPACITY_ERR);
        case ReadCapacity => Disconnect(CAPACITY_ERR);
        case ModeSense6 => comm := WaitReadWrite; ready := DataNone;
        case TestUnitReady => Disconnect(CAPACITY_ERR);
        case ReadBlocks => Disconnect(READ_ERR);
      }
    }

    method Pass(next: Comm)
      modifies this`comm, this`ready, this`port
      ensures State() == Passed(old(State()), next)
    {
      comm := next;
      ready := DataNone;
      port := Logged(port, Accepted);
    }

    method Refuse(code: nat)
      modifies this`gone, this`error, this`port
      ensures State() == Refused(old(State()), code)
    {
      Disconnect(code);
      port := Logged(port, Rejected);
    }

    method Check()
      requires Sized(State()) && IsCommand(comm)
      modifies this
      ensures State() == Checked(old(State()))
    {
      var matches := CswSignature(csw) == CSW_SIGNATURE && CswTag(csw) == CbwTag(cbw);
      var good := matches && CswStatus(csw) == 0;
      match comm {
        case Inquiry =>
          if good { Pass(ReadFormatCapacity); } else { Refuse(INQUIRY_CSW_ERR); }
        case ReadFormatCapacity =>
          if good {
            if mem.format[3] / 8 > 0 { Pass(ReadCapacity); }
          } else {
            Refuse(FORMAT_CAPACITY_CSW_ERR);
          }
        case ReadCapacity =>
          if good {
            var last, length := FromBe32(mem.capacity[0..4]), FromBe32(mem.capacity[4..8]);
            if length == BLOCK_SIZE {
              deviceCapacity := Add32(last, 1) / 2;
              Pass(ModeSense6);
            } else {
              Refuse(BLOCK_LENGTH_ERR);
            }
          } else {
            Refuse(FORMAT_CAPACITY_CSW_ERR);
          }
        case ModeSense6 =>
          if good { Pass(WaitReadWrite); } else { Refuse(SENSE6_CSW_ERR); }
        case TestUnitReady =>
          if matches { Pass(WaitReadWrite); } else { Refuse(FORMAT_CAPACITY_CSW_ERR); }
        case ReadBlocks =>
          if good { Pass(WaitReadWrite); } else { Refuse(READ_CSW_ERR); }
      }
    }

    /** The transmit branch of usbh_mass_storage_endpoints_handler. */
    method TxInterrupt(res: TxResult)
      modifies this`wait, this`port
      ensures State() == TxInterrupted(old(State()), res)
    {
      if scsi == WaitSendCommand {
        if res == TxDone {
          wait := PacketSucceed;
        } else {
          wait := PacketFail;
        }
      }
      port := port.(tx := None);
    }

    /** The receive branch of usbh_mass_storage_endpoints_handler. */
    method RxInterrupt(res: RxResult)
      requires RxFits(State(), res)
      modifies this`mem, this`param, this`csw, this`wait, this`port
      ensures State() == RxInterrupted(old(State()), res)
    {
      var askAgain := false;
      if scsi == WaitReceiveData || scsi == WaitReceiveStatus {
        if res.RxPacket? {
          if scsi == WaitReceiveData {
            mem := MemoryStored(mem, param.target, param.at, res.p);
            param := ParamCounted(param, CbwBlock(cbw)[0], |res.p|);
            if param.count >= param.replyLength {
              port := port.(rxReq := false);
              wait := PacketSucceed;
            } else {
              askAgain := true;
              param := param.(at := param.at + |res.p|);
            }
          } else {
            csw := res.p;
            port := port.(rxReq := false);
            wait := PacketSucceed;
          }
        } else if !res.RxNothing? {
          port := port.(rxReq := false);
          wait := PacketFail;
        }
      }
      if askAgain {
        port := Logged(port.(rxReq := true), AskData);
      }
    }
  }
}
