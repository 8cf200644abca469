/** The host driver and the device driver on one lossless bulk pipe. Under every interleaving of the
    host's thread and interrupts, the device's interrupts and the packets on the bus, mounting the
    disk succeeds and every block read returns the block on the device's disk. */
module EndToEnd {
  import opened Machine
  import opened BulkOnly
  import D = MassStorageDevice
  import R = DeviceRuns
  import opened H = MassStorageHost

  /** Both ends and what is between them: a packet in the device's receive FIFO, the pending transmit
      interrupt of the host, a packet in the host's receive FIFO; then the number of packets the host
      has taken in for the current command, and the block asked for last. */
  datatype System = System(h: Host, d: D.Dev, out: Option<packet>, txDone: bool, inn: Option<packet>,
                           got: nat, asked: Option<u32>)

  datatype Event =
    | HostThread
    | HostTx
    | HostRx
    | BusOut
    | BusIn
    | DeviceIrq(rx: bool, tx: bool)
    | DeviceResume
    | AskRead(block: u32, buffer: seq<byte>)
    | AskTest

  /** A packet is moved only into an empty FIFO, and inwards only on an IN request. The device's
      handler is entered only when it is not running; its transmit interrupt may be spurious. */
  predicate Enabled(y: System, e: Event) {
    match e
    case HostThread => true
    case HostTx => y.txDone
    case HostRx => y.inn.Some?
    case BusOut => y.h.port.tx.Some? && y.out.None?
    case BusIn => y.h.port.rxReq && y.inn.None? && y.d.fifo.Some?
    case DeviceIrq(rx, _) => y.d.wait.NoWait? && (rx ==> y.out.Some?)
    case DeviceResume => !y.d.wait.NoWait? && y.d.fifo.None?
    case AskRead(b, buffer) => y.h.comm.WaitReadWrite? && D.InDisk(b, 1) && |buffer| >= BLOCK_SIZE
    case AskTest => y.h.comm.WaitReadWrite?
  }

  // ----- the replies to the current command

  /** A command with the block it names and the disk it reads. */
  datatype Job = Job(comm: Comm, address: u32, disk: seq<byte>)

  predicate JobFits(j: Job) {
    IsCommand(j.comm) && |j.disk| == D.DISK_BYTES && (j.comm.ReadBlocks? ==> D.InDisk(j.address, 1))
  }

  function JobOf(y: System): Job {
    Job(y.h.comm, y.h.rw.address, y.d.disk)
  }

  /** The data packets of the reply; a status wrapper follows them. */
  function DataDue(j: Job): (r: seq<packet>)
    requires JobFits(j)
    ensures forall i :: 0 <= i < |r| ==> r[i] != []
  {
    match j.comm
    case Inquiry => [D.INQUIRY_RESPONSE]
    case ReadFormatCapacity => [D.FormatCapacityResponse()]
    case ReadCapacity => [D.CapacityResponse()]
    case ModeSense6 => [D.SENSE6_RESPONSE]
    case TestUnitReady => []
    case ReadBlocks => BlockPackets(j.disk, j.address)
  }

  function BlockPackets(disk: seq<byte>, b: u32): (r: seq<packet>)
    requires |disk| == D.DISK_BYTES && D.InDisk(b, 1)
    ensures |r| == 8 && forall i :: 0 <= i < 8 ==> |r[i]| == PACKET_SIZE
  {
    FullPackets(disk, BLOCK_SIZE * b, 8);
    Chunks(disk, BLOCK_SIZE * b, 8)
  }

  lemma {:induction false} FullPackets(s: seq<byte>, at: nat, n: nat)
    requires at + PACKET_SIZE * n <= |s|
    ensures forall i :: 0 <= i < n ==> |Chunks(s, at, n)[i]| == PACKET_SIZE
    decreases n
  {
    if n > 0 {
      FullPackets(s, at + PACKET_SIZE, n - 1);
    }
  }

  function Due(j: Job, tag: u32): (r: seq<packet>)
    requires JobFits(j)
    ensures |r| == |DataDue(j)| + 1
  {
    DataDue(j) + [Csw(tag)]
  }

  /** The bytes of the first k data packets. */
  function Received(j: Job, k: nat): seq<byte>
    requires JobFits(j) && k <= |DataDue(j)|
  {
    Flatten(DataDue(j)[..k])
  }

  function Whole(j: Job): seq<byte>
    requires JobFits(j)
  {
    Received(j, |DataDue(j)|)
  }

  function BlockOf(disk: seq<byte>, b: u32): seq<byte>
    requires |disk| == D.DISK_BYTES && D.InDisk(b, 1)
  {
    disk[BLOCK_SIZE * b..BLOCK_SIZE * (b + 1)]
  }

  /** The caller asked for one block of the disk and gave a buffer for it. */
  predicate RequestFits(h: Host) {
    && IsCommand(h.comm) && Sized(h)
    && (h.comm.ReadBlocks? ==>
          D.InDisk(h.rw.address, 1) && h.rw.length == 1 && !h.rw.isNull && |h.mem.block| >= BLOCK_SIZE)
  }

  function CurrentRequest(h: Host): Request
    requires RequestFits(h)
  {
    RequestOf(h.comm, h.rw.address, h.rw.length)
  }

  /** The wrapper in CBW_Packet is the current command's, and CBW_Param goes with it. */
  predicate Wrapped(h: Host) {
    && RequestFits(h)
    && CbwSignature(h.cbw) == CBW_SIGNATURE
    && CbwBlock(h.cbw) == CurrentRequest(h).cb
    && h.param.target == CurrentRequest(h).target
    && h.param.hasReply == !h.comm.TestUnitReady?
  }

  /** The device's replies to the wrapper are the packets due. */
  lemma DueIsReplies(y: System)
    requires Wrapped(y.h) && |y.d.disk| == D.DISK_BYTES
    ensures R.WellFormed(y.h.cbw) && CbwBlock(y.h.cbw)[0] != SCSI_WRITE10
    ensures R.Replies(y.d.disk, CbwTag(y.h.cbw), CbwBlock(y.h.cbw)) == Due(JobOf(y), CbwTag(y.h.cbw))
  {
    if y.h.comm.ReadBlocks? {
      Read10RoundTrip(y.h.rw.address, y.h.rw.length);
    }
  }

  // ----- the invariant

  function One(p: Option<packet>): seq<packet> {
    if p.Some? then [p.value] else []
  }

  /** Every packet of the current reply that the host has not taken in yet. */
  function Coming(y: System): seq<packet>
    requires RequestFits(y.h) && R.Steady(y.d)
  {
    One(y.inn) + if y.h.port.tx.Some? || y.out.Some? then Due(JobOf(y), CbwTag(y.h.cbw)) else R.Owed(y.d)
  }

  predicate BusQuiet(y: System) {
    y.h.port.tx.None? && y.out.None? && !y.txDone && y.inn.None? && !y.h.port.rxReq
  }

  /** The first k data packets have arrived where the command wants them. */
  predicate Delivered(y: System, k: nat)
    requires RequestFits(y.h) && |y.d.disk| == D.DISK_BYTES && k <= |DataDue(JobOf(y))|
  {
    && y.h.param.count == |Received(JobOf(y), k)| <= |Contents(y.h.mem, y.h.param.target)|
    && Contents(y.h.mem, y.h.param.target)[..y.h.param.count] == Received(JobOf(y), k)
  }

  /** The number of bytes the host waits for; READ FORMAT CAPACITIES learns it from the first packet. */
  predicate LengthKnown(y: System)
    requires RequestFits(y.h) && |y.d.disk| == D.DISK_BYTES
  {
    y.h.param.replyLength ==
      if y.h.comm.ReadFormatCapacity? && y.got == 0 then 0 else |Whole(JobOf(y))|
  }

  /** The command wrapper is in exactly one place until the device has taken it. */
  predicate CommandOnBus(y: System)
    requires R.Steady(y.d)
  {
    && (y.h.port.tx.Some? ==>
          y.h.port.tx.value == y.h.cbw && y.out.None? && !y.txDone && y.h.wait.PacketIdle?
          && y.h.scsi.WaitSendCommand? && R.Quiet(y.d))
    && (y.out.Some? ==> y.out.value == y.h.cbw && R.Quiet(y.d))
    && (y.txDone ==> y.h.scsi.WaitSendCommand? && y.h.wait.PacketIdle?)
  }

  predicate InFlight(y: System)
    requires Wrapped(y.h) && R.Steady(y.d)
  {
    var n := |DataDue(JobOf(y))|;
    && y.h.ready.DataNone?
    && CommandOnBus(y)
    && y.got <= n + 1 && Coming(y) == Due(JobOf(y), CbwTag(y.h.cbw))[y.got..]
    && match y.h.scsi
       case WaitSendCommand =>
         && y.got == 0 && y.inn.None? && !y.h.port.rxReq && Fresh(y)
         && (y.h.wait.PacketIdle? ==> y.h.port.tx.Some? || y.txDone)
       case ReceiveData =>
         y.got == 0 && y.inn.None? && !y.h.port.rxReq && Fresh(y) && y.h.wait.PacketIdle?
       case WaitReceiveData =>
         && y.got <= n && Delivered(y, y.got) && LengthKnown(y) && y.h.param.hasReply
         && (if y.h.wait.PacketIdle? then y.got < n && y.h.port.rxReq == y.inn.None? && y.h.param.at == y.h.param.count
             else y.got == n && !y.h.port.rxReq && y.inn.None?)
       case ReceiveStatus =>
         y.got == n && y.h.wait.PacketIdle? && !y.h.port.rxReq && y.inn.None? && Delivered(y, n)
       case WaitReceiveStatus =>
         && Delivered(y, n)
         && (if y.h.wait.PacketIdle? then y.got == n && y.h.port.rxReq == y.inn.None?
             else y.got == n + 1 && !y.h.port.rxReq && y.inn.None? && y.h.csw == Csw(CbwTag(y.h.cbw)))
       case _ => false
  }

  /** CBW_Param as the handler has just filled it in. */
  predicate Fresh(y: System)
    requires RequestFits(y.h)
  {
    y.h.param.count == 0 && y.h.param.at == 0 && y.h.param.replyLength == CurrentRequest(y.h).replyLength
  }

  predicate Finished(y: System)
    requires Wrapped(y.h) && R.Steady(y.d)
  {
    && BusQuiet(y) && R.Quiet(y.d)
    && y.h.csw == Csw(CbwTag(y.h.cbw))
    && Delivered(y, |DataDue(JobOf(y))|)
  }

  /** The results so far: the capacity once mounted, and the last block asked for once it is read. */
  predicate Results(y: System)
    requires |y.d.disk| == D.DISK_BYTES
  {
    && (y.h.comm.ModeSense6? || y.h.comm.WaitReadWrite? || y.h.comm.TestUnitReady? || y.h.comm.ReadBlocks? ==>
          y.h.deviceCapacity == D.DISK_BLOCKS / 2)
    && (y.h.comm.ReadBlocks? ==> y.asked == Some(y.h.rw.address))
    && (y.asked.Some? && !y.h.comm.ReadBlocks? ==>
          D.InDisk(y.asked.value, 1) && BLOCK_SIZE <= |y.h.mem.block|
          && y.h.mem.block[..BLOCK_SIZE] == BlockOf(y.d.disk, y.asked.value))
  }

  /** What every interleaving keeps. */
  predicate Inv(y: System) {
    && Sized(y.h) && R.Steady(y.d) && !y.d.writing
    && !y.h.gone && !y.h.wait.PacketFail?
    && (y.h.comm.WaitReadWrite? || RequestFits(y.h))
    && Results(y)
    && if y.h.scsi.ScsiIdle? then
         if y.h.ready.DataNone? then BusQuiet(y) && R.Quiet(y.d)
         else Wrapped(y.h) && Finished(y)
       else Wrapped(y.h) && InFlight(y)
  }

  // ----- one event

  ghost function Step(y: System, e: Event): System
    requires Inv(y)
  {
    if !Enabled(y, e) then y else
      match e
      case HostThread => AfterThread(y)
      case HostTx => y.(h := TxInterrupted(y.h, TxDone), txDone := false)
      case HostRx => RxSafe(y); AfterRx(y)
      case BusOut => y.(h := y.h.(port := y.h.port.(tx := None)), out := y.h.port.tx, txDone := true)
      case BusIn => y.(h := y.h.(port := y.h.port.(rxReq := false)), d := D.Taken(y.d), inn := y.d.fifo)
      case DeviceIrq(rx, tx) => DeviceKeeps(y, rx, tx); AfterDevice(y, rx, tx)
      case DeviceResume => R.ResumeKeepsOwed(y.d); y.(d := D.Resumed(y.d))
      case AskRead(b, buffer) => y.(h := ReadRequested(y.h, b, 1, Some(buffer)).0, asked := Some(b))
      case AskTest => y.(h := TestRequested(y.h).0)
  }

  function AfterThread(y: System): System
    requires Sized(y.h)
  {
    y.(h := Threaded(y.h), got := if y.h.scsi.ScsiIdle? then 0 else y.got)
  }

  function AfterRx(y: System): System
    requires y.inn.Some? && RxFits(y.h, RxPacket(y.inn.value))
  {
    y.(h := RxInterrupted(y.h, RxPacket(y.inn.value)), inn := None, got := y.got + 1)
  }

  function AfterDevice(y: System, rx: bool, tx: bool): System
    requires (rx ==> y.out.Some?) && D.HandlerAllowed(y.d, if rx then y.out else None, tx)
  {
    y.(d := D.Handled(y.d, if rx then y.out else None, tx), out := if rx then None else y.out)
  }

  // ----- what has been received

  lemma ReceivedGrows(j: Job, k: nat)
    requires JobFits(j) && k < |DataDue(j)|
    ensures Received(j, k + 1) == Received(j, k) + DataDue(j)[k]
  {
    hide DataDue;
    var due := DataDue(j);
    assert due[..k + 1] == due[..k] + [due[k]];
    FlattenConcat(due[..k], [due[k]]);
    assert Flatten([due[k]]) == due[k] + Flatten([]) == due[k];
  }

  lemma {:induction false} ReceivedShorter(j: Job, k: nat)
    requires JobFits(j) && k <= |DataDue(j)|
    ensures |Received(j, k)| <= |Whole(j)|
    ensures k < |DataDue(j)| ==> |Received(j, k)| < |Whole(j)|
    decreases |DataDue(j)| - k
  {
    hide DataDue;
    if k < |DataDue(j)| {
      ReceivedGrows(j, k);
      ReceivedShorter(j, k + 1);
    }
  }

  /** The whole data of the current reply: what it is, that the host waits for exactly its length and
      has room for it. */
  lemma WholeData(y: System)
    requires RequestFits(y.h) && |y.d.disk| == D.DISK_BYTES
    ensures var j := JobOf(y);
            && |Whole(j)| <= |Contents(y.h.mem, CurrentRequest(y.h).target)| && |Whole(j)| < 0x1_0000
            && (!y.h.comm.ReadFormatCapacity? ==> CurrentRequest(y.h).replyLength == |Whole(j)|)
            && (y.h.comm.TestUnitReady? <==> DataDue(j) == [])
            && (y.h.comm.ReadFormatCapacity? ==>
                  |DataDue(j)| == 1 && CurrentRequest(y.h).replyLength == 0 && Whole(j) == D.FormatCapacityResponse())
            && (y.h.comm.ReadCapacity? ==> Whole(j) == D.CapacityResponse())
            && (y.h.comm.ReadBlocks? ==> Whole(j) == BlockOf(y.d.disk, y.h.rw.address))
  {
    var due := DataDue(JobOf(y));
    assert due[..|due|] == due;
    if y.h.comm.ReadBlocks? {
      FlattenChunks(y.d.disk, BLOCK_SIZE * y.h.rw.address, 8);
    } else if !y.h.comm.TestUnitReady? {
      assert Flatten(due) == due[0] + Flatten(due[1..]) == due[0];
    }
  }

  // ----- every event keeps the invariant

  /** A packet in the host's receive FIFO is the next one due. */
  lemma NextIsDue(y: System)
    requires Inv(y) && y.inn.Some?
    ensures !y.h.scsi.ScsiIdle? && (y.h.scsi.WaitReceiveData? || y.h.scsi.WaitReceiveStatus?)
    ensures y.got < |Due(JobOf(y), CbwTag(y.h.cbw))| && y.inn.value == Due(JobOf(y), CbwTag(y.h.cbw))[y.got]
    ensures R.Steady(y.d) && Coming(y.(inn := None)) == Due(JobOf(y), CbwTag(y.h.cbw))[y.got + 1..]
  {
    hide DataDue, R.Owed;
    assert Coming(y)[0] == y.inn.value;
    assert Coming(y)[1..] == Coming(y.(inn := None));
  }

  lemma RxSafe(y: System)
    requires Inv(y) && y.inn.Some?
    ensures RxFits(y.h, RxPacket(y.inn.value))
  {
    hide DataDue, R.Owed, Flatten;
    NextIsDue(y);
    if y.h.scsi.WaitReceiveData? {
      ReceivedGrows(JobOf(y), y.got);
      ReceivedShorter(JobOf(y), y.got + 1);
      WholeData(y);
    }
  }

  lemma DataRxKeeps(y: System)
    requires Inv(y) && y.inn.Some? && y.h.scsi.WaitReceiveData?
    ensures RxFits(y.h, RxPacket(y.inn.value)) && Inv(AfterRx(y))
  {
    hide DataDue, R.Owed, Flatten, CbwTag, CbwBlock, CbwSignature, Csw;
    RxSafe(y);
    NextIsDue(y);
    var j := JobOf(y);
    ReceivedGrows(j, y.got);
    ReceivedShorter(j, y.got + 1);
    WholeData(y);
    var p, q := y.inn.value, y.h.param;
    var m, m' := Contents(y.h.mem, q.target), Contents(MemoryStored(y.h.mem, q.target, q.at, p), q.target);
    assert m' == Stored(m, q.at, p);
    assert m'[..q.count + |p|] == m[..q.count] + p;
  }

  lemma StatusRxKeeps(y: System)
    requires Inv(y) && y.inn.Some? && y.h.scsi.WaitReceiveStatus?
    ensures RxFits(y.h, RxPacket(y.inn.value)) && Inv(AfterRx(y))
  {
    hide DataDue, R.Owed, Flatten, CbwTag, CbwBlock, CbwSignature;
    RxSafe(y);
    NextIsDue(y);
  }

  lemma BusKeeps(y: System)
    requires Inv(y)
    ensures Enabled(y, BusOut) ==> Inv(Step(y, BusOut))
    ensures Enabled(y, HostTx) ==> Inv(Step(y, HostTx))
    ensures Enabled(y, BusIn) ==> Inv(Step(y, BusIn))
  {
    hide DataDue, Flatten, CbwTag, CbwBlock, CbwSignature, Csw;
    if Enabled(y, BusIn) {
      BusInKeeps(y);
    }
  }

  lemma BusInKeeps(y: System)
    requires Inv(y) && Enabled(y, BusIn)
    ensures Inv(Step(y, BusIn))
  {
    hide DataDue, Flatten, CbwTag, CbwBlock, CbwSignature, Csw;
    TakenOwes(y.d);
    hide R.Owed, R.Steady;
    var o := R.Owed(D.Taken(y.d));
    assert One(None) + ([y.d.fifo.value] + o) == One(y.d.fifo) + o;
  }

  lemma TakenOwes(d: D.Dev)
    requires R.Steady(d) && d.fifo.Some?
    ensures R.Steady(D.Taken(d)) && R.Owed(d) == [d.fifo.value] + R.Owed(D.Taken(d))
    ensures |d.disk| == D.DISK_BYTES && !R.Quiet(d)
  {
    hide Chunks, CbwTag, Csw;
  }

  /** The device's handler: it takes in the command, or it goes on with what it owes. */
  lemma DeviceKeeps(y: System, rx: bool, tx: bool)
    requires Inv(y) && Enabled(y, DeviceIrq(rx, tx))
    ensures D.HandlerAllowed(y.d, if rx then y.out else None, tx)
    ensures Inv(AfterDevice(y, rx, tx))
  {
    if rx {
      CommandTaken(y, tx);
    } else {
      hide DataDue, Flatten, CbwTag, CbwBlock, CbwSignature, Csw, D.Transmitted, R.Owed;
      R.TransmitKeepsOwed(y.d);
      if tx {
        SameOwed(y, D.Transmitted(y.d));
      }
    }
  }

  /** The device goes on without changing what it owes. */
  lemma SameOwed(y: System, d: D.Dev)
    requires Inv(y) && R.Steady(d) && R.Owed(d) == R.Owed(y.d)
    requires d.disk == y.d.disk && !d.writing
    ensures Inv(y.(d := d))
  {
    hide DataDue, Flatten, CbwTag, CbwBlock, CbwSignature, Csw, R.Steady, R.Owed;
    assert |d.disk| == D.DISK_BYTES by {
      Sizes(d);
    }
  }

  lemma Sizes(d: D.Dev)
    requires R.Steady(d)
    ensures |d.disk| == D.DISK_BYTES
  {
  }

  lemma CommandTaken(y: System, tx: bool)
    requires Inv(y) && y.d.wait.NoWait? && y.out.Some?
    ensures D.HandlerAllowed(y.d, y.out, tx)
    ensures Inv(AfterDevice(y, true, tx))
  {
    hide DataDue, Flatten, CbwTag, CbwBlock, CbwSignature, Csw, R.Owed;
    hide D.Transmitted, R.Replies, D.CommandReceived, D.CommandAllowed;
    var p := y.out.value;
    R.QuietMeans(y.d);
    DueIsReplies(y);
    R.CommandOwes(y.d, p, tx);
    var d1 := D.CommandReceived(y.d, p, tx);
    if tx && d1.wait.NoWait? {
      R.TransmitKeepsOwed(d1);
    }
    var d2 := D.Handled(y.d, y.out, tx);
    assert R.Steady(d2) && R.Owed(d2) == Due(JobOf(y), CbwTag(y.h.cbw)) && d2.disk == y.d.disk && !d2.writing;
    CommandGone(y, d2);
  }

  lemma CommandGone(y: System, d: D.Dev)
    requires Inv(y) && y.out.Some? && R.Steady(d) && d.disk == y.d.disk && !d.writing
    requires RequestFits(y.h) ==> R.Owed(d) == Due(JobOf(y), CbwTag(y.h.cbw))
    ensures Inv(y.(d := d, out := None))
  {
    hide DataDue, Flatten, CbwTag, CbwBlock, CbwSignature, Csw, R.Owed;
    assert R.Owed(y.d) == [];
  }

  /** The thread starts the command of the current state. */
  lemma StartKeeps(y: System)
    requires Inv(y) && y.h.scsi.ScsiIdle? && y.h.ready.DataNone? && IsCommand(y.h.comm)
    ensures Inv(AfterThread(y))
  {
    hide DataDue, Flatten, CbwTag, CbwBlock, CbwSignature, Csw, Cbw, R.Owed;
    var r := CurrentRequest(y.h);
    CbwRoundTrip(Add32(CbwTag(y.h.cbw), 1), r.length, r.flags, r.cbLength, r.cb);
    var due := Due(JobOf(AfterThread(y)), CbwTag(AfterThread(y).h.cbw));
    assert [] + due == due[0..];
  }

  /** The thread goes from one stage of the command to the next. */
  lemma StageKeeps(y: System)
    requires Inv(y) && !y.h.scsi.ScsiIdle?
    ensures Inv(AfterThread(y))
  {
    hide DataDue, Flatten, CbwTag, CbwBlock, CbwSignature, Csw, R.Owed, R.Steady;
    Sizes(y.d);
    WholeData(y);
    if y.h.scsi.ReceiveData? {
      NothingYet(y);
    }
    if y.h.scsi.WaitReceiveStatus? && y.h.wait.PacketSucceed? {
      AllReceived(y);
    }
  }

  lemma NothingYet(y: System)
    requires RequestFits(y.h) && |y.d.disk| == D.DISK_BYTES && y.h.param.count == 0
    ensures Delivered(y, 0)
  {
    assert DataDue(JobOf(y))[..0] == [];
  }

  /** After the status wrapper nothing is left on the way. */
  lemma AllReceived(y: System)
    requires Inv(y) && y.h.scsi.WaitReceiveStatus? && y.h.wait.PacketSucceed?
    ensures BusQuiet(y) && R.Quiet(y.d)
  {
    hide DataDue, Flatten, CbwTag, CbwBlock, CbwSignature, Csw, R.Owed;
    assert Coming(y) == [];
    assert |Due(JobOf(y), CbwTag(y.h.cbw))| > 0;
  }

  /** The thread checks the status wrapper: it is good, and the command has its result. */
  lemma CheckKeeps(y: System)
    requires Inv(y) && y.h.scsi.ScsiIdle? && y.h.ready.DataCheck?
    ensures Inv(AfterThread(y))
    ensures AfterThread(y).h.ready.DataNone?
    ensures AfterThread(y).h.comm == match y.h.comm
      case Inquiry => ReadFormatCapacity
      case ReadFormatCapacity => ReadCapacity
      case ReadCapacity => ModeSense6
      case _ => WaitReadWrite
  {
    hide DataDue, Flatten, CbwBlock, R.Owed, CbwTag, Csw, CswTag, CswSignature, CswStatus, FromBe32;
    CswRoundTrip(CbwTag(y.h.cbw));
    WholeData(y);
    if y.h.comm.ReadFormatCapacity? {
      assert y.h.mem.format[..12][3] == D.FormatCapacityResponse()[3];
    } else if y.h.comm.ReadCapacity? {
      R.CapacityDecodes();
      assert y.h.mem.capacity == D.CapacityResponse();
    }
  }

  lemma AskKeeps(y: System, b: u32, buffer: seq<byte>)
    requires Inv(y)
    ensures Inv(Step(y, AskRead(b, buffer))) && Inv(Step(y, AskTest))
  {
    hide DataDue, Flatten, CbwTag, CbwBlock, CbwSignature, Csw, R.Owed;
  }

  lemma StepKeeps(y: System, e: Event)
    requires Inv(y)
    ensures Inv(Step(y, e))
  {
    if Enabled(y, e) {
      match e
      case HostThread =>
        if IsCommand(y.h.comm) {
          if !y.h.scsi.ScsiIdle? {
            StageKeeps(y);
          } else if y.h.ready.DataNone? {
            StartKeeps(y);
          } else {
            CheckKeeps(y);
          }
        }
      case HostRx =>
        NextIsDue(y);
        if y.h.scsi.WaitReceiveData? {
          DataRxKeeps(y);
        } else {
          StatusRxKeeps(y);
        }
      case BusIn => BusInKeeps(y);
      case DeviceIrq(rx, tx) => DeviceKeeps(y, rx, tx);
      case DeviceResume =>
        R.ResumeKeepsOwed(y.d);
        SameOwed(y, D.Resumed(y.d));
      case AskRead(b, buffer) => AskKeeps(y, b, buffer);
      case AskTest => AskKeeps(y, 0, []);
      case _ => BusKeeps(y);
    }
  }

  // ----- whole runs

  /** The host at the start of the mount, and a quiet device. */
  predicate Start(y: System) {
    && Sized(y.h) && y.h.comm.Inquiry? && y.h.scsi.ScsiIdle? && y.h.ready.DataNone? && y.h.wait.PacketIdle? && !y.h.gone
    && R.Quiet(y.d) && BusQuiet(y) && y.asked.None?
  }

  ghost function Run(y: System, es: seq<Event>): System
    requires Inv(y)
    decreases |es|
  {
    if es == [] then y else
      StepKeeps(y, es[0]);
      Run(Step(y, es[0]), es[1..])
  }

  lemma {:induction false} RunKeeps(y: System, es: seq<Event>)
    requires Inv(y)
    ensures Inv(Run(y, es))
    decreases |es|
  {
    if es != [] {
      StepKeeps(y, es[0]);
      RunKeeps(Step(y, es[0]), es[1..]);
    }
  }

  lemma StartInv(y: System)
    requires Start(y)
    ensures Inv(y)
  {
  }

  /** In every interleaving: whenever the host waits for work again the mounted capacity is the
      device's, and the buffer of the last block read holds that block of the device's disk. */
  lemma EveryReadReturnsTheBlock(y: System, es: seq<Event>)
    requires Start(y)
    ensures Inv(y)
    ensures var z := Run(y, es);
            z.h.comm.WaitReadWrite? ==>
              && z.h.deviceCapacity == D.DISK_BLOCKS / 2
              && |z.d.disk| == D.DISK_BYTES
              && (z.asked.Some? ==>
                    D.InDisk(z.asked.value, 1) && BLOCK_SIZE <= |z.h.mem.block|
                    && z.h.mem.block[..BLOCK_SIZE] == BlockOf(z.d.disk, z.asked.value))
  {
    StartInv(y);
    RunKeeps(y, es);
  }

  // ----- the command under way gets done

  function CommandsLeft(c: Comm): nat {
    match c
    case Inquiry => 5
    case ReadFormatCapacity => 4
    case ReadCapacity => 3
    case ModeSense6 => 2
    case TestUnitReady => 1
    case ReadBlocks => 1
    case _ => 0
  }

  function StagesLeft(s: Scsi): nat {
    match s
    case WaitSendCommand => 12
    case ReceiveData => 10
    case WaitReceiveData => 8
    case ReceiveStatus => 6
    case WaitReceiveStatus => 4
    case _ => 0
  }

  /** How far the wrapper still has to go to the device, and its interrupt to the host. */
  function WrapperWay(y: System): nat {
    (if y.h.port.tx.Some? then 4 else if y.out.Some? then 2 else 0) + if y.txDone then 1 else 0
  }

  /** How far the packets of the reply still have to go: each from the device to its FIFO, to the
      host's FIFO, and to the host's memory. */
  function ReplyWay(y: System): int
    requires RequestFits(y.h) && |y.d.disk| == D.DISK_BYTES
  {
    3 * (|DataDue(JobOf(y))| + 1 - y.got) - (if y.inn.Some? then 2 else 0) - if y.d.fifo.Some? then 1 else 0
  }

  function Rank(y: System): int
    requires Inv(y)
  {
    200 * CommandsLeft(y.h.comm) +
      if !IsCommand(y.h.comm) then 0
      else if y.h.scsi.ScsiIdle? then (if y.h.ready.DataNone? then 150 else 2)
      else StagesLeft(y.h.scsi) + WrapperWay(y) + ReplyWay(y)
  }

  predicate IsAsk(e: Event) {
    e.AskRead? || e.AskTest?
  }

  /** An event that brings the command under way forward. */
  function NextEvent(y: System): Event
    requires Inv(y)
  {
    if y.h.scsi.ScsiIdle? then HostThread
    else if y.h.port.tx.Some? then BusOut
    else if y.txDone then HostTx
    else if y.h.wait.PacketSucceed? || y.h.scsi.ReceiveData? || y.h.scsi.ReceiveStatus? then HostThread
    else if y.inn.Some? then HostRx
    else if y.out.Some? then DeviceIrq(true, false)
    else if y.d.fifo.Some? then BusIn
    else if y.d.wait.NoWait? then DeviceIrq(false, true)
    else DeviceResume
  }

  lemma PacketCount(j: Job)
    requires JobFits(j)
    ensures |DataDue(j)| <= 8
  {
  }

  lemma ReplyWayBounds(y: System)
    requires Inv(y) && !y.h.scsi.ScsiIdle?
    ensures 0 <= ReplyWay(y) <= 27
  {
    hide DataDue, Flatten, CbwTag, CbwBlock, CbwSignature, Csw, Chunks;
    PacketCount(JobOf(y));
    assert |Coming(y)| == |DataDue(JobOf(y))| + 1 - y.got;
  }

  lemma RankBounds(y: System)
    requires Inv(y)
    ensures Rank(y) >= 200 * CommandsLeft(y.h.comm)
    ensures IsCommand(y.h.comm) ==> Rank(y) <= 200 * CommandsLeft(y.h.comm) + 150
    ensures IsCommand(y.h.comm) && !y.h.scsi.ScsiIdle? ==>
              200 * CommandsLeft(y.h.comm) + StagesLeft(y.h.scsi) <= Rank(y) <= 200 * CommandsLeft(y.h.comm) + 50
  {
    hide DataDue, Flatten, CbwTag, CbwBlock, CbwSignature, Csw, R.Owed, R.Steady;
    if !y.h.scsi.ScsiIdle? {
      ReplyWayBounds(y);
    }
  }

  lemma ThreadRank(y: System)
    requires Inv(y) && IsCommand(y.h.comm)
    ensures Inv(Step(y, HostThread)) && Rank(Step(y, HostThread)) <= Rank(y)
    ensures NextEvent(y) == HostThread ==> Rank(Step(y, HostThread)) < Rank(y)
  {
    StepKeeps(y, HostThread);
    if !y.h.scsi.ScsiIdle? {
      StageRank(y);
    } else {
      IdleThreadRank(y);
    }
    hide Inv;
  }

  lemma IdleThreadRank(y: System)
    requires Inv(y) && IsCommand(y.h.comm) && y.h.scsi.ScsiIdle? && Inv(Step(y, HostThread))
    ensures Rank(Step(y, HostThread)) < Rank(y)
  {
    hide Wrapped, Finished, InFlight, Results, R.Quiet, DataDue;
    RankBounds(Step(y, HostThread));
    if y.h.ready.DataCheck? {
      CheckKeeps(y);
    }
  }

  lemma StageRank(y: System)
    requires Inv(y) && !y.h.scsi.ScsiIdle? && Inv(Step(y, HostThread))
    ensures Rank(Step(y, HostThread)) <= Rank(y)
    ensures NextEvent(y) == HostThread ==> Rank(Step(y, HostThread)) < Rank(y)
  {
    hide DataDue, Flatten, CbwTag, CbwBlock, CbwSignature, Csw, R.Owed, R.Steady, Results;
    RankBounds(y);
  }

  lemma BusRank(y: System, e: Event)
    requires Inv(y) && Enabled(y, e) && (e.HostTx? || e.BusOut? || e.BusIn? || e.HostRx?)
    ensures Inv(Step(y, e)) && Rank(Step(y, e)) < Rank(y)
  {
    hide DataDue, Flatten, CbwTag, CbwBlock, CbwSignature, Csw, R.Owed;
    StepKeeps(y, e);
    if e.HostRx? {
      NextIsDue(y);
    }
  }

  lemma DeviceRank(y: System, e: Event)
    requires Inv(y) && IsCommand(y.h.comm) && Enabled(y, e) && (e.DeviceIrq? || e.DeviceResume?)
    ensures Inv(Step(y, e)) && Rank(Step(y, e)) <= Rank(y)
    ensures NextEvent(y) == e ==> Rank(Step(y, e)) < Rank(y)
  {
    hide DataDue, Flatten, CbwTag, CbwBlock, CbwSignature, Csw;
    StepKeeps(y, e);
    FifoStays(y, e);
    if NextEvent(y) == e && !(e.DeviceIrq? && e.rx) {
      assert |Coming(y)| > 0;
      R.OwedPacketComes(y.d);
    }
  }

  /** The device's handler never takes a packet out of its FIFO. */
  lemma FifoStays(y: System, e: Event)
    requires Inv(y) && Enabled(y, e) && (e.DeviceIrq? || e.DeviceResume?)
    ensures Step(y, e).h == y.h && Step(y, e).inn == y.inn && Step(y, e).got == y.got && Step(y, e).txDone == y.txDone
    ensures Step(y, e).d.disk == y.d.disk
    ensures y.d.fifo.Some? ==> Step(y, e).d.fifo.Some?
    ensures Step(y, e).out == if e.DeviceIrq? && e.rx then None else y.out
  {
    hide DataDue, Flatten, CbwTag, CbwBlock, CbwSignature, Csw, Chunks;
  }

  lemma StepRank(y: System, e: Event)
    requires Inv(y) && !IsAsk(e)
    ensures Inv(Step(y, e)) && Rank(Step(y, e)) <= Rank(y)
    ensures IsCommand(y.h.comm) && e == NextEvent(y) && Enabled(y, e) ==> Rank(Step(y, e)) < Rank(y)
  {
    StepKeeps(y, e);
    if Enabled(y, e) {
      if e.HostTx? || e.BusOut? || e.BusIn? || e.HostRx? {
        BusRank(y, e);
      } else if IsCommand(y.h.comm) {
        if e.HostThread? {
          ThreadRank(y);
        } else {
          DeviceRank(y, e);
        }
      } else {
        IdleRank(y, e);
      }
    }
  }

  lemma IdleRank(y: System, e: Event)
    requires Inv(y) && !IsAsk(e) && !IsCommand(y.h.comm) && Enabled(y, e) && Inv(Step(y, e))
    ensures Step(y, e).h.comm == y.h.comm && Rank(Step(y, e)) == Rank(y) == 0
  {
    hide Wrapped, Finished, InFlight, Results, R.Owed, D.Handled, D.Resumed;
  }

  lemma NextEnabled(y: System)
    requires Inv(y) && IsCommand(y.h.comm)
    ensures Enabled(y, NextEvent(y)) && !IsAsk(NextEvent(y))
  {
    hide DataDue, Flatten, CbwTag, CbwBlock, CbwSignature, Csw, Chunks, Results;
    if !y.h.scsi.ScsiIdle? {
      ReplyWayBounds(y);
    }
  }

  /** No interleaving sets a command back, and in every reachable state some enabled event brings it
      forward: the rank never grows, and it shrinks with that event. */
  lemma CommandAdvances(y: System, e: Event)
    requires Inv(y) && !IsAsk(e)
    ensures Inv(Step(y, e)) && 0 <= Rank(Step(y, e)) <= Rank(y)
    ensures IsCommand(y.h.comm) ==>
              Enabled(y, NextEvent(y)) && Inv(Step(y, NextEvent(y))) && 0 <= Rank(Step(y, NextEvent(y))) < Rank(y)
  {
    StepRank(y, e);
    RankBounds(Step(y, e));
    if IsCommand(y.h.comm) {
      NextEnabled(y);
      StepRank(y, NextEvent(y));
      RankBounds(Step(y, NextEvent(y)));
    }
  }

  /** The events that finish the command under way, and for the mount the commands after it. */
  ghost function Finish(y: System): (es: seq<Event>)
    requires Inv(y)
    ensures forall i :: 0 <= i < |es| ==> !IsAsk(es[i])
    decreases Rank(y)
  {
    if !IsCommand(y.h.comm) then [] else
      CommandAdvances(y, NextEvent(y));
      RankBounds(y);
      NextEnabled(y);
      [NextEvent(y)] + Finish(Step(y, NextEvent(y)))
  }

  lemma DiskStays(y: System, e: Event)
    requires Inv(y)
    ensures Step(y, e).d.disk == y.d.disk
  {
    hide Wrapped, Finished, InFlight, Results, R.Owed;
    if Enabled(y, e) && (e.DeviceIrq? || e.DeviceResume?) {
      FifoStays(y, e);
    }
  }

  lemma {:induction false} AskedStays(y: System, es: seq<Event>)
    requires Inv(y) && forall i :: 0 <= i < |es| ==> !IsAsk(es[i])
    ensures Run(y, es).asked == y.asked && Run(y, es).d.disk == y.d.disk
    decreases |es|
  {
    if es != [] {
      StepKeeps(y, es[0]);
      DiskStays(y, es[0]);
      AskedStays(Step(y, es[0]), es[1..]);
    }
  }

  /** From every reachable state the read asked for can complete: the host waits for work again with
      the block in the buffer. */
  lemma {:induction false} EveryReadCanComplete(y: System)
    requires Inv(y)
    ensures var z := Run(y, Finish(y));
            && z.h.comm.WaitReadWrite? && z.asked == y.asked && z.d.disk == y.d.disk
            && (z.asked.Some? ==>
                  D.InDisk(z.asked.value, 1) && BLOCK_SIZE <= |z.h.mem.block| && |z.d.disk| == D.DISK_BYTES
                  && z.h.mem.block[..BLOCK_SIZE] == BlockOf(z.d.disk, z.asked.value))
    decreases Rank(y)
  {
    AskedStays(y, Finish(y));
    if IsCommand(y.h.comm) {
      CommandAdvances(y, NextEvent(y));
      RankBounds(y);
      EveryReadCanComplete(Step(y, NextEvent(y)));
    }
  }
}
