/** The device end of the mass-storage driver: one endpoint handler that streams a RAM disk in
    64-byte packets. The busy-waits on TxPktRdy inside the handler are split: the handler stops at
    the wait, and Resume carries on once the host has taken the packet. */
module MassStorageDevice {
  import opened Machine
  import opened BulkOnly

  const DISK_BLOCKS := 60
  const DISK_BYTES := DISK_BLOCKS * BLOCK_SIZE

  /** Where the handler is: not running, or spinning on TxPktRdy before the status wrapper or before
      the first packet of a read; tx remembers that a transmit interrupt came with the same call. */
  datatype Wait =
    | NoWait
    | BeforeCsw(tx: bool)
    | BeforeFirst(tx: bool)

  /** The static variables of the handler and the transmit FIFO (Some means TxPktRdy is set). */
  datatype Dev = Dev(disk: seq<byte>, cbw: seq<byte>,
                     writing: bool, wPoint: nat, wCnt: u32,
                     reading: bool, rPoint: nat, rCnt: u32,
                     txInt: bool, fifo: Option<packet>, wait: Wait)

  predicate Sized(d: Dev) {
    |d.disk| == DISK_BYTES && |d.cbw| == PACKET_SIZE
  }

  /** The blocks of a transfer lie on the disk and there is at least one. */
  predicate InDisk(address: u32, count: u32) {
    count >= 1 && address + count <= DISK_BLOCKS
  }

  const INQUIRY_RESPONSE: seq<byte> :=
    [0x00, 0x80, 0x00, 0x01, 0x1F, 0x00, 0x00, 0x00]
    + [0x46, 0x72, 0x65, 0x71, 0x63, 0x68, 0x69, 0x70]
    + [0x32, 0x30, 0x31, 0x33, 0x2D, 0x34, 0x35, 0x33, 0x32, 0x2D, 0x41, 0x44, 0x45, 0x46, 0x47, 0x48]
    + [0x31, 0x2E, 0x30, 0x30]

  function FormatCapacityResponse(): seq<byte> {
    [0x00, 0x00, 0x00, 0x08] + Be32(DISK_BLOCKS) + [0x02, 0x00, 0x02, 0x00]
  }

  function CapacityResponse(): seq<byte> {
    Be32(DISK_BLOCKS - 1) + [0x00, 0x00, 0x02, 0x00]
  }

  const SENSE6_RESPONSE: seq<byte> := [0x03, 0x00, 0x00, 0x00]

  /** The answer of a command that is neither a read nor a write; None means a status wrapper alone. */
  function InfoResponse(op: byte): Option<packet> {
    if op == SCSI_INQUIRY then Some(INQUIRY_RESPONSE)
    else if op == SCSI_READ_FORMAT_CAPACITY then Some(FormatCapacityResponse())
    else if op == SCSI_READ_CAPACITY then Some(CapacityResponse())
    else if op == SCSI_MODE_SENSE6 then Some(SENSE6_RESPONSE)
    else None
  }

  // ----- the handler as a function of the state

  function CsSent(d: Dev): Dev
    requires Sized(d)
  {
    if d.fifo.None? then d.(fifo := Some(Csw(CbwTag(d.cbw)))) else d
  }

  /** The command buffer after a packet was read into it. */
  function Received(d: Dev, p: packet): seq<byte>
    requires Sized(d) && |p| <= PACKET_SIZE
  {
    p + d.cbw[|p|..]
  }

  /** What the handler relies on when a packet comes: it is not spinning; during a write the packet
      is a full one that lands on the disk; otherwise it fits the command buffer, and the blocks of a
      read or write command lie on the disk. */
  predicate RxAllowed(d: Dev, p: packet) {
    && Sized(d)
    && d.wait.NoWait?
    && if d.writing then |p| == PACKET_SIZE && d.wPoint + PACKET_SIZE <= DISK_BYTES
       else |p| <= PACKET_SIZE && (p != [] ==> CommandAllowed(Received(d, p)))
  }

  predicate CommandAllowed(buffer: seq<byte>)
    requires |buffer| >= CBW_LENGTH
  {
    var cb := CbwBlock(buffer);
    CbwSignature(buffer) == CBW_SIGNATURE && (cb[0] == SCSI_READ10 || cb[0] == SCSI_WRITE10) ==>
      InDisk(BlockAddress(cb), BlockCount(cb))
  }

  function DiskWritten(disk: seq<byte>, at: nat, p: packet): (r: seq<byte>)
    requires at + |p| <= |disk|
    ensures |r| == |disk|
  {
    disk[..at] + p + disk[at + |p|..]
  }

  function DataReceived(d: Dev, p: packet): Dev
    requires RxAllowed(d, p) && d.writing
  {
    var left := Sub32(d.wCnt, 1);
    var d1 := d.(disk := DiskWritten(d.disk, d.wPoint, p), wPoint := d.wPoint + PACKET_SIZE, wCnt := left);
    if left == 0 then CsSent(d1).(writing := false) else d1
  }

  /** The first packet of a read goes out, and the transmit interrupt is switched on for the others. */
  function FirstSent(d: Dev): Dev
    requires Sized(d) && d.rPoint + PACKET_SIZE <= DISK_BYTES
  {
    d.(fifo := Some(d.disk[d.rPoint..d.rPoint + PACKET_SIZE]),
       rPoint := d.rPoint + PACKET_SIZE, rCnt := Sub32(d.rCnt, 1), txInt := true, wait := NoWait)
  }

  function ReadStarted(d: Dev, cb: seq<byte>, tx: bool): Dev
    requires Sized(d) && |cb| == 16 && InDisk(BlockAddress(cb), BlockCount(cb))
  {
    var d1 := d.(rPoint := BLOCK_SIZE * BlockAddress(cb),
                 rCnt := Add32(d.rCnt, BlockCount(cb) * BLOCK_SIZE / PACKET_SIZE),
                 reading := true);
    if d.fifo.None? then FirstSent(d1) else d1.(wait := BeforeFirst(tx))
  }

  function WriteStarted(d: Dev, cb: seq<byte>): Dev
    requires |cb| == 16
  {
    d.(wPoint := BLOCK_SIZE * BlockAddress(cb), wCnt := BlockCount(cb) * BLOCK_SIZE / PACKET_SIZE, writing := true)
  }

  function InfoAnswered(d: Dev, op: byte, tx: bool): Dev
    requires Sized(d)
  {
    match InfoResponse(op)
    case Some(r) => (if d.fifo.None? then d.(fifo := Some(r)) else d).(wait := BeforeCsw(tx))
    case None => CsSent(d)
  }

  function CommandReceived(d: Dev, p: packet, tx: bool): Dev
    requires RxAllowed(d, p) && !d.writing && p != []
  {
    var d1 := d.(cbw := Received(d, p));
    var cb := CbwBlock(d1.cbw);
    if CbwSignature(d1.cbw) != CBW_SIGNATURE then d1
    else if cb[0] == SCSI_READ10 then ReadStarted(d1, cb, tx)
    else if cb[0] == SCSI_WRITE10 then WriteStarted(d1, cb)
    else InfoAnswered(d1, cb[0], tx)
  }

  /** What the transmit branch relies on: the next packet of a read lies on the disk. */
  predicate TxAllowed(d: Dev) {
    Sized(d) && (d.reading && d.rCnt > 0 ==> d.rPoint + PACKET_SIZE <= DISK_BYTES)
  }

  function Transmitted(d: Dev): Dev
    requires TxAllowed(d)
  {
    if !d.reading || d.fifo.Some? then d
    else if d.rCnt > 0 then
      d.(fifo := Some(d.disk[d.rPoint..d.rPoint + PACKET_SIZE]), rPoint := d.rPoint + PACKET_SIZE, rCnt := d.rCnt - 1)
    else CsSent(d).(reading := false, txInt := false)
  }

  predicate HandlerAllowed(d: Dev, rx: Option<packet>, tx: bool) {
    && Sized(d) && d.wait.NoWait?
    && (rx.Some? ==> RxAllowed(d, rx.value))
    && (tx && !(rx.Some? && rx.value == [] && !d.writing) && AfterRx(d, rx, tx).wait.NoWait? ==>
          TxAllowed(AfterRx(d, rx, tx)))
  }

  function AfterRx(d: Dev, rx: Option<packet>, tx: bool): Dev
    requires rx.Some? ==> RxAllowed(d, rx.value)
  {
    if rx.None? then d
    else if d.writing then DataReceived(d, rx.value)
    else if rx.value == [] then d
    else CommandReceived(d, rx.value, tx)
  }

  /** One call of the handler. An empty packet outside a write makes it return before the transmit branch. */
  function Handled(d: Dev, rx: Option<packet>, tx: bool): Dev
    requires HandlerAllowed(d, rx, tx)
  {
    var d1 := AfterRx(d, rx, tx);
    if rx.Some? && rx.value == [] && !d.writing then d1
    else if tx && d1.wait.NoWait? then Transmitted(d1)
    else d1
  }

  predicate ResumeAllowed(d: Dev) {
    && Sized(d) && d.fifo.None? && !d.wait.NoWait?
    && (d.wait.BeforeFirst? ==> d.rPoint + PACKET_SIZE <= DISK_BYTES)
    && (d.wait.tx ==> TxAllowed(Woken(d)))
  }

  function Woken(d: Dev): Dev
    requires Sized(d) && (d.wait.BeforeFirst? ==> d.rPoint + PACKET_SIZE <= DISK_BYTES)
  {
    if d.wait.BeforeFirst? then FirstSent(d) else CsSent(d).(wait := NoWait)
  }

  /** The handler goes on after its busy-wait. */
  function Resumed(d: Dev): Dev
    requires ResumeAllowed(d)
  {
    if d.wait.tx then Transmitted(Woken(d)) else Woken(d)
  }

  /** The host takes the packet in the transmit FIFO. */
  function Taken(d: Dev): Dev {
    d.(fifo := None)
  }

  // ----- the handler itself

  class Device {
    const disk: array<byte>
    var cbw: seq<byte>
    var writing: bool
    var wPoint: nat
    var wCnt: u32
    var reading: bool
    var rPoint: nat
    var rCnt: u32
    var txInt: bool
    var fifo: Option<packet>
    var wait: Wait

    function State(): Dev
      reads this, disk
    {
      Dev(disk[..], cbw, writing, wPoint, wCnt, reading, rPoint, rCnt, txInt, fifo, wait)
    }

    constructor ()
      ensures Sized(State()) && fresh(disk)
      ensures !writing && !reading && rCnt == 0 && fifo.None? && wait.NoWait?
    {
      disk := new byte[DISK_BYTES](_ => 0);
      cbw := seq(PACKET_SIZE, _ => 0);
      writing, wPoint, wCnt := false, 0, 0;
      reading, rPoint, rCnt := false, 0, 0;
      txInt, fifo, wait := false, None, NoWait;
    }

    /** usb_MassStorage_SendCSW: silently does nothing while a packet is still in the FIFO. */
    method SendCsw()
      requires Sized(State())
      modifies this`fifo
      ensures State() == CsSent(old(State()))
    {
      if fifo.None? {
        fifo := Some(Csw(CbwTag(cbw)));
      }
    }

    method ReceiveData(p: packet)
      requires RxAllowed(State(), p) && writing
      modifies this, disk
      ensures State() == DataReceived(old(State()), p)
    {
      forall i | 0 <= i < PACKET_SIZE {
        disk[wPoint + i] := p[i];
      }
      assert disk[..] == DiskWritten(old(disk[..]), wPoint, p);
      wPoint := wPoint + PACKET_SIZE;
      wCnt := Sub32(wCnt, 1);
      if wCnt == 0 {
        SendCsw();
        writing := false;
      }
    }

    method SendFirst()
      requires Sized(State()) && rPoint + PACKET_SIZE <= DISK_BYTES
      modifies this
      ensures State() == FirstSent(old(State()))
    {
      fifo := Some(disk[rPoint..rPoint + PACKET_SIZE]);
      assert disk[rPoint..rPoint + PACKET_SIZE] == disk[..][rPoint..rPoint + PACKET_SIZE];
      rPoint := rPoint + PACKET_SIZE;
      rCnt := Sub32(rCnt, 1);
      txInt := true;
      wait := NoWait;
    }

    method StartRead(cb: seq<byte>, tx: bool)
      requires Sized(State()) && |cb| == 16 && InDisk(BlockAddress(cb), BlockCount(cb))
      modifies this
      ensures State() == ReadStarted(old(State()), cb, tx)
    {
      rPoint := BLOCK_SIZE * BlockAddress(cb);
      rCnt := Add32(rCnt, BlockCount(cb) * BLOCK_SIZE / PACKET_SIZE);
      reading := true;
      if fifo.None? {
        SendFirst();
      } else {
        wait := BeforeFirst(tx);
      }
    }

    method ReceiveCommand(p: packet, tx: bool)
      requires RxAllowed(State(), p) && !writing && p != []
      modifies this
      ensures State() == CommandReceived(old(State()), p, tx)
    {
      cbw := p + cbw[|p|..];
      if CbwSignature(cbw) == CBW_SIGNATURE {
        var cb := CbwBlock(cbw);
        var op := cb[0];
        if op == SCSI_READ10 {
          StartRead(cb, tx);
        } else if op == SCSI_WRITE10 {
          wPoint := BLOCK_SIZE * BlockAddress(cb);
          wCnt := BlockCount(cb) * BLOCK_SIZE / PACKET_SIZE;
          writing := true;
        } else if InfoResponse(op).Some? {
          if fifo.None? {
            fifo := InfoResponse(op);
          }
          wait := BeforeCsw(tx);
        } else {
          SendCsw();
        }
      }
    }

    method Transmit()
      requires TxAllowed(State())
      modifies this
      ensures State() == Transmitted(old(State()))
    {
      if reading {
        if fifo.None? {
          if rCnt > 0 {
            fifo := Some(disk[rPoint..rPoint + PACKET_SIZE]);
            assert disk[rPoint..rPoint + PACKET_SIZE] == disk[..][rPoint..rPoint + PACKET_SIZE];
            rPoint := rPoint + PACKET_SIZE;
            rCnt := rCnt - 1;
          } else {
            SendCsw();
            reading := false;
            txInt := false;
          }
        }
      }
    }

    /** The host takes the packet out of the FIFO. */
    method HostTakes()
      modifies this`fifo
      ensures State() == Taken(old(State()))
    {
      fifo := None;
    }

    /** Endpoint1_Handler, up to its first busy-wait. */
    method Handler(rx: Option<packet>, tx: bool)
      requires HandlerAllowed(State(), rx, tx)
      modifies this, disk
      ensures State() == Handled(old(State()), rx, tx)
    {
      if rx.Some? {
        if writing {
          ReceiveData(rx.value);
        } else {
          if rx.value == [] {
            return;
          }
          ReceiveCommand(rx.value, tx);
          if !wait.NoWait? {
            return;
          }
        }
      }
      if tx {
        Transmit();
      }
    }

    /** The rest of Endpoint1_Handler, once TxPktRdy has gone. */
    method Resume()
      requires ResumeAllowed(State())
      modifies this
      ensures State() == Resumed(old(State()))
    {
      var tx := wait.tx;
      if wait.BeforeFirst? {
        SendFirst();
      } else {
        SendCsw();
        wait := NoWait;
      }
      if tx {
        Transmit();
      }
    }
  }
}
