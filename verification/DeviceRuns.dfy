/** The device end refines a block store: whatever the interleaving of commands, data packets,
    transmit interrupts (spurious ones included) and packets taken by the host, the packets on the
    wire are those an abstract store owes for the commands, in order. */
module DeviceRuns {
  import opened Machine
  import opened BulkOnly
  import opened MassStorageDevice

  // ----- the abstract store

  /** A write command whose data is still coming in. */
  datatype Job = Free | Filling(at: nat, left: nat, tag: u32)

  /** The disk, every packet owed to the host since the start, and the write under way. */
  datatype Store = Store(disk: seq<byte>, due: seq<packet>, job: Job)

  /** The packets a command other than a write is answered with. */
  function Replies(disk: seq<byte>, tag: u32, cb: seq<byte>): (r: seq<packet>)
    requires |disk| == DISK_BYTES && |cb| == 16
    requires cb[0] == SCSI_READ10 ==> InDisk(BlockAddress(cb), BlockCount(cb))
  {
    if cb[0] == SCSI_READ10 then
      Chunks(disk, BLOCK_SIZE * BlockAddress(cb), 8 * BlockCount(cb)) + [Csw(tag)]
    else match InfoResponse(cb[0])
      case Some(p) => [p, Csw(tag)]
      case None => [Csw(tag)]
  }

  predicate WellFormed(p: packet) {
    CBW_LENGTH <= |p| <= PACKET_SIZE && CommandAllowed(p)
  }

  function StoreCommand(s: Store, p: packet): Store
    requires |s.disk| == DISK_BYTES && WellFormed(p)
  {
    var (tag, cb) := (CbwTag(p), CbwBlock(p));
    if CbwSignature(p) != CBW_SIGNATURE then s
    else if cb[0] == SCSI_WRITE10 then s.(job := Filling(BLOCK_SIZE * BlockAddress(cb), 8 * BlockCount(cb), tag))
    else s.(due := s.due + Replies(s.disk, tag, cb))
  }

  function StoreData(s: Store, p: packet): Store
    requires s.job.Filling? && s.job.left > 0 && s.job.at + |p| <= |s.disk|
  {
    var s1 := s.(disk := DiskWritten(s.disk, s.job.at, p));
    if s.job.left == 1 then s1.(job := Free, due := s.due + [Csw(s.job.tag)])
    else s1.(job := Filling(s.job.at + |p|, s.job.left - 1, s.job.tag))
  }

  // ----- the device in its environment

  datatype Event =
    | Command(p: packet, tx: bool)
    | Data(p: packet, tx: bool)
    | TxInterrupt
    | EmptyPacket(tx: bool)
    | FifoGone
    | HostTakes

  /** The device, the packets the host has taken, and the abstract store beside it. */
  datatype System = System(d: Dev, wire: seq<packet>, store: Store)

  /** The host obeys the transport: a command comes when everything due was taken and no write is under
      way, data comes during a write. Interrupts come whenever the handler is not already running. */
  predicate Enabled(y: System, e: Event) {
    match e
    case Command(p, _) => y.d.wait.NoWait? && y.store.job.Free? && y.wire == y.store.due && WellFormed(p)
    case Data(p, _) => y.d.wait.NoWait? && y.store.job.Filling? && |p| == PACKET_SIZE
    case TxInterrupt => y.d.wait.NoWait?
    case EmptyPacket(_) => y.d.wait.NoWait? && !y.store.job.Filling?
    case FifoGone => y.d.fifo.None? && !y.d.wait.NoWait?
    case HostTakes => y.d.fifo.Some?
  }

  ghost function Step(y: System, e: Event): System
    requires Inv(y)
  {
    if !Enabled(y, e) then y else
      match e
      case Command(p, tx) =>
        CommandSafe(y, p, tx);
        y.(d := Handled(y.d, Some(p), tx), store := StoreCommand(y.store, p))
      case Data(p, tx) =>
        DataSafe(y, p, tx);
        y.(d := Handled(y.d, Some(p), tx), store := StoreData(y.store, p))
      case TxInterrupt => y.(d := Handled(y.d, None, true))
      case EmptyPacket(tx) => y.(d := Handled(y.d, Some([]), tx))
      case FifoGone => y.(d := Resumed(y.d))
      case HostTakes => y.(d := Taken(y.d), wire := y.wire + [y.d.fifo.value])
  }

  // ----- the invariant

  /** The packets the device has still to produce or has in its FIFO. */
  function Owed(d: Dev): seq<packet>
    requires Steady(d)
  {
    InFifo(d)
    + (if d.wait.BeforeCsw? then [Csw(CbwTag(d.cbw))] else [])
    + (if d.reading then Chunks(d.disk, d.rPoint, d.rCnt) + [Csw(CbwTag(d.cbw))] else [])
  }

  function InFifo(d: Dev): seq<packet> {
    if d.fifo.Some? then [d.fifo.value] else []
  }

  /** What every step keeps of the handler's own variables. In particular the read counter is zero
      whenever no read is active, which makes the `+=` of the next read command right, and the
      transmit interrupt is enabled exactly while a read is active. */
  predicate Steady(d: Dev) {
    && Sized(d)
    && !d.wait.BeforeFirst?
    && d.txInt == d.reading
    && (!d.reading ==> d.rCnt == 0)
    && (d.reading ==> !d.writing && d.wait.NoWait? && d.rPoint + PACKET_SIZE * d.rCnt <= DISK_BYTES)
    && (d.writing ==> d.wait.NoWait? && d.fifo.None? && d.wCnt > 0 && d.wPoint + PACKET_SIZE * d.wCnt <= DISK_BYTES)
  }

  predicate Inv(y: System) {
    && Steady(y.d)
    && y.d.disk == y.store.disk
    && y.wire + Owed(y.d) == y.store.due
    && y.store.job == if y.d.writing then Filling(y.d.wPoint, y.d.wCnt, CbwTag(y.d.cbw)) else Free
  }

  // ----- the device alone

  predicate Quiet(d: Dev) {
    Steady(d) && Owed(d) == [] && !d.writing
  }

  lemma QuietMeans(d: Dev)
    requires Quiet(d)
    ensures d.fifo.None? && !d.reading && d.wait.NoWait? && d.rCnt == 0
  {
  }

  lemma ReceivedFields(d: Dev, p: packet)
    requires Sized(d) && CBW_LENGTH <= |p| <= PACKET_SIZE
    ensures var b := Received(d, p);
            && |b| == PACKET_SIZE && CbwSignature(b) == CbwSignature(p)
            && CbwTag(b) == CbwTag(p) && CbwBlock(b) == CbwBlock(p)
  {
    var b := Received(d, p);
    assert b[0..4] == p[0..4] && b[4..8] == p[4..8] && b[15..31] == p[15..31];
  }

  /** A transmit interrupt, spurious or not, changes nothing that is owed. */
  lemma TransmitKeepsOwed(d: Dev)
    requires Steady(d)
    ensures TxAllowed(d) && Steady(Transmitted(d)) && Owed(Transmitted(d)) == Owed(d)
    ensures Transmitted(d).disk == d.disk && Transmitted(d).cbw == d.cbw
    ensures Transmitted(d).writing == d.writing && Transmitted(d).wPoint == d.wPoint && Transmitted(d).wCnt == d.wCnt
  {
  }

  lemma ResumeKeepsOwed(d: Dev)
    requires Steady(d) && d.fifo.None? && !d.wait.NoWait?
    ensures ResumeAllowed(d) && Steady(Resumed(d)) && Owed(Resumed(d)) == Owed(d) != []
    ensures Resumed(d).disk == d.disk && Resumed(d).writing == d.writing
    ensures Resumed(d).fifo.Some?
  {
  }

  lemma ReadOwes(d: Dev, cb: seq<byte>, tx: bool)
    requires Steady(d) && d.fifo.None? && !d.reading && !d.writing && d.wait.NoWait?
    requires |cb| == 16 && InDisk(BlockAddress(cb), BlockCount(cb))
    ensures var d1 := ReadStarted(d, cb, tx);
            && Steady(d1) && d1.disk == d.disk && d1.cbw == d.cbw && !d1.writing
            && Owed(d1) == Chunks(d.disk, BLOCK_SIZE * BlockAddress(cb), 8 * BlockCount(cb)) + [Csw(CbwTag(d.cbw))]
  {
    hide CbwTag, BlockAddress, BlockCount, Csw;
    var at, n := BLOCK_SIZE * BlockAddress(cb), 8 * BlockCount(cb);
    assert Chunks(d.disk, at, n) == [d.disk[at..at + PACKET_SIZE]] + Chunks(d.disk, at + PACKET_SIZE, n - 1);
  }

  /** A quiet device answers a command with exactly the replies the command is due. */
  lemma CommandOwes(d: Dev, p: packet, tx: bool)
    requires Quiet(d) && WellFormed(p) && CbwSignature(p) == CBW_SIGNATURE
    ensures RxAllowed(d, p)
    ensures var d1 := CommandReceived(d, p, tx);
            && Steady(d1) && d1.disk == d.disk && CbwTag(d1.cbw) == CbwTag(p)
            && (CbwBlock(p)[0] == SCSI_WRITE10 ==>
                  && Owed(d1) == [] && d1.writing && d1.wPoint == BLOCK_SIZE * BlockAddress(CbwBlock(p))
                  && d1.wCnt == 8 * BlockCount(CbwBlock(p)))
            && (CbwBlock(p)[0] != SCSI_WRITE10 ==>
                  && !d1.writing && Owed(d1) == Replies(d.disk, CbwTag(p), CbwBlock(p)))
  {
    QuietMeans(d);
    ReceivedFields(d, p);
    hide CbwTag, CbwBlock, CbwSignature, BlockAddress, BlockCount, Csw, Chunks;
    if CbwBlock(p)[0] == SCSI_READ10 {
      ReadOwes(d.(cbw := Received(d, p)), CbwBlock(p), tx);
    }
  }

  lemma CommandSafe(y: System, p: packet, tx: bool)
    requires Inv(y) && Enabled(y, Command(p, tx))
    ensures HandlerAllowed(y.d, Some(p), tx)
    ensures Inv(y.(d := Handled(y.d, Some(p), tx), store := StoreCommand(y.store, p)))
  {
    assert Quiet(y.d);
    QuietMeans(y.d);
    ReceivedFields(y.d, p);
    var d1 := CommandReceived(y.d, p, tx);
    if CbwSignature(p) == CBW_SIGNATURE {
      CommandOwes(y.d, p, tx);
    }
    if tx && d1.wait.NoWait? {
      TransmitKeepsOwed(d1);
    }
  }

  lemma DataSafe(y: System, p: packet, tx: bool)
    requires Inv(y) && Enabled(y, Data(p, tx))
    ensures HandlerAllowed(y.d, Some(p), tx)
    ensures Inv(y.(d := Handled(y.d, Some(p), tx), store := StoreData(y.store, p)))
  {
    var d1 := DataReceived(y.d, p);
    assert Steady(d1) && y.wire + Owed(d1) == StoreData(y.store, p).due;
    if tx {
      TransmitKeepsOwed(d1);
    }
  }

  lemma StepKeeps(y: System, e: Event)
    requires Inv(y)
    ensures Inv(Step(y, e))
  {
    if Enabled(y, e) {
      match e
      case Command(p, tx) => CommandSafe(y, p, tx);
      case Data(p, tx) => DataSafe(y, p, tx);
      case TxInterrupt => TransmitKeepsOwed(y.d);
      case EmptyPacket(_) =>
      case FifoGone => ResumeKeepsOwed(y.d);
      case HostTakes =>
        var w, p, o := y.wire, y.d.fifo.value, Owed(Taken(y.d));
        assert Owed(y.d) == [p] + o;
        assert w + [p] + o == w + ([p] + o);
    }
  }

  // ----- whole runs

  function Start(d: Dev): System {
    System(d, [], Store(d.disk, [], Free))
  }

  ghost function Run(y: System, es: seq<Event>): System
    requires Inv(y)
    decreases |es|
  {
    if es == [] then y else
      StepKeeps(y, es[0]);
      Run(Step(y, es[0]), es[1..])
  }

  lemma {:induction false} RunKeeps(y: System, es: seq<Event>)
    requires Inv(y)
    ensures Inv(Run(y, es))
    decreases |es|
  {
    if es != [] {
      StepKeeps(y, es[0]);
      RunKeeps(Step(y, es[0]), es[1..]);
    }
  }

  /** In every run from a quiet device: the host has received a prefix of what the store owes, all of
      it once the device is quiet again, and the RAM disk is the store's disk. */
  lemma EveryRunServesTheStore(d: Dev, es: seq<Event>)
    requires Quiet(d)
    ensures var y := Run(Start(d), es);
            && y.wire <= y.store.due
            && (Quiet(y.d) ==> y.wire == y.store.due)
            && y.d.disk == y.store.disk
  {
    RunKeeps(Start(d), es);
    var y := Run(Start(d), es);
    assert y.wire == y.store.due[..|y.wire|];
  }

  /** Whatever is owed gets out: with the FIFO empty, the next transmit interrupt or the end of the
      busy-wait puts the next owed packet into it. */
  lemma OwedPacketComes(d: Dev)
    requires Steady(d) && Owed(d) != [] && d.fifo.None?
    ensures if d.wait.NoWait? then Transmitted(d).fifo == Some(Owed(d)[0]) else Resumed(d).fifo == Some(Owed(d)[0])
  {
    if d.wait.NoWait? {
      TransmitKeepsOwed(d);
    } else {
      ResumeKeepsOwed(d);
    }
  }

  // ----- what the abstract store does

  ghost function StoreAll(s: Store, ps: seq<packet>): (t: Store)
    requires s.job.Filling? && |ps| <= s.job.left && s.job.at + PACKET_SIZE * s.job.left <= |s.disk|
    requires forall i :: 0 <= i < |ps| ==> |ps[i]| == PACKET_SIZE
    ensures |t.disk| == |s.disk|
    decreases |ps|
  {
    if ps == [] then s
    else if s.job.left == 1 then StoreData(s, ps[0])
    else StoreAll(StoreData(s, ps[0]), ps[1..])
  }

  lemma {:induction false} FlattenSize(ps: seq<packet>)
    requires forall i :: 0 <= i < |ps| ==> |ps[i]| == PACKET_SIZE
    ensures |Flatten(ps)| == PACKET_SIZE * |ps|
  {
    if ps != [] {
      FlattenSize(ps[1..]);
    }
  }

  /** The data of a write replaces exactly the blocks it names, and one status wrapper becomes due. */
  lemma {:induction false} WriteStoresData(s: Store, ps: seq<packet>)
    requires s.job.Filling? && |ps| == s.job.left > 0 && s.job.at + PACKET_SIZE * s.job.left <= |s.disk|
    requires forall i :: 0 <= i < |ps| ==> |ps[i]| == PACKET_SIZE
    ensures var at := s.job.at;
            && |Flatten(ps)| == PACKET_SIZE * |ps|
            && StoreAll(s, ps)
            == Store(s.disk[..at] + Flatten(ps) + s.disk[at + |Flatten(ps)|..], s.due + [Csw(s.job.tag)], Free)
    decreases |ps|
  {
    FlattenSize(ps);
    var at := s.job.at;
    var s1 := StoreData(s, ps[0]);
    if s.job.left == 1 {
      assert Flatten(ps[1..]) == [];
      assert Flatten(ps) == ps[0];
    } else {
      WriteStoresData(s1, ps[1..]);
      assert s1.disk[..at + PACKET_SIZE] == s.disk[..at] + ps[0];
      var f := Flatten(ps[1..]);
      assert s1.disk[at + PACKET_SIZE + |f|..] == s.disk[at + PACKET_SIZE + |f|..];
      assert s.disk[..at] + ps[0] + f == s.disk[..at] + (ps[0] + f);
    }
  }

  /** The replies to the READ(10) command the host driver builds. */
  function ReadReplies(disk: seq<byte>, tag: u32, address: u32, count: u32): seq<packet>
    requires |disk| == DISK_BYTES && InDisk(address, count)
  {
    Read10RoundTrip(address, count);
    Replies(disk, tag, Read10Block(address, count))
  }

  /** A read of the blocks just written is answered with the data written, then the status wrapper. */
  lemma ReadAfterWrite(s: Store, ps: seq<packet>, address: u32, count: u32, tag: u32)
    requires |s.disk| == DISK_BYTES && InDisk(address, count)
    requires s.job.Filling? && s.job.at == BLOCK_SIZE * address && s.job.left == |ps| == 8 * count
    requires forall i :: 0 <= i < |ps| ==> |ps[i]| == PACKET_SIZE
    ensures var r := ReadReplies(StoreAll(s, ps).disk, tag, address, count);
            |r| == 8 * count + 1 && Flatten(r[..8 * count]) == Flatten(ps) && r[8 * count] == Csw(tag)
  {
    WriteStoresData(s, ps);
    Read10RoundTrip(address, count);
    var (disk, at) := (StoreAll(s, ps).disk, BLOCK_SIZE * address);
    var c := Chunks(disk, at, 8 * count);
    FlattenChunks(disk, at, 8 * count);
    assert (c + [Csw(tag)])[..8 * count] == c;
    assert disk[at..at + PACKET_SIZE * (8 * count)] == Flatten(ps);
  }

  /** A read of blocks outside the ones written is answered as before the write. */
  lemma ReadElsewhere(s: Store, ps: seq<packet>, address: u32, count: u32, tag: u32)
    requires |s.disk| == DISK_BYTES && InDisk(address, count)
    requires s.job.Filling? && |ps| == s.job.left > 0 && s.job.at + PACKET_SIZE * s.job.left <= |s.disk|
    requires forall i :: 0 <= i < |ps| ==> |ps[i]| == PACKET_SIZE
    requires BLOCK_SIZE * (address + count) <= s.job.at || s.job.at + PACKET_SIZE * s.job.left <= BLOCK_SIZE * address
    ensures ReadReplies(StoreAll(s, ps).disk, tag, address, count) == ReadReplies(s.disk, tag, address, count)
  {
    WriteStoresData(s, ps);
    Read10RoundTrip(address, count);
    var (disk, at, n) := (StoreAll(s, ps).disk, BLOCK_SIZE * address, 8 * count);
    hide StoreAll, Flatten, Chunks;
    OutsidePatch(s.disk, s.job.at, Flatten(ps), at, PACKET_SIZE * n);
    ChunksLocal(disk, s.disk, at, n);
  }

  lemma OutsidePatch(d: seq<byte>, p: nat, f: seq<byte>, at: nat, k: nat)
    requires p + |f| <= |d| && at + k <= |d|
    requires at + k <= p || p + |f| <= at
    ensures (d[..p] + f + d[p + |f|..])[at..at + k] == d[at..at + k]
  {
  }

  /** What the device says about its disk is true: the last block and the block length to READ CAPACITY, the
      number of blocks and the block length to READ FORMAT CAPACITIES. */
  lemma AnswersDescribeTheDisk(disk: seq<byte>, tag: u32, cb: seq<byte>)
    requires |disk| == DISK_BYTES && |cb| == 16
    ensures cb[0] == 0x25 ==>
              var r := Replies(disk, tag, cb);
              && |r| == 2 && |r[0]| == 8 && BLOCK_SIZE * (FromBe32(r[0][0..4]) + 1) == |disk|
              && FromBe32(r[0][4..8]) == BLOCK_SIZE
    ensures cb[0] == 0x23 ==>
              var r := Replies(disk, tag, cb);
              && |r| == 2 && |r[0]| == 12 && BLOCK_SIZE * FromBe32(r[0][4..8]) == |disk|
              && r[0][3] == 8 && FromBe32([0] + r[0][9..12]) == BLOCK_SIZE
  {
    if cb[0] == 0x25 {
      assert Replies(disk, tag, cb)[0] == CapacityResponse();
      CapacityDecodes();
      hide CapacityResponse, FromBe32;
    } else if cb[0] == 0x23 {
      assert Replies(disk, tag, cb)[0] == FormatCapacityResponse();
      FormatCapacityDecodes();
      hide FormatCapacityResponse, FromBe32;
    }
  }

  lemma CapacityDecodes()
    ensures var p := CapacityResponse();
            |p| == 8 && FromBe32(p[0..4]) == DISK_BLOCKS - 1 && FromBe32(p[4..8]) == BLOCK_SIZE
  {
    var p := CapacityResponse();
    BytesRoundTrip(DISK_BLOCKS - 1);
    assert p[0..4] == Be32(DISK_BLOCKS - 1) && p[4..8] == [0, 0, 2, 0];
  }

  lemma FormatCapacityDecodes()
    ensures var p := FormatCapacityResponse();
            |p| == 12 && p[3] == 8 && FromBe32(p[4..8]) == DISK_BLOCKS && FromBe32([0] + p[9..12]) == BLOCK_SIZE
  {
    var p := FormatCapacityResponse();
    BytesRoundTrip(DISK_BLOCKS);
    assert p[4..8] == Be32(DISK_BLOCKS);
    assert p[9..12] == [0, 2, 0] && [0] + p[9..12] == [0, 0, 2, 0];
  }

  // ----- the handler itself

  /** The device taken through any events: what is on the wire and on its disk is the store's. */
  method Serve(dev: Device, es: seq<Event>) returns (y: System)
    requires Quiet(dev.State())
    modifies dev, dev.disk
    ensures Inv(Start(old(dev.State()))) && y == Run(Start(old(dev.State())), es) && y.d == dev.State()
    ensures y.wire <= y.store.due && (Quiet(y.d) ==> y.wire == y.store.due) && y.d.disk == y.store.disk
  {
    ghost var d0 := dev.State();
    EveryRunServesTheStore(d0, es);
    y := Start(dev.State());
    hide Run, Inv, Quiet;
    var i := 0;
    while i < |es|
      invariant i <= |es| && Inv(y) && y.d == dev.State() && Run(y, es[i..]) == Run(Start(d0), es)
    {
      RunOne(y, es[i..]);
      y := ServeOne(dev, y, es[i]);
      assert es[i..][1..] == es[i + 1..];
      i := i + 1;
    }
    RunNone(y);
  }

  lemma RunOne(y: System, es: seq<Event>)
    requires Inv(y) && es != []
    ensures Inv(Step(y, es[0])) && Run(y, es) == Run(Step(y, es[0]), es[1..])
  {
    StepKeeps(y, es[0]);
  }

  lemma RunNone(y: System)
    requires Inv(y)
    ensures Run(y, []) == y
  {
  }

  method ServeOne(dev: Device, y: System, e: Event) returns (z: System)
    requires Inv(y) && y.d == dev.State()
    modifies dev, dev.disk
    ensures z == Step(y, e) && z.d == dev.State()
  {
    z := y;
    if Enabled(y, e) {
      match e
      case Command(p, tx) =>
        CommandSafe(y, p, tx);
        dev.Handler(Some(p), tx);
        z := z.(store := StoreCommand(y.store, p));
      case Data(p, tx) =>
        DataSafe(y, p, tx);
        dev.Handler(Some(p), tx);
        z := z.(store := StoreData(y.store, p));
      case TxInterrupt => dev.Handler(None, true);
      case EmptyPacket(tx) => dev.Handler(Some([]), tx);
      case FifoGone => dev.Resume();
      case HostTakes =>
        z := z.(wire := y.wire + [y.d.fifo.value]);
        dev.HostTakes();
    }
    z := z.(d := dev.State());
  }
}
