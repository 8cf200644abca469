/** Whatever the thread, the interrupts, the callers and the bus do, the host driver obeys the order
    of the Bulk-Only Transport: a command wrapper, a data stage exactly when data is expected, one
    status wrapper, and success only on a status wrapper carrying the command's own tag. */
module HostRuns {
  import opened Machine
  import opened BulkOnly
  import opened MassStorageHost

  // ----- the transport's order, as a monitor of the bus operations

  datatype Phase = Resting | Commanded | Reading | Asking | Ended(csw: packet)

  /** The phase of the current command, the tag and operation of the last one, and whether it has data. */
  datatype Monitor = Monitor(phase: Phase, tag: u32, op: byte, data: bool)

  /** A status wrapper that ends the command with success: the right signature, the command's own tag,
      and good status, which only TEST UNIT READY leaves to its caller. */
  predicate Acceptable(m: Monitor, csw: packet) {
    && |csw| == CSW_LENGTH
    && CswSignature(csw) == CSW_SIGNATURE
    && CswTag(csw) == m.tag
    && (m.op == SCSI_TEST_UNIT_READY || CswStatus(csw) == 0)
  }

  /** The monitor after one more operation; None when the operation is out of order. */
  function Watch(m: Monitor, op: BusOp): Option<Monitor> {
    match op
    case Command(tag, o, data) =>
      if m.phase.Resting? && tag == Add32(m.tag, 1) then Some(Monitor(Commanded, tag, o, data)) else None
    case AskData =>
      if (m.phase.Commanded? && m.data) || m.phase.Reading? then Some(m.(phase := Reading)) else None
    case AskStatus =>
      if (m.phase.Commanded? && !m.data) || m.phase.Reading? then Some(m.(phase := Asking)) else None
    case Done(csw) =>
      if m.phase.Asking? then Some(m.(phase := Ended(csw))) else None
    case Accepted =>
      if m.phase.Ended? && Acceptable(m, m.phase.csw) then Some(m.(phase := Resting)) else None
    case Rejected =>
      if m.phase.Ended? then Some(m.(phase := Resting)) else None
    case Aborted =>
      if !m.phase.Resting? then Some(m.(phase := Resting)) else None
  }

  function WatchAll(m: Monitor, log: seq<BusOp>): Option<Monitor> {
    if log == [] then Some(m) else
      match WatchAll(m, log[..|log| - 1])
      case None => None
      case Some(n) => Watch(n, log[|log| - 1])
  }

  lemma WatchOne(m: Monitor, log: seq<BusOp>, op: BusOp)
    ensures WatchAll(m, log + [op]) == match WatchAll(m, log) case None => None case Some(n) => Watch(n, op)
  {
    assert (log + [op])[..|log|] == log;
  }

  // ----- what the monitor's verdict means

  function Commands(log: seq<BusOp>): nat {
    if log == [] then 0
    else Commands(log[..|log| - 1]) + if log[|log| - 1].Command? then 1 else 0
  }

  /** The tag of the k-th command after the tag first. */
  function TagOf(first: u32, k: nat): u32 {
    (first + k) % U32_COUNT
  }

  lemma {:induction false} TagsCount(m: Monitor, log: seq<BusOp>)
    requires WatchAll(m, log).Some?
    ensures WatchAll(m, log).value.tag == TagOf(m.tag, Commands(log))
  {
    if log != [] {
      TagsCount(m, log[..|log| - 1]);
    }
  }

  lemma {:induction false} WatchPrefix(m: Monitor, log: seq<BusOp>, n: nat)
    requires WatchAll(m, log).Some? && n <= |log|
    ensures WatchAll(m, log[..n]).Some?
    decreases |log|
  {
    if n < |log| {
      WatchPrefix(m, log[..|log| - 1], n);
      assert log[..|log| - 1][..n] == log[..n];
    } else {
      assert log[..n] == log;
    }
  }

  /** In an orderly log a success directly follows a status wrapper with the tag of the command it ends,
      and that tag belongs to none of the 2^32 - 1 commands before it. */
  lemma SuccessIsOwn(m: Monitor, log: seq<BusOp>, n: nat, earlier: nat)
    requires m.phase.Resting? && WatchAll(m, log).Some? && n < |log| && log[n].Accepted?
    ensures var k := Commands(log[..n]);
            && n > 0 && log[n - 1].Done? && |log[n - 1].csw| == CSW_LENGTH
            && CswSignature(log[n - 1].csw) == CSW_SIGNATURE
            && CswTag(log[n - 1].csw) == TagOf(m.tag, k)
            && (earlier < k < earlier + U32_COUNT ==> CswTag(log[n - 1].csw) != TagOf(m.tag, earlier))
  {
    WatchPrefix(m, log, n + 1);
    WatchPrefix(m, log, n);
    assert log[..n + 1][..n] == log[..n];
    TagsCount(m, log[..n]);
    if earlier < Commands(log[..n]) < earlier + U32_COUNT {
      TagsDiffer(m.tag, earlier, Commands(log[..n]));
    }
  }

  lemma TagsDiffer(first: u32, i: nat, k: nat)
    requires i < k < i + U32_COUNT
    ensures TagOf(first, i) != TagOf(first, k)
  {
    var q, r := (first + i) / U32_COUNT, TagOf(first, i);
    assert first + k == q * U32_COUNT + (r + (k - i));
    ModOfSum(q, r + (k - i));
  }

  lemma ModOfSum(q: nat, s: nat)
    requires s < 2 * U32_COUNT
    ensures (q * U32_COUNT + s) % U32_COUNT == if s < U32_COUNT then s else s - U32_COUNT
  {
  }

  // ----- the driver in its environment

  datatype Event =
    | Thread
    | TxIrq(tx: TxResult)
    | RxIrq(rx: RxResult)
    | Read(address: u32, length: u32, buffer: Option<seq<byte>>)
    | Test
    | Lun
    | Plug
    | Unplug

  /** One event. Packets that would not fit are not modelled: the driver does not check for them. */
  function Step(h: Host, e: Event): (g: Host)
    requires Sized(h)
    ensures Sized(g)
  {
    match e
    case Thread => Threaded(h)
    case TxIrq(tx) => TxInterrupted(h, tx)
    case RxIrq(rx) => if RxFits(h, rx) then RxInterrupted(h, rx) else h
    case Read(a, n, b) => if n < 0x1_0000 then ReadRequested(h, a, n, b).0 else h
    case Test => TestRequested(h).0
    case Lun => LunKnown(h)
    case Plug => Connected(h)
    case Unplug => Unplugged(h)
  }

  /** How the monitor's phase shows in the driver's variables. */
  predicate Agrees(h: Host, m: Monitor) {
    && Sized(h)
    && m.tag == CbwTag(h.cbw)
    && !h.scsi.SendCommand?
    && (Unfinished(h) ==> IsCommand(h.comm) && !h.gone && m.op == Op(h) && m.data == h.param.hasReply)
    && (Unfinished(h) ==> (m.op == SCSI_TEST_UNIT_READY <==> h.comm.TestUnitReady?))
    && (h.gone ==> h.scsi.ScsiIdle?)
    && (h.ready.DataCheck? ==> h.scsi.ScsiIdle?)
    && match h.scsi
       case ScsiIdle => m.phase == if h.ready.DataCheck? && !h.gone then Ended(h.csw) else Resting
       case WaitSendCommand => m.phase.Commanded?
       case ReceiveData => m.phase.Commanded?
       case WaitReceiveData => m.phase.Reading? && h.param.hasReply
       case ReceiveStatus => m.phase == if h.param.hasReply then Reading else Commanded
       case WaitReceiveStatus => m.phase.Asking?
       case SendCommand => false
  }

  predicate Orderly(h: Host, first: u32) {
    var m := WatchAll(Monitor(Resting, first, 0, false), h.port.log);
    m.Some? && Agrees(h, m.value)
  }

  lemma RequestOps(c: Comm, address: u32, length: u32)
    requires IsCommand(c) && length < 0x1_0000
    ensures RequestOf(c, address, length).cb[0] == SCSI_TEST_UNIT_READY <==> c.TestUnitReady?
  {
  }

  /** A new command starts: the next tag, and the monitor sees it in order. */
  lemma StartKeeps(h: Host, m: Monitor)
    requires Agrees(h, m) && IsCommand(h.comm) && h.ready.DataNone? && h.scsi.ScsiIdle? && !h.gone
    ensures var h1 := ScsiComm(Prepared(h)).0;
            var op := Command(CbwTag(h1.cbw), Op(h1), h1.param.hasReply);
            && ScsiComm(Prepared(h)).1 == 0
            && h1.port.log == h.port.log + [op]
            && Watch(m, op).Some? && Agrees(h1, Watch(m, op).value)
  {
    var r := RequestOf(h.comm, h.rw.address, h.rw.length);
    RequestOps(h.comm, h.rw.address, h.rw.length);
    CbwRoundTrip(Add32(CbwTag(h.cbw), 1), r.length, r.flags, r.cbLength, r.cb);
  }

  /** Every event appends at most one operation, and one that is in order. */
  ghost predicate Follows(h: Host, h': Host, m: Monitor) {
    || (h'.port.log == h.port.log && Agrees(h', m))
    || (exists op :: h'.port.log == h.port.log + [op] && Watch(m, op).Some? && Agrees(h', Watch(m, op).value))
  }

  lemma ThreadFollows(h: Host, m: Monitor)
    requires Agrees(h, m)
    ensures Follows(h, Threaded(h), m)
  {
    if !h.gone && IsCommand(h.comm) {
      if h.ready.DataNone? {
        if h.scsi.ScsiIdle? {
          StartKeeps(h, m);
        } else {
          CommFollows(h, m);
        }
      } else {
        CheckFollows(h, m);
      }
    }
  }

  lemma CommFollows(h: Host, m: Monitor)
    requires Agrees(h, m) && !h.gone && IsCommand(h.comm) && h.ready.DataNone? && !h.scsi.ScsiIdle?
    ensures Follows(h, Threaded(h), m)
  {
    hide CbwTag, CbwBlock, CswTag, CswSignature, CswStatus;
    var h' := Threaded(h);
    var op := match h.scsi
      case ReceiveData => AskData
      case ReceiveStatus => AskStatus
      case _ => if h.wait.PacketFail? then Aborted else Done(h.csw);
    if h'.port.log == h.port.log {
      assert Agrees(h', m);
    } else {
      assert h'.port.log == h.port.log + [op];
      assert Watch(m, op).Some? && Agrees(h', Watch(m, op).value);
    }
  }

  lemma CheckFollows(h: Host, m: Monitor)
    requires Agrees(h, m) && !h.gone && IsCommand(h.comm) && h.ready.DataCheck?
    ensures Follows(h, Threaded(h), m)
  {
    hide CbwTag, CbwBlock, CswTag, CswSignature, CswStatus, FromBe32;
    var h' := Checked(h);
    var op := if h'.gone then Rejected else Accepted;
    assert h'.port.log == h.port.log || h'.port.log == h.port.log + [op];
  }

  lemma StepFollows(h: Host, m: Monitor, e: Event)
    requires Agrees(h, m)
    ensures Follows(h, Step(h, e), m)
  {
    match e
    case Thread => ThreadFollows(h, m);
    case RxIrq(rx) => RxFollows(h, m, rx);
    case TxIrq(tx) => assert Agrees(TxInterrupted(h, tx), m);
    case Read(_, _, _) => assert Agrees(Step(h, e), m);
    case Test => assert Agrees(TestRequested(h).0, m);
    case Lun => assert Agrees(LunKnown(h), m);
    case Plug => ConnectFollows(h, m, Connected(h));
    case Unplug => ConnectFollows(h, m, Unplugged(h));
  }

  lemma ConnectFollows(h: Host, m: Monitor, h': Host)
    requires Agrees(h, m) && (h' == Connected(h) || h' == Unplugged(h))
    ensures Follows(h, h', m)
  {
    hide CbwTag, CbwBlock;
    if Unfinished(h) {
      assert h'.port.log == h.port.log + [Aborted] && Watch(m, Aborted).Some? && Agrees(h', Watch(m, Aborted).value);
    } else {
      assert Agrees(h', m);
    }
  }

  lemma RxFollows(h: Host, m: Monitor, rx: RxResult)
    requires Agrees(h, m)
    ensures Follows(h, Step(h, RxIrq(rx)), m)
  {
    hide CbwTag, CbwBlock, CswTag, CswSignature, CswStatus, Stored;
    var h' := Step(h, RxIrq(rx));
    assert h'.port.log == h.port.log || h'.port.log == h.port.log + [AskData];
  }

  function Run(h: Host, es: seq<Event>): (g: Host)
    requires Sized(h)
    ensures Sized(g)
    decreases |es|
  {
    if es == [] then h else Run(Step(h, es[0]), es[1..])
  }

  lemma {:induction false} RunKeeps(h: Host, es: seq<Event>, first: u32)
    requires Orderly(h, first)
    ensures Orderly(Run(h, es), first)
    decreases |es|
  {
    if es != [] {
      var m0 := Monitor(Resting, first, 0, false);
      var (m, h') := (WatchAll(m0, h.port.log).value, Step(h, es[0]));
      StepFollows(h, m, es[0]);
      if h'.port.log != h.port.log {
        var op :| h'.port.log == h.port.log + [op] && Watch(m, op).Some? && Agrees(h', Watch(m, op).value);
        WatchOne(m0, h.port.log, op);
      }
      RunKeeps(h', es[1..], first);
    }
  }

  /** Every run of the driver from rest obeys the transport's order. */
  lemma EveryRunObeysTheTransport(h: Host, es: seq<Event>)
    requires Sized(h) && h.scsi.ScsiIdle? && h.ready.DataNone? && h.port.log == []
    ensures WatchAll(Monitor(Resting, CbwTag(h.cbw), 0, false), Run(h, es).port.log).Some?
  {
    RunKeeps(h, es, CbwTag(h.cbw));
  }

  /** In every run, a success the driver reports rests on a status wrapper with the tag of that very
      command, which no earlier command within 2^32 carries. */
  lemma EverySuccessIsOwn(h: Host, es: seq<Event>, n: nat, earlier: nat)
    requires Sized(h) && h.scsi.ScsiIdle? && h.ready.DataNone? && h.port.log == []
    ensures var log := Run(h, es).port.log;
            n < |log| && log[n].Accepted? ==>
              && n > 0 && log[n - 1].Done? && |log[n - 1].csw| == CSW_LENGTH
              && CswSignature(log[n - 1].csw) == CSW_SIGNATURE
              && CswTag(log[n - 1].csw) == TagOf(CbwTag(h.cbw), Commands(log[..n]))
              && (earlier < Commands(log[..n]) < earlier + U32_COUNT ==>
                    CswTag(log[n - 1].csw) != TagOf(CbwTag(h.cbw), earlier))
  {
    EveryRunObeysTheTransport(h, es);
    var log := Run(h, es).port.log;
    if n < |log| && log[n].Accepted? {
      SuccessIsOwn(Monitor(Resting, CbwTag(h.cbw), 0, false), log, n, earlier);
    }
  }

  /** The driver itself, taken through any events: it obeys the transport. */
  method Drive(host: MassStorage, es: seq<Event>)
    requires Sized(host.State()) && host.scsi.ScsiIdle? && host.ready.DataNone? && host.port.log == []
    modifies host
    ensures host.State() == Run(old(host.State()), es)
    ensures WatchAll(Monitor(Resting, old(CbwTag(host.cbw)), 0, false), host.port.log).Some?
  {
    ghost var h0 := host.State();
    EveryRunObeysTheTransport(h0, es);
    hide Run, WatchAll, CbwTag;
    var i := 0;
    while i < |es|
      invariant i <= |es| && Sized(host.State()) && Run(host.State(), es[i..]) == Run(h0, es)
    {
      RunOne(host.State(), es[i..]);
      DriveOne(host, es[i]);
      assert es[i..][1..] == es[i + 1..];
      i := i + 1;
    }
    RunNone(host.State());
  }

  lemma RunOne(h: Host, es: seq<Event>)
    requires Sized(h) && es != []
    ensures Run(h, es) == Run(Step(h, es[0]), es[1..])
  {
  }

  lemma RunNone(h: Host)
    requires Sized(h)
    ensures Run(h, []) == h
  {
  }

  method DriveOne(host: MassStorage, e: Event)
    requires Sized(host.State())
    modifies host
    ensures host.State() == Step(old(host.State()), e) && Sized(host.State())
  {
    var r;
    match e
    case Thread => host.Handler();
    case TxIrq(tx) => host.TxInterrupt(tx);
    case RxIrq(rx) =>
      if RxFits(host.State(), rx) {
        host.RxInterrupt(rx);
      }
    case Read(a, n, b) =>
      if n < 0x1_0000 {
        r := host.ReadBlock(a, n, b);
      }
    case Test => r := host.TestUnit();
    case Lun => host.LunAnswered();
    case Plug => host.Connect();
    case Unplug => host.Unplug();
  }
}
