/** The USB host's enumeration: a thread routine with two nested state machines (connection and
    descriptor fetch) that share endpoint 0 and two result flags with the endpoint-0 interrupt.
    The contents of descriptors enter as the few values the thread branches on. */
module UsbHost {

  datatype Option<T> = None | Some(value: T)

  datatype Connect =
    | Idle | NewDevice | ConnectRetry | WaitA | WaitB
    | TxGetDvc | WaitTxGetDvc | RxDvc | WaitRxDvc
    | SecondReset | SetAddress | WaitSendEnd | RxStatusPacket
    | Enumerate | SetConfig | ClassHandle | Disconnect

  datatype Fetch =
    | FetchIdle | RequestDesc | WaitRequestEnd | RxReply | WaitRxReplyEnd | OutStatus | WaitOutStatusEnd

  /** wait_tx_request_end_status and wait_rx_request_end_status. */
  datatype End = EndIdle | EndSucceed | EndFail | EndNakLimit

  /** A descriptor_..._Ready flag. */
  datatype Ready = DescNone | DescCheck | DescReady | DescWithout

  /** What desc_Param fetches; Lun is the class request of the mass-storage driver. */
  datatype Target = Dvc | Cfg | All | Man | Prod | Ser | Lun

  datatype Flags = Flags(dvc: Ready, cfg: Ready, all: Ready, man: Ready, prod: Ready, ser: Ready, lun: Ready)

  datatype StatusIndex = NoIndex | AddressIndex | ConfigIndex

  /** The values the thread reads out of the descriptors: from the device descriptor its class and
      which strings it names; from the configuration descriptor its type, total length and number of
      interfaces; from the whole configuration whether a bulk-only storage interface was found and
      the last error of the analysis (0 for none). */
  datatype Info = Info(devClass: nat, man: bool, prod: bool, ser: bool,
                       cfgType: nat, totalLength: nat, interfaces: nat,
                       storage: bool, fault: nat)

  /** The transaction outstanding on endpoint 0. */
  datatype Transaction = Setup | InData | OutStatusPacket | InStatusPacket

  /** What the setup packet of the current request asks for. */
  datatype Request = NoRequest | FirstDescriptor | AddressRequest | ConfigRequest | Descriptor(t: Target)

  /** What happened on the bus since the device was plugged in, and whether it happened in the order
      of USB 2.0, section 9.1.2: first-descriptor attempts, acknowledged address and configuration
      requests, and descriptors whose last packet was received. */
  datatype Connection = Connection(attempts: nat, addressAcked: bool, configAcked: bool, fetched: set<Target>,
                                   inOrder: bool)

  /** Endpoint 0: the outstanding transaction and the request it belongs to; then how many
      transactions were issued, and the number of the one whose outcome was recorded, and consumed, last. */
  datatype Endpoint = Endpoint(flight: Option<Transaction>, request: Request, issued: nat, recorded: nat, consumed: nat)

  datatype Host = Host(connect: Connect, fetch: Fetch, txEnd: End, rxEnd: End,
                       retry: nat, frame0: nat, frame1: nat, index: StatusIndex, spinning: bool,
                       flags: Flags, target: Target, info: Info,
                       storage: bool, error: nat, ep: Endpoint, conn: Connection)

  /** What one call of the thread routine finds: the frame number, and what the class driver decides. */
  datatype Seen = Seen(frame: nat, lunOk: bool, classFails: bool)

  /** The status bits an endpoint-0 interrupt finds; a STALL sets a bit the handler does not look at, so
      it shows as none of them. Then whether the packet received is the last one of its
      descriptor, and what the descriptor buffers then say. */
  datatype Bits = Bits(error: bool, nak: bool, rxReady: bool, last: bool, info: Info)

  const NO_ERR := 0
  const DEVICE_NO_RESPONSE := 1
  const RECEIVE_DESC_DVC_FAIL := 2
  const RECEIVE_DESC_DVC_TIMEOUT := 3
  const SET_ADDR_FAIL := 5
  const SET_ADDR_STATUS_ERR := 7
  const UNKNOWN_DEVICE := 8
  const RECEIVE_DESC_CFG_FAIL := 10
  const RECEIVE_DESC_CFG_ERROR := 11
  const SET_CONFIG_FAIL := 13
  const SET_CONFIG_STATUS_ERR := 14
  const CLASS_GET_MAX_LUN_ERR := 15
  const CLASS_OVER_MAX_LUN := 16

  const CLASS_IN_INTERFACE := 0x00
  const CLASS_MASS_STORAGE := 0x08
  const TYPE_CONFIGURATION := 0x02
  const MAX_INTERFACES := 5
  const MAX_RETRIES := 3
  const FRAMES_TO_WAIT := 50

  // ----- pieces of the thread routine

  function Flag(f: Flags, t: Target): Ready {
    match t
    case Dvc => f.dvc
    case Cfg => f.cfg
    case All => f.all
    case Man => f.man
    case Prod => f.prod
    case Ser => f.ser
    case Lun => f.lun
  }

  function SetFlag(f: Flags, t: Target, r: Ready): Flags {
    match t
    case Dvc => f.(dvc := r)
    case Cfg => f.(cfg := r)
    case All => f.(all := r)
    case Man => f.(man := r)
    case Prod => f.(prod := r)
    case Ser => f.(ser := r)
    case Lun => f.(lun := r)
  }

  /** A packet is written to, or asked for on, endpoint 0. */
  function Issue(e: Endpoint, t: Transaction, r: Request): Endpoint {
    e.(flight := Some(t), request := r, issued := e.issued + 1)
  }

  function Consume(e: Endpoint): Endpoint {
    e.(consumed := e.recorded)
  }

  /** The bus reset of a new connection drops whatever was under way. */
  function Reset(e: Endpoint): Endpoint {
    Endpoint(None, NoRequest, e.issued, e.issued, e.issued)
  }

  function TxTaken(h: Host): Host {
    h.(txEnd := EndIdle, ep := Consume(h.ep))
  }

  function RxTaken(h: Host): Host {
    h.(rxEnd := EndIdle, ep := Consume(h.ep))
  }

  function GoneWrong(h: Host, error: nat): Host {
    h.(error := error, connect := Disconnect)
  }

  /** USB_Host_get_descriptor: the new state, and whether it reports an error. */
  function FetchStep(h: Host): (Host, bool) {
    match h.fetch
    case FetchIdle => (h, false)
    case RequestDesc => (h.(fetch := WaitRequestEnd, ep := Issue(h.ep, Setup, Descriptor(h.target))), false)
    case WaitRequestEnd =>
      if h.txEnd.EndSucceed? then (TxTaken(h).(fetch := RxReply), false)
      else if h.txEnd.EndFail? then (TxTaken(h).(fetch := FetchIdle), true)
      else (h, false)
    case RxReply => (h.(fetch := WaitRxReplyEnd, ep := Issue(h.ep, InData, h.ep.request)), false)
    case WaitRxReplyEnd =>
      if h.rxEnd.EndSucceed? then (RxTaken(h).(fetch := OutStatus), false)
      else if h.rxEnd.EndFail? then (RxTaken(h).(fetch := FetchIdle), true)
      else (h, false)
    case OutStatus => (h.(fetch := WaitOutStatusEnd, ep := Issue(h.ep, OutStatusPacket, h.ep.request)), false)
    case WaitOutStatusEnd =>
      if h.txEnd.EndSucceed? then
        (TxTaken(h).(fetch := FetchIdle, flags := SetFlag(h.flags, h.target, DescCheck)), false)
      else if h.txEnd.EndFail? then (TxTaken(h).(fetch := FetchIdle), true)
      else (h, false)
  }

  function FetchError(t: Target): nat {
    match t
    case Dvc => RECEIVE_DESC_DVC_FAIL
    case Lun => CLASS_GET_MAX_LUN_ERR
    case _ => RECEIVE_DESC_CFG_FAIL
  }

  /** Begin to fetch t if nothing is being fetched, and take one step of the fetch. */
  function FetchNow(h: Host, t: Target): Host {
    var h1 := if h.fetch.FetchIdle? then h.(fetch := RequestDesc, target := t) else h;
    var (h2, failed) := FetchStep(h1);
    if failed then GoneWrong(h2, FetchError(t)) else h2
  }

  function DvcChecked(h: Host): Host {
    if !h.flags.dvc.DescCheck? || h.info.devClass == CLASS_MASS_STORAGE then h
    else if h.info.devClass != CLASS_IN_INTERFACE then GoneWrong(h, UNKNOWN_DEVICE)
    else h.(flags := SetFlag(h.flags, Dvc, DescReady))
  }

  function CfgChecked(h: Host): Host {
    if !h.flags.cfg.DescCheck? then h else
      var h1 := if h.info.cfgType != TYPE_CONFIGURATION then GoneWrong(h, RECEIVE_DESC_CFG_ERROR) else h;
      var h2 := if h.info.totalLength > 0xFF then GoneWrong(h1, UNKNOWN_DEVICE) else h1;
      if h2.error == NO_ERR then h2.(flags := SetFlag(h2.flags, Cfg, DescReady)) else h2
  }

  function AllChecked(h: Host): Host {
    if !h.flags.all.DescCheck? then h else
      var h1 := if h.info.interfaces > MAX_INTERFACES then GoneWrong(h, UNKNOWN_DEVICE) else h;
      var h2 := if h.info.fault != NO_ERR then GoneWrong(h1, h.info.fault) else h1;
      var h3 := h2.(storage := h.storage || h.info.storage);
      if !h3.storage then GoneWrong(h3, UNKNOWN_DEVICE) else h3.(flags := SetFlag(h3.flags, All, DescReady))
  }

  function Named(h: Host, t: Target): bool {
    match t
    case Man => h.info.man
    case Prod => h.info.prod
    case Ser => h.info.ser
    case _ => true
  }

  /** A string descriptor that is not to be fetched now: skipped, taken note of, or left alone. */
  function StringChecked(h: Host, t: Target): Host {
    match Flag(h.flags, t)
    case DescNone => h.(flags := SetFlag(h.flags, t, DescWithout))
    case DescCheck => h.(flags := SetFlag(h.flags, t, DescReady))
    case _ => h
  }

  predicate Wanted(h: Host, t: Target) {
    Flag(h.flags, t).DescNone? && Named(h, t)
  }

  /** The DEVICE_ENUM case: each descriptor in turn is fetched if it is missing, else checked; a failed
      check does not stop the pass, and a pass that reaches the end goes on to SET_CONFIGURATION. */
  function EnumPass(h: Host): Host {
    if Wanted(h, Dvc) then FetchNow(h, Dvc) else EnumFromCfg(DvcChecked(h))
  }

  function EnumFromCfg(h: Host): Host {
    if Wanted(h, Cfg) then FetchNow(h, Cfg) else EnumFromAll(CfgChecked(h))
  }

  function EnumFromAll(h: Host): Host {
    if Wanted(h, All) then FetchNow(h, All) else EnumFromMan(AllChecked(h))
  }

  function EnumFromMan(h: Host): Host {
    if Wanted(h, Man) then FetchNow(h, Man) else EnumFromProd(StringChecked(h, Man))
  }

  function EnumFromProd(h: Host): Host {
    if Wanted(h, Prod) then FetchNow(h, Prod) else EnumFromSer(StringChecked(h, Prod))
  }

  function EnumFromSer(h: Host): Host {
    if Wanted(h, Ser) then FetchNow(h, Ser) else
      var h1 := StringChecked(h, Ser);
      if AllThere(h1.flags) then h1.(connect := SetConfig) else h1
  }

  predicate AllThere(f: Flags) {
    && !f.dvc.DescNone? && !f.cfg.DescNone? && !f.all.DescNone?
    && !f.man.DescNone? && !f.prod.DescNone? && !f.ser.DescNone?
  }

  /** The class driver on endpoint 0: the request for the number of units, then its check. */
  function ClassPass(h: Host, seen: Seen): Host {
    if h.flags.lun.DescNone? then FetchNow(h, Lun)
    else if h.flags.lun.DescCheck? then
      if seen.lunOk then h.(flags := SetFlag(h.flags, Lun, DescReady)) else GoneWrong(h, CLASS_OVER_MAX_LUN)
    else if seen.classFails then h.(connect := Disconnect)
    else h
  }

  predicate FramesPassed(frame0: nat, frame1: nat) {
    frame1 != 0 && if frame1 >= frame0 then frame1 - frame0 > FRAMES_TO_WAIT else frame1 > FRAMES_TO_WAIT
  }

  function Restarted(h: Host): Host {
    h.(frame0 := 0, frame1 := 0, connect := WaitA)
  }

  /** One more failed attempt at the first descriptor. */
  function AttemptFailed(h: Host, error: nat): Host {
    if h.retry + 1 >= MAX_RETRIES then GoneWrong(h.(retry := 0), error)
    else h.(retry := h.retry + 1, connect := ConnectRetry)
  }

  function FlagsCleared(f: Flags): Flags {
    Flags(DescNone, DescNone, DescNone, DescNone, DescNone, DescNone, f.lun)
  }

  function Milestone(c: Connection, ok: bool): Connection {
    c.(inOrder := c.inOrder && ok)
  }

  /** The end of the busy-wait for the status packet: the address is programmed, or the class entered. */
  function StatusTaken(h: Host): Host {
    var ok := h.rxEnd.EndSucceed?;
    var h1 := RxTaken(h).(spinning := false);
    match h.index
    case AddressIndex =>
      if ok then
        h1.(index := NoIndex, connect := Enumerate, flags := FlagsCleared(h.flags),
            conn := Milestone(h.conn, h.conn.addressAcked))
      else GoneWrong(h1.(index := NoIndex), SET_ADDR_STATUS_ERR)
    case ConfigIndex =>
      if ok then h1.(index := NoIndex, connect := ClassHandle, conn := Milestone(h.conn, h.conn.configAcked))
      else GoneWrong(h1.(index := NoIndex), SET_CONFIG_STATUS_ERR)
    case NoIndex => h.(spinning := false)
  }

  function SetupEnded(h: Host, failure: nat): Host {
    match h.txEnd
    case EndIdle => h
    case EndSucceed => TxTaken(h).(connect := RxStatusPacket)
    case _ => GoneWrong(TxTaken(h), failure)
  }

  // ----- the thread routine

  /** USB_Host_thread. The busy-wait in DEVICE_RX_STATUS_PACKET is split: the call that issues the
      status packet stays inside, and each further step looks whether the wait is over. */
  function Threaded(h: Host, seen: Seen): Host {
    if h.spinning then (if h.rxEnd.EndIdle? then h else StatusTaken(h)) else
      match h.connect
      case Idle => h
      case NewDevice =>
        Restarted(h.(retry := 0, storage := false, txEnd := EndIdle, rxEnd := EndIdle, error := NO_ERR,
                     fetch := FetchIdle, ep := Reset(h.ep)))
      case ConnectRetry => Restarted(h)
      case WaitA => h.(frame0 := seen.frame, connect := if seen.frame != 0 then WaitB else WaitA)
      case WaitB => h.(frame1 := seen.frame, connect := if FramesPassed(h.frame0, seen.frame) then TxGetDvc else WaitB)
      case TxGetDvc =>
        h.(connect := WaitTxGetDvc, ep := Issue(h.ep, Setup, FirstDescriptor),
           conn := h.conn.(attempts := h.conn.attempts + 1))
      case WaitTxGetDvc =>
        if h.txEnd.EndFail? then AttemptFailed(TxTaken(h), DEVICE_NO_RESPONSE)
        else if h.txEnd.EndSucceed? then TxTaken(h).(connect := RxDvc)
        else h
      case RxDvc => h.(connect := WaitRxDvc, ep := Issue(h.ep, InData, h.ep.request))
      case WaitRxDvc =>
        (match h.rxEnd
         case EndIdle => h
         case EndSucceed => RxTaken(h).(connect := SecondReset, frame0 := 0, frame1 := 0)
         case EndFail => GoneWrong(RxTaken(h), RECEIVE_DESC_DVC_TIMEOUT)
         case EndNakLimit => AttemptFailed(RxTaken(h), RECEIVE_DESC_DVC_TIMEOUT))
      case SecondReset =>
        if h.frame0 == 0 && h.frame1 == 0 then h.(frame0 := seen.frame)
        else h.(frame1 := seen.frame, connect := if FramesPassed(h.frame0, seen.frame) then SetAddress else SecondReset)
      case SetAddress =>
        h.(connect := WaitSendEnd, index := AddressIndex, ep := Issue(h.ep, Setup, AddressRequest))
      case WaitSendEnd =>
        (match h.index
         case AddressIndex => SetupEnded(h, SET_ADDR_FAIL)
         case ConfigIndex => SetupEnded(h, SET_CONFIG_FAIL)
         case NoIndex => h)
      case RxStatusPacket => h.(spinning := true, ep := Issue(h.ep, InStatusPacket, h.ep.request))
      case Enumerate => EnumPass(h)
      case SetConfig =>
        h.(connect := WaitSendEnd, index := ConfigIndex, ep := Issue(h.ep, Setup, ConfigRequest),
           conn := Milestone(h.conn, {Dvc, Cfg, All} <= h.conn.fetched))
      case ClassHandle => ClassPass(h, seen)
      case Disconnect => h.(connect := Idle)
  }

  // ----- the interrupts

  /** The first switch of the endpoint-0 interrupt, on the connection state. */
  function ConnectRecorded(h: Host, b: Bits): Host {
    match h.connect
    case WaitTxGetDvc => h.(txEnd := if b.error then EndFail else EndSucceed)
    case WaitRxDvc =>
      if b.rxReady then h.(rxEnd := EndSucceed, info := Received(h.info, Dvc, b.info))
      else h.(rxEnd := RxFailure(b, h.rxEnd))
    case WaitSendEnd => h.(txEnd := if b.error then EndFail else if b.nak then EndNakLimit else EndSucceed)
    case RxStatusPacket => h.(rxEnd := if b.rxReady then EndSucceed else RxFailure(b, h.rxEnd))
    case _ => h
  }

  function RxFailure(b: Bits, was: End): End {
    if b.error then EndFail else if b.nak then EndNakLimit else was
  }

  /** The second switch, on the fetch state; only an unfinished descriptor asks for another packet. */
  function FetchRecorded(h: Host, b: Bits): Host {
    match h.fetch
    case WaitRequestEnd => h.(txEnd := if b.error || b.nak then EndFail else EndSucceed)
    case WaitRxReplyEnd =>
      if b.rxReady then
        var h1 := h.(info := Received(h.info, h.target, b.info));
        if b.last then h1.(rxEnd := EndSucceed) else h1
      else if b.error || b.nak then h.(rxEnd := EndFail)
      else h
    case WaitOutStatusEnd => h.(txEnd := if b.error || b.nak then EndFail else EndSucceed)
    case _ => h
  }

  /** A received packet changes only what its own descriptor says. */
  function Received(i: Info, t: Target, n: Info): Info {
    match t
    case Dvc => i.(devClass := n.devClass, man := n.man, prod := n.prod, ser := n.ser)
    case Cfg => i.(cfgType := n.cfgType, totalLength := n.totalLength, interfaces := n.interfaces)
    case All => i.(storage := n.storage, fault := n.fault)
    case _ => i
  }

  predicate AsksAgain(h: Host, b: Bits) {
    h.fetch.WaitRxReplyEnd? && b.rxReady && !b.last
  }

  /** What the end of a transaction means on the bus. */
  function Acknowledged(c: Connection, e: Endpoint, b: Bits): Connection {
    match (e.flight, e.request)
    case (Some(InStatusPacket), AddressRequest) => if b.rxReady then c.(addressAcked := true) else c
    case (Some(InStatusPacket), ConfigRequest) => if b.rxReady then c.(configAcked := true) else c
    case (Some(InData), Descriptor(t)) => if b.rxReady && b.last then c.(fetched := c.fetched + {t}) else c
    case _ => c
  }

  /** Endpoint_0_IRQHandler: the outstanding transaction has ended. */
  function Ep0Interrupted(h: Host, b: Bits): Host {
    var h1 := FetchRecorded(ConnectRecorded(h, b), b);
    var noted := h1.txEnd != h.txEnd || h1.rxEnd != h.rxEnd;
    h1.(ep := h.ep.(flight := if AsksAgain(h, b) then Some(InData) else None,
                    recorded := if noted then h.ep.issued else h.ep.recorded),
        conn := Acknowledged(h.conn, h.ep, b))
  }

  /** The connect branch of USB_Status_IRQHandler, with the mass-storage driver's connect handler. */
  function Plugged(h: Host): Host {
    h.(connect := NewDevice, flags := SetFlag(h.flags, Lun, DescNone),
       ep := h.ep.(request := NoRequest), conn := Connection(0, false, false, {}, true))
  }

  /** Its disconnect branch. */
  function Unplugged(h: Host): Host {
    h.(connect := Disconnect, flags := SetFlag(h.flags, Lun, DescNone))
  }

  // ----- the routines themselves

  class Driver {
    var connect: Connect
    var fetch: Fetch
    var txEnd: End
    var rxEnd: End
    var retry: nat
    var frame0: nat
    var frame1: nat
    var index: StatusIndex
    var spinning: bool
    var flags: Flags
    var target: Target
    var info: Info
    var storage: bool
    var error: nat
    ghost var ep: Endpoint
    ghost var conn: Connection

    ghost function State(): Host
      reads this
    {
      Host(connect, fetch, txEnd, rxEnd, retry, frame0, frame1, index, spinning,
           flags, target, info, storage, error, ep, conn)
    }

    method Fail(code: nat)
      modifies this`error, this`connect
      ensures State() == GoneWrong(old(State()), code)
    {
      error := code;
      connect := Disconnect;
    }

    method TakeTx()
      modifies this`txEnd, this`ep
      ensures State() == TxTaken(old(State()))
    {
      txEnd := EndIdle;
      ep := Consume(ep);
    }

    method TakeRx()
      modifies this`rxEnd, this`ep
      ensures State() == RxTaken(old(State()))
    {
      rxEnd := EndIdle;
      ep := Consume(ep);
    }

    /** USB_Host_get_descriptor */
    method GetDescriptor() returns (failed: bool)
      modifies this`fetch, this`txEnd, this`rxEnd, this`flags, this`ep
      ensures (State(), failed) == FetchStep(old(State()))
    {
      failed := false;
      match fetch {
        case RequestDesc =>
          fetch := WaitRequestEnd;
          ep := Issue(ep, Setup, Descriptor(target));
        case WaitRequestEnd =>
          if txEnd == EndSucceed {
            TakeTx();
            fetch := RxReply;
          } else if txEnd == EndFail {
            TakeTx();
            fetch := FetchIdle;
            failed := true;
          }
        case RxReply =>
          fetch := WaitRxReplyEnd;
          ep := Issue(ep, InData, ep.request);
        case WaitRxReplyEnd =>
          if rxEnd == EndSucceed {
            TakeRx();
            fetch := OutStatus;
          } else if rxEnd == EndFail {
            TakeRx();
            fetch := FetchIdle;
            failed := true;
          }
        case OutStatus =>
          fetch := WaitOutStatusEnd;
          ep := Issue(ep, OutStatusPacket, ep.request);
        case WaitOutStatusEnd =>
          if txEnd == EndSucceed {
            TakeTx();
            fetch := FetchIdle;
            flags := SetFlag(flags, target, DescCheck);
          } else if txEnd == EndFail {
            TakeTx();
            fetch := FetchIdle;
            failed := true;
          }
        case FetchIdle =>
      }
    }

    /** Begin to fetch t if nothing is being fetched, and take one step of the fetch. */
    method FetchDescriptor(t: Target)
      modifies this
      ensures State() == FetchNow(old(State()), t)
    {
      if fetch == FetchIdle {
        fetch := RequestDesc;
        target := t;
      }
      var failed := GetDescriptor();
      if failed {
        Fail(FetchError(t));
      }
    }

    method CheckDvc()
      modifies this`error, this`connect, this`flags
      ensures State() == DvcChecked(old(State()))
    {
      if flags.dvc == DescCheck {
        if info.devClass != CLASS_MASS_STORAGE {
          if info.devClass != CLASS_IN_INTERFACE {
            Fail(UNKNOWN_DEVICE);
          } else {
            flags := flags.(dvc := DescReady);
          }
        }
      }
    }

    method CheckCfg()
      modifies this`error, this`connect, this`flags
      ensures State() == CfgChecked(old(State()))
    {
      if flags.cfg == DescCheck {
        if info.cfgType != TYPE_CONFIGURATION {
          Fail(RECEIVE_DESC_CFG_ERROR);
        }
        if info.totalLength > 0xFF {
          Fail(UNKNOWN_DEVICE);
        }
        if error == NO_ERR {
          flags := flags.(cfg := DescReady);
        }
      }
    }

    method CheckAll()
      modifies this`error, this`connect, this`flags, this`storage
      ensures State() == AllChecked(old(State()))
    {
      if flags.all == DescCheck {
        if info.interfaces > MAX_INTERFACES {
          Fail(UNKNOWN_DEVICE);
        }
        if info.fault != NO_ERR {
          Fail(info.fault);
        }
        if info.storage {
          storage := true;
        }
        if !storage {
          Fail(UNKNOWN_DEVICE);
        } else {
          flags := flags.(all := DescReady);
        }
      }
    }

    method CheckString(t: Target)
      modifies this`flags
      ensures State() == StringChecked(old(State()), t)
    {
      if Flag(flags, t) == DescNone {
        flags := SetFlag(flags, t, DescWithout);
      } else if Flag(flags, t) == DescCheck {
        flags := SetFlag(flags, t, DescReady);
      }
    }

    /** The DEVICE_ENUM case of the thread. */
    method EnumerateOnce()
      modifies this
      ensures State() == EnumPass(old(State()))
    {
      if flags.dvc == DescNone {
        FetchDescriptor(Dvc);
        return;
      }
      CheckDvc();
      if flags.cfg == DescNone {
        FetchDescriptor(Cfg);
        return;
      }
      CheckCfg();
      if flags.all == DescNone {
        FetchDescriptor(All);
        return;
      }
      CheckAll();
      EnumerateStrings();
    }

    method EnumerateStrings()
      modifies this
      ensures State() == EnumFromMan(old(State()))
    {
      if flags.man == DescNone && info.man {
        FetchDescriptor(Man);
        return;
      }
      CheckString(Man);
      if flags.prod == DescNone && info.prod {
        FetchDescriptor(Prod);
        return;
      }
      CheckString(Prod);
      if flags.ser == DescNone && info.ser {
        FetchDescriptor(Ser);
        return;
      }
      CheckString(Ser);
      if AllThere(flags) {
        connect := SetConfig;
      }
    }

    method RetryOrFail(code: nat)
      modifies this`retry, this`error, this`connect
      ensures State() == AttemptFailed(old(State()), code)
    {
      retry := retry + 1;
      if retry >= MAX_RETRIES {
        retry := 0;
        Fail(code);
      } else {
        connect := ConnectRetry;
      }
    }

    /** What follows the busy-wait of DEVICE_RX_STATUS_PACKET. */
    method TakeStatus()
      requires spinning && rxEnd != EndIdle
      modifies this
      ensures State() == StatusTaken(old(State()))
    {
      var ok := rxEnd == EndSucceed;
      spinning := false;
      if index == AddressIndex {
        index := NoIndex;
        TakeRx();
        if ok {
          connect := Enumerate;
          flags := FlagsCleared(flags);
          conn := Milestone(conn, conn.addressAcked);
        } else {
          Fail(SET_ADDR_STATUS_ERR);
        }
      } else if index == ConfigIndex {
        index := NoIndex;
        TakeRx();
        if ok {
          connect := ClassHandle;
          conn := Milestone(conn, conn.configAcked);
        } else {
          Fail(SET_CONFIG_STATUS_ERR);
        }
      }
    }

    method EndSetup(code: nat)
      modifies this`txEnd, this`ep, this`error, this`connect
      ensures State() == SetupEnded(old(State()), code)
    {
      if txEnd == EndFail || txEnd == EndNakLimit {
        TakeTx();
        Fail(code);
      } else if txEnd == EndSucceed {
        TakeTx();
        connect := RxStatusPacket;
      }
    }

    /** The first half of USB_Host_thread: from a new device to its first descriptor. */
    method ThreadAttempt(seen: Seen)
      requires !spinning
      requires connect in {NewDevice, ConnectRetry, WaitA, WaitB, TxGetDvc, WaitTxGetDvc, RxDvc, WaitRxDvc}
      modifies this
      ensures State() == Threaded(old(State()), seen)
    {
      match connect {
        case NewDevice =>
          retry, storage, error := 0, false, NO_ERR;
          txEnd, rxEnd := EndIdle, EndIdle;
          ep := Reset(ep);
          frame0, frame1 := 0, 0;
          fetch := FetchIdle;
          connect := WaitA;
        case ConnectRetry =>
          frame0, frame1 := 0, 0;
          connect := WaitA;
        case WaitA =>
          frame0 := seen.frame;
          if frame0 != 0 { connect := WaitB; }
        case WaitB =>
          frame1 := seen.frame;
          if FramesPassed(frame0, frame1) { connect := TxGetDvc; }
        case TxGetDvc =>
          connect := WaitTxGetDvc;
          ep := Issue(ep, Setup, FirstDescriptor);
          conn := conn.(attempts := conn.attempts + 1);
        case WaitTxGetDvc =>
          if txEnd == EndFail {
            TakeTx();
            RetryOrFail(DEVICE_NO_RESPONSE);
          } else if txEnd == EndSucceed {
            TakeTx();
            connect := RxDvc;
          }
        case RxDvc =>
          connect := WaitRxDvc;
          ep := Issue(ep, InData, ep.request);
        case WaitRxDvc =>
          if rxEnd == EndSucceed {
            TakeRx();
            connect := SecondReset;
            frame0, frame1 := 0, 0;
          } else if rxEnd == EndFail {
            TakeRx();
            Fail(RECEIVE_DESC_DVC_TIMEOUT);
          } else if rxEnd == EndNakLimit {
            TakeRx();
            RetryOrFail(RECEIVE_DESC_DVC_TIMEOUT);
          }
      }
    }

    /** USB_Host_thread */
    method Thread(seen: Seen)
      modifies this
      ensures State() == Threaded(old(State()), seen)
    {
      if spinning {
        if rxEnd != EndIdle { TakeStatus(); }
        return;
      }
      match connect {
        case SecondReset =>
          if frame0 == 0 && frame1 == 0 {
            frame0 := seen.frame;
          } else {
            frame1 := seen.frame;
            if FramesPassed(frame0, frame1) { connect := SetAddress; }
          }
        case SetAddress =>
          connect := WaitSendEnd;
          index := AddressIndex;
          ep := Issue(ep, Setup, AddressRequest);
        case WaitSendEnd =>
          if index == AddressIndex {
            EndSetup(SET_ADDR_FAIL);
          } else if index == ConfigIndex {
            EndSetup(SET_CONFIG_FAIL);
          }
        case RxStatusPacket =>
          ep := Issue(ep, InStatusPacket, ep.request);
          spinning := true;
        case Enumerate => EnumerateOnce();
        case SetConfig =>
          connect := WaitSendEnd;
          index := ConfigIndex;
          ep := Issue(ep, Setup, ConfigRequest);
          conn := Milestone(conn, {Dvc, Cfg, All} <= conn.fetched);
        case ClassHandle => HandleClass(seen);
        case Disconnect => connect := Idle;
        case Idle =>
        case _ => ThreadAttempt(seen);
      }
    }

    /** The endpoint-0 part of the class driver, and its verdict. */
    method HandleClass(seen: Seen)
      modifies this
      ensures State() == ClassPass(old(State()), seen)
    {
      if flags.lun == DescNone {
        FetchDescriptor(Lun);
      } else if flags.lun == DescCheck {
        if seen.lunOk {
          flags := flags.(lun := DescReady);
        } else {
          Fail(CLASS_OVER_MAX_LUN);
        }
      } else if seen.classFails {
        connect := Disconnect;
      }
    }

    /** Endpoint_0_IRQHandler */
    method Ep0Interrupt(b: Bits)
      modifies this
      ensures State() == Ep0Interrupted(old(State()), b)
    {
      ghost var (tx, rx, again) := (txEnd, rxEnd, AsksAgain(State(), b));
      ConnectInterrupt(b);
      FetchInterrupt(b);
      conn := Acknowledged(conn, ep, b);
      ep := ep.(flight := if again then Some(InData) else None,
                recorded := if txEnd != tx || rxEnd != rx then ep.issued else ep.recorded);
    }

    /** The connect branch of USB_Status_IRQHandler */
    method PlugInterrupt()
      modifies this
      ensures State() == Plugged(old(State()))
    {
      connect := NewDevice;
      flags := flags.(lun := DescNone);
      ep := ep.(request := NoRequest);
      conn := Connection(0, false, false, {}, true);
    }

    /** Its disconnect branch */
    method UnplugInterrupt()
      modifies this`connect, this`flags
      ensures State() == Unplugged(old(State()))
    {
      connect := Disconnect;
      flags := flags.(lun := DescNone);
    }

    method ConnectInterrupt(b: Bits)
      modifies this`txEnd, this`rxEnd, this`info
      ensures State() == ConnectRecorded(old(State()), b)
    {
      match connect {
        case WaitTxGetDvc =>
          txEnd := if b.error then EndFail else EndSucceed;
        case WaitRxDvc =>
          if b.rxReady {
            info := Received(info, Dvc, b.info);
            rxEnd := EndSucceed;
          } else if b.error {
            rxEnd := EndFail;
          } else if b.nak {
            rxEnd := EndNakLimit;
          }
        case WaitSendEnd =>
          txEnd := if b.error then EndFail else if b.nak then EndNakLimit else EndSucceed;
        case RxStatusPacket =>
          if b.rxReady {
            rxEnd := EndSucceed;
          } else if b.error {
            rxEnd := EndFail;
          } else if b.nak {
            rxEnd := EndNakLimit;
          }
        case _ =>
      }
    }

    method FetchInterrupt(b: Bits)
      modifies this`txEnd, this`rxEnd, this`info
      ensures State() == FetchRecorded(old(State()), b)
    {
      match fetch {
        case WaitRequestEnd =>
          txEnd := if b.error || b.nak then EndFail else EndSucceed;
        case WaitRxReplyEnd =>
          if b.rxReady {
            info := Received(info, target, b.info);
            if b.last { rxEnd := EndSucceed; }
          } else if b.error || b.nak {
            rxEnd := EndFail;
          }
        case WaitOutStatusEnd =>
          txEnd := if b.error || b.nak then EndFail else EndSucceed;
        case _ =>
      }
    }
  }
}
