/** Every run of the enumeration: calls of the thread routine, endpoint-0 interrupts for outstanding
    transactions, and connect and disconnect events at any point in between. */
module UsbHostRuns {
  import opened UsbHost

  datatype Event = Call(seen: Seen) | Irq(bits: Bits) | Plug | Unplug

  /** The host; whether a connect event has arrived since the thread last entered its busy-wait; and
      whether a connect event was lost, that is the thread came out of its wait with success after one
      had arrived, and no other has arrived since. */
  datatype System = System(h: Host, late: bool, lost: bool)

  /** An endpoint-0 interrupt ends the outstanding transaction, with any status. */
  predicate Enabled(y: System, e: Event) {
    e.Irq? ==> y.h.ep.flight.Some?
  }

  predicate WakesUp(h: Host) {
    h.spinning && !h.rxEnd.EndIdle?
  }

  function Step(y: System, e: Event): System {
    if !Enabled(y, e) then y else
      match e
      case Call(seen) =>
        var h := Threaded(y.h, seen);
        System(h, y.late && (y.h.spinning || !h.spinning), y.lost || (WakesUp(y.h) && y.h.rxEnd.EndSucceed? && y.late))
      case Irq(bits) => y.(h := Ep0Interrupted(y.h, bits))
      case Plug => System(Plugged(y.h), true, false)
      case Unplug => y.(h := Unplugged(y.h))
  }

  function Run(y: System, es: seq<Event>): System
    decreases |es|
  {
    if es == [] then y else Run(Step(y, es[0]), es[1..])
  }

  function Start(info: Info): System {
    System(Host(Idle, FetchIdle, EndIdle, EndIdle, 0, 0, 0, NoIndex, false,
                Flags(DescNone, DescNone, DescNone, DescNone, DescNone, DescNone, DescNone), Dvc, info,
                false, NO_ERR, Endpoint(None, NoRequest, 0, 0, 0), Connection(0, false, false, {}, true)), false, false)
  }

  // ----- the invariant

  /** The thread is between two devices: nothing it left behind is looked at before the next reset. */
  predicate AtRest(h: Host) {
    !h.spinning && (h.connect.Idle? || h.connect.Disconnect? || h.connect.NewDevice?)
  }

  predicate Fetching(h: Host) {
    !h.spinning && (h.connect.Enumerate? || h.connect.ClassHandle?)
  }

  /** The connection states in which the thread waits for endpoint 0. */
  predicate WaitsForEndpoint(c: Connect) {
    c.WaitTxGetDvc? || c.WaitRxDvc? || c.WaitSendEnd? || c.RxStatusPacket?
  }

  /** t is the first descriptor an enumeration pass would fetch. */
  predicate IsNext(h: Host, t: Target) {
    && Wanted(h, t)
    && (t.Lun? ==> h.connect.ClassHandle?)
    && (!t.Lun? ==> h.connect.Enumerate?)
    && (t.Cfg? || t.All? || t.Man? || t.Prod? || t.Ser? ==> !Wanted(h, Dvc))
    && (t.All? || t.Man? || t.Prod? || t.Ser? ==> !Wanted(h, Cfg))
    && (t.Man? || t.Prod? || t.Ser? ==> !Wanted(h, All))
    && (t.Prod? || t.Ser? ==> !Wanted(h, Man))
    && (t.Ser? ==> !Wanted(h, Prod))
  }

  /** The two state machines take turns on endpoint 0. */
  predicate TakeTurns(h: Host) {
    && (!AtRest(h) && !Fetching(h) ==> h.fetch.FetchIdle?)
    && (Fetching(h) && !h.fetch.FetchIdle? ==> IsNext(h, h.target))
    && (Fetching(h) && !h.fetch.FetchIdle? && !h.fetch.RequestDesc? ==> h.ep.request == Descriptor(h.target))
    && (h.spinning || h.connect.WaitSendEnd? || h.connect.RxStatusPacket? ==> !h.index.NoIndex?)
    && (h.spinning ==> h.connect.RxStatusPacket? || h.connect.NewDevice? || h.connect.Disconnect?)
    && (h.connect.WaitSendEnd? || h.connect.RxStatusPacket? ==>
          h.ep.request == if h.index.AddressIndex? then AddressRequest else ConfigRequest)
    && (h.spinning && !h.ep.request.NoRequest? ==>
          h.ep.request == if h.index.AddressIndex? then AddressRequest else ConfigRequest)
  }

  /** The transaction whose end the thread is waiting for. */
  function Awaited(h: Host): Option<Transaction> {
    if h.spinning then Some(InStatusPacket)
    else if h.connect.WaitTxGetDvc? || h.connect.WaitSendEnd? then Some(Setup)
    else if h.connect.WaitRxDvc? then Some(InData)
    else if !Fetching(h) then None
    else if h.fetch.WaitRequestEnd? then Some(Setup)
    else if h.fetch.WaitRxReplyEnd? then Some(InData)
    else if h.fetch.WaitOutStatusEnd? then Some(OutStatusPacket)
    else None
  }

  predicate BothIdle(h: Host) {
    h.txEnd.EndIdle? && h.rxEnd.EndIdle?
  }

  /** The outcome of transaction t has been recorded, in the flag of its direction alone. */
  predicate OutcomeRecorded(h: Host, t: Transaction) {
    if t.Setup? || t.OutStatusPacket? then !h.txEnd.EndIdle? && h.rxEnd.EndIdle?
    else h.txEnd.EndIdle? && !h.rxEnd.EndIdle?
  }

  /** At most one transaction is under way, and it is the one awaited: either outstanding, or ended
      with its outcome recorded and not yet consumed. An IN transaction that ends in a STALL, or a status
      packet that ends after the connection changed during the busy-wait, leaves no outcome. */
  predicate OneAtATime(h: Host) {
    AtRest(h) ||
    match Awaited(h)
    case None => h.ep.flight.None? && BothIdle(h) && h.ep.consumed == h.ep.recorded == h.ep.issued
    case Some(t) =>
      && h.ep.issued == h.ep.consumed + 1
      && ((h.ep.flight == Some(t) && BothIdle(h) && h.ep.recorded == h.ep.consumed)
          || (h.ep.flight.None? && OutcomeRecorded(h, t) && h.ep.recorded == h.ep.issued)
          || ((t.InData? || t.InStatusPacket?) && h.ep.flight.None? && BothIdle(h) && h.ep.recorded == h.ep.consumed))
  }

  /** Attempts are counted, and what the driver takes as done was acknowledged on this connection. */
  predicate OnThisConnection(h: Host) {
    && h.conn.attempts <= MAX_RETRIES
    && (!h.spinning ==>
          && (h.connect.ConnectRetry? || h.connect.WaitA? || h.connect.WaitB? || h.connect.TxGetDvc? ==>
                h.conn.attempts == h.retry < MAX_RETRIES)
          && (h.connect.WaitTxGetDvc? || h.connect.RxDvc? || h.connect.WaitRxDvc? ==>
                h.conn.attempts == h.retry + 1 <= MAX_RETRIES)
          && (h.connect.Enumerate? ==> FlagsMeanFetched(h))
          && (h.connect.SetConfig? ==> {Dvc, Cfg, All} <= h.conn.fetched)
          && (Fetching(h) && DataStageDone(h) ==> h.target in h.conn.fetched))
    && (h.spinning && h.rxEnd.EndSucceed? && !h.ep.request.NoRequest? ==>
          if h.index.AddressIndex? then h.conn.addressAcked else h.conn.configAcked)
  }

  predicate DataStageDone(h: Host) {
    (h.fetch.WaitRxReplyEnd? && h.rxEnd.EndSucceed?) || h.fetch.OutStatus? || h.fetch.WaitOutStatusEnd?
  }

  predicate FlagsMeanFetched(h: Host) {
    && (!h.flags.dvc.DescNone? ==> Dvc in h.conn.fetched)
    && (!h.flags.cfg.DescNone? ==> Cfg in h.conn.fetched)
    && (!h.flags.all.DescNone? ==> All in h.conn.fetched)
  }

  predicate Inv(y: System) {
    && TakeTurns(y.h)
    && OneAtATime(y.h)
    && OnThisConnection(y.h)
    && (y.h.conn.inOrder <==> !y.lost)
    && (y.h.spinning ==> (y.late <==> y.h.ep.request.NoRequest?))
    && (y.h.connect.NewDevice? ==> y.h.conn.attempts == 0 && y.h.ep.request.NoRequest?)
    && (y.h.ep.request.NoRequest? ==> !y.h.conn.addressAcked && !y.h.conn.configAcked)
  }

  // ----- every event keeps it

  lemma EventsKeep(y: System, e: Event)
    requires Inv(y) && (e.Plug? || e.Unplug?)
    ensures Inv(Step(y, e))
  {
  }

  lemma IrqKeeps(y: System, b: Bits)
    requires Inv(y) && Enabled(y, Irq(b))
    ensures Inv(Step(y, Irq(b)))
  {
    IrqTakesTurns(y, b);
    IrqOneAtATime(y, b);
    if AtRest(y.h) {
      IrqAtRest(y, b);
    } else {
      IrqOnConnection(y, b);
    }
    hide TakeTurns, OneAtATime, OnThisConnection;
  }

  lemma IrqAtRest(y: System, b: Bits)
    requires Inv(y) && AtRest(y.h)
    ensures OnThisConnection(Ep0Interrupted(y.h, b))
  {
    hide TakeTurns, OneAtATime;
  }

  lemma IrqTakesTurns(y: System, b: Bits)
    requires Inv(y) && Enabled(y, Irq(b))
    ensures TakeTurns(Ep0Interrupted(y.h, b))
  {
    hide OneAtATime, OnThisConnection;
    if Fetching(y.h) && !y.h.fetch.FetchIdle? {
      StillNext(y.h, b);
    }
    hide IsNext;
  }

  lemma IrqOneAtATime(y: System, b: Bits)
    requires Inv(y) && Enabled(y, Irq(b))
    ensures OneAtATime(Ep0Interrupted(y.h, b))
  {
    if Fetching(y.h) {
      IrqOneFetching(y, b);
    } else if !AtRest(y.h) {
      IrqOneWaiting(y, b);
    } else {
      hide TakeTurns, OnThisConnection;
    }
  }

  lemma IrqOneFetching(y: System, b: Bits)
    requires Inv(y) && Enabled(y, Irq(b)) && Fetching(y.h)
    ensures OneAtATime(Ep0Interrupted(y.h, b))
  {
    hide TakeTurns, OnThisConnection;
  }

  lemma IrqOneWaiting(y: System, b: Bits)
    requires Inv(y) && Enabled(y, Irq(b)) && !Fetching(y.h) && !AtRest(y.h)
    ensures OneAtATime(Ep0Interrupted(y.h, b))
  {
    assert y.h.fetch.FetchIdle?;
    hide TakeTurns, OnThisConnection;
  }

  lemma IrqOnConnection(y: System, b: Bits)
    requires Inv(y) && Enabled(y, Irq(b)) && !AtRest(y.h)
    ensures OnThisConnection(Ep0Interrupted(y.h, b))
  {
    hide IsNext;
    if Fetching(y.h) && y.h.connect.Enumerate? {
      StillFetched(y.h, Ep0Interrupted(y.h, b));
    }
    hide FlagsMeanFetched;
  }

  /** A packet of the descriptor being fetched does not change which one is next. */
  lemma StillNext(h: Host, b: Bits)
    requires Fetching(h) && IsNext(h, h.target)
    ensures IsNext(Ep0Interrupted(h, b), h.target)
  {
  }

  lemma StillFetched(h: Host, h': Host)
    requires h'.flags == h.flags && h.conn.fetched <= h'.conn.fetched && FlagsMeanFetched(h)
    ensures FlagsMeanFetched(h')
  {
  }

  /** The thread comes out of its busy-wait, or stays in it. */
  lemma SpinKeeps(y: System, seen: Seen)
    requires Inv(y) && y.h.spinning
    ensures Inv(Step(y, Call(seen)))
  {
    var h' := Threaded(y.h, seen);
    assert h' == y.h || !h'.spinning;
  }

  /** The states from a new device to its first descriptor. */
  predicate Attempting(c: Connect) {
    || c.NewDevice? || c.ConnectRetry? || c.WaitA? || c.WaitB?
    || c.TxGetDvc? || c.WaitTxGetDvc? || c.RxDvc? || c.WaitRxDvc?
  }

  lemma AttemptKeeps(y: System, seen: Seen)
    requires Inv(y) && !y.h.spinning && Attempting(y.h.connect)
    ensures Inv(Step(y, Call(seen)))
  {
    hide IsNext, FlagsMeanFetched, FramesPassed;
    if y.h.connect.WaitTxGetDvc? || y.h.connect.WaitRxDvc? {
      AttemptEnds(y, seen);
    }
  }

  lemma AttemptEnds(y: System, seen: Seen)
    requires Inv(y) && !y.h.spinning && (y.h.connect.WaitTxGetDvc? || y.h.connect.WaitRxDvc?)
    ensures Inv(Step(y, Call(seen)))
  {
    hide IsNext, FlagsMeanFetched, FramesPassed, Wanted;
  }

  lemma RequestKeeps(y: System, seen: Seen)
    requires Inv(y) && !y.h.spinning && !Fetching(y.h) && !Attempting(y.h.connect)
    ensures Inv(Step(y, Call(seen)))
  {
    hide IsNext, FlagsMeanFetched, FramesPassed;
  }

  // ----- an enumeration pass

  /** What the checks of a pass may have changed: a flag is never lost, and only a string that is not
      named is marked without having been fetched. */
  predicate Grew(h: Host, h1: Host) {
    && h1 == h.(flags := h1.flags, connect := h1.connect, error := h1.error, storage := h1.storage)
    && (h1.connect.Enumerate? || h1.connect.Disconnect?)
    && h1.flags.dvc.DescNone? == h.flags.dvc.DescNone?
    && h1.flags.cfg.DescNone? == h.flags.cfg.DescNone?
    && h1.flags.all.DescNone? == h.flags.all.DescNone?
    && forall t :: Wanted(h1, t) == Wanted(h, t)
  }

  lemma DvcGrows(h: Host, h1: Host)
    requires Grew(h, h1)
    ensures Grew(h, DvcChecked(h1))
  {
  }

  lemma CfgGrows(h: Host, h1: Host)
    requires Grew(h, h1)
    ensures Grew(h, CfgChecked(h1))
  {
  }

  lemma AllGrows(h: Host, h1: Host)
    requires Grew(h, h1)
    ensures Grew(h, AllChecked(h1))
  {
  }

  lemma StringsGrow(h: Host, h1: Host, t: Target)
    requires Grew(h, h1) && !Wanted(h1, t) && (t.Man? || t.Prod? || t.Ser?)
    ensures Grew(h, StringChecked(h1, t)) && !Flag(StringChecked(h1, t).flags, t).DescNone?
    ensures forall u :: u != t ==> Flag(StringChecked(h1, t).flags, u) == Flag(h1.flags, u)
  {
  }

  predicate NoneBefore(h: Host, t: Target) {
    && !t.Lun?
    && (!t.Dvc? ==> !Wanted(h, Dvc))
    && (t.All? || t.Man? || t.Prod? || t.Ser? ==> !Wanted(h, Cfg))
    && (t.Man? || t.Prod? || t.Ser? ==> !Wanted(h, All))
    && (t.Prod? || t.Ser? ==> !Wanted(h, Man))
    && (t.Ser? ==> !Wanted(h, Prod))
  }

  lemma FetchStepKeeps(y: System, h1: Host, t: Target)
    requires Inv(y) && !y.h.spinning && y.h.connect.Enumerate? && Grew(y.h, h1)
    requires Wanted(h1, t) && NoneBefore(h1, t)
    ensures Inv(System(FetchNow(h1, t), y.late, y.lost))
  {
    hide FetchNow;
    var h2 := FetchNow(h1, t);
    FetchNowSteps(h1, t);
    if h2.connect.Disconnect? {
      FetchGivenUp(y, h1, h2);
    } else {
      NextIsTarget(y, h1, t);
      FetchStepLive(y, h1, t);
    }
  }

  lemma FetchGivenUp(y: System, h1: Host, h2: Host)
    requires Inv(y) && !y.h.spinning && Grew(y.h, h1) && OneFetchStep(h1, h2) && h2.connect.Disconnect?
    ensures Inv(System(h2, y.late, y.lost))
  {
    assert h1.conn == y.h.conn && h1.spinning == y.h.spinning && h1.ep == y.h.ep;
    hide IsNext, Grew;
  }

  lemma NextIsTarget(y: System, h1: Host, t: Target)
    requires Inv(y) && !y.h.spinning && y.h.connect.Enumerate? && Grew(y.h, h1)
    requires Wanted(h1, t) && NoneBefore(h1, t)
    ensures y.h.fetch.FetchIdle? || y.h.target == t
  {
    hide OneAtATime, OnThisConnection;
  }

  lemma FetchStepLive(y: System, h1: Host, t: Target)
    requires Inv(y) && !y.h.spinning && y.h.connect.Enumerate? && Grew(y.h, h1) && h1.connect.Enumerate?
    requires Wanted(h1, t) && NoneBefore(h1, t) && (y.h.fetch.FetchIdle? || y.h.target == t)
    requires FetchNow(h1, t).connect.Enumerate?
    ensures Inv(System(FetchNow(h1, t), y.late, y.lost))
  {
    FetchTakesTurns(y, h1, t);
    FetchOneAtATime(y, h1, t);
    FetchOnConnection(y, h1, t);
    FetchNowSteps(h1, t);
    hide TakeTurns, OneAtATime, OnThisConnection, Wanted, FetchNow;
  }

  lemma FetchTakesTurns(y: System, h1: Host, t: Target)
    requires Inv(y) && !y.h.spinning && y.h.connect.Enumerate? && Grew(y.h, h1) && h1.connect.Enumerate?
    requires Wanted(h1, t) && NoneBefore(h1, t) && (y.h.fetch.FetchIdle? || y.h.target == t)
    requires FetchNow(h1, t).connect.Enumerate?
    ensures TakeTurns(FetchNow(h1, t))
  {
    hide OneAtATime, OnThisConnection;
    var h2 := FetchNow(h1, t);
    assert !h2.fetch.FetchIdle? ==> h2.flags == h1.flags && h2.target == t;
  }

  lemma FetchOneAtATime(y: System, h1: Host, t: Target)
    requires Inv(y) && !y.h.spinning && y.h.connect.Enumerate? && Grew(y.h, h1) && h1.connect.Enumerate?
    requires FetchNow(h1, t).connect.Enumerate?
    ensures OneAtATime(FetchNow(h1, t))
  {
    hide TakeTurns, OnThisConnection, Wanted;
  }

  lemma FetchOnConnection(y: System, h1: Host, t: Target)
    requires Inv(y) && !y.h.spinning && y.h.connect.Enumerate? && Grew(y.h, h1) && h1.connect.Enumerate?
    requires y.h.fetch.FetchIdle? || y.h.target == t
    requires FetchNow(h1, t).connect.Enumerate?
    ensures OnThisConnection(FetchNow(h1, t))
  {
    hide TakeTurns, Wanted;
    FetchedSoFar(y.h, h1, t);
    hide FlagsMeanFetched;
  }

  /** One step of a fetch sets a flag only when its descriptor has been fetched completely. */
  lemma FetchedSoFar(h: Host, h1: Host, t: Target)
    requires !h.spinning && h.connect.Enumerate? && Grew(h, h1) && (h.fetch.FetchIdle? || h.target == t)
    requires FlagsMeanFetched(h) && OnThisConnection(h)
    ensures FlagsMeanFetched(FetchNow(h1, t))
  {
    hide Wanted;
  }

  lemma EnumKeeps(y: System, seen: Seen)
    requires Inv(y) && !y.h.spinning && y.h.connect.Enumerate?
    ensures Inv(Step(y, Call(seen)))
  {
    hide FetchNow, DvcChecked, CfgChecked, AllChecked, EnumFromMan, TakeTurns, OneAtATime, OnThisConnection;
    var h0 := y.h;
    assert Grew(h0, h0);
    DvcGrows(h0, h0);
    var h1 := DvcChecked(h0);
    CfgGrows(h0, h1);
    var h2 := CfgChecked(h1);
    AllGrows(h0, h2);
    hide Wanted, Inv;
    if Wanted(h0, Dvc) {
      FetchStepKeeps(y, h0, Dvc);
    } else if Wanted(h1, Cfg) {
      FetchStepKeeps(y, h1, Cfg);
    } else if Wanted(h2, All) {
      FetchStepKeeps(y, h2, All);
    } else {
      EnumStringsKeep(y, AllChecked(h2));
    }
    PassFetches(h0);
  }

  lemma EnumStringsKeep(y: System, h3: Host)
    requires Inv(y) && !y.h.spinning && y.h.connect.Enumerate? && Grew(y.h, h3)
    requires !Wanted(h3, Dvc) && !Wanted(h3, Cfg) && !Wanted(h3, All)
    ensures Inv(System(EnumFromMan(h3), y.late, y.lost))
  {
    hide FetchNow, StringChecked, TakeTurns, OneAtATime, OnThisConnection;
    var h0 := y.h;
    if Wanted(h3, Man) { FetchStepKeeps(y, h3, Man); return; }
    StringsGrow(h0, h3, Man);
    var h4 := StringChecked(h3, Man);
    if Wanted(h4, Prod) { FetchStepKeeps(y, h4, Prod); return; }
    StringsGrow(h0, h4, Prod);
    var h5 := StringChecked(h4, Prod);
    if Wanted(h5, Ser) { FetchStepKeeps(y, h5, Ser); return; }
    StringsGrow(h0, h5, Ser);
    PassDone(y, StringChecked(h5, Ser));
  }

  /** A pass that reaches its end has every descriptor. */
  lemma PassDone(y: System, h: Host)
    requires Inv(y) && !y.h.spinning && y.h.connect.Enumerate? && Grew(y.h, h)
    requires !Wanted(h, Dvc) && !Wanted(h, Cfg) && !Wanted(h, All)
    requires !h.flags.man.DescNone? && !h.flags.prod.DescNone? && !h.flags.ser.DescNone?
    ensures AllThere(h.flags) && Inv(System(h.(connect := SetConfig), y.late, y.lost))
  {
    NothingWanted(h);
    assert y.h.fetch.FetchIdle?;
  }

  lemma NothingWanted(h: Host)
    requires !Wanted(h, Dvc) && !Wanted(h, Cfg) && !Wanted(h, All)
    requires !h.flags.man.DescNone? && !h.flags.prod.DescNone? && !h.flags.ser.DescNone?
    ensures forall t: Target :: !t.Lun? ==> !Wanted(h, t)
  {
    forall t: Target | !t.Lun?
      ensures !Wanted(h, t)
    {
      match t
      case _ =>
    }
  }

  lemma ClassKeeps(y: System, seen: Seen)
    requires Inv(y) && !y.h.spinning && y.h.connect.ClassHandle?
    ensures Inv(Step(y, Call(seen)))
  {
    if y.h.flags.lun.DescNone? {
      ClassFetchKeeps(y);
    } else {
      assert y.h.fetch.FetchIdle?;
      hide IsNext, FlagsMeanFetched;
    }
  }

  lemma ClassFetchKeeps(y: System)
    requires Inv(y) && !y.h.spinning && y.h.connect.ClassHandle? && y.h.flags.lun.DescNone?
    ensures Inv(System(FetchNow(y.h, Lun), y.late, y.lost))
  {
    LunTakesTurns(y);
    LunOneAtATime(y);
    LunOnConnection(y);
    FetchNowSteps(y.h, Lun);
    hide TakeTurns, OneAtATime, OnThisConnection, Wanted, FetchNow;
  }

  lemma LunOnConnection(y: System)
    requires Inv(y) && !y.h.spinning && y.h.connect.ClassHandle? && y.h.flags.lun.DescNone?
    ensures OnThisConnection(FetchNow(y.h, Lun))
  {
    hide FlagsMeanFetched;
    assert y.h.fetch.FetchIdle? || y.h.target == Lun;
  }

  lemma LunTakesTurns(y: System)
    requires Inv(y) && !y.h.spinning && y.h.connect.ClassHandle? && y.h.flags.lun.DescNone?
    ensures TakeTurns(FetchNow(y.h, Lun))
  {
    hide OneAtATime, OnThisConnection;
    var h2 := FetchNow(y.h, Lun);
    assert h2.connect.Disconnect?
        || (h2.connect.ClassHandle? && (!h2.fetch.FetchIdle? ==> h2.flags == y.h.flags && h2.target == Lun));
  }

  lemma LunOneAtATime(y: System)
    requires Inv(y) && !y.h.spinning && y.h.connect.ClassHandle?
    ensures OneAtATime(FetchNow(y.h, Lun))
  {
    hide TakeTurns, OnThisConnection;
  }

  lemma StepKeeps(y: System, e: Event)
    requires Inv(y)
    ensures Inv(Step(y, e))
  {
    if Enabled(y, e) {
      match e
      case Call(seen) =>
        if y.h.spinning {
          SpinKeeps(y, seen);
        } else if y.h.connect.Enumerate? {
          EnumKeeps(y, seen);
        } else if y.h.connect.ClassHandle? {
          ClassKeeps(y, seen);
        } else if Attempting(y.h.connect) {
          AttemptKeeps(y, seen);
        } else {
          RequestKeeps(y, seen);
        }
      case Irq(bits) => IrqKeeps(y, bits);
      case _ => EventsKeep(y, e);
    }
  }

  // ----- whole runs

  lemma {:induction false} RunKeeps(y: System, es: seq<Event>)
    requires Inv(y)
    ensures Inv(Run(y, es))
    decreases |es|
  {
    if es != [] {
      StepKeeps(y, es[0]);
      RunKeeps(Step(y, es[0]), es[1..]);
    }
  }

  lemma Reached(info: Info, es: seq<Event>)
    ensures Inv(Run(Start(info), es))
  {
    RunKeeps(Start(info), es);
  }

  /** Whenever the connection machine waits for endpoint 0 the fetch machine is idle, so no interrupt
      is taken by both switches of the handler. */
  lemma OneSwitchTakesIt(info: Info, es: seq<Event>, b: Bits)
    ensures var h := Run(Start(info), es).h;
            && (WaitsForEndpoint(h.connect) ==> h.fetch.FetchIdle?)
            && (ConnectRecorded(h, b) == h || FetchRecorded(h, b) == h)
  {
    Reached(info, es);
    hide OneAtATime, OnThisConnection;
  }

  /** A packet is issued only when nothing is outstanding and every earlier outcome was consumed; an
      outcome is recorded once, for the transaction outstanding, and consumed once, as that
      transaction's. Only taking up a new device drops what is under way. */
  lemma OutcomesAreConsumedOnce(info: Info, es: seq<Event>, e: Event)
    ensures var y := Run(Start(info), es);
            var (a, b) := (y.h.ep, Step(y, e).h.ep);
            var reset := e.Call? && y.h.connect.NewDevice? && !y.h.spinning;
            && (b.issued != a.issued ==>
                  b.issued == a.issued + 1 && a.flight.None? && BothIdle(y.h) && a.consumed == a.recorded == a.issued)
            && (b.recorded != a.recorded && !reset ==>
                  e.Irq? && a.flight.Some? && b.flight.None? && b.recorded == a.issued)
            && (b.consumed != a.consumed && !reset ==>
                  a.flight.None? && b.consumed == a.recorded == a.issued == a.consumed + 1)
  {
    var y := Run(Start(info), es);
    Reached(info, es);
    if e.Call? && Fetching(y.h) {
      FetchConsumes(y, e);
    } else if e.Call? && !y.h.spinning && Attempting(y.h.connect) {
      AttemptConsumes(y, e);
    } else if e.Irq? {
      IrqRecords(y, e);
    } else {
      hide IsNext, OnThisConnection, EnumPass, ClassPass, FramesPassed;
    }
  }

  lemma IrqRecords(y: System, e: Event)
    requires Inv(y) && e.Irq?
    ensures var (a, b) := (y.h.ep, Step(y, e).h.ep);
            && b.issued == a.issued && b.consumed == a.consumed
            && (b.recorded != a.recorded ==> a.flight.Some? && b.flight.None? && b.recorded == a.issued)
  {
    hide IsNext, OnThisConnection;
  }

  lemma AttemptConsumes(y: System, e: Event)
    requires Inv(y) && e.Call? && !y.h.spinning && Attempting(y.h.connect)
    ensures var (a, b) := (y.h.ep, Step(y, e).h.ep);
            && (b.issued != a.issued ==>
                  b.issued == a.issued + 1 && a.flight.None? && BothIdle(y.h) && a.consumed == a.recorded == a.issued)
            && (b.recorded != a.recorded ==> y.h.connect.NewDevice?)
            && (b.consumed != a.consumed && !y.h.connect.NewDevice? ==>
                  a.flight.None? && b.consumed == a.recorded == a.issued == a.consumed + 1)
  {
    hide IsNext, OnThisConnection, FramesPassed;
  }

  lemma FetchConsumes(y: System, e: Event)
    requires Inv(y) && e.Call? && Fetching(y.h)
    ensures var (a, b) := (y.h.ep, Step(y, e).h.ep);
            && (b.issued != a.issued ==>
                  b.issued == a.issued + 1 && a.flight.None? && BothIdle(y.h) && a.consumed == a.recorded == a.issued)
            && b.recorded == a.recorded
            && (b.consumed != a.consumed ==> a.flight.None? && b.consumed == a.recorded == a.issued == a.consumed + 1)
  {
    if y.h.connect.Enumerate? {
      PassFetches(y.h);
    } else {
      ClassFetches(y.h, e.seen);
    }
    hide IsNext, OnThisConnection, EnumPass, ClassPass;
  }

  /** The fetch machine is about to issue a packet, or idle and about to begin. */
  predicate AboutToIssue(f: Fetch) {
    f.FetchIdle? || f.RequestDesc? || f.RxReply? || f.OutStatus?
  }

  /** g comes from h by at most one step of a fetch: it issues one packet, or consumes one recorded
      outcome, and touches the connection state and the request no further. */
  predicate OneFetchStep(h: Host, g: Host) {
    && g.spinning == h.spinning && g.conn == h.conn
    && (g.connect == h.connect || g.connect.SetConfig? || g.connect.Disconnect?)
    && (g.ep.request == h.ep.request || g.ep.request.Descriptor?)
    && (g.ep.issued != h.ep.issued ==> g.ep.issued == h.ep.issued + 1 && AboutToIssue(h.fetch))
    && g.ep.recorded == h.ep.recorded
    && (g.ep.consumed != h.ep.consumed ==> g.ep.consumed == h.ep.recorded && !AboutToIssue(h.fetch) && !BothIdle(h))
    && (BothIdle(h) && !AboutToIssue(h.fetch) ==> g.fetch == h.fetch && BothIdle(g) && g.ep == h.ep)
  }

  lemma FetchNowSteps(h: Host, t: Target)
    ensures OneFetchStep(h, FetchNow(h, t))
    ensures FetchNow(h, t).connect == h.connect || FetchNow(h, t).connect.Disconnect?
  {
    match h.fetch
    case _ =>
  }

  /** A check leaves endpoint 0 and the fetch machine alone. */
  predicate OnlyChecked(h: Host, h1: Host) {
    && h1.ep == h.ep && h1.conn == h.conn && h1.spinning == h.spinning
    && h1.fetch == h.fetch && h1.txEnd == h.txEnd && h1.rxEnd == h.rxEnd
    && (h1.connect == h.connect || h1.connect.Disconnect?)
  }

  lemma CheckThenStep(h: Host, h1: Host, g: Host)
    requires OnlyChecked(h, h1) && OneFetchStep(h1, g)
    ensures OneFetchStep(h, g)
  {
  }

  lemma StringsFetch(h: Host)
    ensures OneFetchStep(h, EnumFromMan(h))
  {
    hide FetchNow, OneFetchStep;
    FetchNowSteps(h, Man);
    var h1 := StringChecked(h, Man);
    FetchNowSteps(h1, Prod);
    var h2 := StringChecked(h1, Prod);
    FetchNowSteps(h2, Ser);
    var g := EnumFromSer(h2);
    assert OneFetchStep(h2, g) by {
      if !Wanted(h2, Ser) {
        LastChecked(h2);
      }
    }
    CheckThenStep(h1, h2, g);
    CheckThenStep(h, h1, EnumFromProd(h1));
  }

  lemma LastChecked(h: Host)
    requires !Wanted(h, Ser)
    ensures OneFetchStep(h, EnumFromSer(h))
  {
  }

  lemma PassFetches(h: Host)
    ensures OneFetchStep(h, EnumPass(h))
  {
    hide FetchNow, OneFetchStep, EnumFromMan, Wanted;
    FetchNowSteps(h, Dvc);
    var h1 := DvcChecked(h);
    FetchNowSteps(h1, Cfg);
    var h2 := CfgChecked(h1);
    FetchNowSteps(h2, All);
    var h3 := AllChecked(h2);
    StringsFetch(h3);
    ChecksOnly(h, h1, h2);
    hide DvcChecked, CfgChecked, AllChecked;
    CheckThenStep(h2, h3, EnumFromMan(h3));
    var g2 := EnumFromAll(h2);
    CheckThenStep(h1, h2, g2);
    var g1 := EnumFromCfg(h1);
    CheckThenStep(h, h1, g1);
  }

  lemma ChecksOnly(h: Host, h1: Host, h2: Host)
    ensures OnlyChecked(h, DvcChecked(h)) && OnlyChecked(h1, CfgChecked(h1)) && OnlyChecked(h2, AllChecked(h2))
  {
  }

  lemma ClassFetches(h: Host, seen: Seen)
    ensures OneFetchStep(h, ClassPass(h, seen))
  {
    hide FetchNow;
    FetchNowSteps(h, Lun);
  }

  /** Enumeration order, in every run: the address is programmed after SET_ADDRESS was acknowledged, and
      the class driver runs after SET_CONFIGURATION was acknowledged, both on this connection, if and
      only if no connect event arrived during the busy-wait before; SET_CONFIGURATION is sent only after
      the device and both configuration descriptors were fetched on this connection; and the first
      descriptor is asked for at most three times. */
  lemma EnumerationOrder(info: Info, es: seq<Event>, seen: Seen)
    ensures var y := Run(Start(info), es);
            var (h, g) := (y.h, Step(y, Call(seen)).h);
            && h.conn.attempts <= MAX_RETRIES && g.conn.attempts <= MAX_RETRIES
            && (g.connect.Enumerate? && !h.connect.Enumerate? ==> (h.conn.addressAcked <==> !y.late))
            && (g.ep.request.ConfigRequest? && !h.ep.request.ConfigRequest? ==> {Dvc, Cfg, All} <= h.conn.fetched)
            && (g.connect.ClassHandle? && !h.connect.ClassHandle? ==> (h.conn.configAcked <==> !y.late))
  {
    var y := Run(Start(info), es);
    Reached(info, es);
    StepKeeps(y, Call(seen));
    if y.h.spinning {
      WakeInOrder(y, seen);
    } else if Fetching(y.h) {
      PassFetches(y.h);
      ClassFetches(y.h, seen);
      hide EnumPass, ClassPass, IsNext, OneAtATime, FlagsMeanFetched;
    } else {
      RequestInOrder(y, seen);
    }
  }

  lemma WakeInOrder(y: System, seen: Seen)
    requires Inv(y) && y.h.spinning
    ensures var (h, g) := (y.h, Step(y, Call(seen)).h);
            && g.ep.request == h.ep.request && g.conn.attempts == h.conn.attempts
            && (g.connect.Enumerate? && !h.connect.Enumerate? ==> (h.conn.addressAcked <==> !y.late))
            && (g.connect.ClassHandle? && !h.connect.ClassHandle? ==> (h.conn.configAcked <==> !y.late))
  {
    hide IsNext, OneAtATime, FlagsMeanFetched;
  }

  lemma RequestInOrder(y: System, seen: Seen)
    requires Inv(y) && !y.h.spinning && !Fetching(y.h)
    ensures var (h, g) := (y.h, Step(y, Call(seen)).h);
            && !g.connect.Enumerate? && !g.connect.ClassHandle?
            && (g.ep.request.ConfigRequest? && !h.ep.request.ConfigRequest? ==> {Dvc, Cfg, All} <= h.conn.fetched)
  {
    hide TakeTurns, OneAtATime, FlagsMeanFetched, FramesPassed;
  }

  /** The exact limit of that order, for every run: each milestone on the present connection came in its
      place if and only if the connection's own event was not lost. */
  lemma OrderUnlessLost(info: Info, es: seq<Event>)
    ensures var y := Run(Start(info), es);
            y.h.conn.inOrder <==> !y.lost
  {
    Reached(info, es);
  }

  /** One wake-up: it keeps the order if and only if no connect event arrived during the wait. */
  lemma WakeUpKeepsOrder(info: Info, es: seq<Event>, seen: Seen)
    ensures var y := Run(Start(info), es);
            WakesUp(y.h) && y.h.rxEnd.EndSucceed? && y.h.conn.inOrder ==>
              (Step(y, Call(seen)).h.conn.inOrder <==> !y.late)
  {
    Reached(info, es);
  }

  /** A wake-up forgets an event that arrived during the wait: it overwrites the connection state. */
  lemma WakeUpForgetsEvent(info: Info, es: seq<Event>, seen: Seen)
    ensures var y := Run(Start(info), es);
            var c := Step(y, Call(seen)).h.connect;
            WakesUp(y.h) ==> c.Enumerate? || c.ClassHandle? || c.Disconnect?
  {
    Reached(info, es);
  }

  /** Nothing can end the busy-wait any more: no outcome is there, and none will be recorded. */
  predicate Stuck(h: Host) {
    h.spinning && h.rxEnd.EndIdle? && (h.ep.flight.None? || !h.connect.RxStatusPacket?)
  }

  /** The thread can leave its busy-wait if and only if an outcome is there, or the status packet is
      still outstanding and no connect or disconnect event has changed the connection state. */
  lemma {:induction false} WaitCanEnd(y: System)
    requires Inv(y) && y.h.spinning
    ensures (exists es :: !Run(y, es).h.spinning)
            <==> !y.h.rxEnd.EndIdle? || (y.h.ep.flight.Some? && y.h.connect.RxStatusPacket?)
  {
    var (look, ok) := (Call(Seen(0, false, false)), Irq(Bits(false, false, true, true, y.h.info)));
    if !y.h.rxEnd.EndIdle? {
      RunTwo(y, look, look);
      assert !Run(y, [look]).h.spinning;
    } else if !Stuck(y.h) {
      RunTwo(y, ok, look);
      assert !Run(y, [ok, look]).h.spinning;
    } else {
      forall es
        ensures Run(y, es).h.spinning
      {
        WaitNeverEnds(y, es);
      }
    }
  }

  lemma RunTwo(y: System, a: Event, b: Event)
    ensures Run(y, [a]) == Step(y, a) && Run(y, [a, b]) == Step(Step(y, a), b)
  {
    assert [a][1..] == [] && [a, b][1..] == [b] && [b][1..] == [];
    assert Run(Step(y, a), [b]) == Run(Step(Step(y, a), b), []);
  }

  lemma {:induction false} WaitNeverEnds(y: System, es: seq<Event>)
    requires Inv(y) && Stuck(y.h)
    ensures Run(y, es).h.spinning
    decreases |es|
  {
    if es != [] {
      StepKeeps(y, es[0]);
      StillStuck(y, es[0]);
      WaitNeverEnds(Step(y, es[0]), es[1..]);
    }
  }

  lemma StillStuck(y: System, e: Event)
    requires Inv(y) && Stuck(y.h)
    ensures Stuck(Step(y, e).h)
  {
    hide OneAtATime, OnThisConnection;
  }

  /** The end of the status packet lets the thread go if and only if it carries a bit the handler looks
      at and the connection state is still the one the handler looks for. A STALL carries none, so it
      leaves the thread in the wait for ever. */
  lemma StallHangs(y: System, b: Bits)
    requires Inv(y) && y.h.spinning && y.h.ep.flight.Some?
    ensures !Stuck(Step(y, Irq(b)).h) <==> y.h.connect.RxStatusPacket? && (b.rxReady || b.error || b.nak)
  {
    hide OnThisConnection, IsNext;
  }

  /** The thread waits for a read that will not be answered, or has given the connection up. */
  predicate Forsaken(h: Host) {
    && !h.spinning && BothIdle(h) && h.ep.flight.None?
    && (h.connect.WaitRxDvc? || (Fetching(h) && h.fetch.WaitRxReplyEnd?) || h.connect.Disconnect? || h.connect.Idle?)
  }

  /** A STALLed descriptor read leaves no outcome either: until the next connect or disconnect event the
      driver waits for it, or gives up, and sends no further packet. */
  lemma {:induction false} StalledReadIsForsaken(y: System, es: seq<Event>)
    requires Inv(y) && Forsaken(y.h) && forall i :: 0 <= i < |es| ==> es[i].Call? || es[i].Irq?
    ensures Forsaken(Run(y, es).h) && Run(y, es).h.ep == y.h.ep
    decreases |es|
  {
    if es != [] {
      StepKeeps(y, es[0]);
      if es[0].Call? {
        StillForsaken(y, es[0].seen);
      }
      StalledReadIsForsaken(Step(y, es[0]), es[1..]);
    }
  }

  lemma StillForsaken(y: System, seen: Seen)
    requires Inv(y) && Forsaken(y.h) && Inv(Step(y, Call(seen)))
    ensures Forsaken(Step(y, Call(seen)).h) && Step(y, Call(seen)).h.ep == y.h.ep
  {
    PassFetches(y.h);
    ClassFetches(y.h, seen);
    hide EnumPass, ClassPass, OnThisConnection, OneAtATime, IsNext, FramesPassed;
  }

  /** How the end of an awaited descriptor packet leaves the thread forsaken: with no bit set. */
  lemma StallForsakes(y: System, b: Bits)
    requires Inv(y) && !y.h.spinning && Awaited(y.h) == Some(InData) && y.h.ep.flight.Some?
    ensures Forsaken(Step(y, Irq(b)).h) <==> !(b.rxReady || b.error || b.nak)
  {
    hide OnThisConnection, IsNext;
  }

  lemma {:induction false} RunSnoc(y: System, es: seq<Event>, e: Event)
    ensures Run(y, es + [e]) == Step(Run(y, es), e)
    decreases |es|
  {
    if es == [] {
      assert [e][1..] == [];
    } else {
      assert (es + [e])[1..] == es[1..] + [e];
      RunSnoc(Step(y, es[0]), es[1..], e);
    }
  }

  // ----- the driver itself

  /** Every event of the run happens when it can. */
  ghost predicate AllEnabled(y: System, es: seq<Event>)
    decreases |es|
  {
    es == [] || (Enabled(y, es[0]) && AllEnabled(Step(y, es[0]), es[1..]))
  }

  /** The driver taken through any events that can happen: its state is the run's, and it keeps the
      invariant. */
  method Drive(host: Driver, info: Info, es: seq<Event>) returns (ghost y: System)
    requires host.State() == Start(info).h && AllEnabled(Start(info), es)
    modifies host
    ensures y == Run(Start(info), es) && host.State() == y.h
    ensures TakeTurns(y.h) && OneAtATime(y.h) && OnThisConnection(y.h)
  {
    y := Start(info);
    hide Step, Enabled, Inv;
    Reached(info, es);
    var i := 0;
    while i < |es|
      invariant i <= |es| && host.State() == y.h && AllEnabled(y, es[i..]) && Run(y, es[i..]) == Run(Start(info), es)
    {
      assert es[i..][1..] == es[i + 1..];
      DriveOne(host, y, es[i]);
      y := Step(y, es[i]);
      i := i + 1;
    }
    InvMeans(y);
  }

  lemma InvMeans(y: System)
    requires Inv(y)
    ensures TakeTurns(y.h) && OneAtATime(y.h) && OnThisConnection(y.h)
  {
    hide TakeTurns, OneAtATime, OnThisConnection;
  }

  method DriveOne(host: Driver, ghost y: System, e: Event)
    requires host.State() == y.h && Enabled(y, e)
    modifies host
    ensures host.State() == Step(y, e).h
  {
    hide Threaded, Ep0Interrupted, Plugged, Unplugged;
    match e
    case Call(seen) => host.Thread(seen);
    case Irq(bits) => host.Ep0Interrupt(bits);
    case Plug => host.PlugInterrupt();
    case Unplug => host.UnplugInterrupt();
  }

  /** A system in connection state c in which no result waits to be taken. */
  function At(info: Info, c: Connect, frame0: nat, frame1: nat, ep: Endpoint, conn: Connection): System {
    var h := Start(info).h;
    System(h.(connect := c, frame0 := frame0, frame1 := frame1, ep := ep, conn := conn), true, false)
  }

  /** A connection with that many attempts and nothing acknowledged or fetched. */
  function Fresh(attempts: nat): Connection {
    Connection(attempts, false, false, {}, true)
  }

  lemma FirstAttempt(info: Info) returns (es: seq<Event>)
    ensures Run(Start(info), es) == At(info, TxGetDvc, 1, 100, Endpoint(None, NoRequest, 0, 0, 0), Fresh(0))
  {
    var s, tick := Start(info), Call(Seen(1, true, false));
    es := Extend(s, [], Plug);
    es := Extend(s, es, tick);
    es := Extend(s, es, tick);
    es := Extend(s, es, Call(Seen(100, true, false)));
  }

  lemma FirstSetupSent(info: Info) returns (es: seq<Event>)
    ensures Run(Start(info), es)
         == At(info, RxDvc, 1, 100, Endpoint(None, FirstDescriptor, 1, 1, 1), Fresh(1))
  {
    var s, tick, ok := Start(info), Call(Seen(1, true, false)), Irq(Bits(false, false, true, true, info));
    es := FirstAttempt(info);
    es := Extend(s, es, tick);
    es := Extend(s, es, ok);
    es := Extend(s, es, tick);
  }

  lemma FirstDescriptorRead(info: Info) returns (es: seq<Event>)
    ensures Run(Start(info), es)
         == At(info, SetAddress, 1, 100, Endpoint(None, FirstDescriptor, 2, 2, 2), Fresh(1))
  {
    var s, tick, ok := Start(info), Call(Seen(1, true, false)), Irq(Bits(false, false, true, true, info));
    es := FirstSetupSent(info);
    es := Extend(s, es, tick);
    es := Extend(s, es, ok);
    es := Extend(s, es, tick);
    assert Run(s, es) == At(info, SecondReset, 0, 0, Endpoint(None, FirstDescriptor, 2, 2, 2), Fresh(1));
    es := Extend(s, es, tick);
    es := Extend(s, es, Call(Seen(100, true, false)));
  }

  lemma StatusPacketSent(info: Info) returns (es: seq<Event>)
    ensures Run(Start(info), es)
         == System(At(info, RxStatusPacket, 1, 100, Endpoint(Some(InStatusPacket), AddressRequest, 4, 3, 3),
                      Fresh(1)).h.(index := AddressIndex, spinning := true), false, false)
  {
    var s, tick, ok := Start(info), Call(Seen(1, true, false)), Irq(Bits(false, false, true, true, info));
    es := FirstDescriptorRead(info);
    es := Extend(s, es, tick);
    es := Extend(s, es, ok);
    es := Extend(s, es, tick);
    es := Extend(s, es, tick);
  }

  /** Such a run exists: a second device plugged in between the end of SET_ADDRESS's status packet and
      the next look of the waiting thread is enumerated at the address given to the first one. */
  lemma LostConnectEvent(info: Info) returns (es: seq<Event>)
    ensures var y := Run(Start(info), es);
            y.lost && y.h.connect.Enumerate? && y.h.conn == Connection(0, false, false, {}, false)
  {
    var s, tick, ok := Start(info), Call(Seen(1, true, false)), Irq(Bits(false, false, true, true, info));
    es := StatusPacketSent(info);
    es := Extend(s, es, ok);
    es := Extend(s, es, Plug);
    es := Extend(s, es, tick);
  }

  /** And so does this one: a device that answers SET_ADDRESS's status stage with a STALL hangs the
      thread, without any connect or disconnect event. */
  lemma StalledStatusPacket(info: Info) returns (es: seq<Event>)
    ensures var y := Run(Start(info), es);
            Stuck(y.h) && y.h.connect.RxStatusPacket? && !y.late
  {
    es := StatusPacketSent(info);
    es := Extend(Start(info), es, Irq(Bits(false, false, false, false, info)));
  }

  lemma Extend(s: System, es: seq<Event>, e: Event) returns (fs: seq<Event>)
    ensures fs == es + [e] && Run(s, fs) == Step(Run(s, es), e)
  {
    fs := es + [e];
    RunSnoc(s, es, e);
  }
}
