/** A mass-storage device that answers is enumerated: for every set of descriptors of such a device there
    is a run from the start to the class driver. */
module UsbHostSuccess {
  import opened UsbHost
  import opened UsbHostRuns
  import opened UsbHostVerdicts

  /** What the descriptors of a mass-storage device say. Which strings it names is open. */
  predicate Good(i: Info) {
    && (i.devClass == 0 || i.devClass == 8) && i.cfgType == 2 && i.totalLength <= 255
    && i.interfaces <= 5 && i.storage && i.fault == 0
  }

  /** The thread is in the enumeration and all is well. */
  predicate Well(h: Host) {
    && h.connect.Enumerate? && !h.spinning && h.error == NO_ERR && Good(h.info)
    && h.conn.addressAcked && !h.conn.configAcked && (h.flags.all.DescNone? || h.flags.all.DescCheck? || h.storage)
  }

  predicate Between(h: Host) {
    Well(h) && h.fetch.FetchIdle? && BothIdle(h) && h.ep.flight.None?
  }

  /** In the middle of fetching t: the state of the fetch machine, the transaction on the bus, the two
      outcomes. */
  predicate Midway(h: Host, t: Target, f: Fetch, flight: Option<Transaction>, tx: End, rx: End) {
    && Well(h) && h.fetch == f && h.target == t && h.ep.flight == flight && h.txEnd == tx && h.rxEnd == rx
    && h.ep.request == Descriptor(t)
  }

  /** The same descriptors are still to be fetched. */
  predicate SameWants(h: Host, g: Host) {
    g.info == h.info && forall t :: Wanted(g, t) == Wanted(h, t)
  }

  lemma NextStays(h: Host, g: Host, t: Target)
    requires Well(h) && Well(g) && SameWants(h, g) && IsNext(h, t)
    ensures IsNext(g, t)
  {
    hide Wanted;
  }

  /** The checks find nothing wrong. */
  lemma ChecksPass(h: Host, t: Target)
    requires Well(h) && IsNext(h, t)
    ensures Fine(h, Before(h, t))
    ensures EnumPass(h) == FetchNow(Before(h, t), t)
  {
    BeforeWants(h, t);
    ChecksFindNothing(h, t);
  }

  lemma ChecksFindNothing(h: Host, t: Target)
    requires Well(h) && IsNext(h, t)
    ensures Fine(h, Before(h, t))
  {
    var h1 := DvcChecked(h);
    assert Fine(h, h1) by { DvcGrows(h, h); }
    var h2 := CfgChecked(h1);
    assert Fine(h, h2) by { CfgGrows(h, h1); }
    var h3 := AllChecked(h2);
    assert Fine(h, h3) by { AllGrows(h, h2); }
    hide DvcChecked, CfgChecked, AllChecked, StringChecked, Wanted, Grew;
    if t.Prod? || t.Ser? {
      StringsFine(h, h3, Man);
      if t.Ser? {
        StringsFine(h, StringChecked(h3, Man), Prod);
      }
    }
  }

  predicate Fine(h: Host, g: Host) {
    && Grew(h, g) && g.error == NO_ERR && g.connect.Enumerate?
    && (g.flags.all.DescNone? || g.flags.all.DescCheck? || g.storage)
  }

  lemma StringsFine(h: Host, g: Host, t: Target)
    requires Fine(h, g) && !Wanted(h, t) && (t.Man? || t.Prod? || t.Ser?)
    ensures Fine(h, StringChecked(g, t))
  {
    StringsGrow(h, g, t);
  }

  // ----- one descriptor

  /** A thread call takes the next step of the fetch. */
  lemma CallSteps(y: System, t: Target, seen: Seen)
    requires Well(y.h) && IsNext(y.h, t)
    ensures Step(y, Call(seen)) == System(FetchNow(Before(y.h, t), t), y.late, y.lost)
    ensures Grew(y.h, Before(y.h, t)) && Well(Before(y.h, t))
  {
    ChecksPass(y.h, t);
    FetchNowSteps(Before(y.h, t), t);
    hide FetchNow, Before, IsNext, EnumPass;
  }

  function Answer(h: Host): Event {
    Irq(Bits(false, false, true, true, h.info))
  }

  lemma Begins(g: Host, t: Target)
    requires Between(g)
    ensures Midway(FetchNow(g, t), t, WaitRequestEnd, Some(Setup), EndIdle, EndIdle)
    ensures FetchNow(g, t).flags == g.flags && FetchNow(g, t).info == g.info
  {
  }

  /** The five later calls, each on what the interrupt before it recorded. */
  lemma GoesOn(g: Host, t: Target)
    requires Well(g) && g.target == t && g.ep.request == Descriptor(t) && !g.fetch.FetchIdle?
    ensures var k := FetchNow(g, t);
            && k.info == g.info
            && (Midway(g, t, WaitRequestEnd, None, EndSucceed, EndIdle) ==>
                  Midway(k, t, RxReply, None, EndIdle, EndIdle) && k.flags == g.flags)
            && (Midway(g, t, RxReply, None, EndIdle, EndIdle) ==>
                  Midway(k, t, WaitRxReplyEnd, Some(InData), EndIdle, EndIdle) && k.flags == g.flags)
            && (Midway(g, t, WaitRxReplyEnd, None, EndIdle, EndSucceed) ==>
                  Midway(k, t, OutStatus, None, EndIdle, EndIdle) && k.flags == g.flags)
            && (Midway(g, t, OutStatus, None, EndIdle, EndIdle) ==>
                  Midway(k, t, WaitOutStatusEnd, Some(OutStatusPacket), EndIdle, EndIdle) && k.flags == g.flags)
            && (Midway(g, t, WaitOutStatusEnd, None, EndSucceed, EndIdle) ==>
                  Between(k) && k.flags == SetFlag(g.flags, t, DescCheck))
  {
  }

  /** The three interrupts. */
  lemma Answered(y: System, t: Target)
    requires Well(y.h) && y.h.target == t && y.h.ep.flight.Some? && y.h.ep.request == Descriptor(t)
    ensures var k := Step(y, Answer(y.h)).h;
            && k.info == y.h.info && k.flags == y.h.flags
            && Step(y, Answer(y.h)).late == y.late && Step(y, Answer(y.h)).lost == y.lost
            && (Midway(y.h, t, WaitRequestEnd, Some(Setup), EndIdle, EndIdle) ==>
                  Midway(k, t, WaitRequestEnd, None, EndSucceed, EndIdle))
            && (Midway(y.h, t, WaitRxReplyEnd, Some(InData), EndIdle, EndIdle) ==>
                  Midway(k, t, WaitRxReplyEnd, None, EndIdle, EndSucceed))
            && (Midway(y.h, t, WaitOutStatusEnd, Some(OutStatusPacket), EndIdle, EndIdle) ==>
                  Midway(k, t, WaitOutStatusEnd, None, EndSucceed, EndIdle))
  {
  }

  /** One call in the middle of a fetch. */
  lemma CallGoesOn(y: System, t: Target, seen: Seen)
    requires Well(y.h) && IsNext(y.h, t) && y.h.target == t && y.h.ep.request == Descriptor(t) && !y.h.fetch.FetchIdle?
    ensures var k := Step(y, Call(seen)).h;
            && Step(y, Call(seen)).late == y.late && Step(y, Call(seen)).lost == y.lost
            && (Midway(y.h, t, WaitRequestEnd, None, EndSucceed, EndIdle) ==>
                  Midway(k, t, RxReply, None, EndIdle, EndIdle) && SameWants(y.h, k))
            && (Midway(y.h, t, RxReply, None, EndIdle, EndIdle) ==>
                  Midway(k, t, WaitRxReplyEnd, Some(InData), EndIdle, EndIdle) && SameWants(y.h, k))
            && (Midway(y.h, t, WaitRxReplyEnd, None, EndIdle, EndSucceed) ==>
                  Midway(k, t, OutStatus, None, EndIdle, EndIdle) && SameWants(y.h, k))
            && (Midway(y.h, t, OutStatus, None, EndIdle, EndIdle) ==>
                  Midway(k, t, WaitOutStatusEnd, Some(OutStatusPacket), EndIdle, EndIdle) && SameWants(y.h, k))
            && (Midway(y.h, t, WaitOutStatusEnd, None, EndSucceed, EndIdle) ==> Between(k) && WantsBut(y.h, k, t))
  {
    CallSteps(y, t, seen);
    var g := Before(y.h, t);
    GoesOn(g, t);
    FlagTaken(g, FetchNow(g, t), t);
    assert SameWants(y.h, g);
    hide FetchNow, Before, IsNext, Step;
  }

  /** Every descriptor but t is wanted as before, and t is not. */
  predicate WantsBut(h: Host, g: Host, t: Target) {
    g.info == h.info && !Wanted(g, t) && forall u :: u != t ==> Wanted(g, u) == Wanted(h, u)
  }

  lemma FlagTaken(g: Host, k: Host, t: Target)
    requires k.info == g.info
    ensures k.flags == SetFlag(g.flags, t, DescCheck) ==> WantsBut(g, k, t)
    ensures k.flags == g.flags ==> SameWants(g, k)
  {
  }

  lemma CallBegins(y: System, t: Target, seen: Seen)
    requires Between(y.h) && IsNext(y.h, t)
    ensures var z := Step(y, Call(seen));
            && z.late == y.late && z.lost == y.lost && SameWants(y.h, z.h)
            && Midway(z.h, t, WaitRequestEnd, Some(Setup), EndIdle, EndIdle)
  {
    CallSteps(y, t, seen);
    var g := Before(y.h, t);
    Begins(g, t);
    FlagTaken(g, FetchNow(g, t), t);
    assert SameWants(y.h, g);
    hide FetchNow, Before, IsNext, Step;
  }

  /** The state of a fetch that began at h. */
  predicate Under(h: Host, y: System, late: bool, t: Target, f: Fetch, flight: Option<Transaction>, tx: End, rx: End) {
    SameWants(h, y.h) && IsNext(y.h, t) && y.late == late && !y.lost && Midway(y.h, t, f, flight, tx, rx)
  }

  lemma UnderCall(h: Host, y: System, t: Target, seen: Seen)
    requires Well(h) && IsNext(h, t)
    ensures var z := Step(y, Call(seen));
            && (Under(h, y, y.late, t, WaitRequestEnd, None, EndSucceed, EndIdle) ==>
                  Under(h, z, y.late, t, RxReply, None, EndIdle, EndIdle))
            && (Under(h, y, y.late, t, RxReply, None, EndIdle, EndIdle) ==>
                  Under(h, z, y.late, t, WaitRxReplyEnd, Some(InData), EndIdle, EndIdle))
            && (Under(h, y, y.late, t, WaitRxReplyEnd, None, EndIdle, EndSucceed) ==>
                  Under(h, z, y.late, t, OutStatus, None, EndIdle, EndIdle))
            && (Under(h, y, y.late, t, OutStatus, None, EndIdle, EndIdle) ==>
                  Under(h, z, y.late, t, WaitOutStatusEnd, Some(OutStatusPacket), EndIdle, EndIdle))
            && (Under(h, y, y.late, t, WaitOutStatusEnd, None, EndSucceed, EndIdle) ==>
                  Between(z.h) && WantsBut(h, z.h, t) && z.late == y.late && !z.lost)
  {
    var z := Step(y, Call(seen));
    hide Step, Wanted;
    if Well(y.h) && IsNext(y.h, t) && y.h.target == t && y.h.ep.request == Descriptor(t) && !y.h.fetch.FetchIdle? {
      CallGoesOn(y, t, seen);
      if Well(z.h) && SameWants(h, z.h) {
        NextStays(h, z.h, t);
      }
      hide IsNext;
    }
  }

  lemma UnderAnswer(h: Host, y: System, t: Target)
    requires Well(h) && IsNext(h, t) && Well(y.h) && y.h.target == t && y.h.ep.flight.Some?
    requires y.h.ep.request == Descriptor(t) && SameWants(h, y.h) && IsNext(y.h, t)
    ensures var z := Step(y, Answer(y.h));
            && (Under(h, y, y.late, t, WaitRequestEnd, Some(Setup), EndIdle, EndIdle) ==>
                  Under(h, z, y.late, t, WaitRequestEnd, None, EndSucceed, EndIdle))
            && (Under(h, y, y.late, t, WaitRxReplyEnd, Some(InData), EndIdle, EndIdle) ==>
                  Under(h, z, y.late, t, WaitRxReplyEnd, None, EndIdle, EndSucceed))
            && (Under(h, y, y.late, t, WaitOutStatusEnd, Some(OutStatusPacket), EndIdle, EndIdle) ==>
                  Under(h, z, y.late, t, WaitOutStatusEnd, None, EndSucceed, EndIdle))
  {
    var z := Step(y, Answer(y.h));
    Answered(y, t);
    FlagTaken(y.h, z.h, t);
    hide Step, Wanted;
    if Well(z.h) {
      NextStays(h, z.h, t);
    }
    hide IsNext;
  }

  /** Six calls and three interrupts fetch the descriptor that is next. */
  lemma FetchNext(s: System, es0: seq<Event>, t: Target) returns (es: seq<Event>)
    requires var y := Run(s, es0); Between(y.h) && IsNext(y.h, t) && !y.lost
    ensures var (y, z) := (Run(s, es0), Run(s, es));
            Between(z.h) && WantsBut(y.h, z.h, t) && z.late == y.late && !z.lost
  {
    hide Run, Step, Wanted, IsNext, WantsBut;
    var (y, tick) := (Run(s, es0), Call(Seen(1, true, false)));
    var h := y.h;
    CallBegins(y, t, tick.seen);
    es := Extend(s, es0, tick);
    NextStays(h, Run(s, es).h, t);
    UnderAnswer(h, Run(s, es), t);
    es := Extend(s, es, Answer(Run(s, es).h));
    UnderCall(h, Run(s, es), t, tick.seen);
    es := Extend(s, es, tick);
    UnderCall(h, Run(s, es), t, tick.seen);
    es := Extend(s, es, tick);
    UnderAnswer(h, Run(s, es), t);
    es := Extend(s, es, Answer(Run(s, es).h));
    UnderCall(h, Run(s, es), t, tick.seen);
    es := Extend(s, es, tick);
    UnderCall(h, Run(s, es), t, tick.seen);
    es := Extend(s, es, tick);
    UnderAnswer(h, Run(s, es), t);
    es := Extend(s, es, Answer(Run(s, es).h));
    UnderCall(h, Run(s, es), t, tick.seen);
    es := Extend(s, es, tick);
  }

  // ----- all of them

  function OneIf(b: bool): nat {
    if b then 1 else 0
  }

  function Missing(h: Host): nat {
    OneIf(Wanted(h, Dvc)) + OneIf(Wanted(h, Cfg)) + OneIf(Wanted(h, All))
    + OneIf(Wanted(h, Man)) + OneIf(Wanted(h, Prod)) + OneIf(Wanted(h, Ser))
  }

  function FirstMissing(h: Host): Target {
    if Wanted(h, Dvc) then Dvc
    else if Wanted(h, Cfg) then Cfg
    else if Wanted(h, All) then All
    else if Wanted(h, Man) then Man
    else if Wanted(h, Prod) then Prod
    else Ser
  }

  lemma {:induction false} FetchRest(s: System, es0: seq<Event>) returns (es: seq<Event>)
    requires var y := Run(s, es0); Between(y.h) && !y.lost
    ensures var (y, z) := (Run(s, es0), Run(s, es));
            Between(z.h) && Missing(z.h) == 0 && z.late == y.late && !z.lost
    decreases Missing(Run(s, es0).h)
  {
    hide Run, Wanted;
    var h := Run(s, es0).h;
    es := es0;
    if Missing(h) > 0 {
      var t := FirstMissing(h);
      es := FetchNext(s, es0, t);
      es := FetchRest(s, es);
    }
  }

  // ----- the end

  /** With nothing left to fetch a pass goes on to SET_CONFIGURATION. */
  lemma PassEnds(h: Host)
    requires Between(h) && Missing(h) == 0
    ensures var g := EnumPass(h);
            && g.connect.SetConfig? && g.error == NO_ERR && g.storage && !g.spinning && BothIdle(g)
            && g.ep.flight.None? && g.fetch.FetchIdle? && g.conn == h.conn && g.info == h.info
  {
    var h1 := DvcChecked(h);
    assert Fine(h, h1) by { DvcGrows(h, h); }
    var h2 := CfgChecked(h1);
    assert Fine(h, h2) by { CfgGrows(h, h1); }
    var h3 := AllChecked(h2);
    assert Fine(h, h3) && h3.storage by { AllGrows(h, h2); }
    hide DvcChecked, CfgChecked, AllChecked;
    StringsEnd(h, h3);
    hide EnumFromMan, StringChecked, Fine;
  }

  lemma StringsEnd(h: Host, h3: Host)
    requires Between(h) && Missing(h) == 0 && Fine(h, h3) && h3.storage
    ensures var g := EnumFromMan(h3);
            && g.connect.SetConfig? && g.error == NO_ERR && g.storage && !g.spinning && BothIdle(g)
            && g.ep.flight.None? && g.fetch.FetchIdle? && g.conn == h.conn && g.info == h.info
  {
    var h4 := StringChecked(h3, Man);
    StringsFine(h, h3, Man);
    StringsGrow(h, h3, Man);
    var h5 := StringChecked(h4, Prod);
    StringsFine(h, h4, Prod);
    StringsGrow(h, h4, Prod);
    var h6 := StringChecked(h5, Ser);
    StringsFine(h, h5, Ser);
    StringsGrow(h, h5, Ser);
    hide StringChecked, Wanted;
  }

  /** SET_CONFIGURATION is sent and acknowledged, and the class driver is entered. */
  lemma Configures(s: System, es0: seq<Event>) returns (es: seq<Event>)
    requires var y := Run(s, es0);
             && y.h.connect.SetConfig? && !y.h.spinning && BothIdle(y.h) && y.h.ep.flight.None?
             && y.h.fetch.FetchIdle? && !y.lost
    ensures var (h, z) := (Run(s, es0).h, Run(s, es));
            && z.h.connect.ClassHandle? && z.h.error == h.error && z.h.storage == h.storage && !z.late && !z.lost
            && z.h.conn.configAcked && z.h.conn.addressAcked == h.conn.addressAcked && z.h.info == h.info
  {
    hide Run, EnumPass, ClassPass, FramesPassed;
    var tick := Call(Seen(1, true, false));
    es := RequestSent(s, es0);
    hide Threaded;
    StatusCalls(Run(s, es), tick.seen);
    es := Extend(s, es, tick);
    StatusCalls(Run(s, es), tick.seen);
    es := Extend(s, es, Answer(Run(s, es).h));
    StatusCalls(Run(s, es), tick.seen);
    es := Extend(s, es, tick);
  }

  lemma RequestSent(s: System, es0: seq<Event>) returns (es: seq<Event>)
    requires var y := Run(s, es0);
             && y.h.connect.SetConfig? && !y.h.spinning && BothIdle(y.h) && y.h.ep.flight.None?
             && y.h.fetch.FetchIdle? && !y.lost
    ensures var (h, z) := (Run(s, es0).h, Run(s, es));
            && z.h.connect.RxStatusPacket? && !z.h.spinning && BothIdle(z.h) && z.h.ep.flight.None?
            && z.h.fetch.FetchIdle? && !z.lost && z.h.ep.request.ConfigRequest? && z.h.index.ConfigIndex?
            && z.h.error == h.error && z.h.storage == h.storage && z.h.info == h.info
            && z.h.conn.addressAcked == h.conn.addressAcked
  {
    hide Run, EnumPass, ClassPass, FramesPassed;
    var tick := Call(Seen(1, true, false));
    es := Extend(s, es0, tick);
    es := Extend(s, es, Answer(Run(s, es).h));
    es := Extend(s, es, tick);
  }

  /** The two thread calls around the status packet. */
  lemma StatusCalls(y: System, seen: Seen)
    ensures y.h.connect.RxStatusPacket? && !y.h.spinning ==>
              Threaded(y.h, seen) == y.h.(spinning := true, ep := Issue(y.h.ep, InStatusPacket, y.h.ep.request))
    ensures y.h.spinning && y.h.rxEnd.EndSucceed? && y.h.index.ConfigIndex? ==>
              Threaded(y.h, seen) == RxTaken(y.h).(spinning := false, index := NoIndex, connect := ClassHandle,
                                                   conn := Milestone(y.h.conn, y.h.conn.configAcked))
  {
    hide EnumPass, ClassPass, FramesPassed;
  }

  /** Every mass-storage device that answers can be enumerated: from the start a run leads to the class
      driver, without an error, with both requests acknowledged and the device recognised. */
  lemma GoodDeviceIsEnumerated(info: Info) returns (es: seq<Event>)
    requires Good(info)
    ensures var y := Run(Start(info), es);
            && y.h.connect.ClassHandle? && y.h.error == NO_ERR && y.h.storage && !y.lost
            && y.h.conn.addressAcked && y.h.conn.configAcked
  {
    var s, tick := Start(info), Call(Seen(1, true, false));
    es := StatusPacketSent(info);
    es := Extend(s, es, Answer(Run(s, es).h));
    es := Extend(s, es, tick);
    assert Between(Run(s, es).h);
    hide Run, Step, EnumPass, Start;
    es := FetchRest(s, es);
    PassEnds(Run(s, es).h);
    es := OnePass(s, es);
    es := Configures(s, es);
  }

  lemma OnePass(s: System, es0: seq<Event>) returns (es: seq<Event>)
    requires Run(s, es0).h.connect.Enumerate? && !Run(s, es0).h.spinning
    ensures Run(s, es).h == EnumPass(Run(s, es0).h) && Run(s, es).lost == Run(s, es0).lost
  {
    es := Extend(s, es0, Call(Seen(1, true, false)));
  }
}
