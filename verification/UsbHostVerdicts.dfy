/** Which devices the host enumerates, which it refuses, and how it reports a failure: laws over the
    state a caller can look at and the facts in the descriptors. */
module UsbHostVerdicts {
  import opened UsbHost
  import opened UsbHostRuns

  // ----- what is refused

  /** The call that first sees the device descriptor gives the device up if and only if its class is
      neither 0, given in the interfaces, nor 8, mass storage; otherwise it asks for the configuration. */
  lemma DeviceClassDecides(h: Host, seen: Seen)
    requires Fetching(h) && h.connect.Enumerate? && h.fetch.FetchIdle?
    requires h.flags.dvc.DescCheck? && h.flags.cfg.DescNone?
    ensures var g := Threaded(h, seen);
            && (g.connect.Disconnect? <==> h.info.devClass != 0 && h.info.devClass != 8)
            && (g.connect.Disconnect? ==> g.error == UNKNOWN_DEVICE)
            && (!g.connect.Disconnect? ==>
                  g.connect.Enumerate? && g.error == h.error && g.target == Cfg && g.ep.flight == Some(Setup))
  {
  }

  /** The call that first sees the 9-byte configuration descriptor gives the device up if and only if it is
      no configuration descriptor or announces more than 255 bytes. */
  lemma ConfigurationDecides(h: Host, seen: Seen)
    requires Fetching(h) && h.connect.Enumerate? && h.fetch.FetchIdle? && h.error == NO_ERR
    requires h.flags.dvc.DescReady? || (h.flags.dvc.DescCheck? && h.info.devClass == 8)
    requires h.flags.cfg.DescCheck? && h.flags.all.DescNone?
    ensures var g := Threaded(h, seen);
            && (g.connect.Disconnect? <==> h.info.cfgType != 2 || h.info.totalLength > 255)
            && (g.connect.Disconnect? <==> g.error != NO_ERR)
            && (!g.connect.Disconnect? ==> g.connect.Enumerate? && g.target == All && g.ep.flight == Some(Setup))
  {
  }

  /** What makes the check of the whole configuration fail. */
  predicate Refused(h: Host) {
    h.info.interfaces > 5 || h.info.fault != 0 || !(h.storage || h.info.storage)
  }

  predicate NamesString(i: Info) {
    i.man || i.prod || i.ser
  }

  /** The call that first sees the whole configuration reports an error if and only if it is refused. The
      device is then given up if and only if it names a string: otherwise the pass reaches its end and
      goes on to SET_CONFIGURATION, over the refusal. */
  lemma WholeConfigurationDecides(h: Host, seen: Seen)
    requires Fetching(h) && h.connect.Enumerate? && h.fetch.FetchIdle? && h.error == NO_ERR
    requires h.flags.dvc.DescReady? || (h.flags.dvc.DescCheck? && h.info.devClass == 8)
    requires h.flags.cfg.DescReady? && h.flags.all.DescCheck?
    requires h.flags.man.DescNone? && h.flags.prod.DescNone? && h.flags.ser.DescNone?
    ensures var g := Threaded(h, seen);
            && (g.error != NO_ERR <==> Refused(h))
            && (g.connect.Disconnect? <==> Refused(h) && NamesString(h.info))
            && (g.connect.SetConfig? <==> !NamesString(h.info))
            && (g.connect.Enumerate? <==> !Refused(h) && NamesString(h.info))
  {
    var h3 := AllChecked(h);
    StringsFirst(h3);
    hide EnumFromMan, AllChecked;
    AllDecides(h);
  }

  lemma AllDecides(h: Host)
    requires h.flags.all.DescCheck? && h.error == NO_ERR && h.connect.Enumerate?
    ensures var g := AllChecked(h);
            && (g.error != NO_ERR <==> Refused(h)) && (g.connect.Disconnect? <==> Refused(h))
            && (g.connect.Enumerate? <==> !Refused(h))
            && g == h.(error := g.error, connect := g.connect, storage := g.storage,
                       flags := h.flags.(all := g.flags.all))
            && !g.flags.all.DescNone?
  {
  }

  lemma StringsFirst(h: Host)
    requires h.fetch.FetchIdle? && h.flags.man.DescNone? && h.flags.prod.DescNone? && h.flags.ser.DescNone?
    requires !h.flags.dvc.DescNone? && !h.flags.cfg.DescNone? && !h.flags.all.DescNone?
    ensures EnumFromMan(h).error == h.error
    ensures EnumFromMan(h).connect == if NamesString(h.info) then h.connect else SetConfig
  {
  }

  // ----- how failures end

  /** The first attempts, exactly three: one that fails, without a response or by NAKs, is followed by
      another as long as fewer than three were made, and the third ends the connection with an error. */
  lemma AttemptsAreThree(info: Info, es: seq<Event>, seen: Seen)
    ensures var (h, g) := (Run(Start(info), es).h, Step(Run(Start(info), es), Call(seen)).h);
            (!h.spinning && h.connect.WaitTxGetDvc? && h.txEnd.EndFail?)
            || (!h.spinning && h.connect.WaitRxDvc? && h.rxEnd.EndNakLimit?) ==>
              if h.conn.attempts < 3 then g.connect.ConnectRetry? && g.error == h.error
              else g.connect.Disconnect? && g.error != NO_ERR
  {
    Reached(info, es);
    hide TakeTurns, OneAtATime;
  }

  /** The outcome the thread waits for is a failure. */
  predicate Failed(h: Host) {
    match Awaited(h)
    case None => false
    case Some(t) =>
      if t.Setup? || t.OutStatusPacket? then h.txEnd.EndFail? || (h.connect.WaitSendEnd? && h.txEnd.EndNakLimit?)
      else h.rxEnd.EndFail? || (!Fetching(h) && h.rxEnd.EndNakLimit?)
  }

  /** It is one of a first attempt that may be made again. */
  predicate Retries(h: Host) {
    !h.spinning && (h.connect.WaitTxGetDvc? || (h.connect.WaitRxDvc? && h.rxEnd.EndNakLimit?))
  }

  /** In every run the call that finds a failure, other than of a first attempt, gives the device up with
      an error, whatever it was waiting for. */
  lemma FailureIsReported(info: Info, es: seq<Event>, seen: Seen)
    ensures var (h, g) := (Run(Start(info), es).h, Step(Run(Start(info), es), Call(seen)).h);
            Failed(h) && !Retries(h) ==> g.connect.Disconnect? && g.error != NO_ERR
  {
    var y := Run(Start(info), es);
    Reached(info, es);
    if Failed(y.h) {
      if Fetching(y.h) {
        hide OneAtATime, OnThisConnection;
        if y.h.connect.Enumerate? {
          PassFails(y.h);
        } else {
          assert IsNext(y.h, Lun);
        }
      } else {
        hide OnThisConnection, IsNext, EnumPass, ClassPass, FramesPassed;
      }
    }
  }

  /** In every run an error on the bus, or a NAK timeout where the handler looks for one, is recorded as a
      failure of the transaction awaited, unless a packet was received with it. */
  lemma BusErrorIsFailure(info: Info, es: seq<Event>, b: Bits)
    ensures var y := Run(Start(info), es);
            var (h, g) := (y.h, Step(y, Irq(b)).h);
            && h.ep.flight.Some? && h.ep.flight == Awaited(h) && (h.spinning ==> h.connect.RxStatusPacket?)
            && (b.error || (b.nak && !h.connect.WaitTxGetDvc?))
            && ((h.ep.flight.value.InData? || h.ep.flight.value.InStatusPacket?) ==> !b.rxReady) ==>
              Failed(g) && g.connect == h.connect && g.spinning == h.spinning
  {
    var y := Run(Start(info), es);
    Reached(info, es);
    hide IsNext, OnThisConnection;
  }

  /** The answer to the number of units decides whether the class driver goes on. */
  lemma UnitsDecide(h: Host, seen: Seen)
    requires Fetching(h) && h.connect.ClassHandle? && h.flags.lun.DescCheck?
    ensures var g := Threaded(h, seen);
            && (g.connect.Disconnect? <==> !seen.lunOk) && (g.connect.ClassHandle? <==> seen.lunOk)
            && (seen.lunOk ==> !g.flags.lun.DescNone? && !g.flags.lun.DescCheck? && g.error == h.error)
            && (!seen.lunOk ==> g.error != NO_ERR)
  {
  }

  /** A fetch fails in a pass that has come to its target. */
  lemma PassFails(h: Host)
    requires Fetching(h) && h.connect.Enumerate? && !h.fetch.FetchIdle? && IsNext(h, h.target) && Failed(h)
    ensures EnumPass(h).connect.Disconnect? && EnumPass(h).error != NO_ERR
  {
    hide Wanted, FetchNow, DvcChecked, CfgChecked, AllChecked, StringChecked;
    ComesTo(h);
    var g := Before(h, h.target);
    FailedFetch(g, h.target);
  }

  lemma FailedFetch(h: Host, t: Target)
    requires (h.fetch.WaitRequestEnd? && h.txEnd.EndFail?) || (h.fetch.WaitRxReplyEnd? && h.rxEnd.EndFail?)
             || (h.fetch.WaitOutStatusEnd? && h.txEnd.EndFail?)
    ensures FetchNow(h, t).connect.Disconnect? && FetchNow(h, t).error != NO_ERR
  {
  }

  /** The host after the checks that a pass makes before it comes to the fetch of t. */
  function Before(h: Host, t: Target): Host {
    match t
    case Dvc => h
    case Cfg => DvcChecked(h)
    case All => CfgChecked(DvcChecked(h))
    case Man => AllChecked(CfgChecked(DvcChecked(h)))
    case Prod => StringChecked(AllChecked(CfgChecked(DvcChecked(h))), Man)
    case Ser => StringChecked(StringChecked(AllChecked(CfgChecked(DvcChecked(h))), Man), Prod)
    case Lun => h
  }

  /** A pass fetches the descriptor that is next, after the checks before it, which leave the fetch
      machine and endpoint 0 alone. */
  lemma ComesTo(h: Host)
    requires h.connect.Enumerate? && IsNext(h, h.target)
    ensures EnumPass(h) == FetchNow(Before(h, h.target), h.target)
    ensures OnlyChecked(h, Before(h, h.target)) && Before(h, h.target).target == h.target
  {
    BeforeWants(h, h.target);
    hide FetchNow;
  }

  lemma BeforeWants(h: Host, t: Target)
    requires h.connect.Enumerate? && IsNext(h, t)
    ensures OnlyChecked(h, Before(h, t)) && Before(h, t).target == h.target
    ensures EnumPass(h) == FetchNow(Before(h, t), t)
  {
    hide FetchNow, DvcChecked, CfgChecked, AllChecked, StringChecked, Wanted;
    assert Grew(h, h);
    var h1 := DvcChecked(h);
    DvcGrows(h, h);
    var h2 := CfgChecked(h1);
    CfgGrows(h, h1);
    var h3 := AllChecked(h2);
    AllGrows(h, h2);
    if t.Prod? || t.Ser? {
      StringsGrow(h, h3, Man);
      if t.Ser? {
        StringsGrow(h, StringChecked(h3, Man), Prod);
      }
    }
  }

  /** A disconnected device is left alone: until the next connect event the thread, once out of a wait,
      rests and sends nothing. */
  lemma UnpluggedIsQuiet(y: System, es: seq<Event>)
    requires !y.h.spinning && (forall i :: 0 <= i < |es| ==> es[i].Call? || es[i].Irq?)
    ensures var z := Run(Step(y, Unplug), es);
            (z.h.connect.Disconnect? || z.h.connect.Idle?) && z.h.ep.issued == y.h.ep.issued
  {
    RestsOn(Step(y, Unplug), es);
  }

  lemma {:induction false} RestsOn(y: System, es: seq<Event>)
    requires !y.h.spinning && (y.h.connect.Disconnect? || y.h.connect.Idle?)
    requires forall i :: 0 <= i < |es| ==> es[i].Call? || es[i].Irq?
    ensures var z := Run(y, es);
            (z.h.connect.Disconnect? || z.h.connect.Idle?) && z.h.ep.issued == y.h.ep.issued
    decreases |es|
  {
    if es != [] {
      RestsOn(Step(y, es[0]), es[1..]);
    }
  }

  // ----- the resets

  /** The attempt after a reset, and the address after the second, wait for more than fifty frames of the
      11-bit frame counter; only a whole turn of the counter between two looks can hide some. */
  lemma ResetsWait(h: Host, seen: Seen)
    requires !h.spinning && h.frame0 < 2048 && seen.frame < 2048
    ensures var g := Threaded(h, seen);
            (h.connect.WaitB? && g.connect.TxGetDvc?) || (h.connect.SecondReset? && g.connect.SetAddress?) ==>
              (seen.frame - h.frame0 + 2048) % 2048 > 50
    ensures h.connect.WaitB? && seen.frame > h.frame0 + 50 ==> Threaded(h, seen).connect.TxGetDvc?
    ensures h.connect.SecondReset? && 0 < h.frame0 < seen.frame - 50 ==> Threaded(h, seen).connect.SetAddress?
  {
    hide EnumPass, ClassPass, StatusTaken;
  }
}
