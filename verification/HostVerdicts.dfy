/** What a caller of the host driver may conclude from the state it can see: when a command counts as
    finished, when the device is given up, and with which error. */
module HostVerdicts {
  import opened Machine
  import opened BulkOnly
  import opened MassStorageHost
  import opened HostRuns

  /** The status wrapper in memory is the answer to the command under way (Bulk-Only Transport 1.0,
      section 6.3); TEST UNIT READY leaves the status byte to its caller. */
  predicate Answers(h: Host)
    requires Sized(h)
  {
    && CswSignature(h.csw) == 0x53425355 && CswTag(h.csw) == CbwTag(h.cbw)
    && (!h.comm.TestUnitReady? ==> CswStatus(h.csw) == 0)
  }

  /** A thread call has a status wrapper to look at. */
  predicate AtStatus(h: Host) {
    Sized(h) && !h.gone && IsCommand(h.comm) && h.ready.DataCheck?
  }

  /** A wrapper that is no answer ends the connection, with the error of its command, and the command
      never looks finished. */
  lemma BadStatusGivesUp(h: Host)
    requires AtStatus(h) && !Answers(h)
    ensures var g := Threaded(h);
            && g.gone && g.comm == h.comm
            && g.error == match h.comm
                          case Inquiry => INQUIRY_CSW_ERR
                          case ModeSense6 => SENSE6_CSW_ERR
                          case ReadBlocks => READ_CSW_ERR
                          case _ => FORMAT_CAPACITY_CSW_ERR
  {
  }

  /** An answer ends the command: the next one follows, or the driver waits for work. READ FORMAT
      CAPACITIES must list a format, and READ CAPACITY a block length of 512, given in its last four bytes. */
  lemma GoodStatusGoesOn(h: Host)
    requires AtStatus(h) && Answers(h)
    ensures var g := Threaded(h);
            var c := h.mem.capacity;
            match h.comm
            case Inquiry => g.comm.ReadFormatCapacity? && Finished(h, g)
            case ReadFormatCapacity => if h.mem.format[3] >= 8 then g.comm.ReadCapacity? && Finished(h, g) else g == h
            case ReadCapacity =>
              if c[4] == 0 && c[5] == 0 && c[6] == 2 && c[7] == 0 then g.comm.ModeSense6? && Finished(h, g)
              else g.gone && g.comm == h.comm && g.error == BLOCK_LENGTH_ERR
            case _ => g.comm.WaitReadWrite? && Finished(h, g)
  {
  }

  predicate Finished(h: Host, g: Host) {
    !g.gone && g.error == h.error && g.ready.DataNone? && g.scsi == h.scsi && g.mem == h.mem && g.cbw == h.cbw
  }

  /** In every run: whatever happens, a read stops looking busy only when its own status wrapper is there,
      with the right signature, its tag and good status; then the bytes received stay as they are. */
  lemma FinishedReadWasAnswered(h: Host, es: seq<Event>, e: Event)
    requires Sized(h)
    ensures var (a, b) := (Run(h, es), Step(Run(h, es), e));
            a.comm.ReadBlocks? && b.comm.WaitReadWrite? ==>
              && e.Thread? && a.ready.DataCheck? && !a.gone
              && CswSignature(a.csw) == 0x53425355 && CswTag(a.csw) == CbwTag(a.cbw) && CswStatus(a.csw) == 0
              && b.mem == a.mem && b.error == a.error && !b.gone
  {
    var a := Run(h, es);
    hide CswSignature, CswTag, CbwTag, CswStatus, Run;
    if e.Thread? && a.comm.ReadBlocks? && !a.gone && a.ready.DataCheck? {
      if Answers(a) {
        GoodStatusGoesOn(a);
      } else {
        BadStatusGivesUp(a);
      }
    }
  }

  /** The same for TEST UNIT READY, whose status byte the caller reads afterwards. */
  lemma FinishedTestWasAnswered(h: Host, es: seq<Event>, e: Event)
    requires Sized(h)
    ensures var (a, b) := (Run(h, es), Step(Run(h, es), e));
            a.comm.TestUnitReady? && b.comm.WaitReadWrite? ==>
              && e.Thread? && a.ready.DataCheck? && !a.gone
              && CswSignature(a.csw) == 0x53425355 && CswTag(a.csw) == CbwTag(a.cbw)
              && b.csw == a.csw && b.error == a.error && !b.gone
  {
    var a := Run(h, es);
    hide CswSignature, CswTag, CbwTag, CswStatus, Run;
    if e.Thread? && a.comm.TestUnitReady? && !a.gone && a.ready.DataCheck? {
      if Answers(a) {
        GoodStatusGoesOn(a);
      } else {
        BadStatusGivesUp(a);
      }
    }
  }

  /** The driver waits for a packet to end, and this event ends it badly. */
  predicate EndsBadly(h: Host, e: Event) {
    || (h.scsi.WaitSendCommand? && e.TxIrq? && !e.tx.TxDone?)
    || ((h.scsi.WaitReceiveData? || h.scsi.WaitReceiveStatus?) && e.RxIrq?
        && (e.rx.RxError? || e.rx.RxNakTimeout? || e.rx.RxStall?))
  }

  /** A packet that ends badly ends the command at the next thread call: the device is given up with the
      error of the command, except that MODE SENSE is optional. */
  lemma BadPacketEndsCommand(h: Host, e: Event)
    requires Sized(h) && !h.gone && IsCommand(h.comm) && h.ready.DataNone? && EndsBadly(h, e)
    ensures var g := Step(Step(h, e), Thread);
            && g.scsi.ScsiIdle? && g.wait.PacketIdle? && (e.RxIrq? ==> !g.port.rxReq)
            && match h.comm
               case ModeSense6 => !g.gone && g.comm.WaitReadWrite?
               case Inquiry => g.gone && g.error == INQUIRY_ERR
               case ReadFormatCapacity => g.gone && g.error == FORMAT_CAPACITY_ERR
               case ReadBlocks => g.gone && g.error == READ_ERR
               case _ => g.gone && g.error == CAPACITY_ERR
  {
    hide CswSignature, CswTag, CbwTag, CswStatus, CbwBlock;
    BadPacketRecorded(h, e);
    FailureGivesUp(Step(h, e));
    assert Step(Step(h, e), Thread) == Threaded(Step(h, e));
    hide Step, Threaded;
  }

  lemma BadPacketRecorded(h: Host, e: Event)
    requires Sized(h) && EndsBadly(h, e)
    ensures var g := Step(h, e);
            && g.wait.PacketFail? && g.scsi == h.scsi && g.comm == h.comm && g.ready == h.ready && g.gone == h.gone
            && (e.RxIrq? ==> !g.port.rxReq)
  {
    hide CbwTag, CbwBlock, Threaded;
  }

  lemma FailureGivesUp(h: Host)
    requires Sized(h) && !h.gone && IsCommand(h.comm) && h.ready.DataNone? && h.wait.PacketFail?
    requires h.scsi.WaitSendCommand? || h.scsi.WaitReceiveData? || h.scsi.WaitReceiveStatus?
    ensures var g := Threaded(h);
            && g.scsi.ScsiIdle? && g.wait.PacketIdle? && g.port.rxReq == h.port.rxReq
            && match h.comm
               case ModeSense6 => !g.gone && g.comm.WaitReadWrite?
               case Inquiry => g.gone && g.error == INQUIRY_ERR
               case ReadFormatCapacity => g.gone && g.error == FORMAT_CAPACITY_ERR
               case ReadBlocks => g.gone && g.error == READ_ERR
               case _ => g.gone && g.error == CAPACITY_ERR
  {
    hide CswSignature, CswTag, CbwTag, CswStatus, CbwBlock, Checked, Prepared;
  }

  /** After a disconnect the driver does nothing on the bus, accepts no request and reports nothing, until
      the next connection; the command under way is abandoned. */
  lemma UnpluggedIsQuiet(h: Host, es: seq<Event>)
    requires Sized(h) && forall i :: 0 <= i < |es| ==> !es[i].Plug? && !es[i].Unplug?
    ensures var (u, g) := (Unplugged(h), Run(Unplugged(h), es));
            && u.port.log == (if Unfinished(h) then h.port.log + [Aborted] else h.port.log)
            && g.gone && g.port.log == u.port.log && g.comm == GetMaxLun && g.mem == u.mem && g.error == h.error
  {
    StaysQuiet(Unplugged(h), es);
  }

  lemma {:induction false} StaysQuiet(h: Host, es: seq<Event>)
    requires Sized(h) && h.gone && h.scsi.ScsiIdle? && h.comm.GetMaxLun?
    requires forall i :: 0 <= i < |es| ==> !es[i].Plug? && !es[i].Unplug?
    ensures var g := Run(h, es);
            g.gone && g.port.log == h.port.log && g.comm == GetMaxLun && g.mem == h.mem && g.error == h.error
    decreases |es|
  {
    if es != [] {
      StaysQuiet(Step(h, es[0]), es[1..]);
    }
  }

  /** A new connection starts over: nothing is under way, and the mount begins once the number of units is
      known. */
  lemma PluggedStartsOver(h: Host)
    requires Sized(h)
    ensures var g := Step(Step(h, Plug), Lun);
            && g.comm.Inquiry? && g.scsi.ScsiIdle? && g.ready.DataNone? && !g.gone
            && g.port.tx.None? && !g.port.rxReq && CbwTag(g.cbw) == CbwTag(h.cbw)
  {
    hide CbwTag;
  }

  /** A request is taken if and only if the driver waits for work, and a refused one changes nothing. A
      read taken is the next command, for the blocks and the buffer given. */
  lemma RequestsAreTaken(h: Host, address: u32, length: u32, buffer: Option<seq<byte>>)
    ensures var ((g, r), (k, q)) := (ReadRequested(h, address, length, buffer), TestRequested(h));
            && (r == 0 <==> h.comm.WaitReadWrite?) && (q == 0 <==> h.comm.WaitReadWrite?)
            && (r != 0 ==> g == h) && (q != 0 ==> k == h)
            && (r == 0 ==> g.comm.ReadBlocks? && g.rw == Transfer(address, length, buffer.None?)
                           && (buffer.Some? ==> g.mem.block == buffer.value))
            && (q == 0 ==> k == h.(comm := TestUnitReady))
  {
  }
}
