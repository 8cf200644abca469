/** What the enumeration takes from the bytes it receives: the data stage of a control read seen by the
    fetch machine and by the descriptor memory at once, and the analysis of the whole configuration as
    the fact the thread branches on. */
module DescriptorFetch {
  import opened Machine
  import H = UsbHost
  import R = DescriptorReassembly
  import W = DescriptorWalk

  /** The fetch machine waits for a data packet of the descriptor it asked for. */
  predicate Waiting(h: H.Host) {
    && (h.connect.Enumerate? || h.connect.ClassHandle?) && h.fetch.WaitRxReplyEnd? && h.rxEnd.EndIdle?
    && h.ep.flight == H.Some(H.InData) && h.ep.request == H.Descriptor(h.target)
  }

  /** One packet reaches the endpoint-0 interrupt; whether it is the last is for the byte count to say. */
  function PacketIn(h: H.Host, q: R.Param, p: seq<byte>, info: H.Info): (H.Host, R.Param)
    requires R.Fits(q, p)
  {
    var (q', done) := R.Arrived(q, p);
    (H.Ep0Interrupted(h, H.Bits(false, false, true, done, info)), q')
  }

  /** Packet after packet, until the interrupt asks for no further one. */
  ghost function PacketsIn(h: H.Host, q: R.Param, ps: seq<seq<byte>>, info: H.Info): (r: (H.Host, R.Param))
    requires forall i :: 0 <= i < |ps| ==> 1 <= |ps[i]| <= R.MAX_PACKET
    requires q.point + |R.Concat(ps)| <= |q.memory|
    ensures |r.1.memory| == |q.memory| && r.1.point <= q.point + |R.Concat(ps)|
    decreases |ps|
  {
    if ps == [] then (h, q) else
      var (g, r) := PacketsIn(h, q, ps[..|ps| - 1], info);
      if g.ep.flight == H.Some(H.InData) then PacketIn(g, r, ps[|ps| - 1], info) else (g, r)
  }

  /** The fetch machine and the memory agree on when the descriptor is complete. */
  lemma {:induction false} InStep(h: H.Host, q: R.Param, ps: seq<seq<byte>>, info: H.Info)
    requires Waiting(h)
    requires forall i :: 0 <= i < |ps| ==> 1 <= |ps[i]| <= R.MAX_PACKET
    requires q.point + |R.Concat(ps)| <= |q.memory|
    ensures var (g, r) := PacketsIn(h, q, ps, info);
            var (s, done) := R.ReceiveAll(q, ps);
            && r == s && g.target == h.target && g.fetch == h.fetch && g.connect == h.connect
            && (if done then g.rxEnd.EndSucceed? && g.ep.flight.None? && h.target in g.conn.fetched else Waiting(g))
    decreases |ps|
  {
    if ps != [] {
      InStep(h, q, ps[..|ps| - 1], info);
      var (g, r) := PacketsIn(h, q, ps[..|ps| - 1], info);
      if Waiting(g) {
        OnePacket(g, r, ps[|ps| - 1], info);
      }
      hide R.Arrived, PacketIn;
    }
  }

  lemma OnePacket(h: H.Host, q: R.Param, p: seq<byte>, info: H.Info)
    requires Waiting(h) && R.Fits(q, p)
    ensures var (g, r) := PacketIn(h, q, p, info);
            var (s, done) := R.Arrived(q, p);
            && r == s && g.target == h.target && g.fetch == h.fetch && g.connect == h.connect
            && (if done then g.rxEnd.EndSucceed? && g.ep.flight.None? && h.target in g.conn.fetched else Waiting(g))
  {
    hide R.Arrived;
  }

  /** A device that sends exactly the announced bytes: the fetch machine records success on the last
      packet and not before, and the memory then holds the bytes. */
  lemma DescriptorFetched(h: H.Host, m: seq<byte>, length: byte, ps: seq<seq<byte>>, info: H.Info)
    requires Waiting(h) && R.Stage(m, ps) && ps != [] && |R.Concat(ps)| == R.Announced(length, ps)
    requires |R.Concat(ps[..|ps| - 1])| <= |m|
    ensures var (g, r) := PacketsIn(h, R.Param(m, 0, length, 0), ps, info);
            && g.rxEnd.EndSucceed? && g.ep.flight.None? && h.target in g.conn.fetched
            && |r.memory| == |m| && r.memory[..|R.Concat(ps)|] == R.Concat(ps)
    ensures Waiting(PacketsIn(h, R.Param(m, 0, length, 0), ps[..|ps| - 1], info).0)
  {
    hide PacketsIn, R.ReceiveAll, R.Announced;
    R.ExactStageCompletes(m, length, ps);
    InStep(h, R.Param(m, 0, length, 0), ps, info);
    InStep(h, R.Param(m, 0, length, 0), ps[..|ps| - 1], info);
  }

  // ----- the whole configuration

  /** What the thread learns from the analysis of the first count interfaces. */
  function Analysed(i: H.Info, buf: seq<byte>, total: nat, count: nat): H.Info
    requires |buf| == W.BUFFER_SIZE && total < W.BUFFER_SIZE
    requires W.WalkFrom(buf, total, W.HEADER_LENGTH).Some?
    requires count <= |W.WalkFrom(buf, total, W.HEADER_LENGTH).value|
    requires forall o :: o in W.WalkFrom(buf, total, W.HEADER_LENGTH).value ==> W.Readable(buf, o)
  {
    var found := W.WalkFrom(buf, total, W.HEADER_LENGTH).value;
    var p := W.ExaminedAll(buf, found[..count], W.Pick(false, 0, W.None, W.None, H.NO_ERR));
    i.(storage := p.storage, fault := p.fault, interfaces := count)
  }

  /** From the bus to the verdict: when the packets put together are a configuration descriptor followed
      by the descriptors of a storage device, the check of the whole configuration recognises it. */
  lemma StorageDeviceRecognised(h: H.Host, m: seq<byte>, ps: seq<seq<byte>>, info: H.Info, head: seq<byte>,
                                pre: seq<seq<byte>>, ifc: seq<byte>, a: seq<byte>, b: seq<byte>, post: seq<seq<byte>>,
                                count: nat)
    requires Waiting(h) && h.target == H.All && |m| == W.BUFFER_SIZE && R.Stage(m, ps) && ps != []
    requires W.StorageConfiguration(pre, ifc, a, b, post) && |head| == W.HEADER_LENGTH
    requires var ds := pre + ([ifc, a, b] + post);
             && W.AllDescriptors(ds) && R.Concat(ps) == head + W.Serialize(ds)
             && |W.InterfaceOffsets(pre, W.HEADER_LENGTH)| < count <= |W.InterfaceOffsets(ds, W.HEADER_LENGTH)|
             && count <= H.MAX_INTERFACES
    requires 0 < |R.Concat(ps)| < U8_COUNT && |R.Concat(ps[..|ps| - 1])| <= |m|
    ensures var total := |R.Concat(ps)|;
            var (g, r) := PacketsIn(h, R.Param(m, 0, total, 0), ps, info);
            var found := W.WalkFrom(r.memory, total, W.HEADER_LENGTH);
            && g.rxEnd.EndSucceed? && H.All in g.conn.fetched
            && found.Some? && count <= |found.value| && (forall o :: o in found.value ==> W.Readable(r.memory, o))
            && forall k: H.Host :: k.flags.all.DescCheck? && k.info == Analysed(info, r.memory, total, count) ==>
                 H.AllChecked(k) == k.(storage := true, flags := H.SetFlag(k.flags, H.All, H.DescReady))
  {
    hide PacketsIn, W.WalkFrom, W.ExaminedAll, W.StorageConfiguration, W.InterfaceOffsets;
    hide W.Serialize, W.AllDescriptors;
    var (total, ds) := (|R.Concat(ps)|, pre + ([ifc, a, b] + post));
    DescriptorFetched(h, m, total, ps, info);
    var buf := PacketsIn(h, R.Param(m, 0, total, 0), ps, info).1.memory;
    assert buf[..total][W.HEADER_LENGTH..] == W.Serialize(ds);
    assert W.Holds(buf, W.HEADER_LENGTH, W.Serialize(ds));
    W.StorageFound(buf, pre, ifc, a, b, post, count, W.Pick(false, 0, W.None, W.None, H.NO_ERR));
  }
}
