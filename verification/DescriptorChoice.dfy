/** What the analysis of a configuration accepts, what it refuses and what it chooses, in terms of the
    bytes alone: class 08h, subclass 06h, protocol 50h and two endpoints, then two endpoint descriptors. */
module DescriptorChoice {
  import opened Machine
  import W = DescriptorWalk

  /** The interface descriptor at o is one of a bulk-only storage device with two endpoints. */
  predicate Storage(buf: seq<byte>, o: nat) {
    o + 8 <= |buf| && buf[o + 5] == 0x08 && buf[o + 6] == 0x06 && buf[o + 7] == 0x50 && buf[o + 4] == 2
  }

  /** A 7-byte endpoint descriptor behind it, at distance 9 or 16. */
  predicate Endpoint(buf: seq<byte>, at: nat) {
    at + 3 <= |buf| && buf[at] == 7 && buf[at + 1] == 0x05
  }

  /** A storage-class interface that is refused, or is accepted with an endpoint missing. */
  predicate Faulty(buf: seq<byte>, o: nat) {
    && o + 6 <= |buf| && buf[o + 5] == 0x08
    && (Storage(buf, o) ==> !Endpoint(buf, o + 9) || !Endpoint(buf, o + 16))
  }

  /** No interface behind os[i] is one. */
  predicate LastStorage(buf: seq<byte>, os: seq<nat>, i: nat) {
    i < |os| && Storage(buf, os[i]) && forall j :: i < j < |os| ==> !Storage(buf, os[j])
  }

  /** The last endpoint of the wanted direction behind a storage interface, or what there was before. */
  function LastEndpoint(buf: seq<byte>, os: seq<nat>, isIn: bool, before: W.Option<nat>): W.Option<nat> {
    if os == [] then before else
      var o := os[|os| - 1];
      if Storage(buf, o) && Endpoint(buf, o + 16) && (buf[o + 18] >= 0x80) == isIn then W.Some(o + 16)
      else if Storage(buf, o) && Endpoint(buf, o + 9) && (buf[o + 11] >= 0x80) == isIn then W.Some(o + 9)
      else LastEndpoint(buf, os[..|os| - 1], isIn, before)
  }

  predicate AllReadable(buf: seq<byte>, os: seq<nat>) {
    forall i :: 0 <= i < |os| ==> W.Readable(buf, os[i])
  }

  /** One interface. */
  lemma OneMeans(buf: seq<byte>, o: nat, p: W.Pick)
    requires W.Readable(buf, o)
    ensures var q := W.Examined(buf, o, p);
            && (q.storage <==> p.storage || Storage(buf, o))
            && q.ifc == (if Storage(buf, o) then o else p.ifc)
            && q.fault == (if Faulty(buf, o) then W.UNKNOWN_STORAGE_DEVICE else p.fault)
            && q.inEp == LastEndpoint(buf, [o], true, p.inEp)
            && q.outEp == LastEndpoint(buf, [o], false, p.outEp)
  {
    assert [o][..0] == [];
  }

  lemma {:induction false} ExaminedSnoc(buf: seq<byte>, os: seq<nat>, o: nat, p: W.Pick)
    requires AllReadable(buf, os) && W.Readable(buf, o)
    ensures AllReadable(buf, os + [o])
    ensures W.ExaminedAll(buf, os + [o], p) == W.Examined(buf, o, W.ExaminedAll(buf, os, p))
  {
    hide W.Examined, W.Readable;
    if os == [] {
      assert [o][1..] == [] && os + [o] == [o];
    } else {
      assert (os + [o])[1..] == os[1..] + [o];
      ExaminedSnoc(buf, os[1..], o, W.Examined(buf, os[0], p));
    }
  }

  lemma LastEndpointSnoc(buf: seq<byte>, os: seq<nat>, o: nat, isIn: bool, before: W.Option<nat>)
    ensures LastEndpoint(buf, os + [o], isIn, before)
         == LastEndpoint(buf, [o], isIn, LastEndpoint(buf, os, isIn, before))
  {
    assert (os + [o])[..|os|] == os && [o][..0] == [];
  }

  lemma LastStorageSnoc(buf: seq<byte>, os: seq<nat>, o: nat)
    ensures forall i: nat :: LastStorage(buf, os + [o], i)
                        <==> if i == |os| then Storage(buf, o) else LastStorage(buf, os, i) && !Storage(buf, o)
  {
    forall i: nat
      ensures LastStorage(buf, os + [o], i)
         <==> if i == |os| then Storage(buf, o) else LastStorage(buf, os, i) && !Storage(buf, o)
    {
      if i < |os| && LastStorage(buf, os + [o], i) {
        assert (os + [o])[|os|] == o;
        assert forall j :: i < j < |os| ==> (os + [o])[j] == os[j];
      }
    }
  }

  /** From any pick: storage is found if and only if some interface examined is a storage interface, and
      the last such is the one chosen; a fault is set if and only if some interface examined is faulty;
      and the endpoints chosen are the last of their direction. */
  lemma {:induction false} ChoiceMeans(buf: seq<byte>, os: seq<nat>, start: W.Pick)
    requires AllReadable(buf, os)
    ensures var p := W.ExaminedAll(buf, os, start);
            && (p.storage <==> start.storage || exists i :: 0 <= i < |os| && Storage(buf, os[i]))
            && (forall i: nat :: LastStorage(buf, os, i) ==> p.ifc == os[i])
            && p.fault == (if exists i :: 0 <= i < |os| && Faulty(buf, os[i]) then W.UNKNOWN_STORAGE_DEVICE
                           else start.fault)
            && p.inEp == LastEndpoint(buf, os, true, start.inEp)
            && p.outEp == LastEndpoint(buf, os, false, start.outEp)
    decreases |os|
  {
    if os != [] {
      var (front, o) := (os[..|os| - 1], os[|os| - 1]);
      assert os == front + [o];
      ChoiceMeans(buf, front, start);
      ExaminedSnoc(buf, front, o, start);
      OneMeans(buf, o, W.ExaminedAll(buf, front, start));
      LastEndpointSnoc(buf, front, o, true, start.inEp);
      LastEndpointSnoc(buf, front, o, false, start.outEp);
      LastStorageSnoc(buf, front, o);
      hide W.ExaminedAll, W.Examined, W.Readable, Storage, Endpoint, Faulty, LastEndpoint, LastStorage;
      assert forall i :: 0 <= i < |front| ==> os[i] == front[i];
    }
  }

  /** The last endpoint is one of the wanted direction behind a storage interface that was examined. */
  lemma {:induction false} LastEndpointIsOne(buf: seq<byte>, os: seq<nat>, isIn: bool)
    ensures var e := LastEndpoint(buf, os, isIn, W.None);
            if e.None? then
              forall i :: 0 <= i < |os| && Storage(buf, os[i]) ==>
                && (Endpoint(buf, os[i] + 9) ==> (buf[os[i] + 11] >= 0x80) != isIn)
                && (Endpoint(buf, os[i] + 16) ==> (buf[os[i] + 18] >= 0x80) != isIn)
            else
              && Endpoint(buf, e.value) && (buf[e.value + 2] >= 0x80) == isIn
              && exists i :: 0 <= i < |os| && Storage(buf, os[i]) && (e.value == os[i] + 9 || e.value == os[i] + 16)
    decreases |os|
  {
    if os != [] {
      LastEndpointIsOne(buf, os[..|os| - 1], isIn);
    }
  }

  /** The loop of the source, on a configuration it looks at for the first time: accepted, refused and
      chosen exactly as the bytes say. */
  method Choose(buf: seq<byte>, os: seq<nat>, count: nat) returns (p: W.Pick)
    requires count <= |os| && AllReadable(buf, os)
    ensures p.storage <==> exists i :: 0 <= i < count && Storage(buf, os[i])
    ensures forall i: nat :: LastStorage(buf, os[..count], i) ==> p.ifc == os[i]
    ensures p.fault != 0 <==> exists i :: 0 <= i < count && Faulty(buf, os[i])
    ensures p.inEp == LastEndpoint(buf, os[..count], true, W.None)
    ensures p.outEp == LastEndpoint(buf, os[..count], false, W.None)
  {
    var start := W.Pick(false, 0, W.None, W.None, 0);
    p := W.Examine(buf, os, count, start);
    ChoiceMeans(buf, os[..count], start);
    hide W.ExaminedAll, Storage, Faulty, LastEndpoint, LastStorage;
    assert forall i :: 0 <= i < count ==> os[..count][i] == os[i];
  }
}
