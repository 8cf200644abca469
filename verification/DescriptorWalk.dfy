/** The analysis of a configuration descriptor (USB 2.0, sections 9.6.3, 9.6.5 and 9.6.6): the walk
    from descriptor to descriptor that collects the interface descriptors, and the choice of the
    endpoints of a bulk-only mass-storage interface. */
module DescriptorWalk {
  import opened Machine

  datatype Option<T> = None | Some(value: T)

  const BUFFER_SIZE := 256
  const MAX_INTERFACES := 5
  const HEADER_LENGTH := 9
  const TYPE_INTERFACE := 0x04
  const TYPE_ENDPOINT := 0x05
  const CLASS_MASS_STORAGE := 0x08
  const SUBCLASS_SCSI := 0x06
  const PROTOCOL_BULK_ONLY := 0x50
  const UNKNOWN_STORAGE_DEVICE := 9

  // ----- the walk

  /** The offsets of the interface descriptors the walk collects from offset at on; None when it meets
      a zero length. */
  function WalkFrom(buf: seq<byte>, total: nat, at: nat): (r: Option<seq<nat>>)
    requires |buf| == BUFFER_SIZE && total < BUFFER_SIZE
    decreases BUFFER_SIZE + 255 - at
  {
    if at >= total then Some([])
    else if buf[at] == 0 then None
    else match WalkFrom(buf, total, at + buf[at])
      case None => None
      case Some(rest) => Some((if buf[at + 1] == TYPE_INTERFACE then [at] else []) + rest)
  }

  /** The loop itself. At most five interfaces fit the array they are collected in. */
  method Walk(buf: seq<byte>, total: nat, ifcs: array<nat>) returns (n: nat)
    requires |buf| == BUFFER_SIZE && total < BUFFER_SIZE && ifcs.Length == MAX_INTERFACES
    requires WalkFrom(buf, total, HEADER_LENGTH).Some? && |WalkFrom(buf, total, HEADER_LENGTH).value| <= MAX_INTERFACES
    modifies ifcs
    ensures n <= MAX_INTERFACES && ifcs[..n] == WalkFrom(buf, total, HEADER_LENGTH).value
  {
    n := 0;
    var at: nat := HEADER_LENGTH;
    ghost var all := WalkFrom(buf, total, HEADER_LENGTH).value;
    hide WalkFrom;
    while at < total
      invariant n <= MAX_INTERFACES
      invariant WalkFrom(buf, total, at).Some?
      invariant ifcs[..n] + WalkFrom(buf, total, at).value == all
    {
      var length, kind := buf[at], buf[at + 1];
      ghost var done := ifcs[..n];
      WalkStep(buf, total, at, done);
      if kind == TYPE_INTERFACE {
        assert n < |all| by {
          assert |done + [at]| <= |all|;
        }
        ifcs[n] := at;
        n := n + 1;
        assert ifcs[..n] == done + [at];
      }
      at := at + length;
    }
    WalkEnds(buf, total, at);
  }

  lemma WalkEnds(buf: seq<byte>, total: nat, at: nat)
    requires |buf| == BUFFER_SIZE && total < BUFFER_SIZE && at >= total
    ensures WalkFrom(buf, total, at) == Some([])
  {
  }

  lemma WalkStep(buf: seq<byte>, total: nat, at: nat, done: seq<nat>)
    requires |buf| == BUFFER_SIZE && total < BUFFER_SIZE && at < total && WalkFrom(buf, total, at).Some?
    ensures buf[at] != 0 && WalkFrom(buf, total, at + buf[at]).Some?
    ensures done + WalkFrom(buf, total, at).value
         == (if buf[at + 1] == TYPE_INTERFACE then done + [at] else done) + WalkFrom(buf, total, at + buf[at]).value
  {
    var rest := WalkFrom(buf, total, at + buf[at]).value;
    assert done + ([at] + rest) == done + [at] + rest;
    assert done + ([] + rest) == done + rest;
  }

  // ----- descriptors as a device sends them

  predicate IsDescriptor(d: seq<byte>) {
    2 <= |d| && d[0] == |d|
  }

  predicate AllDescriptors(ds: seq<seq<byte>>) {
    forall i :: 0 <= i < |ds| ==> IsDescriptor(ds[i])
  }

  function Serialize(ds: seq<seq<byte>>): seq<byte> {
    if ds == [] then [] else ds[0] + Serialize(ds[1..])
  }

  /** Where the interface descriptors of ds, those of type 04h, lie when the first descriptor lies at offset at. */
  function InterfaceOffsets(ds: seq<seq<byte>>, at: nat): seq<nat>
    requires AllDescriptors(ds)
  {
    if ds == [] then [] else
      (if ds[0][1] == 0x04 then [at] else []) + InterfaceOffsets(ds[1..], at + |ds[0]|)
  }

  /** buf holds the bytes s at offset at. */
  predicate Holds(buf: seq<byte>, at: nat, s: seq<byte>) {
    at + |s| <= |buf| && buf[at..at + |s|] == s
  }

  /** The walk recovers exactly the offsets of the interface descriptors, in order. */
  lemma {:induction false} WalkRecovers(buf: seq<byte>, at: nat, ds: seq<seq<byte>>)
    requires |buf| == BUFFER_SIZE && AllDescriptors(ds)
    requires Holds(buf, at, Serialize(ds)) && at + |Serialize(ds)| < BUFFER_SIZE
    ensures WalkFrom(buf, at + |Serialize(ds)|, at) == Some(InterfaceOffsets(ds, at))
    decreases |ds|
  {
    if ds != [] {
      var (d, rest) := (ds[0], Serialize(ds[1..]));
      HoldsParts(buf, at, d, rest);
      assert buf[at..at + |d|][0] == d[0] && buf[at..at + |d|][1] == d[1];
      WalkRecovers(buf, at + |d|, ds[1..]);
    }
  }

  lemma HoldsParts(buf: seq<byte>, at: nat, a: seq<byte>, b: seq<byte>)
    requires Holds(buf, at, a + b)
    ensures Holds(buf, at, a) && Holds(buf, at + |a|, b)
  {
    assert (a + b)[..|a|] == a && (a + b)[|a|..] == b;
  }

  /** A chain of descriptors that starts at offset at and ends at a zero length inside the configuration. */
  predicate LeadsToZero(buf: seq<byte>, total: nat, at: nat, path: seq<nat>)
    requires |buf| == BUFFER_SIZE && total < BUFFER_SIZE
  {
    && path != [] && path[0] == at
    && (forall i :: 0 <= i < |path| ==> path[i] < total)
    && (forall i :: 0 <= i < |path| - 1 ==> path[i + 1] == path[i] + buf[path[i]])
    && buf[path[|path| - 1]] == 0
  }

  /** Where the source's loop stands after n turns: each adds the length it finds, as long as the loop's
      condition holds. */
  function Turns(buf: seq<byte>, total: nat, at: nat, n: nat): nat
    requires |buf| == BUFFER_SIZE && total < BUFFER_SIZE
    decreases n
  {
    if n == 0 || at >= total then at else Turns(buf, total, at + buf[at], n - 1)
  }

  lemma {:induction false} TurnsAtZero(buf: seq<byte>, total: nat, at: nat, n: nat)
    requires |buf| == BUFFER_SIZE && at < total < BUFFER_SIZE && buf[at] == 0
    ensures Turns(buf, total, at, n) == at
  {
    if n > 0 {
      TurnsAtZero(buf, total, at, n - 1);
    }
  }

  /** The loop never ends: after any number of turns its condition still holds. */
  ghost predicate Forever(buf: seq<byte>, total: nat, at: nat)
    requires |buf| == BUFFER_SIZE && total < BUFFER_SIZE
  {
    forall n: nat :: Turns(buf, total, at, n) < total
  }

  lemma AfterOneTurn(buf: seq<byte>, total: nat, at: nat)
    requires |buf| == BUFFER_SIZE && at < total < BUFFER_SIZE
    ensures Forever(buf, total, at) <==> Forever(buf, total, at + buf[at])
  {
    var next := at + buf[at];
    if Forever(buf, total, at) {
      forall n: nat
        ensures Turns(buf, total, next, n) < total
      {
        assert Turns(buf, total, at, n + 1) == Turns(buf, total, next, n);
      }
    }
    if Forever(buf, total, next) {
      forall n: nat
        ensures Turns(buf, total, at, n) < total
      {
        assert n > 0 ==> Turns(buf, total, at, n) == Turns(buf, total, next, n - 1);
      }
    }
  }

  /** The loop runs for ever exactly when the walk is undefined. */
  lemma {:induction false} LoopsForEver(buf: seq<byte>, total: nat, at: nat)
    requires |buf| == BUFFER_SIZE && total < BUFFER_SIZE
    ensures WalkFrom(buf, total, at).None? <==> Forever(buf, total, at)
    decreases BUFFER_SIZE + 255 - at
  {
    if at >= total {
      assert Turns(buf, total, at, 0) >= total;
    } else if buf[at] == 0 {
      forall n: nat
        ensures Turns(buf, total, at, n) < total
      {
        TurnsAtZero(buf, total, at, n);
      }
    } else {
      AfterOneTurn(buf, total, at);
      hide Forever;
      LoopsForEver(buf, total, at + buf[at]);
    }
  }

  /** The source's loop fails to end if and only if a chain of descriptors leads to a zero length. */
  lemma {:induction false} WalkHangsOnZero(buf: seq<byte>, total: nat, at: nat)
    requires |buf| == BUFFER_SIZE && total < BUFFER_SIZE
    ensures Forever(buf, total, at) <==> exists path :: LeadsToZero(buf, total, at, path)
  {
    LoopsForEver(buf, total, at);
    NoneIsZero(buf, total, at);
  }

  function ZeroBuffer(): (b: seq<byte>)
    ensures |b| == BUFFER_SIZE && forall i :: 0 <= i < |b| ==> b[i] == 0
  {
    seq(BUFFER_SIZE, _ => 0)
  }

  /** Such an input: one descriptor of length zero behind the configuration descriptor. */
  lemma ZeroLengthHangs()
    ensures Forever(ZeroBuffer(), 10, HEADER_LENGTH)
  {
    forall n: nat
      ensures Turns(ZeroBuffer(), 10, HEADER_LENGTH, n) < 10
    {
      TurnsAtZero(ZeroBuffer(), 10, HEADER_LENGTH, n);
    }
  }

  lemma {:induction false} NoneIsZero(buf: seq<byte>, total: nat, at: nat)
    requires |buf| == BUFFER_SIZE && total < BUFFER_SIZE
    ensures WalkFrom(buf, total, at).None? <==> exists path :: LeadsToZero(buf, total, at, path)
    decreases BUFFER_SIZE + 255 - at
  {
    if at < total {
      if buf[at] == 0 {
        assert LeadsToZero(buf, total, at, [at]);
      } else {
        var next := at + buf[at];
        NoneIsZero(buf, total, next);
        if exists path :: LeadsToZero(buf, total, at, path) {
          var path :| LeadsToZero(buf, total, at, path);
          assert LeadsToZero(buf, total, next, path[1..]);
        }
        if exists path :: LeadsToZero(buf, total, next, path) {
          var path :| LeadsToZero(buf, total, next, path);
          assert LeadsToZero(buf, total, at, [at] + path);
        }
      }
    }
  }

  // ----- the choice of the endpoints

  /** What the analysis of the interfaces has found: a storage interface, its endpoints, and the last fault. */
  datatype Pick = Pick(storage: bool, ifc: nat, inEp: Option<nat>, outEp: Option<nat>, fault: nat)

  /** The bytes the analysis reads lie in the buffer: up to the class, and for a storage interface the
      whole descriptor and two endpoint descriptors behind it. */
  predicate Readable(buf: seq<byte>, o: nat) {
    && |buf| == BUFFER_SIZE && o + 6 <= BUFFER_SIZE
    && (buf[o + 5] == CLASS_MASS_STORAGE ==> o + HEADER_LENGTH + 14 <= BUFFER_SIZE)
  }

  function EndpointSeen(buf: seq<byte>, at: nat, p: Pick): Pick
    requires at + 7 <= |buf|
  {
    if buf[at] == 7 && buf[at + 1] == TYPE_ENDPOINT then
      if buf[at + 2] >= 0x80 then p.(inEp := Some(at)) else p.(outEp := Some(at))
    else p.(fault := UNKNOWN_STORAGE_DEVICE)
  }

  predicate IsStorageClass(buf: seq<byte>, o: nat)
    requires Readable(buf, o)
  {
    buf[o + 5] == CLASS_MASS_STORAGE
  }

  predicate IsBulkOnly(buf: seq<byte>, o: nat)
    requires Readable(buf, o)
  {
    IsStorageClass(buf, o) && buf[o + 6] == SUBCLASS_SCSI && buf[o + 7] == PROTOCOL_BULK_ONLY && buf[o + 4] == 2
  }

  function Examined(buf: seq<byte>, o: nat, p: Pick): Pick
    requires Readable(buf, o)
  {
    if !IsStorageClass(buf, o) then p
    else if !IsBulkOnly(buf, o) then p.(fault := UNKNOWN_STORAGE_DEVICE)
    else EndpointSeen(buf, o + 16, EndpointSeen(buf, o + 9, p.(storage := true, ifc := o)))
  }

  function ExaminedAll(buf: seq<byte>, os: seq<nat>, p: Pick): Pick
    requires forall i :: 0 <= i < |os| ==> Readable(buf, os[i])
  {
    if os == [] then p else ExaminedAll(buf, os[1..], Examined(buf, os[0], p))
  }

  /** The loop over the first count interfaces found, count being the number the configuration names. */
  method Examine(buf: seq<byte>, os: seq<nat>, count: nat, start: Pick) returns (p: Pick)
    requires count <= |os| && forall i :: 0 <= i < |os| ==> Readable(buf, os[i])
    ensures p == ExaminedAll(buf, os[..count], start)
  {
    p := start;
    for i := 0 to count
      invariant ExaminedAll(buf, os[..count], start) == ExaminedAll(buf, os[..count][i..], p)
    {
      var o := os[i];
      if buf[o + 5] == CLASS_MASS_STORAGE {
        if buf[o + 6] == SUBCLASS_SCSI && buf[o + 7] == PROTOCOL_BULK_ONLY && buf[o + 4] == 2 {
          p := p.(storage := true, ifc := o);
          if buf[o + 9] == 7 && buf[o + 10] == TYPE_ENDPOINT {
            if buf[o + 11] >= 0x80 { p := p.(inEp := Some(o + 9)); } else { p := p.(outEp := Some(o + 9)); }
          } else {
            p := p.(fault := UNKNOWN_STORAGE_DEVICE);
          }
          if buf[o + 16] == 7 && buf[o + 17] == TYPE_ENDPOINT {
            if buf[o + 18] >= 0x80 { p := p.(inEp := Some(o + 16)); } else { p := p.(outEp := Some(o + 16)); }
          } else {
            p := p.(fault := UNKNOWN_STORAGE_DEVICE);
          }
        } else {
          p := p.(fault := UNKNOWN_STORAGE_DEVICE);
        }
      }
    }
  }

  // ----- walk and choice together

  predicate StorageInterface(d: seq<byte>) {
    |d| == HEADER_LENGTH && d[1] == TYPE_INTERFACE && d[4] == 2
    && d[5] == CLASS_MASS_STORAGE && d[6] == SUBCLASS_SCSI && d[7] == PROTOCOL_BULK_ONLY
  }

  predicate OtherDescriptor(d: seq<byte>)
    requires |d| >= 2
  {
    d[1] != TYPE_INTERFACE || (|d| >= 6 && d[5] != CLASS_MASS_STORAGE)
  }

  predicate EndpointDescriptor(d: seq<byte>, isIn: bool) {
    |d| == 7 && d[1] == TYPE_ENDPOINT && (d[2] >= 0x80) == isIn
  }

  predicate InAndOut(a: seq<byte>, b: seq<byte>) {
    || (EndpointDescriptor(a, true) && EndpointDescriptor(b, false))
    || (EndpointDescriptor(a, false) && EndpointDescriptor(b, true))
  }

  /** The descriptors of a device: other ones, one bulk-only storage interface with an IN and an OUT
      endpoint right behind it in either order, and other ones again. */
  ghost predicate StorageConfiguration(pre: seq<seq<byte>>, ifc: seq<byte>, a: seq<byte>, b: seq<byte>,
                                       post: seq<seq<byte>>) {
    && AllDescriptors(pre) && AllDescriptors(post) && IsDescriptor(ifc) && IsDescriptor(a) && IsDescriptor(b)
    && (forall i :: 0 <= i < |pre| ==> OtherDescriptor(pre[i]))
    && (forall i :: 0 <= i < |post| ==> OtherDescriptor(post[i]))
    && StorageInterface(ifc)
    && InAndOut(a, b)
  }

  /** Other descriptors contribute no storage interface. */
  lemma {:induction false} OthersAreOther(buf: seq<byte>, at: nat, ds: seq<seq<byte>>)
    requires |buf| == BUFFER_SIZE && AllDescriptors(ds) && (forall i :: 0 <= i < |ds| ==> OtherDescriptor(ds[i]))
    requires Holds(buf, at, Serialize(ds))
    ensures forall o :: o in InterfaceOffsets(ds, at) ==> Readable(buf, o) && !IsStorageClass(buf, o)
    decreases |ds|
  {
    if ds != [] {
      var d := ds[0];
      HoldsParts(buf, at, d, Serialize(ds[1..]));
      if d[1] == TYPE_INTERFACE {
        assert buf[at..at + |d|][5] == d[5];
      }
      OthersAreOther(buf, at + |d|, ds[1..]);
    }
  }

  /** Interfaces that are not storage leave the choice alone. */
  lemma {:induction false} OthersIgnored(buf: seq<byte>, os: seq<nat>, rest: seq<nat>, p: Pick)
    requires forall o :: o in os ==> Readable(buf, o) && !IsStorageClass(buf, o)
    requires forall o :: o in rest ==> Readable(buf, o)
    ensures ExaminedAll(buf, os + rest, p) == ExaminedAll(buf, rest, p)
    decreases |os|
  {
    if os == [] {
      assert os + rest == rest;
    } else {
      assert (os + rest)[1..] == os[1..] + rest;
      assert os[0] in os;
      OthersIgnored(buf, os[1..], rest, p);
    }
  }

  lemma {:induction false} OffsetsConcat(ds: seq<seq<byte>>, es: seq<seq<byte>>, at: nat)
    requires AllDescriptors(ds) && AllDescriptors(es)
    ensures AllDescriptors(ds + es)
    ensures Serialize(ds + es) == Serialize(ds) + Serialize(es)
    ensures InterfaceOffsets(ds + es, at) == InterfaceOffsets(ds, at) + InterfaceOffsets(es, at + |Serialize(ds)|)
    decreases |ds|
  {
    if ds == [] {
      assert ds + es == es;
    } else {
      assert (ds + es)[1..] == ds[1..] + es;
      OffsetsConcat(ds[1..], es, at + |ds[0]|);
      var (s, t) := (Serialize(ds[1..]), Serialize(es));
      assert ds[0] + (s + t) == ds[0] + s + t;
      var (f, g) := (InterfaceOffsets(ds[1..], at + |ds[0]|), InterfaceOffsets(es, at + |ds[0]| + |s|));
      assert [at] + (f + g) == [at] + f + g;
      assert [] + (f + g) == [] + f + g;
    }
  }

  /** For every storage configuration the walk and the choice together find the interface and both its
      endpoints, in whichever order the endpoints come, and report no fault, as long as the number of
      interfaces the configuration names reaches as far as the storage interface. */
  lemma StorageFound(buf: seq<byte>, pre: seq<seq<byte>>, ifc: seq<byte>, a: seq<byte>, b: seq<byte>,
                     post: seq<seq<byte>>, count: nat, start: Pick)
    requires |buf| == BUFFER_SIZE && StorageConfiguration(pre, ifc, a, b, post)
    requires var ds := pre + ([ifc, a, b] + post);
             && Holds(buf, HEADER_LENGTH, Serialize(ds)) && HEADER_LENGTH + |Serialize(ds)| < BUFFER_SIZE
             && AllDescriptors(ds)
             && |InterfaceOffsets(pre, HEADER_LENGTH)| < count <= |InterfaceOffsets(ds, HEADER_LENGTH)|
    ensures var ds := pre + ([ifc, a, b] + post);
            var o := HEADER_LENGTH + |Serialize(pre)|;
            var found := WalkFrom(buf, HEADER_LENGTH + |Serialize(ds)|, HEADER_LENGTH);
            && found == Some(InterfaceOffsets(ds, HEADER_LENGTH))
            && (forall i :: 0 <= i < |found.value| ==> Readable(buf, found.value[i]))
            && ExaminedAll(buf, found.value[..count], start)
            == Pick(true, o, Some(if EndpointDescriptor(a, true) then o + 9 else o + 16),
                    Some(if EndpointDescriptor(a, true) then o + 16 else o + 9), start.fault)
  {
    hide WalkFrom, Examined, EndpointDescriptor, OtherDescriptor, Serialize, InterfaceOffsets;
    var mid := [ifc, a, b];
    var (ds, o) := (pre + (mid + post), HEADER_LENGTH + |Serialize(pre)|);
    WalkRecovers(buf, HEADER_LENGTH, ds);
    MiddleShape(ifc, a, b, o);
    OffsetsConcat(mid, post, o);
    OffsetsConcat(pre, mid + post, HEADER_LENGTH);
    HoldsParts(buf, HEADER_LENGTH, Serialize(pre), Serialize(mid + post));
    HoldsParts(buf, o, Serialize(mid), Serialize(post));
    var (head, tail) := (InterfaceOffsets(pre, HEADER_LENGTH), InterfaceOffsets(post, o + 23));
    OthersAreOther(buf, HEADER_LENGTH, pre);
    OthersAreOther(buf, o + 23, post);
    MiddleChosen(buf, o, ifc, a, b, start);
    OneChosen(buf, head, o, tail, count, start);
  }

  /** Among interfaces that are not storage the one at o decides. */
  lemma OneChosen(buf: seq<byte>, head: seq<nat>, o: nat, tail: seq<nat>, count: nat, start: Pick)
    requires forall x :: x in head || x in tail ==> Readable(buf, x) && !IsStorageClass(buf, x)
    requires Readable(buf, o) && |head| < count <= |head| + 1 + |tail|
    ensures forall i :: 0 <= i < |head + ([o] + tail)| ==> Readable(buf, (head + ([o] + tail))[i])
    ensures ExaminedAll(buf, (head + ([o] + tail))[..count], start) == Examined(buf, o, start)
  {
    hide Examined, Readable, IsStorageClass;
    var rest := tail[..count - |head| - 1];
    assert (head + ([o] + tail))[..count] == head + ([o] + rest);
    OthersIgnored(buf, head, [o] + rest, start);
    assert ([o] + rest)[1..] == rest && rest + [] == rest;
    OthersIgnored(buf, rest, [], Examined(buf, o, start));
  }

  lemma MiddleShape(ifc: seq<byte>, a: seq<byte>, b: seq<byte>, o: nat)
    requires IsDescriptor(ifc) && IsDescriptor(a) && IsDescriptor(b) && StorageInterface(ifc)
    requires InAndOut(a, b)
    ensures AllDescriptors([ifc, a, b])
    ensures Serialize([ifc, a, b]) == ifc + a + b && |ifc + a + b| == 23 && InterfaceOffsets([ifc, a, b], o) == [o]
  {
    assert [ifc, a, b][1..] == [a, b];
    assert [a, b][1..] == [b];
    assert [b][1..] == [];
    assert InterfaceOffsets([], o + 23) == [] && Serialize([]) == [];
    assert InterfaceOffsets([b], o + 16) == [];
    assert InterfaceOffsets([a, b], o + 9) == [];
    assert b + [] == b;
    assert Serialize([b]) == b;
    assert Serialize([a, b]) == a + b;
    assert ifc + (a + b) == ifc + a + b;
  }

  lemma MiddleChosen(buf: seq<byte>, o: nat, ifc: seq<byte>, a: seq<byte>, b: seq<byte>, p: Pick)
    requires |buf| == BUFFER_SIZE && StorageInterface(ifc) && IsDescriptor(a) && IsDescriptor(b)
    requires InAndOut(a, b)
    requires Holds(buf, o, ifc + a + b)
    ensures Readable(buf, o)
    ensures Examined(buf, o, p)
         == Pick(true, o, Some(if EndpointDescriptor(a, true) then o + 9 else o + 16),
                 Some(if EndpointDescriptor(a, true) then o + 16 else o + 9), p.fault)
  {
    HoldsParts(buf, o, ifc + a, b);
    HoldsParts(buf, o, ifc, a);
    assert forall i :: 0 <= i < 9 ==> buf[o..o + 9][i] == ifc[i];
    assert forall i :: 0 <= i < 7 ==> buf[o + 9..o + 16][i] == a[i];
    assert forall i :: 0 <= i < 7 ==> buf[o + 16..o + 23][i] == b[i];
  }
}
