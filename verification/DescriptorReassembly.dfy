/** The data stage of a control read: the endpoint-0 interrupt puts a descriptor together from
    packets. Length and count are 8-bit numbers; a length of zero is replaced by the first byte. */
module DescriptorReassembly {
  import opened Machine

  const MAX_PACKET := 64

  /** desc_Param: the memory behind descriptor_point, the offset of the pointer, length and count. */
  datatype Param = Param(memory: seq<byte>, point: nat, length: byte, count: byte)

  /** The packet lies in the memory, and so does the byte that gives an unknown length. */
  predicate Fits(q: Param, p: seq<byte>) {
    |p| <= MAX_PACKET && q.point + |p| <= |q.memory| && (q.length == 0 ==> q.point < |q.memory|)
  }

  function Copied(m: seq<byte>, at: nat, p: seq<byte>): (r: seq<byte>)
    requires at + |p| <= |m|
    ensures |r| == |m|
  {
    m[..at] + p + m[at + |p|..]
  }

  /** One packet: the new parameters, and whether success is signalled. */
  function Arrived(q: Param, p: seq<byte>): (Param, bool)
    requires Fits(q, p)
  {
    var memory := Copied(q.memory, q.point, p);
    var count := (q.count + |p|) % U8_COUNT;
    var length := if q.length == 0 then memory[q.point] else q.length;
    if count >= length then (Param(memory, q.point, length, count), true)
    else (Param(memory, q.point + |p|, length, count), false)
  }

  class Receiver {
    const memory: array<byte>
    var point: nat
    var length: byte
    var count: byte

    ghost function State(): Param
      reads this, memory
    {
      Param(memory[..], point, length, count)
    }

    constructor (size: nat, length: byte)
      ensures fresh(memory) && memory.Length == size
      ensures point == 0 && this.length == length && count == 0
    {
      memory := new byte[size](_ => 0);
      point, this.length, count := 0, length, 0;
    }

    /** The RxPktRdy branch of ENUM_STATUS_WAIT_RX_REPLY_DESC_END. */
    method Receive(p: seq<byte>) returns (done: bool)
      requires Fits(State(), p)
      modifies this, memory
      ensures (State(), done) == Arrived(old(State()), p)
    {
      forall i | 0 <= i < |p| {
        memory[point + i] := p[i];
      }
      assert memory[..] == Copied(old(memory[..]), point, p);
      count := (count + |p|) % U8_COUNT;
      if length == 0 {
        length := memory[point];
      }
      done := count >= length;
      if !done {
        point := point + |p|;
      }
    }
  }

  // ----- a whole data stage

  function Concat(ps: seq<seq<byte>>): seq<byte> {
    if ps == [] then [] else Concat(ps[..|ps| - 1]) + ps[|ps| - 1]
  }

  /** All packets have a legal size and the memory is large enough for them. */
  ghost predicate Stage(m: seq<byte>, ps: seq<seq<byte>>) {
    |Concat(ps)| <= |m| && forall i :: 0 <= i < |ps| ==> 1 <= |ps[i]| <= MAX_PACKET
  }

  /** The announced length: the one asked for, or the first byte when it is not known. */
  function Announced(length: byte, ps: seq<seq<byte>>): byte
    requires ps != [] && |ps[0]| >= 1
  {
    if length == 0 then ps[0][0] else length
  }

  /** The parameters after the packets ps, none of which but the last was the last one needed. */
  ghost predicate After(m: seq<byte>, length: byte, ps: seq<seq<byte>>, q: Param) {
    && |q.memory| == |m| && |Concat(ps)| <= |m| && q.point == |Concat(ps)|
    && q.memory[..q.point] == Concat(ps)
    && (ps == [] ==> q.length == length && q.count == 0)
    && (ps != [] && |ps[0]| >= 1 ==> q.length == Announced(length, ps) && q.count == |Concat(ps)|)
  }

  /** No proper prefix of the packets reaches the announced length. */
  ghost predicate Needed(length: byte, ps: seq<seq<byte>>)
    requires ps != [] && |ps[0]| >= 1
  {
    forall k :: 0 <= k < |ps| ==> |Concat(ps[..k])| < Announced(length, ps)
  }

  /** Packet after packet, one interrupt each, until success is signalled. */
  ghost function ReceiveAll(q: Param, ps: seq<seq<byte>>): (r: (Param, bool))
    requires forall i :: 0 <= i < |ps| ==> 1 <= |ps[i]| <= MAX_PACKET
    requires q.point + |Concat(ps)| <= |q.memory|
    ensures |r.0.memory| == |q.memory| && r.0.point <= q.point + |Concat(ps)|
    decreases |ps|
  {
    if ps == [] then (q, false) else
      var (r, done) := ReceiveAll(q, ps[..|ps| - 1]);
      if done then (r, true) else Arrived(r, ps[|ps| - 1])
  }

  /** While the announced length is not reached nothing is signalled and the packets pile up in order. */
  lemma {:induction false} NotYet(m: seq<byte>, length: byte, ps: seq<seq<byte>>, n: nat)
    requires Stage(m, ps) && ps != [] && Needed(length, ps) && n < |ps|
    ensures |Concat(ps[..n])| <= |m|
    ensures var r := ReceiveAll(Param(m, 0, length, 0), ps[..n]);
            !r.1 && After(m, length, ps[..n], r.0)
    decreases n
  {
    hide Arrived, Copied;
    PrefixShorter(ps, n);
    if n == 0 {
      assert ps[..0] == [];
    } else {
      var (qs, p) := (ps[..n - 1], ps[n - 1]);
      var some := ps[..n];
      assert some[..n - 1] == qs;
      NotYet(m, length, ps, n - 1);
      assert Concat(some) == Concat(qs) + p;
      SmallPrefix(length, ps, n);
      hide Needed, Concat;
      LastPiles(m, length, some, qs, p);
      assert some[0] == ps[0];
    }
  }

  lemma {:induction false} PrefixShorter(ps: seq<seq<byte>>, n: nat)
    requires n <= |ps|
    ensures |Concat(ps[..n])| <= |Concat(ps)|
    decreases |ps| - n
  {
    if n == |ps| {
      assert ps[..n] == ps;
    } else {
      assert ps[..n + 1][..n] == ps[..n];
      PrefixShorter(ps, n + 1);
    }
  }

  /** One more packet behind those already there. */
  lemma Piles(m: seq<byte>, length: byte, qs: seq<seq<byte>>, q: Param, p: seq<byte>)
    requires After(m, length, qs, q) && p != [] && Fits(q, p)
    requires qs != [] ==> |qs[0]| >= 1 && Announced(length, qs) > 0
    ensures var (r, done) := Arrived(q, p);
            var all := Concat(qs) + p;
            var wanted := if qs == [] then (if length == 0 then p[0] else length) else Announced(length, qs);
            && |r.memory| == |m| && r.memory[..|all|] == all && r.length == wanted
            && r.count == |all| % U8_COUNT && (done <==> |all| % U8_COUNT >= wanted)
            && (!done ==> r.point == |all|)
  {
    var r := Arrived(q, p).0;
    assert r.memory[..q.point + |p|] == q.memory[..q.point] + p;
    if qs == [] {
      assert Concat(qs) == [];
      assert Copied(q.memory, q.point, p)[q.point] == p[0];
    }
  }

  /** A device that stops with the packet that reaches the announced length: the memory holds the
      packets one after the other, no packet before the last is taken for the last, and success is
      signalled on the last one if and only if the 8-bit count has not wrapped, that is if the device
      sent at most 255 bytes. */
  lemma StageCompletes(m: seq<byte>, length: byte, ps: seq<seq<byte>>)
    requires Stage(m, ps) && ps != [] && Needed(length, ps) && |Concat(ps)| >= Announced(length, ps)
    ensures var (r, done) := ReceiveAll(Param(m, 0, length, 0), ps);
            && !ReceiveAll(Param(m, 0, length, 0), ps[..|ps| - 1]).1
            && |r.memory| == |m| && r.memory[..|Concat(ps)|] == Concat(ps)
            && (done <==> |Concat(ps)| < U8_COUNT)
  {
    hide Arrived, Copied, ReceiveAll, After, Needed, Concat;
    var (n, qs, p) := (|ps|, ps[..|ps| - 1], ps[|ps| - 1]);
    SmallPrefix(length, ps, n - 1);
    LastPacket(m, ps);
    NotYet(m, length, ps, n - 1);
    LastPiles(m, length, ps, qs, p);
    SmallCount(|Concat(ps)|, Announced(length, ps));
  }

  lemma FrontAndLast<T>(s: seq<T>)
    requires s != []
    ensures s == s[..|s| - 1] + [s[|s| - 1]]
  {
  }

  lemma ConcatUnfolds(ps: seq<seq<byte>>)
    requires ps != []
    ensures Concat(ps) == Concat(ps[..|ps| - 1]) + ps[|ps| - 1]
  {
  }

  lemma LastPacket(m: seq<byte>, ps: seq<seq<byte>>)
    requires Stage(m, ps) && ps != []
    ensures var (qs, p) := (ps[..|ps| - 1], ps[|ps| - 1]);
            ps == qs + [p] && Concat(ps) == Concat(qs) + p && Stage(m, qs)
  {
    hide Concat;
    var (qs, p) := (ps[..|ps| - 1], ps[|ps| - 1]);
    ConcatUnfolds(ps);
    FrontAndLast(ps);
    forall i | 0 <= i < |qs|
      ensures 1 <= |qs[i]| <= MAX_PACKET
    {
      assert qs[i] == ps[i];
    }
  }

  lemma SmallPrefix(length: byte, ps: seq<seq<byte>>, n: nat)
    requires ps != [] && |ps[0]| >= 1 && Needed(length, ps) && n < |ps|
    ensures |Concat(ps[..n])| < Announced(length, ps) && 0 < Announced(length, ps)
  {
    assert |Concat(ps[..0])| < Announced(length, ps) && |Concat(ps[..n])| < Announced(length, ps);
  }

  lemma LastPiles(m: seq<byte>, length: byte, ps: seq<seq<byte>>, qs: seq<seq<byte>>, p: seq<byte>)
    requires Stage(m, ps) && Stage(m, qs) && ps == qs + [p]
    requires Concat(ps) == Concat(qs) + p
    requires 0 < Announced(length, ps)
    requires var r := ReceiveAll(Param(m, 0, length, 0), qs);
             !r.1 && After(m, length, qs, r.0)
    ensures var (r, done) := ReceiveAll(Param(m, 0, length, 0), ps);
            var (all, wanted) := (Concat(ps), Announced(length, ps));
            && |r.memory| == |m| && r.memory[..|all|] == all && r.length == wanted
            && r.count == |all| % U8_COUNT && (done <==> |all| % U8_COUNT >= wanted)
            && (!done ==> r.point == |all|)
  {
    hide Arrived, Copied, Concat;
    assert ps[|qs|] == p;
    var q := ReceiveAll(Param(m, 0, length, 0), qs).0;
    assert ps[..|ps| - 1] == qs && ps[|ps| - 1] == p;
    assert qs != [] ==> qs[0] == ps[0];
    Piles(m, length, qs, q, p);
  }

  lemma SmallCount(n: nat, wanted: byte)
    requires wanted <= n < wanted + MAX_PACKET
    ensures n % U8_COUNT >= wanted <==> n < U8_COUNT
  {
  }

  /** In particular a device that sends exactly the announced number of bytes, in packets of any legal
      sizes, is always understood. */
  lemma ExactStageCompletes(m: seq<byte>, length: byte, ps: seq<seq<byte>>)
    requires Stage(m, ps) && ps != [] && |Concat(ps)| == Announced(length, ps)
    ensures var (r, done) := ReceiveAll(Param(m, 0, length, 0), ps);
            done && |r.memory| == |m| && r.memory[..|Concat(ps)|] == Concat(ps)
            && !ReceiveAll(Param(m, 0, length, 0), ps[..|ps| - 1]).1
  {
    forall k | 0 <= k < |ps|
      ensures |Concat(ps[..k])| < |Concat(ps)|
    {
      assert ps[..k + 1][..k] == ps[..k];
      PrefixShorter(ps, k + 1);
    }
    StageCompletes(m, length, ps);
  }
}
