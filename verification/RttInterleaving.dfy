/** The ring between the target's writer and the host's reader, one shared-memory access at a time.
    Each side works from a snapshot of the other side's offset, copies byte by byte, and publishes
    its own offset last. */
module RttInterleaving {
  import opened Machine
  import opened RttOffsets

  /** Where the writer is. WTop is the head of the blocking loop, WAsk the free-space query of the
      skip and trim modes; both are about to load RdOff. */
  datatype Writer =
    | WIdle
    | WTop(rest: seq<byte>)
    | WAsk(data: seq<byte>, trim: bool)
    | WCopy(chunk: seq<byte>, done: nat, rest: seq<byte>)

  /** Where the reader is. RAsk is about to load WrOff. */
  datatype Reader =
    | RIdle
    | RAsk(want: u32)
    | RCopy(count: nat, out: seq<byte>)

  /** The shared memory, the two sides, and three histories: the bytes the write calls took on, the
      bytes published so far, and the bytes handed out by finished reads. */
  datatype State = State(buf: seq<byte>, rd: nat, wr: nat, w: Writer, r: Reader,
                         accepted: seq<byte>, sent: seq<byte>, got: seq<byte>)

  datatype Event =
    | StartBlocking(data: seq<byte>)
    | StartChecked(data: seq<byte>, trim: bool)
    | WriterStep
    | StartRead(want: u32)
    | ReaderStep

  ghost predicate Shape(s: State) {
    1 <= |s.buf| < U32_COUNT && InRing(|s.buf|, s.rd, s.wr)
  }

  function Init(b: seq<byte>): (s: State)
    requires 1 <= |b| < U32_COUNT
    ensures Inv(s)
  {
    State(b, 0, 0, WIdle, RIdle, [], [], [])
  }

  /** The write offset a copy of k bytes is published as. */
  function Published(size: nat, wr: nat, k: nat): nat
    requires wr < size && k < size
  {
    if size - wr > k then wr + k else k - (size - wr)
  }

  function WriterMove(s: State): State
    requires Shape(s)
  {
    var n := |s.buf|;
    match s.w
    case WIdle => s
    case WTop(rest) =>
      var k := RoundSize(n, s.rd, s.wr, Min(|rest|, U32_COUNT - 1));
      s.(w := WCopy(rest[..k], 0, rest[k..]))
    case WAsk(data, trim) =>
      var avail := Free(n, s.rd, s.wr);
      var k := if |data| <= avail then |data| else if trim then avail else 0;
      s.(w := WCopy(data[..k], 0, []), accepted := s.accepted + data[..k])
    case WCopy(chunk, done, rest) =>
      if done < |chunk| then
        s.(buf := s.buf[Advance(n, s.wr, done) := chunk[done]], w := WCopy(chunk, done + 1, rest))
      else if |chunk| < n then
        s.(wr := Published(n, s.wr, |chunk|), sent := s.sent + chunk, w := if rest == [] then WIdle else WTop(rest))
      else s
  }

  function ReaderMove(s: State): State
    requires Shape(s)
  {
    var n := |s.buf|;
    match s.r
    case RIdle => s
    case RAsk(want) =>
      var k := FirstPiece(n, s.rd, s.wr, want) + SecondEnd(n, s.rd, s.wr, want) - SecondStart(n, s.rd, s.wr, want);
      s.(r := RCopy(k, []))
    case RCopy(count, out) =>
      if |out| < count then
        s.(r := RCopy(count, out + [s.buf[Advance(n, s.rd, |out|)]]))
      else
        s.(rd := Advance(n, s.rd, |out|), got := s.got + out, r := RIdle)
  }

  function Step(s: State, e: Event): State
    requires Shape(s)
  {
    match e
    case StartBlocking(data) => if s.w.WIdle? then s.(w := WTop(data), accepted := s.accepted + data) else s
    case StartChecked(data, trim) => if s.w.WIdle? then s.(w := WAsk(data, trim)) else s
    case WriterStep => WriterMove(s)
    case StartRead(want) => if s.r.RIdle? then s.(r := RAsk(want)) else s
    case ReaderStep => ReaderMove(s)
  }

  /** Bytes accepted and not yet published. */
  function Pending(w: Writer): seq<byte> {
    match w
    case WIdle => []
    case WTop(rest) => rest
    case WAsk(_, _) => []
    case WCopy(chunk, _, rest) => chunk + rest
  }

  /** The storage slot of the k-th byte of the whole stream. */
  function Slot(n: nat, k: nat): nat
    requires n > 0
  {
    Advance(n, 0, k)
  }

  ghost predicate Stored(b: seq<byte>, from: nat, d: seq<byte>)
    requires |b| > 0
  {
    forall k :: 0 <= k < |d| ==> b[Slot(|b|, from + k)] == d[k]
  }

  ghost predicate Counted(s: State) {
    && Shape(s)
    && |s.got| <= |s.sent| < |s.got| + |s.buf|
    && s.rd == Slot(|s.buf|, |s.got|)
    && s.wr == Slot(|s.buf|, |s.sent|)
  }

  /** The reader has got a prefix of the stream and the rest is stored, in order. */
  ghost predicate InOrder(s: State)
    requires Counted(s)
  {
    && s.got == s.sent[..|s.got|]
    && Stored(s.buf, |s.got|, s.sent[|s.got|..])
  }

  ghost predicate WriterOk(s: State)
    requires Counted(s)
  {
    && s.accepted == s.sent + Pending(s.w)
    && (s.w.WCopy? ==>
          && s.w.done <= |s.w.chunk|
          && |s.sent| + |s.w.chunk| < |s.got| + |s.buf|
          && Stored(s.buf, |s.sent|, s.w.chunk[..s.w.done]))
  }

  ghost predicate ReaderOk(s: State)
    requires Counted(s)
  {
    s.r.RCopy? ==>
      && |s.r.out| <= s.r.count <= |s.sent| - |s.got|
      && s.r.out == s.sent[|s.got|..][..|s.r.out|]
  }

  /** What every interleaving keeps. */
  ghost predicate Inv(s: State) {
    Counted(s) && InOrder(s) && WriterOk(s) && ReaderOk(s)
  }

  // ----- slots

  /** Positions less than one lap apart use different slots. */
  lemma SlotsDiffer(n: nat, j: nat, k: nat)
    requires j < k < j + n
    ensures Slot(n, j) != Slot(n, k)
  {
    AdvanceAdds(n, 0, j, k - j);
    AdvanceWraps(n, Slot(n, j), k - j);
    if Slot(n, j) + (k - j) >= n {
      AdvanceWraps(n, 0, Slot(n, j) + (k - j) - n);
    }
  }

  /** The offsets count the bytes in flight. */
  lemma OffsetsCount(s: State)
    requires Counted(s)
    ensures Used(|s.buf|, s.rd, s.wr) == |s.sent| - |s.got|
  {
    AdvanceAdds(|s.buf|, 0, |s.got|, |s.sent| - |s.got|);
    UsedAfterAdvance(|s.buf|, s.rd, |s.sent| - |s.got|);
  }

  lemma PublishedAdvances(size: nat, wr: nat, k: nat)
    requires wr < size && k < size
    ensures Published(size, wr, k) == Advance(size, wr, k)
  {
    AdvanceWraps(size, wr, k);
    if wr + k >= size {
      AdvanceWraps(size, 0, wr + k - size);
    }
  }

  /** Bytes stored at consecutive positions are what the queue between two offsets reads. */
  lemma {:induction false} StoredIsQueue(b: seq<byte>, from: nat, d: seq<byte>)
    requires |b| > 0 && |d| < |b| && Stored(b, from, d)
    ensures Queue(b, Slot(|b|, from), Slot(|b|, from + |d|)) == d
    decreases |d|
  {
    var n := |b|;
    if d != [] {
      AdvanceAdds(n, 0, from, 1);
      SlotsDiffer(n, from, from + |d|);
      assert Stored(b, from + 1, d[1..]) by {
        forall k | 0 <= k < |d| - 1
          ensures b[Slot(n, from + 1 + k)] == d[1..][k]
        {
          assert b[Slot(n, from + (k + 1))] == d[k + 1];
        }
      }
      StoredIsQueue(b, from + 1, d[1..]);
      assert b[Slot(n, from + 0)] == d[0];
      assert [d[0]] + d[1..] == d;
    }
  }

  // ----- every step keeps the invariant

  /** Writing outside a window leaves what is stored in it. */
  lemma StoredSurvives(b: seq<byte>, from: nat, d: seq<byte>, at: nat, x: byte)
    requires |b| > 0 && Stored(b, from, d) && from + |d| <= at < from + |b|
    ensures Stored(b[Slot(|b|, at) := x], from, d)
  {
    forall k | 0 <= k < |d|
      ensures b[Slot(|b|, at) := x][Slot(|b|, from + k)] == d[k]
    {
      SlotsDiffer(|b|, from + k, at);
    }
  }

  lemma StoredJoin(b: seq<byte>, from: nat, d: seq<byte>, e: seq<byte>)
    requires |b| > 0 && Stored(b, from, d) && Stored(b, from + |d|, e)
    ensures Stored(b, from, d + e)
  {
    forall k | 0 <= k < |d + e|
      ensures b[Slot(|b|, from + k)] == (d + e)[k]
    {
      if k >= |d| {
        assert b[Slot(|b|, from + |d| + (k - |d|))] == e[k - |d|];
      }
    }
  }

  lemma WriterCopyKeeps(s: State)
    requires Inv(s) && s.w.WCopy? && s.w.done < |s.w.chunk|
    ensures Inv(WriterMove(s))
  {
    var n, c, i, x := |s.buf|, s.w.chunk, s.w.done, s.w.chunk[s.w.done];
    AdvanceAdds(n, 0, |s.sent|, i);
    var at := |s.sent| + i;
    StoredSurvives(s.buf, |s.got|, s.sent[|s.got|..], at, x);
    StoredSurvives(s.buf, |s.sent|, c[..i], at, x);
    var b := s.buf[Slot(n, at) := x];
    StoredJoin(b, |s.sent|, c[..i], [x]);
    assert c[..i] + [x] == c[..i + 1];
  }

  lemma WriterPublishKeeps(s: State)
    requires Inv(s) && s.w.WCopy? && s.w.done == |s.w.chunk|
    ensures Inv(WriterMove(s))
  {
    hide Advance, Stored, Slot, InOrder, WriterOk, ReaderOk;
    var s', c := WriterMove(s), s.w.chunk;
    assert |s.sent| + |c| < |s.got| + |s.buf| by {
      ChunkFits(s);
    }
    PublishedAdvances(|s.buf|, s.wr, |c|);
    SlotsAdd(|s.buf|, |s.sent|, |c|);
    PublishInOrder(s, s');
  }

  lemma PublishInOrder(s: State, s': State)
    requires Inv(s) && s.w.WCopy? && s.w.done == |s.w.chunk| && Counted(s')
    requires s' == s.(wr := s'.wr, sent := s.sent + s.w.chunk, w := s'.w)
    requires s'.w == if s.w.rest == [] then WIdle else WTop(s.w.rest)
    ensures InOrder(s') && WriterOk(s') && ReaderOk(s')
  {
    hide Advance, Stored, Slot;
    var c := s.w.chunk;
    SentGrows(s.sent, c, |s.got|, if s.r.RCopy? then |s.r.out| else 0);
    assert c[..|c|] == c;
    StoredJoin(s.buf, |s.got|, s.sent[|s.got|..], c);
    assert s.sent + (c + s.w.rest) == s.sent + c + s.w.rest;
  }

  lemma ChunkFits(s: State)
    requires Inv(s) && s.w.WCopy?
    ensures |s.sent| + |s.w.chunk| < |s.got| + |s.buf|
  {
  }

  lemma SentGrows(sent: seq<byte>, c: seq<byte>, g: nat, o: nat)
    requires g + o <= |sent|
    ensures (sent + c)[..g] == sent[..g]
    ensures (sent + c)[g..] == sent[g..] + c
    ensures (sent + c)[g..][..o] == sent[g..][..o]
  {
  }

  lemma SlotsAdd(n: nat, j: nat, k: nat)
    requires n > 0
    ensures Slot(n, j + k) == Advance(n, Slot(n, j), k)
  {
    AdvanceAdds(n, 0, j, k);
  }

  lemma WriterKeeps(s: State)
    requires Inv(s)
    ensures Inv(WriterMove(s))
  {
    OffsetsCount(s);
    match s.w
    case WIdle =>
    case WTop(rest) =>
      var k := RoundSize(|s.buf|, s.rd, s.wr, Min(|rest|, U32_COUNT - 1));
      assert rest[..k] + rest[k..] == rest;
    case WAsk(data, trim) =>
    case WCopy(chunk, done, rest) =>
      if done < |chunk| {
        WriterCopyKeeps(s);
      } else {
        WriterPublishKeeps(s);
      }
  }

  lemma ReaderKeeps(s: State)
    requires Inv(s)
    ensures Inv(ReaderMove(s))
  {
    hide Advance, Queue;
    OffsetsCount(s);
    match s.r
    case RIdle =>
    case RAsk(want) =>
    case RCopy(count, out) =>
      var n, q := |s.buf|, s.sent[|s.got|..];
      AdvanceAdds(n, 0, |s.got|, |out|);
      if |out| < count {
        assert s.buf[Slot(n, |s.got| + |out|)] == q[|out|];
        assert q[..|out|] + [q[|out|]] == q[..|out| + 1];
      } else {
        var s' := ReaderMove(s);
        assert s'.got == s.sent[..|s.got| + |out|];
        var q' := s.sent[|s.got| + |out|..];
        forall k | 0 <= k < |q'|
          ensures s.buf[Slot(n, |s.got| + |out| + k)] == q'[k]
        {
          assert s.buf[Slot(n, |s.got| + (|out| + k))] == q[|out| + k];
        }
      }
  }

  lemma StepKeeps(s: State, e: Event)
    requires Inv(s)
    ensures Inv(Step(s, e))
  {
    match e
    case StartBlocking(data) =>
      assert s.sent + [] + data == s.sent + data;
    case StartChecked(data, trim) =>
    case WriterStep => WriterKeeps(s);
    case StartRead(want) =>
    case ReaderStep => ReaderKeeps(s);
  }

  // ----- whole runs

  ghost function Run(s: State, es: seq<Event>): (t: State)
    requires Inv(s)
    ensures Inv(t)
    decreases |es|
  {
    if es == [] then s else
      StepKeeps(s, es[0]);
      Run(Step(s, es[0]), es[1..])
  }

  /** In every interleaving the host gets a prefix of what was published, the rest waits in the ring
      in order, and what was published is a prefix of what the write calls accepted. */
  lemma EveryRunIsFifo(b: seq<byte>, es: seq<Event>)
    requires 1 <= |b| < U32_COUNT
    ensures var s := Run(Init(b), es);
            && s.got + Queue(s.buf, s.rd, s.wr) == s.sent
            && s.sent + Pending(s.w) == s.accepted
            && |s.sent| - |s.got| <= |b| - 1
  {
    var s := Run(Init(b), es);
    RunKeepsSize(Init(b), es);
    StoredIsQueue(s.buf, |s.got|, s.sent[|s.got|..]);
  }

  lemma {:induction false} RunKeepsSize(s: State, es: seq<Event>)
    requires Inv(s)
    ensures |Run(s, es).buf| == |s.buf|
    decreases |es|
  {
    if es != [] {
      StepKeeps(s, es[0]);
      RunKeepsSize(Step(s, es[0]), es[1..]);
    }
  }

  /** In every interleaving the slot the writer stores to next holds no unread byte, in particular
      none of those the reader is copying, although the writer's idea of RdOff may be old. */
  lemma NoUnreadByteOverwritten(b: seq<byte>, es: seq<Event>, k: nat)
    requires 1 <= |b| < U32_COUNT
    ensures var s := Run(Init(b), es);
            s.w.WCopy? && s.w.done < |s.w.chunk| && k < Used(|s.buf|, s.rd, s.wr) ==>
              Advance(|s.buf|, s.wr, s.w.done) != Advance(|s.buf|, s.rd, k)
  {
    var s := Run(Init(b), es);
    OffsetsCount(s);
    if s.w.WCopy? && s.w.done < |s.w.chunk| && k < Used(|s.buf|, s.rd, s.wr) {
      AdvanceAdds(|s.buf|, 0, |s.sent|, s.w.done);
      AdvanceAdds(|s.buf|, 0, |s.got|, k);
      SlotsDiffer(|s.buf|, |s.got| + k, |s.sent| + s.w.done);
    }
  }

  // ----- how much each access takes

  /** The reader's load of the write offset decides how much it takes: what was asked for, or all that is
      published and not yet read. */
  lemma ReadTakesAllThereIs(b: seq<byte>, es: seq<Event>)
    requires 1 <= |b| < U32_COUNT
    ensures var s := Run(Init(b), es);
            s.r.RAsk? ==>
              var g := Step(s, ReaderStep);
              g == s.(r := RCopy(Min(s.r.want, |s.sent| - |s.got|), []))
  {
    var s := Run(Init(b), es);
    OffsetsCount(s);
    hide Advance, Slot, Queue, InOrder;
  }

  /** A read under way gets one byte of the stream with each step, in order, and the step that ends it
      hands out exactly the bytes decided on at the start. */
  lemma ReadHandsOutTheNext(b: seq<byte>, es: seq<Event>)
    requires 1 <= |b| < U32_COUNT
    ensures var s := Run(Init(b), es);
            s.r.RCopy? ==>
              var (g, from) := (Step(s, ReaderStep), |s.got|);
              && from + s.r.count <= |s.sent|
              && (if |s.r.out| < s.r.count then
                    g.got == s.got && g.r == RCopy(s.r.count, s.r.out + [s.sent[from + |s.r.out|]])
                  else g.got == s.got + s.sent[from..from + s.r.count] && g.r.RIdle?)
  {
    var s := Run(Init(b), es);
    if s.r.RCopy? {
      var (q, from, k) := (s.sent[|s.got|..], |s.got|, |s.r.out|);
      AdvanceAdds(|s.buf|, 0, from, k);
      assert s.r.out == s.sent[from..from + k];
      if k < s.r.count {
        assert s.buf[Slot(|s.buf|, from + k)] == q[k];
      }
    }
  }

  /** The free space the writer finds is what the ring can hold without the bytes published and not read:
      a checked write takes all of its data, or in trim mode as much as fits, or nothing. */
  lemma CheckedWriteTakesWhatFits(b: seq<byte>, es: seq<Event>)
    requires 1 <= |b| < U32_COUNT
    ensures var s := Run(Init(b), es);
            s.w.WAsk? ==>
              var (d, free) := (s.w.data, |s.buf| - 1 - (|s.sent| - |s.got|));
              var k := if s.w.trim then Min(|d|, free) else if |d| <= free then |d| else 0;
              Step(s, WriterStep) == s.(w := WCopy(d[..k], 0, []), accepted := s.accepted + d[..k])
  {
    var s := Run(Init(b), es);
    OffsetsCount(s);
    hide Advance, Slot, Queue, InOrder;
  }

  /** A round of a blocking write takes a prefix of the rest that fits: nothing only when the ring is full
      or nothing is left, and less than it could only to stop at the end of the storage. */
  lemma RoundTakesSome(b: seq<byte>, es: seq<Event>)
    requires 1 <= |b| < U32_COUNT
    ensures var s := Run(Init(b), es);
            s.w.WTop? ==>
              var (rest, free, g) := (s.w.rest, |s.buf| - 1 - (|s.sent| - |s.got|), Step(s, WriterStep));
              && g.w.WCopy? && g == s.(w := g.w) && g.w.done == 0 && g.w.chunk + g.w.rest == rest
              && |g.w.chunk| <= free
              && (g.w.chunk == [] <==> free == 0 || rest == [])
              && (|g.w.chunk| == Min(|rest|, free) || s.wr + |g.w.chunk| == |s.buf|)
  {
    var s := Run(Init(b), es);
    OffsetsCount(s);
    hide Advance, Slot, Queue, InOrder;
    if s.w.WTop? {
      var k := RoundSize(|s.buf|, s.rd, s.wr, Min(|s.w.rest|, U32_COUNT - 1));
      assert s.w.rest[..k] + s.w.rest[k..] == s.w.rest;
    }
  }

  /** A copy under way advances with each step, and the step that ends it publishes exactly its bytes and
      goes on with the rest. */
  lemma CopyPublishesItsBytes(b: seq<byte>, es: seq<Event>)
    requires 1 <= |b| < U32_COUNT
    ensures var s := Run(Init(b), es);
            s.w.WCopy? ==>
              var (w, g) := (s.w, Step(s, WriterStep));
              if w.done < |w.chunk| then g == s.(buf := g.buf, w := WCopy(w.chunk, w.done + 1, w.rest))
              else g == s.(wr := g.wr, sent := s.sent + w.chunk, w := if w.rest == [] then WIdle else WTop(w.rest))
  {
    var s := Run(Init(b), es);
    if s.w.WCopy? {
      ChunkFits(s);
    }
    hide Advance, Slot, Queue, InOrder;
  }
}
