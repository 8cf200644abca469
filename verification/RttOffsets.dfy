/** A byte ring seen as a value: the stored bytes, the read offset and the write offset.
    One slot always stays empty, so equal offsets mean an empty ring. */
module RttOffsets {
  import opened Machine

  predicate InRing(n: nat, rd: nat, wr: nat) {
    rd < n && wr < n
  }

  /** Number of unread bytes. */
  function Used(n: nat, rd: nat, wr: nat): (u: nat)
    requires InRing(n, rd, wr)
    ensures u < n
  {
    if rd <= wr then wr - rd else n - rd + wr
  }

  function Free(n: nat, rd: nat, wr: nat): (f: nat)
    requires InRing(n, rd, wr)
  {
    n - 1 - Used(n, rd, wr)
  }

  /** The offset after one more byte. */
  function Next(n: nat, off: nat): (r: nat)
    requires off < n
    ensures r < n
  {
    if off + 1 == n then 0 else off + 1
  }

  /** The unread bytes, oldest first. */
  function Queue(b: seq<byte>, rd: nat, wr: nat): (q: seq<byte>)
    requires InRing(|b|, rd, wr)
    ensures |q| == Used(|b|, rd, wr)
    decreases Used(|b|, rd, wr)
  {
    if rd == wr then [] else [b[rd]] + Queue(b, Next(|b|, rd), wr)
  }

  /** The offset after k more bytes. */
  function Advance(n: nat, off: nat, k: nat): (r: nat)
    requires off < n
    ensures r < n
    decreases k
  {
    if k == 0 then off else Advance(n, Next(n, off), k - 1)
  }

  /** The stored bytes after writing d one byte at a time from offset wr. */
  function Put(b: seq<byte>, wr: nat, d: seq<byte>): (r: seq<byte>)
    requires wr < |b|
    ensures |r| == |b|
    decreases |d|
  {
    if d == [] then b else Put(b[wr := d[0]], Next(|b|, wr), d[1..])
  }

  /** The last k elements of s, or all of s when it is shorter. */
  function LastN(s: seq<byte>, k: nat): seq<byte> {
    if |s| <= k then s else s[|s| - k..]
  }

  /** b with d copied to offset at. */
  function Patched(b: seq<byte>, at: nat, d: seq<byte>): (r: seq<byte>)
    requires at + |d| <= |b|
    ensures |r| == |b|
  {
    b[..at] + d + b[at + |d|..]
  }

  // ----- offsets

  lemma {:induction false} AdvanceWraps(n: nat, off: nat, k: nat)
    requires off < n
    ensures Advance(n, off, k) == if off + k < n then off + k else Advance(n, 0, off + k - n)
    decreases k
  {
    if k == 0 {
    } else if off + 1 == n {
    } else {
      AdvanceWraps(n, off + 1, k - 1);
    }
  }

  lemma {:induction false} AdvanceAdds(n: nat, off: nat, j: nat, k: nat)
    requires off < n
    ensures Advance(n, Advance(n, off, j), k) == Advance(n, off, j + k)
    decreases j
  {
    if j > 0 {
      AdvanceAdds(n, Next(n, off), j - 1, k);
    }
  }

  /** Advancing from off by k is advancing from 0 by their sum. */
  lemma OffsetSum(n: nat, off: nat, k: nat)
    requires off < n
    ensures Advance(n, 0, off + k) == Advance(n, off, k)
  {
    AdvanceWraps(n, 0, off);
    AdvanceAdds(n, 0, off, k);
  }

  lemma UsedAfterAdvance(size: nat, off: nat, k: nat)
    requires off < size && k < size
    ensures Used(size, off, Advance(size, off, k)) == k
  {
    AdvanceWraps(size, off, k);
    if off + k >= size {
      AdvanceWraps(size, 0, off + k - size);
    }
  }

  // ----- the queue

  /** The queue as slices of the storage. */
  lemma {:induction false} QueueSlices(b: seq<byte>, rd: nat, wr: nat)
    requires InRing(|b|, rd, wr)
    ensures Queue(b, rd, wr) == if rd <= wr then b[rd..wr] else b[rd..] + b[..wr]
    decreases Used(|b|, rd, wr)
  {
    if rd != wr {
      QueueSlices(b, Next(|b|, rd), wr);
      if rd < wr {
        assert [b[rd]] + b[rd + 1..wr] == b[rd..wr];
      } else if rd + 1 == |b| {
        assert [b[rd]] + b[..wr] == b[rd..] + b[..wr];
      } else {
        assert [b[rd]] + (b[rd + 1..] + b[..wr]) == b[rd..] + b[..wr];
      }
    }
  }

  /** One byte written at wr joins the end of the queue. */
  lemma {:induction false} QueueGrows(b: seq<byte>, rd: nat, wr: nat, x: byte)
    requires InRing(|b|, rd, wr) && Free(|b|, rd, wr) > 0
    ensures Queue(b[wr := x], rd, Next(|b|, wr)) == Queue(b, rd, wr) + [x]
    decreases Used(|b|, rd, wr)
  {
    var wr' := Next(|b|, wr);
    if rd == wr {
      assert Queue(b[wr := x], wr', wr') == [];
    } else {
      var rd' := Next(|b|, rd);
      QueueGrows(b, rd', wr, x);
      assert [b[rd]] + (Queue(b, rd', wr) + [x]) == [b[rd]] + Queue(b, rd', wr) + [x];
    }
  }

  // ----- writing

  lemma {:induction false} PutConcat(b: seq<byte>, wr: nat, d: seq<byte>, e: seq<byte>)
    requires wr < |b|
    ensures Put(b, wr, d + e) == Put(Put(b, wr, d), Advance(|b|, wr, |d|), e)
    decreases |d|
  {
    if d == [] {
      assert d + e == e;
    } else {
      assert (d + e)[1..] == d[1..] + e;
      PutConcat(b[wr := d[0]], Next(|b|, wr), d[1..], e);
    }
  }

  /** A chunk that ends at or before the end of the buffer is one straight copy. */
  lemma {:induction false} PutStraight(b: seq<byte>, wr: nat, d: seq<byte>)
    requires wr < |b| && wr + |d| <= |b|
    ensures Put(b, wr, d) == b[..wr] + d + b[wr + |d|..]
    decreases |d|
  {
    if d == [] {
      assert b[..wr] + d + b[wr..] == b;
    } else {
      var c := b[wr := d[0]];
      if wr + 1 == |b| {
        assert d == [d[0]];
        assert Put(c, 0, d[1..]) == c;
      } else {
        PutStraight(c, wr + 1, d[1..]);
        assert c[..wr + 1] == b[..wr] + [d[0]];
        assert [d[0]] + d[1..] == d;
        assert c[..wr + 1] + d[1..] == b[..wr] + d;
        assert c[wr + |d|..] == b[wr + |d|..];
      }
    }
  }

  /** A chunk that does not end before the end of the buffer is two straight copies. */
  lemma PutTwoChunks(b: seq<byte>, wr: nat, d: seq<byte>)
    requires wr < |b| && |d| <= |b| <= wr + |d|
    ensures var rem := |b| - wr;
            Put(b, wr, d) == d[rem..] + b[|d| - rem..wr] + d[..rem]
  {
    hide Put;
    var rem := |b| - wr;
    var d0, d1 := d[..rem], d[rem..];
    assert d == d0 + d1;
    PutConcat(b, wr, d0, d1);
    assert Advance(|b|, wr, rem) == 0 by {
      AdvanceWraps(|b|, wr, rem);
    }
    PutStraight(b, wr, d0);
    var c := b[..wr] + d0;
    assert b[..wr] + d0 + b[|b|..] == c;
    PutStraight(c, 0, d1);
    assert c[|d1|..] == b[|d1|..wr] + d0;
    assert c[..0] + d1 + c[|d1|..] == d1 + b[|d1|..wr] + d0;
  }

  /** Writing data that fits appends it to the queue and takes its length off the free space, whatever
      the wrap. */
  lemma {:induction false} PutAppends(b: seq<byte>, rd: nat, wr: nat, d: seq<byte>)
    requires InRing(|b|, rd, wr) && |d| <= Free(|b|, rd, wr)
    ensures Queue(Put(b, wr, d), rd, Advance(|b|, wr, |d|)) == Queue(b, rd, wr) + d
    ensures Free(|b|, rd, Advance(|b|, wr, |d|)) == Free(|b|, rd, wr) - |d|
    decreases |d|
  {
    if d == [] {
      assert Queue(b, rd, wr) + d == Queue(b, rd, wr);
    } else {
      var c := b[wr := d[0]];
      var wr' := Next(|b|, wr);
      QueueGrows(b, rd, wr, d[0]);
      PutAppends(c, rd, wr', d[1..]);
      assert Queue(b, rd, wr) + [d[0]] + d[1..] == Queue(b, rd, wr) + ([d[0]] + d[1..]);
      assert [d[0]] + d[1..] == d;
    }
  }

  // ----- reading

  /** Advancing the read offset removes the oldest bytes and nothing else. */
  lemma {:induction false} AdvanceDrops(b: seq<byte>, rd: nat, wr: nat, k: nat)
    requires InRing(|b|, rd, wr) && k <= Used(|b|, rd, wr)
    ensures Queue(b, Advance(|b|, rd, k), wr) == Queue(b, rd, wr)[k..]
    decreases k
  {
    if k > 0 {
      var rd' := Next(|b|, rd);
      assert Queue(b, rd', wr) == Queue(b, rd, wr)[1..];
      AdvanceDrops(b, rd', wr, k - 1);
      assert Queue(b, rd, wr)[1..][k - 1..] == Queue(b, rd, wr)[k..];
    }
  }

  /** One straight copy of bytes that fit, as the writers perform it. */
  lemma StraightCopy(b: seq<byte>, rd: nat, wr: nat, d: seq<byte>, t: seq<byte>)
    requires InRing(|b|, rd, wr) && |d| <= Free(|b|, rd, wr) && wr + |d| <= |b|
    ensures var nb := b[..wr] + d + b[wr + |d|..];
            var nwr := if wr + |d| == |b| then 0 else wr + |d|;
            && nb == Put(b, wr, d) && nwr == Advance(|b|, wr, |d|)
            && Queue(nb, rd, nwr) == Queue(b, rd, wr) + d
            && t + Queue(nb, rd, nwr) == t + Queue(b, rd, wr) + d
  {
    PutStraight(b, wr, d);
    PutAppends(b, rd, wr, d);
    AdvanceWraps(|b|, wr, |d|);
    assert t + (Queue(b, rd, wr) + d) == t + Queue(b, rd, wr) + d;
  }

  /** Two straight copies of bytes that fit, as the writers perform them at the wrap. */
  lemma TwoChunkCopy(b: seq<byte>, rd: nat, wr: nat, d: seq<byte>, t: seq<byte>)
    requires InRing(|b|, rd, wr) && |d| <= Free(|b|, rd, wr) && wr + |d| >= |b|
    ensures var rem := |b| - wr;
            var nb := d[rem..] + b[|d| - rem..wr] + d[..rem];
            && nb == Put(b, wr, d) && |d| - rem == Advance(|b|, wr, |d|)
            && Queue(nb, rd, |d| - rem) == Queue(b, rd, wr) + d
            && t + Queue(nb, rd, |d| - rem) == t + Queue(b, rd, wr) + d
  {
    PutTwoChunks(b, wr, d);
    PutAppends(b, rd, wr, d);
    AdvanceWraps(|b|, wr, |d|);
    AdvanceWraps(|b|, 0, wr + |d| - |b|);
    assert t + (Queue(b, rd, wr) + d) == t + Queue(b, rd, wr) + d;
  }

  /** Taking the oldest k bytes out of the ring. */
  lemma TakeOldest(b: seq<byte>, rd: nat, wr: nat, k: nat, t: seq<byte>)
    requires InRing(|b|, rd, wr) && k <= Used(|b|, rd, wr)
    ensures var q := Queue(b, rd, wr);
            var nrd := if rd + k < |b| then rd + k else rd + k - |b|;
            && nrd == Advance(|b|, rd, k) && Queue(b, nrd, wr) == q[k..]
            && t + q[..k] + Queue(b, nrd, wr) == t + q
  {
    var q := Queue(b, rd, wr);
    AdvanceWraps(|b|, rd, k);
    if rd + k >= |b| {
      AdvanceWraps(|b|, 0, rd + k - |b|);
    }
    AdvanceDrops(b, rd, wr, k);
    assert t + q[..k] + q[k..] == t + (q[..k] + q[k..]);
    assert q[..k] + q[k..] == q;
  }

  /** The bytes one round of the blocking writer copies: what fits, in one piece, up to the request. */
  function RoundSize(size: u32, rd: u32, wr: u32, want: u32): (n: u32)
    requires InRing(size, rd, wr)
    ensures n <= want && n <= Free(size, rd, wr) && wr + n <= size
    ensures n == want || n == Free(size, rd, wr) || (wr + n == size && n > 0)
    ensures wr == 0 ==> n == Min(want, Free(size, rd, wr))
  {
    var space := if rd > wr then Sub32(Sub32(rd, wr), 1) else Sub32(size, Add32(Sub32(wr, rd), 1));
    Min(Min(space, Sub32(size, wr)), want)
  }

  lemma PrefixGrows(t: seq<byte>, d: seq<byte>, k: nat, n: nat)
    requires k + n <= |d|
    ensures t + d[..k] + d[k..][..n] == t + d[..k + n]
  {
    assert d[..k] + d[k..][..n] == d[..k + n];
    assert t + d[..k] + d[k..][..n] == t + (d[..k] + d[k..][..n]);
  }

  /** The first of the two pieces a read copies: up to the end of the storage. */
  function FirstPiece(size: nat, rd: nat, wr: nat, want: nat): nat
    requires InRing(size, rd, wr)
    ensures rd + FirstPiece(size, rd, wr, want) <= size
  {
    if rd > wr then Min(size - rd, want) else 0
  }

  /** Where the second piece of a read starts and, exclusively, ends. Its length is an unsigned
      difference that may have wrapped round. */
  function SecondStart(size: nat, rd: nat, wr: nat, want: nat): nat
    requires InRing(size, rd, wr)
  {
    var off := rd + FirstPiece(size, rd, wr, want);
    if off == size then 0 else off
  }

  function SecondEnd(size: u32, rd: u32, wr: u32, want: u32): (e: u32)
    requires InRing(size, rd, wr)
    ensures SecondStart(size, rd, wr, want) <= e <= size
    ensures FirstPiece(size, rd, wr, want) + e - SecondStart(size, rd, wr, want) == Min(want, Used(size, rd, wr))
    ensures var off := rd + Min(want, Used(size, rd, wr));
            e == if off < size then off else off - size
  {
    var mid := SecondStart(size, rd, wr, want);
    mid + Min(Sub32(wr, mid), want - FirstPiece(size, rd, wr, want))
  }

  /** The three shapes of a read: before the wrap, up to it, and across it. */
  predicate PieceShape(size: nat, rd: nat, wr: nat, n: nat, p: nat, mid: nat, end: nat) {
    || (rd <= wr && p == 0 && mid == rd && end == rd + n <= wr)
    || (rd > wr && rd + n < size && p == n && mid == end == rd + n)
    || (rd > wr && rd + n >= size && rd + p == size && mid == 0 && end == rd + n - size <= wr)
  }

  lemma PiecesAreOldest(b: seq<byte>, rd: nat, wr: nat, n: nat, p: nat, mid: nat, end: nat)
    requires InRing(|b|, rd, wr) && n <= Used(|b|, rd, wr)
    requires PieceShape(|b|, rd, wr, n, p, mid, end)
    ensures b[rd..rd + p] + b[mid..end] == Queue(b, rd, wr)[..n]
  {
    hide Queue;
    QueueSlices(b, rd, wr);
    if rd <= wr {
      assert b[rd..rd] + b[mid..end] == b[rd..wr][..n];
    } else {
      var q := b[rd..] + b[..wr];
      if rd + n < |b| {
        assert b[rd..rd + p] + b[mid..end] == q[..n];
      } else {
        assert b[rd..rd + p] == b[rd..];
        assert b[rd..] + b[..end] == q[..n];
      }
    }
  }

  lemma PieceBounds(size: u32, rd: u32, wr: u32, want: u32)
    requires InRing(size, rd, wr)
    ensures PieceShape(size, rd, wr, Min(want, Used(size, rd, wr)),
                       FirstPiece(size, rd, wr, want), SecondStart(size, rd, wr, want), SecondEnd(size, rd, wr, want))
  {
  }

  /** The two pieces of a read are together the oldest bytes, as many as asked for and there are. */
  lemma ReadPieces(b: seq<byte>, rd: u32, wr: u32, want: u32)
    requires |b| < U32_COUNT && InRing(|b|, rd, wr)
    ensures b[rd..rd + FirstPiece(|b|, rd, wr, want)] + b[SecondStart(|b|, rd, wr, want)..SecondEnd(|b|, rd, wr, want)]
         == Queue(b, rd, wr)[..Min(want, Used(|b|, rd, wr))]
  {
    hide Queue, FirstPiece, SecondStart, SecondEnd, PieceShape;
    PieceBounds(|b|, rd, wr, want);
    PiecesAreOldest(b, rd, wr, Min(want, Used(|b|, rd, wr)),
                    FirstPiece(|b|, rd, wr, want), SecondStart(|b|, rd, wr, want), SecondEnd(|b|, rd, wr, want));
  }

  /** What a read leaves in the caller's buffer: e where d was, with the two pieces in front. They are the
      oldest bytes. */
  lemma ReadBytes(b: seq<byte>, rd: u32, wr: u32, want: u32, d: seq<byte>, e: seq<byte>)
    requires |b| < U32_COUNT && InRing(|b|, rd, wr) && want <= |d| == |e|
    requires var (p, mid) := (FirstPiece(|b|, rd, wr, want), SecondStart(|b|, rd, wr, want));
             var n := Min(want, Used(|b|, rd, wr));
             forall i :: 0 <= i < |e| ==> e[i] == if i < p then b[rd + i] else if i < n then b[mid + i - p] else d[i]
    ensures var n := Min(want, Used(|b|, rd, wr));
            n <= want && e == Queue(b, rd, wr)[..n] + d[n..]
  {
    hide Queue, FirstPiece, SecondStart, SecondEnd, Used;
    var (p, mid, end) := (FirstPiece(|b|, rd, wr, want), SecondStart(|b|, rd, wr, want), SecondEnd(|b|, rd, wr, want));
    var (n, q) := (Min(want, Used(|b|, rd, wr)), Queue(b, rd, wr));
    ReadPieces(b, rd, wr, want);
    var (x, y, z) := (b[rd..rd + p], b[mid..end], q[..n]);
    assert x + y == z && |x| == p && |z| == n;
    forall i | 0 <= i < |e|
      ensures e[i] == if i < |x| then x[i] else if i < |z| then y[i - |x|] else d[i]
    {
    }
    PiecesInFront(x, y, z, d, e);
  }

  lemma PiecesInFront(x: seq<byte>, y: seq<byte>, z: seq<byte>, d: seq<byte>, e: seq<byte>)
    requires x + y == z && |z| <= |d| == |e|
    requires forall i :: 0 <= i < |e| ==> e[i] == if i < |x| then x[i] else if i < |z| then y[i - |x|] else d[i]
    ensures e == z + d[|z|..]
  {
    forall i | 0 <= i < |z|
      ensures e[i] == z[i]
    {
      assert z[i] == (x + y)[i];
    }
  }

  /** Where a read leaves the read offset, and what is left to read. */
  lemma ReadOffset(b: seq<byte>, rd: u32, wr: u32, want: u32)
    requires |b| < U32_COUNT && InRing(|b|, rd, wr)
    ensures var n := Min(want, Used(|b|, rd, wr));
            var end := SecondEnd(|b|, rd, wr, want);
            && n == Min(want, |Queue(b, rd, wr)|) && n <= |Queue(b, rd, wr)| && InRing(|b|, end, wr)
            && end == Advance(|b|, rd, n) && Queue(b, end, wr) == Queue(b, rd, wr)[n..]
            && (n == 0 ==> end == rd)
  {
    hide Queue, FirstPiece, SecondStart;
    TakeOldest(b, rd, wr, Min(want, Used(|b|, rd, wr)), []);
  }
}
