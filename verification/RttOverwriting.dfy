/** The overwriting writer on a ring seen as a value: which bytes a ring should hold after taking in more
    than it has room for, what the source's lap-by-lap copy leaves in it, and when the two agree. */
module RttOverwriting {
  import opened Machine
  import opened RttOffsets

  // ----- offsets and bytes

  /** How far the read offset moves when k bytes are written without regard to it. */
  function Pushed(n: nat, rd: nat, wr: nat, k: nat): nat
    requires InRing(n, rd, wr)
  {
    Max(0, k - Free(n, rd, wr))
  }

  /** Where the overwriting writer's loop leaves the write offset: its first lap runs to the end of
      the storage, but every later lap is one byte short of it. */
  function LapsEnd(size: nat, wr: nat, k: nat): (e: nat)
    requires wr < size && (size >= 2 || k <= size - wr)
    ensures e < size
  {
    if k < size - wr then wr + k else ShortLapsEnd(size, k - (size - wr))
  }

  function ShortLapsEnd(size: nat, k: nat): (e: nat)
    requires size >= 1 && (size >= 2 || k == 0)
    ensures e < size
    decreases k
  {
    if k == 0 then 0 else if k < size - 1 then k else ShortLapsEnd(size, k - (size - 1))
  }

  /** The requests for which no lap is short: the rest after the first lap ends before the last slot. */
  predicate NoShortLap(size: nat, wr: nat, k: nat)
  {
    k <= size - wr || k < 2 * size - wr - 1
  }

  /** A lap that reaches the end of the storage leaves the rest to be written from offset 0. */
  lemma FirstLap(b: seq<byte>, wr: nat, d: seq<byte>, lap: nat)
    requires wr < |b| && lap <= |d| && wr + lap <= |b|
    ensures wr + lap == |b| ==> Put(b, wr, d) == Put(Patched(b, wr, d[..lap]), 0, d[lap..])
  {
    assert d == d[..lap] + d[lap..];
    PutConcat(b, wr, d[..lap], d[lap..]);
    PutStraight(b, wr, d[..lap]);
    AdvanceWraps(|b|, wr, lap);
  }

  lemma LapsEndAdvances(size: nat, wr: nat, k: nat)
    requires wr < size && (size >= 2 || k <= size - wr) && NoShortLap(size, wr, k)
    ensures LapsEnd(size, wr, k) == Advance(size, wr, k)
  {
    AdvanceWraps(size, wr, k);
    if k >= size - wr {
      AdvanceWraps(size, 0, k - (size - wr));
    }
  }

  /** How many later laps end one byte short of the end of the storage. */
  function ShortLaps(size: nat, k: nat): nat
    requires size >= 2
    decreases k
  {
    if k < size - 1 then 0 else 1 + ShortLaps(size, k - (size - 1))
  }

  lemma {:induction false} ShortLapsSkip(size: nat, k: nat)
    requires size >= 2
    ensures ShortLapsEnd(size, k) == Advance(size, 0, k + ShortLaps(size, k))
    decreases k
  {
    AdvanceWraps(size, 0, k + ShortLaps(size, k));
    if k >= size - 1 {
      ShortLapsSkip(size, k - (size - 1));
    }
  }

  /** The number of unread bytes after the write offset has run ahead by k, at any number of laps. */
  lemma {:induction false} UsedWraps(size: nat, off: nat, k: nat)
    requires off < size
    ensures Used(size, off, Advance(size, off, k)) == Advance(size, 0, k)
    decreases k
  {
    if k < size {
      UsedAfterAdvance(size, off, k);
      AdvanceWraps(size, 0, k);
    } else {
      UsedWraps(size, off, k - size);
      OneLap(size, off, k);
      OneLap(size, 0, k);
    }
  }

  lemma OneLap(size: nat, off: nat, k: nat)
    requires off < size <= k
    ensures Advance(size, off, k) == Advance(size, off, k - size)
  {
    AdvanceAdds(size, off, size, k - size);
    AdvanceWraps(size, off, size);
    AdvanceWraps(size, 0, off);
  }

  /** Each short lap moves the write offset one slot past where the bytes written would take it, so with
      s of them the ring reads as holding s - 1 bytes, reduced modulo its size, instead of size - 1. */
  lemma ShortLapsLose(size: nat, rd: nat, wr: nat, k: nat)
    requires InRing(size, rd, wr) && size >= 2 && !NoShortLap(size, wr, k)
    ensures var s := ShortLaps(size, k - (size - wr));
            && s >= 1
            && Used(size, Advance(size, rd, Pushed(size, rd, wr, k)), LapsEnd(size, wr, k)) == Advance(size, 0, s - 1)
  {
    var rest := k - (size - wr);
    var s := ShortLaps(size, rest);
    PushedEnd(size, rd, wr, k);
    ShortLapsSkip(size, rest);
    AdvanceAdds(size, 0, rest + 1, s - 1);
    UsedWraps(size, Advance(size, 0, rest + 1), s - 1);
  }

  /** A write of more than a lap leaves the read offset one slot behind the end of the data. */
  lemma PushedEnd(size: nat, rd: nat, wr: nat, k: nat)
    requires InRing(size, rd, wr) && k >= size
    ensures Advance(size, rd, Pushed(size, rd, wr, k)) == Advance(size, 0, k - (size - wr) + 1)
  {
    var (rest, m) := (k - (size - wr), Pushed(size, rd, wr, k));
    AdvanceWraps(size, rd, m);
    if rd > wr {
      assert rd + m == size + rest + 1;
    } else {
      assert rd + m == rest + 1;
      AdvanceWraps(size, 0, rd + m);
    }
  }

  /** One byte written into a ring, at the cost of the oldest one when the ring is full. */
  lemma PutOneOverwrites(b: seq<byte>, rd: nat, wr: nat, x: byte)
    requires InRing(|b|, rd, wr)
    ensures Queue(b[wr := x], if Free(|b|, rd, wr) == 0 then Next(|b|, rd) else rd, Next(|b|, wr))
         == LastN(Queue(b, rd, wr) + [x], |b| - 1)
  {
    if Free(|b|, rd, wr) > 0 {
      QueueGrows(b, rd, wr, x);
      hide Queue;
    } else if |b| > 1 {
      FullRingMoves(b, rd, wr, x);
    }
  }

  lemma FullRingMoves(b: seq<byte>, rd: nat, wr: nat, x: byte)
    requires InRing(|b|, rd, wr) && Free(|b|, rd, wr) == 0 && |b| > 1
    ensures Queue(b[wr := x], Next(|b|, rd), Next(|b|, wr)) == LastN(Queue(b, rd, wr) + [x], |b| - 1)
  {
    var q, rd' := Queue(b, rd, wr), Next(|b|, rd);
    assert q == [b[rd]] + Queue(b, rd', wr);
    hide Queue;
    QueueGrows(b, rd', wr, x);
    assert (q + [x])[1..] == Queue(b, rd', wr) + [x];
  }

  /** The bytes that survive are the same whether the first byte is pushed in before or with the rest. */
  lemma SurvivorsStep(b: seq<byte>, rd: nat, wr: nat, d: seq<byte>)
    requires InRing(|b|, rd, wr) && d != []
    ensures Survivors(b[wr := d[0]], if Free(|b|, rd, wr) == 0 then Next(|b|, rd) else rd, Next(|b|, wr), d[1..])
         == Survivors(b, rd, wr, d)
  {
    hide Queue, LastN, Free, Next;
    var q := Queue(b, rd, wr);
    PutOneOverwrites(b, rd, wr, d[0]);
    LastNAbsorbs(q + [d[0]], d[1..], |b| - 1);
    assert q + [d[0]] + d[1..] == q + d;
  }

  /** The bytes a ring should hold after taking in d: the newest ones. */
  function Survivors(b: seq<byte>, rd: nat, wr: nat, d: seq<byte>): seq<byte>
    requires InRing(|b|, rd, wr)
  {
    LastN(Queue(b, rd, wr) + d, |b| - 1)
  }

  /** The bytes it does hold once d is written and the read offset pushed ahead. */
  function Overwritten(b: seq<byte>, rd: nat, wr: nat, d: seq<byte>): seq<byte>
    requires InRing(|b|, rd, wr)
  {
    Queue(Put(b, wr, d), Advance(|b|, rd, Pushed(|b|, rd, wr, |d|)), Advance(|b|, wr, |d|))
  }

  lemma OverwrittenStep(b: seq<byte>, rd: nat, wr: nat, d: seq<byte>)
    requires InRing(|b|, rd, wr) && d != []
    ensures Overwritten(b[wr := d[0]], if Free(|b|, rd, wr) == 0 then Next(|b|, rd) else rd, Next(|b|, wr), d[1..])
         == Overwritten(b, rd, wr, d)
  {
    PushedStep(|b|, rd, wr, |d|);
  }

  /** Writing any amount while pushing the read offset ahead keeps the newest bytes. */
  lemma {:induction false} PutOverwrites(b: seq<byte>, rd: nat, wr: nat, d: seq<byte>)
    requires InRing(|b|, rd, wr)
    ensures Overwritten(b, rd, wr, d) == Survivors(b, rd, wr, d)
    decreases |d|
  {
    if d == [] {
      assert Queue(b, rd, wr) + d == Queue(b, rd, wr);
    } else {
      OverwrittenStep(b, rd, wr, d);
      SurvivorsStep(b, rd, wr, d);
      PutOverwrites(b[wr := d[0]], if Free(|b|, rd, wr) == 0 then Next(|b|, rd) else rd, Next(|b|, wr), d[1..]);
    }
  }

  lemma PushedStep(n: nat, rd: nat, wr: nat, k: nat)
    requires InRing(n, rd, wr) && k > 0
    ensures var full := Free(n, rd, wr) == 0;
            var rd' := if full then Next(n, rd) else rd;
            Advance(n, rd, Pushed(n, rd, wr, k)) == Advance(n, rd', Pushed(n, rd', Next(n, wr), k - 1))
  {
  }

  lemma LastNAbsorbs(s: seq<byte>, t: seq<byte>, k: nat)
    ensures LastN(LastN(s, k) + t, k) == LastN(s + t, k)
  {
  }

  // ----- the source's copy

  /** What the lap-by-lap copy stores: up to the end of the storage, then in laps one byte short of it. */
  function LapsStored(b: seq<byte>, wr: nat, d: seq<byte>): (r: seq<byte>)
    requires wr < |b| && (|b| >= 2 || |d| <= |b| - wr)
    ensures |r| == |b|
  {
    var room := |b| - wr;
    if |d| < room then Patched(b, wr, d) else ShortLapsStored(Patched(b, wr, d[..room]), d[room..])
  }

  function ShortLapsStored(b: seq<byte>, d: seq<byte>): (r: seq<byte>)
    requires |b| >= 1 && (|b| >= 2 || d == [])
    ensures |r| == |b|
    decreases |d|
  {
    var room := |b| - 1;
    if d == [] then b
    else if |d| < room then Patched(b, 0, d)
    else ShortLapsStored(Patched(b, 0, d[..room]), d[room..])
  }

  /** The bytes the ring holds after the source's overwriting write. */
  function LapsContents(b: seq<byte>, rd: nat, wr: nat, d: seq<byte>): (q: seq<byte>)
    requires InRing(|b|, rd, wr) && (|b| >= 2 || |d| <= |b| - wr)
  {
    Queue(LapsStored(b, wr, d), Advance(|b|, rd, Pushed(|b|, rd, wr, |d|)), LapsEnd(|b|, wr, |d|))
  }

  /** The loop is about to write d in laps, the next one of avail bytes: a first lap runs to the end of
      the storage, a later one starts at 0 and is one byte short. */
  predicate LapDue(n: nat, wr: nat, avail: nat, d: seq<byte>) {
    && wr < n && (n >= 2 || |d| <= avail)
    && (avail == n - wr || (wr == 0 && avail == n - 1 && d != []))
  }

  /** The bytes and the write offset the loop then ends with. */
  function LapsLeave(b: seq<byte>, wr: nat, avail: nat, d: seq<byte>): (seq<byte>, nat)
    requires LapDue(|b|, wr, avail, d)
  {
    if avail == |b| - wr then (LapsStored(b, wr, d), LapsEnd(|b|, wr, |d|))
    else (ShortLapsStored(b, d), ShortLapsEnd(|b|, |d|))
  }

  /** One turn of the loop when d fits before the end of the lap, */
  lemma LastTurn(b: seq<byte>, wr: nat, avail: nat, d: seq<byte>)
    requires LapDue(|b|, wr, avail, d) && avail > |d|
    ensures wr + |d| < |b| && LapsLeave(b, wr, avail, d) == (Patched(b, wr, d), wr + |d|)
  {
  }

  /** and when it does not. */
  lemma FullTurn(b: seq<byte>, wr: nat, avail: nat, d: seq<byte>)
    requires LapDue(|b|, wr, avail, d) && avail <= |d|
    ensures wr + avail <= |b|
    ensures var (c, rest) := (Patched(b, wr, d[..avail]), d[avail..]);
            if rest == [] then LapsLeave(b, wr, avail, d) == (c, 0)
            else && |rest| < |d| && LapDue(|c|, 0, |c| - 1, rest)
                 && LapsLeave(b, wr, avail, d) == LapsLeave(c, 0, |c| - 1, rest)
  {
    hide Patched;
    var (c, rest) := (Patched(b, wr, d[..avail]), d[avail..]);
    assert rest == [] ==> ShortLapsStored(c, rest) == c && ShortLapsEnd(|c|, 0) == 0;
    assert |rest| == |d| - avail;
  }

  /** Without a short lap the copy stores what storing byte after byte stores. */
  lemma LapsStoreAll(b: seq<byte>, wr: nat, d: seq<byte>)
    requires wr < |b| && (|b| >= 2 || |d| <= |b| - wr) && NoShortLap(|b|, wr, |d|)
    ensures LapsStored(b, wr, d) == Put(b, wr, d)
  {
    if |d| < |b| - wr {
      PutPatches(b, wr, d);
      hide Put, Patched;
    } else {
      LapsStoreBoth(b, wr, d);
    }
  }

  lemma PutPatches(b: seq<byte>, wr: nat, d: seq<byte>)
    requires wr < |b| && wr + |d| <= |b|
    ensures Put(b, wr, d) == Patched(b, wr, d)
  {
    hide Put;
    PutStraight(b, wr, d);
  }

  lemma LapsStoreBoth(b: seq<byte>, wr: nat, d: seq<byte>)
    requires wr < |b| && |b| - wr <= |d| && (|d| == |b| - wr || |d| < 2 * |b| - wr - 1)
    ensures |b| >= 2 || |d| <= |b| - wr
    ensures LapsStored(b, wr, d) == Put(b, wr, d)
  {
    hide Put, ShortLapsStored, Patched;
    FirstLap(b, wr, d, |b| - wr);
    SecondLap(Patched(b, wr, d[..|b| - wr]), d[|b| - wr..]);
  }

  lemma SecondLap(b: seq<byte>, d: seq<byte>)
    requires |b| >= 1 && (d == [] || |d| < |b| - 1)
    ensures ShortLapsStored(b, d) == Put(b, 0, d)
  {
    PutPatches(b, 0, d);
    assert d == [] ==> Patched(b, 0, d) == b;
    hide Put, Patched;
  }

  /** The short laps leave the last slot alone. */
  lemma {:induction false} LastSlotStays(b: seq<byte>, d: seq<byte>)
    requires |b| >= 2
    ensures ShortLapsStored(b, d)[|b| - 1] == b[|b| - 1]
    decreases |d|
  {
    var room := |b| - 1;
    if |d| >= room {
      LastSlotStays(Patched(b, 0, d[..room]), d[room..]);
    }
  }

  lemma {:induction false} ShortEnd(size: nat, k: nat)
    requires size >= 2
    ensures ShortLapsEnd(size, k) < size - 1
    decreases k
  {
    if k >= size - 1 {
      ShortEnd(size, k - (size - 1));
    }
  }

  /** The byte that gives a short lap away: it went to the last slot in the first lap. */
  function Marked(size: nat, wr: nat, k: nat): (d: seq<byte>)
    requires wr < size <= k
    ensures |d| == k
  {
    seq(k, i => if i == size - wr - 1 then 1 else 0)
  }

  /** With a short lap the ring holds the wrong bytes for some data of any length: too few of them, or
      the stale byte in the last slot. */
  lemma ShortLapShows(b: seq<byte>, rd: nat, wr: nat, k: nat)
    requires InRing(|b|, rd, wr) && |b| >= 2 && !NoShortLap(|b|, wr, k)
    ensures LapsContents(b, rd, wr, Marked(|b|, wr, k)) != Survivors(b, rd, wr, Marked(|b|, wr, k))
  {
    var (n, d) := (|b|, Marked(|b|, wr, k));
    var (stored, rd', wr') := (LapsStored(b, wr, d), Advance(n, rd, Pushed(n, rd, wr, k)), LapsEnd(n, wr, k));
    SurvivorsUnmarked(b, rd, wr, k);
    ShortEnd(n, k - (n - wr));
    LastSlotMarked(b, wr, k);
    hide Queue, Advance, Pushed, LapsStored, LapsEnd, Survivors, Marked;
    if Used(n, rd', wr') == n - 1 {
      LastSlotSeen(stored, rd', wr');
    }
  }

  /** The marked byte is too old to survive. */
  lemma SurvivorsUnmarked(b: seq<byte>, rd: nat, wr: nat, k: nat)
    requires InRing(|b|, rd, wr) && |b| >= 2 && !NoShortLap(|b|, wr, k)
    ensures var s := Survivors(b, rd, wr, Marked(|b|, wr, k));
            |s| == |b| - 1 && forall i :: 0 <= i < |s| ==> s[i] == 0
  {
    hide Queue;
    var d := Marked(|b|, wr, k);
    assert Survivors(b, rd, wr, d) == d[k - (|b| - 1)..];
  }

  lemma LastSlotMarked(b: seq<byte>, wr: nat, k: nat)
    requires wr < |b| && |b| >= 2 && !NoShortLap(|b|, wr, k)
    ensures LapsStored(b, wr, Marked(|b|, wr, k))[|b| - 1] == 1
    ensures LapsEnd(|b|, wr, k) == ShortLapsEnd(|b|, k - (|b| - wr))
  {
    hide ShortLapsStored, ShortLapsEnd;
    var (d, room) := (Marked(|b|, wr, k), |b| - wr);
    var c := Patched(b, wr, d[..room]);
    assert c[|b| - 1] == d[room - 1] == 1;
    hide Patched, Marked;
    LastSlotStays(c, d[room..]);
  }

  /** A full ring that does not end in its last slot shows it. */
  lemma LastSlotSeen(b: seq<byte>, rd: nat, wr: nat)
    requires InRing(|b|, rd, wr) && Used(|b|, rd, wr) == |b| - 1 && wr < |b| - 1
    ensures exists i :: 0 <= i < |b| - 1 && Queue(b, rd, wr)[i] == b[|b| - 1]
  {
    QueueSlices(b, rd, wr);
    assert Queue(b, rd, wr)[|b| - 1 - rd] == b[|b| - 1];
  }

  /** The exact limit of the overwriting writer: for the ring's state and the length of the request, it
      leaves the newest bytes of every data of that length if and only if no lap is short. */
  lemma OverwriteExact(b: seq<byte>, rd: nat, wr: nat, k: nat)
    requires InRing(|b|, rd, wr) && (|b| >= 2 || k <= |b| - wr)
    ensures (forall d :: |d| == k ==> LapsContents(b, rd, wr, d) == Survivors(b, rd, wr, d)) <==> NoShortLap(|b|, wr, k)
  {
    if NoShortLap(|b|, wr, k) {
      forall d | |d| == k
        ensures LapsContents(b, rd, wr, d) == Survivors(b, rd, wr, d)
      {
        LapsStoreAll(b, wr, d);
        LapsEndAdvances(|b|, wr, k);
        PutOverwrites(b, rd, wr, d);
      }
    } else {
      ShortLapShows(b, rd, wr, k);
    }
  }

  /** A request that the storage can hold never has a short lap. */
  lemma SmallRequestsFit(size: nat, wr: nat, k: nat)
    requires wr < size && k < size
    ensures NoShortLap(size, wr, k)
  {
  }
}
