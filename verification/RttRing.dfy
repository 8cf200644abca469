/** One channel of the real-time terminal: a byte ring shared by the target and the debug host.
    The source has an up ring (target writes) and a down ring (target reads); both have the same
    fields and the same reading and writing code, so one class stands for either. */
module RttRing {
  import opened Machine
  import opened RttOffsets
  import opened RttOverwriting
  import opened RttTerminals

  const MODE_SKIP: u32 := 0
  const MODE_TRIM: u32 := 1
  const MODE_BLOCK: u32 := 2

  class Ring {
    const buf: array<byte>
    var rdOff: u32
    var wrOff: u32
    var flags: u32
    var activeTerminal: nat
    /** How many bytes the host tries to take before each of the target's next loads of rdOff.
        Once the list is used up the host is idle for ever. */
    var host: seq<nat>
    /** Every byte the host has taken so far. */
    ghost var taken: seq<byte>

    ghost predicate Valid()
      reads this
    {
      && 1 <= buf.Length < U32_COUNT
      && InRing(buf.Length, rdOff, wrOff)
      && activeTerminal < 16
    }

    /** The bytes published and not yet taken, oldest first. */
    ghost function Contents(): (q: seq<byte>)
      requires Valid()
      reads this, buf
      ensures |q| < buf.Length
    {
      Queue(buf[..], rdOff, wrOff)
    }

    /** The whole byte stream as the host sees it: what it took and what waits for it. */
    ghost function Stream(): seq<byte>
      requires Valid()
      reads this, buf
    {
      taken + Contents()
    }

    ghost function FreeNow(): nat
      requires Valid()
      reads this
    {
      Free(buf.Length, rdOff, wrOff)
    }

    /** The free space the target finds at its next load of rdOff. */
    ghost function FreeAtLoad(): nat
      requires Valid()
      reads this
    {
      FreeNow() + if host == [] then 0 else Min(host[0], buf.Length - 1 - FreeNow())
    }

    /** Where the host leaves the read offset, and what it has taken, at that load. */
    ghost function HostAtLoad(): (nat, seq<byte>)
      requires Valid()
      reads this, buf
    {
      var k := FreeAtLoad() - FreeNow();
      (Advance(buf.Length, rdOff, k), taken + Contents()[..k])
    }

    constructor (size: u32, mode: u32, schedule: seq<nat>)
      requires size > 0
      ensures Valid() && fresh(buf) && buf.Length == size
      ensures Stream() == [] && flags == mode && host == schedule && activeTerminal == 0
    {
      buf := new byte[size](_ => 0);
      rdOff, wrOff, flags, activeTerminal := 0, 0, mode, 0;
      host, taken := schedule, [];
    }

    /** A load of the volatile rdOff: the host may have moved it since the last one. */
    method LoadRdOff() returns (off: u32)
      requires Valid()
      modifies this`rdOff, this`host, this`taken
      ensures Valid() && off == rdOff
      ensures Stream() == old(Stream())
      ensures FreeNow() == old(FreeAtLoad())
      ensures |taken| == |old(taken)| + FreeNow() - old(FreeNow())
      ensures (rdOff, taken) == old(HostAtLoad())
      ensures host == if old(host) == [] then [] else old(host)[1..]
    {
      hide Queue, Put;
      if host != [] {
        var used := if rdOff <= wrOff then wrOff - rdOff else buf.Length - rdOff + wrOff;
        var k := Min(host[0], used);
        TakeOldest(buf[..], rdOff, wrOff, k, taken);
        taken := taken + Contents()[..k];
        rdOff := if rdOff + k < buf.Length then rdOff + k else rdOff + k - buf.Length;
        host := host[1..];
      } else {
        assert taken + Contents()[..0] == taken;
      }
      off := rdOff;
    }

    /** memcpy into the ring's storage. */
    method CopyIn(off: nat, data: seq<byte>)
      requires off + |data| <= buf.Length
      modifies buf
      ensures buf[..] == old(buf[..off]) + data + old(buf[off + |data|..])
    {
      forall i | 0 <= i < |data| {
        buf[off + i] := data[i];
      }
    }

    /** _GetAvailWriteSpace */
    method GetAvailWriteSpace() returns (r: u32)
      requires Valid()
      modifies this`rdOff, this`host, this`taken
      ensures Valid() && Stream() == old(Stream())
      ensures r == FreeNow() == old(FreeAtLoad())
      ensures r + |Contents()| == buf.Length - 1
      ensures |taken| == |old(taken)| + FreeNow() - old(FreeNow())
      ensures (rdOff, taken) == old(HostAtLoad())
      ensures host == if old(host) == [] then [] else old(host)[1..]
    {
      var rd := LoadRdOff();
      var wr := wrOff;
      if rd <= wr {
        r := Add32(Sub32(Sub32(buf.Length, 1), wr), rd);
      } else {
        r := Sub32(Sub32(rd, wr), 1);
      }
    }

    /** The two copies of a write that reaches the end of the storage. */
    method CopyInTwoChunks(wr: nat, data: seq<byte>)
      requires wr < buf.Length && |data| <= buf.Length <= wr + |data|
      modifies buf
      ensures var rem := buf.Length - wr;
              buf[..] == data[rem..] + old(buf[..])[|data| - rem..wr] + data[..rem]
    {
      var rem := buf.Length - wr;
      CopyIn(wr, data[..rem]);
      CopyIn(0, data[rem..]);
    }

    /** _WriteNoCheck: the caller has made sure that data fits. */
    method WriteNoCheck(data: seq<byte>)
      requires Valid() && |data| <= FreeNow()
      modifies this`wrOff, buf
      ensures Valid()
      ensures buf[..] == Put(old(buf[..]), old(wrOff), data)
      ensures wrOff == Advance(buf.Length, old(wrOff), |data|)
      ensures Contents() == old(Contents()) + data
      ensures Stream() == old(Stream()) + data
    {
      hide Queue, Put, Advance;
      var wr := wrOff;
      var rem := Sub32(buf.Length, wr);
      if rem > |data| {
        StraightCopy(buf[..], rdOff, wr, data, taken);
        CopyIn(wr, data);
        wrOff := wr + |data|;
      } else {
        TwoChunkCopy(buf[..], rdOff, wr, data, taken);
        CopyInTwoChunks(wr, data);
        wrOff := Sub32(|data|, rem);
      }
    }

    /** One round of the loop of _WriteBlocking: load rdOff, copy as much of data as fits in one
        piece, publish wrOff. A round that starts at offset 0 takes everything that fits. */
    method WriteBlockingRound(data: seq<byte>) returns (n: u32)
      requires Valid() && |data| < U32_COUNT
      modifies this`rdOff, this`wrOff, this`host, this`taken, buf
      ensures Valid() && n <= |data|
      ensures Stream() == old(Stream()) + data[..n]
      ensures FreeNow() == old(FreeAtLoad()) - n
      ensures |taken| == |old(taken)| + old(FreeAtLoad()) - old(FreeNow())
      ensures host == if old(host) == [] then [] else old(host)[1..]
      ensures n == |data| || n == old(FreeAtLoad()) || (wrOff == 0 && 0 < n)
      ensures old(wrOff) == 0 ==> n == Min(|data|, old(FreeAtLoad()))
    {
      var wr := wrOff;
      var rd := LoadRdOff();
      n := RoundSize(buf.Length, rd, wr, |data|);
      CopyChunk(wr, data[..n]);
    }

    /** The copy and publication of one round: one piece that ends at or before the end of the storage. */
    method CopyChunk(off: u32, chunk: seq<byte>)
      requires Valid() && off == wrOff && off + |chunk| <= buf.Length && |chunk| <= FreeNow()
      modifies this`wrOff, buf
      ensures Valid()
      ensures Stream() == old(Stream()) + chunk
      ensures FreeNow() == old(FreeNow()) - |chunk|
      ensures wrOff == if off + |chunk| == buf.Length then 0 else off + |chunk|
    {
      StraightCopy(buf[..], rdOff, off, chunk, taken);
      CopyIn(off, chunk);
      var wr := off + |chunk|;
      if wr == buf.Length {
        wr := 0;
      }
      wrOff := wr;
    }

    /** _WriteBlocking. The host may move between the rounds of the loop. blocked tells that the
        source's loop never ends: bytes are left, the ring is full and the host is idle for ever. */
    method WriteBlocking(data: seq<byte>) returns (written: nat, blocked: bool, rounds: nat)
      requires Valid() && |data| < U32_COUNT
      modifies this`rdOff, this`wrOff, this`host, this`taken, buf
      ensures Valid()
      ensures written <= |data| && Stream() == old(Stream()) + data[..written]
      ensures !blocked ==> written == |data|
      ensures blocked ==> written < |data| && host == [] && FreeNow() == 0
      ensures FreeNow() + written == old(FreeNow()) + |taken| - |old(taken)|
      ensures |taken| >= |old(taken)|
      ensures |data| <= old(FreeNow()) ==> !blocked && rounds <= 2
    {
      hide Queue, Put, Advance;
      written, blocked, rounds := 0, false, 0;
      ghost var fits := |data| <= FreeNow();
      var more := true;
      assert Stream() + data[..0] == Stream();
      while more
        invariant Valid() && 0 <= written <= |data|
        invariant Stream() == old(Stream()) + data[..written]
        invariant FreeNow() + written == old(FreeNow()) + |taken| - |old(taken)|
        invariant |taken| >= |old(taken)|
        invariant if more then !blocked && (rounds > 0 ==> written < |data|) else blocked || written == |data|
        invariant blocked ==> written < |data| && host == [] && FreeNow() == 0
        invariant fits ==> |data| - written <= FreeNow() && rounds <= 2
        invariant fits && more ==> rounds <= 1 && (rounds == 1 ==> wrOff == 0)
        decreases more, |host| + |data| - written
      {
        ghost var was := written;
        var n := WriteBlockingRound(data[written..]);
        written := written + n;
        rounds := rounds + 1;
        PrefixGrows(old(Stream()), data, was, n);
        if written == |data| {
          more := false;
        } else if host == [] && n == 0 {
          more, blocked := false, true;
        }
      }
    }

    /** _PostTerminalSwitch. The bytes written are returned for the caller's proof. */
    method PostTerminalSwitch(id: nat) returns (written: nat, blocked: bool)
      requires Valid() && id < 16
      modifies this`rdOff, this`wrOff, this`host, this`taken, buf
      ensures Valid() && written <= 2
      ensures Stream() == old(Stream()) + SwitchCode(id)[..written]
      ensures if blocked then written < 2 && host == [] && FreeNow() == 0 else written == 2
      ensures 2 <= old(FreeNow()) ==> !blocked && FreeNow() >= old(FreeNow()) - 2
    {
      var rounds;
      written, blocked, rounds := WriteBlocking(SwitchCode(id));
    }

    /** SEGGER_RTT_SetTerminal: all of the switch code or nothing, except in blocking mode. */
    method SetTerminal(id: byte) returns (r: int, blocked: bool)
      requires Valid()
      modifies this`rdOff, this`wrOff, this`host, this`taken, this`activeTerminal, buf
      ensures Valid()
      ensures r == if id < 16 && (flags % 4 == MODE_BLOCK || old(FreeAtLoad()) >= 2) then 0 else -1
      ensures activeTerminal == if r == 0 then id else old(activeTerminal)
      ensures r == -1 ==> !blocked && Stream() == old(Stream())
      ensures r == 0 && !blocked ==> Stream() == old(Stream()) + SwitchCode(id) && Terminal(0, Stream()) == id
      ensures blocked ==>
                && flags % 4 == MODE_BLOCK && id < 16 && host == [] && FreeNow() == 0
                && (exists k :: 0 <= k < 2 && Stream() == old(Stream()) + SwitchCode(id)[..k])
    {
      hide Queue, Terminal, Screen, SwitchCode;
      r, blocked := 0, false;
      if id < 16 {
        var ac := SwitchCode(id);
        if flags % 4 == MODE_BLOCK {
          activeTerminal := id;
          var written, rounds;
          written, blocked, rounds := WriteBlocking(ac);
          assert Stream() == old(Stream()) + ac[..written] && ac[..2] == ac;
          SwitchShown(0, old(Stream()), id);
        } else {
          var avail := GetAvailWriteSpace();
          if avail >= 2 {
            activeTerminal := id;
            WriteNoCheck(ac);
            SwitchShown(0, old(Stream()), id);
          } else {
            r := -1;
          }
        }
      } else {
        r := -1;
      }
    }

    /** The three writes of SEGGER_RTT_TerminalOut: switch to id, the text, switch back. */
    method PostFrame(id: nat, text: seq<byte>) returns (n: u32, blocked: bool)
      requires Valid() && id < 16 && |text| < U32_COUNT
      modifies this`rdOff, this`wrOff, this`host, this`taken, buf
      ensures Valid()
      ensures !blocked ==> n == |text| && Stream() == old(Stream()) + TerminalFrame(id, text, activeTerminal)
      ensures !blocked ==> Terminal(0, Stream()) == activeTerminal
      ensures !blocked ==>
                (Screen(0, Stream()) == old(Screen(0, Stream())) + On(id, text) <==> Plain(text))
      ensures blocked ==> host == [] && FreeNow() == 0
      ensures blocked ==>
                exists k ::
                  0 <= k < |text| + 4 && Stream() == old(Stream()) + TerminalFrame(id, text, activeTerminal)[..k]
      ensures |text| + 4 <= old(FreeNow()) ==> !blocked
    {
      hide Queue;
      ghost var (s0, frame) := (Stream(), TerminalFrame(id, text, activeTerminal));
      FrameShown(0, s0, id, text, activeTerminal);
      hide Terminal, Screen, On, Plain, SwitchCode, TerminalFrame;
      n := 0;
      var k;
      k, blocked := PostTerminalSwitch(id);
      FramePieces(s0, id, text, activeTerminal, k);
      if blocked {
        return;
      }
      var rounds;
      n, blocked, rounds := WriteBlocking(text);
      FramePieces(s0, id, text, activeTerminal, n);
      if blocked {
        return;
      }
      k, blocked := PostTerminalSwitch(activeTerminal);
      FramePieces(s0, id, text, activeTerminal, k);
    }

    /** SEGGER_RTT_TerminalOut. In skip and trim mode it never blocks, even if the host never reads,
        because the free space measured first only grows. s is a C string, so it and its four extra
        bytes fit in the address space. */
    method TerminalOut(id: byte, s: seq<byte>) returns (status: int, blocked: bool)
      requires Valid() && |s| + 4 < U32_COUNT
      modifies this`rdOff, this`wrOff, this`host, this`taken, buf
      ensures Valid()
      ensures blocked ==> id < 16 && flags % 4 == MODE_BLOCK && host == [] && FreeNow() == 0
      ensures id >= 16 || flags % 4 == 3 ==> status == -1 && Stream() == old(Stream())
      ensures id < 16 && flags % 4 == MODE_SKIP ==>
                if |s| + 4 <= old(FreeAtLoad())
                then status == Int32(|s|) && Stream() == old(Stream()) + TerminalFrame(id, s, activeTerminal)
                else status == 0 && Stream() == old(Stream())
      ensures id < 16 && flags % 4 == MODE_TRIM ==>
                if old(FreeAtLoad()) >= 4
                then var k := Min(|s|, old(FreeAtLoad()) - 4);
                     status == Int32(k) && Stream() == old(Stream()) + TerminalFrame(id, s[..k], activeTerminal)
                else status == -1 && Stream() == old(Stream())
      ensures id < 16 && flags % 4 == MODE_BLOCK ==>
                if blocked
                then
                  (exists k ::
                     0 <= k < |s| + 4 && Stream() == old(Stream()) + TerminalFrame(id, s, activeTerminal)[..k])
                else status == Int32(|s|) && Stream() == old(Stream()) + TerminalFrame(id, s, activeTerminal)
      ensures !blocked && Stream() != old(Stream()) ==> Terminal(0, Stream()) == activeTerminal
      ensures !blocked && Stream() != old(Stream()) ==>
                var text := if flags % 4 == MODE_TRIM then s[..Min(|s|, old(FreeAtLoad()) - 4)] else s;
                Screen(0, Stream()) == old(Screen(0, Stream())) + On(id, text) <==> Plain(text)
    {
      hide Terminal, Screen, On, Plain, SwitchCode, TerminalFrame;
      status, blocked := -1, false;
      if id < 16 {
        var fragLen := |s|;
        var avail := GetAvailWriteSpace();
        var mode := flags % 4;
        var n;
        if mode == MODE_SKIP {
          if avail < Add32(fragLen, 4) {
            status := 0;
          } else {
            n, blocked := PostFrame(id, s);
            status := Int32(n);
          }
        } else if mode == MODE_TRIM {
          if avail < 4 {
            status := -1;
          } else {
            var k := if fragLen < Sub32(avail, 4) then fragLen else Sub32(avail, 4);
            n, blocked := PostFrame(id, s[..k]);
            status := Int32(n);
          }
        } else if mode == MODE_BLOCK {
          n, blocked := PostFrame(id, s);
          status := Int32(n);
        }
      }
    }

    /** SEGGER_RTT_WriteSkipNoLock: all of data or nothing, with the copy chosen case by case. */
    method WriteSkip(data: seq<byte>) returns (status: u32)
      requires Valid() && |data| < U32_COUNT
      modifies this`rdOff, this`wrOff, this`host, this`taken, buf
      ensures Valid()
      ensures status == if |data| <= old(FreeAtLoad()) then 1 else 0
      ensures var d := if status == 1 then data else [];
              && buf[..] == Put(old(buf[..]), old(wrOff), d)
              && wrOff == Advance(buf.Length, old(wrOff), |d|)
              && Stream() == old(Stream()) + d
      ensures (rdOff, taken) == old(HostAtLoad())
      ensures host == if old(host) == [] then [] else old(host)[1..]
    {
      var rd := LoadRdOff();
      var wr := wrOff;
      status := 0;
      if rd <= wr {
        var avail := Sub32(Sub32(buf.Length, wr), 1);
        if avail >= |data| {
          CopyStraight(wr, data);
          status := 1;
        } else {
          avail := Add32(avail, rd);
          if avail >= |data| {
            CopyWrapped(wr, data);
            status := 1;
          }
        }
      } else {
        var avail := Sub32(Sub32(rd, wr), 1);
        if avail >= |data| {
          CopyStraight(wr, data);
          status := 1;
        }
      }
      if status == 0 {
        assert Stream() + [] == Stream();
      }
    }

    /** The second case of the skip writer: the data reaches the end of the storage. */
    method CopyWrapped(wr: u32, data: seq<byte>)
      requires Valid() && wr == wrOff && |data| < U32_COUNT && buf.Length <= wr + |data| && |data| <= FreeNow()
      modifies this`wrOff, buf
      ensures Valid()
      ensures buf[..] == Put(old(buf[..]), old(wrOff), data)
      ensures wrOff == Advance(buf.Length, old(wrOff), |data|)
      ensures Stream() == old(Stream()) + data
      ensures FreeNow() == old(FreeNow()) - |data|
    {
      hide Queue, Put, Advance;
      TwoChunkCopy(buf[..], rdOff, wr, data, taken);
      var rem := Sub32(buf.Length, wr);
      var numBytes := Sub32(|data|, rem);
      CopyInWrapped(wr, data, rem, numBytes);
      wrOff := numBytes;
    }

    /** Its two copies, the second only when bytes are left for it. */
    method CopyInWrapped(wr: nat, data: seq<byte>, rem: nat, numBytes: nat)
      requires wr < buf.Length && wr + rem == buf.Length && |data| == rem + numBytes <= buf.Length
      modifies buf
      ensures buf[..] == data[rem..] + old(buf[..])[numBytes..wr] + data[..rem]
    {
      CopyIn(wr, data[..rem]);
      if numBytes != 0 {
        CopyIn(0, data[rem..]);
      }
    }

    /** The CopyStraight label of the skip writer: the data ends before the end of the storage. */
    method CopyStraight(wr: u32, data: seq<byte>)
      requires Valid() && wr == wrOff && wr + |data| < buf.Length && |data| <= FreeNow()
      modifies this`wrOff, buf
      ensures Valid()
      ensures buf[..] == Put(old(buf[..]), old(wrOff), data)
      ensures wrOff == Advance(buf.Length, old(wrOff), |data|)
      ensures Stream() == old(Stream()) + data
      ensures FreeNow() == old(FreeNow()) - |data|
    {
      StraightCopy(buf[..], rdOff, wr, data, taken);
      CopyIn(wr, data);
      wrOff := wr + |data|;
    }

    /** SEGGER_RTT_WriteNoLock, and SEGGER_RTT_WriteDownBufferNoLock, whose code is the same. */
    method WriteNoLock(data: seq<byte>) returns (status: u32, blocked: bool)
      requires Valid() && |data| < U32_COUNT
      modifies this`rdOff, this`wrOff, this`host, this`taken, buf
      ensures Valid()
      ensures status <= |data| && Stream() == old(Stream()) + data[..status]
      ensures flags == MODE_SKIP ==> !blocked && status == if |data| <= old(FreeAtLoad()) then |data| else 0
      ensures flags == MODE_TRIM ==> !blocked && status == Min(|data|, old(FreeAtLoad()))
      ensures flags == MODE_BLOCK ==>
                if blocked then status < |data| && host == [] && FreeNow() == 0 else status == |data|
      ensures flags > MODE_BLOCK ==> !blocked && status == 0
      ensures flags == MODE_SKIP || flags == MODE_TRIM ==>
                && buf[..] == Put(old(buf[..]), old(wrOff), data[..status])
                && wrOff == Advance(buf.Length, old(wrOff), status)
                && host == (if old(host) == [] then [] else old(host)[1..])
                && (rdOff, taken) == old(HostAtLoad())
    {
      status, blocked := 0, false;
      assert Stream() + data[..0] == Stream();
      if flags == MODE_SKIP {
        var avail := GetAvailWriteSpace();
        if avail < |data| {
          status := 0;
        } else {
          status := |data|;
          assert data[..status] == data;
          WriteNoCheck(data);
        }
      } else if flags == MODE_TRIM {
        var avail := GetAvailWriteSpace();
        status := if avail < |data| then avail else |data|;
        WriteNoCheck(data[..status]);
      } else if flags == MODE_BLOCK {
        var n, stuck, rounds := WriteBlocking(data);
        status, blocked := n, stuck;
      }
    }

    /** SEGGER_RTT_ReadUpBufferNoLock, and SEGGER_RTT_ReadNoLock, whose code is the same. */
    method Read(dst: array<byte>, size: u32) returns (numRead: u32)
      requires Valid() && size <= dst.Length && dst != buf
      modifies this`rdOff, dst
      ensures Valid()
      ensures numRead == Min(size, |old(Contents())|)
      ensures dst[..] == old(Contents())[..numRead] + old(dst[..])[numRead..]
      ensures Contents() == old(Contents())[numRead..]
      ensures rdOff == Advance(buf.Length, old(rdOff), numRead)
    {
      ReadOffset(buf[..], rdOff, wrOff, size);
      hide Queue, Advance, FirstPiece, SecondStart, SecondEnd, Min, Used;
      ghost var (b, d) := (buf[..], dst[..]);
      var rd: u32;
      numRead, rd := CopyPieces(dst, size);
      assert buf[..] == b;
      ReadBytes(b, rdOff, wrOff, size, d, dst[..]);
      if numRead != 0 {
        rdOff := rd;
      }
      assert rdOff == rd && Contents() == Queue(b, rd, wrOff);
    }

    /** The copying part of a read: the number of bytes copied and the read offset after them. */
    method CopyPieces(dst: array<byte>, size: u32) returns (numRead: u32, rd: u32)
      requires Valid() && size <= dst.Length && dst != buf
      modifies dst
      ensures buf[..] == old(buf[..])
      ensures rd == SecondEnd(buf.Length, rdOff, wrOff, size)
      ensures numRead == Min(size, Used(buf.Length, rdOff, wrOff)) <= dst.Length
      ensures var p := FirstPiece(buf.Length, rdOff, wrOff, size);
              var mid := SecondStart(buf.Length, rdOff, wrOff, size);
              && numRead == p + (rd - mid)
              && forall i :: 0 <= i < dst.Length ==>
                   dst[i] == if i < p then buf[rdOff + i] else if i < numRead then buf[mid + i - p] else old(dst[i])
    {
      ghost var (p, mid) := (FirstPiece(buf.Length, rdOff, wrOff, size), SecondStart(buf.Length, rdOff, wrOff, size));
      ghost var (end, n) := (SecondEnd(buf.Length, rdOff, wrOff, size), Min(size, Used(buf.Length, rdOff, wrOff)));
      assert mid <= end == mid + Min(Sub32(wrOff, mid), size - p) && p + (end - mid) == n <= size;
      hide Queue, FirstPiece, SecondStart, SecondEnd, Sub32, Min, Used, Valid;
      numRead, rd := ReadToWrap(dst, size);
      numRead, rd := ReadRest(dst, size, numRead, rd, end);
    }

    /** The first piece of a read, up to the end of the storage, and the offset after it. */
    method ReadToWrap(dst: array<byte>, size: u32) returns (p: u32, mid: u32)
      requires Valid() && size <= dst.Length && dst != buf
      modifies dst
      ensures buf[..] == old(buf[..])
      ensures p == FirstPiece(buf.Length, rdOff, wrOff, size) && rdOff + p <= buf.Length
      ensures mid == SecondStart(buf.Length, rdOff, wrOff, size)
      ensures p <= size
      ensures forall i :: 0 <= i < dst.Length ==> dst[i] == if i < p then buf[rdOff + i] else old(dst[i])
    {
      p, mid := 0, rdOff;
      if rdOff > wrOff {
        p := Min(Sub32(buf.Length, rdOff), size);
        CopyOut(rdOff, dst, 0, p);
        mid := rdOff + p;
        if mid == buf.Length {
          mid := 0;
        }
      }
    }

    /** The second piece of a read, from mid to end. When the caller's buffer ran out inside the first
        piece the difference of the offsets wraps round, and the minimum makes it harmless. */
    method ReadRest(dst: array<byte>, size: u32, done: u32, mid: u32, ghost end: nat)
      returns (numRead: u32, rd: u32)
      requires Valid() && done <= size <= dst.Length && dst != buf
      requires end == mid + Min(Sub32(wrOff, mid), size - done) <= buf.Length
      modifies dst
      ensures buf[..] == old(buf[..])
      ensures rd == end && numRead == done + (end - mid) <= dst.Length
      ensures forall i :: 0 <= i < dst.Length ==>
                dst[i] == if done <= i < numRead then buf[mid + i - done] else old(dst[i])
    {
      numRead, rd := done, mid;
      var rem := Min(Sub32(wrOff, rd), size - done);
      if rem > 0 {
        CopyOut(rd, dst, numRead, rem);
        numRead := numRead + rem;
        rd := rd + rem;
      }
    }

    /** memcpy out of the ring's storage. */
    method CopyOut(off: nat, dst: array<byte>, at: nat, k: nat)
      requires off + k <= buf.Length && at + k <= dst.Length && dst != buf
      modifies dst
      ensures buf[..] == old(buf[..])
      ensures forall i :: 0 <= i < dst.Length ==>
                dst[i] == if at <= i < at + k then buf[off + i - at] else old(dst[i])
    {
      forall i | at <= i < at + k {
        dst[i] := buf[off + i - at];
      }
    }

    /** SEGGER_RTT_WriteWithOverwriteNoLock, to be called only when no host reads. Without a short lap it
        keeps the newest bytes; with some, too few of them or a stale one. The bound on the offsets holds
        for a ring and data that are separate objects in a 32-bit address space. */
    method WriteWithOverwrite(data: seq<byte>)
      requires Valid() && |data| < U32_COUNT
      requires buf.Length >= 2 || |data| <= buf.Length - wrOff
      modifies this`rdOff, this`wrOff, buf
      ensures Valid()
      ensures var n, k := buf.Length, |data|;
              old(wrOff) + k + 1 < U32_COUNT ==>
                && Contents() == LapsContents(old(buf[..]), old(rdOff), old(wrOff), data)
                && (NoShortLap(n, old(wrOff), k) ==> Contents() == LastN(old(Contents()) + data, n - 1))
                && (!NoShortLap(n, old(wrOff), k) ==>
                      |Contents()| == Advance(n, 0, ShortLaps(n, k - (n - old(wrOff))) - 1))
    {
      hide Queue, Put, Advance, LapsStored;
      if NoShortLap(buf.Length, wrOff, |data|) {
        PutOverwrites(buf[..], rdOff, wrOff, data);
        LapsStoreAll(buf[..], wrOff, data);
        LapsEndAdvances(buf.Length, wrOff, |data|);
      } else {
        ShortLapsLose(buf.Length, rdOff, wrOff, |data|);
      }
      PushRdOff(|data|);
      WriteLaps(data);
    }

    /** The first part: make room by moving rdOff. */
    method PushRdOff(numBytes: u32)
      requires Valid()
      modifies this`rdOff
      ensures Valid()
      ensures wrOff + numBytes + 1 < U32_COUNT ==>
                rdOff == Advance(buf.Length, old(rdOff), Pushed(buf.Length, old(rdOff), wrOff, numBytes))
    {
      hide Advance;
      var avail: u32;
      if wrOff == rdOff {
        avail := Sub32(buf.Length, 1);
      } else if wrOff < rdOff {
        avail := Sub32(Sub32(rdOff, wrOff), 1);
      } else {
        avail := Add32(Sub32(Sub32(rdOff, wrOff), 1), buf.Length);
      }
      assert avail == FreeNow();
      if numBytes > avail {
        OffsetSum(buf.Length, rdOff, numBytes - avail);
        rdOff := Add32(rdOff, Sub32(numBytes, avail));
        ReduceRdOff();
      } else {
        assert Advance(buf.Length, rdOff, 0) == rdOff by {
          AdvanceWraps(buf.Length, rdOff, 0);
        }
      }
    }

    method ReduceRdOff()
      requires 1 <= buf.Length < U32_COUNT
      modifies this`rdOff
      ensures rdOff == Advance(buf.Length, 0, old(rdOff))
    {
      while rdOff >= buf.Length
        invariant Advance(buf.Length, 0, rdOff) == Advance(buf.Length, 0, old(rdOff))
      {
        AdvanceWraps(buf.Length, 0, rdOff);
        rdOff := rdOff - buf.Length;
      }
      AdvanceWraps(buf.Length, 0, rdOff);
    }

    /** The second part: lap after lap through the storage, without regard to rdOff. */
    method WriteLaps(data: seq<byte>)
      requires Valid() && |data| < U32_COUNT
      requires buf.Length >= 2 || |data| <= buf.Length - wrOff
      modifies this`wrOff, buf
      ensures Valid()
      ensures wrOff == LapsEnd(buf.Length, old(wrOff), |data|)
      ensures buf[..] == LapsStored(old(buf[..]), old(wrOff), data)
    {
      hide Queue, Advance, LapsEnd, LapsStored, ShortLapsEnd, ShortLapsStored;
      var rest := data;
      var avail: u32 := Sub32(buf.Length, wrOff);
      var more := true;
      ghost var leaves := LapsLeave(buf[..], wrOff, avail, data);
      hide LapsLeave;
      while more
        invariant Valid() && |rest| <= |data|
        invariant more ==> LapDue(buf.Length, wrOff, avail, rest) && leaves == LapsLeave(buf[..], wrOff, avail, rest)
        invariant !more ==> leaves == (buf[..], wrOff)
        decreases more, |rest|
      {
        more, rest := WriteLap(avail, rest);
        avail := Sub32(buf.Length, 1);
      }
    }

    /** One turn of the lap loop: whether another follows, and the data left for it. */
    method WriteLap(avail: u32, data: seq<byte>) returns (more: bool, rest: seq<byte>)
      requires Valid() && LapDue(buf.Length, wrOff, avail, data)
      modifies this`wrOff, buf
      ensures Valid() && |rest| <= |data|
      ensures if more then |rest| < |data| && LapDue(buf.Length, wrOff, buf.Length - 1, rest)
                && LapsLeave(buf[..], wrOff, buf.Length - 1, rest) == old(LapsLeave(buf[..], wrOff, avail, data))
              else (buf[..], wrOff) == old(LapsLeave(buf[..], wrOff, avail, data))
    {
      hide Queue, Advance, Patched, LapsLeave, LapDue;
      rest := data;
      if avail > |data| {
        LastTurn(buf[..], wrOff, avail, data);
        CopyLap(wrOff, data);
        wrOff := wrOff + |data|;
        more := false;
      } else {
        FullTurn(buf[..], wrOff, avail, data);
        CopyLap(wrOff, data[..avail]);
        wrOff := 0;
        rest := data[avail..];
        more := rest != [];
      }
    }

    method CopyLap(off: nat, data: seq<byte>)
      requires off + |data| <= buf.Length
      modifies buf
      ensures buf[..] == Patched(old(buf[..]), off, data)
    {
      CopyIn(off, data);
    }
  }

  /** Two rings that look the same to both sides. */
  ghost predicate Alike(a: Ring, b: Ring)
    requires a.Valid() && b.Valid()
    reads a, a.buf, b, b.buf
  {
    && a.buf[..] == b.buf[..]
    && a.rdOff == b.rdOff && a.wrOff == b.wrOff && a.host == b.host && a.taken == b.taken
  }

  /** The optimised skip writer refines the plain one: run on two rings that are alike, with the
      same host behind them, both accept the same requests and leave rings that are alike. */
  method SkipWritersAgree(a: Ring, b: Ring, data: seq<byte>) returns (accepted: bool)
    requires a.Valid() && b.Valid() && a != b && a.buf != b.buf && Alike(a, b)
    requires b.flags == MODE_SKIP && 0 < |data| < U32_COUNT
    modifies a, a.buf, b, b.buf
    ensures a.Valid() && b.Valid()
    ensures Alike(a, b)
    ensures accepted ==> a.Stream() == old(a.Stream()) + data
    ensures !accepted ==> a.Stream() == old(a.Stream())
  {
    hide Queue, Put, Advance;
    var status := a.WriteSkip(data);
    var n, blocked := b.WriteNoLock(data);
    accepted := status == 1;
    assert data[..n] == if accepted then data else [];
  }
}
