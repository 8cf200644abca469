/** The UART moves words between memory and a byte FIFO: UART_X_FIFO_WRITE takes words apart, lowest
    byte first, UART_X_FIFO_READ puts them together, and both stop and resume anywhere in a word.
    Shifts are written as multiplication and division, the or of disjoint bits as a sum. */
module UartPacking {
  import opened Machine

  /** The words in memory as bytes, in little-endian order. */
  function Bytes(ws: seq<u32>): (r: seq<byte>)
    ensures |r| == 4 * |ws|
  {
    seq(4 * |ws|, i requires 0 <= i < 4 * |ws| => ByteOf(ws[i / 4], i % 4))
  }

  /** The whole words that bytes make up; up to three bytes may be left over. */
  function Words(bs: seq<byte>): (r: seq<u32>)
    ensures |r| == |bs| / 4
  {
    seq(|bs| / 4, i requires 0 <= i < |bs| / 4 => FromLe32(bs[4 * i..4 * i + 4]))
  }

  lemma BytesAt(ws: seq<u32>, i: nat)
    requires i < |ws|
    ensures Bytes(ws)[4 * i..4 * i + 4] == Le32(ws[i])
  {
    hide ByteOf;
    var j := 4 * i;
    assert j / 4 == i && (j + 1) / 4 == i && (j + 2) / 4 == i && (j + 3) / 4 == i;
    assert j % 4 == 0 && (j + 1) % 4 == 1 && (j + 2) % 4 == 2 && (j + 3) % 4 == 3;
  }

  /** The lowest byte of a word comes first. */
  lemma LowestFirst(ws: seq<u32>, i: nat)
    requires i < |ws|
    ensures var b := Bytes(ws);
            ws[i] == (b[4 * i] as int) + 0x100 * (b[4 * i + 1] as int)
                     + 0x1_0000 * (b[4 * i + 2] as int) + 0x100_0000 * (b[4 * i + 3] as int)
  {
    BytesAt(ws, i);
    var s := Bytes(ws)[4 * i..4 * i + 4];
    hide Bytes, ByteOf;
    assert s[0] == Bytes(ws)[4 * i] && s[1] == Bytes(ws)[4 * i + 1];
    assert s[2] == Bytes(ws)[4 * i + 2] && s[3] == Bytes(ws)[4 * i + 3];
    BytesMakeWord(ws[i]);
  }

  /** Any number of bytes of words rebuilds the words that it covers. */
  lemma WordsOfBytes(ws: seq<u32>, n: nat)
    requires n <= 4 * |ws|
    ensures Words(Bytes(ws)[..n]) == ws[..n / 4]
  {
    forall i | 0 <= i < n / 4
      ensures Words(Bytes(ws)[..n])[i] == ws[i]
    {
      hide FromLe32, ByteOf;
      BytesAt(ws, i);
      assert Bytes(ws)[..n][4 * i..4 * i + 4] == Bytes(ws)[4 * i..4 * i + 4];
      BytesMakeWord(ws[i]);
    }
  }

  // ----- the holding registers

  /** w shifted right by k bytes. */
  function Shifted(w: u32, k: nat): u32
    requires k <= 4
  {
    match k case 0 => w case 1 => w / 0x100 case 2 => w / 0x1_0000 case 3 => w / 0x100_0000 case _ => 0
  }

  lemma ShiftedStep(w: u32, k: nat)
    requires k < 4
    ensures Shifted(w, k) % 0x100 == ByteOf(w, k) && Shifted(w, k) / 0x100 == Shifted(w, k + 1)
  {
  }

  /** The upper bytes of hold are the bytes bs. */
  predicate Holds(hold: u32, bs: seq<byte>)
    requires |bs| <= 4
  {
    match |bs|
    case 0 => true
    case 1 => hold / 0x100_0000 == bs[0]
    case 2 => hold / 0x1_0000 == (bs[0] as int) + 0x100 * (bs[1] as int)
    case 3 => hold / 0x100 == (bs[0] as int) + 0x100 * (bs[1] as int) + 0x1_0000 * (bs[2] as int)
    case _ => hold == FromLe32(bs)
  }

  lemma HoldsStep(hold: u32, bs: seq<byte>, b: byte)
    requires |bs| < 4 && Holds(hold, bs)
    ensures Holds(hold / 0x100 + 0x100_0000 * b, bs + [b])
  {
    var next := hold / 0x100 + 0x100_0000 * b;
    if |bs| == 1 {
      assert next / 0x1_0000 == hold / 0x100 / 0x1_0000 + 0x100 * b;
    } else if |bs| == 2 {
      assert next / 0x100 == hold / 0x100 / 0x100 + 0x1_0000 * b;
    }
  }

  /** One more byte: either it completes a word or the register holds it behind the others. */
  lemma OneMore(hold: u32, got: seq<byte>, n: nat, idx: nat, b: byte)
    requires 1 <= idx <= 4 && |got| == 4 * n + 4 - idx && Holds(hold, got[4 * n..])
    ensures var (next, all) := (hold / 0x100 + 0x100_0000 * b, got + [b]);
            if idx == 1 then Words(all) == Words(got) + [next]
            else Words(all) == Words(got) && Holds(next, all[4 * n..])
  {
    var (bs, next, all) := (got[4 * n..], hold / 0x100 + 0x100_0000 * b, got + [b]);
    HoldsStep(hold, bs, b);
    assert all[4 * n..] == bs + [b];
    assert Holds(next, bs + [b]) && (idx == 1 ==> next == FromLe32(bs + [b]));
    hide Holds, FromLe32;
    forall i | 0 <= i < |Words(got)|
      ensures Words(all)[i] == Words(got)[i]
    {
      assert all[4 * i..4 * i + 4] == got[4 * i..4 * i + 4];
    }
    assert idx == 1 ==> all[4 * n..4 * n + 4] == bs + [b];
  }

  /** The n bytes of s from position from on. */
  function Part(s: seq<byte>, from: nat, n: nat): (r: seq<byte>)
    requires from + n <= |s|
    ensures |r| == n
  {
    s[from..from + n]
  }

  lemma PartGrows(before: seq<byte>, s: seq<byte>, from: nat, n: nat)
    requires from + n < |s|
    ensures before + Part(s, from, n) + [s[from + n]] == before + Part(s, from, n + 1)
  {
  }

  lemma PartsJoin(s: seq<byte>, from: nat, n: nat)
    requires from + n <= |s|
    ensures Part(s, 0, from) + Part(s, from, n) == Part(s, 0, from + n)
  {
  }

  class Uart {
    const txBuffer: array<u32>
    var txNext: nat
    var txHold: u32
    var txIdx: nat
    var txRemain: nat
    const rxBuffer: array<u32>
    var rxNext: nat
    var rxHold: u32
    var rxIdx: nat
    var rxRemain: nat
    /** What has gone into the transmit FIFO, and what has come out of the receive FIFO. */
    var written: seq<byte>
    ghost var got: seq<byte>

    ghost predicate Valid()
      reads this, txBuffer, rxBuffer
    {
      && txBuffer != rxBuffer
      && txIdx <= 4 && txIdx <= 4 * txNext && txNext <= txBuffer.Length
      && (txIdx > 0 ==> txHold == Shifted(txBuffer[txNext - 1], 4 - txIdx))
      && Sent() + txRemain <= 4 * txBuffer.Length
      && 1 <= rxIdx <= 4 && |got| == 4 * rxNext + 4 - rxIdx
      && rxNext <= rxBuffer.Length && |got| + rxRemain <= 4 * rxBuffer.Length
      && Holds(rxHold, got[4 * rxNext..])
      && rxBuffer[..rxNext] == Words(got)
    }

    ghost function Sent(): int
      reads this
    {
      4 * txNext - txIdx
    }

    constructor (words: seq<u32>, room: nat, send: nat, receive: nat)
      requires send <= 4 * |words| && receive <= 4 * room
      ensures Valid() && txBuffer[..] == words && rxBuffer.Length == room
      ensures Sent() == 0 && txRemain == send && rxRemain == receive && written == [] && got == []
      ensures fresh(txBuffer) && fresh(rxBuffer)
    {
      txBuffer := new u32[|words|](i requires 0 <= i < |words| => words[i]);
      rxBuffer := new u32[room](_ => 0);
      txNext, txHold, txIdx, txRemain := 0, 0, 0, send;
      rxNext, rxHold, rxIdx, rxRemain := 0, 0, 4, receive;
      written, got := [], [];
    }

    /** One turn of the writing loop. */
    method WriteByte()
      requires Valid() && txRemain > 0
      modifies this`txNext, this`txHold, this`txIdx, this`txRemain, this`written
      ensures Valid() && txRemain == old(txRemain) - 1 && Sent() == old(Sent()) + 1
      ensures written == old(written) + [Bytes(txBuffer[..])[old(Sent())]]
    {
      if txIdx == 0 {
        txHold := txBuffer[txNext];
        txNext := txNext + 1;
        txIdx := 4;
      }
      ShiftedStep(txBuffer[txNext - 1], 4 - txIdx);
      assert Sent() / 4 == txNext - 1 && Sent() % 4 == 4 - txIdx;
      written := written + [txHold % 0x100];
      txHold := txHold / 0x100;
      txIdx := txIdx - 1;
      txRemain := txRemain - 1;
    }

    /** UART_X_FIFO_WRITE. */
    method XFifoWrite(max: nat)
      requires Valid()
      modifies this`txNext, this`txHold, this`txIdx, this`txRemain, this`written
      ensures Valid()
      ensures var n := Min(max, old(txRemain));
              && Sent() == old(Sent()) + n && txRemain == old(txRemain) - n
              && written == old(written) + Part(Bytes(txBuffer[..]), old(Sent()), n)
    {
      ghost var (bytes, from, before, all) := (Bytes(txBuffer[..]), Sent(), written, txRemain);
      ghost var sent: nat := 0;
      assert before + Part(bytes, from, 0) == before;
      if txRemain == 0 {
        return;
      }
      assert 0 <= from && from + txRemain <= |bytes|;
      hide Valid, Bytes, Sent, Part;
      var i := 0;
      while i < max
        invariant Valid() && sent == i <= max && txRemain == all - sent > 0 && Sent() == from + sent
        invariant written == before + Part(bytes, from, sent)
      {
        PartGrows(before, bytes, from, sent);
        WriteByte();
        sent := sent + 1;
        if txRemain == 0 {
          break;
        }
        i := i + 1;
      }
      assert sent == Min(max, all);
    }

    /** One turn of the reading loop. */
    method ReadByte(b: byte)
      requires Valid() && rxRemain > 0
      modifies this`rxNext, this`rxHold, this`rxIdx, this`rxRemain, this`got, rxBuffer
      ensures Valid() && rxRemain == old(rxRemain) - 1
      ensures got == old(got) + [b]
      ensures txBuffer[..] == old(txBuffer[..])
    {
      OneMore(rxHold, got, rxNext, rxIdx, b);
      hide Words, Holds, Shifted;
      got := got + [b];
      rxHold := rxHold / 0x100;
      rxHold := rxHold + 0x100_0000 * b;
      rxIdx := rxIdx - 1;
      if rxIdx == 0 {
        rxBuffer[rxNext] := rxHold;
        rxNext := rxNext + 1;
        rxIdx := 4;
      }
      rxRemain := rxRemain - 1;
    }

    /** UART_X_FIFO_READ, on a FIFO that holds at least as many bytes as will be read. */
    method XFifoRead(max: nat, fifo: seq<byte>)
      requires Valid() && Min(max, rxRemain) <= |fifo|
      modifies this`rxNext, this`rxHold, this`rxIdx, this`rxRemain, this`got, rxBuffer
      ensures Valid() && rxRemain == old(rxRemain) - Min(max, old(rxRemain))
      ensures got == old(got) + fifo[..Min(max, old(rxRemain))]
      ensures txBuffer[..] == old(txBuffer[..])
    {
      if rxRemain == 0 {
        return;
      }
      ghost var (before, all) := (got, rxRemain);
      hide Valid;
      var i := 0;
      while i < max
        invariant Valid() && i <= max && rxRemain == all - i > 0
        invariant got == before + fifo[..i]
        invariant txBuffer[..] == old(txBuffer[..])
      {
        assert fifo[..i + 1] == fifo[..i] + [fifo[i]];
        ReadByte(fifo[i]);
        if rxRemain == 0 {
          break;
        }
        i := i + 1;
      }
    }
  }

  // ----- any split into calls

  function Sum(ns: seq<nat>): (r: nat) {
    if ns == [] then 0 else Sum(ns[..|ns| - 1]) + ns[|ns| - 1]
  }

  /** However the transmission is split into calls, the FIFO sees the little-endian bytes of the words,
      as many as the calls ask for and the length allows. */
  method WriteSplit(u: Uart, maxes: seq<nat>)
    requires u.Valid() && u.Sent() == 0 && u.written == []
    modifies u
    ensures u.Valid() && u.Sent() == Min(Sum(maxes), old(u.txRemain))
    ensures u.written == Bytes(u.txBuffer[..])[..u.Sent()]
  {
    ghost var bytes := Bytes(u.txBuffer[..]);
    assert u.txRemain <= |bytes| && Part(bytes, 0, 0) == [];
    ghost var sent := WriteCalls(u, maxes, bytes);
    assert Part(bytes, 0, sent) == bytes[..sent];
  }

  method WriteCalls(u: Uart, maxes: seq<nat>, ghost bytes: seq<byte>) returns (ghost sent: nat)
    requires u.Valid() && u.Sent() == 0 && u.written == Part(bytes, 0, 0)
    requires bytes == Bytes(u.txBuffer[..]) && u.txRemain <= |bytes|
    modifies u
    ensures u.Valid() && u.Sent() == sent == Min(Sum(maxes), old(u.txRemain)) <= |bytes|
    ensures u.written == Part(bytes, 0, sent)
  {
    hide Uart.Valid, Uart.Sent, Bytes, Part;
    var i := 0;
    sent := 0;
    while i < |maxes|
      invariant i <= |maxes| && u.Valid() && u.Sent() == sent && u.txRemain == old(u.txRemain) - sent
      invariant sent == Min(Sum(maxes[..i]), old(u.txRemain))
      invariant u.written == Part(bytes, 0, sent)
    {
      assert maxes[..i + 1][..i] == maxes[..i];
      PartsJoin(bytes, sent, Min(maxes[i], u.txRemain));
      sent := sent + Min(maxes[i], u.txRemain);
      u.XFifoWrite(maxes[i]);
      i := i + 1;
    }
    assert maxes[..i] == maxes;
  }

  /** However the reception is split into calls, the memory holds the words that the bytes make up. */
  method ReadSplit(u: Uart, maxes: seq<nat>, bytes: seq<byte>)
    requires u.Valid() && u.got == [] && u.rxRemain == |bytes|
    modifies u, u.rxBuffer
    ensures u.Valid() && u.rxRemain == |bytes| - Min(Sum(maxes), |bytes|)
    ensures u.rxNext == Min(Sum(maxes), |bytes|) / 4
    ensures u.rxBuffer[..u.rxNext] == Words(bytes[..Min(Sum(maxes), |bytes|)])
  {
    var i, read := 0, 0;
    while i < |maxes|
      invariant i <= |maxes| && u.Valid() && read == Min(Sum(maxes[..i]), |bytes|) && u.rxRemain == |bytes| - read
      invariant u.got == bytes[..read]
    {
      assert maxes[..i + 1][..i] == maxes[..i];
      var more := Min(maxes[i], u.rxRemain);
      assert bytes[..read] + bytes[read..][..more] == bytes[..read + more];
      u.XFifoRead(maxes[i], bytes[read..]);
      read := read + more;
      i := i + 1;
    }
    assert maxes[..i] == maxes;
  }

  /** From one memory to another: the words covered by the length arrive, whatever the two splits are,
      once each side has been called for enough bytes. */
  method RoundTrip(words: seq<u32>, length: nat, puts: seq<nat>, gets: seq<nat>) returns (arrived: seq<u32>)
    requires length <= 4 * |words| && Sum(puts) >= length && Sum(gets) >= length
    ensures arrived == words[..length / 4]
  {
    hide Words, Bytes, Sum;
    var a := new Uart(words, 0, length, 0);
    WriteSplit(a, puts);
    var b := new Uart([], (length + 3) / 4, 0, length);
    ReadSplit(b, gets, a.written);
    WordsOfBytes(words, length);
    assert a.written == Bytes(words)[..length] && a.written[..length] == a.written;
    arrived := b.rxBuffer[..b.rxNext];
  }
}
