/** The wire formats of the USB Mass Storage Class Bulk-Only Transport, revision 1.0: the command
    block wrapper (section 5.1), the command status wrapper (section 5.2) and the fields of the
    command block that both ends of the driver encode or decode. */
module BulkOnly {
  import opened Machine

  type packet = seq<byte>

  datatype Option<T> = None | Some(value: T)

  const CBW_SIGNATURE: u32 := 0x43425355
  const CSW_SIGNATURE: u32 := 0x53425355
  const CBW_LENGTH := 31
  const CSW_LENGTH := 13
  const PACKET_SIZE := 64
  const BLOCK_SIZE := 512

  const SCSI_INQUIRY: byte := 0x12
  const SCSI_MODE_SENSE6: byte := 0x1A
  const SCSI_READ10: byte := 0x28
  const SCSI_READ_CAPACITY: byte := 0x25
  const SCSI_READ_FORMAT_CAPACITY: byte := 0x23
  const SCSI_TEST_UNIT_READY: byte := 0x00
  const SCSI_WRITE10: byte := 0x2A

  /** A 32-bit field as SCSI wants it, assembled with shifts. */
  function Be32(x: u32): (s: seq<byte>)
    ensures |s| == 4
  {
    [ByteOf(x, 3), ByteOf(x, 2), ByteOf(x, 1), ByteOf(x, 0)]
  }

  function Be16(x: u32): (s: seq<byte>)
    requires x < 0x1_0000
    ensures |s| == 2
  {
    [ByteOf(x, 1), ByteOf(x, 0)]
  }

  function FromBe32(s: seq<byte>): u32
    requires |s| == 4
  {
    0x100_0000 * (s[0] as int) + 0x1_0000 * (s[1] as int) + 0x100 * (s[2] as int) + (s[3] as int)
  }

  function FromBe16(s: seq<byte>): (x: u32)
    requires |s| == 2
    ensures x < 0x1_0000
  {
    0x100 * (s[0] as int) + (s[1] as int)
  }

  lemma BytesRoundTrip(x: u32)
    ensures FromLe32(Le32(x)) == x
    ensures FromBe32(Be32(x)) == x
    ensures x < 0x1_0000 ==> FromBe16(Be16(x)) == x
  {
    BytesMakeWord(x);
  }

  /** A command block wrapper around a 16-byte command block. */
  function Cbw(tag: u32, length: u32, flags: byte, cbLength: byte, cb: seq<byte>): (p: packet)
    requires |cb| == 16
    ensures |p| == CBW_LENGTH
  {
    Le32(CBW_SIGNATURE) + Le32(tag) + Le32(length) + [flags, 0, cbLength] + cb
  }

  function CbwSignature(p: seq<byte>): u32
    requires |p| >= CBW_LENGTH
  {
    FromLe32(p[0..4])
  }

  function CbwTag(p: seq<byte>): u32
    requires |p| >= CBW_LENGTH
  {
    FromLe32(p[4..8])
  }

  function CbwBlock(p: seq<byte>): (cb: seq<byte>)
    requires |p| >= CBW_LENGTH
    ensures |cb| == 16
  {
    p[15..31]
  }

  lemma CbwRoundTrip(tag: u32, length: u32, flags: byte, cbLength: byte, cb: seq<byte>)
    requires |cb| == 16
    ensures var p := Cbw(tag, length, flags, cbLength, cb);
            CbwSignature(p) == CBW_SIGNATURE && CbwTag(p) == tag && CbwBlock(p) == cb
  {
    var p := Cbw(tag, length, flags, cbLength, cb);
    BytesRoundTrip(CBW_SIGNATURE);
    BytesRoundTrip(tag);
    assert p[0..4] == Le32(CBW_SIGNATURE) && p[4..8] == Le32(tag) && p[15..31] == cb;
  }

  /** The bytes of a command wrapper on the wire (section 5.1): "USBC", tag, length, flags, unit 0, length
      of the command block, command block. */
  lemma CbwLayout(tag: u32, length: u32, flags: byte, cbLength: byte, cb: seq<byte>)
    requires |cb| == 16
    ensures var p := Cbw(tag, length, flags, cbLength, cb);
            && |p| == 31 && p[0..4] == [0x55, 0x53, 0x42, 0x43]
            && FromLe32(p[4..8]) == tag && FromLe32(p[8..12]) == length
            && p[12] == flags && p[13] == 0 && p[14] == cbLength && p[15..31] == cb
  {
    var p := Cbw(tag, length, flags, cbLength, cb);
    assert p[0..4] == Le32(CBW_SIGNATURE) && p[4..8] == Le32(tag) && p[8..12] == Le32(length) && p[15..31] == cb;
    BytesMakeWord(tag);
    BytesMakeWord(length);
  }

  /** A command status wrapper reporting success. */
  function Csw(tag: u32): (p: packet)
    ensures |p| == CSW_LENGTH
  {
    Le32(CSW_SIGNATURE) + Le32(tag) + Le32(0) + [0]
  }

  function CswSignature(p: packet): u32
    requires |p| == CSW_LENGTH
  {
    FromLe32(p[0..4])
  }

  function CswTag(p: packet): u32
    requires |p| == CSW_LENGTH
  {
    FromLe32(p[4..8])
  }

  function CswStatus(p: packet): byte
    requires |p| == CSW_LENGTH
  {
    p[12]
  }

  lemma CswRoundTrip(tag: u32)
    ensures CswSignature(Csw(tag)) == CSW_SIGNATURE && CswTag(Csw(tag)) == tag && CswStatus(Csw(tag)) == 0
  {
    BytesRoundTrip(CSW_SIGNATURE);
    BytesRoundTrip(tag);
    assert Csw(tag)[0..4] == Le32(CSW_SIGNATURE) && Csw(tag)[4..8] == Le32(tag);
  }

  /** The bytes of a status wrapper on the wire (section 5.2): "USBS", tag, no residue, good status. */
  lemma CswLayout(tag: u32)
    ensures var p := Csw(tag);
            && |p| == 13 && p[0..4] == [0x55, 0x53, 0x42, 0x53]
            && FromLe32(p[4..8]) == tag && p[8..13] == [0, 0, 0, 0, 0]
  {
    var p := Csw(tag);
    assert p[0..4] == Le32(CSW_SIGNATURE) && p[4..8] == Le32(tag) && p[8..12] == Le32(0);
    BytesMakeWord(tag);
  }

  /** READ(10) and WRITE(10) keep the block address in bytes 2 to 5 and the count in bytes 7 and 8. */
  function BlockAddress(cb: seq<byte>): u32
    requires |cb| == 16
  {
    FromBe32(cb[2..6])
  }

  function BlockCount(cb: seq<byte>): u32
    requires |cb| == 16
  {
    FromBe16(cb[7..9])
  }

  /** The READ(10) command block the host builds. */
  function Read10Block(address: u32, count: u32): (cb: seq<byte>)
    requires count < 0x1_0000
    ensures |cb| == 16
  {
    [SCSI_READ10, 0] + Be32(address) + [0] + Be16(count) + [0, 0, 0, 0, 0, 0, 0]
  }

  lemma Read10RoundTrip(address: u32, count: u32)
    requires count < 0x1_0000
    ensures var cb := Read10Block(address, count);
            cb[0] == SCSI_READ10 && BlockAddress(cb) == address && BlockCount(cb) == count
  {
    var cb := Read10Block(address, count);
    BytesRoundTrip(address);
    BytesRoundTrip(count);
    assert cb[2..6] == Be32(address) && cb[7..9] == Be16(count);
  }

  // ----- packets

  /** The n full packets found in s from offset at on. */
  function Chunks(s: seq<byte>, at: nat, n: nat): (r: seq<packet>)
    requires at + PACKET_SIZE * n <= |s|
    ensures |r| == n
    decreases n
  {
    if n == 0 then [] else [s[at..at + PACKET_SIZE]] + Chunks(s, at + PACKET_SIZE, n - 1)
  }

  function Flatten(ps: seq<packet>): seq<byte> {
    if ps == [] then [] else ps[0] + Flatten(ps[1..])
  }

  lemma {:induction false} FlattenConcat(ps: seq<packet>, qs: seq<packet>)
    ensures Flatten(ps + qs) == Flatten(ps) + Flatten(qs)
  {
    if ps == [] {
      assert ps + qs == qs;
    } else {
      assert (ps + qs)[1..] == ps[1..] + qs;
      FlattenConcat(ps[1..], qs);
    }
  }

  lemma {:induction false} FlattenChunks(s: seq<byte>, at: nat, n: nat)
    requires at + PACKET_SIZE * n <= |s|
    ensures Flatten(Chunks(s, at, n)) == s[at..at + PACKET_SIZE * n]
    decreases n
  {
    if n > 0 {
      var r := Chunks(s, at, n);
      FlattenChunks(s, at + PACKET_SIZE, n - 1);
      assert r[1..] == Chunks(s, at + PACKET_SIZE, n - 1);
      assert s[at..at + PACKET_SIZE] + s[at + PACKET_SIZE..at + PACKET_SIZE * n] == s[at..at + PACKET_SIZE * n];
    }
  }

  /** Packets depend only on the bytes they cover. */
  lemma {:induction false} ChunksLocal(s: seq<byte>, t: seq<byte>, at: nat, n: nat)
    requires at + PACKET_SIZE * n <= |s| && |s| == |t| && s[at..at + PACKET_SIZE * n] == t[at..at + PACKET_SIZE * n]
    ensures Chunks(s, at, n) == Chunks(t, at, n)
    decreases n
  {
    if n > 0 {
      var (a, b) := (s[at..at + PACKET_SIZE * n], t[at..at + PACKET_SIZE * n]);
      assert s[at..at + PACKET_SIZE] == a[..PACKET_SIZE] && t[at..at + PACKET_SIZE] == b[..PACKET_SIZE];
      assert s[at + PACKET_SIZE..at + PACKET_SIZE * n] == a[PACKET_SIZE..];
      assert t[at + PACKET_SIZE..at + PACKET_SIZE * n] == b[PACKET_SIZE..];
      ChunksLocal(s, t, at + PACKET_SIZE, n - 1);
    }
  }
}
