/**
 The datagrams of internal/bcudp/packet.go: discovery, data and ack packets, the discovery
 cipher and its checksum.
 */
module UdpPacket {
  import opened Bytes
  import opened Wrappers
  import opened Bits

  const MAGIC_DISCOVERY: u32 := 0x2a87cf3a
  const MAGIC_DATA: u32 := 0x2a87cf10
  const MAGIC_ACK: u32 := 0x2a87cf20

  const DISCOVERY_HEADER := 20
  const DATA_HEADER := 20
  const ACK_HEADER := 28

  /** The id an ack names when nothing has been received yet. */
  const NONE: u32 := 0xffffffff

  const MAX_PACKET := 1350
  const MAX_PAYLOAD := MAX_PACKET - DATA_HEADER

  datatype DataPacket = DataPacket(conn: u32, id: u32, payload: bytes)

  datatype AckPacket = AckPacket(conn: u32, group: u32, last: u32, have: bytes)

  datatype Discovery = Discovery(tid: u32, body: bytes)

  function MagicOf(b: bytes): u32 {
    if |b| < 4 then 0 else U32(b, 0)
  }

  /** Writes the next header word of a zeroed buffer that so far holds done. */
  method PutNext(b: array<byte>, off: nat, ghost done: bytes, v: u32) returns (ghost now: bytes)
    requires off == |done| && off + 4 <= b.Length && b[..] == done + Zeros(b.Length - off)
    modifies b
    ensures now == (if done == [] then Put32(v) else done + Put32(v)) && b[..] == now + Zeros(b.Length - |now|)
  {
    PutUint32(b, off, v);
    now := if done == [] then Put32(v) else done + Put32(v);
  }

  /** Leaves the next header word zero. */
  ghost method LeaveZero(b: array<byte>, done: bytes) returns (now: bytes)
    requires 0 < |done| && |done| + 4 <= b.Length && b[..] == done + Zeros(b.Length - |done|)
    ensures now == done + Put32(0) && b[..] == now + Zeros(b.Length - |now|)
  {
    now := done + Put32(0);
  }

  // Data packets

  function EncodeData(conn: u32, id: u32, payload: bytes): bytes {
    Put32(MAGIC_DATA) + Put32(conn) + Put32(0) + Put32(id) + Put32(Wrap32(|payload|)) + payload
  }

  function DecodeData(b: bytes): Option<DataPacket> {
    if |b| < DATA_HEADER then None else
    var size := U32(b, 16);
    if size > |b| - DATA_HEADER then None else
    Some(DataPacket(U32(b, 4), U32(b, 12), b[DATA_HEADER..DATA_HEADER + size]))
  }

  /** Where the words of a header and what follows it are found. */
  lemma Words(a: bytes, b: bytes, c: bytes, d: bytes, e: bytes, rest: bytes)
    requires |a| == |b| == |c| == |d| == |e| == 4
    ensures var all := a + b + c + d + e + rest;
            && all[0..4] == a && all[4..8] == b && all[8..12] == c && all[12..16] == d && all[16..20] == e
            && all[20..20 + |rest|] == rest
  {
    var front := a + b + c + d;
    assert a + b + c + d + e + rest == front + (e + rest);
  }

  /** Decoding inverts encoding, for every payload a uint32 can count. */
  lemma {:induction false} DataRoundTrip(conn: u32, id: u32, payload: bytes)
    requires |payload| < 0x1_0000_0000
    ensures MagicOf(EncodeData(conn, id, payload)) == MAGIC_DATA
    ensures DecodeData(EncodeData(conn, id, payload)) == Some(DataPacket(conn, id, payload))
  {
    hide Put32, U32, EncodeData;
    var b := EncodeData(conn, id, payload);
    DataWords(conn, id, payload);
    assert b[20..20 + |payload|] == b[20..][..|payload|] == payload;
  }

  method WriteData(conn: u32, id: u32, payload: bytes) returns (b: array<byte>)
    ensures fresh(b) && b[..] == EncodeData(conn, id, payload)
  {
    b := new byte[DATA_HEADER + |payload|](i => 0);
    ghost var d := PutNext(b, 0, [], MAGIC_DATA);
    d := PutNext(b, 4, d, conn);
    d := LeaveZero(b, d);
    d := PutNext(b, 12, d, id);
    d := PutNext(b, 16, d, Wrap32(|payload|));
    CopyInto(b, DATA_HEADER, payload);
  }

  // Ack packets

  function AckHeader(a: AckPacket): bytes {
    Put32(MAGIC_ACK) + Put32(a.conn) + Put32(0) + Put32(a.group) + Put32(a.last) + Put32(0) + Put32(Wrap32(|a.have|))
  }

  function EncodeAck(a: AckPacket): bytes { AckHeader(a) + a.have }

  function DecodeAck(b: bytes): Option<AckPacket> {
    if |b| < ACK_HEADER then None else
    var size := U32(b, 24);
    if size > |b| - ACK_HEADER then None else
    Some(AckPacket(U32(b, 4), U32(b, 12), U32(b, 16), b[ACK_HEADER..ACK_HEADER + size]))
  }

  lemma {:induction false} AckWords(a: AckPacket)
    ensures var h := AckHeader(a);
            && U32(h, 0) == MAGIC_ACK && U32(h, 4) == a.conn && U32(h, 12) == a.group
            && U32(h, 16) == a.last && U32(h, 24) == Wrap32(|a.have|)
  {
    var h := AckHeader(a);
    assert h[0..4] == Put32(MAGIC_ACK) && h[4..8] == Put32(a.conn);
    assert h[12..16] == Put32(a.group) && h[16..20] == Put32(a.last);
    assert h[24..28] == Put32(Wrap32(|a.have|));
    ReadBack32(h, 0, MAGIC_ACK);
    ReadBack32(h, 4, a.conn);
    ReadBack32(h, 12, a.group);
    ReadBack32(h, 16, a.last);
    ReadBack32(h, 24, Wrap32(|a.have|));
  }

  lemma {:induction false} AckRoundTrip(a: AckPacket)
    requires |a.have| < 0x1_0000_0000
    ensures MagicOf(EncodeAck(a)) == MAGIC_ACK
    ensures DecodeAck(EncodeAck(a)) == Some(a)
  {
    AckWords(a);
    var b := EncodeAck(a);
    var h := AckHeader(a);
    assert forall i :: 0 <= i < 28 ==> b[i] == h[i];
    assert b[28..28 + |a.have|] == a.have;
  }

  method WriteAck(a: AckPacket) returns (b: array<byte>)
    ensures fresh(b) && b[..] == EncodeAck(a)
  {
    b := new byte[ACK_HEADER + |a.have|](i => 0);
    ghost var d := PutNext(b, 0, [], MAGIC_ACK);
    d := PutNext(b, 4, d, a.conn);
    d := LeaveZero(b, d);
    d := PutNext(b, 12, d, a.group);
    d := PutNext(b, 16, d, a.last);
    d := LeaveZero(b, d);
    d := PutNext(b, 24, d, Wrap32(|a.have|));
    CopyInto(b, ACK_HEADER, a.have);
  }

  // Discovery packets

  const CIPHER_TABLE: seq<u32> := [
    0x1f2d3c4b, 0x5a6c7f8d, 0x38172e4b, 0x8271635a, 0x863f1a2b, 0xa5c6f7d8, 0x8371e1b4, 0x17f2d3a5]

  /** The first k words of the keystream for tid: the table's words plus tid, little endian. */
  function KeyBytes(tid: u32, k: nat): (r: bytes)
    requires k <= 8
    ensures |r| == 4 * k
    decreases k, tid
  {
    if k == 0 then [] else KeyBytes(tid, k - 1) + Put32(Wrap32(CIPHER_TABLE[k - 1] + tid))
  }

  function Crypt(tid: u32, b: bytes): (r: bytes)
    ensures |r| == |b|
  {
    XorCycle(b, KeyBytes(tid, 8))
  }

  function XorCycle(b: bytes, key: bytes): (r: bytes)
    requires |key| == 32
    ensures |r| == |b|
  {
    seq(|b|, i requires 0 <= i < |b| => Xor(b[i], key[i % 32]))
  }

  /** The cipher is its own inverse, under every tid. */
  lemma {:induction false} CryptInvolution(tid: u32, b: bytes)
    ensures Crypt(tid, Crypt(tid, b)) == b
  {
    var key := KeyBytes(tid, 8);
    forall i | 0 <= i < |b|
      ensures XorCycle(XorCycle(b, key), key)[i] == b[i]
    {
      XorCancel(b[i], key[i % 32]);
    }
  }

  lemma {:induction false} KeyByteAt(tid: u32, k: nat, j: nat)
    requires j < 4 * k && k <= 8
    ensures KeyBytes(tid, k)[j] == Put32(Wrap32(CIPHER_TABLE[j / 4] + tid))[j % 4]
    decreases k
  {
    hide Put32;
    var last := Put32(Wrap32(CIPHER_TABLE[k - 1] + tid));
    Word32Length(Wrap32(CIPHER_TABLE[k - 1] + tid));
    if j < 4 * (k - 1) {
      KeyByteAt(tid, k - 1, j);
    } else {
      assert (KeyBytes(tid, k - 1) + last)[j] == last[j - 4 * (k - 1)];
    }
  }

  lemma Word32Length(v: u32)
    ensures |Put32(v)| == 4
  {
  }

  /** Each byte meets its byte of the table's words plus tid, cycling after eight words. */
  lemma CryptAt(tid: u32, b: bytes, i: nat)
    requires i < |b|
    ensures Crypt(tid, b)[i] == Xor(b[i], Put32(Wrap32(CIPHER_TABLE[i / 4 % 8] + tid))[i % 4])
  {
    hide Put32, Xor, KeyBytes;
    Cycle(i);
    KeyByteAt(tid, 8, i % 32);
  }

  lemma Cycle(i: nat)
    ensures i % 32 / 4 == i / 4 % 8 && i % 32 % 4 == i % 4
  {
  }

  method KeyStream(tid: u32) returns (key: array<byte>)
    ensures fresh(key) && key[..] == KeyBytes(tid, 8)
  {
    key := new byte[32](i => 0);
    var w := 0;
    while w < 8
      invariant 0 <= w <= 8
      invariant key[..4 * w] == KeyBytes(tid, w)
    {
      PutUint32(key, w * 4, Wrap32(CIPHER_TABLE[w] + tid));
      w := w + 1;
    }
    assert key[..] == key[..32];
  }

  method XorInto(b: bytes, key: bytes) returns (out: array<byte>)
    requires |key| == 32
    ensures fresh(out) && out[..] == XorCycle(b, key)
  {
    out := new byte[|b|](i => 0);
    var i := 0;
    while i < |b|
      invariant 0 <= i <= |b|
      invariant forall j :: 0 <= j < i ==> out[j] == Xor(b[j], key[j % 32])
    {
      out[i] := Xor(b[i], key[i % 32]);
      i := i + 1;
    }
  }

  method CryptInto(tid: u32, b: bytes) returns (out: array<byte>)
    ensures fresh(out) && out[..] == Crypt(tid, b)
  {
    var key := KeyStream(tid);
    out := XorInto(b, key[..]);
  }

  function FrameDiscovery(tid: u32, sum: u32, enc: bytes): bytes {
    Put32(MAGIC_DISCOVERY) + Put32(Wrap32(|enc|)) + Put32(1) + Put32(tid) + Put32(sum) + enc
  }

  function EncodeDiscovery(tid: u32, body: bytes): bytes {
    var enc := Crypt(tid, body);
    FrameDiscovery(tid, Checksum(enc), enc)
  }

  function DecodeDiscovery(b: bytes): Option<Discovery> {
    if |b| < DISCOVERY_HEADER || U32(b, 0) != MAGIC_DISCOVERY then None else
    var size := U32(b, 4);
    if size > |b| - DISCOVERY_HEADER then None else
    var tid := U32(b, 12);
    var enc := b[DISCOVERY_HEADER..DISCOVERY_HEADER + size];
    if Checksum(enc) != U32(b, 16) then None else Some(Discovery(tid, Crypt(tid, enc)))
  }

  /** A framed packet decodes exactly when the checksum in its header is its body's. */
  lemma {:induction false} DecodeFramed(tid: u32, sum: u32, enc: bytes)
    requires |enc| < 0x1_0000_0000
    ensures MagicOf(FrameDiscovery(tid, sum, enc)) == MAGIC_DISCOVERY
    ensures DecodeDiscovery(FrameDiscovery(tid, sum, enc))
         == if Checksum(enc) == sum then Some(Discovery(tid, Crypt(tid, enc))) else None
  {
    var b := FrameDiscovery(tid, sum, enc);
    assert b[0..4] == Put32(MAGIC_DISCOVERY);
    assert b[4..8] == Put32(|enc|);
    assert b[12..16] == Put32(tid);
    assert b[16..20] == Put32(sum);
    assert b[20..20 + |enc|] == enc;
    ReadBack32(b, 0, MAGIC_DISCOVERY);
    ReadBack32(b, 4, |enc|);
    ReadBack32(b, 12, tid);
    ReadBack32(b, 16, sum);
  }

  lemma {:induction false} DiscoveryRoundTrip(tid: u32, body: bytes)
    requires |body| < 0x1_0000_0000
    ensures MagicOf(EncodeDiscovery(tid, body)) == MAGIC_DISCOVERY
    ensures DecodeDiscovery(EncodeDiscovery(tid, body)) == Some(Discovery(tid, body))
  {
    var enc := Crypt(tid, body);
    DecodeFramed(tid, Checksum(enc), enc);
    CryptInvolution(tid, body);
  }

  /**
   A discovery packet whose encrypted body was damaged within four consecutive bytes, its
   header intact, is refused; damage to one byte is the case |m| == 1.
   */
  lemma {:induction false} DamagedDiscoveryRefused(tid: u32, body: bytes, pre: bytes, m: bytes, n: bytes, post: bytes)
    requires |body| < 0x1_0000_0000
    requires Crypt(tid, body) == pre + m + post
    requires |m| == |n| <= 4 && m != n
    ensures var sent, header := EncodeDiscovery(tid, body), EncodeDiscovery(tid, body)[..DISCOVERY_HEADER];
            && sent == header + (pre + m + post)
            && DecodeDiscovery(header + (pre + n + post)) == None
  {
    var enc := pre + n + post;
    var sum := Checksum(pre + m + post);
    ChecksumDetectsBurst(pre, m, n, post);
    DecodeFramed(tid, sum, enc);
    FrameHeader(tid, sum, pre + m + post, enc);
  }

  lemma {:induction false} FrameHeader(tid: u32, sum: u32, enc: bytes, other: bytes)
    requires |enc| == |other|
    ensures FrameDiscovery(tid, sum, enc)[..DISCOVERY_HEADER] + enc == FrameDiscovery(tid, sum, enc)
    ensures FrameDiscovery(tid, sum, enc)[..DISCOVERY_HEADER] + other == FrameDiscovery(tid, sum, other)
  {
  }

  /** What stands in the words of a discovery packet's header. */
  lemma DiscoveryWords(tid: u32, sum: u32, enc: bytes)
    requires |enc| < 0x1_0000_0000
    ensures var f := FrameDiscovery(tid, sum, enc);
            && |f| == 20 + |enc| && U32(f, 0) == 0x2a87cf3a && U32(f, 4) == |enc| && U32(f, 8) == 1
            && U32(f, 12) == tid && U32(f, 16) == sum && f[20..] == enc
  {
    hide Put32, U32;
    Word32(MAGIC_DISCOVERY);
    Word32Length(MAGIC_DISCOVERY);
    FrameWords(Put32(MAGIC_DISCOVERY), |enc|, 1, tid, sum, enc);
  }

  /** And of a data packet's. */
  lemma DataWords(conn: u32, id: u32, payload: bytes)
    requires |payload| < 0x1_0000_0000
    ensures var d := EncodeData(conn, id, payload);
            && |d| == 20 + |payload| && U32(d, 0) == 0x2a87cf10 && U32(d, 4) == conn && U32(d, 8) == 0
            && U32(d, 12) == id && U32(d, 16) == |payload| && d[20..] == payload
  {
    hide Put32, U32;
    Word32(MAGIC_DATA);
    Word32Length(MAGIC_DATA);
    FrameWords(Put32(MAGIC_DATA), conn, 0, id, |payload|, payload);
  }

  lemma FrameWords(magic: bytes, w1: u32, w2: u32, w3: u32, w4: u32, rest: bytes)
    requires |magic| == 4
    ensures var b := magic + Put32(w1) + Put32(w2) + Put32(w3) + Put32(w4) + rest;
            && |b| == 20 + |rest| && U32(b, 0) == U32(magic, 0) && U32(b, 4) == w1 && U32(b, 8) == w2
            && U32(b, 12) == w3 && U32(b, 16) == w4 && b[20..] == rest
  {
    Word32Length(w1);
    Word32Length(w2);
    Word32Length(w3);
    Word32Length(w4);
    hide Put32;
    var b := magic + Put32(w1) + Put32(w2) + Put32(w3) + Put32(w4) + rest;
    Words(magic, Put32(w1), Put32(w2), Put32(w3), Put32(w4), rest);
    assert b[0] == magic[0] && b[1] == magic[1] && b[2] == magic[2] && b[3] == magic[3];
    ReadBack32(b, 4, w1);
    ReadBack32(b, 8, w2);
    ReadBack32(b, 12, w3);
    ReadBack32(b, 16, w4);
  }

  /** And of an ack's, before the bytes for what lies past the gap. */
  lemma AckPacketWords(a: AckPacket)
    requires |a.have| < 0x1_0000_0000
    ensures var b := EncodeAck(a);
            && |b| == 28 + |a.have| && U32(b, 0) == 0x2a87cf20 && U32(b, 4) == a.conn && U32(b, 8) == 0
            && U32(b, 12) == a.group && U32(b, 16) == a.last && U32(b, 20) == 0 && U32(b, 24) == |a.have|
            && b[28..] == a.have
  {
    hide U32;
    hide Put32;
    var b, front := EncodeAck(a), Put32(MAGIC_ACK) + Put32(a.conn) + Put32(0) + Put32(a.group) + Put32(a.last);
    Regroup(front, Put32(0), Put32(|a.have|), a.have);
    Word32(MAGIC_ACK);
    Word32Length(MAGIC_ACK);
    Word32Length(0);
    Word32Length(|a.have|);
    FrameWords(Put32(MAGIC_ACK), a.conn, 0, a.group, a.last, Put32(0) + Put32(|a.have|) + a.have);
    TailWords(b, 0, |a.have|, a.have);
  }

  lemma Regroup(a: bytes, b: bytes, c: bytes, d: bytes)
    ensures a + b + c + d == a + (b + c + d)
  {
  }

  lemma TailWords(b: bytes, v: u32, w: u32, rest: bytes)
    requires |b| >= 20 && b[20..] == Put32(v) + Put32(w) + rest
    ensures |b| == 28 + |rest| && U32(b, 20) == v && U32(b, 24) == w && b[28..] == rest
  {
    Word32Length(v);
    Word32Length(w);
    hide Put32;
    assert b[20..24] == b[20..][..4] && b[24..28] == b[20..][4..8] && b[28..] == b[20..][8..];
    ReadBack32(b, 20, v);
    ReadBack32(b, 24, w);
  }

  method WriteFrame(tid: u32, sum: u32, enc: bytes) returns (b: array<byte>)
    ensures fresh(b) && b[..] == FrameDiscovery(tid, sum, enc)
  {
    b := new byte[DISCOVERY_HEADER + |enc|](i => 0);
    ghost var d := PutNext(b, 0, [], MAGIC_DISCOVERY);
    d := PutNext(b, 4, d, Wrap32(|enc|));
    d := PutNext(b, 8, d, 1);
    d := PutNext(b, 12, d, tid);
    d := PutNext(b, 16, d, sum);
    CopyInto(b, DISCOVERY_HEADER, enc);
  }

  method WriteDiscovery(tid: u32, body: bytes) returns (b: array<byte>)
    ensures fresh(b) && b[..] == EncodeDiscovery(tid, body)
  {
    var enc := CryptInto(tid, body);
    b := WriteFrame(tid, Checksum(enc[..]), enc[..]);
  }
}
