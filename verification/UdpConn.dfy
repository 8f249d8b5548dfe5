/**
 One UDP session with a battery camera, as internal/bcudp/conn.go keeps it: the state under
 its mutex, each critical section as a function of that state, and the class whose methods
 update the fields in place. Packet ids wrap at 2^32 here; UdpStream has the same machine
 over unbounded ids and UdpRefinement relates the two.
 */
module UdpConn {
  import opened Bytes
  import opened Wrappers
  import opened Bits
  import opened UdpPacket

  /** How far past a gap packets are kept. */
  const MAX_AHEAD := 4096

  /** Milliseconds. */
  const RESEND_EVERY := 500
  const SILENCE_LIMIT := 30_000
  const HEARTBEAT_EVERY := 1000

  datatype Err = NoErr | EndOfFile | CameraSilent | ConnClosed | SocketFailed

  datatype OutPacket = OutPacket(b: bytes, sent: int)

  /** What the XML of a discovery packet says, as far as handle looks at it. */
  datatype P2P = Unparsed | Disconnect(cid: u32, did: u32) | OtherMessage

  datatype State = State(
    cid: u32, did: u32,
    nextID: u32, unacked: map<u32, OutPacket>,
    expected: u32, gotAny: bool, ahead: map<u32, bytes>, buf: bytes,
    err: Err, closed: bool, lastHeard: int)

  /** uint32 subtraction. */
  function Sub(a: u32, b: u32): u32 { Wrap32(a - b) }

  /** int32(a - b) < 0: the serial-number order of section 3.2 of RFC 1982. */
  predicate Before(a: u32, b: u32) { Sub(a, b) >= 0x8000_0000 }

  /** Every packet kept past the gap lies strictly inside the window after expected. */
  predicate InWindow(ahead: map<u32, bytes>, expected: u32) {
    forall id :: id in ahead ==> 0 < Sub(id, expected) < MAX_AHEAD
  }

  function AfterFail(s: State, e: Err): State {
    if s.err == NoErr then s.(err := e) else s
  }

  // Receiving data

  /** Appends the next packet, kept since it came early. */
  function TakeNext(s: State): State
    requires s.expected in s.ahead
  {
    s.(ahead := s.ahead - {s.expected}, buf := s.buf + s.ahead[s.expected], expected := Wrap32(s.expected + 1))
  }

  /** Appends the packets that follow on from expected. */
  function Drain(s: State): State
    decreases |s.ahead|
  {
    if s.expected !in s.ahead then s else Drain(TakeNext(s))
  }

  function AfterData(s: State, id: u32, payload: bytes): State {
    if Before(id, s.expected) then s
    else if id == s.expected then Drain(s.(buf := s.buf + payload, expected := Wrap32(s.expected + 1)))
    else if Sub(id, s.expected) < MAX_AHEAD && id !in s.ahead then s.(ahead := s.ahead[id := payload])
    else s
  }

  // Receiving acks

  /** The ack says id has arrived: it lies before a.last + 1 or its have byte is 1. */
  predicate Acked(id: u32, a: AckPacket) {
    var base := Wrap32(a.last + 1);
    Before(id, base) || (Sub(id, base) < |a.have| && a.have[Sub(id, base)] == 1)
  }

  function AfterAck(s: State, a: AckPacket): State {
    s.(unacked := map id | id in s.unacked && !Acked(id, a) :: s.unacked[id])
  }

  // Receiving control messages

  function Meaning(b: bytes, parse: bytes -> P2P): P2P {
    match DecodeDiscovery(b)
    case None => Unparsed
    case Some(d) => parse(d.body)
  }

  function AfterControl(s: State, meaning: P2P, now: int): State {
    match meaning
    case Unparsed => s
    case OtherMessage => s.(lastHeard := now)
    case Disconnect(cid, did) =>
      var heard := s.(lastHeard := now);
      if cid == s.cid || did == s.did then AfterFail(heard, EndOfFile) else heard
  }

  /** A packet addressed to another connection, or cut short, is ignored altogether. */
  function OnDataPacket(s: State, p: Option<DataPacket>, now: int): State {
    if p.Some? && p.value.conn == s.cid
    then AfterData(s.(lastHeard := now, gotAny := true), p.value.id, p.value.payload)
    else s
  }

  function OnAckPacket(s: State, a: Option<AckPacket>, now: int): State {
    if a.Some? && a.value.conn == s.cid then AfterAck(s.(lastHeard := now), a.value) else s
  }

  /** One datagram. */
  function AfterHandle(s: State, b: bytes, now: int, parse: bytes -> P2P): State {
    var magic := MagicOf(b);
    if magic == MAGIC_DATA then OnDataPacket(s, DecodeData(b), now)
    else if magic == MAGIC_ACK then OnAckPacket(s, DecodeAck(b), now)
    else if magic == MAGIC_DISCOVERY then AfterControl(s, Meaning(b, parse), now)
    else s
  }

  /**
   By its words a datagram is nothing for the connection with that id: too short, carrying another id,
   counting more bytes than follow, damaged, or none of the three kinds.
   */
  predicate Stray(cid: u32, b: bytes) {
    var magic := MagicOf(b);
    if magic == MAGIC_DATA then |b| < 20 || U32(b, 4) != cid || U32(b, 16) > |b| - 20
    else if magic == MAGIC_ACK then |b| < 28 || U32(b, 4) != cid || U32(b, 24) > |b| - 28
    else if magic == MAGIC_DISCOVERY then
      |b| < 20 || U32(b, 4) > |b| - 20 || Checksum(b[20..20 + U32(b, 4)]) != U32(b, 16)
    else true
  }

  /** A discovery packet that came through, but says nothing the parser understands. */
  predicate Unreadable(b: bytes, parse: bytes -> P2P) {
    MagicOf(b) == MAGIC_DISCOVERY && |b| >= 20 && U32(b, 4) <= |b| - 20
    && parse(Crypt(U32(b, 12), b[20..20 + U32(b, 4)])).Unparsed?
  }

  /** Stray datagrams change nothing, whatever the state, and all others are heard. */
  lemma {:induction false} IgnoredIff(s: State, b: bytes, now: int, parse: bytes -> P2P)
    ensures Stray(s.cid, b) || Unreadable(b, parse) ==> AfterHandle(s, b, now, parse) == s
    ensures !Stray(s.cid, b) && !Unreadable(b, parse) ==> AfterHandle(s, b, now, parse).lastHeard == now
  {
    hide U32, Crypt, Checksum, Sub, Wrap32, Drain;
    var heard := s.(lastHeard := now, gotAny := true);
    if MagicOf(b) == MAGIC_DATA && !Stray(s.cid, b) {
      DrainKeepsHeard(heard.(buf := s.buf + DecodeData(b).value.payload, expected := Wrap32(s.expected + 1)));
    }
  }

  lemma {:induction false} DrainKeepsHeard(s: State)
    ensures Drain(s).lastHeard == s.lastHeard
    decreases |s.ahead|
  {
    if s.expected in s.ahead {
      DrainKeepsHeard(TakeNext(s));
    }
  }

  // Sending acks and resending

  /** The farthest offset after expected, at most k, at which a packet is held; 0 if none is. */
  function Top(ahead: map<u32, bytes>, expected: u32, k: nat): (top: nat)
    ensures top <= k
  {
    if k == 0 then 0 else if Wrap32(expected + k) in ahead then k else Top(ahead, expected, k - 1)
  }

  function HaveByte(ahead: map<u32, bytes>, expected: u32, i: nat): byte {
    if Wrap32(expected + i) in ahead then 1 else 0
  }

  function AckOf(s: State): AckPacket {
    AckPacket(s.did, if s.gotAny then 0 else NONE, Sub(s.expected, 1),
              if s.ahead == map[] then []
              else seq(Top(s.ahead, s.expected, MAX_AHEAD - 1) + 1,
                       i requires 0 <= i => HaveByte(s.ahead, s.expected, i)))
  }

  predicate Due(p: OutPacket, now: int) { now - p.sent >= RESEND_EVERY }

  /** order lists the packets due for resending, each once: Go ranges over the map in any order. */
  ghost predicate IsDueOrder(unacked: map<u32, OutPacket>, now: int, order: seq<u32>) {
    && (forall i, j :: 0 <= i < j < |order| ==> order[i] != order[j])
    && (forall id :: id in order <==> id in unacked && Due(unacked[id], now))
  }

  function Restamped(unacked: map<u32, OutPacket>, now: int): map<u32, OutPacket> {
    map id | id in unacked :: if Due(unacked[id], now) then OutPacket(unacked[id].b, now) else unacked[id]
  }

  /** One tick of timerLoop: an ack, then every due packet again. */
  function AfterTick(s: State, now: int): State {
    if s.err != NoErr then s else
    var resent := s.(unacked := Restamped(s.unacked, now));
    if now - s.lastHeard > SILENCE_LIMIT then AfterFail(resent, CameraSilent) else resent
  }

  function Datagrams(unacked: map<u32, OutPacket>, order: seq<u32>): seq<bytes>
    requires forall id :: id in order ==> id in unacked
  {
    seq(|order|, i requires 0 <= i < |order| => unacked[order[i]].b)
  }

  function TickOutput(s: State, order: seq<u32>): seq<bytes>
    requires forall id :: id in order ==> id in s.unacked
  {
    if s.err != NoErr then [] else [EncodeAck(AckOf(s))] + Datagrams(s.unacked, order)
  }

  // Write, Read and Close

  /** What one Write leaves: the state, the datagrams that reached the socket, the count returned. */
  datatype Written = Written(s: State, out: seq<bytes>, n: nat, err: Err)

  function Queue(s: State, payload: bytes, now: int): State {
    s.(unacked := s.unacked[s.nextID := OutPacket(EncodeData(s.did, s.nextID, payload), now)],
       nextID := Wrap32(s.nextID + 1))
  }

  /** The loop of Write from off on; the socket takes the next ok datagrams and then fails. */
  function WriteFrom(s: State, b: bytes, off: nat, ok: nat, now: int): Written
    decreases |b| - off
  {
    if off >= |b| then Written(s, [], |b|, NoErr) else
    var payload := b[off..Min(off + MAX_PAYLOAD, |b|)];
    var queued := Queue(s, payload, now);
    if ok == 0 then Written(queued, [], off, SocketFailed) else
    var rest := WriteFrom(queued, b, off + MAX_PAYLOAD, ok - 1, now);
    rest.(out := [EncodeData(s.did, s.nextID, payload)] + rest.out)
  }

  function AfterWrite(s: State, b: bytes, ok: nat, now: int): Written {
    if s.closed then Written(s, [], 0, ConnClosed)
    else if s.err != NoErr && s.err != EndOfFile then Written(s, [], 0, s.err)
    else WriteFrom(s, b, 0, ok, now)
  }

  /** The part of b that Write queues: the chunks the socket took and the one it refused. */
  function Queued(s: State, b: bytes, ok: nat): bytes {
    if s.closed || (s.err != NoErr && s.err != EndOfFile) then [] else b[..Min((ok + 1) * MAX_PAYLOAD, |b|)]
  }

  datatype ReadResult = Data(b: bytes) | Failed(err: Err) | Blocked

  /** One pass of Read's loop into a buffer of n bytes. */
  function ReadResultOf(s: State, n: nat): ReadResult {
    if s.buf != [] && !s.closed then Data(s.buf[..Min(n, |s.buf|)])
    else if s.err != NoErr then Failed(s.err)
    else Blocked
  }

  function AfterRead(s: State, n: nat): State {
    if s.buf != [] && !s.closed then s.(buf := s.buf[Min(n, |s.buf|)..]) else s
  }

  function AfterClose(s: State): State {
    AfterFail(s.(closed := true), ConnClosed)
  }

  // What the window is worth

  /** Counting up from expected reaches every other id at its offset. */
  lemma OffsetOf(expected: u32, i: nat)
    requires i < 0x1_0000_0000
    ensures Sub(Wrap32(expected + i), expected) == i
  {
  }

  lemma IdAt(id: u32, expected: u32)
    ensures Wrap32(expected + Sub(id, expected)) == id
  {
  }

  lemma {:induction false} TopIs(ahead: map<u32, bytes>, expected: u32, k: nat, id: u32)
    requires id in ahead && Sub(id, expected) <= k < 0x1_0000_0000
    requires forall other :: other in ahead ==> Sub(other, expected) <= Sub(id, expected)
    ensures Top(ahead, expected, k) == Sub(id, expected)
  {
    IdAt(id, expected);
    if k > Sub(id, expected) {
      OffsetOf(expected, k);
      TopIs(ahead, expected, k - 1, id);
    }
  }

  /** The window before expected itself has been taken out of ahead. */
  predicate Near(ahead: map<u32, bytes>, expected: u32) {
    forall id :: id in ahead ==> Sub(id, expected) < MAX_AHEAD
  }

  lemma OneCloser(id: u32, expected: u32)
    requires id != expected
    ensures 0 < Sub(id, expected) && Sub(id, Wrap32(expected + 1)) == Sub(id, expected) - 1
  {
    IdAt(id, expected);
  }

  /** Moving expected on by one brings every other kept packet one nearer. */
  lemma StepCloser(ahead: map<u32, bytes>, expected: u32)
    requires Near(ahead, expected)
    ensures Near(ahead - {expected}, Wrap32(expected + 1))
  {
    forall id | id in ahead - {expected}
      ensures Sub(id, Wrap32(expected + 1)) < MAX_AHEAD
    {
      OneCloser(id, expected);
    }
  }

  lemma {:induction false} DrainKeepsWindow(s: State)
    requires Near(s.ahead, s.expected)
    ensures InWindow(Drain(s).ahead, Drain(s).expected)
    decreases |s.ahead|
  {
    if s.expected in s.ahead {
      StepCloser(s.ahead, s.expected);
      DrainKeepsWindow(TakeNext(s));
    } else {
      forall id | id in s.ahead
        ensures 0 < Sub(id, s.expected)
      {
        OneCloser(id, s.expected);
      }
    }
  }

  /** A data packet with any id and payload leaves the kept packets inside the window. */
  lemma {:induction false} DataKeepsWindow(s: State, id: u32, payload: bytes)
    requires InWindow(s.ahead, s.expected)
    ensures InWindow(AfterData(s, id, payload).ahead, AfterData(s, id, payload).expected)
  {
    if Before(id, s.expected) {
    } else if id == s.expected {
      StepCloser(s.ahead, s.expected);
      assert s.expected !in s.ahead;
      assert s.ahead - {s.expected} == s.ahead;
      DrainKeepsWindow(s.(buf := s.buf + payload, expected := Wrap32(s.expected + 1)));
    } else {
      OneCloser(id, s.expected);
    }
  }

  lemma StepOn(e: u32, d: u32, k: nat)
    requires k < 0x1_0000_0000 - 1 && Sub(d, Wrap32(e + 1)) <= k
    ensures Sub(d, e) == Sub(d, Wrap32(e + 1)) + 1
  {
    var j := Sub(d, Wrap32(e + 1));
    IdAt(d, Wrap32(e + 1));
    OffsetOf(e, j + 1);
    WrapTwice(e + 1, j);
    hide Wrap32, Sub;
    assert e + 1 + j == e + (j + 1);
  }

  lemma WrapTwice(x: nat, y: nat)
    ensures Wrap32(Wrap32(x) + y) == Wrap32(x + y)
  {
  }

  /** Draining moves expected on by no more than the kept packets reach, and only adds to the buffer. */
  lemma {:induction false} DrainAdvances(s: State, k: nat)
    requires k <= MAX_AHEAD && forall id :: id in s.ahead ==> Sub(id, s.expected) < k
    ensures Sub(Drain(s).expected, s.expected) <= k && s.buf <= Drain(s).buf
    decreases |s.ahead|
  {
    if s.expected in s.ahead {
      assert Sub(s.expected, s.expected) == 0;
      var t := TakeNext(s);
      forall id | id in t.ahead
        ensures Sub(id, t.expected) < k - 1
      {
        OneCloser(id, s.expected);
      }
      DrainAdvances(t, k - 1);
      StepOn(s.expected, Drain(s).expected, k - 1);
    }
  }

  /** The packet that fills the gap moves expected on, whatever is drained behind it, and appends its payload. */
  lemma {:induction false} GapFilled(s: State, payload: bytes)
    requires InWindow(s.ahead, s.expected)
    ensures var t := AfterData(s, s.expected, payload); t.expected != s.expected && s.buf + payload <= t.buf
  {
    var next := s.(buf := s.buf + payload, expected := Wrap32(s.expected + 1));
    forall id | id in s.ahead
      ensures Sub(id, next.expected) < MAX_AHEAD
    {
      OneCloser(id, s.expected);
    }
    DrainAdvances(next, MAX_AHEAD);
    StepOn(s.expected, Drain(next).expected, MAX_AHEAD);
    assert Sub(s.expected, s.expected) == 0;
  }

  // What Write reports

  lemma WriteFromStep(s: State, b: bytes, off: nat, ok: nat, now: int)
    requires off < |b|
    ensures var payload := b[off..Min(off + MAX_PAYLOAD, |b|)];
            var queued := Queue(s, payload, now);
            && (ok == 0 ==> WriteFrom(s, b, off, ok, now) == Written(queued, [], off, SocketFailed))
            && (ok > 0 ==>
                  var rest := WriteFrom(queued, b, off + MAX_PAYLOAD, ok - 1, now);
                  WriteFrom(s, b, off, ok, now) == rest.(out := [EncodeData(s.did, s.nextID, payload)] + rest.out))
  {
    hide EncodeData, Wrap32;
  }

  lemma WriteFromEnd(s: State, b: bytes, off: nat, ok: nat, now: int)
    requires off >= |b|
    ensures WriteFrom(s, b, off, ok, now) == Written(s, [], |b|, NoErr)
  {
  }

  lemma {:induction false} WriteFromCount(s: State, b: bytes, off: nat, ok: nat, now: int)
    requires off <= |b|
    ensures WriteFrom(s, b, off, ok, now).n == if |b| - off <= ok * MAX_PAYLOAD then |b| else off + ok * MAX_PAYLOAD
    decreases |b| - off
  {
    hide EncodeData;
    if off < |b| && ok > 0 {
      var queued := Queue(s, b[off..Min(off + MAX_PAYLOAD, |b|)], now);
      if off + MAX_PAYLOAD <= |b| {
        WriteFromCount(queued, b, off + MAX_PAYLOAD, ok - 1, now);
      }
    }
  }

  /**
   The count Write returns is what it queued exactly when the socket took every chunk. When the
   socket refuses a chunk that chunk is not counted, yet it stays queued and is resent.
   */
  lemma {:induction false} WriteCountIffAllTaken(s: State, b: bytes, ok: nat, now: int)
    requires !s.closed && (s.err == NoErr || s.err == EndOfFile)
    ensures AfterWrite(s, b, ok, now).n == |Queued(s, b, ok)| <==> |b| <= ok * MAX_PAYLOAD
    ensures AfterWrite(s, b, ok, now).n <= |Queued(s, b, ok)|
  {
    WriteFromCount(s, b, 0, ok, now);
  }

  lemma {:induction false} WriteFromKeepsErr(s: State, b: bytes, off: nat, ok: nat, now: int)
    ensures var t := WriteFrom(s, b, off, ok, now).s; t.closed == s.closed && t.err == s.err
    decreases |b| - off
  {
    hide EncodeData;
    if off < |b| && ok > 0 {
      WriteFromKeepsErr(Queue(s, b[off..Min(off + MAX_PAYLOAD, |b|)], now), b, off + MAX_PAYLOAD, ok - 1, now);
    }
  }

  /** A caller that goes on from the count it was given queues the refused chunk a second time. */
  lemma {:induction false} RetryRepeatsChunk(s: State, b: bytes, ok: nat, now: int, ok2: nat)
    requires !s.closed && (s.err == NoErr || s.err == EndOfFile) && ok * MAX_PAYLOAD < |b|
    requires |b| - ok * MAX_PAYLOAD <= ok2 * MAX_PAYLOAD
    ensures var w, n := AfterWrite(s, b, ok, now), ok * MAX_PAYLOAD;
            var chunk := b[n..Min(n + MAX_PAYLOAD, |b|)];
            && w.n == n && w.err == SocketFailed && chunk != []
            && Queued(s, b, ok) == b[..n] + chunk
            && Queued(w.s, b[n..], ok2) == b[n..] && chunk <= b[n..]
  {
    WriteFromCount(s, b, 0, ok, now);
    WriteFromKeepsErr(s, b, 0, ok, now);
    WriteFromFails(s, b, 0, ok, now);
    var n := ok * MAX_PAYLOAD;
    assert b[n..][..Min(MAX_PAYLOAD, |b| - n)] == b[n..Min(n + MAX_PAYLOAD, |b|)];
    assert b[n..][..|b| - n] == b[n..];
  }

  lemma {:induction false} WriteFromFails(s: State, b: bytes, off: nat, ok: nat, now: int)
    requires off + ok * MAX_PAYLOAD < |b|
    ensures WriteFrom(s, b, off, ok, now).err == SocketFailed
    decreases |b| - off
  {
    hide EncodeData;
    if ok > 0 {
      WriteFromFails(Queue(s, b[off..Min(off + MAX_PAYLOAD, |b|)], now), b, off + MAX_PAYLOAD, ok - 1, now);
    }
  }

  // What Read hands out

  /** One Read after another into buffers of these sizes, nothing arriving in between: the bytes, and what is left. */
  function ReadAll(s: State, sizes: seq<nat>): (bytes, State)
    decreases |sizes|
  {
    if sizes == [] then ([], s) else
    var r, (more, end) := ReadResultOf(s, sizes[0]), ReadAll(AfterRead(s, sizes[0]), sizes[1..]);
    ((if r.Data? then r.b else []) + more, end)
  }

  function Sum(sizes: seq<nat>): nat { if sizes == [] then 0 else sizes[0] + Sum(sizes[1..]) }

  /**
   Reads give the buffered bytes in order, as many as they have room for, whatever error has come meanwhile. Only
   when all are out does a Read give that error, and without one it waits.
   */
  lemma {:induction false} ReadsInOrder(s: State, sizes: seq<nat>, n: nat)
    requires !s.closed
    ensures var (got, end) := ReadAll(s, sizes);
            && got + end.buf == s.buf && |got| == Min(Sum(sizes), |s.buf|)
            && (ReadResultOf(end, n) == Failed(s.err) <==> Sum(sizes) >= |s.buf| && s.err != NoErr)
            && (ReadResultOf(end, n) == Blocked <==> Sum(sizes) >= |s.buf| && s.err == NoErr)
    decreases |sizes|
  {
    if sizes != [] {
      hide ReadResultOf, AfterRead;
      OneRead(s, sizes[0]);
      ReadsInOrder(AfterRead(s, sizes[0]), sizes[1..], n);
    }
  }

  lemma OneRead(s: State, n: nat)
    requires !s.closed
    ensures var r, t, k := ReadResultOf(s, n), AfterRead(s, n), Min(n, |s.buf|);
            && t == s.(buf := s.buf[k..]) && (if r.Data? then r.b else []) == s.buf[..k]
            && s.buf[..k] + t.buf == s.buf
  {
  }

  /** A closed connection gives no bytes, only its error. */
  lemma ClosedReads(s: State, n: nat)
    ensures var t := AfterClose(s); ReadResultOf(t, n) == Failed(if s.err == NoErr then ConnClosed else s.err)
  {
  }

  class Conn {
    const cid: u32
    const did: u32
    const parse: bytes -> P2P

    var nextID: u32
    var unacked: map<u32, OutPacket>
    var expected: u32
    var gotAny: bool
    var ahead: map<u32, bytes>
    var buf: bytes
    var err: Err
    var closed: bool
    var lastHeard: int

    function St(): State
      reads this
    {
      State(cid, did, nextID, unacked, expected, gotAny, ahead, buf, err, closed, lastHeard)
    }

    ghost predicate Valid()
      reads this
    {
      InWindow(ahead, expected)
    }

    constructor (cid: u32, did: u32, parse: bytes -> P2P, now: int)
      ensures Valid() && this.parse == parse
      ensures St() == State(cid, did, 0, map[], 0, false, map[], [], NoErr, false, now)
    {
      this.cid, this.did, this.parse := cid, did, parse;
      nextID, unacked := 0, map[];
      expected, gotAny, ahead, buf := 0, false, map[], [];
      err, closed, lastHeard := NoErr, false, now;
    }

    method FailLocked(e: Err)
      modifies this
      ensures St() == AfterFail(old(St()), e)
    {
      if err == NoErr {
        err := e;
      }
    }

    /** One datagram from the camera. */
    method Handle(b: bytes, now: int)
      requires Valid()
      modifies this
      ensures Valid() && St() == AfterHandle(old(St()), b, now, parse)
    {
      var magic := MagicOf(b);
      if magic == MAGIC_DATA {
        HandleDataPacket(DecodeData(b), now);
      } else if magic == MAGIC_ACK {
        HandleAckPacket(DecodeAck(b), now);
      } else if magic == MAGIC_DISCOVERY {
        HandleControl(Meaning(b, parse), now);
      }
    }

    method HandleDataPacket(p: Option<DataPacket>, now: int)
      requires Valid()
      modifies this
      ensures Valid() && St() == OnDataPacket(old(St()), p, now)
    {
      if p.Some? && p.value.conn == cid {
        lastHeard, gotAny := now, true;
        HandleData(p.value.id, p.value.payload);
      }
    }

    method HandleAckPacket(a: Option<AckPacket>, now: int)
      requires Valid() && (a.Some? ==> |a.value.have| < 0x1_0000_0000)
      modifies this
      ensures Valid() && St() == OnAckPacket(old(St()), a, now)
    {
      if a.Some? && a.value.conn == cid {
        lastHeard := now;
        HandleAck(a.value);
      }
    }

    method HandleControl(meaning: P2P, now: int)
      modifies this
      ensures St() == AfterControl(old(St()), meaning, now)
    {
      match meaning
      case Unparsed =>
      case OtherMessage => lastHeard := now;
      case Disconnect(c, d) =>
        lastHeard := now;
        if c == cid || d == did {
          FailLocked(EndOfFile);
        }
    }

    method HandleData(id: u32, payload: bytes)
      requires Valid()
      modifies this
      ensures Valid() && St() == AfterData(old(St()), id, payload)
    {
      DataKeepsWindow(St(), id, payload);
      var d := Sub(id, expected);
      if d >= 0x8000_0000 {
      } else if d == 0 {
        IdAt(id, expected);
        buf, expected := buf + payload, Wrap32(expected + 1);
        DrainAhead();
      } else if d < MAX_AHEAD {
        if id !in ahead {
          ahead := ahead[id := payload];
        }
      }
    }

    method DrainAhead()
      modifies this
      ensures St() == Drain(old(St()))
    {
      while expected in ahead
        invariant Drain(St()) == Drain(old(St()))
        decreases |ahead|
      {
        var next := ahead[expected];
        ahead := ahead - {expected};
        buf, expected := buf + next, Wrap32(expected + 1);
      }
    }

    method HandleAck(a: AckPacket)
      requires |a.have| < 0x1_0000_0000
      modifies this
      ensures St() == AfterAck(old(St()), a)
    {
      AckedIsNamed(a);
      hide Before, Sub, Wrap32, Named, Acked;
      var base := Wrap32(a.last + 1);
      DeleteBefore(base);
      DeleteNamed(base, a.have);
    }

    /** The first loop of handling an ack. */
    method DeleteBefore(base: u32)
      modifies `unacked
      ensures unacked == map id | id in old(unacked) && !Before(id, base) :: old(unacked)[id]
    {
      hide Before;
      var ids := unacked.Keys;
      while ids != {}
        invariant ids <= unacked.Keys
        invariant unacked == map id | id in old(unacked) && (id in ids || !Before(id, base)) :: old(unacked)[id]
        decreases ids
      {
        var id :| id in ids;
        if Before(id, base) {
          unacked := unacked - {id};
        }
        ids := ids - {id};
      }
    }

    /** The second. */
    method DeleteNamed(base: u32, have: bytes)
      requires |have| < 0x1_0000_0000
      modifies `unacked
      ensures unacked == map id | id in old(unacked) && !Named(id, base, have, |have|) :: old(unacked)[id]
    {
      NoneNamed(base, have);
      hide Sub, Wrap32, Named;
      var i := 0;
      while i < |have|
        invariant 0 <= i <= |have|
        invariant unacked == map id | id in old(unacked) && !Named(id, base, have, i) :: old(unacked)[id]
      {
        if have[i] == 1 {
          unacked := unacked - {Wrap32(base + i)};
        }
        NamedNext(base, have, i);
        i := i + 1;
      }
    }

    method AckLocked() returns (b: bytes)
      requires Valid()
      ensures b == EncodeAck(AckOf(St()))
    {
      var have: bytes := [];
      if ahead != map[] {
        var top: u32 := 0;
        var ids := ahead.Keys;
        while ids != {}
          invariant ids <= ahead.Keys
          invariant top < MAX_AHEAD
          invariant forall id :: id in ahead && id !in ids ==> Sub(id, expected) <= top
          invariant (ids == ahead.Keys && top == 0) || exists id :: id in ahead && Sub(id, expected) == top
          decreases ids
        {
          var id :| id in ids;
          var d := Sub(id, expected);
          if d > top {
            top := d;
          }
          ids := ids - {id};
        }
        var farthest :| farthest in ahead && Sub(farthest, expected) == top;
        TopIs(ahead, expected, MAX_AHEAD - 1, farthest);
        var i := 0;
        while i < top + 1
          invariant 0 <= i <= top + 1 && |have| == i
          invariant forall j :: 0 <= j < i ==> have[j] == HaveByte(ahead, expected, j)
        {
          have := have + [if Wrap32(expected + i) in ahead then 1 else 0];
          i := i + 1;
        }
      }
      var a := AckPacket(did, if gotAny then 0 else NONE, Sub(expected, 1), have);
      assert have == AckOf(St()).have;
      b := EncodeAck(a);
    }

    /** One tick of the timer: what it sends, and the order Go happened to visit the due packets in. */
    method Tick(now: int) returns (out: seq<bytes>, ghost order: seq<u32>)
      requires Valid()
      modifies this
      ensures Valid() && St() == AfterTick(old(St()), now)
      ensures if old(err) == NoErr then IsDueOrder(old(unacked), now, order) else order == []
      ensures out == TickOutput(old(St()), order)
    {
      if err != NoErr {
        return [], [];
      }
      var ack := AckLocked();
      var resends;
      resends, order := ResendDue(now);
      out := [ack] + resends;
      if now - lastHeard > SILENCE_LIMIT {
        FailLocked(CameraSilent);
      }
    }

    /** A whole turn of timerLoop: the tick, and a heartbeat when none was sent within a second. */
    method TimerTurn(now: int, lastBeat: Option<int>, tid: u32, beat: bytes)
        returns (out: seq<bytes>, ghost order: seq<u32>, beatAt: Option<int>)
      requires Valid()
      modifies this
      ensures Valid() && St() == AfterTick(old(St()), now)
      ensures if old(err) == NoErr then IsDueOrder(old(unacked), now, order) else order == []
      ensures var beats := old(err) == NoErr && (lastBeat.None? || now - lastBeat.value >= HEARTBEAT_EVERY);
              && out == TickOutput(old(St()), order) + (if beats then [EncodeDiscovery(tid, beat)] else [])
              && beatAt == if beats then Some(now) else lastBeat
    {
      beatAt := lastBeat;
      if err != NoErr {
        return [], [], lastBeat;
      }
      out, order := Tick(now);
      if lastBeat.None? || now - lastBeat.value >= HEARTBEAT_EVERY {
        beatAt := Some(now);
        out := out + [EncodeDiscovery(tid, beat)];
      }
    }

    method ResendDue(now: int) returns (out: seq<bytes>, ghost order: seq<u32>)
      modifies `unacked
      ensures unacked == Restamped(old(unacked), now)
      ensures IsDueOrder(old(unacked), now, order) && out == Datagrams(old(unacked), order)
    {
      out, order := [], [];
      ghost var before := unacked;
      var ids := unacked.Keys;
      while ids != {}
        invariant ids <= before.Keys && unacked.Keys == before.Keys
        invariant forall id :: id in before ==>
                    unacked[id] == if id in ids then before[id] else Restamped(before, now)[id]
        invariant forall i, j :: 0 <= i < j < |order| ==> order[i] != order[j]
        invariant forall id :: id in order <==> id in before && id !in ids && Due(before[id], now)
        invariant out == Datagrams(before, order)
        decreases ids
      {
        var id :| id in ids;
        var p := unacked[id];
        if now - p.sent >= RESEND_EVERY {
          unacked := unacked[id := OutPacket(p.b, now)];
          out := out + [p.b];
          order := order + [id];
        }
        ids := ids - {id};
      }
      assert unacked == Restamped(before, now);
    }

    method QueuePacket(payload: bytes, now: int) returns (p: bytes)
      modifies this
      ensures St() == Queue(old(St()), payload, now) && p == EncodeData(did, old(nextID), payload)
    {
      p := EncodeData(did, nextID, payload);
      unacked := unacked[nextID := OutPacket(p, now)];
      nextID := Wrap32(nextID + 1);
    }

    /** Splits b into packets and sends each; ok is how many datagrams the socket takes. */
    method Write(b: bytes, ok: nat, now: int) returns (n: nat, e: Err, out: seq<bytes>)
      requires Valid()
      modifies this
      ensures Valid() && AfterWrite(old(St()), b, ok, now) == Written(St(), out, n, e)
    {
      hide WriteFrom, EncodeData;
      out := [];
      if closed {
        return 0, ConnClosed, out;
      }
      if err != NoErr && err != EndOfFile {
        return 0, err, out;
      }
      ghost var want := WriteFrom(St(), b, 0, ok, now);
      var off, left := 0, ok;
      while off < |b|
        invariant ahead == old(ahead) && expected == old(expected)
        invariant var rest := WriteFrom(St(), b, off, left, now); want == rest.(out := out + rest.out)
        decreases |b| - off
      {
        WriteFromStep(St(), b, off, left, now);
        var p := QueuePacket(b[off..Min(off + MAX_PAYLOAD, |b|)], now);
        if left == 0 {
          assert out + [] == out;
          return off, SocketFailed, out;
        }
        ghost var rest := WriteFrom(St(), b, off + MAX_PAYLOAD, left - 1, now).out;
        assert out + ([p] + rest) == (out + [p]) + rest;
        out, left, off := out + [p], left - 1, off + MAX_PAYLOAD;
      }
      WriteFromEnd(St(), b, off, left, now);
      assert out + [] == out;
      n, e := |b|, NoErr;
    }

    /** One pass of Read's loop: data, an error, or nothing yet. */
    method Read(n: nat) returns (r: ReadResult)
      requires Valid()
      modifies this
      ensures Valid() && St() == AfterRead(old(St()), n) && r == ReadResultOf(old(St()), n)
    {
      if buf != [] && !closed {
        var k := Min(n, |buf|);
        r := Data(buf[..k]);
        buf := buf[k..];
      } else if err != NoErr {
        r := Failed(err);
      } else {
        r := Blocked;
      }
    }

    /** Only the first Close does anything: it says goodbye three times. */
    method Close(tid: u32, goodbye: bytes) returns (out: seq<bytes>)
      requires Valid()
      modifies this
      ensures Valid() && St() == if old(closed) then old(St()) else AfterClose(old(St()))
      ensures out == if old(closed) then [] else seq(3, i => EncodeDiscovery(tid, goodbye))
    {
      out := [];
      if closed {
        return;
      }
      closed := true;
      FailLocked(ConnClosed);
      var disc := EncodeDiscovery(tid, goodbye);
      var i := 0;
      while i < 3
        invariant 0 <= i <= 3 && out == seq(i, j => disc)
      {
        out := out + [disc];
        i := i + 1;
      }
    }
  }

  /** The first n have bytes, counted from base, name id. */
  predicate Named(id: u32, base: u32, have: bytes, n: nat)
    requires n <= |have|
  {
    Sub(id, base) < n && have[Sub(id, base)] == 1
  }

  lemma AckedIsNamed(a: AckPacket)
    requires |a.have| < 0x1_0000_0000
    ensures var base := Wrap32(a.last + 1);
            forall id :: Acked(id, a) <==> Before(id, base) || Named(id, base, a.have, |a.have|)
  {
    hide Before, Sub, Wrap32;
  }

  lemma NoneNamed(base: u32, have: bytes)
    ensures forall id :: !Named(id, base, have, 0)
  {
  }

  /** Deleting the id at offset i is the step from the first i have bytes to the first i + 1. */
  lemma NamedNext(base: u32, have: bytes, i: nat)
    requires i < |have| < 0x1_0000_0000
    ensures forall id: u32 :: Named(id, base, have, i + 1)
                              <==> Named(id, base, have, i) || (have[i] == 1 && id == Wrap32(base + i))
  {
    forall id: u32
      ensures Sub(id, base) == i <==> id == Wrap32(base + i)
    {
      OffsetOf(base, i);
      IdAt(id, base);
    }
    forall id: u32
      ensures Named(id, base, have, i + 1) <==> Named(id, base, have, i) || (have[i] == 1 && id == Wrap32(base + i))
    {
    }
  }
}
