/**
 The protocol of UdpConn over unbounded packet numbers: two ends running the same code, each
 sending datagrams to the other through a network that may lose, repeat, delay and reorder
 them. An end's out field is everything it ever sent; delivering any element of it, any number
 of times and in any order, is what the network may do.
 */
module UdpStream {
  import opened Bytes
  import opened UdpPacket
  import opened UdpConn

  datatype Msg =
    | DataMsg(n: nat, payload: bytes)
    | AckMsg(base: nat, group: u32, have: bytes)
    | ControlMsg(b: bytes, meaning: P2P)

  /**
   One end. Packet n carried sent[n]; wrote is what Write has queued in all; accepted is what
   the receiver appended to its buffer in all, of which Read has handed out the first taken bytes.
   */
  datatype End = End(
    cid: u32, did: u32,
    wrote: bytes, sent: seq<bytes>, unacked: map<nat, int>,
    expected: nat, gotAny: bool, ahead: map<nat, bytes>, accepted: bytes, taken: nat,
    err: Err, closed: bool, lastHeard: int,
    out: seq<Msg>)

  function Start(cid: u32, did: u32, now: int): End {
    End(cid, did, [], [], map[], 0, false, map[], [], 0, NoErr, false, now, [])
  }

  /** The receiver has packet n, delivered or waiting for a gap to close. */
  predicate Holds(r: End, n: nat) { n < r.expected || n in r.ahead }

  // Receiving

  function Take(r: End): End
    requires r.expected in r.ahead
  {
    r.(ahead := r.ahead - {r.expected}, accepted := r.accepted + r.ahead[r.expected], expected := r.expected + 1)
  }

  function DrainAll(r: End): End
    decreases |r.ahead|
  {
    if r.expected !in r.ahead then r else DrainAll(Take(r))
  }

  function OnData(r: End, n: nat, payload: bytes): End {
    if n < r.expected then r
    else if n == r.expected then DrainAll(r.(accepted := r.accepted + payload, expected := r.expected + 1))
    else if n - r.expected < MAX_AHEAD && n !in r.ahead then r.(ahead := r.ahead[n := payload])
    else r
  }

  predicate NamedBy(n: nat, base: nat, have: bytes) {
    n < base || (n - base < |have| && have[n - base] == 1)
  }

  function OnAck(s: End, base: nat, have: bytes): End {
    s.(unacked := map n | n in s.unacked && !NamedBy(n, base, have) :: s.unacked[n])
  }

  function FailEnd(e: End, err: Err): End {
    if e.err == NoErr then e.(err := err) else e
  }

  function OnControl(e: End, meaning: P2P, now: int): End {
    match meaning
    case Unparsed => e
    case OtherMessage => e.(lastHeard := now)
    case Disconnect(cid, did) =>
      var heard := e.(lastHeard := now);
      if cid == e.cid || did == e.did then FailEnd(heard, EndOfFile) else heard
  }

  function OnMsg(e: End, m: Msg, now: int): End {
    match m
    case DataMsg(n, payload) => OnData(e.(lastHeard := now, gotAny := true), n, payload)
    case AckMsg(base, _, have) => OnAck(e.(lastHeard := now), base, have)
    case ControlMsg(_, meaning) => OnControl(e, meaning, now)
  }

  // Sending

  function Farthest(ahead: map<nat, bytes>, expected: nat, k: nat): (top: nat)
    ensures top <= k
  {
    if k == 0 then 0 else if expected + k in ahead then k else Farthest(ahead, expected, k - 1)
  }

  function HaveList(ahead: map<nat, bytes>, expected: nat): (have: bytes)
    ensures |have| <= MAX_AHEAD
  {
    if ahead == map[] then [] else
    seq(Farthest(ahead, expected, MAX_AHEAD - 1) + 1, i requires 0 <= i => if expected + i in ahead then 1 else 0)
  }

  function AckFrom(r: End): Msg {
    AckMsg(r.expected, if r.gotAny then 0 else NONE, HaveList(r.ahead, r.expected))
  }

  predicate Overdue(sentAt: int, now: int) { now - sentAt >= RESEND_EVERY }

  /** order lists the overdue packets, each once. */
  ghost predicate IsResendOrder(unacked: map<nat, int>, now: int, order: seq<nat>) {
    && (forall i, j :: 0 <= i < j < |order| ==> order[i] != order[j])
    && (forall n :: n in order <==> n in unacked && Overdue(unacked[n], now))
  }

  function Restamp(unacked: map<nat, int>, now: int): map<nat, int> {
    map n | n in unacked :: if Overdue(unacked[n], now) then now else unacked[n]
  }

  function Resends(sent: seq<bytes>, order: seq<nat>): seq<Msg>
    requires forall i :: 0 <= i < |order| ==> order[i] < |sent|
  {
    seq(|order|, i requires 0 <= i < |order| => DataMsg(order[i], sent[order[i]]))
  }

  function OnTick(e: End, now: int, order: seq<nat>): End
    requires forall i :: 0 <= i < |order| ==> order[i] < |e.sent|
  {
    if e.err != NoErr then e else
    var ticked := e.(unacked := Restamp(e.unacked, now), out := e.out + [AckFrom(e)] + Resends(e.sent, order));
    if now - e.lastHeard > SILENCE_LIMIT then FailEnd(ticked, CameraSilent) else ticked
  }

  /** Queues the next packet; it goes out only if the socket takes it. */
  function Enqueue(e: End, payload: bytes, now: int, taken: bool): End {
    var n := |e.sent|;
    e.(wrote := e.wrote + payload, sent := e.sent + [payload], unacked := e.unacked[n := now],
       out := if taken then e.out + [DataMsg(n, payload)] else e.out)
  }

  function WriteChunks(e: End, b: bytes, off: nat, ok: nat, now: int): End
    decreases |b| - off
  {
    if off >= |b| then e else
    var queued := Enqueue(e, b[off..Min(off + MAX_PAYLOAD, |b|)], now, ok > 0);
    if ok == 0 then queued else WriteChunks(queued, b, off + MAX_PAYLOAD, ok - 1, now)
  }

  function OnWrite(e: End, b: bytes, ok: nat, now: int): End {
    if e.closed || (e.err != NoErr && e.err != EndOfFile) then e else WriteChunks(e, b, 0, ok, now)
  }

  function OnRead(e: End, n: nat): End
    requires e.taken <= |e.accepted|
  {
    if e.taken < |e.accepted| && !e.closed then e.(taken := e.taken + Min(n, |e.accepted| - e.taken)) else e
  }

  // Runs

  datatype Action =
    | Write(b: bytes, ok: nat, now: int)
    | Tick(now: int, order: seq<nat>)
    | Deliver(i: nat, now: int)
    | Hear(b: bytes, now: int)
    | Read(n: nat)
    | Control(b: bytes, meaning: P2P)
    | SocketError
    | Close

  /**
   What the code can do next, whatever the network does: a choice of map order, a datagram sent before, or
   any bytes at all that are nothing for this connection.
   */
  ghost predicate Possible(me: End, peer: End, act: Action) {
    match act
    case Tick(now, order) =>
      (forall i :: 0 <= i < |order| ==> order[i] < |me.sent|)
      && (me.err == NoErr ==> IsResendOrder(me.unacked, now, order))
    case Deliver(i, _) => i < |peer.out|
    case Hear(b, _) => Stray(me.cid, b)
    case Read(_) => me.taken <= |me.accepted|
    case Control(b, _) => MagicOf(b) == MAGIC_DISCOVERY
    case _ => true
  }

  ghost function Step(me: End, peer: End, act: Action): End
    requires Possible(me, peer, act)
  {
    match act
    case Write(b, ok, now) => OnWrite(me, b, ok, now)
    case Tick(now, order) => OnTick(me, now, order)
    case Deliver(i, now) => OnMsg(me, peer.out[i], now)
    case Hear(_, _) => me
    case Read(n) => OnRead(me, n)
    case Control(b, meaning) => me.(out := me.out + [ControlMsg(b, meaning)])
    case SocketError => FailEnd(me, SocketFailed)
    case Close => FailEnd(me.(closed := true), ConnClosed)
  }

  // The invariant of the direction from s to r

  ghost predicate SenderOk(s: End) {
    && Concat(s.sent) == s.wrote
    && (forall n :: 0 <= n < |s.sent| ==> |s.sent[n]| <= MAX_PAYLOAD)
    && (forall n :: n in s.unacked ==> n < |s.sent|)
    && (forall m :: m in s.out && m.DataMsg? ==> m.n < |s.sent| && m.payload == s.sent[m.n])
  }

  /** The receiver holds only what was sent, keeps only what lies inside the window, and has accepted a prefix. */
  ghost predicate ReceiverOk(sent: seq<bytes>, r: End) {
    && r.expected <= |sent|
    && r.accepted == Concat(sent[..r.expected])
    && r.taken <= |r.accepted|
    && (forall n :: n in r.ahead ==> r.expected < n < r.expected + MAX_AHEAD && n < |sent| && r.ahead[n] == sent[n])
  }

  ghost predicate AckOk(r: End, m: Msg)
    requires m.AckMsg?
  {
    && m.base <= r.expected && |m.have| <= MAX_AHEAD
    && (forall n :: NamedBy(n, m.base, m.have) ==> Holds(r, n))
  }

  /** Ack soundness: every ack ever sent names only packets the receiver holds. */
  ghost predicate AcksOk(r: End) {
    forall m :: m in r.out && m.AckMsg? ==> AckOk(r, m)
  }

  /** Nothing is forgotten: every packet is still to be resent or has arrived. */
  ghost predicate Retained(s: End, r: End) {
    forall n :: 0 <= n < |s.sent| ==> n in s.unacked || Holds(r, n)
  }

  ghost predicate Inv(s: End, r: End) {
    SenderOk(s) && ReceiverOk(s.sent, r) && AcksOk(r) && Retained(s, r)
  }

  lemma StartInv(a: End, b: End, now: int)
    requires a == Start(a.cid, a.did, now) && b == Start(b.cid, b.did, now)
    ensures Inv(a, b)
  {
  }
}
