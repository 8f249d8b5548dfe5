/**
 The wrapped machine refines the unbounded one. Every end of UdpStream is matched with the state
 of a real Conn, every message with the datagram it is on the wire, and each step of UdpConn's
 functions is shown to be the step of UdpStream, as long as what is delivered lies within 2^31
 of the position it is compared with.
 */
module UdpRefinement {
  import opened Bytes
  import opened UdpPacket
  import C = UdpConn
  import opened UdpStream
  import opened UdpSafety

  const HALF := 0x8000_0000
  const TURN := 0x1_0000_0000

  // Wrapped numbers

  function W(n: int): u32 { Wrap32(n) }

  /** The number in [lo, lo + 2^32) that id stands for. */
  function Lift(id: u32, lo: int): int { lo + C.Sub(id, W(lo)) }

  lemma LiftOf(n: int, lo: int)
    requires lo <= n < lo + TURN
    ensures Lift(W(n), lo) == n
  {
  }

  lemma WrapOfLift(id: u32, lo: int)
    ensures W(Lift(id, lo)) == id && lo <= Lift(id, lo) < lo + TURN
  {
  }

  lemma NextWrapped(n: int)
    ensures Wrap32(W(n) + 1) == W(n + 1)
  {
  }

  /** Within half a turn, serial order is the order of the numbers. */
  lemma Serial(n: int, m: int)
    requires -HALF <= n - m < HALF
    ensures C.Before(W(n), W(m)) <==> n < m
    ensures n >= m ==> C.Sub(W(n), W(m)) == n - m
    ensures W(n) == W(m) <==> n == m
  {
  }

  // Maps keyed by packet number and by wrapped id

  /** c is u with its keys wrapped, and every key of u lies in the turn starting at lo. */
  ghost predicate MapRel<V>(u: map<nat, V>, c: map<u32, V>, lo: int) {
    && (forall n :: n in u ==> lo <= n < lo + TURN && W(n) in c && c[W(n)] == u[n])
    && (forall id :: id in c ==> Lift(id, lo) in u)
  }

  lemma Lookup<V>(u: map<nat, V>, c: map<u32, V>, lo: int, n: nat)
    requires MapRel(u, c, lo) && lo <= n < lo + TURN
    ensures n in u <==> W(n) in c
  {
    LiftOf(n, lo);
  }

  lemma ValueAt<V>(u: map<nat, V>, c: map<u32, V>, lo: int, n: nat)
    requires MapRel(u, c, lo) && n in u
    ensures W(n) in c && c[W(n)] == u[n]
  {
  }

  /** Filtering by corresponding tests keeps the maps related. */
  lemma Filter<V>(u: map<nat, V>, c: map<u32, V>, lo: int, u': map<nat, V>, c': map<u32, V>)
    requires MapRel(u, c, lo)
    requires forall n :: n in u' ==> n in u && u'[n] == u[n]
    requires forall id :: id in c' ==> id in c && c'[id] == c[id]
    requires forall n :: n in u ==> (n in u' <==> W(n) in c')
    ensures MapRel(u', c', lo)
  {
    forall id | id in c'
      ensures Lift(id, lo) in u'
    {
      WrapOfLift(id, lo);
    }
  }

  lemma Shift<V>(u: map<nat, V>, c: map<u32, V>, lo: int, lo': int)
    requires MapRel(u, c, lo) && forall n :: n in u ==> lo' <= n < lo' + TURN
    ensures MapRel(u, c, lo')
  {
    forall id | id in c
      ensures Lift(id, lo') in u
    {
      WrapOfLift(id, lo);
      LiftOf(Lift(id, lo), lo');
    }
  }

  lemma Insert<V>(u: map<nat, V>, c: map<u32, V>, lo: int, n: nat, v: V)
    requires MapRel(u, c, lo) && lo <= n < lo + TURN
    ensures MapRel(u[n := v], c[W(n) := v], lo)
  {
    LiftOf(n, lo);
    forall m | m in u && m != n
      ensures W(m) != W(n)
    {
      LiftOf(m, lo);
    }
  }

  lemma Remove<V>(u: map<nat, V>, c: map<u32, V>, lo: int, n: nat)
    requires MapRel(u, c, lo) && lo <= n < lo + TURN
    ensures MapRel(u - {n}, c - {W(n)}, lo)
  {
    LiftOf(n, lo);
    forall m | m in u && m != n
      ensures W(m) != W(n)
    {
      LiftOf(m, lo);
    }
    forall id | id in c && id != W(n)
      ensures Lift(id, lo) != n
    {
      WrapOfLift(id, lo);
    }
  }

  // Relating the two machines

  function Wire(m: Msg, did: u32): bytes {
    match m
    case DataMsg(n, payload) => EncodeData(did, W(n), payload)
    case AckMsg(base, group, have) => EncodeAck(AckPacket(did, group, W(base - 1), have))
    case ControlMsg(b, _) => b
  }

  function WireAll(ms: seq<Msg>, did: u32): seq<bytes> {
    seq(|ms|, i requires 0 <= i < |ms| => Wire(ms[i], did))
  }

  /** The unacked packets of e as the datagrams Conn keeps. */
  function Packets(e: End): map<nat, C.OutPacket>
    requires forall n :: n in e.unacked ==> n < |e.sent|
  {
    PacketsOf(e.did, e.sent, e.unacked)
  }

  function PacketsOf(did: u32, sent: seq<bytes>, unacked: map<nat, int>): map<nat, C.OutPacket>
    requires forall n :: n in unacked ==> n < |sent|
  {
    map n | n in unacked :: C.OutPacket(EncodeData(did, W(n), sent[n]), unacked[n])
  }

  /** A Conn, what it has put on the wire, and the bytes its user has queued and read. */
  datatype Endpoint = Endpoint(st: C.State, out: seq<bytes>, wrote: bytes, read: bytes)

  /** No unacked packet is more than half a turn old. */
  ghost predicate Span(e: End) {
    forall n :: n in e.unacked ==> |e.sent| - HALF <= n < |e.sent|
  }

  ghost predicate SenderRel(e: End, s: C.State) {
    && s.did == e.did && s.nextID == W(|e.sent|)
    && Span(e) && MapRel(Packets(e), s.unacked, |e.sent| - HALF)
  }

  ghost predicate ReceiverRel(e: End, s: C.State) {
    && s.expected == W(e.expected) && s.gotAny == e.gotAny
    && e.taken <= |e.accepted| && s.buf == e.accepted[e.taken..]
    && MapRel(e.ahead, s.ahead, e.expected)
  }

  ghost predicate StateRel(e: End, s: C.State) {
    && s.cid == e.cid && s.err == e.err && s.closed == e.closed && s.lastHeard == e.lastHeard
    && SenderRel(e, s) && ReceiverRel(e, s)
  }

  ghost predicate OutRel(e: End, out: seq<bytes>, parse: bytes -> C.P2P) {
    && out == WireAll(e.out, e.did)
    && (forall m :: m in e.out && m.ControlMsg? ==>
         MagicOf(m.b) == MAGIC_DISCOVERY && m.meaning == C.Meaning(m.b, parse))
  }

  ghost predicate Rel(e: End, c: Endpoint, parse: bytes -> C.P2P) {
    && StateRel(e, c.st) && OutRel(e, c.out, parse)
    && c.wrote == e.wrote && c.read == e.accepted[..e.taken]
  }

  // Receiving data

  ghost predicate NearAhead(e: End) {
    forall n :: n in e.ahead ==> e.expected <= n < e.expected + C.MAX_AHEAD
  }

  lemma TailGrows(all: bytes, taken: nat, more: bytes)
    requires taken <= |all|
    ensures (all + more)[taken..] == all[taken..] + more
  {
  }

  lemma {:induction false} DrainRefines(e: End, s: C.State)
    requires ReceiverRel(e, s) && NearAhead(e)
    ensures ReceiverRel(DrainAll(e), C.Drain(s))
    decreases |e.ahead|
  {
    hide MapRel, Wrap32;
    Lookup(e.ahead, s.ahead, e.expected, e.expected);
    if e.expected in e.ahead {
      TakeRefines(e, s);
      DrainRefines(Take(e), C.TakeNext(s));
    }
  }

  lemma {:induction false} TakeRefines(e: End, s: C.State)
    requires ReceiverRel(e, s) && NearAhead(e) && e.expected in e.ahead
    ensures s.expected in s.ahead && ReceiverRel(Take(e), C.TakeNext(s)) && NearAhead(Take(e))
  {
    hide MapRel, Wrap32, Lift;
    var e' := Take(e);
    Lookup(e.ahead, s.ahead, e.expected, e.expected);
    ValueAt(e.ahead, s.ahead, e.expected, e.expected);
    Remove(e.ahead, s.ahead, e.expected, e.expected);
    forall n | n in e'.ahead
      ensures e'.expected <= n < e'.expected + TURN
    {
      assert n in e.ahead && n != e.expected;
    }
    Shift(e'.ahead, s.ahead - {s.expected}, e.expected, e'.expected);
    NextWrapped(e.expected);
    TailGrows(e.accepted, e.taken, e.ahead[e.expected]);
  }

  /** A data packet within half a turn of the gap does what its number says. */
  lemma {:induction false} DataRefines(e: End, s: C.State, n: nat, payload: bytes)
    requires ReceiverRel(e, s) && -HALF <= n - e.expected < HALF
    requires forall k :: k in e.ahead ==> e.expected < k < e.expected + C.MAX_AHEAD
    ensures ReceiverRel(OnData(e, n, payload), C.AfterData(s, W(n), payload))
  {
    hide MapRel, Wrap32, DrainAll, C.Drain;
    Serial(n, e.expected);
    if n == e.expected {
      var e' := e.(accepted := e.accepted + payload, expected := e.expected + 1);
      var s' := s.(buf := s.buf + payload, expected := Wrap32(s.expected + 1));
      Shift(e.ahead, s.ahead, e.expected, e'.expected);
      NextWrapped(e.expected);
      TailGrows(e.accepted, e.taken, payload);
      DrainRefines(e', s');
    } else if n > e.expected && n - e.expected < C.MAX_AHEAD {
      Lookup(e.ahead, s.ahead, e.expected, n);
      Insert(e.ahead, s.ahead, e.expected, n, payload);
    }
  }

  // Receiving acks

  /** What an ack names is the same set of packets on both sides. */
  lemma NamedRefines(n: nat, base: nat, a: AckPacket)
    requires a.last == W(base - 1) && |a.have| <= C.MAX_AHEAD && -HALF <= n - base < HALF
    ensures C.Acked(W(n), a) <==> NamedBy(n, base, a.have)
  {
    NextWrapped(base - 1);
    hide W, Wrap32, C.Before, C.Sub;
    Serial(n, base);
  }

  lemma {:induction false} AckRefines(e: End, s: C.State, base: nat, a: AckPacket)
    requires SenderRel(e, s)
    requires a.last == W(base - 1) && |a.have| <= C.MAX_AHEAD && |e.sent| - HALF <= base <= |e.sent|
    ensures SenderRel(OnAck(e, base, a.have), C.AfterAck(s, a))
  {
    hide MapRel, Wrap32, C.Acked, NamedBy;
    var e', s' := OnAck(e, base, a.have), C.AfterAck(s, a);
    forall n | n in e.unacked
      ensures W(n) in s.unacked && (C.Acked(W(n), a) <==> NamedBy(n, base, a.have))
    {
      AckedRefines(e, s, base, a, n);
    }
    Filter(Packets(e), s.unacked, |e.sent| - HALF, Packets(e'), s'.unacked);
  }

  lemma {:induction false} AckedRefines(e: End, s: C.State, base: nat, a: AckPacket, n: nat)
    requires SenderRel(e, s) && n in e.unacked
    requires a.last == W(base - 1) && |a.have| <= C.MAX_AHEAD && |e.sent| - HALF <= base <= |e.sent|
    ensures W(n) in s.unacked && (C.Acked(W(n), a) <==> NamedBy(n, base, a.have))
  {
    hide MapRel, Wrap32, C.Acked, NamedBy;
    ValueAt(Packets(e), s.unacked, |e.sent| - HALF, n);
    NamedRefines(n, base, a);
  }

  // Ticking

  lemma SameId(n: int, k: nat)
    ensures Wrap32(W(n) + k) == W(n + k)
  {
  }

  lemma BeforeFirst(n: int)
    ensures C.Sub(W(n), 1) == W(n - 1)
  {
  }

  lemma NoneAhead<V>(u: map<nat, V>, c: map<u32, V>, lo: int)
    requires MapRel(u, c, lo) && u == map[]
    ensures c == map[]
  {
  }

  lemma {:induction false} TopRefines(ahead: map<nat, bytes>, c: map<u32, bytes>, expected: nat, k: nat)
    requires MapRel(ahead, c, expected) && k < C.MAX_AHEAD
    ensures Farthest(ahead, expected, k) == C.Top(c, W(expected), k)
  {
    hide MapRel;
    Lookup(ahead, c, expected, expected + k);
    SameId(expected, k);
    if k > 0 {
      TopRefines(ahead, c, expected, k - 1);
    }
  }

  lemma {:induction false} AckOfRefines(e: End, s: C.State)
    requires ReceiverRel(e, s) && s.did == e.did
    ensures EncodeAck(C.AckOf(s)) == Wire(AckFrom(e), e.did)
  {
    hide MapRel, Wrap32, EncodeAck;
    var have, want := C.AckOf(s).have, HaveList(e.ahead, e.expected);
    BeforeFirst(e.expected);
    TopRefines(e.ahead, s.ahead, e.expected, C.MAX_AHEAD - 1);
    if e.ahead == map[] {
      NoneAhead(e.ahead, s.ahead, e.expected);
    } else {
      var n :| n in e.ahead;
      ValueAt(e.ahead, s.ahead, e.expected, n);
      forall i | 0 <= i < |want|
        ensures have[i] == want[i]
      {
        Lookup(e.ahead, s.ahead, e.expected, e.expected + i);
        SameId(e.expected, i);
      }
    }
    assert have == want;
  }

  lemma Revalue<V>(u: map<nat, V>, c: map<u32, V>, lo: int, u': map<nat, V>, c': map<u32, V>)
    requires MapRel(u, c, lo) && u'.Keys == u.Keys && c'.Keys == c.Keys
    requires forall n :: n in u && W(n) in c' ==> c'[W(n)] == u'[n]
    ensures MapRel(u', c', lo)
  {
    assert forall n :: n in u' ==> n in u;
    assert forall id :: id in c' ==> id in c;
  }

  lemma {:induction false} RestampRefines(e: End, s: C.State, now: int)
    requires SenderRel(e, s)
    ensures SenderRel(e.(unacked := Restamp(e.unacked, now)), s.(unacked := C.Restamped(s.unacked, now)))
  {
    hide MapRel, Wrap32, Lift, EncodeData;
    var e', c' := e.(unacked := Restamp(e.unacked, now)), C.Restamped(s.unacked, now);
    forall n | n in e.unacked && W(n) in c'
      ensures c'[W(n)] == Packets(e')[n]
    {
      ValueAt(Packets(e), s.unacked, |e.sent| - HALF, n);
    }
    Revalue(Packets(e), s.unacked, |e.sent| - HALF, Packets(e'), c');
    RestampSpans(e, now);
  }

  lemma RestampSpans(e: End, now: int)
    requires Span(e)
    ensures Span(e.(unacked := Restamp(e.unacked, now)))
  {
  }

  function WrapAll(order: seq<nat>): seq<u32> {
    seq(|order|, i requires 0 <= i < |order| => W(order[i]))
  }

  /** The order in which the unbounded machine resends is one Go's map can have. */
  lemma {:induction false} OrderRefines(e: End, s: C.State, now: int, order: seq<nat>)
    requires SenderRel(e, s) && IsResendOrder(e.unacked, now, order)
    ensures C.IsDueOrder(s.unacked, now, WrapAll(order))
    ensures forall i :: 0 <= i < |order| ==> order[i] < |e.sent|
    ensures C.Datagrams(s.unacked, WrapAll(order)) == WireAll(Resends(e.sent, order), e.did)
  {
    hide MapRel, Wrap32, Lift;
    var lo, c := |e.sent| - HALF, WrapAll(order);
    forall i | 0 <= i < |order|
      ensures order[i] in e.unacked && c[i] in s.unacked && s.unacked[c[i]] == Packets(e)[order[i]]
      ensures C.Due(s.unacked[c[i]], now)
    {
      assert order[i] in order;
      ValueAt(Packets(e), s.unacked, lo, order[i]);
    }
    forall i, j | 0 <= i < j < |order|
      ensures c[i] != c[j]
    {
      Distinct(order[i], order[j], lo);
    }
    forall id | id in s.unacked && C.Due(s.unacked[id], now)
      ensures id in c
    {
      var n := Unwrapped(Packets(e), s.unacked, lo, id);
      assert n in order;
      var k :| 0 <= k < |order| && order[k] == n;
      assert c[k] == id;
    }
  }

  /** And each order Go's map can have is one in which the unbounded machine resends. */
  lemma {:induction false} OrderLifts(e: End, s: C.State, now: int, ids: seq<u32>) returns (order: seq<nat>)
    requires SenderRel(e, s) && C.IsDueOrder(s.unacked, now, ids)
    ensures IsResendOrder(e.unacked, now, order) && WrapAll(order) == ids
  {
    hide MapRel, Wrap32, Lift;
    var lo := |e.sent| - HALF;
    forall i | 0 <= i < |ids|
      ensures Lift(ids[i], lo) >= 0 && Lift(ids[i], lo) in e.unacked && W(Lift(ids[i], lo)) == ids[i]
      ensures Overdue(e.unacked[Lift(ids[i], lo)], now)
    {
      assert ids[i] in ids;
      LiftsBack(e, s, ids[i], lo);
    }
    order := seq(|ids|, i requires 0 <= i < |ids| => Lift(ids[i], lo));
    assert WrapAll(order) == ids;
    forall n | n in e.unacked && Overdue(e.unacked[n], now)
      ensures n in order
    {
      ValueAt(Packets(e), s.unacked, lo, n);
      assert W(n) in ids;
      var k :| 0 <= k < |ids| && ids[k] == W(n);
      LiftOf(n, lo);
      assert order[k] == n;
    }
  }

  lemma LiftsBack(e: End, s: C.State, id: u32, lo: int)
    requires SenderRel(e, s) && id in s.unacked && lo == |e.sent| - HALF
    ensures Lift(id, lo) >= 0 && Lift(id, lo) in e.unacked && W(Lift(id, lo)) == id
    ensures s.unacked[id].sent == e.unacked[Lift(id, lo)]
  {
    hide MapRel, Wrap32;
    WrapOfLift(id, lo);
    var n := Unwrapped(Packets(e), s.unacked, lo, id);
    LiftOf(n, lo);
  }

  lemma Distinct(n: int, m: int, lo: int)
    requires lo <= n < lo + TURN && lo <= m < lo + TURN && n != m
    ensures W(n) != W(m)
  {
    LiftOf(n, lo);
    LiftOf(m, lo);
  }

  lemma Unwrapped<V>(u: map<nat, V>, c: map<u32, V>, lo: int, id: u32) returns (n: nat)
    requires MapRel(u, c, lo) && id in c
    ensures n in u && W(n) == id && u[n] == c[id]
  {
    n := Lift(id, lo);
    WrapOfLift(id, lo);
  }

  lemma WireAppend(a: seq<Msg>, b: seq<Msg>, did: u32)
    ensures WireAll(a + b, did) == WireAll(a, did) + WireAll(b, did)
  {
  }

  lemma {:induction false} TickRefines(e: End, s: C.State, now: int, order: seq<nat>)
    requires StateRel(e, s)
    requires forall i :: 0 <= i < |order| ==> order[i] < |e.sent|
    ensures StateRel(OnTick(e, now, order), C.AfterTick(s, now))
  {
    hide MapRel, Wrap32, AckFrom, Resends, Restamp, C.Restamped;
    if e.err == C.NoErr {
      RestampRefines(e, s, now);
    }
  }

  lemma AckWire(e: End, s: C.State)
    requires StateRel(e, s)
    ensures WireAll([AckFrom(e)], e.did) == [EncodeAck(C.AckOf(s))]
  {
    hide MapRel, Wrap32, AckFrom, C.AckOf, EncodeAck;
    AckOfRefines(e, s);
  }

  lemma {:induction false} TickOutputRefines(e: End, s: C.State, now: int, order: seq<nat>)
    requires StateRel(e, s) && e.err == C.NoErr && IsResendOrder(e.unacked, now, order)
    ensures forall i :: 0 <= i < |order| ==> order[i] < |e.sent|
    ensures C.IsDueOrder(s.unacked, now, WrapAll(order))
    ensures WireAll(OnTick(e, now, order).out, e.did) == WireAll(e.out, e.did) + C.TickOutput(s, WrapAll(order))
  {
    hide MapRel, Wrap32, AckFrom, Resends, Restamp, C.AckOf, EncodeAck, IsResendOrder, C.Datagrams, WireAll;
    OrderRefines(e, s, now, order);
    AckWire(e, s);
    var ack, resends := [AckFrom(e)], Resends(e.sent, order);
    WireAppend(e.out, ack, e.did);
    WireAppend(e.out + ack, resends, e.did);
  }

  // Writing

  lemma KeysOfPackets(e: End)
    requires Span(e)
    ensures Packets(e).Keys == e.unacked.Keys
  {
  }

  lemma {:induction false} PacketsOfQueue(e: End, payload: bytes, now: int, taken: bool)
    requires Span(e) && Span(Enqueue(e, payload, now, taken))
    ensures Packets(Enqueue(e, payload, now, taken))
         == Packets(e)[|e.sent| := C.OutPacket(EncodeData(e.did, W(|e.sent|), payload), now)]
  {
    hide Wrap32, EncodeData;
  }

  lemma {:induction false} EnqueueRefines(e: End, s: C.State, payload: bytes, now: int, taken: bool)
    requires SenderRel(e, s) && Span(Enqueue(e, payload, now, taken))
    ensures SenderRel(Enqueue(e, payload, now, taken), C.Queue(s, payload, now))
  {
    hide MapRel, Wrap32, Lift, EncodeData, Packets;
    var e', n := Enqueue(e, payload, now, taken), |e.sent|;
    var p := C.OutPacket(EncodeData(e.did, W(n), payload), now);
    Insert(Packets(e), s.unacked, n - HALF, n, p);
    PacketsOfQueue(e, payload, now, taken);
    KeysOfPackets(e);
    KeysOfPackets(e');
    Shift(Packets(e'), s.unacked[W(n) := p], n - HALF, n + 1 - HALF);
    NextWrapped(n);
  }

  /** The unacked packets of a longer Write are those of a shorter one and more. */
  lemma {:induction false} SpanOfStart(e: End, b: bytes, off: nat, ok: nat, now: int)
    requires Span(WriteChunks(e, b, off, ok, now)) && forall n :: n in e.unacked ==> n < |e.sent|
    ensures Span(e)
    decreases |b| - off
  {
    if off < |b| {
      var queued := Enqueue(e, b[off..Min(off + MAX_PAYLOAD, |b|)], now, ok > 0);
      if ok > 0 {
        SpanOfStart(queued, b, off + MAX_PAYLOAD, ok - 1, now);
      }
      assert forall n :: n in e.unacked ==> n in queued.unacked;
    }
  }

  lemma {:induction false} WriteRefines(e: End, s: C.State, b: bytes, off: nat, ok: nat, now: int)
    requires SenderRel(e, s) && Span(WriteChunks(e, b, off, ok, now))
    ensures SenderRel(WriteChunks(e, b, off, ok, now), C.WriteFrom(s, b, off, ok, now).s)
    decreases |b| - off
  {
    hide MapRel, Wrap32, EncodeData;
    if off < |b| {
      var payload := b[off..Min(off + MAX_PAYLOAD, |b|)];
      var queued := Enqueue(e, payload, now, ok > 0);
      if ok > 0 {
        SpanOfStart(queued, b, off + MAX_PAYLOAD, ok - 1, now);
      }
      EnqueueRefines(e, s, payload, now, ok > 0);
      if ok > 0 {
        WriteRefines(queued, C.Queue(s, payload, now), b, off + MAX_PAYLOAD, ok - 1, now);
      }
    }
  }

  /** What Write puts on the wire. */
  lemma {:induction false} WriteOutputRefines(e: End, s: C.State, b: bytes, off: nat, ok: nat, now: int)
    requires s.nextID == W(|e.sent|) && s.did == e.did
    ensures WireAll(WriteChunks(e, b, off, ok, now).out, e.did)
         == WireAll(e.out, e.did) + C.WriteFrom(s, b, off, ok, now).out
    decreases |b| - off
  {
    hide Wrap32, EncodeData;
    if off < |b| && ok > 0 {
      var payload := b[off..Min(off + MAX_PAYLOAD, |b|)];
      WireAppend(e.out, [DataMsg(|e.sent|, payload)], e.did);
      NextWrapped(|e.sent|);
      WriteOutputRefines(Enqueue(e, payload, now, true), C.Queue(s, payload, now), b, off + MAX_PAYLOAD, ok - 1, now);
    }
  }

  lemma Joined(a: bytes, b: bytes, i: nat, j: nat, k: nat)
    requires i <= j <= k <= |b|
    ensures a + b[i..j] + b[j..k] == a + b[i..k]
  {
    assert b[i..j] + b[j..k] == b[i..k];
  }

  /** Which bytes Write queues. */
  lemma {:induction false} WroteIs(e: End, b: bytes, off: nat, ok: nat, now: int)
    requires off <= |b|
    ensures WriteChunks(e, b, off, ok, now).wrote == e.wrote + b[off..Min(off + (ok + 1) * MAX_PAYLOAD, |b|)]
    decreases |b| - off
  {
    if off < |b| {
      var end := Min(off + MAX_PAYLOAD, |b|);
      var queued := Enqueue(e, b[off..end], now, ok > 0);
      if ok > 0 && end < |b| {
        var last := Min(end + ok * MAX_PAYLOAD, |b|);
        WroteIs(queued, b, end, ok - 1, now);
        Joined(e.wrote, b, off, end, last);
      }
    }
  }

  // Delivery

  lemma {:induction false} HandleOfData(s: C.State, id: u32, payload: bytes, now: int, parse: bytes -> C.P2P)
    requires |payload| <= MAX_PAYLOAD
    ensures C.AfterHandle(s, EncodeData(s.cid, id, payload), now, parse)
         == C.AfterData(s.(lastHeard := now, gotAny := true), id, payload)
  {
    hide EncodeData, DecodeData, MagicOf, C.AfterData, C.AfterAck, C.AfterControl;
    DataRoundTrip(s.cid, id, payload);
  }

  lemma {:induction false} HandleOfAck(s: C.State, a: AckPacket, now: int, parse: bytes -> C.P2P)
    requires |a.have| <= C.MAX_AHEAD && a.conn == s.cid
    ensures C.AfterHandle(s, EncodeAck(a), now, parse) == C.AfterAck(s.(lastHeard := now), a)
  {
    hide EncodeAck, DecodeAck, MagicOf, C.AfterData, C.AfterAck, C.AfterControl;
    AckRoundTrip(a);
  }

  lemma {:induction false} HandleOfControl(s: C.State, b: bytes, now: int, parse: bytes -> C.P2P)
    requires MagicOf(b) == MAGIC_DISCOVERY
    ensures C.AfterHandle(s, b, now, parse) == C.AfterControl(s, C.Meaning(b, parse), now)
  {
    hide DecodeData, DecodeAck, C.Meaning, MagicOf, C.AfterData, C.AfterAck, C.AfterControl;
  }

  /** The half-turn condition on a delivery: the message is not too old for me. */
  ghost predicate Recent(me: End, m: Msg) {
    match m
    case DataMsg(n, _) => me.expected - n <= HALF
    case AckMsg(base, _, _) => |me.sent| - base <= HALF
    case ControlMsg(_, _) => true
  }

  /** A packet in flight is never too new: the receiver's gap is at most half a turn behind the sender. */
  lemma NotTooNew(peer: End, me: End, n: nat)
    requires Inv(peer, me) && Span(peer) && n < |peer.sent|
    ensures n - me.expected < HALF
  {
    if me.expected < |peer.sent| {
      assert !Holds(me, me.expected);
      assert me.expected in peer.unacked;
    }
  }

  lemma {:induction false} DeliverRefines(me: End, peer: End, s: C.State, m: Msg, now: int, parse: bytes -> C.P2P)
    requires StateRel(me, s) && me.cid == peer.did && Inv(me, peer) && Inv(peer, me) && Span(peer)
    requires m in peer.out && Recent(me, m)
    requires m.ControlMsg? ==> MagicOf(m.b) == MAGIC_DISCOVERY && m.meaning == C.Meaning(m.b, parse)
    ensures StateRel(OnMsg(me, m, now), C.AfterHandle(s, Wire(m, peer.did), now, parse))
  {
    hide StateRel, Inv, Span, C.AfterHandle, OnData, OnAck, OnControl, Wire, C.Meaning, MagicOf;
    match m
    case DataMsg(n, payload) => DeliverDataRefines(me, peer, s, n, payload, now, parse);
    case AckMsg(base, group, have) => DeliverAckRefines(me, peer, s, base, group, have, now, parse);
    case ControlMsg(b, meaning) => DeliverControlRefines(me, s, peer.did, b, now, parse);
  }

  lemma {:induction false} DeliverControlRefines(
    me: End, s: C.State, did: u32, b: bytes, now: int, parse: bytes -> C.P2P)
    requires StateRel(me, s) && MagicOf(b) == MAGIC_DISCOVERY
    ensures var m := ControlMsg(b, C.Meaning(b, parse));
            StateRel(OnMsg(me, m, now), C.AfterHandle(s, Wire(m, did), now, parse))
  {
    hide StateRel, C.Meaning, MagicOf, C.AfterHandle;
    HandleOfControl(s, b, now, parse);
    ControlRefines(me, s, C.Meaning(b, parse), now);
  }

  lemma {:induction false} DeliverDataRefines(
    me: End, peer: End, s: C.State, n: nat, payload: bytes, now: int, parse: bytes -> C.P2P)
    requires StateRel(me, s) && me.cid == peer.did && Inv(peer, me) && Span(peer)
    requires DataMsg(n, payload) in peer.out && me.expected - n <= HALF
    ensures StateRel(OnMsg(me, DataMsg(n, payload), now),
                     C.AfterHandle(s, Wire(DataMsg(n, payload), peer.did), now, parse))
  {
    hide MapRel, Wrap32, EncodeData, C.AfterHandle, Concat;
    NotTooNew(peer, me, n);
    HandleOfData(s, W(n), payload, now, parse);
    var me1, s1 := me.(lastHeard := now, gotAny := true), s.(lastHeard := now, gotAny := true);
    DataRefines(me1, s1, n, payload);
    DataIsReceiving(me1, n, payload);
    OnDataKeepsRest(me1, n, payload);
    AfterDataKeepsRest(s1, W(n), payload);
  }

  lemma {:induction false} DrainAllKeepsRest(e: End)
    ensures var e' := DrainAll(e);
            e'.cid == e.cid && e'.did == e.did && e'.err == e.err && e'.closed == e.closed
            && e'.lastHeard == e.lastHeard && e'.out == e.out && e'.taken == e.taken
    decreases |e.ahead|
  {
    if e.expected in e.ahead {
      DrainAllKeepsRest(Take(e));
    }
  }

  lemma OnDataKeepsRest(e: End, n: nat, payload: bytes)
    ensures var e' := OnData(e, n, payload);
            e'.cid == e.cid && e'.did == e.did && e'.err == e.err && e'.closed == e.closed
            && e'.lastHeard == e.lastHeard && e'.out == e.out && e'.taken == e.taken
  {
    if n == e.expected {
      DrainAllKeepsRest(e.(accepted := e.accepted + payload, expected := e.expected + 1));
    }
  }

  lemma {:induction false} DrainKeepsRest(s: C.State)
    ensures var s' := C.Drain(s); s' == s.(expected := s'.expected, ahead := s'.ahead, buf := s'.buf)
    decreases |s.ahead|
  {
    if s.expected in s.ahead {
      DrainKeepsRest(C.TakeNext(s));
    }
  }

  lemma AfterDataKeepsRest(s: C.State, id: u32, payload: bytes)
    ensures var s' := C.AfterData(s, id, payload); s' == s.(expected := s'.expected, ahead := s'.ahead, buf := s'.buf)
  {
    DrainKeepsRest(s.(buf := s.buf + payload, expected := Wrap32(s.expected + 1)));
  }

  lemma {:induction false} DeliverAckRefines(
    me: End, peer: End, s: C.State, base: nat, group: u32, have: bytes, now: int, parse: bytes -> C.P2P)
    requires StateRel(me, s) && me.cid == peer.did && Inv(me, peer)
    requires AckMsg(base, group, have) in peer.out && |me.sent| - base <= HALF
    ensures StateRel(OnMsg(me, AckMsg(base, group, have), now),
                     C.AfterHandle(s, Wire(AckMsg(base, group, have), peer.did), now, parse))
  {
    hide MapRel, Wrap32, EncodeAck, C.AfterHandle, Concat, NamedBy;
    var a := AckPacket(peer.did, group, W(base - 1), have);
    assert AckOk(peer, AckMsg(base, group, have));
    HandleOfAck(s, a, now, parse);
    AckRefines(me.(lastHeard := now), s.(lastHeard := now), base, a);
  }

  // Steps

  /** The step a real Conn takes: UdpConn's functions, on datagrams. */
  ghost predicate CanStep(c: Endpoint, peer: Endpoint, act: Action) {
    match act
    case Tick(now, order) => c.st.err == C.NoErr ==> C.IsDueOrder(c.st.unacked, now, WrapAll(order))
    case Deliver(i, _) => i < |peer.out|
    case _ => true
  }

  ghost function RealStep(c: Endpoint, peer: Endpoint, act: Action, parse: bytes -> C.P2P): Endpoint
    requires CanStep(c, peer, act)
  {
    match act
    case Write(b, ok, now) =>
      var w := C.AfterWrite(c.st, b, ok, now);
      c.(st := w.s, out := c.out + w.out, wrote := c.wrote + C.Queued(c.st, b, ok))
    case Tick(now, order) =>
      c.(st := C.AfterTick(c.st, now),
         out := c.out + if c.st.err == C.NoErr then C.TickOutput(c.st, WrapAll(order)) else [])
    case Deliver(i, now) => c.(st := C.AfterHandle(c.st, peer.out[i], now, parse))
    case Hear(b, now) => c.(st := C.AfterHandle(c.st, b, now, parse))
    case Read(n) =>
      var r := C.ReadResultOf(c.st, n);
      c.(st := C.AfterRead(c.st, n), read := if r.Data? then c.read + r.b else c.read)
    case Control(b, _) => c.(out := c.out + [b])
    case SocketError => c.(st := C.AfterFail(c.st, C.SocketFailed))
    case Close => c.(st := C.AfterClose(c.st))
  }

  /** What a step needs beyond being possible: the half-turn window, and control messages read as they parse. */
  ghost predicate Windowed(me: End, peer: End, act: Action, parse: bytes -> C.P2P)
    requires Possible(me, peer, act)
  {
    match act
    case Write(_, _, _) => Span(Step(me, peer, act))
    case Deliver(i, _) => Recent(me, peer.out[i])
    case Control(b, meaning) => meaning == C.Meaning(b, parse)
    case _ => true
  }

  lemma {:induction false} ControlRefines(e: End, s: C.State, meaning: C.P2P, now: int)
    requires StateRel(e, s)
    ensures StateRel(OnControl(e, meaning, now), C.AfterControl(s, meaning, now))
  {
    hide SenderRel, ReceiverRel;
    StateRelErr(e, s);
    var e', s' := OnControl(e, meaning, now), C.AfterControl(s, meaning, now);
    HalvesKept(e, s, e', s');
  }

  lemma HalvesKept(e: End, s: C.State, e': End, s': C.State)
    requires SenderRel(e, s) && ReceiverRel(e, s)
    requires e' == e.(lastHeard := e'.lastHeard, err := e'.err) && s' == s.(lastHeard := s'.lastHeard, err := s'.err)
    ensures SenderRel(e', s') && ReceiverRel(e', s')
  {
    hide MapRel, Wrap32, PacketsOf;
  }

  lemma {:induction false} WriteStepRefines(e: End, c: Endpoint, b: bytes, ok: nat, now: int, parse: bytes -> C.P2P)
    requires Rel(e, c, parse) && Span(OnWrite(e, b, ok, now))
    ensures var w := C.AfterWrite(c.st, b, ok, now);
            Rel(OnWrite(e, b, ok, now),
                c.(st := w.s, out := c.out + w.out, wrote := c.wrote + C.Queued(c.st, b, ok)), parse)
  {
    hide MapRel, Wrap32, PacketsOf, Wire, C.Meaning, MagicOf, EncodeData;
    if !e.closed && (e.err == C.NoErr || e.err == C.EndOfFile) {
      WriteRefines(e, c.st, b, 0, ok, now);
      WriteOutputRefines(e, c.st, b, 0, ok, now);
      WroteIs(e, b, 0, ok, now);
      WriteIsSending(e, b, 0, ok, now);
      WriteKeepsRest(e, b, 0, ok, now);
      WriteFromKeepsRest(c.st, b, 0, ok, now);
    } else {
      assert c.out + [] == c.out && c.wrote + [] == c.wrote;
    }
  }

  lemma {:induction false} WriteKeepsRest(e: End, b: bytes, off: nat, ok: nat, now: int)
    ensures var e' := WriteChunks(e, b, off, ok, now);
            && e'.cid == e.cid && e'.did == e.did && e'.err == e.err && e'.closed == e.closed
            && e'.lastHeard == e.lastHeard && e'.gotAny == e.gotAny
            && forall m :: m in e'.out && m.ControlMsg? ==> m in e.out
    decreases |b| - off
  {
    if off < |b| && ok > 0 {
      WriteKeepsRest(Enqueue(e, b[off..Min(off + MAX_PAYLOAD, |b|)], now, true), b, off + MAX_PAYLOAD, ok - 1, now);
    }
  }

  lemma {:induction false} WriteFromKeepsRest(s: C.State, b: bytes, off: nat, ok: nat, now: int)
    ensures var s' := C.WriteFrom(s, b, off, ok, now).s; s' == s.(nextID := s'.nextID, unacked := s'.unacked)
    decreases |b| - off
  {
    hide EncodeData;
    if off < |b| && ok > 0 {
      WriteFromKeepsRest(C.Queue(s, b[off..Min(off + MAX_PAYLOAD, |b|)], now), b, off + MAX_PAYLOAD, ok - 1, now);
    }
  }

  lemma {:induction false} TickStepRefines(e: End, c: Endpoint, now: int, order: seq<nat>, parse: bytes -> C.P2P)
    requires Rel(e, c, parse) && (e.err == C.NoErr ==> IsResendOrder(e.unacked, now, order))
    requires forall i :: 0 <= i < |order| ==> order[i] < |e.sent|
    ensures CanStep(c, c, Tick(now, order))
    ensures Rel(OnTick(e, now, order), RealStep(c, c, Tick(now, order), parse), parse)
  {
    hide StateRel, Wire, C.Meaning, MagicOf, C.TickOutput, C.AfterTick;
    StateRelErr(e, c.st);
    TickRefines(e, c.st, now, order);
    TickKeepsRest(e, now, order);
    if e.err == C.NoErr {
      TickOutputRefines(e, c.st, now, order);
    } else {
      assert c.out + [] == c.out;
    }
  }

  lemma StateRelErr(e: End, s: C.State)
    requires StateRel(e, s)
    ensures s.err == e.err && s.did == e.did
  {
  }

  lemma TickKeepsRest(e: End, now: int, order: seq<nat>)
    requires forall i :: 0 <= i < |order| ==> order[i] < |e.sent|
    ensures var e' := OnTick(e, now, order);
            && e'.did == e.did && e'.wrote == e.wrote && e'.accepted == e.accepted && e'.taken == e.taken
            && (e.err != C.NoErr ==> e'.out == e.out)
            && forall m :: m in e'.out && m.ControlMsg? ==> m in e.out
  {
  }

  lemma {:induction false} DeliverStepRefines(
    e: End, c: Endpoint, peer: End, cp: Endpoint, i: nat, now: int, parse: bytes -> C.P2P)
    requires Rel(e, c, parse) && Rel(peer, cp, parse) && e.cid == peer.did && Inv(e, peer) && Inv(peer, e)
    requires i < |peer.out| && Recent(e, peer.out[i])
    ensures i < |cp.out|
    ensures Rel(OnMsg(e, peer.out[i], now), c.(st := C.AfterHandle(c.st, cp.out[i], now, parse)), parse)
  {
    hide C.AfterHandle, Inv, Recent, Wire, C.Meaning, MagicOf, OnData, OnAck, OnControl, MapRel, PacketsOf;
    assert peer.out[i] in peer.out && cp.out[i] == Wire(peer.out[i], peer.did);
    DeliverRefines(e, peer, c.st, peer.out[i], now, parse);
    MsgKeepsRest(e, peer.out[i], now);
  }

  /** A delivery changes neither what was sent nor what was handed to Read, and only adds to what was accepted. */
  lemma MsgKeepsRest(e: End, m: Msg, now: int)
    ensures var e' := OnMsg(e, m, now);
            && e'.cid == e.cid && e'.did == e.did && e'.out == e.out && e'.wrote == e.wrote && e'.taken == e.taken
            && e.accepted <= e'.accepted
  {
    if m.DataMsg? {
      var heard := e.(lastHeard := now, gotAny := true);
      OnDataKeepsRest(heard, m.n, m.payload);
      DataIsReceiving(heard, m.n, m.payload);
      AcceptedGrows(heard, m.n, m.payload);
    }
  }

  lemma {:induction false} DrainGrows(e: End)
    ensures e.accepted <= DrainAll(e).accepted
    decreases |e.ahead|
  {
    if e.expected in e.ahead {
      DrainGrows(Take(e));
    }
  }

  lemma AcceptedGrows(e: End, n: nat, payload: bytes)
    ensures e.accepted <= OnData(e, n, payload).accepted
  {
    if n == e.expected {
      DrainGrows(e.(accepted := e.accepted + payload, expected := e.expected + 1));
    }
  }

  lemma {:induction false} ReadStepRefines(e: End, c: Endpoint, n: nat, parse: bytes -> C.P2P)
    requires Rel(e, c, parse)
    ensures e.taken <= |e.accepted| && Rel(OnRead(e, n), RealStep(c, c, Read(n), parse), parse)
  {
    hide MapRel, Wrap32, PacketsOf, WireAll, C.Meaning, MagicOf;
    var k := Min(n, |c.st.buf|);
    assert e.accepted[..e.taken + k] == e.accepted[..e.taken] + e.accepted[e.taken..][..k];
    assert e.accepted[e.taken..][k..] == e.accepted[e.taken + k..];
  }

  lemma {:induction false} HearStepRefines(e: End, c: Endpoint, b: bytes, now: int, parse: bytes -> C.P2P)
    requires Rel(e, c, parse) && C.Stray(e.cid, b)
    ensures Rel(e, c.(st := C.AfterHandle(c.st, b, now, parse)), parse)
  {
    hide C.AfterHandle, C.Stray, MapRel, PacketsOf, OutRel;
    C.IgnoredIff(c.st, b, now, parse);
  }

  lemma {:induction false} OtherStepRefines(e: End, c: Endpoint, act: Action, parse: bytes -> C.P2P)
    requires Rel(e, c, parse) && (act.Control? || act.SocketError? || act.Close?)
    requires Possible(e, e, act) && Windowed(e, e, act, parse)
    ensures Rel(Step(e, e, act), RealStep(c, c, act, parse), parse)
  {
    hide MapRel, Wrap32, PacketsOf, C.Meaning, MagicOf;
    if act.Control? {
      WireAppend(e.out, [ControlMsg(act.b, act.meaning)], e.did);
    }
  }

  /** One step: whatever the unbounded end does, the real Conn does on datagrams. */
  lemma {:induction false} StepRefines(e: End, c: Endpoint, peer: End, cp: Endpoint, act: Action, parse: bytes -> C.P2P)
    requires Rel(e, c, parse) && Rel(peer, cp, parse) && e.cid == peer.did && Inv(e, peer) && Inv(peer, e)
    requires Possible(e, peer, act) && Windowed(e, peer, act, parse)
    ensures CanStep(c, cp, act) && Rel(Step(e, peer, act), RealStep(c, cp, act, parse), parse)
  {
    hide Rel, Inv, OnWrite, OnTick, OnMsg, OnRead, IsResendOrder, C.Queued, C.AfterWrite, C.AfterTick, C.AfterHandle,
         C.TickOutput;
    match act
    case Write(b, ok, now) => WriteStepRefines(e, c, b, ok, now, parse);
    case Tick(now, order) => TickStepRefines(e, c, now, order, parse);
    case Deliver(i, now) => DeliverStepRefines(e, c, peer, cp, i, now, parse);
    case Hear(b, now) => HearStepRefines(e, c, b, now, parse);
    case Read(n) => ReadStepRefines(e, c, n, parse);
    case _ => OtherStepRefines(e, c, act, parse);
  }

  // Runs

  datatype RealWorld = RealWorld(a: Endpoint, b: Endpoint)

  ghost predicate CanRealMove(c: RealWorld, mv: Move) {
    match mv
    case ByA(act) => CanStep(c.a, c.b, act)
    case ByB(act) => CanStep(c.b, c.a, act)
  }

  ghost function RealMoved(c: RealWorld, mv: Move, parse: bytes -> C.P2P): RealWorld
    requires CanRealMove(c, mv)
  {
    match mv
    case ByA(act) => c.(a := RealStep(c.a, c.b, act, parse))
    case ByB(act) => c.(b := RealStep(c.b, c.a, act, parse))
  }

  ghost predicate IsRealRun(c: RealWorld, moves: seq<Move>, parse: bytes -> C.P2P)
    decreases |moves|
  {
    moves == [] || (CanRealMove(c, moves[0]) && IsRealRun(RealMoved(c, moves[0], parse), moves[1..], parse))
  }

  ghost function RealFinal(c: RealWorld, moves: seq<Move>, parse: bytes -> C.P2P): RealWorld
    requires IsRealRun(c, moves, parse)
    decreases |moves|
  {
    if moves == [] then c else RealFinal(RealMoved(c, moves[0], parse), moves[1..], parse)
  }

  /** The half-turn window holds at every move of the run. */
  ghost predicate IsWindowedRun(w: World, moves: seq<Move>, parse: bytes -> C.P2P)
    requires IsRun(w, moves)
    decreases |moves|
  {
    moves == []
    || (match moves[0] {
          case ByA(act) => Windowed(w.a, w.b, act, parse)
          case ByB(act) => Windowed(w.b, w.a, act, parse)
        } && IsWindowedRun(Moved(w, moves[0]), moves[1..], parse))
  }

  /** Each end's connection id is the other's. */
  predicate Paired(w: World) { w.a.cid == w.b.did && w.b.cid == w.a.did }

  ghost predicate WorldRel(w: World, c: RealWorld, parse: bytes -> C.P2P) {
    Rel(w.a, c.a, parse) && Rel(w.b, c.b, parse)
  }

  lemma {:induction false} StepKeepsIds(me: End, peer: End, act: Action)
    requires Possible(me, peer, act)
    ensures Step(me, peer, act).cid == me.cid && Step(me, peer, act).did == me.did
  {
    match act
    case Write(b, ok, now) => WriteKeepsRest(me, b, 0, ok, now);
    case Deliver(i, now) => MsgKeepsRest(me, peer.out[i], now);
    case _ =>
  }

  lemma {:induction false} MoveRefines(w: World, c: RealWorld, mv: Move, parse: bytes -> C.P2P)
    requires BothWays(w) && Paired(w) && WorldRel(w, c, parse) && IsRun(w, [mv]) && IsWindowedRun(w, [mv], parse)
    ensures CanRealMove(c, mv) && WorldRel(Moved(w, mv), RealMoved(c, mv, parse), parse) && Paired(Moved(w, mv))
  {
    hide Rel, Inv, Step, RealStep, Windowed, Possible, CanStep;
    assert [mv][0] == mv;
    match mv
    case ByA(act) =>
      StepRefines(w.a, c.a, w.b, c.b, act, parse);
      StepKeepsIds(w.a, w.b, act);
    case ByB(act) =>
      StepRefines(w.b, c.b, w.a, c.a, act, parse);
      StepKeepsIds(w.b, w.a, act);
  }

  /**
   End-to-end safety of the wrapped code. Over every run of two Conns in which no delivery and no
   backlog reaches back more than half a turn, the code does what the unbounded machine does, and
   what either user has read, together with what waits in the buffer, is a prefix of what the
   other user's Writes have queued.
   */
  lemma {:induction false} RealRunIsSafe(w: World, c: RealWorld, moves: seq<Move>, parse: bytes -> C.P2P)
    requires BothWays(w) && Paired(w) && WorldRel(w, c, parse)
    requires IsRun(w, moves) && IsWindowedRun(w, moves, parse)
    ensures IsRealRun(c, moves, parse) && WorldRel(Final(w, moves), RealFinal(c, moves, parse), parse)
    ensures var f := RealFinal(c, moves, parse);
            f.b.read + f.b.st.buf <= f.a.wrote && f.a.read + f.a.st.buf <= f.b.wrote
    decreases |moves|
  {
    hide Rel, Inv, Step, RealStep, Windowed, Possible, CanStep;
    if moves == [] {
      RunIsSafe(w, []);
      AcceptedOf(w.a, c.a, parse);
      AcceptedOf(w.b, c.b, parse);
    } else {
      var mv := moves[0];
      assert IsRun(Moved(w, mv), []) && IsWindowedRun(Moved(w, mv), [], parse);
      MoveRefines(w, c, mv, parse);
      MoveKeeps(w, mv);
      RealRunIsSafe(Moved(w, mv), RealMoved(c, mv, parse), moves[1..], parse);
    }
  }

  lemma AcceptedOf(e: End, c: Endpoint, parse: bytes -> C.P2P)
    requires Rel(e, c, parse)
    ensures c.read + c.st.buf == e.accepted && c.wrote == e.wrote
  {
    assert e.accepted[..e.taken] + e.accepted[e.taken..] == e.accepted;
  }

  /** Two fresh Conns, paired, are where such runs start. */
  lemma {:induction false} FreshConnsRelate(cidA: u32, cidB: u32, nowA: int, nowB: int, parse: bytes -> C.P2P)
    ensures var w := World(Start(cidA, cidB, nowA), Start(cidB, cidA, nowB));
            var s := (cid, did, now) => C.State(cid, did, 0, map[], 0, false, map[], [], C.NoErr, false, now);
            var c := RealWorld(Endpoint(s(cidA, cidB, nowA), [], [], []), Endpoint(s(cidB, cidA, nowB), [], [], []));
            BothWays(w) && Paired(w) && WorldRel(w, c, parse)
  {
  }

  // What the window is for

  /**
   Without the window the code can be wrong: a data packet delivered a whole turn late carries the id
   the receiver is waiting for, and its payload is appended again.
   */
  lemma {:induction false} StaleTurnAppended(s: C.State, n: nat, payload: bytes)
    requires s.expected == W(n + TURN) && C.InWindow(s.ahead, s.expected)
    ensures s.buf + payload <= C.AfterData(s, W(n), payload).buf && C.AfterData(s, W(n), payload) != s
  {
    hide C.AfterData, C.InWindow, C.Drain;
    TurnSame(n);
    C.GapFilled(s, payload);
  }

  lemma TurnSame(n: nat)
    ensures W(n + TURN) == W(n)
  {
  }

  /**
   Exactly which late packets do no harm: packet n, delivered when the receiver waits for packet m after
   it, leaves the state alone if and only if it is seen as late, or lands past the kept packets' window,
   or on a packet already kept.
   */
  lemma {:induction false} LateIsHarmlessIff(s: C.State, n: nat, m: nat, payload: bytes)
    requires n < m && s.expected == W(m) && C.InWindow(s.ahead, s.expected)
    ensures C.AfterData(s, W(n), payload) == s <==>
            (m - n - 1) % TURN < HALF || C.Sub(W(n), W(m)) >= C.MAX_AHEAD || W(n) in s.ahead
  {
    BeforeIffInWindow(n, m);
    if C.Before(W(n), W(m)) {
    } else if W(n) == W(m) {
      assert C.Sub(W(n), W(m)) == 0;
      C.GapFilled(s, payload);
    } else if C.Sub(W(n), W(m)) < C.MAX_AHEAD && W(n) !in s.ahead {
      assert W(n) in C.AfterData(s, W(n), payload).ahead;
    }
  }

  /** Exactly when the wrapped code takes a packet for what it is: the order test agrees with the numbers. */
  lemma BeforeIffInWindow(n: int, m: int)
    ensures (C.Before(W(n), W(m)) <==> n < m) <==> (if n < m then (m - n - 1) % TURN < HALF else (n - m) % TURN < HALF)
  {
    var d := (n - m) % TURN;
    assert C.Sub(W(n), W(m)) == d;
    assert n - m == TURN * ((n - m) / TURN) + d;
    if n < m {
      assert m - n - 1 == TURN * (-((n - m) / TURN) - 1) + (TURN - 1 - d);
      assert (m - n - 1) % TURN == TURN - 1 - d;
    }
  }

  /** An ack from half a turn or more before packet n, read as naming it: by the order test, or at a wrapped offset. */
  predicate ReadAsNaming(n: nat, base: nat, have: bytes) {
    var d := (n - base) % TURN;
    n - base >= HALF && (d >= HALF || (d < |have| && have[d] == 1))
  }

  /** Exactly when the wrapped code takes an ack to name a packet that it does not name. */
  lemma MisnamedIff(n: nat, base: nat, a: AckPacket)
    requires a.last == W(base - 1) && |a.have| <= C.MAX_AHEAD
    ensures C.Acked(W(n), a) && !NamedBy(n, base, a.have) <==> ReadAsNaming(n, base, a.have)
  {
    NextWrapped(base - 1);
    SubIs(n, base);
    BeforeIffInWindow(n, base);
    hide W, Wrap32, C.Sub;
  }

  lemma SubIs(n: int, m: int)
    ensures C.Sub(W(n), W(m)) == (n - m) % TURN
    ensures C.Before(W(n), W(m)) <==> (n - m) % TURN >= HALF
  {
  }

  /**
   Exactly which packets the receiver lacks a late ack makes the sender forget: of those unacked, the ones the
   ack was sent half a turn or more before and is read as naming.
   */
  lemma {:induction false} LateAckForgetsIff(e: End, s: C.State, r: End, base: nat, a: AckPacket, n: nat)
    requires SenderRel(e, s) && a.last == W(base - 1) && |a.have| <= C.MAX_AHEAD
    requires AckOk(r, AckMsg(base, a.group, a.have)) && n in e.unacked && !Holds(r, n)
    ensures W(n) in s.unacked
    ensures W(n) !in C.AfterAck(s, a).unacked <==> ReadAsNaming(n, base, a.have)
  {
    hide MapRel, W, C.Acked, ReadAsNaming;
    ValueAt(Packets(e), s.unacked, |e.sent| - HALF, n);
    MisnamedIff(n, base, a);
  }

  /** The first ack of all, that nothing has arrived, delivered half a turn on: what is then unacked is forgotten. */
  lemma {:induction false} StaleAckForgets(e: End, s: C.State, a: AckPacket, n: nat)
    requires SenderRel(e, s) && a.last == W(-1) && a.have == [] && n in e.unacked && HALF <= n < TURN
    ensures W(n) in s.unacked && W(n) !in C.AfterAck(s, a).unacked
  {
    hide MapRel, W, C.Acked, ReadAsNaming;
    ValueAt(Packets(e), s.unacked, |e.sent| - HALF, n);
    MisnamedIff(n, 0, a);
    ReadFromZero(n);
  }

  lemma ReadFromZero(n: nat)
    requires HALF <= n < TURN
    ensures ReadAsNaming(n, 0, [])
  {
  }
}
