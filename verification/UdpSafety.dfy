/**
 Safety of the byte stream over every run: what one end has accepted is always a prefix of what
 the other end has queued, and acks never make a sender forget a packet that has not arrived.
 */
module UdpSafety {
  import opened Bytes
  import opened UdpPacket
  import opened UdpConn
  import opened UdpStream

  /** r' holds all r holds and has sent what r has sent. */
  ghost predicate Grows(r: End, r': End) {
    && r.expected <= r'.expected && r'.out == r.out
    && forall n :: Holds(r, n) ==> Holds(r', n)
  }

  // The receiver

  /** ReceiverOk before the packets that follow on have been taken from ahead. */
  ghost predicate Undrained(sent: seq<bytes>, r: End) {
    && r.expected <= |sent|
    && r.accepted == Concat(sent[..r.expected])
    && r.taken <= |r.accepted|
    && (forall n :: n in r.ahead ==> r.expected <= n < r.expected + MAX_AHEAD && n < |sent| && r.ahead[n] == sent[n])
  }

  lemma AcceptNext(sent: seq<bytes>, k: nat)
    requires k < |sent|
    ensures Concat(sent[..k + 1]) == Concat(sent[..k]) + sent[k]
  {
    assert sent[..k + 1] == sent[..k] + [sent[k]];
    ConcatSnoc(sent[..k], sent[k]);
  }

  lemma {:induction false} DrainKeeps(sent: seq<bytes>, r: End)
    requires Undrained(sent, r)
    ensures ReceiverOk(sent, DrainAll(r)) && Grows(r, DrainAll(r))
    decreases |r.ahead|
  {
    if r.expected in r.ahead {
      AcceptNext(sent, r.expected);
      DrainKeeps(sent, Take(r));
    }
  }

  /** A packet that really was sent, delivered at any time, keeps the receiver right. */
  lemma {:induction false} DataKeeps(sent: seq<bytes>, r: End, n: nat)
    requires ReceiverOk(sent, r) && n < |sent|
    ensures ReceiverOk(sent, OnData(r, n, sent[n])) && Grows(r, OnData(r, n, sent[n]))
  {
    if n == r.expected {
      AcceptNext(sent, n);
      DrainKeeps(sent, r.(accepted := r.accepted + sent[n], expected := r.expected + 1));
    }
  }

  lemma {:induction false} FarthestIs(ahead: map<nat, bytes>, expected: nat, k: nat)
    ensures forall n :: expected < n <= expected + k && n in ahead ==> n <= expected + Farthest(ahead, expected, k)
  {
    if k > 0 && expected + k !in ahead {
      FarthestIs(ahead, expected, k - 1);
    }
  }

  /** An ack names exactly the packets the receiver holds. */
  lemma {:induction false} AckExact(sent: seq<bytes>, r: End, n: nat)
    requires ReceiverOk(sent, r)
    ensures NamedBy(n, r.expected, HaveList(r.ahead, r.expected)) <==> Holds(r, n)
  {
    FarthestIs(r.ahead, r.expected, MAX_AHEAD - 1);
  }

  lemma {:induction false} AckFromOk(sent: seq<bytes>, r: End)
    requires ReceiverOk(sent, r)
    ensures AckOk(r, AckFrom(r))
  {
    forall n | NamedBy(n, r.expected, HaveList(r.ahead, r.expected))
      ensures Holds(r, n)
    {
      AckExact(sent, r, n);
    }
  }

  lemma {:induction false} GrowthKeeps(s: End, r: End, r': End)
    requires Inv(s, r) && Grows(r, r') && ReceiverOk(s.sent, r')
    ensures Inv(s, r')
  {
    forall m | m in r'.out && m.AckMsg?
      ensures AckOk(r', m)
    {
      assert AckOk(r, m);
    }
  }

  // The sender

  lemma {:induction false} EnqueueKeeps(s: End, r: End, payload: bytes, now: int, taken: bool)
    requires Inv(s, r) && |payload| <= MAX_PAYLOAD
    ensures Inv(Enqueue(s, payload, now, taken), r)
  {
    var s' := Enqueue(s, payload, now, taken);
    ConcatSnoc(s.sent, payload);
    assert s'.sent[..r.expected] == s.sent[..r.expected];
  }

  lemma {:induction false} WriteKeeps(s: End, r: End, b: bytes, off: nat, ok: nat, now: int)
    requires Inv(s, r)
    ensures Inv(WriteChunks(s, b, off, ok, now), r)
    decreases |b| - off
  {
    if off < |b| {
      var payload := b[off..Min(off + MAX_PAYLOAD, |b|)];
      EnqueueKeeps(s, r, payload, now, ok > 0);
      if ok > 0 {
        WriteKeeps(Enqueue(s, payload, now, true), r, b, off + MAX_PAYLOAD, ok - 1, now);
      }
    }
  }

  lemma {:induction false} AckKeeps(s: End, r: End, m: Msg)
    requires Inv(s, r) && m.AckMsg? && m in r.out
    ensures Inv(OnAck(s, m.base, m.have), r)
  {
    assert AckOk(r, m);
  }

  // Sending never disturbs the other direction

  /** me' differs from me only in what its own sending half did: no new acks, the same receiving half. */
  ghost predicate SameReceiver(me: End, me': End) {
    && me'.expected == me.expected && me'.ahead == me.ahead && me'.accepted == me.accepted && me'.taken == me.taken
    && forall m :: m in me'.out && m.AckMsg? ==> m in me.out
  }

  lemma {:induction false} WriteIsSending(s: End, b: bytes, off: nat, ok: nat, now: int)
    ensures SameReceiver(s, WriteChunks(s, b, off, ok, now))
    decreases |b| - off
  {
    if off < |b| && ok > 0 {
      WriteIsSending(Enqueue(s, b[off..Min(off + MAX_PAYLOAD, |b|)], now, true), b, off + MAX_PAYLOAD, ok - 1, now);
    }
  }

  lemma SendingKeeps(s: End, me: End, me': End)
    requires Inv(s, me) && SameReceiver(me, me')
    ensures Inv(s, me')
  {
    hide Concat;
    forall m | m in me'.out && m.AckMsg?
      ensures AckOk(me', m)
    {
      assert AckOk(me, m);
    }
  }

  /** me' differs from me only in what its own receiving half did. */
  ghost predicate SameSender(me: End, me': End) {
    && me'.sent == me.sent && me'.wrote == me.wrote && me'.unacked == me.unacked
    && forall m :: m in me'.out && m.DataMsg? ==> m in me.out
  }

  lemma {:induction false} DrainIsReceiving(r: End)
    ensures SameSender(r, DrainAll(r))
    decreases |r.ahead|
  {
    if r.expected in r.ahead {
      DrainIsReceiving(Take(r));
    }
  }

  lemma DataIsReceiving(r: End, n: nat, payload: bytes)
    ensures SameSender(r, OnData(r, n, payload))
  {
    if n == r.expected {
      DrainIsReceiving(r.(accepted := r.accepted + payload, expected := r.expected + 1));
    }
  }

  lemma ReceivingKeeps(me: End, me': End, peer: End)
    requires Inv(me, peer) && SameSender(me, me')
    ensures Inv(me', peer)
  {
  }

  /** A control message reaches neither half. */
  lemma ControlChangesNeither(e: End, meaning: P2P, now: int)
    ensures var e' := OnControl(e, meaning, now); e' == e.(lastHeard := e'.lastHeard, err := e'.err)
  {
  }

  // Steps

  lemma {:induction false} DeliverKeepsOutbound(me: End, peer: End, m: Msg, now: int)
    requires Inv(me, peer) && m in peer.out
    ensures Inv(OnMsg(me, m, now), peer)
  {
    match m
    case DataMsg(n, payload) =>
      var heard := me.(lastHeard := now, gotAny := true);
      DataIsReceiving(heard, n, payload);
      ReceivingKeeps(heard, OnData(heard, n, payload), peer);
    case AckMsg(base, _, have) => AckKeeps(me.(lastHeard := now), peer, m);
    case ControlMsg(_, meaning) =>
      ControlChangesNeither(me, meaning, now);
      ReceivingKeeps(me, OnControl(me, meaning, now), peer);
  }

  lemma {:induction false} DeliverKeepsInbound(me: End, peer: End, m: Msg, now: int)
    requires Inv(peer, me) && m in peer.out
    ensures Inv(peer, OnMsg(me, m, now))
  {
    match m
    case DataMsg(n, payload) =>
      var heard := me.(lastHeard := now, gotAny := true);
      SendingKeeps(peer, me, heard);
      DataKeeps(peer.sent, heard, n);
      GrowthKeeps(peer, heard, OnData(heard, n, payload));
    case AckMsg(base, _, have) => SendingKeeps(peer, me, OnAck(me.(lastHeard := now), base, have));
    case ControlMsg(_, meaning) =>
      ControlChangesNeither(me, meaning, now);
      SendingKeeps(peer, me, OnControl(me, meaning, now));
  }

  lemma {:induction false} TickKeepsOutbound(me: End, peer: End, now: int, order: seq<nat>)
    requires Inv(me, peer) && forall i :: 0 <= i < |order| ==> order[i] < |me.sent|
    ensures Inv(OnTick(me, now, order), peer)
  {
    var me' := OnTick(me, now, order);
    if me.err == NoErr {
      forall m | m in me'.out && m.DataMsg?
        ensures m.n < |me.sent| && m.payload == me.sent[m.n]
      {
        if m !in me.out {
          assert m in Resends(me.sent, order);
        }
      }
    }
  }

  lemma {:induction false} TickKeepsInbound(me: End, peer: End, now: int, order: seq<nat>)
    requires Inv(peer, me) && forall i :: 0 <= i < |order| ==> order[i] < |me.sent|
    ensures Inv(peer, OnTick(me, now, order))
  {
    var me' := OnTick(me, now, order);
    if me.err == NoErr {
      forall m | m in me'.out && m.AckMsg?
        ensures AckOk(me', m)
      {
        if m in me.out {
          assert AckOk(me, m);
        } else {
          assert m !in Resends(me.sent, order);
          AckFromOk(peer.sent, me);
        }
      }
    }
  }

  /** Any step of me keeps the direction in which me sends. */
  lemma {:induction false} StepKeepsOutbound(me: End, peer: End, act: Action)
    requires Inv(me, peer) && Possible(me, peer, act)
    ensures Inv(Step(me, peer, act), peer)
  {
    match act
    case Write(b, ok, now) => WriteKeeps(me, peer, b, 0, ok, now);
    case Tick(now, order) => TickKeepsOutbound(me, peer, now, order);
    case Deliver(i, now) => DeliverKeepsOutbound(me, peer, peer.out[i], now);
    case _ => ReceivingKeeps(me, Step(me, peer, act), peer);
  }

  /** Any step of me keeps the direction in which me receives. */
  lemma {:induction false} StepKeepsInbound(me: End, peer: End, act: Action)
    requires Inv(peer, me) && Possible(me, peer, act)
    ensures Inv(peer, Step(me, peer, act))
  {
    match act
    case Write(b, ok, now) =>
      WriteIsSending(me, b, 0, ok, now);
      SendingKeeps(peer, me, WriteChunks(me, b, 0, ok, now));
    case Tick(now, order) => TickKeepsInbound(me, peer, now, order);
    case Deliver(i, now) => DeliverKeepsInbound(me, peer, peer.out[i], now);
    case Read(_) =>
      assert forall m :: m in me.out && m.AckMsg? && AckOk(me, m) ==> AckOk(Step(me, peer, act), m);
    case _ => SendingKeeps(peer, me, Step(me, peer, act));
  }

  // Runs

  datatype World = World(a: End, b: End)

  datatype Move = ByA(act: Action) | ByB(act: Action)

  ghost predicate CanMove(w: World, mv: Move) {
    match mv
    case ByA(act) => Possible(w.a, w.b, act)
    case ByB(act) => Possible(w.b, w.a, act)
  }

  ghost function Moved(w: World, mv: Move): World
    requires CanMove(w, mv)
  {
    match mv
    case ByA(act) => w.(a := Step(w.a, w.b, act))
    case ByB(act) => w.(b := Step(w.b, w.a, act))
  }

  /** Every move of the run can be made when its turn comes. */
  ghost predicate IsRun(w: World, moves: seq<Move>)
    decreases |moves|
  {
    moves == [] || (CanMove(w, moves[0]) && IsRun(Moved(w, moves[0]), moves[1..]))
  }

  ghost function Final(w: World, moves: seq<Move>): World
    requires IsRun(w, moves)
    decreases |moves|
  {
    if moves == [] then w else Final(Moved(w, moves[0]), moves[1..])
  }

  ghost predicate BothWays(w: World) { Inv(w.a, w.b) && Inv(w.b, w.a) }

  lemma MoveKeeps(w: World, mv: Move)
    requires BothWays(w) && CanMove(w, mv)
    ensures BothWays(Moved(w, mv))
  {
    match mv
    case ByA(act) =>
      StepKeepsOutbound(w.a, w.b, act);
      StepKeepsInbound(w.a, w.b, act);
    case ByB(act) =>
      StepKeepsOutbound(w.b, w.a, act);
      StepKeepsInbound(w.b, w.a, act);
  }

  /**
   Over every run with loss, repetition and reordering, both directions keep their invariant; in
   particular each end has accepted a prefix of what the other has queued.
   */
  lemma {:induction false} RunIsSafe(w: World, moves: seq<Move>)
    requires BothWays(w) && IsRun(w, moves)
    ensures BothWays(Final(w, moves))
    ensures var f := Final(w, moves); f.b.accepted <= f.a.wrote && f.a.accepted <= f.b.wrote
    decreases |moves|
  {
    if moves == [] {
      ConcatPrefix(w.a.sent, w.b.expected);
      ConcatPrefix(w.b.sent, w.a.expected);
    } else {
      MoveKeeps(w, moves[0]);
      RunIsSafe(Moved(w, moves[0]), moves[1..]);
    }
  }
}
