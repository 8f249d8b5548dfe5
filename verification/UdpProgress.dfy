/**
 Progress of the byte stream: while data is outstanding the packet the receiver waits for is still
 to be resent, what gets through is accepted, a round of resending that gets through moves the
 receiver on by a window or to the end, some run always leads to the end, and once everything has
 arrived one ack empties the sender's list.
 */
module UdpProgress {
  import opened Bytes
  import opened UdpPacket
  import opened UdpConn
  import opened UdpStream
  import opened UdpSafety

  /** The packet the receiver waits for is never the one the sender has forgotten. */
  lemma {:induction false} AwaitedIsUnacked(s: End, r: End)
    requires Inv(s, r) && r.expected < |s.sent|
    ensures r.expected in s.unacked
  {
    assert !Holds(r, r.expected);
  }

  /** The receiver's side of a move: where it waits never goes back, and what it holds stays held. */
  lemma {:induction false} DeliveryGrows(s: End, r: End, m: Msg, now: int)
    requires Inv(s, r) && m in s.out
    ensures var r' := OnMsg(r, m, now);
            r.expected <= r'.expected && forall n :: Holds(r, n) ==> Holds(r', n)
  {
    if m.DataMsg? {
      var heard := r.(lastHeard := now, gotAny := true);
      assert ReceiverOk(s.sent, heard);
      DataKeeps(s.sent, heard, m.n);
    }
  }

  /** A packet less than a window past the gap is held once delivered; what lies farther is discarded. */
  lemma {:induction false} DeliveredIsHeld(s: End, r: End, m: Msg, now: int)
    requires Inv(s, r) && m in s.out && m.DataMsg?
    ensures Holds(OnMsg(r, m, now), m.n) <==> (m.n < r.expected + MAX_AHEAD || Holds(r, m.n))
  {
    var heard := r.(lastHeard := now, gotAny := true);
    assert ReceiverOk(s.sent, heard);
    DataKeeps(s.sent, heard, m.n);
    if m.n == r.expected {
      var next := heard.(accepted := heard.accepted + m.payload, expected := heard.expected + 1);
      AcceptNext(s.sent, m.n);
      DrainKeeps(s.sent, next);
      assert Holds(next, m.n);
    }
  }

  lemma GapNotHeld(w: World)
    requires BothWays(w)
    ensures !Holds(w.b, w.b.expected)
  {
    hide SenderOk, AcksOk, Retained;
  }

  // What a run delivers

  /** The move hands B a datagram that carries packet n. */
  ghost predicate HandsOver(w: World, mv: Move, n: nat) {
    mv.ByB? && mv.act.Deliver? && mv.act.i < |w.a.out| && w.a.out[mv.act.i].DataMsg? && w.a.out[mv.act.i].n == n
  }

  /** A copy of packet n, first sent or resent, gets through somewhere in the run. */
  ghost predicate GetsThrough(w: World, moves: seq<Move>, n: nat)
    requires IsRun(w, moves)
    decreases |moves|
  {
    moves != [] && (HandsOver(w, moves[0], n) || GetsThrough(Moved(w, moves[0]), moves[1..], n))
  }

  /** Whatever the move, what is queued, sent and held only grows. */
  lemma {:induction false} MoveGrows(w: World, mv: Move)
    requires BothWays(w) && CanMove(w, mv)
    ensures var w' := Moved(w, mv);
            && w.a.sent <= w'.a.sent && w.a.out <= w'.a.out && w.b.expected <= w'.b.expected
            && forall n :: Holds(w.b, n) ==> Holds(w'.b, n)
  {
    match mv
    case ByA(act) =>
      ActGrows(w.a, w.b, act);
    case ByB(act) =>
      if act.Deliver? {
        DeliveryGrows(w.a, w.b, w.a.out[act.i], act.now);
      } else {
        ActKeepsReceived(w.b, w.a, act);
      }
  }

  lemma {:induction false} ActGrows(me: End, peer: End, act: Action)
    requires Possible(me, peer, act)
    ensures me.sent <= Step(me, peer, act).sent && me.out <= Step(me, peer, act).out
  {
    match act
    case Write(b, ok, now) => ChunksGrow(me, b, 0, ok, now);
    case Deliver(i, now) =>
      if peer.out[i].DataMsg? {
        DataSendsNothing(me.(lastHeard := now, gotAny := true), peer.out[i].n, peer.out[i].payload);
      }
    case _ =>
  }

  lemma DataSendsNothing(e: End, n: nat, payload: bytes)
    ensures OnData(e, n, payload).sent == e.sent && OnData(e, n, payload).out == e.out
  {
    if n == e.expected {
      DrainSendsNothing(e.(accepted := e.accepted + payload, expected := e.expected + 1));
    }
  }

  lemma {:induction false} DrainSendsNothing(e: End)
    ensures DrainAll(e).sent == e.sent && DrainAll(e).out == e.out
    decreases |e.ahead|
  {
    if e.expected in e.ahead {
      DrainSendsNothing(Take(e));
    }
  }

  lemma {:induction false} ChunksGrow(e: End, b: bytes, off: nat, ok: nat, now: int)
    ensures e.sent <= WriteChunks(e, b, off, ok, now).sent && e.out <= WriteChunks(e, b, off, ok, now).out
    decreases |b| - off
  {
    if off < |b| && ok > 0 {
      ChunksGrow(Enqueue(e, b[off..Min(off + MAX_PAYLOAD, |b|)], now, true), b, off + MAX_PAYLOAD, ok - 1, now);
    }
  }

  /** Only a delivery touches what an end has received. */
  lemma {:induction false} ActKeepsReceived(me: End, peer: End, act: Action)
    requires Possible(me, peer, act) && !act.Deliver?
    ensures Step(me, peer, act).expected == me.expected && Step(me, peer, act).ahead == me.ahead
  {
    match act
    case Write(b, ok, now) => WriteIsSending(me, b, 0, ok, now);
    case _ =>
  }

  /** A packet that is held or still to get through is so after the first move, if the window reaches it. */
  lemma {:induction false} StillToCome(w: World, moves: seq<Move>, n: nat)
    requires BothWays(w) && IsRun(w, moves) && moves != [] && n < w.b.expected + MAX_AHEAD
    requires Holds(w.b, n) || GetsThrough(w, moves, n)
    ensures Holds(Moved(w, moves[0]).b, n) || GetsThrough(Moved(w, moves[0]), moves[1..], n)
  {
    hide SenderOk, ReceiverOk, AcksOk, Retained, OnMsg;
    MoveGrows(w, moves[0]);
    if HandsOver(w, moves[0], n) {
      DeliveredIsHeld(w.a, w.b, w.a.out[moves[0].act.i], moves[0].act.now);
    }
  }

  /**
   What gets through is accepted: over any run, with anything else happening at either end, if every
   packet from the gap up to hi, at most a window on, is held or gets through, the gap moves to hi.
   */
  lemma {:induction false} ThroughIsAccepted(w: World, moves: seq<Move>, lo: nat, hi: nat)
    requires BothWays(w) && IsRun(w, moves) && lo <= w.b.expected && hi <= lo + MAX_AHEAD
    requires forall n :: w.b.expected <= n < hi ==> Holds(w.b, n) || GetsThrough(w, moves, n)
    ensures BothWays(Final(w, moves)) && hi <= Final(w, moves).b.expected
    ensures w.b.expected <= Final(w, moves).b.expected && w.a.sent <= Final(w, moves).a.sent
    decreases |moves|
  {
    hide SenderOk, ReceiverOk, AcksOk, Retained, OnMsg, CanMove, Moved;
    if moves == [] {
      GapNotHeld(w);
    } else {
      var w' := Moved(w, moves[0]);
      MoveKeeps(w, moves[0]);
      MoveGrows(w, moves[0]);
      forall n | w'.b.expected <= n < hi
        ensures Holds(w'.b, n) || GetsThrough(w', moves[1..], n)
      {
        StillToCome(w, moves, n);
      }
      ThroughIsAccepted(w', moves[1..], lo, hi);
    }
  }

  // Resend rounds

  /** A tick sends every packet overdue at it, and counts its delay from then on. */
  lemma {:induction false} TickSendsOverdue(w: World, now: int, order: seq<nat>, n: nat) returns (i: nat)
    requires BothWays(w) && CanMove(w, ByA(Tick(now, order))) && w.a.err == NoErr
    requires n in w.a.unacked && Overdue(w.a.unacked[n], now)
    ensures n < |w.a.sent|
    ensures var a := Moved(w, ByA(Tick(now, order))).a;
            && |w.a.out| <= i < |a.out| && a.out[i] == DataMsg(n, w.a.sent[n])
            && n in a.unacked && a.unacked[n] == now
  {
    hide ReceiverOk, AcksOk, Retained;
    assert n in order;
    var j :| 0 <= j < |order| && order[j] == n;
    i := |w.a.out| + 1 + j;
    assert OnTick(w.a, now, order).out[i] == Resends(w.a.sent, order)[j];
  }

  /** The world before move k of a run. */
  ghost function At(w: World, moves: seq<Move>, k: nat): World
    requires IsRun(w, moves) && k <= |moves|
    decreases k
  {
    if k == 0 then w else At(Moved(w, moves[0]), moves[1..], k - 1)
  }

  /** Move t of the run is a tick of A at which packet n is overdue. */
  ghost predicate OverdueAt(w: World, moves: seq<Move>, t: nat, n: nat)
    requires IsRun(w, moves) && t < |moves|
  {
    var a := At(w, moves, t).a;
    moves[t].ByA? && moves[t].act.Tick? && a.err == NoErr && n in a.unacked && Overdue(a.unacked[n], moves[t].act.now)
  }

  /** Move d hands B the copy of packet n that tick t sent. */
  ghost predicate HandsOverFrom(w: World, moves: seq<Move>, t: nat, d: nat, n: nat)
    requires IsRun(w, moves) && t < d < |moves|
  {
    && moves[d].ByB? && moves[d].act.Deliver?
    && |At(w, moves, t).a.out| <= moves[d].act.i < |At(w, moves, t + 1).a.out|
    && At(w, moves, t + 1).a.out[moves[d].act.i].DataMsg? && At(w, moves, t + 1).a.out[moves[d].act.i].n == n
  }

  /** Packet n is resent at some tick of the run, its own, and a copy this tick sent gets through later in it. */
  ghost predicate ResentThrough(w: World, moves: seq<Move>, n: nat)
    requires IsRun(w, moves)
  {
    exists t, d :: 0 <= t < d < |moves| && OverdueAt(w, moves, t, n) && HandsOverFrom(w, moves, t, d, n)
  }

  lemma {:induction false} OutGrows(w: World, moves: seq<Move>, j: nat, k: nat)
    requires BothWays(w) && IsRun(w, moves) && j <= k <= |moves|
    ensures At(w, moves, j).a.out <= At(w, moves, k).a.out
    decreases k
  {
    hide BothWays, CanMove, Moved;
    if k > 0 {
      MoveKeeps(w, moves[0]);
      MoveGrows(w, moves[0]);
      if j > 0 {
        OutGrows(Moved(w, moves[0]), moves[1..], j - 1, k - 1);
      } else {
        OutGrows(Moved(w, moves[0]), moves[1..], 0, k - 1);
      }
    }
  }

  lemma {:induction false} HandedOverAt(w: World, moves: seq<Move>, d: nat, n: nat)
    requires IsRun(w, moves) && d < |moves| && HandsOver(At(w, moves, d), moves[d], n)
    ensures GetsThrough(w, moves, n)
    decreases d
  {
    hide CanMove, Moved;
    if d > 0 {
      HandedOverAt(Moved(w, moves[0]), moves[1..], d - 1, n);
    }
  }

  lemma {:induction false} ResentGetsThrough(w: World, moves: seq<Move>, n: nat)
    requires BothWays(w) && IsRun(w, moves) && ResentThrough(w, moves, n)
    ensures GetsThrough(w, moves, n)
  {
    hide BothWays, IsRun, At, OverdueAt;
    var t, d :| 0 <= t < d < |moves| && OverdueAt(w, moves, t, n) && HandsOverFrom(w, moves, t, d, n);
    OutGrows(w, moves, t + 1, d);
    HandedOverAt(w, moves, d, n);
  }

  /**
   A round: a stretch of any run in which each packet that is unacked at its start, and that the
   receiver's window reaches and lacks, is resent at a tick of its own and a copy gets through, or one
   gets through anyway. Anything else may happen meanwhile.
   */
  ghost predicate IsRound(w: World, moves: seq<Move>)
    requires IsRun(w, moves)
  {
    forall n :: n in w.a.unacked && n < w.b.expected + MAX_AHEAD && !Holds(w.b, n) ==>
      ResentThrough(w, moves, n) || GetsThrough(w, moves, n)
  }

  /**
   A round moves the receiver on by a whole window or to the end of what was queued at its start,
   though packets beyond the window are discarded on the way.
   */
  lemma {:induction false} RoundAdvances(w: World, moves: seq<Move>)
    requires BothWays(w) && IsRun(w, moves) && IsRound(w, moves)
    ensures BothWays(Final(w, moves)) && w.a.sent <= Final(w, moves).a.sent
    ensures Min(|w.a.sent|, w.b.expected + MAX_AHEAD) <= Final(w, moves).b.expected
  {
    hide SenderOk, ReceiverOk, AcksOk, ResentThrough, IsRun;
    var hi := Min(|w.a.sent|, w.b.expected + MAX_AHEAD);
    forall n | w.b.expected <= n < hi
      ensures Holds(w.b, n) || GetsThrough(w, moves, n)
    {
      if !Holds(w.b, n) && ResentThrough(w, moves, n) {
        ResentGetsThrough(w, moves, n);
      }
    }
    ThroughIsAccepted(w, moves, w.b.expected, hi);
  }

  /** A stretch in which anything may happen, and then a round. */
  datatype Leg = Leg(before: seq<Move>, round: seq<Move>)

  function MovesOf(legs: seq<Leg>): seq<Move> {
    if legs == [] then [] else legs[0].before + (legs[0].round + MovesOf(legs[1..]))
  }

  ghost predicate AreRounds(w: World, legs: seq<Leg>)
    decreases |legs|
  {
    legs == []
    || (&& IsRun(w, legs[0].before)
        && var w1 := Final(w, legs[0].before);
           && IsRun(w1, legs[0].round) && IsRound(w1, legs[0].round)
           && AreRounds(Final(w1, legs[0].round), legs[1..]))
  }

  lemma {:induction false} RunsJoin(w: World, a: seq<Move>, b: seq<Move>)
    requires IsRun(w, a) && IsRun(Final(w, a), b)
    ensures IsRun(w, a + b) && Final(w, a + b) == Final(Final(w, a), b)
    decreases |a|
  {
    hide CanMove, Moved;
    if a == [] {
      assert a + b == b;
    } else {
      assert (a + b)[1..] == a[1..] + b;
      RunsJoin(Moved(w, a[0]), a[1..], b);
    }
  }

  /** Complete delivery: k rounds, with anything between them, carry at least k windows, so enough carry everything. */
  lemma {:induction false} RoundsComplete(w: World, legs: seq<Leg>)
    requires BothWays(w) && AreRounds(w, legs)
    ensures IsRun(w, MovesOf(legs))
    ensures var f := Final(w, MovesOf(legs));
            && BothWays(f) && w.a.sent <= f.a.sent
            && Min(|w.a.sent|, w.b.expected + MAX_AHEAD * |legs|) <= f.b.expected
            && (|w.a.sent| <= w.b.expected + MAX_AHEAD * |legs| ==> w.a.wrote <= f.b.accepted)
    decreases |legs|
  {
    hide BothWays, CanMove, Moved, IsRound;
    if legs != [] {
      var w1 := Final(w, legs[0].before);
      var w2 := Final(w1, legs[0].round);
      RunGrows(w, legs[0].before);
      RoundAdvances(w1, legs[0].round);
      RoundsComplete(w2, legs[1..]);
      RunsJoin(w1, legs[0].round, MovesOf(legs[1..]));
      RunsJoin(w, legs[0].before, legs[0].round + MovesOf(legs[1..]));
    }
    AllAccepted(w, Final(w, MovesOf(legs)));
  }

  lemma {:induction false} RunGrows(w: World, moves: seq<Move>)
    requires BothWays(w) && IsRun(w, moves)
    ensures var f := Final(w, moves); BothWays(f) && w.a.sent <= f.a.sent && w.b.expected <= f.b.expected
    decreases |moves|
  {
    hide BothWays, CanMove, Moved;
    if moves != [] {
      MoveKeeps(w, moves[0]);
      MoveGrows(w, moves[0]);
      RunGrows(Moved(w, moves[0]), moves[1..]);
    }
  }

  /** A receiver past every packet of an earlier world has accepted all that was queued then. */
  lemma AllAccepted(w: World, f: World)
    requires BothWays(w) && BothWays(f) && w.a.sent <= f.a.sent
    ensures |w.a.sent| <= f.b.expected ==> w.a.wrote <= f.b.accepted
  {
    hide AcksOk, Retained;
    if |w.a.sent| <= f.b.expected {
      var taken := f.a.sent[..f.b.expected];
      assert taken[..|w.a.sent|] == w.a.sent;
      ConcatPrefix(taken, |w.a.sent|);
    }
  }

  // Nothing is ever stuck

  /** The clock after a move, given its reading before. */
  function Clock(mv: Move, before: int): int {
    match mv.act
    case Write(_, _, now) => now
    case Tick(now, _) => now
    case Deliver(_, now) => now
    case Hear(_, now) => now
    case _ => before
  }

  /** The clock reads at least from to begin with, and no move turns it back. */
  predicate InTime(moves: seq<Move>, from: int)
    decreases |moves|
  {
    moves == [] || (from <= Clock(moves[0], from) && InTime(moves[1..], Clock(moves[0], from)))
  }

  predicate AllAt(moves: seq<Move>, now: int) { forall mv :: mv in moves ==> Clock(mv, now) == now }

  lemma {:induction false} InTimeEarlier(moves: seq<Move>, from: int, now: int)
    requires InTime(moves, now) && from <= now
    ensures InTime(moves, from)
    decreases |moves|
  {
    if moves != [] && Clock(moves[0], from) == from {
      InTimeEarlier(moves[1..], from, Clock(moves[0], now));
    }
  }

  lemma {:induction false} InTimeAfter(moves: seq<Move>, rest: seq<Move>, from: int, now: int)
    requires AllAt(moves, now) && InTime(rest, now) && from <= now
    ensures InTime(moves + rest, from)
    decreases |moves|
  {
    if moves == [] {
      assert moves + rest == rest;
      InTimeEarlier(rest, from, now);
    } else {
      assert moves[0] in moves && (moves + rest)[1..] == moves[1..] + rest;
      InTimeAfter(moves[1..], rest, Clock(moves[0], from), now);
    }
  }

  /** A time, not before the given one, at which all is overdue, and the packets in some order. */
  lemma {:induction false} AllOverdue(unacked: map<nat, int>, from: int) returns (now: int, order: seq<nat>)
    ensures from <= now
    ensures forall n :: n in unacked ==> Overdue(unacked[n], now)
    ensures IsResendOrder(unacked, now, order)
    decreases |unacked|
  {
    now, order := from, [];
    if unacked != map[] {
      var n :| n in unacked;
      var rest := unacked - {n};
      var t, some := AllOverdue(rest, from);
      now := if t < unacked[n] + RESEND_EVERY then unacked[n] + RESEND_EVERY else t;
      order := [n] + some;
      assert forall x :: x in unacked ==> x == n || (x in rest && rest[x] == unacked[x]);
      assert forall x :: x in some ==> x in rest;
    }
  }

  /** B is handed A's datagrams from number i on, n of them. */
  function Deliveries(i: nat, n: nat, now: int): seq<Move> {
    seq(n, j requires 0 <= j => ByB(Deliver(i + j, now)))
  }

  lemma {:induction false} DeliveriesRun(w: World, i: nat, n: nat, now: int)
    requires i + n <= |w.a.out|
    ensures IsRun(w, Deliveries(i, n, now)) && Final(w, Deliveries(i, n, now)).a == w.a
    ensures forall k :: i <= k < i + n && w.a.out[k].DataMsg? ==> GetsThrough(w, Deliveries(i, n, now), w.a.out[k].n)
    decreases n
  {
    hide OnMsg;
    var moves := Deliveries(i, n, now);
    if n == 0 {
      assert moves == [];
    } else {
      var first, rest := ByB(Deliver(i, now)), Deliveries(i + 1, n - 1, now);
      assert moves == [first] + rest;
      var w' := Moved(w, first);
      DeliveriesRun(w', i + 1, n - 1, now);
      MoreMoves(w, first, rest);
      assert moves[0] == first && w'.a == w.a;
      assert w.a.out[i].DataMsg? ==> HandsOver(w, first, w.a.out[i].n);
    }
  }

  /** B's heartbeat, handed to A at some time, is heard then and changes nothing else. */
  lemma {:induction false} HeartbeatHeard(w: World, now: int) returns (moves: seq<Move>)
    requires BothWays(w)
    ensures AllAt(moves, now) && IsRun(w, moves) && BothWays(Final(w, moves))
    ensures var f := Final(w, moves); f.a == w.a.(lastHeard := now) && f.b == w.b.(out := f.b.out)
  {
    hide SenderOk, ReceiverOk, AcksOk, Retained;
    var beat := Put32(MAGIC_DISCOVERY);
    ReadBack32(beat, 0, MAGIC_DISCOVERY);
    var says, hears := ByB(Control(beat, OtherMessage)), ByA(Deliver(|w.b.out|, now));
    var w1 := Moved(w, says);
    assert w1.b.out[|w.b.out|] == ControlMsg(beat, OtherMessage);
    MoveKeeps(w, says);
    MoveKeeps(w1, hears);
    OneMove(w1, hears);
    MoreMoves(w, says, [hears]);
    moves := [says] + [hears];
  }

  lemma OneMove(w: World, mv: Move)
    requires CanMove(w, mv)
    ensures IsRun(w, [mv]) && Final(w, [mv]) == Moved(w, mv)
  {
    hide CanMove, Moved;
    assert [mv][1..] == [];
    assert IsRun(Moved(w, mv), []);
  }

  lemma MoreMoves(w: World, mv: Move, rest: seq<Move>)
    requires CanMove(w, mv) && IsRun(Moved(w, mv), rest)
    ensures IsRun(w, [mv] + rest) && Final(w, [mv] + rest) == Final(Moved(w, mv), rest)
    ensures forall n :: GetsThrough(Moved(w, mv), rest, n) ==> GetsThrough(w, [mv] + rest, n)
  {
    hide CanMove, Moved, HandsOver;
    assert ([mv] + rest)[1..] == rest;
  }

  /** From any world reached, if A has not failed, a round can follow in which it does not fail. */
  lemma {:induction false} RoundCanFollow(w: World, from: int) returns (moves: seq<Move>, now: int)
    requires BothWays(w) && w.a.err == NoErr
    ensures from <= now && AllAt(moves, now)
    ensures IsRun(w, moves) && BothWays(Final(w, moves))
    ensures var f := Final(w, moves);
            f.a.err == NoErr && f.a.sent == w.a.sent && Min(|w.a.sent|, w.b.expected + MAX_AHEAD) <= f.b.expected
  {
    hide SenderOk, ReceiverOk, AcksOk, Retained;
    var order;
    now, order := AllOverdue(w.a.unacked, from);
    var beats := HeartbeatHeard(w, now);
    var w1 := Final(w, beats);
    var round := ResendAll(w1, now, order);
    RoundAdvances(w1, round);
    RunsJoin(w, beats, round);
    moves := beats + round;
  }

  /** One tick at which all is overdue, and its datagrams delivered, is a round. */
  lemma {:induction false} ResendAll(w: World, now: int, order: seq<nat>) returns (moves: seq<Move>)
    requires BothWays(w) && w.a.err == NoErr && w.a.lastHeard == now && IsResendOrder(w.a.unacked, now, order)
    requires forall n :: n in w.a.unacked ==> Overdue(w.a.unacked[n], now)
    ensures AllAt(moves, now) && IsRun(w, moves) && IsRound(w, moves)
    ensures Final(w, moves).a.err == NoErr && Final(w, moves).a.sent == w.a.sent
  {
    hide ReceiverOk, AcksOk, Retained, ResentThrough;
    var tick := ByA(Tick(now, order));
    TickSendsAll(w, now, order);
    var w1, i := Moved(w, tick), |w.a.out| + 1;
    DeliveriesRun(w1, i, |order|, now);
    var rest := Deliveries(i, |order|, now);
    MoreMoves(w, tick, rest);
    moves := [tick] + rest;
    hide Moved, CanMove, IsRun, GetsThrough;
    forall n | n in w.a.unacked
      ensures GetsThrough(w, moves, n)
    {
      assert n in order;
      var j :| 0 <= j < |order| && order[j] == n;
      assert w1.a.out[i + j] == Resends(w.a.sent, order)[j];
    }
  }

  lemma {:induction false} TickSendsAll(w: World, now: int, order: seq<nat>)
    requires BothWays(w) && w.a.err == NoErr && w.a.lastHeard == now && IsResendOrder(w.a.unacked, now, order)
    ensures CanMove(w, ByA(Tick(now, order)))
    ensures var a := Moved(w, ByA(Tick(now, order))).a;
            && a.err == NoErr && a.sent == w.a.sent
            && a.out == w.a.out + [AckFrom(w.a)] + Resends(w.a.sent, order)
  {
    hide ReceiverOk, AcksOk, Retained, AckFrom, Restamp;
    assert forall j :: 0 <= j < |order| ==> order[j] in order;
  }

  /**
   Nothing is ever stuck: from every world reached in which A has not failed, and at every time, some run
   whose clock goes on from there leads to where B has accepted all that A's Writes have queued.
   */
  lemma {:induction false} CanAlwaysFinish(w: World, from: int) returns (moves: seq<Move>)
    requires BothWays(w) && w.a.err == NoErr
    ensures IsRun(w, moves) && InTime(moves, from) && BothWays(Final(w, moves))
    ensures Final(w, moves).a.sent == w.a.sent && Final(w, moves).b.accepted == w.a.wrote
    decreases |w.a.sent| - w.b.expected
  {
    hide AcksOk, Retained, IsRun, Final, AllAt;
    if w.b.expected == |w.a.sent| {
      moves := NoMoves(w);
      assert w.a.sent[..|w.a.sent|] == w.a.sent;
    } else {
      var first, now := RoundCanFollow(w, from);
      var rest := CanAlwaysFinish(Final(w, first), now);
      RunsJoin(w, first, rest);
      InTimeAfter(first, rest, from, now);
      moves := first + rest;
    }
  }

  lemma NoMoves(w: World) returns (moves: seq<Move>)
    ensures moves == [] && IsRun(w, moves) && Final(w, moves) == w
  {
    moves := [];
  }

  /** Once everything has arrived, the receiver's next ack, however late, empties the sender's list. */
  lemma {:induction false} LastAckClears(s: End, r: End, now: int)
    requires Inv(s, r) && r.expected == |s.sent|
    ensures OnMsg(s, AckFrom(r), now).unacked == map[]
  {
  }
}
