/**
 Many streams over one recorder connection: internal/baichuan/shared.go and the list of extra
 streams in internal/baichuan/conn.go. Every critical section is a function of the state under the
 mutex; the classes update the same state in place. Readers are numbered, and the table of readers
 stands for the Sub objects.
 */
module Shared {
  import opened Bytes
  import opened Lists
  import opened Wrappers
  import Media

  datatype Message = Message(msgID: u32, encOffset: u32, payload: bytes, startsPacket: bool)

  const MSG_VIDEO: u32 := 3

  /** The low two bytes of an encryption offset: channel and stream. */
  datatype Key = Key(channel: byte, stream: byte)

  function KeyOf(m: Message): Key {
    Key((m.encOffset % 256) as byte, (m.encOffset / 256 % 256) as byte)
  }

  function StreamID(stream: string): byte {
    if stream == "subStream" then 1 else if stream == "externStream" then 4 else 0
  }

  function KeyFor(channel: int, stream: string): Key {
    Key((channel % 256) as byte, StreamID(stream))
  }

  predicate IsInfoMessage(m: Message) { m.startsPacket && Media.IsInfo(m.payload) }

  /** Begins with "00dc". */
  predicate IsKeyframe(m: Message) {
    m.startsPacket && |m.payload| >= 4 && m.payload[..4] == [0x30, 0x30, 0x64, 0x63]
  }

  /** The depacketizer takes the message's first bytes for an I frame of a camera's own picture, channel 0. */
  predicate StartsIFrame(m: Message) {
    m.startsPacket && Media.IsVideo(m.payload) && Media.VideoKind(m.payload) == Media.IFrame && m.payload[0] == 0x30
  }

  /** demux's test is the depacketizer's. */
  lemma KeyframeIff(m: Message)
    ensures IsKeyframe(m) <==> StartsIFrame(m)
  {
    if |m.payload| >= 4 {
      var four := m.payload[..4];
      assert four[0] == m.payload[0] && four[1] == m.payload[1] && four[2] == m.payload[2] && four[3] == m.payload[3];
    }
  }

  /** What a reader still waiting for a keyframe is given: status replies and picture sizes. */
  predicate IsStatus(m: Message) { m.payload == [] || IsInfoMessage(m) }

  // The connection's own list of streams

  datatype Stream = Stream(channel: int, handle: nat, name: string)

  /** also is the list conn.go keeps; started and stopped are the requests that went out, in order. */
  datatype ConnState = ConnState(also: seq<Stream>, started: seq<Stream>, stopped: seq<Stream>, closed: bool)

  /** ok is whether the request could be written. */
  function AfterStart(c: ConnState, a: Stream, ok: bool): ConnState {
    if ok then c.(also := c.also + [a], started := c.started + [a]) else c
  }

  function AfterStop(c: ConnState, a: Stream): ConnState {
    c.(also := RemoveFirst(c.also, a), stopped := c.stopped + [a])
  }

  function AfterConnClose(c: ConnState): ConnState {
    if c.closed then c else c.(closed := true, stopped := c.stopped + c.also)
  }

  class Conn {
    var also: seq<Stream>
    var closed: bool
    ghost var started: seq<Stream>
    ghost var stopped: seq<Stream>

    ghost function St(): ConnState
      reads this
    {
      ConnState(also, started, stopped, closed)
    }

    constructor ()
      ensures St() == ConnState([], [], [], false)
    {
      also, closed, started, stopped := [], false, [], [];
    }

    method StartVideoOn(a: Stream, ok: bool)
      modifies this
      ensures St() == AfterStart(old(St()), a, ok)
    {
      if ok {
        also := also + [a];
        started := started + [a];
      }
    }

    method StopVideoOn(a: Stream)
      modifies this
      ensures St() == AfterStop(old(St()), a)
    {
      hide RemoveFirst;
      var i := IndexOf(also, a);
      if i < |also| {
        also := also[..i] + also[i + 1..];
      }
      StopVideo(a);
    }

    method StopVideo(a: Stream)
      modifies `stopped
      ensures stopped == old(stopped) + [a]
    {
      stopped := stopped + [a];
    }

    method Close()
      modifies this
      ensures St() == AfterConnClose(old(St()))
    {
      if closed {
        return;
      }
      closed := true;
      var i := 0;
      while i < |also|
        invariant 0 <= i <= |also|
        invariant St() == old(St()).(closed := true, stopped := old(stopped) + also[..i])
      {
        StopVideo(also[i]);
        i := i + 1;
      }
      assert also[..|also|] == also;
    }
  }

  // The shared connection

  datatype Preview = Preview(stream: Stream, readers: set<nat>, info: Option<Message>)

  datatype EndReason = ConnectionEnded | ReaderStalled

  const QUEUE := 256

  /**
   A reader: the messages put on its channel, how many of them are still queued, whether the reader
   has closed quit, and why its channel was closed, once it has been. panicked is set by a send on
   a closed channel and by a second close, which crash the program.
   */
  datatype Sub = Sub(key: Key, synced: bool, log: seq<Message>, queued: nat, quit: bool, end: Option<EndReason>,
                     panicked: bool)

  function Sent(r: Sub, m: Message): Sub {
    if r.end.Some? then r.(panicked := true) else r.(log := r.log + [m], queued := r.queued + 1)
  }

  /** Sub.end: it closes the channel unless the reader already has an end. */
  function Ended(r: Sub, why: EndReason): Sub {
    if r.end.Some? then r else r.(end := Some(why))
  }

  datatype State = State(conn: ConnState, previews: map<Key, Preview>, subs: map<nat, Sub>, handle: nat, closed: bool)

  datatype Subscribed = Reader(id: nat) | Refused | StartFailed

  /** The reader and the state after a Subscribe; ok is whether a stream request can be written. */
  function AfterSubscribe(s: State, channel: int, stream: string, id: nat, ok: bool): (r: (Subscribed, State)) {
    var key := KeyFor(channel, stream);
    var blank := Sub(key, false, [], 0, false, None, false);
    if s.closed then (Refused, s)
    else if key !in s.previews then
      var a := Stream(channel, s.handle + 1, stream);
      var s1 := s.(handle := s.handle + 1, conn := AfterStart(s.conn, a, ok));
      if !ok then (StartFailed, s1)
      else (Reader(id), s1.(previews := s.previews[key := Preview(a, {id}, None)],
                            subs := s.subs[id := blank.(synced := true)]))
    else
      var p := s.previews[key];
      var sub := if p.info.Some? then Sent(blank, p.info.value) else blank;
      (Reader(id), s.(previews := s.previews[key := p.(readers := p.readers + {id})], subs := s.subs[id := sub]))
  }

  function AfterUnsubscribe(s: State, id: nat): State
    requires id in s.subs
  {
    var key := s.subs[id].key;
    if key !in s.previews || id !in s.previews[key].readers then s else
    var p := s.previews[key];
    var left := p.readers - {id};
    if left != {} then s.(previews := s.previews[key := p.(readers := left)]) else
    s.(previews := s.previews - {key}, conn := if s.closed then s.conn else AfterStop(s.conn, p.stream))
  }

  /** Whether the caller of unsubscribe is told that the connection went idle. */
  predicate WentIdle(s: State, id: nat)
    requires id in s.subs
  {
    var key := s.subs[id].key;
    key in s.previews && id in s.previews[key].readers && AfterUnsubscribe(s, id).previews == map[] && !s.closed
  }

  predicate Wants(r: Sub, m: Message) { r.synced || IsStatus(m) || IsKeyframe(m) }

  /** The lock section of demux: the readers m goes to, with the keyframe gate opened for those it opens for. */
  function AfterRoute(s: State, m: Message): (r: (set<nat>, State))
    requires forall key, id :: key in s.previews && id in s.previews[key].readers ==> id in s.subs
  {
    var key := KeyOf(m);
    if m.msgID != MSG_VIDEO || key !in s.previews then ({}, s) else
    var p := s.previews[key];
    var to := set id | id in p.readers && Wants(s.subs[id], m);
    var info := if IsInfoMessage(m) then Some(m) else p.info;
    (to, s.(previews := s.previews[key := p.(info := info)], subs := Gated(s.subs, to, m)))
  }

  function Gated(subs: map<nat, Sub>, to: set<nat>, m: Message): map<nat, Sub> {
    map id | id in subs ::
      if id in to && !IsStatus(m) then subs[id].(synced := true) else subs[id]
  }

  function Readers(s: State): set<nat> {
    set key, id | key in s.previews && id in s.previews[key].readers :: id
  }

  /** The lock section at the end of demux. */
  function AfterConnectionEnd(s: State): State {
    s.(closed := true, previews := map[])
  }

  function AfterCloseIfIdle(s: State): State {
    if s.previews != map[] then s else s.(closed := true)
  }

  function AfterClose(s: State): State { s.(closed := true) }

  class SharedConn {
    const conn: Conn
    var previews: map<Key, Preview>
    var subs: map<nat, Sub>
    var handle: nat
    var closed: bool

    ghost function St(): State
      reads this, conn
    {
      State(conn.St(), previews, subs, handle, closed)
    }

    /** Every reader a preview lists is a reader there is. */
    ghost predicate Valid()
      reads this
    {
      forall key, id :: key in previews && id in previews[key].readers ==> id in subs
    }

    constructor (conn: Conn)
      ensures Valid() && this.conn == conn
      ensures St() == State(conn.St(), map[], map[], 0, false)
    {
      this.conn := conn;
      previews, subs, handle, closed := map[], map[], 0, false;
    }

    /** id is the identity of the Sub this call makes. */
    method Subscribe(channel: int, stream: string, id: nat, ok: bool) returns (r: Subscribed)
      requires Valid() && id !in subs
      modifies this, conn
      ensures Valid() && (r, St()) == AfterSubscribe(old(St()), channel, stream, id, ok)
    {
      var key := KeyFor(channel, stream);
      var sub := Sub(key, false, [], 0, false, None, false);
      if closed {
        return Refused;
      }
      if key !in previews {
        handle := handle + 1;
        var a := Stream(channel, handle, stream);
        conn.StartVideoOn(a, ok);
        if !ok {
          return StartFailed;
        }
        sub := sub.(synced := true);
        previews := previews[key := Preview(a, {id}, None)];
      } else {
        var p := previews[key];
        if p.info.Some? {
          sub := Sent(sub, p.info.value);
        }
        previews := previews[key := p.(readers := p.readers + {id})];
      }
      subs := subs[id := sub];
      r := Reader(id);
    }

    method Unsubscribe(id: nat) returns (idle: bool)
      requires Valid() && id in subs
      modifies this, conn
      ensures Valid() && St() == AfterUnsubscribe(old(St()), id) && idle == old(WentIdle(St(), id))
    {
      var key := subs[id].key;
      if key !in previews || id !in previews[key].readers {
        return false;
      }
      var p := previews[key];
      var left := p.readers - {id};
      if left != {} {
        previews := previews[key := p.(readers := left)];
      } else {
        previews := previews - {key};
        if !closed {
          conn.StopVideoOn(p.stream);
        }
      }
      idle := previews == map[] && !closed;
    }

    /** demux's lock section: who gets m. */
    method Route(m: Message) returns (to: set<nat>)
      requires Valid()
      modifies this
      ensures Valid() && (to, St()) == AfterRoute(old(St()), m)
    {
      to := {};
      var key := KeyOf(m);
      if m.msgID != MSG_VIDEO || key !in previews {
        return;
      }
      var p := previews[key];
      if IsInfoMessage(m) {
        previews := previews[key := p.(info := Some(m))];
      }
      ghost var before, now := subs, previews;
      var left := p.readers;
      while left != {}
        invariant previews == now && handle == old(handle) && closed == old(closed)
        invariant left <= p.readers && subs.Keys == before.Keys
        invariant to == set id | id in p.readers - left && Wants(before[id], m)
        invariant subs == Gated(before, to, m)
        decreases left
      {
        var id :| id in left;
        left := left - {id};
        if subs[id].synced || IsStatus(m) {
          to := to + {id};
        } else if IsKeyframe(m) {
          subs := subs[id := subs[id].(synced := true)];
          to := to + {id};
        }
      }
      var info := if IsInfoMessage(m) then Some(m) else p.info;
      assert previews == old(previews)[key := p.(info := info)];
      assert to == set id | id in p.readers && Wants(before[id], m);
      ghost var want := AfterRoute(old(St()), m);
      assert St().conn == old(St()).conn;
      assert to == want.0 && subs == want.1.subs && previews == want.1.previews;
    }

    method EndConnection() returns (readers: set<nat>)
      requires Valid()
      modifies this
      ensures Valid() && St() == AfterConnectionEnd(old(St())) && readers == Readers(old(St()))
    {
      closed := true;
      readers := set key, id | key in previews && id in previews[key].readers :: id;
      previews := map[];
    }

    method CloseIfIdle() returns (did: bool)
      requires Valid()
      modifies this, conn
      ensures Valid() && did == old(previews == map[] && !closed)
      ensures St() == if did then AfterCloseIfIdle(old(St())).(conn := AfterConnClose(old(conn.St()))) else old(St())
    {
      if |previews| > 0 || closed {
        return false;
      }
      closed := true;
      conn.Close();
      did := true;
    }

    method Close()
      requires Valid()
      modifies this, conn
      ensures Valid() && St() == AfterClose(old(St())).(conn := AfterConnClose(old(conn.St())))
    {
      closed := true;
      conn.Close();
    }
  }
}
