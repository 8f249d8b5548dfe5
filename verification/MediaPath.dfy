/** A media packet on its way: sent in messages, read off the stream and put together again. */
module MediaPath {
  import opened Bytes
  import opened Wrappers
  import opened Framing
  import M = Media
  import opened MediaStream
  import MediaPackets
  import MediaFields

  /** What a reader of the stream does with each message: its payload is written, and the frames are drained. */
  function Handled(s: M.State, got: seq<Message>): (seq<M.Frame>, M.State)
    decreases |got|
  {
    if got == [] then ([], s) else
    var (fs, s') := M.Drain(M.AfterWrite(s, got[0].payload, got[0].startsPacket));
    var (rest, s'') := Handled(s', got[1..]);
    (fs + rest, s'')
  }

  function Payloads(got: seq<Message>): seq<bytes> {
    if got == [] then [] else [got[0].payload] + Payloads(got[1..])
  }

  /** Messages that do not start a packet continue one. */
  lemma {:induction false} HandledOn(s: M.State, got: seq<Message>)
    requires forall m :: m in got ==> !m.startsPacket
    ensures Handled(s, got) == Feed(s, Payloads(got))
    decreases |got|
  {
    hide M.Drain, M.AfterWrite;
    if got != [] {
      assert got[0] in got && forall m :: m in got[1..] ==> m in got;
      HandledOn(M.Drain(M.AfterWrite(s, got[0].payload, false)).1, got[1..]);
      assert Payloads(got)[1..] == Payloads(got[1..]);
    }
  }

  lemma {:induction false} HandledPacket(s: M.State, got: seq<Message>)
    requires got != [] && got[0].startsPacket && forall i :: 1 <= i < |got| ==> !got[i].startsPacket
    ensures Handled(s, got) == Receive(s, got[0].payload, Payloads(got[1..]))
  {
    hide M.Drain, M.AfterWrite;
    forall m | m in got[1..]
      ensures !m.startsPacket
    {
      var i :| 0 <= i < |got[1..]| && got[1..][i] == m;
      assert got[i + 1] == m;
    }
    HandledOn(M.Drain(M.AfterWrite(s, got[0].payload, true)).1, got[1..]);
  }

  /** The messages of a packet: media all of them, and only the first marked as a start. */
  predicate OnePacket(session: Session, parse: Parse) {
    && session != [] && (forall i :: 0 <= i < |session| ==> session[i].1.Media?)
    && forall i :: 0 <= i < |session| ==> (Starts(parse, session[i].1) <==> i == 0)
  }

  function MediaOf(session: Session): seq<bytes>
    requires forall i :: 0 <= i < |session| ==> session[i].1.Media?
  {
    if session == [] then [] else [session[0].1.media] + MediaOf(session[1..])
  }

  function Values(got: seq<Result<Message, ReadError>>): seq<Message>
    requires forall i :: 0 <= i < |got| ==> got[i].Ok?
  {
    seq(|got|, i requires 0 <= i < |got| => got[i].value)
  }

  lemma {:induction false} PayloadsAre(session: Session, got: seq<Message>)
    requires |got| == |session| && forall i :: 0 <= i < |session| ==> session[i].1.Media?
    requires forall i :: 0 <= i < |session| ==> got[i].payload == session[i].1.media
    ensures Payloads(got) == MediaOf(session)
    decreases |session|
  {
    if session != [] {
      PayloadsAre(session[1..], got[1..]);
    }
  }

  /**
   End to end: a packet that may be cut anywhere, sent in media messages of which only the first is marked as
   its start, each under the key of the moment, comes out of the reader and the depacketizer as exactly its frame.
   */
  lemma {:induction false} PacketArrives(session: Session, parse: Parse, rest: bytes, p: bytes, f: M.Frame, s: M.State)
    requires Sendable(session, parse) && OnePacket(session, parse)
    requires Concat(MediaOf(session)) == p && MediaPackets.CutsAlike(p, f)
    ensures var (got, left) := ReadAll(session, parse, WireOf(session) + rest);
            && left == rest && |got| == |session| && (forall i :: 0 <= i < |got| ==> got[i].Ok?)
            && Handled(s, Values(got)) == ([f], Restarted(s))
  {
    hide ReadAll, WireOf, Starts, Carried, Sealed, Receive, Handled, Sendable;
    SessionReadBack(session, parse, rest);
    var got := ReadAll(session, parse, WireOf(session) + rest).0;
    var ms := Values(got);
    PayloadsAre(session, ms);
    HandledPacket(s, ms);
    assert Payloads(ms)[1..] == Payloads(ms[1..]);
    assert Concat(Payloads(ms)) == ms[0].payload + Concat(Payloads(ms[1..]));
  }

  /** And for a picture from its fields: with what it was made of, if the picture is long enough to be cut anywhere. */
  lemma {:induction false} PictureArrives(session: Session, parse: Parse, rest: bytes, v: MediaFields.Video, s: M.State)
    requires Sendable(session, parse) && OnePacket(session, parse)
    requires MediaFields.Fits(v) && |v.picture| >= |v.meta| + 6 && Concat(MediaOf(session)) == MediaFields.Laid(v)
    ensures var (got, left) := ReadAll(session, parse, WireOf(session) + rest);
            && left == rest && |got| == |session| && (forall i :: 0 <= i < |got| ==> got[i].Ok?)
            && Handled(s, Values(got)).0
                 == [M.Frame(if v.key then M.IFrame else M.PFrame, v.codec, v.micros, v.picture, 0, 0, 0)]
  {
    hide ReadAll, WireOf, Handled, Sendable, OnePacket, MediaOf, MediaFields.Laid,
         MediaPackets.CutsAlike;
    MediaFields.VideoCutsAlike(v);
    PacketArrives(session, parse, rest, MediaFields.Laid(v), MediaFields.FrameFrom(v), s);
  }
}
