/** What demux makes of the messages that media packets are sent in. */
module SharedMedia {
  import opened Bytes
  import opened Shared
  import opened MediaFields

  /** The encryption offset of a request, which the camera echoes: channel, stream, counter and handle. */
  function EncOffsetFor(channel: byte, stream: byte, counter: byte, handle: byte): u32 {
    U32([channel, stream, counter, handle], 0)
  }

  /** Messages that echo a request's offset have the key of the stream it asked for, whatever the counter. */
  lemma EchoHasKey(m: Message, channel: int, stream: string, counter: byte, handle: byte)
    requires m.encOffset == EncOffsetFor((channel % 256) as byte, StreamID(stream), counter, handle)
    ensures KeyOf(m) == KeyFor(channel, stream)
  {
    var c, t, n, h := channel % 256, StreamID(stream) as int, counter as int, handle as int;
    assert m.encOffset == c + 256 * (t + 256 * (n + 256 * h));
    assert m.encOffset / 256 == t + 256 * (n + 256 * h);
  }

  lemma StreamsApart(a: int, s: string, b: int, t: string)
    requires s in {"mainStream", "subStream", "externStream"} && t in {"mainStream", "subStream", "externStream"}
    ensures KeyFor(a, s) == KeyFor(b, t) <==> a % 256 == b % 256 && s == t
  {
  }

  /** A message that starts a video packet opens the gate exactly when that is an I frame of channel 0. */
  lemma VideoAtGate(m: Message, v: Video)
    requires Fits(v) && m.startsPacket && |m.payload| >= 4 && m.payload[..4] == Laid(v)[..4]
    ensures (IsKeyframe(m) <==> v.key && v.channel == 0) && !IsStatus(m)
  {
    hide LaidWith;
    LaidWords(v, DeclaredWord(v));
    var four := m.payload[..4];
    assert four == VideoMagic(v);
    assert m.payload[0] == four[0] && m.payload[1] == four[1] && m.payload[2] == four[2] && m.payload[3] == four[3];
  }

  /** A reader that waits is given info messages, and sound only once a keyframe has come. */
  lemma OthersAtGate(m: Message, second: bool, channel: byte, aac: bool)
    requires m.startsPacket && |m.payload| >= 4 && channel < 10
    ensures m.payload[..4] == InfoMagic(second) ==> IsStatus(m) && !IsKeyframe(m)
    ensures m.payload[..4] == [0x30 + channel, if aac then 0x35 else 0x31, 0x77, 0x62] ==>
              !IsStatus(m) && !IsKeyframe(m)
  {
  }

  /** Neither is ever told from the middle of a packet. */
  lemma MiddleAtGate(m: Message)
    requires !m.startsPacket
    ensures !IsKeyframe(m) && (IsStatus(m) <==> m.payload == [])
  {
  }
}
