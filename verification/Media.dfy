/**
 The media depacketizer of internal/baichuan/media.go: what one pass over a buffer decides, the
 frames a byte string holds, and the class that reassembles packets from messages in place.
 */
module Media {
  import opened Bytes
  import opened Wrappers
  import opened Nal

  datatype FrameKind = InfoFrame | IFrame | PFrame | AACFrame | ADPCMFrame

  datatype Frame = Frame(
    kind: FrameKind, codec: bytes, micros: u32, data: bytes, width: u32, height: u32, fps: byte)

  const MAX_FRAME_PREFIX := 4096
  const MAX_PICTURE := 0x100_0000
  const MAX_INFO := 0x1_0000

  /** The header both kinds of video packet share. */
  const BASE := 24

  // Packet magics

  predicate IsDigit(b: byte) { 0x30 <= b <= 0x39 }

  /** "?0dc" or "?1dc", where the first digit is the channel. */
  predicate IsVideo(b: bytes) {
    |b| >= 4 && IsDigit(b[0]) && (b[1] == 0x30 || b[1] == 0x31) && b[2] == 0x64 && b[3] == 0x63
  }

  /** "?5wb". */
  predicate IsAAC(b: bytes) {
    |b| >= 4 && IsDigit(b[0]) && b[1] == 0x35 && b[2] == 0x77 && b[3] == 0x62
  }

  /** "?1wb". */
  predicate IsADPCM(b: bytes) {
    |b| >= 4 && IsDigit(b[0]) && b[1] == 0x31 && b[2] == 0x77 && b[3] == 0x62
  }

  predicate IsAudio(b: bytes) { IsAAC(b) || IsADPCM(b) }

  /** "1001" or "1002". */
  predicate IsInfo(b: bytes) {
    |b| >= 4 && b[0] == 0x31 && b[1] == 0x30 && b[2] == 0x30 && (b[3] == 0x31 || b[3] == 0x32)
  }

  predicate IsMagic(b: bytes) { IsVideo(b) || IsAudio(b) || IsInfo(b) }

  // Video packets

  function HeaderLen(b: bytes): nat
    requires IsVideo(b)
  {
    if b[1] == 0x30 then 32 else 24
  }

  function TrimNul(b: bytes): bytes {
    if b == [] || b[0] == 0 then [] else [b[0]] + TrimNul(b[1..])
  }

  predicate IsHevc(codec: bytes) { codec == [0x48, 0x32, 0x36, 0x35] || codec == [0x68, 0x32, 0x36, 0x35] }

  predicate IsH264(codec: bytes) { codec == [0x48, 0x32, 0x36, 0x34] || codec == [0x68, 0x32, 0x36, 0x34] }

  datatype Verdict = Stated(prefix: nat) | NeedMore | Unusable

  /** The metadata length the packet header declares, if the bytes it points at bear it out. */
  function StatedPrefix(buf: bytes, hdr: nat, codec: bytes, settled: bool): Verdict {
    if |buf| < BASE + 4 then NeedMore else
    var prefix := BASE + U32(buf, 12) - hdr;
    if prefix < 0 || prefix > MAX_FRAME_PREFIX then Unusable
    else if |buf| < hdr + prefix + 6 then (if settled then Unusable else NeedMore)
    else if !StartCode(buf, hdr + prefix) then Unusable
    else if IsHevc(codec) && !HevcHeaderValid(buf[hdr + prefix + 4], buf[hdr + prefix + 5]) then Unusable
    else if IsH264(codec) && !H264HeaderValid(buf[hdr + prefix + 4..]) then Unusable
    else Stated(prefix)
  }

  /** What the search looks at: at most MAX_FRAME_PREFIX bytes after the header. */
  function Region(buf: bytes, hdr: nat): bytes
    requires hdr <= |buf|
  {
    buf[hdr..Min(hdr + MAX_FRAME_PREFIX, |buf|)]
  }

  function FirstNal(region: bytes, codec: bytes, kind: FrameKind): int {
    if IsHevc(codec) then FirstHit(HevcNal, region, 0)
    else if IsH264(codec) then
      if kind == IFrame && FirstHit(H264AccessUnit, region, 0) >= 0 then FirstHit(H264AccessUnit, region, 0)
      else FirstHit(H264Nal, region, 0)
    else FirstHit(AnyStart, region, 0)
  }

  function SearchPrefix(buf: bytes, hdr: nat, codec: bytes, kind: FrameKind): nat
    requires hdr <= |buf|
  {
    var i := FirstNal(Region(buf, hdr), codec, kind);
    if i < 0 then 0 else i
  }

  // One pass

  /** What one pass of Next's loop decides about a buffer. */
  datatype Outcome = Wait | Emit(f: Frame, n: nat) | SkipByte | SkipPad(n: nat)

  function VideoKind(b: bytes): FrameKind
    requires IsVideo(b)
  {
    if b[1] == 0x30 then IFrame else PFrame
  }

  function VideoFrame(b: bytes, prefix: nat): Frame
    requires IsVideo(b) && |b| >= HeaderLen(b) && |b| >= HeaderLen(b) + prefix + U32(b, 8)
  {
    var start := HeaderLen(b) + prefix;
    Frame(VideoKind(b), TrimNul(b[4..8]), U32(b, 16), b[start..start + U32(b, 8)], 0, 0, 0)
  }

  function ParseVideo(b: bytes): Outcome
    requires IsVideo(b) && |b| >= 8
  {
    var hdr := HeaderLen(b);
    if |b| < hdr then Wait else
    var size := U32(b, 8);
    if size > MAX_PICTURE then SkipByte
    else if |b| < hdr + size then Wait
    else
      var codec := TrimNul(b[4..8]);
      var search := SearchPrefix(b, hdr, codec, VideoKind(b));
      match StatedPrefix(b, hdr, codec, |b| >= hdr + search + size)
      case NeedMore => Wait
      case Unusable => EmitVideo(b, search)
      case Stated(prefix) => EmitVideo(b, prefix)
  }

  function EmitVideo(b: bytes, prefix: nat): Outcome
    requires IsVideo(b) && |b| >= HeaderLen(b)
  {
    var n := HeaderLen(b) + prefix + U32(b, 8);
    if |b| < n then Wait else Emit(VideoFrame(b, prefix), n)
  }

  function ParseAudio(b: bytes): Outcome
    requires IsAudio(b) && |b| >= 8
  {
    var size := U16(b, 4);
    if |b| < 8 + size then Wait
    else Emit(Frame(if IsADPCM(b) then ADPCMFrame else AACFrame, [], 0, b[8..8 + size], 0, 0, 0), 8 + size)
  }

  function InfoFrameOf(b: bytes, n: nat): Frame
    requires n <= |b|
  {
    Frame(InfoFrame, [], 0, [], if n >= 16 then U32(b, 8) else 0, if n >= 16 then U32(b, 12) else 0,
          if n > 17 then b[17] else 0)
  }

  function ParseInfo(b: bytes): Outcome
    requires IsInfo(b) && |b| >= 8
  {
    var n := U32(b, 4);
    if n < 8 || n > MAX_INFO then SkipByte
    else if |b| < n then Wait
    else Emit(InfoFrameOf(b, n), n)
  }

  /** How many zero bytes, 1 to 7, precede a packet magic, looking from the n-th on; 0 if b does not start that way. */
  function PadFrom(b: bytes, n: nat): (r: nat)
    requires n > 0
    ensures r < 8 && r <= |b|
    decreases 8 - n
  {
    if n >= 8 || n >= |b| || b[n - 1] != 0 then 0
    else if IsMagic(b[n..]) then n
    else PadFrom(b, n + 1)
  }

  function Parse(b: bytes): (o: Outcome)
    ensures match o
            case Emit(_, n) => 0 < n <= |b|
            case SkipPad(n) => 0 < n <= |b|
            case SkipByte => |b| > 0
            case Wait => true
  {
    if |b| < 8 then Wait
    else if IsVideo(b) then ParseVideo(b)
    else if IsAudio(b) then ParseAudio(b)
    else if IsInfo(b) then ParseInfo(b)
    else
      var n := PadFrom(b, 1);
      if n > 0 then SkipPad(n) else Wait
  }

  // The depacketizer

  datatype State = State(buf: bytes, filler: nat, skipped: nat, lost: nat, gap: bool)

  const EMPTY := State([], 0, 0, 0, false)

  function AfterWrite(s: State, b: bytes, startsPacket: bool): State {
    var s1 := if !startsPacket then s
              else if IsVideo(s.buf) then s.(lost := s.lost + 1, gap := true, buf := [])
              else s.(filler := s.filler + |s.buf|, buf := []);
    s1.(buf := s1.buf + b)
  }

  /** The frame Next returns, if any, and the state it leaves. */
  function NextOf(s: State): (r: (Option<Frame>, State))
    ensures |r.1.buf| <= |s.buf| && (r.0.Some? ==> |r.1.buf| < |s.buf|)
    decreases |s.buf|
  {
    match Parse(s.buf)
    case Wait => (None, s)
    case Emit(f, n) => (Some(f), s.(buf := s.buf[n..]))
    case SkipByte => NextOf(s.(buf := s.buf[1..], skipped := s.skipped + 1))
    case SkipPad(n) => NextOf(s.(buf := s.buf[n..], filler := s.filler + n))
  }

  /** Next called until it has no more frames. */
  function Drain(s: State): (r: (seq<Frame>, State))
    decreases |s.buf|
  {
    var (f, s') := NextOf(s);
    if f.None? then ([], s') else
    var (fs, s'') := Drain(s');
    ([f.value] + fs, s'')
  }

  class Depacketizer {
    var buf: bytes
    var filler: nat
    var skipped: nat
    var lost: nat
    var gap: bool

    function St(): State
      reads this
    {
      State(buf, filler, skipped, lost, gap)
    }

    constructor ()
      ensures St() == EMPTY
    {
      buf, filler, skipped, lost, gap := [], 0, 0, 0, false;
    }

    method Write(b: bytes, startsPacket: bool)
      modifies this
      ensures St() == AfterWrite(old(St()), b, startsPacket)
    {
      if startsPacket {
        if IsVideo(buf) {
          lost := lost + 1;
          gap := true;
        } else {
          filler := filler + |buf|;
        }
        buf := [];
      }
      buf := buf + b;
    }

    method TakeGap() returns (g: bool)
      modifies this
      ensures g == old(gap) && St() == old(St()).(gap := false)
    {
      g := gap;
      gap := false;
    }

    method Next() returns (f: Option<Frame>)
      modifies this
      ensures (f, St()) == NextOf(old(St()))
    {
      hide Parse;
      while true
        invariant NextOf(St()) == NextOf(old(St()))
        decreases |buf|
      {
        var o := OnePass(buf);
        match o
        case Wait => return None;
        case Emit(frame, n) =>
          buf := buf[n..];
          return Some(frame);
        case SkipByte =>
          buf, skipped := buf[1..], skipped + 1;
        case SkipPad(n) =>
          buf, filler := buf[n..], filler + n;
      }
    }
  }

  method OnePass(b: bytes) returns (o: Outcome)
    ensures o == Parse(b)
  {
    if |b| < 8 {
      o := Wait;
    } else if IsVideo(b) {
      o := OneVideo(b);
    } else if IsAudio(b) {
      o := ParseAudio(b);
    } else if IsInfo(b) {
      o := ParseInfo(b);
    } else {
      var n := PadBeforePacket(b);
      o := if n > 0 then SkipPad(n) else Wait;
    }
  }

  method PadBeforePacket(b: bytes) returns (r: nat)
    ensures r == PadFrom(b, 1)
  {
    var n := 1;
    while n < 8 && n < |b|
      invariant 1 <= n <= 8 && PadFrom(b, n) == PadFrom(b, 1)
    {
      if b[n - 1] != 0 {
        return 0;
      }
      if IsMagic(b[n..]) {
        return n;
      }
      n := n + 1;
    }
    r := 0;
  }

  method Search(buf: bytes, hdr: nat, codec: bytes, kind: FrameKind) returns (prefix: nat)
    requires hdr <= |buf|
    ensures prefix == SearchPrefix(buf, hdr, codec, kind)
  {
    var region, i := Region(buf, hdr), -1;
    if IsHevc(codec) {
      i := Find(HevcNal, region);
    } else if IsH264(codec) {
      if kind == IFrame {
        i := Find(H264AccessUnit, region);
      }
      if i < 0 {
        i := Find(H264Nal, region);
      }
    } else {
      i := Find(AnyStart, region);
    }
    prefix := if i < 0 then 0 else i;
  }

  method OneVideo(b: bytes) returns (o: Outcome)
    requires IsVideo(b) && |b| >= 8
    ensures o == ParseVideo(b)
  {
    var hdr := HeaderLen(b);
    if |b| < hdr {
      return Wait;
    }
    var size := U32(b, 8);
    if size > MAX_PICTURE {
      return SkipByte;
    }
    if |b| < hdr + size {
      return Wait;
    }
    var codec := TrimNul(b[4..8]);
    var search := Search(b, hdr, codec, VideoKind(b));
    match StatedPrefix(b, hdr, codec, |b| >= hdr + search + size)
    case NeedMore => o := Wait;
    case Unusable => o := EmitVideo(b, search);
    case Stated(prefix) => o := EmitVideo(b, prefix);
  }
}
