/** Media packets laid out from their fields, and what the depacketizer makes of them. */
module MediaFields {
  import opened Bytes
  import opened Nal
  import opened Media
  import opened MediaStream
  import opened MediaPackets

  // Video packets

  /** spare is what nobody reads: a word, and in an I frame a clock and a word more. */
  datatype Video = Video(
    channel: byte, key: bool, codec: bytes, micros: u32, spare: bytes, meta: bytes, picture: bytes)

  /** The packet, with a word of its own where the metadata's length belongs. */
  function LaidWith(v: Video, word: u32): bytes
    requires v.channel < 10 && |v.codec| <= 4
  {
    VideoMagic(v) + (v.codec + Zeros(4 - |v.codec|)) + Put32(Wrap32(|v.picture|)) + Put32(word) + Put32(v.micros)
    + (v.spare + v.meta + v.picture)
  }

  /** "00dc" or "01dc", the first digit being the channel. */
  function VideoMagic(v: Video): bytes
    requires v.channel < 10
  {
    [0x30 + v.channel, if v.key then 0x30 else 0x31, 0x64, 0x63]
  }

  function DeclaredWord(v: Video): int { |v.meta| + if v.key then 8 else 0 }

  function Laid(v: Video): bytes
    requires v.channel < 10 && |v.codec| <= 4
  {
    LaidWith(v, Wrap32(DeclaredWord(v)))
  }

  /** The picture begins as the codec says. */
  predicate Begins(codec: bytes, picture: bytes) {
    |picture| >= 6 && StartCode(picture, 0)
    && (IsHevc(codec) ==> HevcHeaderValid(picture[4], picture[5]))
    && (IsH264(codec) ==> H264HeaderValid(picture[4..]))
  }

  /** A packet whose fields fit. */
  predicate Fits(v: Video) {
    && v.channel < 10 && |v.codec| <= 4 && 0 !in v.codec && |v.spare| == (if v.key then 12 else 4)
    && |v.meta| <= MAX_FRAME_PREFIX && |v.picture| <= MAX_PICTURE && Begins(v.codec, v.picture)
  }

  function FrameFrom(v: Video): Frame {
    Frame(if v.key then IFrame else PFrame, v.codec, v.micros, v.picture, 0, 0, 0)
  }

  lemma {:induction false} TrimPadded(c: bytes, k: nat)
    requires 0 !in c
    ensures TrimNul(c + Zeros(k)) == c
  {
    if c == [] {
      assert c + Zeros(k) == Zeros(k);
    } else {
      assert (c + Zeros(k))[1..] == c[1..] + Zeros(k);
      TrimPadded(c[1..], k);
    }
  }

  /** Five words and what follows them. */
  lemma FiveWords(a: bytes, b: bytes, c: bytes, d: bytes, e: bytes, rest: bytes)
    requires |a| == |b| == |c| == |d| == |e| == 4
    ensures var all := a + b + c + d + e + rest;
            && |all| == 20 + |rest| && all[..4] == a && all[4..8] == b && all[8..12] == c && all[12..16] == d
            && all[16..20] == e && all[20..] == rest
  {
  }

  lemma ThreeParts(s: bytes, a: bytes, b: bytes, c: bytes)
    requires |s| >= 20 && s[20..] == a + b + c
    ensures |s| == 20 + |a| + |b| + |c| && s[20 + |a| + |b|..] == c && s[20 + |a|..] == b + c
  {
    assert s[20 + |a|..] == s[20..][|a|..];
    assert s[20 + |a| + |b|..] == s[20..][|a| + |b|..];
  }

  lemma LaidWords(v: Video, word: u32)
    requires Fits(v)
    ensures var p := LaidWith(v, word);
            && |p| == 20 + |v.spare| + |v.meta| + |v.picture| && p[..4] == VideoMagic(v)
            && CodecOf(p) == v.codec && SizeOf(p) == |v.picture| && U32(p, 12) == word && U32(p, 16) == v.micros
            && p[20..] == v.spare + v.meta + v.picture
  {
    hide Put32, U32, TrimNul, Begins;
    var name := v.codec + Zeros(4 - |v.codec|);
    WordsRead(VideoMagic(v), name, |v.picture|, word, v.micros, v.spare + v.meta + v.picture);
    TrimPadded(v.codec, 4 - |v.codec|);
  }

  lemma WordsRead(a: bytes, b: bytes, x: u32, y: u32, z: u32, rest: bytes)
    requires |a| == |b| == 4
    ensures var p := a + b + Put32(x) + Put32(y) + Put32(z) + rest;
            && |p| == 20 + |rest| && p[..4] == a && p[4..8] == b && U32(p, 8) == x && U32(p, 12) == y
            && U32(p, 16) == z && p[20..] == rest
  {
    hide Put32, U32;
    Put32Length(x);
    Put32Length(y);
    Put32Length(z);
    var p := a + b + Put32(x) + Put32(y) + Put32(z) + rest;
    FiveWords(a, b, Put32(x), Put32(y), Put32(z), rest);
    ReadBack32(p, 8, x);
    ReadBack32(p, 12, y);
    ReadBack32(p, 16, z);
  }

  /** Where the depacketizer finds each field. */
  lemma LaidIs(v: Video, word: u32)
    requires Fits(v)
    ensures var p := LaidWith(v, word);
            && IsVideo(p) && HeaderLen(p) == 20 + |v.spare| && |p| == HeaderLen(p) + |v.meta| + |v.picture|
            && (p[1] == 0x30 <==> v.key) && CodecOf(p) == v.codec && SizeOf(p) == |v.picture|
            && U32(p, 12) == word && U32(p, 16) == v.micros
            && p[HeaderLen(p)..] == v.meta + v.picture && p[HeaderLen(p) + |v.meta|..] == v.picture
  {
    hide LaidWith, U32, CodecOf, Begins;
    var p := LaidWith(v, word);
    LaidWords(v, word);
    ThreeParts(p, v.spare, v.meta, v.picture);
    assert p[0] == p[..4][0] && p[1] == p[..4][1] && p[2] == p[..4][2] && p[3] == p[..4][3];
  }

  /** A packet laid out from fields that fit is read back as just those fields, whatever follows it. */
  lemma {:induction false} VideoReadBack(v: Video, x: bytes)
    requires Fits(v)
    ensures Parse(Laid(v) + x) == Emit(FrameFrom(v), |Laid(v)|)
  {
    hide Parse, Laid, IsVideoPacket, VideoFrameOf;
    LaidIsPacket(v);
    FrameOfLaid(v);
    VideoWhole(Laid(v), x);
  }

  lemma FrameOfLaid(v: Video)
    requires Fits(v)
    ensures IsVideoPacket(Laid(v)) && VideoFrameOf(Laid(v)) == FrameFrom(v)
  {
    hide LaidWith, TrimNul, U32, HevcHeaderValid, H264HeaderValid, IsVideoPacket;
    var p := Laid(v);
    LaidIsPacket(v);
    LaidIs(v, DeclaredWord(v));
    assert p[HeaderLen(p) + |v.meta|..][..|v.picture|] == v.picture;
  }

  lemma LaidIsPacket(v: Video)
    requires Fits(v)
    ensures IsVideoPacket(Laid(v)) && DeclaredPrefix(Laid(v)) == |v.meta|
  {
    hide LaidWith, TrimNul, U32, HevcHeaderValid;
    var p := Laid(v);
    LaidIs(v, DeclaredWord(v));
    var at := HeaderLen(p) + |v.meta|;
    assert forall i :: 0 <= i < 6 ==> p[at + i] == p[at..][i];
    assert p[at + 4..] == p[at..][4..];
  }

  /** Cut into messages anywhere it gives the same frame, when the picture is long enough for that. */
  lemma {:induction false} VideoCutsAlike(v: Video)
    requires Fits(v) && |v.picture| >= |v.meta| + 6
    ensures CutsAlike(Laid(v), FrameFrom(v))
  {
    hide LaidWith, TrimNul, U32, Exposed, IsVideoPacket, CutsAlike, VideoFrame;
    LaidIs(v, DeclaredWord(v));
    LaidIsPacket(v);
    LongPictureIsSafe(Laid(v));
    VideoCutsAlikeIff(Laid(v));
    VideoReadBack(v, []);
    VideoWhole(Laid(v), []);
  }

  // When the metadata's length is not declared

  /** The search the codec and the kind of frame call for. */
  function TestOf(v: Video): Test {
    if IsHevc(v.codec) then HevcNal
    else if IsH264(v.codec) then (if v.key then H264AccessUnit else H264Nal)
    else AnyStart
  }

  /** A search looks at six bytes, at most. */
  lemma HitIsNear(t: Test, a: bytes, i: nat, b: bytes, j: nat)
    requires i + 6 <= |a| && j + 6 <= |b| && a[i..i + 6] == b[j..j + 6]
    ensures Hit(t, a, i) <==> Hit(t, b, j)
  {
    hide HevcHeaderValid, H264HeaderValid;
    SixAlike(a, i, b, j);
    HeaderLooksAtTwo(a[i + 4..], b[j + 4..]);
  }

  lemma SixAlike(a: bytes, i: nat, b: bytes, j: nat)
    requires i + 6 <= |a| && j + 6 <= |b| && a[i..i + 6] == b[j..j + 6]
    ensures a[i] == b[j] && a[i + 1] == b[j + 1] && a[i + 2] == b[j + 2] && a[i + 3] == b[j + 3]
    ensures a[i + 4] == b[j + 4] && a[i + 5] == b[j + 5]
  {
    var c, d := a[i..i + 6], b[j..j + 6];
    assert c[0] == d[0] && c[1] == d[1] && c[2] == d[2] && c[3] == d[3] && c[4] == d[4] && c[5] == d[5];
  }

  /** The word tells of no metadata that a packet can have. */
  predicate Undeclared(v: Video, word: u32) {
    word < (if v.key then 8 else 0) || word > MAX_FRAME_PREFIX + if v.key then 8 else 0
  }

  lemma {:induction false} SearchFindsPicture(t: Test, meta: bytes, picture: bytes, region: bytes)
    requires |picture| >= 6 && |meta| + 6 <= |region| && region[..|meta| + 6] == (meta + picture)[..|meta| + 6]
    requires Hit(t, picture, 0) && forall i :: 0 <= i < |meta| ==> !Hit(t, meta + picture, i)
    ensures FirstHit(t, region, 0) == |meta|
  {
    hide Hit;
    var all, n := meta + picture, |meta|;
    forall i | 0 <= i <= n
      ensures Hit(t, region, i) <==> i == n
    {
      SixAt(region, all, n + 6, i);
      HitIsNear(t, region, i, all, i);
      if i == n {
        assert all[n..n + 6] == picture[0..6];
        HitIsNear(t, all, n, picture, 0);
      }
    }
    assert Hit(t, region, n);
    FirstHitIsFirst(t, region, 0);
  }

  lemma SixAt(a: bytes, b: bytes, n: nat, i: nat)
    requires n <= |a| && n <= |b| && a[..n] == b[..n] && i + 6 <= n
    ensures a[i..i + 6] == b[i..i + 6]
  {
    assert a[i..i + 6] == a[..n][i..i + 6] == b[..n][i..i + 6] == b[i..i + 6];
  }

  /**
   Where the header does not say how long the metadata is, the picture is found by its first start code that the
   codec's search accepts, and the fields are read back all the same.
   */
  lemma {:induction false} SearchedReadBack(v: Video, word: u32, x: bytes)
    requires Fits(v) && Undeclared(v, word) && |v.meta| + 6 <= MAX_FRAME_PREFIX
    requires Hit(TestOf(v), v.picture, 0)
    requires forall i :: 0 <= i < |v.meta| ==> !Hit(TestOf(v), v.meta + v.picture, i)
    ensures Parse(LaidWith(v, word) + x) == Emit(FrameFrom(v), |LaidWith(v, word)|)
  {
    hide LaidWith, TrimNul, U32, Hit, FirstHit, StartCode;
    var p := LaidWith(v, word);
    var b, hdr := p + x, 20 + |v.spare|;
    LaidIs(v, word);
    assert b[..hdr] == p[..hdr];
    SameHeader(p, b);
    RegionStarts(p, x, hdr, v.meta + v.picture, |v.meta| + 6);
    SearchFindsPicture(TestOf(v), v.meta, v.picture, Region(b, hdr));
    PartAt(p, x, hdr + |v.meta|, v.picture);
  }

  lemma RegionStarts(p: bytes, x: bytes, hdr: nat, rest: bytes, n: nat)
    requires hdr <= |p| && p[hdr..] == rest && n <= |rest| && n <= MAX_FRAME_PREFIX
    ensures n <= |Region(p + x, hdr)| && Region(p + x, hdr)[..n] == rest[..n]
  {
    assert Region(p + x, hdr)[..n] == (p + x)[hdr..hdr + n] == p[hdr..hdr + n] == p[hdr..][..n];
  }

  lemma PartAt(p: bytes, x: bytes, at: nat, part: bytes)
    requires at <= |p| && p[at..] == part
    ensures (p + x)[at..at + |part|] == part
  {
  }

  // Info and audio packets

  function InfoMagic(second: bool): bytes { [0x31, 0x30, 0x30, if second then 0x32 else 0x31] }

  lemma InfoIs(second: bool, body: bytes)
    requires 8 + |body| <= MAX_INFO
    ensures var p := InfoMagic(second) + Put32(8 + |body|) + body;
            && IsInfoPacket(p) && p[8..] == body && |p| == 8 + |body|
  {
    hide Put32, U32;
    var p := InfoMagic(second) + Put32(8 + |body|) + body;
    Put32Length(8 + |body|);
    assert p[4..8] == Put32(8 + |body|);
    ReadBack32(p, 4, 8 + |body|);
    assert p[..4] == InfoMagic(second);
    assert forall i :: 0 <= i < 4 ==> p[i] == p[..4][i];
  }

  lemma Put32Length(v: u32)
    ensures |Put32(v)| == 4
  {
  }

  /** The parts of an info packet a reader looks at, and the pieces no reader does. */
  lemma {:induction false} InfoReadBack(second: bool, width: u32, height: u32, spare: byte, fps: byte, rest: bytes,
                                        x: bytes)
    requires 18 + |rest| <= MAX_INFO
    ensures var p := InfoMagic(second) + Put32(18 + |rest|) + (Put32(width) + Put32(height) + [spare, fps] + rest);
            Parse(p + x) == Emit(Frame(InfoFrame, [], 0, [], width, height, fps), |p|)
  {
    hide Parse, U32, Framed;
    var body := Put32(width) + Put32(height) + [spare, fps] + rest;
    var p := InfoMagic(second) + Put32(18 + |rest|) + body;
    InfoIs(second, body);
    InfoFramed(p);
    FramedParses(p, InfoFrameOf(p, |p|), x);
    BodyWords(p, body, width, height, [spare, fps] + rest);
    assert p[17] == p[8..][9] == fps;
  }

  lemma BodyWords(p: bytes, body: bytes, width: u32, height: u32, rest: bytes)
    requires |p| >= 16 && p[8..] == body && body == Put32(width) + Put32(height) + rest
    ensures U32(p, 8) == width && U32(p, 12) == height
  {
    hide U32;
    assert p[8..12] == p[8..][..4] == Put32(width);
    assert p[12..16] == p[8..][4..8] == Put32(height);
    ReadBack32(p, 8, width);
    ReadBack32(p, 12, height);
  }

  lemma FramedParses(p: bytes, f: Frame, x: bytes)
    requires Framed(p, f)
    ensures Parse(p + x) == Emit(f, |p|)
  {
    hide Parse;
  }

  /** A shorter info packet has a size only with all of both words, and no rate. */
  lemma {:induction false} ShortInfoReadBack(second: bool, body: bytes, x: bytes)
    requires |body| < 10
    ensures var p := InfoMagic(second) + Put32(8 + |body|) + body;
            var sized := |body| >= 8;
            Parse(p + x) == Emit(Frame(InfoFrame, [], 0, [], if sized then U32(body, 0) else 0,
                                       if sized then U32(body, 4) else 0, 0), |p|)
  {
    hide Parse, Framed;
    var p := InfoMagic(second) + Put32(8 + |body|) + body;
    InfoIs(second, body);
    InfoFramed(p);
    FramedParses(p, InfoFrameOf(p, |p|), x);
    assert forall i :: 0 <= i < |body| ==> p[8 + i] == p[8..][i];
  }

  /** "?5wb" or "?1wb", a length, two bytes nobody reads and the sound. */
  lemma {:induction false} AudioReadBack(channel: byte, aac: bool, spare: bytes, data: bytes, x: bytes)
    requires channel < 10 && |spare| == 2 && |data| < 0x1_0000
    ensures var p := [0x30 + channel, if aac then 0x35 else 0x31, 0x77, 0x62] + Put16(|data|) + spare + data;
            Parse(p + x) == Emit(Frame(if aac then AACFrame else ADPCMFrame, [], 0, data, 0, 0, 0), |p|)
  {
    hide Parse, Framed;
    var p := [0x30 + channel, if aac then 0x35 else 0x31, 0x77, 0x62] + Put16(|data|) + spare + data;
    assert p[4..6] == Put16(|data|) && p[8..] == data;
    ReadBack16(p, 4, |data|);
    AudioFramed(p);
    FramedParses(p, AudioFrameOf(p), x);
  }

  // NAL headers from their fields

  /** The two header bytes of an HEVC unit, section 7.3.1.2 of ITU-T H.265. */
  lemma HevcHeaderIff(kind: nat, layer: nat, temporal: nat)
    requires kind < 64 && layer < 64 && temporal < 8
    ensures var b0, b1 := (2 * kind + layer / 32) as byte, (layer % 32 * 8 + temporal) as byte;
            HevcHeaderValid(b0, b1) <==>
              layer == 0 && temporal >= 1 && (kind <= 9 || 16 <= kind <= 21 || 32 <= kind <= 40)
  {
  }

  /** The header byte of an H.264 unit, section 7.3.1 of ITU-T H.264, and a parameter set's profile behind it. */
  lemma H264HeaderIff(ref: nat, kind: nat, rest: bytes)
    requires ref < 4 && kind < 32
    ensures var b := [(32 * ref + kind) as byte] + rest;
            && (H264HeaderValid(b) <==>
                  || kind == 1 || (kind in {5, 8} && ref != 0) || (kind in {6, 9} && ref == 0)
                  || (kind == 7 && ref != 0 && rest != [] && H264Profile(rest[0])))
            && (H264StartsAccessUnit(b) <==> H264HeaderValid(b) && kind in {6, 7, 9})
  {
  }

  lemma ForbiddenBit(b: bytes)
    requires b != [] && b[0] >= 0x80
    ensures !H264HeaderValid(b)
  {
  }

  /** The bytes that metadata was seen to end the search with: a unit of type 2, and a parameter set of profile 123. */
  lemma CapturedMetadataRefused(rest: bytes)
    ensures !H264HeaderValid([0x42] + rest) && !H264HeaderValid([0x27, 123] + rest)
    ensures H264StartsAccessUnit([0x27, 66] + rest) && H264StartsAccessUnit([0x67, 77] + rest)
    ensures H264StartsAccessUnit([0x67, 100] + rest) && !H264StartsAccessUnit([0x65] + rest)
  {
  }

  // Magics

  lemma FourBytes(b: bytes, m: bytes)
    requires |b| >= 4 && |m| == 4
    ensures b[..4] == m <==> b[0] == m[0] && b[1] == m[1] && b[2] == m[2] && b[3] == m[3]
  {
    assert b[..4][0] == b[0] && b[..4][1] == b[1] && b[..4][2] == b[2] && b[..4][3] == b[3];
  }

  predicate BeginsVideo(b: bytes, v: Video) { v.channel < 10 && |b| >= 4 && b[..4] == VideoMagic(v) }

  /** The magics above are all there are: any other four bytes begin no packet. */
  lemma MagicIff(b: bytes)
    requires |b| >= 4
    ensures IsVideo(b) <==> exists v :: BeginsVideo(b, v)
    ensures IsInfo(b) <==> b[..4] == InfoMagic(false) || b[..4] == InfoMagic(true)
    ensures IsAudio(b) <==> 0x30 <= b[0] < 0x3a && (b[1] == 0x35 || b[1] == 0x31) && b[2] == 0x77 && b[3] == 0x62
    ensures !(IsVideo(b) && IsAudio(b)) && !(IsVideo(b) && IsInfo(b)) && !(IsAudio(b) && IsInfo(b))
  {
    FourBytes(b, InfoMagic(false));
    FourBytes(b, InfoMagic(true));
    if IsVideo(b) {
      var v := Video(b[0] - 0x30, b[1] == 0x30, [], 0, [], [], []);
      FourBytes(b, VideoMagic(v));
      assert BeginsVideo(b, v);
    }
    if v :| BeginsVideo(b, v) {
      FourBytes(b, VideoMagic(v));
    }
  }

  // Lengths that cannot be

  /** A length no packet has does not hold up the stream: one byte is skipped, and counted. */
  lemma BadLengthSkipped(b: bytes)
    requires |b| >= 8
    ensures IsVideo(b) && |b| >= HeaderLen(b) && U32(b, 8) > 0x100_0000 ==> Parse(b) == SkipByte
    ensures IsInfo(b) && (U32(b, 4) < 8 || U32(b, 4) > 0x1_0000) ==> Parse(b) == SkipByte
  {
    hide U32;
  }

  /** Nothing else is skipped so, and nothing but a packet is given out, a picture not before its length is there. */
  lemma OnlyPackets(b: bytes)
    ensures Parse(b) == SkipByte ==>
              || (IsVideo(b) && |b| >= HeaderLen(b) && U32(b, 8) > 0x100_0000)
              || (IsInfo(b) && |b| >= 8 && (U32(b, 4) < 8 || U32(b, 4) > 0x1_0000))
    ensures Parse(b).Emit? ==> IsMagic(b)
    ensures Parse(b).Emit? && IsVideo(b) ==> |b| >= 28
  {
    hide U32, SearchPrefix;
  }
}
