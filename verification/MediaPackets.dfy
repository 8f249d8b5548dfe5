/**
 Which packets are framed, so that cutting them into messages changes nothing, and exactly which
 video packets are not.
 */
module MediaPackets {
  import opened Bytes
  import opened Nal
  import opened Media
  import opened MediaStream
  import opened MediaLedger

  // Audio and info packets

  ghost predicate IsAudioPacket(p: bytes) { |p| >= 8 && IsAudio(p) && |p| == 8 + U16(p, 4) }

  ghost predicate IsInfoPacket(p: bytes) {
    |p| >= 8 && IsInfo(p) && |p| == U32(p, 4) && |p| <= MAX_INFO
  }

  function AudioFrameOf(p: bytes): Frame
    requires |p| >= 8
  {
    Frame(if IsADPCM(p) then ADPCMFrame else AACFrame, [], 0, p[8..], 0, 0, 0)
  }

  lemma MagicOfPrefix(p: bytes, q: bytes)
    requires |p| >= 4 && |q| >= 4 && p[..4] == q[..4]
    ensures IsVideo(p) == IsVideo(q) && IsAAC(p) == IsAAC(q) && IsADPCM(p) == IsADPCM(q) && IsInfo(p) == IsInfo(q)
  {
    assert forall i :: 0 <= i < 4 ==> p[i] == p[..4][i] && q[i] == q[..4][i];
  }

  lemma {:induction false} AudioFramed(p: bytes)
    requires IsAudioPacket(p)
    ensures Framed(p, AudioFrameOf(p))
  {
    forall x: bytes
      ensures Parse(p + x) == Emit(AudioFrameOf(p), |p|)
    {
      var b := p + x;
      assert b[..4] == p[..4];
      MagicOfPrefix(p, b);
      assert b[8..8 + U16(p, 4)] == p[8..];
    }
    forall m | 0 <= m < |p|
      ensures Parse(p[..m]) == Wait
    {
      if m >= 8 {
        assert p[..m][..4] == p[..4];
        MagicOfPrefix(p, p[..m]);
      }
    }
  }

  lemma {:induction false} InfoFramed(p: bytes)
    requires IsInfoPacket(p)
    ensures Framed(p, InfoFrameOf(p, |p|))
  {
    forall x: bytes
      ensures Parse(p + x) == Emit(InfoFrameOf(p, |p|), |p|)
    {
      assert (p + x)[..4] == p[..4];
      MagicOfPrefix(p, p + x);
    }
    forall m | 0 <= m < |p|
      ensures Parse(p[..m]) == Wait
    {
      if m >= 8 {
        assert p[..m][..4] == p[..4];
        MagicOfPrefix(p, p[..m]);
      }
    }
  }

  // Video packets

  function SizeOf(p: bytes): u32
    requires |p| >= 12
  {
    U32(p, 8)
  }

  function CodecOf(p: bytes): bytes
    requires |p| >= 8
  {
    TrimNul(p[4..8])
  }

  /** The metadata length the header declares. */
  function DeclaredPrefix(p: bytes): int
    requires IsVideo(p) && |p| >= HeaderLen(p)
  {
    BASE + U32(p, 12) - HeaderLen(p)
  }

  /** A complete video packet whose declared metadata length checks out. */
  ghost predicate IsVideoPacket(p: bytes) {
    && IsVideo(p) && |p| >= HeaderLen(p)
    && 6 <= SizeOf(p) <= MAX_PICTURE && DeclaredPrefix(p) >= 0
    && |p| == HeaderLen(p) + DeclaredPrefix(p) + SizeOf(p)
    && StatedPrefix(p, HeaderLen(p), CodecOf(p), false) == Stated(DeclaredPrefix(p))
  }

  function SearchAt(p: bytes, m: nat): nat
    requires IsVideo(p) && HeaderLen(p) <= m <= |p|
  {
    SearchPrefix(p[..m], HeaderLen(p), CodecOf(p), VideoKind(p))
  }

  /**
   With m bytes of p buffered the declared length cannot be checked yet, and the search, misled or
   finding nothing, already counts the packet complete.
   */
  ghost predicate ExposedAt(p: bytes, m: nat)
    requires IsVideoPacket(p)
  {
    && HeaderLen(p) <= m <= |p| && BASE + 4 <= m < HeaderLen(p) + DeclaredPrefix(p) + 6
    && HeaderLen(p) + SearchAt(p, m) + SizeOf(p) <= m
  }

  ghost predicate Exposed(p: bytes)
    requires IsVideoPacket(p)
  {
    exists m :: ExposedAt(p, m)
  }

  /** The frame a video packet carries: the picture from the declared offset on. */
  function VideoFrameOf(p: bytes): Frame
    requires IsVideo(p) && |p| >= HeaderLen(p) && 0 <= DeclaredPrefix(p)
    requires |p| >= HeaderLen(p) + DeclaredPrefix(p) + SizeOf(p)
  {
    VideoFrame(p, DeclaredPrefix(p))
  }

  /** Bytes after the header's are not looked at for the header's fields. */
  lemma {:induction false} SameHeader(p: bytes, b: bytes)
    requires IsVideo(p) && |p| >= HeaderLen(p) && |b| >= HeaderLen(p) && b[..HeaderLen(p)] == p[..HeaderLen(p)]
    ensures IsVideo(b) && HeaderLen(b) == HeaderLen(p) && VideoKind(b) == VideoKind(p)
    ensures SizeOf(b) == SizeOf(p) && CodecOf(b) == CodecOf(p) && U32(b, 12) == U32(p, 12) && U32(b, 16) == U32(p, 16)
  {
    var h := p[..HeaderLen(p)];
    assert forall i :: 0 <= i < HeaderLen(p) ==> p[i] == h[i] && b[i] == b[..HeaderLen(p)][i];
    assert b[4..8] == p[4..8];
  }

  /** The verdict depends only on the bytes up to the first two of the picture's NAL header. */
  lemma {:induction false} SameVerdict(p: bytes, b: bytes, settled: bool)
    requires IsVideoPacket(p)
    requires var n := HeaderLen(p) + DeclaredPrefix(p) + 6; |b| >= n && b[..n] == p[..n]
    ensures StatedPrefix(b, HeaderLen(p), CodecOf(p), settled) == Stated(DeclaredPrefix(p))
  {
    var at := HeaderLen(p) + DeclaredPrefix(p);
    var n := at + 6;
    assert forall i :: 0 <= i < n ==> p[i] == p[..n][i] && b[i] == b[..n][i];
    HeaderLooksAtTwo(p[at + 4..], b[at + 4..]);
  }

  lemma HeaderLooksAtTwo(a: bytes, b: bytes)
    requires |a| >= 2 && |b| >= 2 && a[0] == b[0] && a[1] == b[1]
    ensures H264HeaderValid(a) == H264HeaderValid(b)
  {
  }

  /** A complete packet is taken as it declares itself, whatever follows it. */
  lemma {:induction false} VideoWhole(p: bytes, x: bytes)
    requires IsVideoPacket(p)
    ensures Parse(p + x) == Emit(VideoFrameOf(p), |p|)
  {
    hide SearchPrefix, StatedPrefix, TrimNul;
    var b, hdr := p + x, HeaderLen(p);
    assert b[..hdr] == p[..hdr];
    SameHeader(p, b);
    var n := hdr + DeclaredPrefix(p) + 6;
    assert b[..n] == p[..n];
    SameVerdict(p, b, |b| >= hdr + SearchPrefix(b, hdr, CodecOf(p), VideoKind(p)) + SizeOf(p));
    var start := hdr + DeclaredPrefix(p);
    assert b[start..start + SizeOf(p)] == p[start..start + SizeOf(p)];
  }

  /** An incomplete packet is waited for, except where it is exposed: there a frame is cut from the metadata. */
  lemma {:induction false} VideoPart(p: bytes, m: nat)
    requires IsVideoPacket(p) && m < |p|
    ensures !ExposedAt(p, m) ==> Parse(p[..m]) == Wait
    ensures ExposedAt(p, m) ==>
              var n := HeaderLen(p) + SearchAt(p, m) + SizeOf(p);
              n <= m && Parse(p[..m]) == Emit(VideoFrame(p[..m], SearchAt(p, m)), n)
  {
    hide SearchPrefix, TrimNul, HevcHeaderValid, H264HeaderValid, VideoFrame;
    var b, hdr := p[..m], HeaderLen(p);
    if m >= 8 {
      assert b[..4] == p[..4];
      MagicOfPrefix(p, b);
      assert b[1] == p[1];
      if m >= hdr {
        assert b[..hdr] == p[..hdr];
        SameHeader(p, b);
        if m >= hdr + DeclaredPrefix(p) + 6 {
          assert IsVideo(p) && hdr <= m <= |p|;
          var n := hdr + DeclaredPrefix(p) + 6;
          assert b[..n] == p[..n];
          SameVerdict(p, b, m >= hdr + SearchAt(p, m) + SizeOf(p));
        }
      }
    }
  }

  lemma {:induction false} VideoFramedIff(p: bytes)
    requires IsVideoPacket(p)
    ensures Framed(p, VideoFrameOf(p)) <==> !Exposed(p)
  {
    var f := VideoFrameOf(p);
    hide Parse, VideoFrame, IsVideoPacket;
    forall x: bytes
      ensures Parse(p + x) == Emit(f, |p|)
    {
      VideoWhole(p, x);
    }
    if Exposed(p) {
      var m :| ExposedAt(p, m);
      ExposedIsProper(p, m);
      VideoPart(p, m);
    } else {
      forall m | 0 <= m < |p|
        ensures Parse(p[..m]) == Wait
      {
        VideoPart(p, m);
      }
    }
    PacketIsLong(p);
  }

  lemma ExposedIsProper(p: bytes, m: nat)
    requires IsVideoPacket(p) && ExposedAt(p, m)
    ensures m < |p| && HeaderLen(p) + SearchAt(p, m) + SizeOf(p) < |p|
  {
  }

  lemma PacketIsLong(p: bytes)
    requires IsVideoPacket(p)
    ensures 8 <= |p| && IsMagic(p)
  {
  }

  // Cutting one video packet into messages

  /** p is read the same wherever it is cut: one frame, nothing left, no byte skipped. */
  ghost predicate CutsAlike(p: bytes, f: Frame) {
    forall s: State, first: bytes, more: seq<bytes> ::
      first + Concat(more) == p ==> Receive(s, first, more) == ([f], Restarted(s))
  }

  lemma {:induction false} FramedCutsAlike(p: bytes, f: Frame)
    requires Framed(p, f)
    ensures CutsAlike(p, f)
  {
    forall s: State, first: bytes, more: seq<bytes> | first + Concat(more) == p
      ensures Receive(s, first, more) == ([f], Restarted(s))
    {
      hide Receive, Framed, Restarted;
      FramedCut(p, f, s, first, more);
    }
  }

  lemma {:induction false} FramedCut(p: bytes, f: Frame, s: State, first: bytes, more: seq<bytes>)
    requires Framed(p, f) && first + Concat(more) == p
    ensures Receive(s, first, more) == ([f], Restarted(s))
  {
    hide Framed, Receive;
    var items := [Item(0, p, f)];
    OneItem(p, f);
    EmptyIsInert();
    StreamIsRead(s, items, [], first, more);
    assert Restarted(s).buf == [];
  }

  lemma OneItem(p: bytes, f: Frame)
    ensures StreamBytes([Item(0, p, f)]) + [] == p && FramesOf([Item(0, p, f)]) == [f] && PadsOf([Item(0, p, f)]) == 0
  {
    var items := [Item(0, p, f)];
    assert items[1..] == [];
    assert Zeros(0) + p == p;
  }

  lemma EmptyIsInert()
    ensures Inert([])
  {
    assert Parse([]) == Wait;
  }

  /** Cut where it is exposed, a packet loses bytes of its picture for good. */
  lemma {:induction false} ExposedCutDiffers(p: bytes, m: nat, f: Frame)
    requires IsVideoPacket(p) && ExposedAt(p, m)
    ensures Receive(EMPTY, p[..m], [p[m..]]) != ([f], EMPTY)
  {
    ExposedIsProper(p, m);
    VideoPart(p, m);
    hide Parse, SearchAt, IsVideoPacket, VideoFrame, IsVideo, Receive;
    EarlyFrameLeavesBytes(p, m, f);
  }

  lemma {:induction false} EarlyFrameLeavesBytes(p: bytes, m: nat, f: Frame)
    requires m < |p| && Parse(p[..m]).Emit? && Parse(p[..m]).n < |p|
    ensures Receive(EMPTY, p[..m], [p[m..]]) != ([f], EMPTY)
  {
    hide Parse;
    var s1 := EMPTY.(buf := p[..m]);
    var o := Parse(p[..m]);
    var s2 := EMPTY.(buf := p[..m][o.n..]);
    var (fs, s3) := Drain(s2);
    assert Drain(s1) == ([o.f] + fs, s3);
    var s4 := AfterWrite(s3, p[m..], false);
    var (gs, s5) := Drain(s4);
    assert Feed(s3, [p[m..]]) == (gs, s5) by {
      assert [p[m..]][1..] == [] && gs + [] == gs;
    }
    assert AfterWrite(EMPTY, p[..m], true) == s1 by {
      assert [] + p[..m] == p[..m];
    }
    assert Receive(EMPTY, p[..m], [p[m..]]) == (([o.f] + fs) + gs, s5);
    if fs == [] && gs == [] {
      DrainConserves(s2);
      DrainConserves(s4);
      assert Loose(s5) == |p| - o.n;
    }
  }

  /**
   Chunking independence of a video packet whose declared prefix checks out: it holds exactly when
   the packet is exposed nowhere.
   */
  lemma {:induction false} VideoCutsAlikeIff(p: bytes)
    requires IsVideoPacket(p)
    ensures CutsAlike(p, VideoFrameOf(p)) <==> !Exposed(p)
  {
    var f := VideoFrameOf(p);
    VideoFramedIff(p);
    hide Framed, CutsAlike, VideoFrame, ExposedAt, IsVideoPacket;
    if Exposed(p) {
      var m :| ExposedAt(p, m);
      OneCutDiffers(p, m, f);
    } else {
      FramedCutsAlike(p, f);
    }
  }

  lemma {:induction false} OneCutDiffers(p: bytes, m: nat, f: Frame)
    requires IsVideoPacket(p) && ExposedAt(p, m)
    ensures !CutsAlike(p, f)
  {
    hide Receive;
    ExposedCutDiffers(p, m, f);
    var more := [p[m..]];
    assert p[..m] + Concat(more) == p by {
      assert more[1..] == [];
      assert p[..m] + (p[m..] + []) == p;
    }
    assert Restarted(EMPTY) == EMPTY;
  }

  /** A picture at least as long as the metadata and the bytes the check needs is safe. */
  lemma LongPictureIsSafe(p: bytes)
    requires IsVideoPacket(p) && SizeOf(p) >= DeclaredPrefix(p) + 6
    ensures !Exposed(p)
  {
  }

  /** No start code begins inside the metadata. */
  ghost predicate CleanMetadata(p: bytes)
    requires IsVideoPacket(p)
  {
    forall i :: HeaderLen(p) <= i < HeaderLen(p) + DeclaredPrefix(p) ==> !StartCode(p, i)
  }

  lemma RegionIsTail(p: bytes, m: nat, hdr: nat, j: nat)
    requires hdr <= m <= |p| && j < |Region(p[..m], hdr)|
    ensures hdr + j < m && Region(p[..m], hdr)[j] == p[hdr + j]
  {
  }

  lemma StartInPacket(p: bytes, m: nat, j: nat)
    requires IsVideoPacket(p) && HeaderLen(p) <= m <= |p| && j + 4 <= |Region(p[..m], HeaderLen(p))|
    ensures StartCode(Region(p[..m], HeaderLen(p)), j) <==> StartCode(p, HeaderLen(p) + j)
  {
    hide Region, StatedPrefix;
    RegionIsTail(p, m, HeaderLen(p), j);
    RegionIsTail(p, m, HeaderLen(p), j + 1);
    RegionIsTail(p, m, HeaderLen(p), j + 2);
    RegionIsTail(p, m, HeaderLen(p), j + 3);
  }

  lemma PictureStarts(p: bytes)
    requires IsVideoPacket(p)
    ensures 0 <= DeclaredPrefix(p) <= MAX_FRAME_PREFIX && StartCode(p, HeaderLen(p) + DeclaredPrefix(p))
    ensures |p| >= HeaderLen(p) + DeclaredPrefix(p) + 6
  {
  }

  /** With clean metadata a search of what is buffered before the check finds the picture or nothing. */
  lemma {:induction false} FindsPictureOrNothing(t: Test, p: bytes, m: nat)
    requires IsVideoPacket(p) && CleanMetadata(p)
    requires HeaderLen(p) <= m <= |p| && m < HeaderLen(p) + DeclaredPrefix(p) + 6
    ensures var region := Region(p[..m], HeaderLen(p));
            FirstHit(t, region, 0) == if Hit(t, region, DeclaredPrefix(p)) then DeclaredPrefix(p) else -1
  {
    hide HevcHeaderValid, H264HeaderValid, StatedPrefix, StartCode;
    PictureStarts(p);
    var region, prefix := Region(p[..m], HeaderLen(p)), DeclaredPrefix(p);
    var r := FirstHit(t, region, 0);
    FirstHitIsFirst(t, region, 0);
    if r >= 0 {
      StartInPacket(p, m, r);
      if r > prefix {
        StartInPacket(p, m, prefix);
      }
    }
  }

  /**
   How many bytes of the picture a search has to see before it finds it: the codec's test needs so many, one more
   for a sequence parameter set, and none finds a picture that begins too far in.
   */
  function SeenFrom(p: bytes): nat
    requires IsVideoPacket(p)
  {
    var prefix, codec := DeclaredPrefix(p), CodecOf(p);
    var need := if IsHevc(codec) then 6
                else if IsH264(codec) then (if p[HeaderLen(p) + prefix + 4] % 32 == 7 then 6 else 5)
                else 4;
    if prefix + need > MAX_FRAME_PREFIX then 6 else need
  }

  /** Of a header that is valid, the first byte alone is, unless it is a sequence parameter set's. */
  lemma FirstByteValid(b: bytes, c: bytes)
    requires |b| == 1 && c != [] && b[0] == c[0] && H264HeaderValid(c)
    ensures H264HeaderValid(b) <==> b[0] % 32 != 7
  {
  }

  /** When the searches of each codec find the picture in what is buffered before the check. */
  lemma {:induction false} PictureIsHit(p: bytes, m: nat)
    requires IsVideoPacket(p) && HeaderLen(p) <= m <= |p| && m < HeaderLen(p) + DeclaredPrefix(p) + 6
    ensures var region, prefix, at := Region(p[..m], HeaderLen(p)), DeclaredPrefix(p), HeaderLen(p) + DeclaredPrefix(p);
            && 0 <= prefix && !Hit(HevcNal, region, prefix)
            && (Hit(AnyStart, region, prefix) <==> m >= at + 4 && prefix + 4 <= MAX_FRAME_PREFIX)
            && (IsH264(CodecOf(p)) ==>
                  (Hit(H264Nal, region, prefix) <==>
                     m >= at + 5 && prefix + 5 <= MAX_FRAME_PREFIX && p[at + 4] % 32 != 7))
            && (Hit(H264AccessUnit, region, prefix) ==> Hit(H264Nal, region, prefix))
  {
    hide HevcHeaderValid, H264HeaderValid, StartCode;
    PictureStarts(p);
    var region, prefix, at := Region(p[..m], HeaderLen(p)), DeclaredPrefix(p), HeaderLen(p) + DeclaredPrefix(p);
    if prefix + 4 <= |region| {
      StartInPacket(p, m, prefix);
    }
    if IsH264(CodecOf(p)) && prefix + 5 <= |region| {
      RegionIsTail(p, m, HeaderLen(p), prefix + 4);
      FirstByteValid(region[prefix + 4..], p[at + 4..]);
    }
  }

  /** The search finds the picture exactly from that many of its bytes on. */
  lemma {:induction false} SearchFinds(p: bytes, m: nat)
    requires IsVideoPacket(p) && CleanMetadata(p)
    requires HeaderLen(p) <= m <= |p| && m < HeaderLen(p) + DeclaredPrefix(p) + 6
    ensures SearchAt(p, m)
         == if m >= HeaderLen(p) + DeclaredPrefix(p) + SeenFrom(p) then DeclaredPrefix(p) else 0
  {
    hide Hit, StatedPrefix, FirstHit, CleanMetadata, Region;
    PictureIsHit(p, m);
    FindsPictureOrNothing(HevcNal, p, m);
    FindsPictureOrNothing(H264Nal, p, m);
    FindsPictureOrNothing(H264AccessUnit, p, m);
    FindsPictureOrNothing(AnyStart, p, m);
  }

  /**
   For a packet with no start code inside its metadata the condition is one comparison: it can be cut anywhere
   exactly when the picture is longer than the metadata by the bytes the search has to see, six for HEVC.
   */
  lemma {:induction false} CleanExposedIff(p: bytes)
    requires IsVideoPacket(p) && CleanMetadata(p)
    ensures Exposed(p) <==> SizeOf(p) < DeclaredPrefix(p) + SeenFrom(p)
  {
    hide StatedPrefix, SearchAt, CleanMetadata;
    if Exposed(p) {
      var m :| ExposedAt(p, m);
      SearchFinds(p, m);
    }
    if SizeOf(p) < DeclaredPrefix(p) + SeenFrom(p) {
      var m := HeaderLen(p) + SizeOf(p);
      SearchFinds(p, m);
      assert ExposedAt(p, m);
    }
  }

  /** An H265 packet with ten bytes of metadata and a picture of six bytes. */
  function SmallPicture(meta: bytes): bytes
    requires |meta| == 10
  {
    [0x30, 0x31, 0x64, 0x63, 0x48, 0x32, 0x36, 0x35] + Put32(6) + Put32(10) + Zeros(8) + meta + [0, 0, 0, 1, 2, 1]
  }

  lemma SmallPictureIs(meta: bytes)
    requires |meta| == 10 && forall i :: 0 <= i < 10 ==> meta[i] != 0
    ensures var p := SmallPicture(meta);
            && |p| == 40 && IsVideoPacket(p) && HeaderLen(p) == 24 && DeclaredPrefix(p) == 10 && SizeOf(p) == 6
            && CodecOf(p) == [0x48, 0x32, 0x36, 0x35] && p[24..34] == meta
            && StartCode(p, 34) && p[38] == 2 && p[39] == 1
            && forall i :: 24 <= i < 34 ==> !StartCode(p, i)
  {
    var p := SmallPicture(meta);
    ReadBack32(p, 8, 6);
    ReadBack32(p, 12, 10);
    assert p[4..8] == [0x48, 0x32, 0x36, 0x35];
    TrimKeeps(p[4..8]);
    forall i | 24 <= i < 34
      ensures !StartCode(p, i)
    {
      assert p[i] == meta[i - 24];
    }
  }

  /** A packet cut too early exists: six bytes of picture behind ten of metadata, cut after thirty bytes. */
  lemma {:induction false} SmallPictureCutEarly(meta: bytes)
    requires |meta| == 10 && forall i :: 0 <= i < 10 ==> meta[i] != 0
    ensures var p := SmallPicture(meta);
            IsVideoPacket(p) && Exposed(p) && Parse(p[..30]) == Emit(VideoFrame(p[..30], 0), 30)
            && VideoFrame(p[..30], 0).data == meta[..6]
  {
    hide Put32;
    var p := SmallPicture(meta);
    SmallPictureIs(meta);
    hide SmallPicture;
    SearchFinds(p, 30);
    assert ExposedAt(p, 30);
    VideoPart(p, 30);
    assert p[..30][24..30] == p[24..34][..6] == meta[..6];
  }

  lemma {:induction false} TrimKeeps(c: bytes)
    requires forall i :: 0 <= i < |c| ==> c[i] != 0
    ensures TrimNul(c) == c
  {
    if c != [] {
      TrimKeeps(c[1..]);
    }
  }

  // Audio packets this side writes

  const MAGIC_ADPCM: bytes := [0x30, 0x31, 0x77, 0x62]

  /** The media framing of internal/baichuan/talk.go around one DVI4 block. */
  function TalkPacket(block: bytes): bytes {
    MAGIC_ADPCM + Put16((4 + |block|) % 0x1_0000) + Put16((4 + |block|) % 0x1_0000) + [0x00, 0x01]
    + Put16((|block| - 4) % 0x1_0000) + block
  }

  method BuildTalkPacket(block: bytes) returns (out: bytes)
    ensures out == TalkPacket(block)
  {
    var payload := 4 + |block|;
    out := MAGIC_ADPCM;
    out := out + Put16(payload % 0x1_0000);
    out := out + Put16(payload % 0x1_0000);
    out := out + [0x00, 0x01];
    out := out + Put16((|block| - 4) % 0x1_0000);
    out := out + block;
  }

  /** What TalkPacket writes, the depacketizer reads back: one ADPCM frame holding the block behind its inner header. */
  lemma {:induction false} TalkPacketReadBack(block: bytes)
    requires 4 + |block| < 0x1_0000
    ensures var p := TalkPacket(block);
            && CutsAlike(p, AudioFrameOf(p))
            && AudioFrameOf(p).kind == ADPCMFrame && AudioFrameOf(p).data[4..] == block
  {
    var p := TalkPacket(block);
    assert p[4..6] == Put16(4 + |block|);
    ReadBack16(p, 4, 4 + |block|);
    assert p[0] == 0x30 && p[1] == 0x31 && p[2] == 0x77 && p[3] == 0x62;
    assert p[8..][4..] == block;
    AudioFramed(p);
    hide Framed, CutsAlike;
    FramedCutsAlike(p, AudioFrameOf(p));
  }
}
