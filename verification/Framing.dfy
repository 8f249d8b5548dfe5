/** Message framing on one connection: internal/baichuan/header.go and message.go. */
module Framing {
  import opened Bytes
  import opened Wrappers
  import opened Bits
  import opened Ciphers

  const MAX_MESSAGE_SIZE := 12_441_600
  const VIDEO: u32 := 3
  const CLASS_LEGACY: u16 := 0x6514
  const CLASS_MODERN24: u16 := 0x6414
  const CLASS_ZERO: u16 := 0
  const MAGIC: bytes := [0xf0, 0xde, 0xbc, 0x0a]
  const AES_IV: bytes :=
    [0x30, 0x31, 0x32, 0x33, 0x34, 0x35, 0x36, 0x37, 0x38, 0x39, 0x61, 0x62, 0x63, 0x64, 0x65, 0x66]

  // Headers

  datatype Header = Header(msgID: u32, msgLen: u32, encOffset: u32, encByte: byte, dirByte: byte, kind: u16,
                           payloadOff: u32)

  function HeaderLen(kind: u16): (n: nat)
    ensures n == 20 || n == 24
  {
    if kind == CLASS_MODERN24 || kind == CLASS_ZERO then 24 else 20
  }

  function HeaderBytes(h: Header): (b: bytes)
    ensures |b| == HeaderLen(h.kind)
  {
    MAGIC + Put32(h.msgID) + Put32(h.msgLen) + Put32(h.encOffset) + [h.encByte, h.dirByte] + Put16(h.kind)
    + if HeaderLen(h.kind) == 24 then Put32(h.payloadOff) else []
  }

  datatype ReadError =
    | EOF
    | UnexpectedEOF
    | BadMagic
    | ShortHeader
    | TooLarge(msgID: u32, length: u32)
    | BodyCut(msgID: u32)
    | PayloadOffsetOutOfRange(msgID: u32)

  function DecodeHeader(b: bytes): Result<(Header, nat), ReadError> {
    if |b| < 20 then Err(ShortHeader)
    else if b[..4] != MAGIC then Err(BadMagic)
    else
      var h := Header(U32(b, 4), U32(b, 8), U32(b, 12), b[16], b[17], U16(b, 18), 0);
      var n := HeaderLen(h.kind);
      if |b| < n then Err(ShortHeader)
      else Ok((if n == 24 then h.(payloadOff := U32(b, 20)) else h, n))
  }

  /** What the wire carries of a header: a 20-byte class has no payload offset. */
  function Carried(h: Header): Header {
    if HeaderLen(h.kind) == 24 then h else h.(payloadOff := 0)
  }

  lemma HeaderReadBack(h: Header, rest: bytes)
    ensures DecodeHeader(HeaderBytes(h) + rest) == Ok((Carried(h), HeaderLen(h.kind)))
  {
    hide U32, U16, Put32, Put16;
    Sizes(h.msgID, h.kind);
    Sizes(h.msgLen, h.kind);
    Sizes(h.encOffset, h.kind);
    Sizes(h.payloadOff, h.kind);
    var b := HeaderBytes(h) + rest;
    assert b[..4] == MAGIC;
    ReadBack32(b, 4, h.msgID);
    ReadBack32(b, 8, h.msgLen);
    ReadBack32(b, 12, h.encOffset);
    assert b[16] == h.encByte && b[17] == h.dirByte;
    assert b[18..20] == Put16(h.kind);
    ReadBack16(b, 18, h.kind);
    if HeaderLen(h.kind) == 24 {
      ReadBack32(b, 20, h.payloadOff);
    }
  }

  lemma Sizes(v: u32, w: u16)
    ensures |Put32(v)| == 4 && |Put16(w)| == 2
  {
  }

  /** Decoding loses nothing: encoding the header again gives the bytes it was read from. */
  lemma HeaderWrittenBack(b: bytes)
    requires DecodeHeader(b).Ok?
    ensures var (h, n) := DecodeHeader(b).value; n == HeaderLen(h.kind) && HeaderBytes(h) == b[..n]
  {
    hide U32, U16, Put32, Put16;
    var (h, n) := DecodeHeader(b).value;
    Word(b, 4);
    Word(b, 8);
    Word(b, 12);
    HalfWord(b, 18);
    assert b[..20] == MAGIC + b[4..8] + b[8..12] + b[12..16] + [b[16], b[17]] + b[18..20];
    if n == 24 {
      Word(b, 20);
      assert b[..24] == b[..20] + b[20..24];
    }
  }

  lemma Word(b: bytes, i: nat)
    requires i + 4 <= |b|
    ensures Put32(U32(b, i)) == b[i..i + 4]
  {
    var w, x, y, z := b[i] as int, b[i + 1] as int, b[i + 2] as int, b[i + 3] as int;
    LowByte(w, x + 0x100 * y + 0x1_0000 * z);
    LowByte(x, y + 0x100 * z);
    LowByte(y, z);
  }

  lemma LowByte(low: int, high: int)
    requires 0 <= low < 256
    ensures (low + 256 * high) % 256 == low && (low + 256 * high) / 256 == high
  {
  }

  lemma HalfWord(b: bytes, i: nat)
    requires i + 2 <= |b|
    ensures Put16(U16(b, i)) == b[i..i + 2]
  {
  }

  method EncodeHeader(h: Header) returns (b: array<byte>)
    ensures fresh(b) && b[..] == HeaderBytes(h)
  {
    hide Put32, Put16;
    Sizes(h.msgID, h.kind);
    Sizes(h.msgLen, h.kind);
    Sizes(h.encOffset, h.kind);
    Sizes(h.payloadOff, h.kind);
    b := new byte[HeaderLen(h.kind)](i => 0);
    CopyInto(b, 0, MAGIC);
    PutUint32(b, 4, h.msgID);
    assert b[..8] == MAGIC + Put32(h.msgID);
    PutUint32(b, 8, h.msgLen);
    assert b[..12] == MAGIC + Put32(h.msgID) + Put32(h.msgLen);
    PutUint32(b, 12, h.encOffset);
    b[16], b[17] := h.encByte, h.dirByte;
    PutUint16(b, 18, h.kind);
    assert b[..20] == HeaderBytes(h)[..20];
    if HeaderLen(h.kind) == 24 {
      PutUint32(b, 20, h.payloadOff);
    }
  }

  // Ciphers

  /** The connection's key: none during the handshake, one AES refuses, or AES-128's block function under it. */
  datatype Key = NoKey | BadKey | AES(block: BlockFunction)

  function Seal(key: Key, h: Header, b: bytes): (r: Option<bytes>)
    ensures r.Some? ==> |r.value| == |b|
    ensures r.None? ==> key.BadKey?
  {
    if b == [] || h.kind == CLASS_LEGACY then Some(b) else
    match key
    case NoKey => Some(BC(h.encOffset, b))
    case BadKey => None
    case AES(e) => Some(Encrypt(e, AES_IV, b))
  }

  function Unseal(key: Key, h: Header, b: bytes): (r: bytes)
    ensures |r| == |b|
  {
    if h.kind == CLASS_LEGACY then b
    else if key.AES? then Decrypt(key.block, AES_IV, b)
    else BC(h.encOffset, b)
  }

  lemma UnsealSeal(key: Key, h: Header, b: bytes)
    requires Seal(key, h, b).Some?
    ensures Unseal(key, h, Seal(key, h, b).value) == b
  {
    hide BC, Encrypt, Decrypt;
    if b != [] && h.kind != CLASS_LEGACY {
      match key
      case AES(e) => DecryptEncrypt(e, AES_IV, b);
      case NoKey => BCInvolution(h.encOffset, b);
    }
  }

  /** A sealed body cut anywhere unseals to the same prefix. */
  lemma UnsealPrefix(key: Key, h: Header, b: bytes, k: nat)
    requires k <= |b|
    ensures Unseal(key, h, b[..k]) == Unseal(key, h, b)[..k]
  {
    hide BCByte, Decrypt;
    if key.AES? {
      DecryptPrefix(key.block, AES_IV, b, k);
    }
  }

  // Reading

  datatype Message = Message(header: Header, xml: bytes, payload: bytes, startsPacket: bool,
                             payloadXML: bytes, wholeXML: bytes)

  datatype Extension = Extension(binaryData: int, encryptLen: int)

  /** What XML decoding makes of a document. */
  type Parse = bytes -> Option<Extension>

  function ParseExtension(parse: Parse, x: bytes): Option<Extension> {
    if x == [] then None else parse(x)
  }

  function DecryptPayload(key: Key, payload: bytes, ext: Option<Extension>): (r: bytes)
    ensures |r| == |payload|
  {
    if !key.AES? || ext.None? || ext.value.encryptLen <= 0 then payload else
    var n := Min(ext.value.encryptLen, |payload|);
    Decrypt(key.block, AES_IV, payload[..n]) + payload[n..]
  }

  predicate AllPayload(h: Header) { h.kind == CLASS_ZERO && h.payloadOff == 0 && h.msgID == VIDEO }

  function ReadBody(key: Key, parse: Parse, h: Header, body: bytes): Result<Message, ReadError> {
    var m := Message(h, [], [], false, [], []);
    if body == [] then Ok(m)
    else if AllPayload(h) then Ok(m.(payload := body))
    else
      var split := HeaderLen(h.kind) == 24 && h.payloadOff > 0;
      if split && h.payloadOff > |body| then Err(PayloadOffsetOutOfRange(h.msgID)) else
      var xmlEnd := if split then h.payloadOff else |body|;
      var xml := Unseal(key, h, body[..xmlEnd]);
      if xmlEnd == |body| then Ok(m.(xml := xml)) else
      var ext := ParseExtension(parse, xml);
      var video := h.msgID == VIDEO;
      Ok(Message(h, xml, DecryptPayload(key, body[xmlEnd..], ext),
                 ext.None? || ext.value.binaryData != 0,
                 if video then [] else Unseal(key, h, body[xmlEnd..]),
                 if video then [] else Unseal(key, h, body)))
  }

  /** io.ReadFull: n bytes, or everything there was and an error. */
  function ReadFull(stream: bytes, n: nat): (Result<bytes, ReadError>, bytes) {
    if n <= |stream| then (Ok(stream[..n]), stream[n..])
    else (Err(if stream == [] then EOF else UnexpectedEOF), [])
  }

  lemma FullLength(stream: bytes, n: nat)
    ensures var r := ReadFull(stream, n).0; r.Ok? ==> |r.value| == n
  {
  }

  lemma ReadNothing(stream: bytes)
    ensures ReadFull(stream, 0) == (Ok([]), stream)
  {
    assert stream[..0] == [] && stream[0..] == stream;
  }

  /** A header off the front of the stream: the class in its bytes 18 and 19 says how long it is. */
  function HeaderOf(stream: bytes): (Result<Header, ReadError>, bytes) {
    var (front, s1) := ReadFull(stream, 20);
    if front.Err? then (Err(front.error), s1) else
    var n := HeaderLen(U16(front.value, 18));
    var (tail, s2) := ReadFull(s1, n - 20);
    if tail.Err? then (Err(tail.error), s2) else
    var decoded := DecodeHeader(front.value + tail.value);
    if decoded.Err? then (Err(decoded.error), s2) else (Ok(decoded.value.0), s2)
  }

  /** One message off the front of everything the peer will ever send. */
  function NextOf(key: Key, parse: Parse, stream: bytes): (Result<Message, ReadError>, bytes) {
    var (head, s1) := HeaderOf(stream);
    if head.Err? then (Err(head.error), s1) else
    var h := head.value;
    if h.msgLen > MAX_MESSAGE_SIZE then (Err(TooLarge(h.msgID, h.msgLen)), s1) else
    var (body, s2) := ReadFull(s1, h.msgLen);
    if body.Err? then (Err(BodyCut(h.msgID)), s2) else
    (ReadBody(key, parse, h, body.value), s2)
  }

  class Reader {
    var stream: bytes
    var key: Key

    constructor (stream: bytes)
      ensures this.stream == stream && this.key.NoKey?
    {
      this.stream, this.key := stream, NoKey;
    }

    method SetAESKey(k: Key)
      modifies this
      ensures key == k && stream == old(stream)
    {
      key := k;
    }

    method ReadN(n: nat) returns (r: Result<bytes, ReadError>)
      modifies `stream
      ensures (r, stream) == ReadFull(old(stream), n)
    {
      if n <= |stream| {
        r := Ok(stream[..n]);
        stream := stream[n..];
      } else {
        r := Err(if stream == [] then EOF else UnexpectedEOF);
        stream := [];
      }
    }

    method ReadHeader() returns (r: Result<Header, ReadError>)
      modifies `stream
      ensures (r, stream) == HeaderOf(old(stream))
    {
      hide DecodeHeader, U16, ReadFull;
      var front := ReadN(20);
      FullLength(old(stream), 20);
      if front.Err? {
        return Err(front.error);
      }
      var head := front.value;
      var n := HeaderLen(U16(head, 18));
      if n > 20 {
        var tail := ReadN(n - 20);
        if tail.Err? {
          return Err(tail.error);
        }
        head := head + tail.value;
      } else {
        ReadNothing(stream);
        assert head + [] == head;
      }
      var decoded := DecodeHeader(head);
      if decoded.Err? {
        return Err(decoded.error);
      }
      r := Ok(decoded.value.0);
    }

    method Next(parse: Parse) returns (r: Result<Message, ReadError>)
      modifies `stream
      ensures (r, stream) == NextOf(key, parse, old(stream))
    {
      hide ReadBody, HeaderOf;
      var head := ReadHeader();
      if head.Err? {
        return Err(head.error);
      }
      var h := head.value;
      if h.msgLen > MAX_MESSAGE_SIZE {
        return Err(TooLarge(h.msgID, h.msgLen));
      }
      var body := ReadN(h.msgLen);
      if body.Err? {
        return Err(BodyCut(h.msgID));
      }
      r := ReadBody(key, parse, h, body.value);
    }
  }

  // Writing

  /** A message handed to Write, WriteParts or WriteMedia. */
  datatype Sent =
    | Whole(h: Header, body: bytes)
    | Parts(h: Header, xml: bytes, bin: bytes)
    | Media(h: Header, xml: bytes, media: bytes)

  /** The header and body on the wire, unless the cipher refuses its key. */
  function Sealed(key: Key, m: Sent): Option<(Header, bytes)> {
    match m
    case Whole(h, body) =>
      var out := Seal(key, h, body);
      if out.None? then None else Some((h.(msgLen := Wrap32(|out.value|)), out.value))
    case Parts(h, xml, bin) =>
      var out, tail := Seal(key, h, xml), Seal(key, h, bin);
      if out.None? || tail.None? then None else Some((Split(h, out.value, tail.value), out.value + tail.value))
    case Media(h, xml, media) =>
      var out := Seal(key, h, xml);
      if out.None? then None else Some((Split(h, out.value, media), out.value + media))
  }

  function Split(h: Header, out: bytes, tail: bytes): Header {
    h.(payloadOff := Wrap32(|out|), msgLen := Wrap32(|out| + |tail|))
  }

  function Wire(key: Key, m: Sent): Option<bytes> {
    var s := Sealed(key, m);
    if s.None? then None else Some(HeaderBytes(s.value.0) + s.value.1)
  }

  class Writer {
    var wire: bytes
    var key: Key

    constructor ()
      ensures wire == [] && key.NoKey?
    {
      wire, key := [], NoKey;
    }

    method SetAESKey(k: Key)
      modifies this
      ensures key == k && wire == old(wire)
    {
      key := k;
    }

    method Send(h: Header, body: bytes)
      modifies `wire
      ensures wire == old(wire) + (HeaderBytes(h) + body)
    {
      var b := EncodeHeader(h);
      wire := wire + (b[..] + body);
    }

    method Write(h: Header, body: bytes) returns (ok: bool)
      modifies `wire
      ensures ok == Wire(key, Whole(h, body)).Some?
      ensures wire == if ok then old(wire) + Wire(key, Whole(h, body)).value else old(wire)
    {
      hide HeaderBytes, Encrypt, BC;
      var out := body;
      if |body| > 0 && h.kind != CLASS_LEGACY {
        match key
        case BadKey => return false;
        case AES(e) => out := Encrypt(e, AES_IV, body);
        case NoKey =>
          var buf := BCCrypt(h.encOffset, body);
          out := buf[..];
      }
      Send(h.(msgLen := Wrap32(|out|)), out);
      ok := true;
    }

    method WriteParts(h: Header, xml: bytes, bin: bytes) returns (ok: bool)
      modifies `wire
      ensures ok == Wire(key, Parts(h, xml, bin)).Some?
      ensures wire == if ok then old(wire) + Wire(key, Parts(h, xml, bin)).value else old(wire)
    {
      ok := SendParts(h, xml, bin, true);
    }

    method WriteMedia(h: Header, xml: bytes, media: bytes) returns (ok: bool)
      modifies `wire
      ensures ok == Wire(key, Media(h, xml, media)).Some?
      ensures wire == if ok then old(wire) + Wire(key, Media(h, xml, media)).value else old(wire)
    {
      ok := SendParts(h, xml, media, false);
    }

    method SendParts(h: Header, xml: bytes, bin: bytes, sealBin: bool) returns (ok: bool)
      modifies `wire
      ensures var m := if sealBin then Parts(h, xml, bin) else Media(h, xml, bin);
              && ok == Wire(key, m).Some?
              && wire == if ok then old(wire) + Wire(key, m).value else old(wire)
    {
      hide HeaderBytes, Seal;
      var out := Seal(key, h, xml);
      if out.None? {
        return false;
      }
      var tail := bin;
      if sealBin {
        var s := Seal(key, h, bin);
        if s.None? {
          return false;
        }
        tail := s.value;
      }
      Send(Split(h, out.value, tail), out.value + tail);
      ok := true;
    }
  }

  // What is written is read back

  /** A frame is one message, whatever follows it on the stream. */
  lemma FrameReadBack(key: Key, parse: Parse, h: Header, body: bytes, rest: bytes)
    requires h.msgLen == |body| <= MAX_MESSAGE_SIZE
    ensures NextOf(key, parse, HeaderBytes(h) + body + rest) == (ReadBody(key, parse, Carried(h), body), rest)
  {
    hide ReadBody, HeaderBytes, DecodeHeader, U16;
    var head := HeaderBytes(h);
    var s := head + body + rest;
    KindFirst(h);
    HeaderReadBack(h, []);
    assert head + [] == head;
    assert s[..20] == head[..20] && s[20..][..|head| - 20] == head[20..] && head[..20] + head[20..] == head;
    assert s[20..][|head| - 20..] == body + rest;
    assert (body + rest)[..|body|] == body && (body + rest)[|body|..] == rest;
  }

  lemma KindFirst(h: Header)
    ensures U16(HeaderBytes(h)[..20], 18) == h.kind
  {
    hide Put32, Put16, U16;
    Sizes(h.msgID, h.kind);
    Sizes(h.msgLen, h.kind);
    Sizes(h.encOffset, h.kind);
    var b := HeaderBytes(h)[..20];
    assert b[18..20] == Put16(h.kind);
    ReadBack16(b, 18, h.kind);
  }

  function Size(m: Sent): nat {
    match m
    case Whole(_, body) => |body|
    case Parts(_, xml, bin) => |xml| + |bin|
    case Media(_, xml, media) => |xml| + |media|
  }

  /** Where the sections meet must be something the header can say. */
  predicate Located(m: Sent) {
    match m
    case Whole(h, body) =>
      body == [] || HeaderLen(h.kind) == 20 || h.payloadOff == |body| || (h.payloadOff == 0 && !AllPayload(h))
    case Parts(h, xml, bin) =>
      bin == [] || (HeaderLen(h.kind) == 24 && xml != [] && h.msgID != VIDEO)
    case Media(h, xml, media) =>
      media == [] || (HeaderLen(h.kind) == 24 && (xml != [] || (h.kind == CLASS_ZERO && h.msgID == VIDEO)))
  }

  /** Media is sent plain, so under AES its extension must not declare any of it encrypted. */
  predicate DeclaredPlain(aes: bool, parse: Parse, m: Sent) {
    m.Media? ==>
      var ext := ParseExtension(parse, m.xml);
      m.media == [] || !aes || ext.None? || ext.value.encryptLen <= 0
  }

  /** The writer's guard, checked before the call. */
  predicate Addressed(aes: bool, parse: Parse, m: Sent) { Located(m) && DeclaredPlain(aes, parse, m) }

  /** The reader has the sections as they were handed to the writer. */
  predicate SameSections(m: Sent, got: Message) {
    match m
    case Whole(_, body) => got.xml == body && got.payload == []
    case Parts(_, xml, bin) => got.xml == xml && got.payloadXML == bin
    case Media(_, xml, media) => got.xml == xml && got.payload == media
  }

  /** A document marks the start of a media packet unless it is an extension that declares no binary data. */
  predicate Marks(parse: Parse, xml: bytes) { parse(xml).None? || parse(xml).value.binaryData != 0 }

  /** Which messages begin a media packet: those with something behind a document that marks it. */
  predicate Starts(parse: Parse, m: Sent) {
    match m
    case Whole(_, _) => false
    case Parts(_, xml, bin) => bin != [] && Marks(parse, xml)
    case Media(_, xml, media) => media != [] && xml != [] && Marks(parse, xml)
  }

  lemma WholeReadBackIff(key: Key, parse: Parse, h: Header, body: bytes)
    requires Sealed(key, Whole(h, body)).Some? && |body| <= MAX_MESSAGE_SIZE
    ensures var (sent, b) := Sealed(key, Whole(h, body)).value;
            var r := ReadBody(key, parse, Carried(sent), b);
            (r.Ok? && SameSections(Whole(h, body), r.value)) <==> Located(Whole(h, body))
  {
    hide Seal, Unseal, DecryptPayload, ParseExtension;
    var (sent, b) := Sealed(key, Whole(h, body)).value;
    UnsealSealUnder(key, h, Carried(sent), body);
    assert b[..|b|] == b;
  }

  /** Unsealing looks only at the class and the encryption offset of a header. */
  lemma UnsealSealUnder(key: Key, h: Header, h': Header, b: bytes)
    requires Seal(key, h, b).Some? && h'.kind == h.kind && h'.encOffset == h.encOffset
    ensures Unseal(key, h', Seal(key, h, b).value) == b
  {
    hide BC, Encrypt, Decrypt;
    UnsealSeal(key, h, b);
  }

  lemma PartsReadBackIff(key: Key, parse: Parse, h: Header, xml: bytes, bin: bytes)
    requires Sealed(key, Parts(h, xml, bin)).Some? && |xml| + |bin| <= MAX_MESSAGE_SIZE
    ensures var (sent, b) := Sealed(key, Parts(h, xml, bin)).value;
            var r := ReadBody(key, parse, Carried(sent), b);
            (r.Ok? && SameSections(Parts(h, xml, bin), r.value)) <==> Located(Parts(h, xml, bin))
  {
    hide Seal, Unseal, DecryptPayload, ParseExtension;
    var (sent, b) := Sealed(key, Parts(h, xml, bin)).value;
    UnsealSealUnder(key, h, Carried(sent), xml);
    UnsealSealUnder(key, h, Carried(sent), bin);
    assert b[..|b|] == b && b[..|xml|] == Seal(key, h, xml).value && b[|xml|..] == Seal(key, h, bin).value;
    if bin == [] {
      assert b == Seal(key, h, xml).value;
    }
  }

  /** Media comes back through whatever decryption its extension asks for. */
  lemma MediaRead(key: Key, parse: Parse, h: Header, xml: bytes, media: bytes)
    requires Sealed(key, Media(h, xml, media)).Some? && |xml| + |media| <= MAX_MESSAGE_SIZE
    ensures var (sent, b) := Sealed(key, Media(h, xml, media)).value;
            var r := ReadBody(key, parse, Carried(sent), b);
            var read := DecryptPayload(key, media, ParseExtension(parse, xml));
            (r.Ok? && r.value.xml == xml && r.value.payload == read) <==> Located(Media(h, xml, media))
  {
    hide Seal, Unseal, Decrypt;
    var (sent, b) := Sealed(key, Media(h, xml, media)).value;
    UnsealSealUnder(key, h, Carried(sent), xml);
    assert b[..|b|] == b && b[..|xml|] == Seal(key, h, xml).value && b[|xml|..] == media;
    if media == [] {
      assert b == Seal(key, h, xml).value;
    }
  }

  /** Media whose place the header cannot say is taken for XML. */
  lemma MediaLost(key: Key, parse: Parse, h: Header, xml: bytes, media: bytes)
    requires Sealed(key, Media(h, xml, media)).Some? && |xml| + |media| <= MAX_MESSAGE_SIZE
    requires !Located(Media(h, xml, media))
    ensures var (sent, b) := Sealed(key, Media(h, xml, media)).value;
            var r := ReadBody(key, parse, Carried(sent), b);
            r.Ok? && r.value.payload == [] && media != []
  {
    hide Seal, Unseal, DecryptPayload, ParseExtension;
  }

  /** What decryption leaves alone under every key of a kind. */
  lemma PlainStays(key: Key, parse: Parse, h: Header, xml: bytes, media: bytes)
    requires DeclaredPlain(key.AES?, parse, Media(h, xml, media))
    ensures DecryptPayload(key, media, ParseExtension(parse, xml)) == media
  {
    hide Decrypt;
  }

  /** A block function that gives ones: its mask changes every byte. */
  function Ones(): BlockFunction { (reg: bytes, i: nat) => 1 }

  lemma OnesChange(reg: bytes, b: bytes)
    requires b != []
    ensures Decrypt(Ones(), reg, b)[0] != b[0]
  {
    XorOneChanges(b[0]);
  }

  lemma XorOneChanges(c: byte)
    ensures Xor(c, 1) != c
  {
    hide Xor;
    XorSwap(c, 1, c);
    XorSame(c);
    XorZeroOne();
  }

  lemma XorSame(c: byte)
    ensures Xor(c, c) == 0
  {
    assert Pow2(8) == 0x100;
    XorBitsZero(c as nat, 8);
  }

  lemma XorZeroOne()
    ensures Xor(0, 1) == 1
  {
  }

  /** Under the key that gives ones, declared-encrypted media comes back changed. */
  lemma DeclaredChanges(parse: Parse, h: Header, xml: bytes, media: bytes)
    requires !DeclaredPlain(true, parse, Media(h, xml, media))
    ensures DecryptPayload(AES(Ones()), media, ParseExtension(parse, xml)) != media
  {
    hide Decrypt;
    var n := Min(ParseExtension(parse, xml).value.encryptLen, |media|);
    OnesChange(AES_IV, media[..n]);
    assert media[..n][0] == media[0];
  }

  /**
   The message is sent, and taken off the stream with its header and its sections as they were, as the start
   of a media packet if it is one.
   */
  predicate ReadsBack(key: Key, parse: Parse, m: Sent, rest: bytes) {
    Wire(key, m).Some?
    && var (r, left) := NextOf(key, parse, Wire(key, m).value + rest);
       && left == rest && r.Ok? && r.value.header == Carried(Sealed(key, m).value.0) && SameSections(m, r.value)
       && (r.value.startsPacket <==> Starts(parse, m))
  }

  /** The reader takes exactly the message's bytes, and reads its body. */
  lemma TakenWhole(key: Key, parse: Parse, m: Sent, rest: bytes)
    requires Wire(key, m).Some? && Size(m) <= MAX_MESSAGE_SIZE
    ensures var (h, body) := Sealed(key, m).value;
            var r := ReadBody(key, parse, Carried(h), body);
            && NextOf(key, parse, Wire(key, m).value + rest) == (r, rest)
            && (r.Ok? ==> r.value.header == Carried(h))
  {
    hide NextOf, HeaderBytes, Seal, ReadBody;
    var (h, body) := Sealed(key, m).value;
    FrameReadBack(key, parse, h, body, rest);
    assert (HeaderBytes(h) + body) + rest == HeaderBytes(h) + body + rest;
    HeaderKept(key, parse, Carried(h), body);
  }

  /** A body that is read with its sections is the start of a packet when its document marks one. */
  lemma StartsIff(key: Key, parse: Parse, m: Sent)
    requires Sealed(key, m).Some? && Size(m) <= MAX_MESSAGE_SIZE && Located(m)
    ensures var (h, body) := Sealed(key, m).value;
            var r := ReadBody(key, parse, Carried(h), body);
            r.Ok? && (r.value.startsPacket <==> Starts(parse, m))
  {
    hide Seal, Unseal, DecryptPayload;
    var (sent, b) := Sealed(key, m).value;
    match m
    case Whole(h, body) => WholeStarts(key, parse, h, body);
    case Parts(h, xml, bin) =>
      UnsealSealUnder(key, h, Carried(sent), xml);
      assert b[..|xml|] == Seal(key, h, xml).value;
    case Media(h, xml, media) =>
      UnsealSealUnder(key, h, Carried(sent), xml);
      assert b[..|xml|] == Seal(key, h, xml).value;
  }

  lemma WholeStarts(key: Key, parse: Parse, h: Header, body: bytes)
    requires Sealed(key, Whole(h, body)).Some? && |body| <= MAX_MESSAGE_SIZE && Located(Whole(h, body))
    ensures var (sent, b) := Sealed(key, Whole(h, body)).value;
            var r := ReadBody(key, parse, Carried(sent), b);
            r.Ok? && !r.value.startsPacket
  {
    hide Seal, Unseal, DecryptPayload, ParseExtension;
  }

  lemma AddressedReadsBack(key: Key, parse: Parse, m: Sent, rest: bytes)
    requires Wire(key, m).Some? && Size(m) <= MAX_MESSAGE_SIZE && Addressed(key.AES?, parse, m)
    ensures ReadsBack(key, parse, m, rest)
  {
    hide NextOf, HeaderBytes, Seal, ReadBody, DecryptPayload, Located, Starts, DeclaredPlain, ParseExtension, Carried;
    TakenWhole(key, parse, m, rest);
    StartsIff(key, parse, m);
    match m
    case Whole(h, b) => WholeReadBackIff(key, parse, h, b);
    case Parts(h, xml, bin) => PartsReadBackIff(key, parse, h, xml, bin);
    case Media(h, xml, media) =>
      MediaRead(key, parse, h, xml, media);
      PlainStays(key, parse, h, xml, media);
  }

  lemma UnlocatedFails(key: Key, parse: Parse, m: Sent, rest: bytes)
    requires Wire(key, m).Some? && Size(m) <= MAX_MESSAGE_SIZE && !Located(m)
    ensures !ReadsBack(key, parse, m, rest)
  {
    hide NextOf, HeaderBytes, Seal, ReadBody, DecryptPayload, Located, DeclaredPlain, ParseExtension, Carried;
    TakenWhole(key, parse, m, rest);
    match m
    case Whole(h, b) => WholeReadBackIff(key, parse, h, b);
    case Parts(h, xml, bin) => PartsReadBackIff(key, parse, h, xml, bin);
    case Media(h, xml, media) => MediaLost(key, parse, h, xml, media);
  }

  /** Media whose extension declares encryption fails under the key that gives ones. */
  lemma DeclaredFails(parse: Parse, m: Sent, rest: bytes)
    requires Size(m) <= MAX_MESSAGE_SIZE && m.Media? && Located(m) && !DeclaredPlain(true, parse, m)
    ensures !ReadsBack(AES(Ones()), parse, m, rest)
  {
    hide NextOf, HeaderBytes, Seal, ReadBody, DecryptPayload, Located, DeclaredPlain, ParseExtension, Carried;
    var key := AES(Ones());
    if Wire(key, m).Some? {
      TakenWhole(key, parse, m, rest);
      MediaRead(key, parse, m.h, m.xml, m.media);
      DeclaredChanges(parse, m.h, m.xml, m.media);
    }
  }

  /**
   Whether a message comes back with its header and sections, under every key of its kind, is decided
   before it is sent: exactly when the header can say where the sections meet and media under AES is
   not declared encrypted.
   */
  lemma ReadBackIff(key: Key, parse: Parse, m: Sent, rest: bytes)
    requires Wire(key, m).Some? && Size(m) <= MAX_MESSAGE_SIZE
    ensures (if key.AES? then forall e: BlockFunction :: ReadsBack(AES(e), parse, m, rest)
             else ReadsBack(key, parse, m, rest)) <==> Addressed(key.AES?, parse, m)
  {
    hide ReadsBack, Size, Located, DeclaredPlain, Wire;
    if Addressed(key.AES?, parse, m) {
      forall e: BlockFunction | key.AES?
        ensures ReadsBack(AES(e), parse, m, rest)
      {
        AESWires(e, m);
        AddressedReadsBack(AES(e), parse, m, rest);
      }
      AddressedReadsBack(key, parse, m, rest);
    } else if !Located(m) {
      UnlocatedFails(key, parse, m, rest);
      if key.AES? {
        assert !ReadsBack(AES(key.block), parse, m, rest);
      }
    } else {
      OnlyMediaDeclares(key.AES?, parse, m);
      DeclaredFails(parse, m, rest);
    }
  }

  lemma AESWires(e: BlockFunction, m: Sent)
    ensures Wire(AES(e), m).Some?
  {
  }

  lemma OnlyMediaDeclares(aes: bool, parse: Parse, m: Sent)
    requires !DeclaredPlain(aes, parse, m)
    ensures aes && m.Media?
  {
  }

  /** Media declared encrypted and sent plain: read under AES, a zero comes back as a one. */
  lemma MediaComesBackChanged(parse: Parse, rest: bytes)
    requires parse([7]) == Some(Extension(1, 1))
    ensures var m := Media(Header(VIDEO, 0, 0, 0, 0, CLASS_MODERN24, 0), [7], [0]);
            var r := NextOf(AES(Ones()), parse, Wire(AES(Ones()), m).value + rest).0;
            Located(m) && r.Ok? && r.value.xml == [7] && r.value.payload == [1]
  {
    hide NextOf, HeaderBytes, Seal, ReadBody, Carried, Decrypt;
    var m := Media(Header(VIDEO, 0, 0, 0, 0, CLASS_MODERN24, 0), [7], [0]);
    TakenWhole(AES(Ones()), parse, m, rest);
    MediaRead(AES(Ones()), parse, m.h, [7], [0]);
    OnesOnZero();
  }

  lemma OnesOnZero()
    ensures DecryptPayload(AES(Ones()), [0], Some(Extension(1, 1))) == [1]
  {
    XorZeroOne();
    assert [0 as byte][..1] == [0 as byte] && [0 as byte][1..] == [];
    assert Decrypt(Ones(), AES_IV, [0]) == [1];
  }

  lemma HeaderKept(key: Key, parse: Parse, h: Header, body: bytes)
    ensures ReadBody(key, parse, h, body).Ok? ==> ReadBody(key, parse, h, body).value.header == h
  {
    hide Unseal, DecryptPayload, ParseExtension;
  }

  // A whole session

  /** The messages of a session with the key each was sent under: none at first, AES once login is done. */
  type Session = seq<(Key, Sent)>

  ghost predicate Sendable(session: Session, parse: Parse) {
    forall i :: 0 <= i < |session| ==>
      var (key, m) := session[i];
      Wire(key, m).Some? && Size(m) <= MAX_MESSAGE_SIZE && Addressed(key.AES?, parse, m)
  }

  function WireOf(session: Session): bytes {
    if session == [] then [] else
    var one := Wire(session[0].0, session[0].1);
    (if one.Some? then one.value else []) + WireOf(session[1..])
  }

  /** Reading message after message, the key changing between them as it did for the writer. */
  function ReadAll(session: Session, parse: Parse, stream: bytes): (seq<Result<Message, ReadError>>, bytes)
    decreases |session|
  {
    if session == [] then ([], stream) else
    var (r, left) := NextOf(session[0].0, parse, stream);
    var (more, end) := ReadAll(session[1..], parse, left);
    ([r] + more, end)
  }

  /** Every message of a session comes back, in order, with its sections as written, and no byte is left over. */
  lemma {:induction false} SessionReadBack(session: Session, parse: Parse, rest: bytes)
    requires Sendable(session, parse)
    ensures var (got, left) := ReadAll(session, parse, WireOf(session) + rest);
            && left == rest && |got| == |session|
            && forall i :: 0 <= i < |session| ==>
                 && got[i].Ok?
                 && got[i].value.header == Carried(Sealed(session[i].0, session[i].1).value.0)
                 && SameSections(session[i].1, got[i].value)
                 && (got[i].value.startsPacket <==> Starts(parse, session[i].1))
    decreases |session|
  {
    hide NextOf, SameSections, Addressed, Starts, Wire, Sealed, Carried, Size;
    if session == [] {
      assert WireOf(session) + rest == rest;
    } else {
      var (key, m) := session[0];
      AddressedReadsBack(key, parse, m, WireOf(session[1..]) + rest);
      SealedIsWire(key, m);
      SessionReadBack(session[1..], parse, rest);
      var w := Wire(key, m).value;
      assert WireOf(session) + rest == w + (WireOf(session[1..]) + rest);
    }
  }

  lemma SealedIsWire(key: Key, m: Sent)
    ensures Sealed(key, m).Some? <==> Wire(key, m).Some?
  {
    hide Sealed;
  }

  // Bodies the camera seals differently

  /** A payload sealed only as far as its extension says is read back as plaintext. */
  lemma SealedHeadReadBack(e: BlockFunction, payload: bytes, ext: Extension)
    requires 0 < ext.encryptLen
    ensures var n := Min(ext.encryptLen, |payload|);
            DecryptPayload(AES(e), Encrypt(e, AES_IV, payload[..n]) + payload[n..], Some(ext)) == payload
  {
    hide Encrypt, Decrypt;
    var n := Min(ext.encryptLen, |payload|);
    var sealed := Encrypt(e, AES_IV, payload[..n]);
    DecryptEncrypt(e, AES_IV, payload[..n]);
    assert (sealed + payload[n..])[..n] == sealed && (sealed + payload[n..])[n..] == payload[n..];
    assert payload == payload[..n] + payload[n..];
  }

  /** A payload offset that falls inside one sealed document: the XML is its first part, and WholeXML all of it. */
  lemma SplitDocumentReadBack(key: Key, parse: Parse, h: Header, doc: bytes)
    requires Seal(key, h, doc).Some? && HeaderLen(h.kind) == 24 && h.msgID != VIDEO
    requires 0 < h.payloadOff < |doc|
    ensures var r := ReadBody(key, parse, h, Seal(key, h, doc).value);
            r.Ok? && r.value.xml == doc[..h.payloadOff] && r.value.wholeXML == doc
  {
    hide Seal, Unseal, DecryptPayload, ParseExtension;
    UnsealSeal(key, h, doc);
    UnsealPrefix(key, h, Seal(key, h, doc).value, h.payloadOff);
  }
}
