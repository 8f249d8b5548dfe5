/** Streams that are cut, broken or not this protocol's: what the message reader answers. */
module FramingErrors {
  import opened Bytes
  import opened Wrappers
  import opened Framing

  /** A frame on the wire: a header that says how long the body is, and the body. */
  predicate IsFrame(h: Header, body: bytes) { h.msgLen == |body| <= MAX_MESSAGE_SIZE }

  lemma HeadCut(h: Header, n: nat)
    requires n < HeaderLen(h.kind)
    ensures HeaderOf(HeaderBytes(h)[..n]) == (Err(if n == 0 || n == 20 then EOF else UnexpectedEOF), [])
  {
    hide DecodeHeader, U16, Put32, Put16;
    var s := HeaderBytes(h)[..n];
    if n >= 20 {
      KindFirst(h);
      assert s[..20] == HeaderBytes(h)[..20];
    }
  }

  lemma HeadWhole(h: Header, more: bytes)
    ensures HeaderOf(HeaderBytes(h) + more) == (Ok(Carried(h)), more)
  {
    hide DecodeHeader, U16, HeaderBytes;
    var b := HeaderBytes(h);
    var s := b + more;
    KindFirst(h);
    HeaderReadBack(h, []);
    assert b + [] == b && s[..20] == b[..20] && b[..20] + b[20..] == b;
    assert s[20..][..|b| - 20] == b[20..] && s[20..][|b| - 20..] == more;
  }

  /**
   A stream that ends inside a frame gives an error and no message, and nothing is left of it: the plain end only
   before the first byte or, as io.ReadFull has it, between the two reads of a header.
   */
  lemma CutFrame(key: Key, parse: Parse, h: Header, body: bytes, n: nat)
    requires IsFrame(h, body) && n < HeaderLen(h.kind) + |body|
    ensures NextOf(key, parse, (HeaderBytes(h) + body)[..n])
         == (Err(if n >= HeaderLen(h.kind) then BodyCut(h.msgID)
                 else if n == 0 || n == 20 then EOF else UnexpectedEOF), [])
  {
    hide ReadBody, HeaderOf, HeaderBytes;
    var b := HeaderBytes(h);
    if n < |b| {
      assert (b + body)[..n] == b[..n];
      HeadCut(h, n);
    } else {
      assert (b + body)[..n] == b + body[..n - |b|];
      HeadWhole(h, body[..n - |b|]);
    }
  }

  /** A header that announces more than a message may hold is refused, and its body is left unread. */
  lemma TooLargeRefused(key: Key, parse: Parse, h: Header, rest: bytes)
    requires h.msgLen > MAX_MESSAGE_SIZE
    ensures NextOf(key, parse, HeaderBytes(h) + rest) == (Err(TooLarge(h.msgID, h.msgLen)), rest)
  {
    hide ReadBody, HeaderOf, HeaderBytes;
    HeadWhole(h, rest);
  }

  /** Where the payload offset runs past the body the frame is consumed and refused. */
  lemma OffsetRefused(key: Key, parse: Parse, h: Header, body: bytes, rest: bytes)
    requires IsFrame(h, body) && body != [] && HeaderLen(h.kind) == 24 && h.payloadOff > |body|
    ensures NextOf(key, parse, HeaderBytes(h) + body + rest) == (Err(PayloadOffsetOutOfRange(h.msgID)), rest)
  {
    hide NextOf, HeaderBytes;
    FrameReadBack(key, parse, h, body, rest);
  }

  /** Bytes that do not begin with the protocol's magic are refused once a header's worth has come. */
  lemma MagicRefused(key: Key, parse: Parse, stream: bytes)
    requires |stream| >= 24 && stream[..4] != MAGIC
    ensures NextOf(key, parse, stream).0 == Err(BadMagic)
  {
    hide ReadBody, U16;
    var n := HeaderLen(U16(stream[..20], 18));
    var head := stream[..20] + stream[20..][..n - 20];
    assert head[..4] == stream[..4];
  }

  /**
   The camera's own media: class zero and message 3. With nothing in front it is all payload and continues a
   packet, and an extension that declares no binary data changes nothing of that.
   */
  lemma CameraMedia(key: Key, parse: Parse, h: Header, xml: bytes, media: bytes)
    requires h.kind == 0 && h.msgID == 3 && (xml != [] ==> parse(xml).Some? && parse(xml).value.binaryData == 0)
    ensures Located(Media(h, xml, media)) && !Starts(parse, Media(h, xml, media))
  {
  }

  /** Media is never taken for documents: a message of video has at most its own XML, whatever was sent. */
  lemma VideoHasNoDocuments(key: Key, parse: Parse, stream: bytes)
    ensures var r := NextOf(key, parse, stream).0;
            r.Ok? && r.value.header.msgID == VIDEO ==> r.value.payloadXML == [] && r.value.wholeXML == []
  {
    hide HeaderOf, Unseal, DecryptPayload, ParseExtension, ReadFull;
  }
}
