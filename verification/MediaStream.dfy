/**
 What the depacketizer makes of a whole stream: however the bytes are cut into messages, well
 framed packets come out as their frames, in order, with the padding between them counted and the
 filler after them left in the buffer.
 */
module MediaStream {
  import opened Bytes
  import opened Wrappers
  import opened Media

  /** Message after message that continues a packet, with Next drained after each. */
  function Feed(s: State, chunks: seq<bytes>): (seq<Frame>, State)
    decreases |chunks|
  {
    if chunks == [] then ([], s) else
    var (fs, s') := Drain(AfterWrite(s, chunks[0], false));
    var (rest, s'') := Feed(s', chunks[1..]);
    (fs + rest, s'')
  }

  /** One message starting a packet and the messages that continue it. */
  function Receive(s: State, first: bytes, more: seq<bytes>): (seq<Frame>, State) {
    var (fs, s') := Drain(AfterWrite(s, first, true));
    var (rest, s'') := Feed(s', more);
    (fs + rest, s'')
  }

  /** p is a packet carrying f: complete it is taken whatever follows, and incomplete it is waited for. */
  ghost predicate Framed(p: bytes, f: Frame) {
    && 8 <= |p| && IsMagic(p)
    && (forall x: bytes :: Parse(p + x) == Emit(f, |p|))
    && (forall m :: 0 <= m < |p| ==> Parse(p[..m]) == Wait)
  }

  // Padded packet streams

  /** A packet and the zero bytes, at most 7, put before it. */
  datatype Item = Item(pad: nat, p: bytes, f: Frame)

  ghost predicate ItemOk(it: Item) { it.pad < 8 && Framed(it.p, it.f) }

  function ItemBytes(it: Item): bytes { Zeros(it.pad) + it.p }

  function StreamBytes(items: seq<Item>): bytes {
    if items == [] then [] else ItemBytes(items[0]) + StreamBytes(items[1..])
  }

  function FramesOf(items: seq<Item>): seq<Frame> {
    if items == [] then [] else [items[0].f] + FramesOf(items[1..])
  }

  function PadsOf(items: seq<Item>): nat {
    if items == [] then 0 else items[0].pad + PadsOf(items[1..])
  }

  /** Trailing bytes that at no length look like a packet. */
  ghost predicate Inert(g: bytes) {
    forall m :: 0 <= m <= |g| ==> Parse(g[..m]) == Wait
  }

  /** Zeros before a packet are stepped over once its magic is there to be seen. */
  lemma {:induction false} PadSeen(pad: nat, p: bytes, x: bytes, n: nat)
    requires 1 <= n <= pad < 8 && |p| >= 4 && IsMagic(p)
    ensures PadFrom(Zeros(pad) + p + x, n) == pad
    decreases pad - n
  {
    var b := Zeros(pad) + p + x;
    if n < pad {
      assert b[n..][0] == 0;
      PadSeen(pad, p, x, n + 1);
    } else {
      var at := b[n..];
      assert at[0] == p[0] && at[1] == p[1] && at[2] == p[2] && at[3] == p[3];
    }
  }

  lemma MagicHasNoZero(p: bytes)
    requires IsMagic(p)
    ensures p[0] != 0 && p[1] != 0 && p[2] != 0 && p[3] != 0
  {
  }

  /** Until then they are waited on. */
  lemma {:induction false} PadUnseen(b: bytes, pad: nat, p: bytes, n: nat)
    requires 1 <= n && pad < 8 && |p| >= 4 && IsMagic(p) && |b| < pad + 4 && b <= Zeros(pad) + p
    ensures PadFrom(b, n) == 0
    decreases 8 - n
  {
    var whole := Zeros(pad) + p;
    if n < 8 && n < |b| && b[n - 1] == 0 {
      MagicHasNoZero(p);
      assert b[n - 1] == whole[n - 1];
      assert n < pad ==> b[n] == whole[n];
      PadUnseen(b, pad, p, n + 1);
    }
  }

  lemma {:induction false} ParsePadSeen(pad: nat, p: bytes, x: bytes)
    requires 0 < pad < 8 && |p| >= 8 && IsMagic(p)
    ensures Parse(Zeros(pad) + p + x) == SkipPad(pad)
  {
    hide ParseVideo, ParseAudio, ParseInfo;
    var b := Zeros(pad) + p + x;
    assert b[0] == 0;
    PadSeen(pad, p, x, 1);
  }

  /** An unfinished padded packet: its padding is stepped over or still waited on. */
  lemma {:induction false} ParsePadPrefix(b: bytes, pad: nat, p: bytes)
    requires 0 < pad < 8 && |p| >= 8 && IsMagic(p) && b <= Zeros(pad) + p
    ensures Parse(b) == if |b| >= 8 && |b| >= pad + 4 then SkipPad(pad) else Wait
  {
    hide ParseVideo, ParseAudio, ParseInfo;
    var whole := Zeros(pad) + p;
    if |b| >= 8 {
      assert b[0] == whole[0] == 0;
      if |b| >= pad + 4 {
        var head := b[pad..];
        assert head == p[..|b| - pad];
        assert Zeros(pad) + head + [] == b;
        assert head[0] == p[0] && head[1] == p[1] && head[2] == p[2] && head[3] == p[3];
        PadSeen(pad, head, [], 1);
      } else {
        PadUnseen(b, pad, p, 1);
      }
    }
  }

  /** A buffer holding a whole item gives up its frame. */
  lemma {:induction false} NextItem(s: State, it: Item, x: bytes)
    requires ItemOk(it) && s.buf == ItemBytes(it) + x
    ensures NextOf(s) == (Some(it.f), s.(buf := x, filler := s.filler + it.pad))
  {
    hide Parse, IsMagic, PadFrom;
    var s1 := s.(buf := it.p + x, filler := s.filler + it.pad);
    assert (it.p + x)[|it.p|..] == x;
    assert NextOf(s1) == (Some(it.f), s1.(buf := x));
    if it.pad > 0 {
      ParsePadSeen(it.pad, it.p, x);
      assert s.buf == Zeros(it.pad) + it.p + x;
      assert s.buf[it.pad..] == it.p + x;
    } else {
      assert s.buf == it.p + x;
    }
  }

  /** Next finds no frame in the start of it, and leaves the start of rest. */
  ghost predicate PartOf(s: State, it: Item, rest: Item) {
    && rest.p == it.p && rest.f == it.f && rest.pad <= it.pad && it.pad - rest.pad <= |s.buf| <= |ItemBytes(it)|
    && var (f, s') := NextOf(s);
       && f == None
       && s' == s.(buf := s.buf[it.pad - rest.pad..], filler := s.filler + it.pad - rest.pad)
       && s'.buf <= ItemBytes(rest)
       && ItemBytes(it)[|s.buf|..] == ItemBytes(rest)[|s'.buf|..]
  }

  /** A buffer holding part of an item waits, with the padding perhaps already gone. */
  lemma {:induction false} NextPart(s: State, it: Item) returns (rest: Item)
    requires ItemOk(it) && s.buf <= ItemBytes(it) && |s.buf| < |ItemBytes(it)|
    ensures ItemOk(rest) && PartOf(s, it, rest)
  {
    hide Parse, PadFrom, IsMagic;
    rest := it;
    assert s.buf[0..] == s.buf;
    if it.pad == 0 {
      assert s.buf == it.p[..|s.buf|];
    } else {
      ParsePadPrefix(s.buf, it.pad, it.p);
      if |s.buf| >= 8 && |s.buf| >= it.pad + 4 {
        rest := it.(pad := 0);
        var m := |s.buf| - it.pad;
        var s' := s.(buf := s.buf[it.pad..], filler := s.filler + it.pad);
        assert s'.buf == it.p[..m];
        assert ItemBytes(rest) == it.p && ItemBytes(it)[|s.buf|..] == it.p[m..];
        assert NextOf(s) == NextOf(s') == (None, s');
      } else {
        assert NextOf(s) == (None, s);
      }
    }
  }

  /**
   Going from s to s' with frames fs leaves, of a stream all with these frames and this much
   padding, the stream rest with the remaining frames and padding, and the same bytes still to come.
   */
  ghost predicate Advances(s: State, fs: seq<Frame>, s': State, all: bytes, frames: seq<Frame>, pads: nat,
                           rest: bytes, restFrames: seq<Frame>, restPads: nat)
  {
    && frames == fs + restFrames
    && s' == s.(buf := s'.buf, filler := s'.filler) && s'.filler + restPads == s.filler + pads
    && s.buf <= all && s'.buf <= rest && all[|s.buf|..] == rest[|s'.buf|..]
  }

  /** Draining s, whose buffer is the start of a padded stream, leaves the stream left still to come. */
  ghost predicate Drained(s: State, items: seq<Item>, g: bytes, left: seq<Item>) {
    && (forall it :: it in left ==> ItemOk(it))
    && var (fs, s') := Drain(s);
       && Advances(s, fs, s', StreamBytes(items) + g, FramesOf(items), PadsOf(items),
                   StreamBytes(left) + g, FramesOf(left), PadsOf(left))
       && (s.buf == StreamBytes(items) + g ==> left == [] && s'.buf == g)
  }

  /**
   Draining a buffer that holds the start of a padded stream: what is complete comes out, and what
   is left, with the bytes still to come, is again a padded stream.
   */
  lemma {:induction false} DrainStream(s: State, items: seq<Item>, g: bytes) returns (left: seq<Item>)
    requires (forall it :: it in items ==> ItemOk(it)) && Inert(g) && s.buf <= StreamBytes(items) + g
    ensures Drained(s, items, g, left)
    decreases |items|
  {
    hide Parse, IsMagic, Framed;
    if items == [] {
      left := [];
      assert StreamBytes([]) + g == g && s.buf == g[..|s.buf|];
    } else {
      var it, tail := items[0], StreamBytes(items[1..]) + g;
      assert StreamBytes(items) + g == ItemBytes(it) + tail;
      if |ItemBytes(it)| <= |s.buf| {
        left := DrainWhole(s, items, g);
      } else {
        left := DrainPart(s, items, g);
      }
    }
  }

  lemma TailOfAppend(a: bytes, tail: bytes, x: bytes)
    requires x <= tail
    ensures a + x <= a + tail && (a + tail)[|a + x|..] == tail[|x|..]
    ensures a + x == a + tail ==> x == tail
  {
  }

  lemma {:induction false} DrainWhole(s: State, items: seq<Item>, g: bytes) returns (left: seq<Item>)
    requires (forall it :: it in items ==> ItemOk(it)) && Inert(g) && s.buf <= StreamBytes(items) + g
    requires items != [] && |ItemBytes(items[0])| <= |s.buf|
    ensures Drained(s, items, g, left)
    decreases |items|, 0
  {
    hide Parse, IsMagic, Framed, ItemBytes, NextOf, Inert;
    var it, tail := items[0], StreamBytes(items[1..]) + g;
    var x := s.buf[|ItemBytes(it)|..];
    assert StreamBytes(items) + g == ItemBytes(it) + tail;
    assert s.buf == ItemBytes(it) + x && x <= tail;
    NextItem(s, it, x);
    left := DrainStream(s.(buf := x, filler := s.filler + it.pad), items[1..], g);
    WholeTaken(s, items, g, x, left);
  }

  lemma {:induction false} WholeTaken(s: State, items: seq<Item>, g: bytes, x: bytes, left: seq<Item>)
    requires items != [] && s.buf == ItemBytes(items[0]) + x
    requires var s1 := s.(buf := x, filler := s.filler + items[0].pad);
             NextOf(s) == (Some(items[0].f), s1) && Drained(s1, items[1..], g, left)
    ensures Drained(s, items, g, left)
  {
    hide NextOf, ItemBytes, ItemOk, Advances;
    var it, tail := items[0], StreamBytes(items[1..]) + g;
    var s1 := s.(buf := x, filler := s.filler + it.pad);
    var (fs, s') := Drain(s1);
    assert StreamBytes(items) + g == ItemBytes(it) + tail by { Grouped(ItemBytes(it), StreamBytes(items[1..]), g); }
    AdvanceByItem(s, s1, fs, s', ItemBytes(it), it.f, it.pad, tail, FramesOf(items[1..]), PadsOf(items[1..]),
                  StreamBytes(left) + g, FramesOf(left), PadsOf(left));
  }

  lemma {:induction false} AdvanceByItem(
    s: State, s1: State, fs: seq<Frame>, s': State, item: bytes, f: Frame, pad: nat, all: bytes, frames: seq<Frame>,
    pads: nat, rest: bytes, restFrames: seq<Frame>, restPads: nat)
    requires s1 == s.(buf := s1.buf, filler := s.filler + pad) && s.buf == item + s1.buf
    requires Advances(s1, fs, s', all, frames, pads, rest, restFrames, restPads)
    ensures Advances(s, [f] + fs, s', item + all, [f] + frames, pad + pads, rest, restFrames, restPads)
    ensures s.buf == item + all ==> s1.buf == all
  {
    TailOfAppend(item, all, s1.buf);
  }

  lemma {:induction false} DrainPart(s: State, items: seq<Item>, g: bytes) returns (left: seq<Item>)
    requires (forall it :: it in items ==> ItemOk(it)) && s.buf <= StreamBytes(items) + g
    requires items != [] && |s.buf| < |ItemBytes(items[0])|
    ensures Drained(s, items, g, left)
  {
    hide Parse, IsMagic, Framed, ItemBytes, NextOf;
    var it, tail := items[0], StreamBytes(items[1..]) + g;
    assert StreamBytes(items) + g == ItemBytes(it) + tail;
    assert s.buf == (ItemBytes(it) + tail)[..|s.buf|] == ItemBytes(it)[..|s.buf|];
    var rest := NextPart(s, it);
    left := [rest] + items[1..];
    PartTaken(s, items, g, rest);
  }

  lemma {:induction false} PartTaken(s: State, items: seq<Item>, g: bytes, rest: Item)
    requires (forall it :: it in items ==> ItemOk(it)) && items != [] && ItemOk(rest)
    requires s.buf <= ItemBytes(items[0]) && |s.buf| < |ItemBytes(items[0])| && PartOf(s, items[0], rest)
    ensures Drained(s, items, g, [rest] + items[1..])
  {
    hide NextOf, ItemBytes, ItemOk;
    var it, tail, left := items[0], StreamBytes(items[1..]) + g, [rest] + items[1..];
    var s' := NextOf(s).1;
    assert left[1..] == items[1..];
    assert StreamBytes(items) + g == ItemBytes(it) + tail;
    assert StreamBytes(left) + g == ItemBytes(rest) + tail;
    CutFront(ItemBytes(it), tail, |s.buf|);
    CutFront(ItemBytes(rest), tail, |s'.buf|);
    assert FramesOf(left) == FramesOf(items) == [] + FramesOf(left);
    assert PadsOf(left) == PadsOf(items) - it.pad + rest.pad;
  }

  lemma CutFront(a: bytes, tail: bytes, k: nat)
    requires k <= |a|
    ensures (a + tail)[k..] == a[k..] + tail && a[..k] == (a + tail)[..k]
  {
  }

  /** A chunk moves from what is to come into the buffer. */
  lemma ChunkIn(buf: bytes, chunks: seq<bytes>, all: bytes)
    requires chunks != [] && buf + Concat(chunks) == all
    ensures (buf + chunks[0]) + Concat(chunks[1..]) == all
    ensures buf + chunks[0] == all[..|buf + chunks[0]|] && Concat(chunks[1..]) == all[|buf + chunks[0]|..]
    ensures |chunks| == 1 ==> buf + chunks[0] == all
  {
    Grouped(buf, chunks[0], Concat(chunks[1..]));
    if |chunks| == 1 {
      NoneLeft(chunks, buf + chunks[0]);
    }
    hide Concat;
    CutWhole(buf + chunks[0], Concat(chunks[1..]));
  }

  lemma Grouped(a: bytes, b: bytes, c: bytes)
    ensures a + (b + c) == (a + b) + c
  {
  }

  lemma CutWhole(a: bytes, b: bytes)
    ensures (a + b)[..|a|] == a && (a + b)[|a|..] == b
  {
  }

  lemma NoneLeft(chunks: seq<bytes>, buf: bytes)
    requires |chunks| == 1
    ensures Concat(chunks[1..]) == [] && buf + Concat(chunks[1..]) == buf
  {
    assert chunks[1..] == [];
  }

  /** However a padded stream is cut, it is read the same. */
  lemma {:induction false} FeedStream(s: State, items: seq<Item>, g: bytes, chunks: seq<bytes>)
    requires (forall it :: it in items ==> ItemOk(it)) && Inert(g) && chunks != []
    requires s.buf + Concat(chunks) == StreamBytes(items) + g
    ensures Feed(s, chunks) == (FramesOf(items), s.(buf := g, filler := s.filler + PadsOf(items)))
    decreases |chunks|
  {
    hide Drain, ItemOk, Inert, StreamBytes;
    var s1, all := AfterWrite(s, chunks[0], false), StreamBytes(items) + g;
    ChunkIn(s.buf, chunks, all);
    var left := DrainStream(s1, items, g);
    var s2 := Drain(s1).1;
    if |chunks| == 1 {
      assert s1.buf == all;
    } else {
      var rest := StreamBytes(left) + g;
      assert rest == rest[..|s2.buf|] + rest[|s2.buf|..];
      FeedStream(s2, left, g, chunks[1..]);
    }
  }

  /** What a message that starts a packet does with the bytes left over from before. */
  function Restarted(s: State): State { AfterWrite(s, [], true) }

  /**
   Reading a stream: any packets, padded and followed by filler, sent as one message that starts a
   packet and any continuations, cut anywhere, come out as exactly those packets' frames in order.
   */
  lemma {:induction false} StreamIsRead(s: State, items: seq<Item>, g: bytes, first: bytes, more: seq<bytes>)
    requires (forall it :: it in items ==> ItemOk(it)) && Inert(g)
    requires first + Concat(more) == StreamBytes(items) + g
    ensures var s0 := Restarted(s);
            Receive(s, first, more) == (FramesOf(items), s0.(buf := g, filler := s0.filler + PadsOf(items)))
  {
    hide Drain, ItemOk, Inert;
    var s0 := Restarted(s);
    FeedStream(s0, items, g, [first] + more);
    assert ([first] + more)[1..] == more;
    assert AfterWrite(s0, first, false) == AfterWrite(s, first, true);
  }
}
