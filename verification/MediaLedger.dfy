/** Where every byte written to the depacketizer has gone, over every sequence of calls. */
module MediaLedger {
  import opened Bytes
  import opened Wrappers
  import opened Media

  datatype Call = Write(b: bytes, startsPacket: bool) | Next | TakeGap

  /**
   The account beside the state: bytes written, bytes of packets whose frames were returned, bytes
   of video packets cut short and how many those were, and whether one was cut since the last TakeGap.
   */
  datatype Ledger = Ledger(s: State, written: nat, framed: nat, cut: nat, cuts: nat, cutSince: bool)

  const OPENING := Ledger(EMPTY, 0, 0, 0, 0, false)

  /** The length of the packet whose frame Next returns; 0 if it returns none. */
  function PacketTaken(s: State): nat
    decreases |s.buf|
  {
    match Parse(s.buf)
    case Wait => 0
    case Emit(_, n) => n
    case SkipByte => PacketTaken(s.(buf := s.buf[1..], skipped := s.skipped + 1))
    case SkipPad(n) => PacketTaken(s.(buf := s.buf[n..], filler := s.filler + n))
  }

  function Entered(l: Ledger, call: Call): Ledger {
    match call
    case Write(b, starts) =>
      var short := starts && IsVideo(l.s.buf);
      Ledger(AfterWrite(l.s, b, starts), l.written + |b|, l.framed,
             l.cut + if short then |l.s.buf| else 0, l.cuts + if short then 1 else 0, l.cutSince || short)
    case Next => l.(s := NextOf(l.s).1, framed := l.framed + PacketTaken(l.s))
    case TakeGap => l.(s := l.s.(gap := false), cutSince := false)
  }

  function Posted(l: Ledger, calls: seq<Call>): Ledger
    decreases |calls|
  {
    if calls == [] then l else Posted(Entered(l, calls[0]), calls[1..])
  }

  /** Bytes not in a frame: buffered, stepped over as padding, or skipped while looking for a packet. */
  function Loose(s: State): nat { |s.buf| + s.filler + s.skipped }

  /** Next moves bytes between the buffer and the counters, and takes out just the packet it returns. */
  lemma {:induction false} NextConserves(s: State)
    ensures Loose(NextOf(s).1) + PacketTaken(s) == Loose(s)
    ensures NextOf(s).1.lost == s.lost && NextOf(s).1.gap == s.gap
    ensures NextOf(s).0.None? <==> PacketTaken(s) == 0
    decreases |s.buf|
  {
    hide Parse;
    match Parse(s.buf)
    case Wait =>
    case Emit(_, n) =>
    case SkipByte => NextConserves(s.(buf := s.buf[1..], skipped := s.skipped + 1));
    case SkipPad(n) => NextConserves(s.(buf := s.buf[n..], filler := s.filler + n));
  }

  ghost predicate Balanced(l: Ledger) {
    && l.written == l.framed + l.cut + Loose(l.s)
    && l.s.lost == l.cuts && l.s.gap == l.cutSince
  }

  /** Over every sequence of calls: no byte is unaccounted for, and every cut packet is counted and flagged. */
  lemma {:induction false} BytesConserved(l: Ledger, calls: seq<Call>)
    requires Balanced(l)
    ensures Balanced(Posted(l, calls))
    decreases |calls|
  {
    hide NextOf, PacketTaken;
    if calls != [] {
      NextConserves(l.s);
      BytesConserved(Entered(l, calls[0]), calls[1..]);
    }
  }

  lemma OpeningBalances()
    ensures Balanced(OPENING)
  {
  }

  /** Draining without a frame only moves bytes to the counters. */
  lemma {:induction false} DrainConserves(s: State)
    ensures Loose(Drain(s).1) <= Loose(s)
    ensures Drain(s).0 == [] ==> Loose(Drain(s).1) == Loose(s)
    decreases |s.buf|
  {
    hide NextOf, PacketTaken;
    NextConserves(s);
    var (f, s') := NextOf(s);
    if f.Some? {
      DrainConserves(s');
    }
  }
}
