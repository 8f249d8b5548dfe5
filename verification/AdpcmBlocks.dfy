/** Blocks and streams of ADPCM codes, as internal/adpcm/adpcm.go writes and reads them. */
module AdpcmBlocks {
  import opened Bytes
  import opened Adpcm

  // Two codes to a byte, the first in the high nibble

  function Pack(cs: seq<Code>): (b: bytes)
    ensures |b| == (|cs| + 1) / 2
    decreases |cs|
  {
    if cs == [] then []
    else if |cs| == 1 then [(16 * cs[0] as int) as byte]
    else [(16 * cs[0] as int + cs[1] as int) as byte] + Pack(cs[2..])
  }

  function Unpack(b: bytes): (cs: seq<Code>)
    ensures |cs| == 2 * |b|
  {
    if b == [] then [] else [b[0] as int / 16, b[0] as int % 16] + Unpack(b[1..])
  }

  /** An odd run comes back with one code of zero after it. */
  lemma {:induction false} UnpackPack(cs: seq<Code>)
    ensures Unpack(Pack(cs)) == if |cs| % 2 == 0 then cs else cs + [0]
    decreases |cs|
  {
    if |cs| == 1 {
      assert Pack(cs)[1..] == [];
    } else if |cs| > 1 {
      UnpackPack(cs[2..]);
      assert Pack(cs)[1..] == Pack(cs[2..]);
      assert cs == [cs[0], cs[1]] + cs[2..];
    }
  }

  /** Adding a code: a new byte with the code on top, or the low half of the last byte. */
  lemma {:induction false} PackSnoc(cs: seq<Code>, c: Code)
    ensures |cs| % 2 == 0 ==> Pack(cs + [c]) == Pack(cs) + [(16 * c as int) as byte]
    ensures |cs| % 2 == 1 ==>
              && Pack(cs)[|cs| / 2] as int % 16 == 0
              && Pack(cs + [c]) == Pack(cs)[..|cs| / 2] + [Pack(cs)[|cs| / 2] + c as byte]
    decreases |cs|
  {
    if |cs| == 0 {
      assert cs + [c] == [c];
    } else if |cs| == 1 {
      assert (cs + [c])[2..] == [];
    } else {
      PackSnoc(cs[2..], c);
      assert (cs + [c])[2..] == cs[2..] + [c];
      assert Pack(cs) == [(16 * cs[0] as int + cs[1] as int) as byte] + Pack(cs[2..]);
    }
  }

  /** Writes the code of sample i, cs being the codes already written from off on. */
  method PutCode(out: array<byte>, off: nat, i: nat, c: Code, ghost cs: seq<Code>)
    requires i == |cs| && off + i / 2 < out.Length && out[off..off + (i + 1) / 2] == Pack(cs)
    modifies out
    ensures out[off..off + (i + 2) / 2] == Pack(cs + [c])
    ensures out[..off] == old(out[..off])
  {
    PackSnoc(cs, c);
    ghost var was := out[off..off + (i + 1) / 2];
    if i % 2 == 0 {
      out[off + i / 2] := (16 * c as int) as byte;
      assert out[off..off + (i + 2) / 2] == was + [out[off + i / 2]];
    } else {
      assert was[i / 2] == out[off + i / 2];
      out[off + i / 2] := out[off + i / 2] + c as byte;
      assert out[off..off + (i + 2) / 2] == was[..i / 2] + [out[off + i / 2]];
    }
  }

  // Blocks

  function Signed16(u: u16): int16 { if u < 0x8000 then u else u - 0x1_0000 }

  function Unsigned16(x: int16): u16 { if x >= 0 then x else x + 0x1_0000 }

  function Head(st: State): (b: bytes)
    ensures |b| == 4
  {
    Put16(Unsigned16(st.predictor)) + [st.index as byte, 0]
  }

  /** The state a decoder takes from a block's preamble, whatever its bytes. */
  function Preamble(block: bytes): State
    requires |block| >= 4
  {
    State(Signed16(U16(block, 0)), Clamp(block[2] as int, 0, 88))
  }

  function Silent(n: nat): (pcm: seq<int16>)
    ensures |pcm| == n
  {
    seq(n, i => 0)
  }

  /** The samples of one block: a short input is padded with silence, a long one cut. */
  function Padded(pcm: seq<int16>): (r: seq<int16>)
    ensures |r| == SAMPLES_PER_BLOCK
  {
    if |pcm| >= SAMPLES_PER_BLOCK then pcm[..SAMPLES_PER_BLOCK] else pcm + Silent(SAMPLES_PER_BLOCK - |pcm|)
  }

  /** A block holds the first samples given, in order, and silence after them. */
  lemma PaddedAt(pcm: seq<int16>, i: nat)
    requires i < 1024
    ensures |Padded(pcm)| == 1024 && Padded(pcm)[i] == if i < |pcm| then pcm[i] else 0
  {
  }

  function Block(st: State, pcm: seq<int16>): (b: bytes)
    ensures |b| == BLOCK_BYTES
  {
    Head(st) + Pack(Codes(st, Padded(pcm)))
  }

  function DecodeBlock(block: bytes): seq<int16> {
    if |block| < 4 then [] else Pcm(Preamble(block), Unpack(block[4..]))
  }

  /** A block of any bytes: its first two a predictor in two's complement, its third an index, held to the ladder. */
  lemma AnyPreamble(block: bytes)
    requires |block| >= 4
    ensures var st := Preamble(block);
            (st.predictor - U16(block, 0)) % 0x1_0000 == 0 && st.index == Min(block[2] as int, 88)
    ensures |DecodeBlock(block)| == 2 * (|block| - 4)
  {
    hide U16;
  }

  lemma PreambleOfHead(st: State, rest: bytes)
    ensures Preamble(Head(st) + rest) == st
  {
    var u := Unsigned16(st.predictor);
    ReadBack16(Head(st) + rest, 0, u);
  }

  lemma BlockReadBack(st: State, pcm: seq<int16>)
    ensures Preamble(Block(st, pcm)) == st && Unpack(Block(st, pcm)[4..]) == Codes(st, Padded(pcm))
  {
    hide Head, Preamble, Pack, Unpack, Codes, Padded;
    var cs := Codes(st, Padded(pcm));
    PreambleOfHead(st, Pack(cs));
    UnpackPack(cs);
    assert Block(st, pcm)[4..] == Pack(cs);
  }

  /** The blocks one encoder writes for one run of inputs after another. */
  function Blocks(st: State, pcms: seq<seq<int16>>): (bs: seq<bytes>)
    ensures |bs| == |pcms| && forall b :: b in bs ==> |b| == BLOCK_BYTES
    decreases |pcms|
  {
    if pcms == [] then [] else [Block(st, pcms[0])] + Blocks(Encoded(st, Padded(pcms[0])), pcms[1..])
  }

  function BlockOf(st: State, pcms: seq<seq<int16>>, k: nat): (b: bytes)
    requires k < |pcms|
    ensures |b| == BLOCK_BYTES
  {
    var bs := Blocks(st, pcms);
    assert bs[k] in bs;
    bs[k]
  }

  function DecodeAll(blocks: seq<bytes>): seq<int16> {
    if blocks == [] then [] else DecodeBlock(blocks[0]) + DecodeAll(blocks[1..])
  }

  function Input(pcms: seq<seq<int16>>): seq<int16>
    decreases |pcms|
  {
    if pcms == [] then [] else Padded(pcms[0]) + Input(pcms[1..])
  }

  /** Blocks decoded one by one, each from its own preamble, are one continuous stream of codes. */
  lemma {:induction false} BlocksAreOneStream(st: State, pcms: seq<seq<int16>>)
    ensures DecodeAll(Blocks(st, pcms)) == Pcm(st, Codes(st, Input(pcms)))
    decreases |pcms|
  {
    hide Block, Padded, Preamble, Unpack;
    if pcms != [] {
      var one, rest := Padded(pcms[0]), Input(pcms[1..]);
      var next := Encoded(st, one);
      BlocksAreOneStream(next, pcms[1..]);
      BlockReadBack(st, pcms[0]);
      CodesAppend(st, one, rest);
      Lockstep(st, one);
      PcmAppend(st, Codes(st, one), Codes(next, rest));
      assert Blocks(st, pcms)[1..] == Blocks(next, pcms[1..]);
    }
  }

  /** The next block's preamble is the state this block is decoded to. */
  predicate Follows(b: bytes, next: bytes)
    requires |b| == |next| == BLOCK_BYTES
  {
    Preamble(next) == After(Preamble(b), Unpack(b[4..]))
  }

  /** Each block ends, once decoded, in exactly the state the next block's preamble holds. */
  lemma {:induction false} PreamblesChain(st: State, pcms: seq<seq<int16>>, k: nat)
    requires k + 1 < |pcms|
    ensures Follows(BlockOf(st, pcms, k), BlockOf(st, pcms, k + 1))
    decreases |pcms|
  {
    hide Block, Padded, Preamble, Unpack, Codes, After, Encoded, Blocks, BlockOf;
    if k == 0 {
      TwoPreambles(st, pcms);
    } else {
      BlocksRest(st, pcms, k);
      BlocksRest(st, pcms, k + 1);
      PreamblesChain(Encoded(st, Padded(pcms[0])), pcms[1..], k - 1);
    }
  }

  lemma BlocksRest(st: State, pcms: seq<seq<int16>>, k: nat)
    requires k < |pcms|
    ensures BlockOf(st, pcms, k)
         == if k == 0 then Block(st, pcms[0]) else BlockOf(Encoded(st, Padded(pcms[0])), pcms[1..], k - 1)
  {
    hide Block, Padded, Encoded;
  }

  lemma {:induction false} TwoPreambles(st: State, pcms: seq<seq<int16>>)
    requires |pcms| > 1
    ensures Follows(BlockOf(st, pcms, 0), BlockOf(st, pcms, 1))
  {
    hide Block, Padded, Preamble, Unpack, Codes, After, Encoded, Blocks, BlockOf;
    var next := Encoded(st, Padded(pcms[0]));
    BlocksRest(st, pcms, 0);
    BlocksRest(st, pcms, 1);
    BlocksRest(next, pcms[1..], 0);
    BlockReadBack(st, pcms[0]);
    BlockReadBack(next, pcms[1]);
    Lockstep(st, Padded(pcms[0]));
  }

  // Streams

  function Stream(pcm: seq<int16>): bytes { Pack(Codes(SILENCE, pcm)) }

  function Heard(b: bytes): seq<int16> { Pcm(SILENCE, Unpack(b)) }

  /** Sample k out of the decoder is the encoder's own predictor after sample k. */
  lemma {:induction false} HeardIsPredicted(pcm: seq<int16>, k: nat)
    requires k < |pcm|
    ensures k < |Heard(Stream(pcm))| && Heard(Stream(pcm))[k] == Encoded(SILENCE, pcm[..k + 1]).predictor
  {
    hide Codes, Encoded, After, Pcm;
    var cs := Codes(SILENCE, pcm);
    UnpackPack(cs);
    if |cs| % 2 == 1 {
      PcmAppend(SILENCE, cs, [0]);
    }
    PredictorAt(SILENCE, pcm, k);
  }

  lemma {:induction false} PredictorAt(st: State, pcm: seq<int16>, k: nat)
    requires k < |pcm|
    ensures Pcm(st, Codes(st, pcm))[k] == Encoded(st, pcm[..k + 1]).predictor
    decreases k
  {
    hide Advance, CodeOf;
    var next := Advance(st, CodeOf(st, pcm[0]));
    assert Codes(st, pcm)[1..] == Codes(next, pcm[1..]);
    if k == 0 {
      assert pcm[..1][1..] == [];
    } else {
      PredictorAt(next, pcm[1..], k - 1);
      assert pcm[..k + 1][1..] == pcm[1..][..k];
    }
  }

  /** End to end: a sample within reach is heard to an eighth of the step and two, but for that one distance. */
  lemma {:induction false} HeardIsNear(pcm: seq<int16>, k: nat)
    requires k < |pcm| && !Outside(Encoded(SILENCE, pcm[..k]), pcm[k])
    ensures k < |Heard(Stream(pcm))|
    ensures var st := Encoded(SILENCE, pcm[..k]);
            var error := Abs(Heard(Stream(pcm))[k] as int - pcm[k] as int);
            && (error <= Step(st.index) / 8 + 2 <==> !Farthest(st, pcm[k]))
            && (Farthest(st, pcm[k]) ==> error == Step(st.index) / 8 + 3)
  {
    hide Advance, CodeOf, Step, Heard, Stream;
    HeardIsPredicted(pcm, k);
    var st := Encoded(SILENCE, pcm[..k]);
    CodesAppend(SILENCE, pcm[..k], [pcm[k]]);
    assert pcm[..k + 1] == pcm[..k] + [pcm[k]];
    assert Encoded(st, [pcm[k]]) == Advance(st, CodeOf(st, pcm[k])) by {
      assert [pcm[k]][1..] == [];
    }
    QuantiserBound(st, pcm[k]);
  }

  /** Among any twelve consecutive samples one is within the quantiser's reach. */
  lemma {:induction false} TwelveCatchUp(st: State, pcm: seq<int16>, at: nat) returns (k: nat)
    requires at + 12 <= |pcm|
    ensures at <= k < at + 12 && !Outside(Encoded(st, pcm[..k]), pcm[k])
  {
    hide Outside, AllOutside, Encoded, Codes;
    var from := Encoded(st, pcm[..at]);
    var run := pcm[at..at + 12];
    assert !AllOutside(from, run) by { TooLong(from, run); }
    var j := FirstInside(from, run);
    k := at + j;
    CodesAppend(st, pcm[..at], run[..j]);
    assert pcm[..k] == pcm[..at] + run[..j] && pcm[k] == run[j];
  }

  lemma TooLong(st: State, pcm: seq<int16>)
    requires |pcm| > 11
    ensures !AllOutside(st, pcm)
  {
    if AllOutside(st, pcm) {
      OverloadIsShort(st, pcm);
    }
  }

  lemma {:induction false} FirstInside(st: State, pcm: seq<int16>) returns (j: nat)
    requires !AllOutside(st, pcm)
    ensures j < |pcm| && !Outside(Encoded(st, pcm[..j]), pcm[j])
    decreases |pcm|
  {
    hide Outside, Advance, CodeOf;
    if !Outside(st, pcm[0]) {
      j := 0;
    } else {
      var i := FirstInside(Advance(st, CodeOf(st, pcm[0])), pcm[1..]);
      j := i + 1;
      assert pcm[..j][1..] == pcm[1..][..i];
    }
  }

  // The encoder and the decoders themselves

  /** The binary search over the step. It reconstructs the difference as it goes, and gets the decoder's. */
  method Search(ladder: int, distance: int) returns (magnitude: Code, diff: int)
    requires ladder >= 7 && distance >= 0
    ensures magnitude == Magnitude(ladder, distance) && diff == Diff(ladder, magnitude)
  {
    var step, delta, m := ladder, distance, 0;
    diff := step / 8;
    if delta >= step {
      m := m + 4;
      delta := delta - step;
      diff := diff + step;
    }
    step := step / 2;
    if delta >= step {
      m := m + 2;
      delta := delta - step;
      diff := diff + step;
    }
    step := step / 2;
    if delta >= step {
      m := m + 1;
      diff := diff + step;
    }
    magnitude := m;
  }

  class Encoder {
    var predictor: int
    var index: int

    ghost predicate Valid()
      reads this
    {
      -0x8000 <= predictor < 0x8000 && 0 <= index <= 88
    }

    ghost function St(): State
      requires Valid()
      reads this
    {
      State(predictor, index)
    }

    constructor ()
      ensures Valid() && St() == SILENCE
    {
      predictor, index := 0, 0;
    }

    method EncodeSample(sample: int16) returns (code: Code)
      requires Valid()
      modifies this
      ensures Valid()
      ensures code == CodeOf(old(St()), sample) && St() == Advance(old(St()), code)
    {
      hide Step, Level, Magnitude;
      var delta := sample - predictor;
      var c := 0;
      if delta < 0 {
        c := 8;
        delta := -delta;
      }
      var magnitude, diff := Search(Step(index), delta);
      code := c + magnitude;
      LevelOfMagnitude(Step(index), code);
      if code >= 8 {
        predictor := predictor - diff;
      } else {
        predictor := predictor + diff;
      }
      predictor := Clamp(predictor, -32768, 32767);
      index := Clamp(index + Move(code), 0, 88);
    }

    method EncodeBlock(pcm: seq<int16>) returns (out: array<byte>)
      requires Valid()
      modifies this
      ensures Valid() && fresh(out)
      ensures out[..] == Block(old(St()), pcm) && St() == Encoded(old(St()), Padded(pcm))
    {
      hide Advance, CodeOf, Codes, Encoded, Pack, Step, Padded;
      out := new byte[BLOCK_BYTES];
      var u := Unsigned16(predictor);
      out[0], out[1], out[2], out[3] := (u % 256) as byte, (u / 256) as byte, index as byte, 0;
      assert out[..4] == Head(St());
      hide Head;
      PutSamples(out, pcm);
      assert out[..] == out[..4] + out[4..];
    }

    /** The loop over the samples of a block, silence after the last. */
    method PutSamples(out: array<byte>, pcm: seq<int16>)
      requires Valid() && out.Length == BLOCK_BYTES
      modifies this, out
      ensures Valid() && St() == Encoded(old(St()), Padded(pcm))
      ensures out[..4] == old(out[..4]) && out[4..] == Pack(Codes(old(St()), Padded(pcm)))
    {
      hide Advance, CodeOf, Codes, Encoded, Pack, Step;
      ghost var st, all := St(), Padded(pcm);
      var i := 0;
      assert out[4..4] == Pack([]) by { assert |Pack([])| == 0; }
      assert Codes(st, all[..0]) == [] && Encoded(st, all[..0]) == st by { Nothing(st, all[..0]); }
      while i < SAMPLES_PER_BLOCK
        invariant 0 <= i <= SAMPLES_PER_BLOCK && Valid()
        invariant St() == Encoded(st, all[..i])
        invariant out[..4] == old(out[..4]) && out[4..4 + (i + 1) / 2] == Pack(Codes(st, all[..i]))
      {
        var s := if i < |pcm| then pcm[i] else 0;
        assert s == all[i];
        OneMore(st, all, i);
        var code := EncodeSample(s);
        PutCode(out, 4, i, code, Codes(st, all[..i]));
        i := i + 1;
      }
      assert all[..i] == all;
    }
  }

  lemma Nothing(st: State, pcm: seq<int16>)
    requires pcm == []
    ensures Codes(st, pcm) == [] && Encoded(st, pcm) == st
  {
  }

  lemma OneMore(st: State, pcm: seq<int16>, i: nat)
    requires i < |pcm|
    ensures var at := Encoded(st, pcm[..i]);
            var c := CodeOf(at, pcm[i]);
            && Encoded(st, pcm[..i + 1]) == Advance(at, c)
            && Codes(st, pcm[..i + 1]) == Codes(st, pcm[..i]) + [c]
  {
    hide Advance, CodeOf;
    CodesAppend(st, pcm[..i], [pcm[i]]);
    assert pcm[..i + 1] == pcm[..i] + [pcm[i]];
    assert [pcm[i]][1..] == [];
  }

  method EncodeStream(pcm: seq<int16>) returns (out: array<byte>)
    ensures fresh(out) && out[..] == Stream(pcm)
  {
    hide Advance, CodeOf, Codes, Encoded, Pack, Step;
    var e := new Encoder();
    out := new byte[(|pcm| + 1) / 2];
    var i := 0;
    assert out[0..0] == Pack([]) by { assert |Pack([])| == 0; }
    Nothing(SILENCE, pcm[..0]);
    while i < |pcm|
      invariant 0 <= i <= |pcm| && e.Valid() && fresh(e) && fresh(out)
      invariant e.St() == Encoded(SILENCE, pcm[..i])
      invariant out[0..(i + 1) / 2] == Pack(Codes(SILENCE, pcm[..i]))
    {
      OneMore(SILENCE, pcm, i);
      var code := e.EncodeSample(pcm[i]);
      PutCode(out, 0, i, code, Codes(SILENCE, pcm[..i]));
      i := i + 1;
    }
    assert pcm[..i] == pcm;
    assert out[..] == out[0..(i + 1) / 2];
  }

  /** One code of either decoder's loop: the next predictor and index. */
  method DecodeCode(predictor: int, index: int, code: Code) returns (p: int, x: int)
    requires -0x8000 <= predictor < 0x8000 && 0 <= index <= 88
    ensures -0x8000 <= p < 0x8000 && 0 <= x <= 88 && State(p, x) == Advance(State(predictor, index), code)
  {
    hide Step;
    var step := Step(index);
    var diff := step / 8;
    if code / 4 % 2 != 0 {
      diff := diff + step;
    }
    if code / 2 % 2 != 0 {
      diff := diff + step / 2;
    }
    if code % 2 != 0 {
      diff := diff + step / 4;
    }
    p := if code >= 8 then predictor - diff else predictor + diff;
    p := Clamp(p, -32768, 32767);
    x := Clamp(index + Move(code), 0, 88);
  }

  lemma PcmOneMore(st: State, cs: seq<Code>, i: nat)
    requires i < |cs|
    ensures After(st, cs[..i + 1]) == Advance(After(st, cs[..i]), cs[i])
    ensures Pcm(st, cs[..i + 1]) == Pcm(st, cs[..i]) + [Advance(After(st, cs[..i]), cs[i]).predictor]
  {
    hide Advance;
    PcmAppend(st, cs[..i], [cs[i]]);
    assert cs[..i + 1] == cs[..i] + [cs[i]];
    assert [cs[i]][1..] == [];
  }

  lemma {:induction false} UnpackAt(b: bytes, i: nat)
    requires i < 2 * |b|
    ensures Unpack(b)[i] == if i % 2 == 0 then b[i / 2] as int / 16 else b[i / 2] as int % 16
    decreases |b|
  {
    if i >= 2 {
      UnpackAt(b[1..], i - 2);
    }
  }

  method Decode(block: bytes) returns (out: seq<int16>)
    ensures out == DecodeBlock(block)
  {
    hide Advance, Pcm, After, Unpack;
    if |block| < 4 {
      return [];
    }
    var predictor := Signed16(U16(block, 0));
    var index := Clamp(block[2] as int, 0, 88);
    ghost var st, cs := Preamble(block), Unpack(block[4..]);
    out := [];
    var i, n := 0, (|block| - 4) * 2;
    assert Pcm(st, cs[..0]) == [] && After(st, cs[..0]) == st by { NoCodes(st, cs[..0]); }
    while i < n
      invariant 0 <= i <= n && -0x8000 <= predictor < 0x8000 && 0 <= index <= 88
      invariant State(predictor, index) == After(st, cs[..i]) && out == Pcm(st, cs[..i])
    {
      var b := block[4 + i / 2] as int;
      var code := if i % 2 == 0 then b / 16 else b % 16;
      UnpackAt(block[4..], i);
      PcmOneMore(st, cs, i);
      predictor, index := DecodeCode(predictor, index, code);
      out := out + [predictor];
      i := i + 1;
    }
    assert cs[..i] == cs;
  }

  lemma NoCodes(st: State, cs: seq<Code>)
    requires cs == []
    ensures Pcm(st, cs) == [] && After(st, cs) == st
  {
  }

  method DecodeStream(b: bytes) returns (out: seq<int16>)
    ensures out == Heard(b)
  {
    hide Advance, Pcm, After, Unpack;
    var predictor, index := 0, 0;
    ghost var cs := Unpack(b);
    out := [];
    var j := 0;
    NoCodes(SILENCE, cs[..0]);
    while j < |b|
      invariant 0 <= j <= |b| && -0x8000 <= predictor < 0x8000 && 0 <= index <= 88
      invariant State(predictor, index) == After(SILENCE, cs[..2 * j]) && out == Pcm(SILENCE, cs[..2 * j])
    {
      UnpackAt(b, 2 * j);
      UnpackAt(b, 2 * j + 1);
      PcmOneMore(SILENCE, cs, 2 * j);
      PcmOneMore(SILENCE, cs, 2 * j + 1);
      predictor, index := DecodeCode(predictor, index, b[j] as int / 16);
      out := out + [predictor];
      predictor, index := DecodeCode(predictor, index, b[j] as int % 16);
      out := out + [predictor];
      j := j + 1;
    }
    assert cs[..2 * j] == cs;
  }
}
