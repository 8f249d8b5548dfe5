/**
 The IMA ADPCM codec of internal/adpcm/adpcm.go: the DVI4 variant of section 4.5.1 of RFC 3551 with
 a little-endian preamble and the first sample in the high nibble.
 */
module Adpcm {
  import opened Bytes

  type int16 = x: int | -0x8000 <= x < 0x8000
  type Index = x: int | 0 <= x <= 88
  type Code = x: int | 0 <= x < 16

  const SAMPLES_PER_BLOCK := 1024
  const BLOCK_BYTES := 4 + SAMPLES_PER_BLOCK / 2

  predicate AreSteps(t: seq<int>) { forall s :: s in t ==> 7 <= s <= 32767 }

  function LowSteps(): (t: seq<int>)
    ensures |t| == 37 && AreSteps(t)
  {
    [7, 8, 9, 10, 11, 12, 13, 14, 16, 17, 19, 21, 23, 25, 28, 31, 34, 37, 41, 45,
     50, 55, 60, 66, 73, 80, 88, 97, 107, 118, 130, 143, 157, 173, 190, 209, 230]
  }

  function MiddleSteps(): (t: seq<int>)
    ensures |t| == 26 && AreSteps(t)
  {
    [253, 279, 307, 337, 371, 408, 449, 494, 544, 598, 658, 724, 796, 876, 963,
     1060, 1166, 1282, 1411, 1552, 1707, 1878, 2066, 2272, 2499, 2749]
  }

  function HighSteps(): (t: seq<int>)
    ensures |t| == 26 && AreSteps(t) && t[25] == 32767
  {
    [3024, 3327, 3660, 4026, 4428, 4871, 5358, 5894, 6484, 7132, 7845, 8630, 9493,
     10442, 11487, 12635, 13899, 15289, 16818, 18500, 20350, 22385, 24623,
     27086, 29794, 32767]
  }

  function StepTable(): seq<int> { LowSteps() + MiddleSteps() + HighSteps() }

  /** The quantiser step; all the proofs about steps need is its range and its last entry. */
  function Step(index: Index): (step: int)
    ensures 7 <= step <= 32767 && (index == 88 ==> step == 32767)
  {
    var s := StepTable()[index];
    assert if index < 37 then s in LowSteps() else if index < 63 then s in MiddleSteps() else s in HighSteps();
    s
  }

  /** How far a code moves the ladder. */
  function Move(c: Code): int {
    if c % 8 < 4 then -1 else 2 * (c % 8 - 3)
  }

  function Clamp(v: int, lo: int, hi: int): int {
    if v < lo then lo else if v > hi then hi else v
  }

  datatype State = State(predictor: int16, index: Index)

  const SILENCE := State(0, 0)

  // One sample

  predicate Bit(c: Code, weight: int)
    requires weight > 0
  {
    c / weight % 2 == 1
  }

  /** What the three magnitude bits add up to, and with the rounding term, the decoder's difference. */
  function Level(step: int, c: Code): int {
    (if Bit(c, 4) then step else 0) + (if Bit(c, 2) then step / 2 else 0) + (if Bit(c, 1) then step / 4 else 0)
  }

  function Diff(step: int, c: Code): int { step / 8 + Level(step, c) }

  /** The predictor before it is clamped. */
  function Target(st: State, c: Code): int {
    if c >= 8 then st.predictor - Diff(Step(st.index), c) else st.predictor + Diff(Step(st.index), c)
  }

  /** The decoder's step. */
  function Advance(st: State, c: Code): State {
    State(Clamp(Target(st, c), -32768, 32767), Clamp(st.index + Move(c), 0, 88))
  }

  function Abs(x: int): int { if x < 0 then -x else x }

  /** The magnitude is the highest of the eight levels not above the difference. */
  predicate RoundsDownTo(step: int, delta: int, m: Code) {
    m < 8 && Level(step, m) <= delta && (m < 7 ==> delta < Level(step, m + 1))
  }

  lemma LevelsRise(step: int, m: Code, n: Code)
    requires step >= 7 && m < n < 8
    ensures Level(step, m) < Level(step, n)
  {
  }

  lemma RoundsDownOnce(step: int, delta: int, m: Code, n: Code)
    requires step >= 7 && RoundsDownTo(step, delta, m) && RoundsDownTo(step, delta, n)
    ensures m == n
  {
    if m < n {
      if m + 1 < n { LevelsRise(step, m + 1, n); }
    } else if n < m {
      if n + 1 < m { LevelsRise(step, n + 1, m); }
    }
  }

  /** The magnitude a difference of absolute value delta is rounded down to. */
  function Magnitude(step: int, delta: int): (m: Code)
    requires step >= 7 && delta >= 0
    ensures m < 8 && RoundsDownTo(step, delta, m)
  {
    var a := if delta >= step then 4 else 0;
    var left := if delta >= step then delta - step else delta;
    var b := if left >= step / 2 then 2 else 0;
    var rest := if left >= step / 2 then left - step / 2 else left;
    a + b + if rest >= step / 4 then 1 else 0
  }

  function CodeOf(st: State, sample: int16): Code {
    (if sample < st.predictor then 8 else 0) + Magnitude(Step(st.index), Abs(sample - st.predictor))
  }

  /** What remains of a difference after rounding down, and the one case in which it is largest. */
  lemma RoundingError(step: int, delta: int)
    requires step >= 7 && 0 <= delta <= 2 * step
    ensures var left := delta - Level(step, Magnitude(step, delta));
            && 0 <= left <= 2 * (step / 8) + 3
            && (left == 2 * (step / 8) + 3 <==> delta == 2 * step && step % 8 == 7)
  {
  }

  /** The one distance at which the bound is missed: twice a step that is seven more than a multiple of eight. */
  predicate Farthest(st: State, sample: int16) {
    Step(st.index) % 8 == 7 && Abs(sample - st.predictor) == 2 * Step(st.index)
  }

  /**
   The quantiser bound, clamping included: a sample within twice the step is reproduced to an eighth of
   the step and two, except at that one distance, and there the error is exactly one more.
   */
  lemma QuantiserBound(st: State, sample: int16)
    requires Abs(sample - st.predictor) <= 2 * Step(st.index)
    ensures var error := Abs(Advance(st, CodeOf(st, sample)).predictor - sample);
            var step := Step(st.index);
            && (error <= step / 8 + 2 <==> !Farthest(st, sample))
            && (Farthest(st, sample) ==> error == step / 8 + 3)
  {
    hide Step, Level, Magnitude;
    var step, delta := Step(st.index), Abs(sample - st.predictor);
    RoundingError(step, delta);
    var m := Magnitude(step, delta);
    SignKeepsLevel(step, m);
    var target := Target(st, CodeOf(st, sample));
    assert target - sample == if sample < st.predictor then delta - step / 8 - Level(step, m)
                              else step / 8 + Level(step, m) - delta;
  }

  /** From silence, the sample fourteen is heard as eleven. */
  lemma FarthestIsReached()
    ensures Farthest(SILENCE, 14) && Advance(SILENCE, CodeOf(SILENCE, 14)).predictor == 11
  {
    Rungs();
    RoundsDownOnce(7, 14, Magnitude(7, 14), 7);
  }

  lemma SignKeepsLevel(step: int, m: Code)
    requires m < 8
    ensures Level(step, m + 8) == Level(step, m)
  {
  }

  /** Further away than the quantiser reaches. */
  predicate Outside(st: State, sample: int16) { Abs(sample - st.predictor) > 2 * Step(st.index) }

  /** An overloaded sample moves the ladder up all the way and the predictor towards the sample, not to it. */
  lemma OverloadStep(st: State, sample: int16)
    requires Outside(st, sample)
    ensures var st' := Advance(st, CodeOf(st, sample));
            && st'.index == Min(88, st.index + 8)
            && (sample < st.predictor ==> sample < st'.predictor < st.predictor)
            && (sample > st.predictor ==> st.predictor < st'.predictor < sample)
  {
    hide Step;
    var step, delta := Step(st.index), Abs(sample - st.predictor);
    var m := Magnitude(step, delta);
    assert m == 7 by {
      RoundsDownOnce(step, delta, m, 7);
    }
    assert Level(step, 15) == Level(step, 7) == step + step / 2 + step / 4;
  }

  // A run of samples

  function Codes(st: State, pcm: seq<int16>): (cs: seq<Code>)
    ensures |cs| == |pcm|
    decreases |pcm|
  {
    if pcm == [] then [] else
    var c := CodeOf(st, pcm[0]);
    [c] + Codes(Advance(st, c), pcm[1..])
  }

  /** The decoder's state after a run of codes, and the samples it puts out. */
  function After(st: State, cs: seq<Code>): State
    decreases |cs|
  {
    if cs == [] then st else After(Advance(st, cs[0]), cs[1..])
  }

  function Pcm(st: State, cs: seq<Code>): (pcm: seq<int16>)
    ensures |pcm| == |cs|
    decreases |cs|
  {
    if cs == [] then [] else [Advance(st, cs[0]).predictor] + Pcm(Advance(st, cs[0]), cs[1..])
  }

  /** The encoder's state after a run of samples. */
  function Encoded(st: State, pcm: seq<int16>): State
    decreases |pcm|
  {
    if pcm == [] then st else Encoded(Advance(st, CodeOf(st, pcm[0])), pcm[1..])
  }

  /** Lockstep: the decoder's state is the encoder's after any number of samples. */
  lemma {:induction false} Lockstep(st: State, pcm: seq<int16>)
    ensures After(st, Codes(st, pcm)) == Encoded(st, pcm)
    decreases |pcm|
  {
    hide Advance, CodeOf;
    if pcm != [] {
      Lockstep(Advance(st, CodeOf(st, pcm[0])), pcm[1..]);
    }
  }

  lemma {:induction false} CodesAppend(st: State, a: seq<int16>, b: seq<int16>)
    ensures Codes(st, a + b) == Codes(st, a) + Codes(Encoded(st, a), b)
    ensures Encoded(st, a + b) == Encoded(Encoded(st, a), b)
    decreases |a|
  {
    hide Advance, CodeOf;
    if a == [] {
      assert a + b == b;
    } else {
      assert (a + b)[1..] == a[1..] + b;
      CodesAppend(Advance(st, CodeOf(st, a[0])), a[1..], b);
    }
  }

  lemma {:induction false} PcmAppend(st: State, a: seq<Code>, b: seq<Code>)
    ensures Pcm(st, a + b) == Pcm(st, a) + Pcm(After(st, a), b)
    ensures After(st, a + b) == After(After(st, a), b)
    decreases |a|
  {
    hide Advance;
    if a == [] {
      assert a + b == b;
    } else {
      assert (a + b)[1..] == a[1..] + b;
      PcmAppend(Advance(st, a[0]), a[1..], b);
    }
  }

  // Slope overload

  predicate AllOutside(st: State, pcm: seq<int16>)
    decreases |pcm|
  {
    pcm == [] || (Outside(st, pcm[0]) && AllOutside(Advance(st, CodeOf(st, pcm[0])), pcm[1..]))
  }

  lemma {:induction false} OverloadFromInside(st: State, pcm: seq<int16>)
    requires AllOutside(st, pcm) && -32768 < st.predictor < 32767
    ensures 8 * |pcm| < 96 - st.index
    decreases |pcm|
  {
    hide Step, Advance, CodeOf;
    if pcm != [] {
      OverloadStep(st, pcm[0]);
      OverloadFromInside(Advance(st, CodeOf(st, pcm[0])), pcm[1..]);
    }
  }

  /** From any state and for any input, at most eleven samples in a row are out of the quantiser's reach. */
  lemma {:induction false} OverloadIsShort(st: State, pcm: seq<int16>)
    requires AllOutside(st, pcm)
    ensures |pcm| <= 11
  {
    hide Step, Advance, CodeOf;
    if pcm != [] {
      OverloadStep(st, pcm[0]);
      OverloadFromInside(Advance(st, CodeOf(st, pcm[0])), pcm[1..]);
    }
  }

  lemma OverloadUp(st: State, sample: int16)
    requires Outside(st, sample) && sample > st.predictor
    ensures var step := Step(st.index);
            Advance(st, CodeOf(st, sample)) ==
            State(st.predictor + step / 8 + step + step / 2 + step / 4, Min(88, st.index + 8))
  {
    hide Step;
    OverloadStep(st, sample);
    var step, delta := Step(st.index), Abs(sample - st.predictor);
    RoundsDownOnce(step, delta, Magnitude(step, delta), 7);
  }

  function Loudest(n: nat): (pcm: seq<int16>)
    ensures |pcm| == n
  {
    if n == 0 then [] else [32767] + Loudest(n - 1)
  }

  lemma Rungs()
    ensures Step(0) == 7 && Step(8) == 16 && Step(16) == 34 && Step(24) == 73 && Step(32) == 157 && Step(40) == 337
    ensures Step(48) == 724 && Step(56) == 1552 && Step(64) == 3327 && Step(72) == 7132 && Step(80) == 15289
  {
  }

  /** One more loud sample in front: from this state the ladder climbs to the next. */
  lemma Climb(st: State, step: int, n: nat)
    requires Step(st.index) == step && 32767 - st.predictor > 2 * step && st.index <= 80
    requires AllOutside(State(st.predictor + step / 8 + step + step / 2 + step / 4, st.index + 8), Loudest(n))
    ensures AllOutside(st, Loudest(n + 1))
  {
    hide Step, Advance, CodeOf;
    OverloadUp(st, 32767);
    assert Loudest(n + 1)[1..] == Loudest(n);
  }

  /** The last five of them. */
  lemma OverloadOfFive()
    ensures AllOutside(State(-31604, 48), Loudest(5))
  {
    hide Step;
    Rungs();
    assert AllOutside(State(20937, 88), Loudest(0));
    hide AllOutside, Loudest;
    Climb(State(-7729, 80), 15289, 0);
    Climb(State(-21101, 72), 7132, 1);
    Climb(State(-27337, 64), 3327, 2);
    Climb(State(-30247, 56), 1552, 3);
    Climb(State(-31604, 48), 724, 4);
  }

  /** Eleven is reached: a full-scale jump from the bottom of the ladder. */
  lemma OverloadOfEleven()
    ensures AllOutside(State(-32768, 0), Loudest(11))
  {
    hide Step, AllOutside, Loudest;
    Rungs();
    OverloadOfFive();
    Climb(State(-32235, 40), 337, 5);
    Climb(State(-32528, 32), 157, 6);
    Climb(State(-32664, 24), 73, 7);
    Climb(State(-32727, 16), 34, 8);
    Climb(State(-32757, 8), 16, 9);
    Climb(State(-32768, 0), 7, 10);
  }

  // Transcoding: encoding what was decoded

  /** How far past the clamp a code aims. */
  function Overshoot(st: State, c: Code): int { Abs(Target(st, c) - Advance(st, c).predictor) }

  /** The code for the same change, a difference of zero counted as positive. */
  function Positive(st: State, c: Code): Code {
    if c == 8 && Diff(Step(st.index), c) == 0 then 0 else c
  }

  /** A code aims past the clamp by no more than the rounding term, and not down from the floor by only that. */
  predicate Settles(st: State, c: Code) {
    Overshoot(st, c) <= Step(st.index) / 8 && !(c == 8 && Overshoot(st, c) > 0 && st.predictor == -32768)
  }

  lemma RoundingTermFits(step: int, delta: int, m: Code, over: int)
    requires step >= 7 && m < 8 && 0 <= over && delta == Diff(step, m) - over >= 0
    ensures RoundsDownTo(step, delta, m) <==> over <= step / 8
  {
  }

  /** A code survives decoding and encoding again exactly when it settles. */
  lemma CodeSurvivesIff(st: State, c: Code)
    ensures CodeOf(st, Advance(st, c).predictor) == Positive(st, c) <==> Settles(st, c)
  {
    hide Step, Level, Magnitude, RoundsDownTo;
    var step, m, sample := Step(st.index), c % 8, Advance(st, c).predictor;
    LevelOfMagnitude(step, c);
    ZeroLevel(step, m);
    var delta, over := Abs(sample - st.predictor), Overshoot(st, c);
    assert delta == Diff(step, m) - over;
    RoundingTermFits(step, delta, m, over);
    var got := Magnitude(step, delta);
    if over <= step / 8 {
      RoundsDownOnce(step, delta, m, got);
      assert CodeOf(st, sample) == (if sample < st.predictor then 8 else 0) + m;
      if sample == st.predictor && c >= 8 {
        assert m == 0 && c == 8;
      }
    } else {
      assert !RoundsDownTo(step, delta, m);
      assert CodeOf(st, sample) % 8 == got;
    }
  }

  lemma LevelOfMagnitude(step: int, c: Code)
    requires step >= 7
    ensures Level(step, c) == Level(step, c % 8) && 0 <= Level(step, c) <= 2 * step
  {
  }

  lemma ZeroLevel(step: int, m: Code)
    requires step >= 7 && m < 8
    ensures Level(step, m) == 0 <==> m == 0
  {
  }

  lemma PositiveMovesAlike(st: State, c: Code)
    ensures Advance(st, Positive(st, c)) == Advance(st, c)
  {
    hide Step;
    LevelOfMagnitude(Step(st.index), c);
  }

  predicate AllSettle(st: State, cs: seq<Code>)
    decreases |cs|
  {
    cs == [] || (Settles(st, cs[0]) && AllSettle(Advance(st, cs[0]), cs[1..]))
  }

  function AllPositive(st: State, cs: seq<Code>): (r: seq<Code>)
    ensures |r| == |cs|
    decreases |cs|
  {
    if cs == [] then [] else [Positive(st, cs[0])] + AllPositive(Advance(st, cs[0]), cs[1..])
  }

  /** Decoding and encoding again gives the same codes, zero differences positive, exactly when every code settles. */
  lemma {:induction false} TranscodeIff(st: State, cs: seq<Code>)
    ensures Codes(st, Pcm(st, cs)) == AllPositive(st, cs) <==> AllSettle(st, cs)
    decreases |cs|
  {
    hide Advance, CodeOf, Settles, Positive;
    if cs != [] {
      var c, next := cs[0], Advance(st, cs[0]);
      CodeSurvivesIff(st, c);
      PositiveMovesAlike(st, c);
      var again := Codes(st, Pcm(st, cs));
      assert Pcm(st, cs)[1..] == Pcm(next, cs[1..]);
      assert again[0] == CodeOf(st, next.predictor);
      assert AllPositive(st, cs)[0] == Positive(st, c);
      if Settles(st, c) {
        TranscodeIff(next, cs[1..]);
        assert again[1..] == Codes(next, Pcm(next, cs[1..]));
        assert AllPositive(st, cs)[1..] == AllPositive(next, cs[1..]);
      }
    }
  }

  lemma {:induction false} PositivePlaysAlike(st: State, cs: seq<Code>)
    ensures Pcm(st, AllPositive(st, cs)) == Pcm(st, cs) && After(st, AllPositive(st, cs)) == After(st, cs)
    decreases |cs|
  {
    hide Advance, Positive;
    if cs != [] {
      PositiveMovesAlike(st, cs[0]);
      PositivePlaysAlike(Advance(st, cs[0]), cs[1..]);
      assert AllPositive(st, cs)[1..] == AllPositive(Advance(st, cs[0]), cs[1..]);
    }
  }

  /** Transcoding stability: then the sound is the same, at every length, and so is the state it ends in. */
  lemma TranscodeIsStable(st: State, cs: seq<Code>)
    requires AllSettle(st, cs)
    ensures Pcm(st, Codes(st, Pcm(st, cs))) == Pcm(st, cs) && After(st, Codes(st, Pcm(st, cs))) == After(st, cs)
  {
    hide Pcm, Codes, AllSettle, AllPositive, After;
    TranscodeIff(st, cs);
    PositivePlaysAlike(st, cs);
  }

  // Sample by sample, the sound survives a little more often than the code

  /** How far the predictor can move the way a code points. */
  function Headroom(st: State, c: Code): int {
    if c >= 8 then st.predictor + 32768 else 32767 - st.predictor
  }

  /** Whether two magnitudes leave the ladder on the same rung. */
  predicate SameRung(index: Index, m: Code, n: Code) {
    m == n || (m < 4 && n < 4) || (m >= 4 && n >= 4 && index + Move(m) >= 88 && index + Move(n) >= 88)
  }

  /**
   A code that aims past the clamp is heard alike the second time when the headroom, rounded down, is
   missed by no more than the rounding term, leaves the ladder on the same rung, and keeps its sign.
   */
  predicate HeardAlike(st: State, c: Code) {
    var step, room := Step(st.index), Headroom(st, c);
    Overshoot(st, c) == 0
    || (&& room - Level(step, Magnitude(step, room)) <= step / 8
        && SameRung(st.index, Magnitude(step, room), c % 8)
        && (c >= 8 && room == 0 ==> step < 8))
  }

  /** The code a decoded sample encodes to, under the clamp: the headroom rounded down. */
  lemma ClampedRecode(st: State, c: Code)
    requires Overshoot(st, c) > 0
    ensures var step, room := Step(st.index), Headroom(st, c);
            CodeOf(st, Advance(st, c).predictor) == Magnitude(step, room) + if c >= 8 && room > 0 then 8 else 0
  {
    hide Step, Level, Magnitude;
    LevelOfMagnitude(Step(st.index), c);
  }

  lemma AgainIs(st: State, c: Code)
    requires Overshoot(st, c) > 0
    ensures var again := CodeOf(st, Advance(st, c).predictor);
            && again % 8 == Magnitude(Step(st.index), Headroom(st, c))
            && Move(again) == Move(Magnitude(Step(st.index), Headroom(st, c)))
  {
    hide Step, Magnitude, CodeOf, Advance, Headroom, Overshoot;
    ClampedRecode(st, c);
  }

  lemma RungsIff(index: Index, m: Code, n: Code)
    requires m <= n < 8
    ensures Clamp(index + Move(m), 0, 88) == Clamp(index + Move(n), 0, 88) <==> SameRung(index, m, n)
  {
  }

  lemma MoveOfSign(c: Code)
    ensures Move(c) == Move(c % 8)
  {
  }

  /** A code and what its sample encodes to take the decoder to the same state exactly in those cases. */
  lemma HeardAlikeIff(st: State, c: Code)
    ensures Advance(st, CodeOf(st, Advance(st, c).predictor)) == Advance(st, c) <==> HeardAlike(st, c)
  {
    hide Step, Level, Magnitude, Move, SameRung;
    if Overshoot(st, c) == 0 {
      CodeSurvivesIff(st, c);
      PositiveMovesAlike(st, c);
      assert Settles(st, c);
    } else {
      ClampedAlikeIff(st, c);
    }
  }

  lemma ClampedPredictorIff(st: State, c: Code)
    requires Overshoot(st, c) > 0
    ensures var step, room := Step(st.index), Headroom(st, c);
            Advance(st, CodeOf(st, Advance(st, c).predictor)).predictor == Advance(st, c).predictor <==>
            room - Level(step, Magnitude(step, room)) <= step / 8 && (c >= 8 && room == 0 ==> step < 8)
  {
    hide Step, Level, Magnitude, Move;
    var step, room := Step(st.index), Headroom(st, c);
    var m := Magnitude(step, room);
    var again := CodeOf(st, Advance(st, c).predictor);
    ClampedRecode(st, c);
    LevelOfMagnitude(step, again);
    LevelOfMagnitude(step, c);
    ZeroLevel(step, m);
    assert Advance(st, c).predictor == if c >= 8 then -32768 else 32767;
    assert again % 8 == m && Diff(step, again) == step / 8 + Level(step, m);
  }

  lemma ClampedIndexIff(st: State, c: Code)
    requires Overshoot(st, c) > 0
    ensures Advance(st, CodeOf(st, Advance(st, c).predictor)).index == Advance(st, c).index <==>
            SameRung(st.index, Magnitude(Step(st.index), Headroom(st, c)), c % 8)
  {
    hide Step, Magnitude, Move, SameRung, Target;
    var m := Magnitude(Step(st.index), Headroom(st, c));
    AgainIs(st, c);
    MoveOfSign(c);
    ClampedRoundsLower(st, c);
    RungsIff(st.index, m, c % 8);
    hide CodeOf, Headroom, Overshoot;
  }

  lemma ClampedAlikeIff(st: State, c: Code)
    requires Overshoot(st, c) > 0
    ensures Advance(st, CodeOf(st, Advance(st, c).predictor)) == Advance(st, c) <==> HeardAlike(st, c)
  {
    hide Step, Magnitude, SameRung, Advance, CodeOf, Overshoot;
    ClampedPredictorIff(st, c);
    ClampedIndexIff(st, c);
    SameState(Advance(st, CodeOf(st, Advance(st, c).predictor)), Advance(st, c));
  }

  lemma SameState(a: State, b: State)
    ensures a == b <==> a.predictor == b.predictor && a.index == b.index
  {
  }

  /** The headroom is smaller than what the code aims for, so it rounds down no higher. */
  lemma ClampedRoundsLower(st: State, c: Code)
    requires Overshoot(st, c) > 0
    ensures Magnitude(Step(st.index), Headroom(st, c)) <= c % 8
    ensures 0 <= Headroom(st, c) < Diff(Step(st.index), c)
  {
    hide Step, Magnitude;
    var step, room := Step(st.index), Headroom(st, c);
    LevelOfMagnitude(step, c);
    var m := Magnitude(step, room);
    if m > c % 8 {
      NextLevelAbove(step, c % 8);
      if m > c % 8 + 1 { LevelsRise(step, c % 8 + 1, m); }
    }
  }

  lemma NextLevelAbove(step: int, m: Code)
    requires step >= 7 && m < 7
    ensures Diff(step, m) < Level(step, m + 1)
  {
  }

  predicate AllHeardAlike(st: State, cs: seq<Code>)
    decreases |cs|
  {
    cs == [] || (HeardAlike(st, cs[0]) && AllHeardAlike(Advance(st, cs[0]), cs[1..]))
  }

  /** Codes that are each heard alike are heard alike together, whether or not the codes come back. */
  lemma {:induction false} HeardAlikeThroughout(st: State, cs: seq<Code>)
    requires AllHeardAlike(st, cs)
    ensures Pcm(st, Codes(st, Pcm(st, cs))) == Pcm(st, cs) && After(st, Codes(st, Pcm(st, cs))) == After(st, cs)
    decreases |cs|
  {
    hide Advance, CodeOf, HeardAlike;
    if cs != [] {
      var next := Advance(st, cs[0]);
      HeardAlikeIff(st, cs[0]);
      HeardAlikeThroughout(next, cs[1..]);
      var again := Codes(st, Pcm(st, cs));
      assert Pcm(st, cs)[1..] == Pcm(next, cs[1..]);
      assert again[1..] == Codes(next, Pcm(next, cs[1..]));
    }
  }

  predicate NeverClamped(st: State, cs: seq<Code>)
    decreases |cs|
  {
    cs == [] || (Overshoot(st, cs[0]) == 0 && NeverClamped(Advance(st, cs[0]), cs[1..]))
  }

  /** A run that never reaches the clamp settles throughout. */
  lemma {:induction false} UnclampedSettles(st: State, cs: seq<Code>)
    requires NeverClamped(st, cs)
    ensures AllSettle(st, cs)
    decreases |cs|
  {
    hide Advance, Overshoot;
    if cs != [] {
      UnclampedSettles(Advance(st, cs[0]), cs[1..]);
    }
  }

  /** A clamped one need not: from the floor of the range this single code comes back as another sound. */
  lemma ClampedDrifts()
    ensures var st := State(-32768, 88); Pcm(st, Codes(st, Pcm(st, [8]))) != Pcm(st, [8])
  {
    var st := State(-32768, 88);
    assert Advance(st, 8).predictor == -32768;
    assert CodeOf(st, -32768) == 0;
    assert Advance(st, 0).predictor == -28673;
    assert Pcm(st, [8])[0] == -32768;
    assert Codes(st, Pcm(st, [8]))[0] == 0;
  }
}
