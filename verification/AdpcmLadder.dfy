/** The ladder of ADPCM steps: how it grows, and how a run of samples or of codes moves along it. */
module AdpcmLadder {
  import opened Bytes
  import opened Adpcm

  // The steps

  /** Each step is a tenth more than the one before, to within one. */
  predicate TenthMore(a: int, b: int) { a < b && -10 < 10 * b - 11 * a < 10 }

  lemma LowGrows(i: nat)
    requires 0 < i < 20
    ensures TenthMore(LowSteps()[i - 1], LowSteps()[i])
  {
  }

  lemma LowGrowsOn(i: nat)
    requires 20 <= i < 37
    ensures TenthMore(LowSteps()[i - 1], LowSteps()[i])
  {
  }

  lemma MiddleGrows(i: nat)
    requires 0 < i < 26
    ensures TenthMore(MiddleSteps()[i - 1], MiddleSteps()[i])
  {
  }

  lemma HighGrows(i: nat)
    requires 0 < i < 25
    ensures TenthMore(HighSteps()[i - 1], HighSteps()[i])
  {
  }

  /** Where one list of steps ends and the next begins. */
  lemma Joints()
    ensures LowSteps()[0] == 7 && TenthMore(LowSteps()[36], MiddleSteps()[0])
    ensures TenthMore(MiddleSteps()[25], HighSteps()[0]) && HighSteps()[24] < HighSteps()[25] == 32767
  {
  }

  /** The ladder goes up by a tenth a rung from 7, to the largest sample in place of the last. */
  lemma StepsGrow(i: nat)
    requires i < 88
    ensures Step(0) == 7 && Step(88) == 32767
    ensures if i < 87 then TenthMore(Step(i), Step(i + 1)) else Step(i) < Step(i + 1)
  {
    hide LowSteps, MiddleSteps, HighSteps, TenthMore;
    Joints();
    var t := StepTable();
    if i < 36 {
      if i < 19 {
        LowGrows(i + 1);
      } else {
        LowGrowsOn(i + 1);
      }
      assert t[i] == LowSteps()[i] && t[i + 1] == LowSteps()[i + 1];
    } else if 37 <= i < 62 {
      MiddleGrows(i - 36);
      assert t[i] == MiddleSteps()[i - 37] && t[i + 1] == MiddleSteps()[i - 36];
    } else if 63 <= i < 87 {
      HighGrows(i - 62);
      assert t[i] == HighSteps()[i - 63] && t[i + 1] == HighSteps()[i - 62];
    }
  }

  // Moving along it

  /** Codes of the lower four magnitudes take the ladder down a rung each, to the bottom and no further. */
  lemma {:induction false} QuietDescends(st: State, cs: seq<Code>)
    requires forall c :: c in cs ==> c % 8 < 4
    ensures After(st, cs).index == Max(0, st.index - |cs|)
    decreases |cs|
  {
    hide Step, Target;
    if cs != [] {
      assert cs[0] in cs && forall c :: c in cs[1..] ==> c in cs;
      QuietDescends(Advance(st, cs[0]), cs[1..]);
    }
  }

  /** The upper four take it up by two, four, six and eight, to the top and no further. */
  lemma LoudClimbs(st: State, c: Code)
    ensures c % 8 == 4 ==> Advance(st, c).index == Min(88, st.index + 2)
    ensures c % 8 == 5 ==> Advance(st, c).index == Min(88, st.index + 4)
    ensures c % 8 == 6 ==> Advance(st, c).index == Min(88, st.index + 6)
    ensures c % 8 == 7 ==> Advance(st, c).index == Min(88, st.index + 8)
  {
    hide Step, Target;
  }

  /** Where a sample takes the ladder, by its distance from the predictor in quarters of the step. */
  lemma SampleMoves(st: State, sample: int16)
    ensures var step, far, there := Step(st.index), Abs(sample - st.predictor),
                                    Advance(st, CodeOf(st, sample)).index;
            && (far < step ==> there == Max(0, st.index - 1))
            && (step <= far < step + step / 4 ==> there == Min(88, st.index + 2))
            && (step + step / 4 <= far < step + step / 2 ==> there == Min(88, st.index + 4))
            && (step + step / 2 <= far < step + step / 2 + step / 4 ==> there == Min(88, st.index + 6))
            && (step + step / 2 + step / 4 <= far ==> there == Min(88, st.index + 8))
  {
    hide Step, Target, Magnitude;
    var step, far := Step(st.index), Abs(sample - st.predictor);
    var m := Magnitude(step, far);
    if far < step {
      Below(step, far, m);
    } else {
      RoundsDownOnce(step, far, m, if far < step + step / 4 then 4 else if far < step + step / 2 then 5
                                   else if far < step + step / 2 + step / 4 then 6 else 7);
    }
  }

  lemma Below(step: int, far: int, m: Code)
    requires step >= 7 && 0 <= far < step && RoundsDownTo(step, far, m)
    ensures m < 4
  {
  }
}
