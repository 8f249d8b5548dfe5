/** A login under way comes to its end, and wakes the calls that wait for it. */
module PoolProgress {
  import opened Wrappers
  import opened Shared
  import opened PoolRuns

  /** The steps a call in openNew has left to make, at most. */
  function StepsLeft(a: At): (n: nat)
    ensures n > 0 <==> InOpenNew(a)
    ensures n <= 4
  {
    match a
    case Dialing(_) => 4
    case Opened(_, _) => 3
    case Marking => 2
    case Publishing(_, _) => 2
    case Closing(_) => 2
    case Ending(_) => 1
    case _ => 0
  }

  /** The step is one that the call itself makes. */
  predicate Own(step: Step, who: nat) {
    match step
    case Leave(_, _) => false
    case ConnectionEnds(_) => false
    case Idle(_) => false
    case _ => step.who == who
  }

  lemma OpenerAlone(w: World, step: Step, who: nat)
    requires Enabled(w, step) && who in w.calls && InOpenNew(w.calls[who]) && !OfOpenNew(step) && !step.EndDial?
    ensures !Own(step, who) && who in Next(w, step).calls && Next(w, step).calls[who] == w.calls[who]
  {
    hide AfterIdle, AfterLeave, KeyFor, AfterSubscribe;
    if OfShared(step) {
      SharedLeavesCalls(w, step);
    }
  }

  /** Each step of a call in openNew brings it nearer to its end, and no other step moves it. */
  lemma OpenerOnlyAdvances(w: World, step: Step, who: nat)
    requires Enabled(w, step) && who in w.calls && InOpenNew(w.calls[who])
    ensures who in Next(w, step).calls
    ensures Own(step, who) ==> StepsLeft(Next(w, step).calls[who]) < StepsLeft(w.calls[who])
    ensures !Own(step, who) ==> Next(w, step).calls[who] == w.calls[who]
  {
    hide AfterSubscribe, KeyFor, AfterConnClose, AfterIdle, AfterLeave, AfterPrune, AfterLook, AfterRoom, AfterJoin,
      AfterWaitOrDial;
    if !OfOpenNew(step) && !step.EndDial? {
      OpenerAlone(w, step, who);
    }
  }

  /** A call that has returned makes no more steps. */
  lemma ReturnedStays(w: World, step: Step, who: nat)
    requires Enabled(w, step) && who in w.calls && w.calls[who].Returned?
    ensures !Own(step, who) && who in Next(w, step).calls && Next(w, step).calls[who] == w.calls[who]
  {
    hide AfterIdle, AfterLeave, KeyFor, AfterSubscribe, AfterConnClose;
    if OfShared(step) {
      SharedLeavesCalls(w, step);
    }
  }

  function OwnSteps(steps: seq<Step>, who: nat): nat {
    if steps == [] then 0 else (if Own(steps[0], who) then 1 else 0) + OwnSteps(steps[1..], who)
  }

  /**
   Over every run, whatever the other calls and connections do, a call in openNew makes at most four
   more steps of its own, and is in openNew or has returned throughout.
   */
  lemma {:induction false} OpenerIsBounded(w: World, steps: seq<Step>, who: nat)
    requires IsRun(w, steps) && who in w.calls && (InOpenNew(w.calls[who]) || w.calls[who].Returned?)
    ensures var f := Final(w, steps);
            && who in f.calls && (InOpenNew(f.calls[who]) || f.calls[who].Returned?)
            && OwnSteps(steps, who) + StepsLeft(f.calls[who]) <= StepsLeft(w.calls[who])
    decreases |steps|
  {
    hide Enabled, Next, InOpenNew, StepsLeft;
    if steps != [] {
      OpenerStays(w, steps[0], who);
      OpenerIsBounded(Next(w, steps[0]), steps[1..], who);
    }
  }

  lemma OpenerStays(w: World, step: Step, who: nat)
    requires Enabled(w, step) && who in w.calls && (InOpenNew(w.calls[who]) || w.calls[who].Returned?)
    ensures var w' := Next(w, step);
            && who in w'.calls && (InOpenNew(w'.calls[who]) || w'.calls[who].Returned?)
            && (if Own(step, who) then 1 else 0) + StepsLeft(w'.calls[who]) <= StepsLeft(w.calls[who])
  {
    hide AfterSubscribe, KeyFor, AfterConnClose, AfterIdle, AfterLeave, AfterPrune, AfterLook, AfterRoom, AfterJoin,
      AfterWaitOrDial;
    if InOpenNew(w.calls[who]) {
      OpenerOnlyAdvances(w, step, who);
    } else {
      ReturnedStays(w, step, who);
    }
  }

  lemma {:induction false} FreshReader(ids: set<nat>) returns (id: nat)
    ensures forall x :: x in ids ==> x < id
    decreases ids
  {
    id := 0;
    if ids != {} {
      var y :| y in ids;
      var m := FreshReader(ids - {y});
      id := if y < m then m else y + 1;
      assert forall x :: x in ids ==> x == y || x in ids - {y};
    }
  }

  /** With the mutex free a call in openNew can take its next step, and the mutex is free after it. */
  lemma {:induction false} OpenerCanMove(w: World, who: nat) returns (step: Step)
    requires GroupOk(w) && Free(w) && who in w.calls && InOpenNew(w.calls[who])
    ensures Enabled(w, step) && Own(step, who)
    ensures var w' := Next(w, step);
            && Free(w') && who in w'.calls && StepsLeft(w'.calls[who]) < StepsLeft(w.calls[who])
            && (w.calls[who].Ending? ==> w'.calls[who].Returned? && step == EndDial(who))
            && (!w.calls[who].Ending? ==> InOpenNew(w'.calls[who]) && w'.dialing == w.dialing)
  {
    hide AfterSubscribe, KeyFor, AfterConnClose;
    match w.calls[who]
    case Dialing(_) => step := DialFails(who);
    case Marking => step := Mark(who);
    case Opened(_, c) =>
      assert Holds(w.calls[who], c);
      var id := FreshReader(w.shared[c].subs.Keys);
      step := FirstSubscribe(who, id, true);
    case Publishing(_, _) => step := Publish(who);
    case Closing(c) =>
      assert Holds(w.calls[who], c);
      step := CloseNew(who);
    case Ending(_) => step := EndDial(who);
  }

  /** With the mutex free, at most four steps of the call alone end its login and close its waiters' channel. */
  lemma {:induction false} LoginEnds(w: World, who: nat) returns (steps: seq<Step>)
    requires Inv(w) && Free(w) && who in w.calls && InOpenNew(w.calls[who])
    ensures IsRun(w, steps) && |steps| <= StepsLeft(w.calls[who]) && forall step :: step in steps ==> Own(step, who)
    ensures var f := Final(w, steps);
            && who in f.calls && f.calls[who].Returned?
            && w.dialing.Some? && w.dialing.value.ch in f.woken
    decreases StepsLeft(w.calls[who])
  {
    hide Inv, Enabled, Next;
    DialIsOn(w, who);
    var step := OpenerCanMove(w, who);
    var w' := Next(w, step);
    StepKeepsInv(w, step);
    if w.calls[who].Ending? {
      EndWakes(w, who);
      OneStep(w, step);
      steps := [step];
    } else {
      var rest := LoginEnds(w', who);
      MoreSteps(w, step, rest);
      steps := [step] + rest;
    }
  }

  lemma DialIsOn(w: World, who: nat)
    requires Inv(w) && who in w.calls && InOpenNew(w.calls[who])
    ensures GroupOk(w) && w.dialing.Some?
  {
    hide LockOk, WaitersOk, ScanOk, BoundOk, SeenOk, LeakOk, IdledOk;
  }

  lemma EndWakes(w: World, who: nat)
    requires who in w.calls && w.calls[who].Ending? && Free(w) && w.dialing.Some?
    ensures Enabled(w, EndDial(who)) && w.dialing.value.ch in Next(w, EndDial(who)).woken
  {
  }
}
