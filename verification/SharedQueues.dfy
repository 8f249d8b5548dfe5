/** Readers' queues on a shared connection, and why readers end, over every run. */
module SharedQueues {
  import opened Wrappers
  import opened Shared
  import opened SharedRuns

  /** No queue holds more than its channel has room for, and what is queued is the end of what was sent. */
  ghost predicate QueuesOk(w: World) {
    forall id :: id in w.s.subs ==> w.s.subs[id].queued <= QUEUE && w.s.subs[id].queued <= |w.s.subs[id].log|
  }

  /** A reader is told that the connection ended only when it has. */
  ghost predicate ReasonsOk(w: World) {
    && (w.phase.Ending? || w.phase.Done? ==> w.s.closed)
    && (forall id :: id in w.s.subs && w.s.subs[id].end == Some(ConnectionEnded) ==> w.s.closed)
  }

  lemma SubscribeQueues(s: State, channel: int, stream: string, id: nat, ok: bool)
    requires id !in s.subs
    ensures var s' := AfterSubscribe(s, channel, stream, id, ok).1;
            && s'.closed == s.closed
            && (forall x :: x in s'.subs && x != id ==> x in s.subs && s'.subs[x] == s.subs[x])
            && (id in s'.subs ==> s'.subs[id].queued == |s'.subs[id].log| <= 1 && s'.subs[id].end.None?)
  {
    hide KeyFor;
  }

  lemma StepKeepsQueues(w: World, step: Step)
    requires QueuesOk(w) && ReasonsOk(w) && Enabled(w, step)
    ensures QueuesOk(Next(w, step)) && ReasonsOk(Next(w, step))
  {
    hide Next, Enabled;
    match step
    case Subscribe(_, _, _, _) => JoinQueues(w, step);
    case Route(m) => RouteQueues(w, m);
    case CloseQuit(_) => ReaderQueues(w, step);
    case TakeOne(_) => ReaderQueues(w, step);
    case Deliver(_, _) => DeliverQueues(w, step);
    case EndReader(_) => DeliverQueues(w, step);
    case _ => OtherQueues(w, step);
  }

  lemma JoinQueues(w: World, step: Step)
    requires QueuesOk(w) && ReasonsOk(w) && Enabled(w, step) && step.Subscribe?
    ensures QueuesOk(Next(w, step)) && ReasonsOk(Next(w, step))
  {
    hide AfterSubscribe, KeyFor;
    SubscribeQueues(w.s, step.channel, step.stream, step.id, step.ok);
  }

  lemma ReaderQueues(w: World, step: Step)
    requires QueuesOk(w) && ReasonsOk(w) && Enabled(w, step) && (step.CloseQuit? || step.TakeOne?)
    ensures QueuesOk(Next(w, step)) && ReasonsOk(Next(w, step))
  {
  }

  lemma DeliverQueues(w: World, step: Step)
    requires QueuesOk(w) && ReasonsOk(w) && Enabled(w, step) && (step.Deliver? || step.EndReader?)
    ensures QueuesOk(Next(w, step)) && ReasonsOk(Next(w, step))
  {
  }

  lemma OtherQueues(w: World, step: Step)
    requires QueuesOk(w) && ReasonsOk(w) && Enabled(w, step)
    requires !step.Subscribe? && !step.Route? && !step.CloseQuit? && !step.TakeOne? && !step.Deliver?
    requires !step.EndReader?
    ensures QueuesOk(Next(w, step)) && ReasonsOk(Next(w, step))
  {
    hide AfterStop, AfterConnClose, KeyOf;
  }

  lemma RouteQueues(w: World, m: Message)
    requires QueuesOk(w) && ReasonsOk(w) && Enabled(w, Route(m))
    ensures QueuesOk(Next(w, Route(m))) && ReasonsOk(Next(w, Route(m)))
  {
    hide KeyOf, Wants, IsInfoMessage, IsStatus;
  }

  /**
   In every run: a reader's queue never passes 256 messages and is the tail of its log, so it has taken all the
   others; and one that was told the connection ended was told so of a connection that is closed. A reader on an
   open connection can have ended only because it stalled.
   */
  lemma {:induction false} QueuesInRun(steps: seq<Step>, id: nat)
    requires IsRun(Start(), steps) && id in Final(Start(), steps).s.subs
    ensures var w := Final(Start(), steps);
            && w.s.subs[id].queued <= 256 && w.s.subs[id].queued <= |w.s.subs[id].log|
            && (!w.s.closed ==> w.s.subs[id].end.None? || w.s.subs[id].end.value.ReaderStalled?)
  {
    hide Next, Enabled;
    RunKeepsQueues(Start(), steps);
  }

  lemma {:induction false} RunKeepsQueues(w: World, steps: seq<Step>)
    requires QueuesOk(w) && ReasonsOk(w) && IsRun(w, steps)
    ensures QueuesOk(Final(w, steps)) && ReasonsOk(Final(w, steps))
    decreases |steps|
  {
    hide Next, Enabled, QueuesOk, ReasonsOk;
    if steps != [] {
      StepKeepsQueues(w, steps[0]);
      RunKeepsQueues(Next(w, steps[0]), steps[1..]);
    }
  }
}
