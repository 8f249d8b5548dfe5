/** The readers Open returns: what they are worth when they are handed over, and until when. */
module PoolReaders {
  import opened Lists
  import opened Wrappers
  import opened Shared
  import opened PoolRuns
  import SharedRuns

  /** Reader id is on the connection: in the readers of its own stream. */
  predicate Listed(s: State, id: nat) {
    && id in s.subs && s.subs[id].key in s.previews
    && id in s.previews[s.subs[id].key].readers
  }

  /** Each list names readers of its own stream, and a closed connection lists nobody. */
  ghost predicate TableOk(s: State) {
    SharedRuns.ListedOk(s) && (s.closed ==> s.previews == map[])
  }

  ghost predicate ReadersOk(w: World) {
    && (forall c :: c in w.shared ==> TableOk(w.shared[c]))
    && (forall who :: who in w.calls && w.calls[who].Closing? ==>
          w.calls[who].c in w.shared && w.shared[w.calls[who].c].previews == map[])
  }

  // One connection

  lemma SubscribeTable(s: State, want: Want, id: nat, ok: bool)
    requires TableOk(s) && id !in s.subs
    ensures TableOk(AfterSubscribe(s, want.channel, want.stream, id, ok).1)
  {
    hide AfterStart, KeyFor;
  }

  lemma SubscribeListed(s: State, want: Want, id: nat, ok: bool, other: nat)
    requires TableOk(s) && id !in s.subs && other in s.subs
    ensures var s' := AfterSubscribe(s, want.channel, want.stream, id, ok).1;
            other in s'.subs && (Listed(s', other) <==> Listed(s, other))
  {
    hide AfterStart, KeyFor;
  }

  /** A reader a Subscribe gives out is listed on an open connection. */
  lemma SubscribeGives(s: State, want: Want, id: nat, ok: bool)
    requires id !in s.subs
    ensures var (r, s') := AfterSubscribe(s, want.channel, want.stream, id, ok);
            r.Reader? ==> Listed(s', id) && !s'.closed
  {
    hide AfterStart, KeyFor;
  }

  lemma LeaveTable(s: State, id: nat)
    requires TableOk(s) && id in s.subs
    ensures TableOk(AfterUnsubscribe(s, id))
  {
    SharedRuns.UnsubscribeKeepsListed(s, id);
  }

  lemma LeaveListed(s: State, id: nat, other: nat)
    requires TableOk(s) && id in s.subs && other in s.subs
    ensures var s' := AfterUnsubscribe(s, id);
            other in s'.subs && (Listed(s', other) <==> Listed(s, other) && other != id)
  {
    hide AfterStop, TableOk;
    var key := s.subs[id].key;
    assert AfterUnsubscribe(s, id).subs == s.subs;
    if key in s.previews && id in s.previews[key].readers {
      var left := s.previews[key].readers - {id};
      assert other in left <==> other in s.previews[key].readers && other != id;
    }
  }

  // Every step

  lemma JoinReaders(w: World, step: Step)
    requires Inv(w) && ReadersOk(w) && Enabled(w, step) && step.Join?
    ensures ReadersOk(Next(w, step))
  {
    hide AfterSubscribe, KeyFor, TableOk, LockOk, DialOk, WaitersOk, BoundOk, SeenOk, LeakOk, IdledOk;
    var a := w.calls[step.who];
    SubscribeTable(w.shared[a.pick], a.want, step.id, step.ok);
    forall who | who in w.calls && w.calls[who].Closing?
      ensures w.calls[who].c != a.pick
    {
      assert Holds(w.calls[who], w.calls[who].c);
    }
  }

  lemma FirstReaders(w: World, step: Step)
    requires Inv(w) && ReadersOk(w) && Enabled(w, step) && step.FirstSubscribe?
    ensures ReadersOk(Next(w, step))
  {
    hide AfterSubscribe, KeyFor, TableOk, LockOk, WaitersOk, BoundOk, GroupOk, ScanOk, LeakOk, IdledOk, DialOk;
    var a := w.calls[step.who];
    assert SawRight(w, a);
    SubscribeTable(w.shared[a.c], a.want, step.id, step.ok);
    SubscribeMeans(w.shared[a.c], a.want, step.id, step.ok);
    NoOtherOpener(w, step.who);
    assert forall who :: who in w.calls && w.calls[who].Closing? ==> InOpenNew(w.calls[who]);
  }

  lemma LeaveReaders(w: World, step: Step)
    requires ReadersOk(w) && Enabled(w, step) && step.Leave?
    ensures ReadersOk(Next(w, step))
  {
    hide AfterUnsubscribe, WentIdle, TableOk;
    LeaveTable(w.shared[step.c], step.id);
    LeaveMeans(w.shared[step.c], step.id);
    LeaveStaysEmpty(w.shared[step.c], step.id);
  }

  lemma LeaveStaysEmpty(s: State, id: nat)
    requires id in s.subs
    ensures s.previews == map[] ==> AfterUnsubscribe(s, id).previews == map[]
  {
  }

  lemma EndReaders(w: World, step: Step)
    requires ReadersOk(w) && Enabled(w, step) && step.ConnectionEnds?
    ensures ReadersOk(Next(w, step))
  {
  }

  lemma IdleReaders(w: World, step: Step)
    requires ReadersOk(w) && Enabled(w, step) && step.Idle?
    ensures ReadersOk(Next(w, step))
  {
    hide AfterConnClose;
    IdleLeavesCalls(w, step.c);
  }

  lemma CloseReaders(w: World, step: Step)
    requires ReadersOk(w) && Enabled(w, step) && step.CloseNew?
    ensures ReadersOk(Next(w, step))
  {
    hide AfterConnClose;
  }

  /** The rest touch no connection there is, and begin no closing. */
  ghost predicate TouchesNothing(w: World, step: Step, w': World) {
    && w'.shared == (if step.DialRecorder? then w.shared[step.c := Blank()] else w.shared)
    && (step.DialRecorder? ==> step.c !in w.shared)
    && forall who :: who in w'.calls && w'.calls[who].Closing? ==> who in w.calls && w.calls[who] == w'.calls[who]
  }

  lemma ScansTouchNothing(w: World, step: Step)
    requires Enabled(w, step) && OfScan(step) && !step.Join?
    ensures TouchesNothing(w, step, Next(w, step))
  {
    hide KeyFor;
  }

  lemma OthersTouchNothing(w: World, step: Step)
    requires Enabled(w, step)
    requires !step.Join? && !step.FirstSubscribe? && !OfShared(step) && !step.CloseNew?
    ensures TouchesNothing(w, step, Next(w, step))
  {
    hide KeyFor, AfterPrune, AfterLook, AfterRoom;
    if OfScan(step) {
      ScansTouchNothing(w, step);
    }
  }

  lemma OtherReaders(w: World, step: Step)
    requires ReadersOk(w) && Enabled(w, step)
    requires !step.Join? && !step.FirstSubscribe? && !OfShared(step) && !step.CloseNew?
    ensures ReadersOk(Next(w, step))
  {
    hide Enabled, Next;
    OthersTouchNothing(w, step);
  }

  lemma StepKeepsReaders(w: World, step: Step)
    requires Inv(w) && ReadersOk(w) && Enabled(w, step)
    ensures ReadersOk(Next(w, step))
  {
    hide Inv, ReadersOk, Enabled, Next;
    if step.Join? {
      JoinReaders(w, step);
    } else if step.FirstSubscribe? {
      FirstReaders(w, step);
    } else if step.Leave? {
      LeaveReaders(w, step);
    } else if step.ConnectionEnds? {
      EndReaders(w, step);
    } else if step.Idle? {
      IdleReaders(w, step);
    } else if step.CloseNew? {
      CloseReaders(w, step);
    } else {
      OtherReaders(w, step);
    }
  }

  /** The two steps that take a reader off its connection. */
  predicate TakesOff(step: Step, c: nat, id: nat) { step == Leave(c, id) || step == ConnectionEnds(c) }

  lemma ListedLeaves(w: World, step: Step, c: nat, id: nat)
    requires ReadersOk(w) && Enabled(w, step) && step.Leave? && c in w.shared && id in w.shared[c].subs
    ensures var w' := Next(w, step);
            && c in w'.shared && id in w'.shared[c].subs
            && (Listed(w'.shared[c], id) <==> Listed(w.shared[c], id) && !TakesOff(step, c, id))
  {
    hide AfterUnsubscribe, WentIdle, TableOk, Listed;
    if step.c == c {
      LeaveListed(w.shared[c], step.id, id);
    }
  }

  lemma ListedEnds(w: World, step: Step, c: nat, id: nat)
    requires Enabled(w, step) && step.ConnectionEnds? && c in w.shared && id in w.shared[c].subs
    ensures var w' := Next(w, step);
            && c in w'.shared && id in w'.shared[c].subs
            && (Listed(w'.shared[c], id) <==> Listed(w.shared[c], id) && !TakesOff(step, c, id))
  {
  }

  lemma ListedIdles(w: World, step: Step, c: nat, id: nat)
    requires Enabled(w, step) && (step.Idle? || step.CloseNew?) && c in w.shared && id in w.shared[c].subs
    ensures var w' := Next(w, step);
            && c in w'.shared && id in w'.shared[c].subs
            && (Listed(w'.shared[c], id) <==> Listed(w.shared[c], id))
  {
    hide Listed;
    ClosesOnly(w, step);
    var s, s' := w.shared[c], Next(w, step).shared[c];
    assert s'.subs == s.subs && s'.previews == s.previews;
    ListedSame(s, s', id);
  }

  lemma ListedSame(s: State, s': State, id: nat)
    requires s'.subs == s.subs && s'.previews == s.previews && id in s.subs
    ensures Listed(s', id) <==> Listed(s, id)
  {
  }

  /** Closing leaves every connection's readers and previews. */
  lemma ClosesOnly(w: World, step: Step)
    requires Enabled(w, step) && (step.Idle? || step.CloseNew?)
    ensures Next(w, step).shared.Keys == w.shared.Keys
    ensures forall c :: c in w.shared ==>
              Next(w, step).shared[c].subs == w.shared[c].subs
              && Next(w, step).shared[c].previews == w.shared[c].previews
  {
    hide AfterIdle, AfterConnClose;
    if step.Idle? {
      IdleCloses(w, step.c);
    }
  }

  lemma IdleCloses(w: World, c: nat)
    requires c in w.shared
    ensures var w' := AfterIdle(w, c);
            && w'.shared.Keys == w.shared.Keys
            && w'.shared[c].subs == w.shared[c].subs && w'.shared[c].previews == w.shared[c].previews
            && forall x :: x in w.shared && x != c ==> w'.shared[x] == w.shared[x]
  {
    hide AfterConnClose, RemoveFirst;
  }

  lemma ListedSubscribes(w: World, step: Step, c: nat, id: nat)
    requires ReadersOk(w) && Enabled(w, step) && (step.Join? || step.FirstSubscribe?)
    requires c in w.shared && id in w.shared[c].subs
    ensures var w' := Next(w, step);
            && c in w'.shared && id in w'.shared[c].subs
            && (Listed(w'.shared[c], id) <==> Listed(w.shared[c], id))
  {
    hide AfterSubscribe, KeyFor, TableOk, Listed;
    var a := w.calls[step.who];
    var on := if step.Join? then a.pick else a.c;
    if on == c {
      SubscribeListed(w.shared[c], a.want, step.id, step.ok, id);
    }
  }

  /** A reader that is listed stays so until it leaves or its connection ends, and one that is not stays off. */
  lemma ListedStep(w: World, step: Step, c: nat, id: nat)
    requires ReadersOk(w) && Enabled(w, step) && c in w.shared && id in w.shared[c].subs
    ensures var w' := Next(w, step);
            && c in w'.shared && id in w'.shared[c].subs
            && (Listed(w'.shared[c], id) <==> Listed(w.shared[c], id) && !TakesOff(step, c, id))
  {
    hide ReadersOk, Enabled, Next, Listed;
    if step.Leave? {
      ListedLeaves(w, step, c, id);
    } else if step.ConnectionEnds? {
      ListedEnds(w, step, c, id);
    } else if step.Idle? || step.CloseNew? {
      ListedIdles(w, step, c, id);
    } else if step.Join? || step.FirstSubscribe? {
      ListedSubscribes(w, step, c, id);
    } else {
      OthersTouchNothing(w, step);
    }
  }

  // Runs

  lemma StartReaders(max: nat)
    ensures ReadersOk(Start(max))
  {
  }

  lemma {:induction false} RunKeepsReaders(w: World, steps: seq<Step>)
    requires Inv(w) && ReadersOk(w) && IsRun(w, steps)
    ensures Inv(Final(w, steps)) && ReadersOk(Final(w, steps))
    decreases |steps|
  {
    hide Inv, ReadersOk, Enabled, Next;
    if steps != [] {
      StepKeepsInv(w, steps[0]);
      StepKeepsReaders(w, steps[0]);
      RunKeepsReaders(Next(w, steps[0]), steps[1..]);
    }
  }

  /** Over any run: a reader is listed at the end exactly if it was at the start and nothing took it off. */
  lemma {:induction false} ListedAtEndIff(w: World, steps: seq<Step>, c: nat, id: nat)
    requires Inv(w) && ReadersOk(w) && IsRun(w, steps) && c in w.shared && id in w.shared[c].subs
    ensures var f := Final(w, steps);
            && c in f.shared && id in f.shared[c].subs
            && (Listed(f.shared[c], id) <==>
                  Listed(w.shared[c], id) && Leave(c, id) !in steps && ConnectionEnds(c) !in steps)
    decreases |steps|
  {
    hide Inv, ReadersOk, Enabled, Next, Listed;
    if steps != [] {
      StepKeepsInv(w, steps[0]);
      StepKeepsReaders(w, steps[0]);
      ListedStep(w, steps[0], c, id);
      ListedAtEndIff(Next(w, steps[0]), steps[1..], c, id);
      assert forall x :: x in steps <==> x == steps[0] || x in steps[1..];
    }
  }

  /** A reader in good standing: listed, on a connection that is open and that idle has not closed. */
  predicate Good(w: World, c: nat, id: nat) {
    c in w.shared && Listed(w.shared[c], id) && !w.shared[c].closed && c !in w.idled
  }

  lemma ListedIsGood(w: World, c: nat, id: nat)
    requires Inv(w) && ReadersOk(w) && c in w.shared && Listed(w.shared[c], id)
    ensures Good(w, c, id)
  {
    hide LockOk, DialOk, WaitersOk, GroupOk, ScanOk, BoundOk, SeenOk, LeakOk, SharedRuns.ListedOk;
  }

  /** From an existing connection, Open returns a reader in good standing, always. */
  lemma {:induction false} JoinReturnsGood(max: nat, steps: seq<Step>, who: nat, id: nat, ok: bool)
    requires max >= 1 && IsRun(Start(max), steps) && Enabled(Final(Start(max), steps), Join(who, id, ok))
    ensures var w' := Next(Final(Start(max), steps), Join(who, id, ok));
            w'.calls[who].Returned? && w'.calls[who].result.GotReader? ==>
              w'.calls[who].result.id == id && Good(w', w'.calls[who].result.c, id)
  {
    hide Inv, ReadersOk, Good, Listed, AfterSubscribe, KeyFor;
    StartInv(max);
    StartReaders(max);
    RunKeepsReaders(Start(max), steps);
    var w := Final(Start(max), steps);
    StepKeepsInv(w, Join(who, id, ok));
    StepKeepsReaders(w, Join(who, id, ok));
    var w' := Next(w, Join(who, id, ok));
    var a := w.calls[who];
    SubscribeGives(w.shared[a.pick], a.want, id, ok);
    if w'.calls[who].Returned? && w'.calls[who].result.GotReader? {
      ListedIsGood(w', a.pick, id);
    }
  }

  /**
   From a new connection, the reader Open returns is in good standing exactly if, since the first
   Subscribe on that connection, it has not been dropped or closed and the connection has not ended.
   */
  lemma {:induction false} OpenedReturnsGoodIff(max: nat, before: seq<Step>, who: nat, id: nat, ok: bool,
                                                c: nat, steps: seq<Step>)
    requires max >= 1 && IsRun(Start(max), before)
    requires Enabled(Final(Start(max), before), FirstSubscribe(who, id, ok))
    requires var w := Next(Final(Start(max), before), FirstSubscribe(who, id, ok));
             && w.calls[who] == Publishing(c, id) && IsRun(w, steps)
             && who in Final(w, steps).calls && Final(w, steps).calls[who] == Returned(GotReader(c, id))
    ensures var w := Next(Final(Start(max), before), FirstSubscribe(who, id, ok));
            Good(Final(w, steps), c, id) <==> Leave(c, id) !in steps && ConnectionEnds(c) !in steps
  {
    hide Inv, ReadersOk, Listed, AfterSubscribe, KeyFor;
    StartInv(max);
    StartReaders(max);
    RunKeepsReaders(Start(max), before);
    var w0 := Final(Start(max), before);
    var first := FirstSubscribe(who, id, ok);
    StepKeepsInv(w0, first);
    StepKeepsReaders(w0, first);
    var w := Next(w0, first);
    FirstLists(w0, first);
    RunKeepsReaders(w, steps);
    ListedAtEndIff(w, steps, c, id);
    if Listed(Final(w, steps).shared[c], id) {
      ListedIsGood(Final(w, steps), c, id);
    }
  }

  lemma FirstLists(w: World, step: Step)
    requires Enabled(w, step) && step.FirstSubscribe?
    ensures var w' := Next(w, step);
            w'.calls[step.who].Publishing? ==>
              var c := w'.calls[step.who].c;
              && w'.calls[step.who].id == step.id && c in w'.shared && step.id in w'.shared[c].subs
              && Listed(w'.shared[c], step.id)
  {
    hide AfterSubscribe, KeyFor;
    var a := w.calls[step.who];
    SubscribeGives(w.shared[a.c], a.want, step.id, step.ok);
  }

  // The one case in which a reader comes back on a connection idle has closed

  lemma OnlyReaderLeaves(want: Want, id: nat)
    ensures var s := AfterSubscribe(Blank(), want.channel, want.stream, id, true).1;
            && id in s.subs && !s.closed && WentIdle(s, id)
            && AfterUnsubscribe(s, id).previews == map[] && !AfterUnsubscribe(s, id).closed
  {
    hide KeyFor, AfterStop, AfterStart;
  }

  /** A new connection with its first reader, not yet published. */
  lemma {:induction false} OpensAlone(w: World, who: nat, c: nat, id: nat) returns (steps: seq<Step>)
    requires who in w.calls && w.calls[who].Dialing? && Free(w) && c !in w.shared
    ensures IsRun(w, steps)
    ensures var want := w.calls[who].want;
            var s := AfterSubscribe(Blank(), want.channel, want.stream, id, true).1;
            Final(w, steps) == w.(shared := w.shared[c := s], calls := w.calls[who := Publishing(c, id)])
  {
    hide AfterSubscribe, KeyFor;
    var want := w.calls[who].want;
    var w1 := Next(w, DialRecorder(who, c));
    JoinSucceeds(Blank(), want, id);
    OneStep(w1, FirstSubscribe(who, id, true));
    MoreSteps(w, DialRecorder(who, c), [FirstSubscribe(who, id, true)]);
    steps := [DialRecorder(who, c)] + [FirstSubscribe(who, id, true)];
    var f := Next(w1, FirstSubscribe(who, id, true));
    assert f.calls == w.calls[who := Publishing(c, id)] && f.shared.Keys == w.shared.Keys + {c};
    assert forall x :: x in w.shared && x != c ==> f.shared[x] == w.shared[x];
  }

  /** The last reader of a connection leaves, and idle closes it. */
  lemma {:induction false} LeavesIdle(w: World, c: nat, id: nat) returns (steps: seq<Step>)
    requires c in w.shared && id in w.shared[c].subs && WentIdle(w.shared[c], id) && Free(w)
    requires AfterUnsubscribe(w.shared[c], id).previews == map[] && !AfterUnsubscribe(w.shared[c], id).closed
    ensures IsRun(w, steps)
    ensures var f := Final(w, steps); c in f.idled && f.calls == w.calls && f.mu.None?
  {
    hide AfterUnsubscribe, WentIdle, AfterConnClose, RemoveFirst;
    var w1 := Next(w, Leave(c, id));
    OneStep(w1, Idle(c));
    MoreSteps(w, Leave(c, id), [Idle(c)]);
    steps := [Leave(c, id)] + [Idle(c)];
  }

  lemma {:induction false} PublishAndReturn(w: World, who: nat, c: nat, id: nat) returns (steps: seq<Step>)
    requires who in w.calls && w.calls[who] == Publishing(c, id) && Free(w)
    ensures IsRun(w, steps)
    ensures var f := Final(w, steps);
            && who in f.calls && f.calls[who] == Returned(GotReader(c, id)) && f.idled == w.idled
            && f.group == w.group + [c] && f.shared == w.shared && f.mu.None? && f.dialing.None?
            && f.camera == w.camera && f.max == w.max && f.calls.Keys == w.calls.Keys
  {
    var w1 := Next(w, Publish(who));
    OneStep(w1, EndDial(who));
    MoreSteps(w, Publish(who), [EndDial(who)]);
    steps := [Publish(who)] + [EndDial(who)];
  }

  /** From the empty pool: Open returns a reader on a connection that idle has closed, its reader already gone. */
  lemma {:induction false} ReturnedOnIdled(max: nat, want: Want) returns (steps: seq<Step>)
    ensures IsRun(Start(max), steps)
    ensures var f := Final(Start(max), steps);
            0 in f.calls && f.calls[0] == Returned(GotReader(0, 0)) && 0 in f.idled
  {
    hide Enabled, Next, AfterSubscribe, AfterUnsubscribe, WentIdle;
    var s1 := LogsIn(Start(max), 0, want);
    var w1 := Final(Start(max), s1);
    var s2 := OpensAlone(w1, 0, 0, 0);
    var w2 := Final(w1, s2);
    OnlyReaderLeaves(want, 0);
    var s3 := LeavesIdle(w2, 0, 0);
    var w3 := Final(w2, s3);
    var s4 := PublishAndReturn(w3, 0, 0, 0);
    RunOn(w2, s3, s4);
    RunOn(w1, s2, s3 + s4);
    RunOn(Start(max), s1, s2 + (s3 + s4));
    steps := s1 + (s2 + (s3 + s4));
  }
}
