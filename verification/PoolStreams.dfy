/** When a stream runs on two connections of a pool at once. */
module PoolStreams {
  import opened Lists
  import opened Wrappers
  import opened Shared
  import opened PoolRuns
  import PoolReaders

  /** Published connection c carries the stream. */
  predicate Carries(w: World, c: nat, k: Key) { c in w.group && c in w.shared && k in w.shared[c].previews }

  ghost predicate Doubled(w: World, k: Key) {
    exists c, d :: c != d && Carries(w, c, k) && Carries(w, d, k)
  }

  /** The one step that doubles a stream: publishing it beside a connection that already carries it. */
  ghost predicate Doubles(w: World, step: Step, k: Key) {
    && step.Publish? && step.who in w.calls && w.calls[step.who].Publishing?
    && w.calls[step.who].c in w.shared && k in w.shared[w.calls[step.who].c].previews
    && exists c :: Carries(w, c, k)
  }

  /** Not doubled, and no call is about to put the stream on one connection while another carries it. */
  ghost predicate Single(w: World, k: Key) {
    && (forall c, d :: Carries(w, c, k) && Carries(w, d, k) ==> c == d)
    && (forall who :: who in w.calls && w.calls[who].Joining? && KeyOfWant(w.calls[who].want) == k ==>
          forall c :: Carries(w, c, k) ==> c == w.calls[who].pick)
  }

  lemma SingleIsNotDoubled(w: World, k: Key)
    requires Single(w, k)
    ensures !Doubled(w, k)
  {
  }

  // Steps that keep a stream single

  /** No connection gains the stream, none joins the group, and no call comes to join one. */
  lemma FewerCarry(w: World, w': World, k: Key)
    requires Single(w, k)
    requires forall c :: Carries(w', c, k) ==> Carries(w, c, k)
    requires forall who :: who in w'.calls && w'.calls[who].Joining? ==> who in w.calls && w.calls[who] == w'.calls[who]
    ensures Single(w', k)
  {
  }

  lemma SharedFewer(w: World, step: Step, c: nat, k: Key)
    requires GroupOk(w) && Enabled(w, step) && OfShared(step) && Carries(Next(w, step), c, k)
    ensures Carries(w, c, k)
  {
    hide Next, Enabled, Distinct;
    SharedShrinks(w, step);
    SharedGroup(w, step);
  }

  lemma SharedGroup(w: World, step: Step)
    requires GroupOk(w) && Enabled(w, step) && OfShared(step)
    ensures forall c :: c in Next(w, step).group ==> c in w.group
  {
    hide AfterUnsubscribe, WentIdle, AfterConnClose, RemoveFirst, Distinct;
    if step.Idle? {
      DropFrom(w.group, step.c);
    }
  }

  lemma SharedSingle(w: World, step: Step, k: Key)
    requires GroupOk(w) && Single(w, k) && Enabled(w, step) && OfShared(step)
    ensures Single(Next(w, step), k)
  {
    hide Next, Enabled, GroupOk, Single, Carries;
    SharedLeavesCalls(w, step);
    forall c | Carries(Next(w, step), c, k)
      ensures Carries(w, c, k)
    {
      SharedFewer(w, step, c, k);
    }
    FewerCarry(w, Next(w, step), k);
  }

  lemma PruneSingle(w: World, step: Step, k: Key)
    requires Single(w, k) && ScanOk(w) && Enabled(w, step) && (step.Prune? || step.Lock?)
    ensures Single(Next(w, step), k)
  {
    hide Distinct;
    var w' := Next(w, step);
    if step.Prune? {
      var a := w.calls[step.who];
      assert forall c :: c in a.live ==> c in a.live + a.unseen;
    }
    assert forall c :: Carries(w', c, k) ==> Carries(w, c, k);
    FewerCarry(w, w', k);
  }

  /** What has to hold of a call that has just picked a connection. */
  predicate PicksOnly(w: World, a: At, k: Key) {
    a.Joining? && KeyOfWant(a.want) == k ==> forall c :: c in w.group && Carries(w, c, k) ==> c == a.pick
  }

  lemma PickedSingle(w: World, w': World, who: nat, k: Key)
    requires Single(w, k) && w'.group == w.group && w'.shared == w.shared && who in w'.calls
    requires PicksOnly(w, w'.calls[who], k)
    requires forall x :: x in w'.calls && x != who ==> x in w.calls && w.calls[x] == w'.calls[x]
    ensures Single(w', k)
  {
    hide KeyFor;
    assert forall c :: Carries(w', c, k) <==> Carries(w, c, k);
  }

  /** A call that finds the stream finds the only connection with it. */
  lemma LookSingle(w: World, step: Step, k: Key)
    requires Single(w, k) && Enabled(w, step) && step.Look?
    ensures Single(Next(w, step), k)
  {
    hide KeyFor;
    var a, w' := w.calls[step.who], Next(w, step);
    if a.i < |w.group| && KeyOfWant(a.want) == k && k in w.shared[w.group[a.i]].previews {
      assert w.group[a.i] in w.group;
      assert Carries(w, w.group[a.i], k);
    }
    PickedSingle(w, w', step.who, k);
  }

  /** One that settles for room knows there is none. */
  lemma RoomSingle(w: World, step: Step, k: Key)
    requires Single(w, k) && SeenOk(w) && Enabled(w, step) && step.Room?
    ensures Single(Next(w, step), k)
  {
    hide KeyFor;
    var a, w' := w.calls[step.who], Next(w, step);
    assert SawRight(w, a);
    if KeyOfWant(a.want) == k {
      forall c | c in w.group
        ensures !Carries(w, c, k)
      {
        var j :| 0 <= j < |w.group| && w.group[j] == c;
        assert Lacks(w, w.group[j], k);
      }
    }
    PickedSingle(w, w', step.who, k);
  }

  lemma JoinSingle(w: World, step: Step, k: Key)
    requires Single(w, k) && LockOk(w) && ScanOk(w) && Enabled(w, step) && step.Join?
    ensures Single(Next(w, step), k)
  {
    hide AfterSubscribe, KeyFor, Distinct;
    var a, w' := w.calls[step.who], Next(w, step);
    SubscribeMeans(w.shared[a.pick], a.want, step.id, step.ok);
    assert w'.mu.None?;
    assert forall who :: who in w'.calls && who != step.who ==> !w'.calls[who].Joining?;
    forall c | Carries(w', c, k)
      ensures Carries(w, c, k) || (c == a.pick && k == KeyOfWant(a.want))
    {
    }
  }

  /** openNew works on a connection that is not published yet. */
  lemma OpenSingle(w: World, step: Step, k: Key)
    requires Single(w, k) && GroupOk(w) && Enabled(w, step) && OfOpenNew(step) && !step.Publish?
    ensures Single(Next(w, step), k)
  {
    hide AfterSubscribe, KeyFor, Distinct, AfterConnClose;
    var w' := Next(w, step);
    if step.FirstSubscribe? || step.CloseNew? {
      assert Holds(w.calls[step.who], w.calls[step.who].c);
    }
    assert forall c :: Carries(w', c, k) ==> Carries(w, c, k);
    FewerCarry(w, w', k);
  }

  lemma OtherSingle(w: World, step: Step, k: Key)
    requires Single(w, k) && Enabled(w, step)
    requires !OfOpenNew(step) && !OfScan(step) && !OfShared(step)
    ensures Single(Next(w, step), k)
  {
    var w' := Next(w, step);
    assert forall c :: Carries(w', c, k) ==> Carries(w, c, k);
    FewerCarry(w, w', k);
  }

  lemma PublishSingle(w: World, step: Step, k: Key)
    requires Single(w, k) && LockOk(w) && Enabled(w, step) && step.Publish? && !Doubles(w, step, k)
    ensures Single(Next(w, step), k)
  {
    var w' := Next(w, step);
    var c := w.calls[step.who].c;
    assert forall who :: who in w'.calls ==> !w'.calls[who].Joining?;
    forall d | Carries(w', d, k)
      ensures Carries(w, d, k) || d == c
    {
    }
  }

  /** A single stream is doubled by such a publication and by nothing else. */
  lemma DoubledStepIff(w: World, step: Step, k: Key)
    requires Inv(w) && Single(w, k) && Enabled(w, step)
    ensures Doubled(Next(w, step), k) <==> Doubles(w, step, k)
    ensures !Doubles(w, step, k) ==> Single(Next(w, step), k)
  {
    hide Next, Enabled, Single, Doubled, Doubles, LockOk, DialOk, WaitersOk, GroupOk, ScanOk, BoundOk, SeenOk, LeakOk,
      IdledOk;
    if Doubles(w, step, k) {
      PublishDoubles(w, step, k);
    } else {
      if OfShared(step) {
        SharedSingle(w, step, k);
      } else if step.Join? {
        JoinSingle(w, step, k);
      } else if step.Look? {
        LookSingle(w, step, k);
      } else if step.Room? {
        RoomSingle(w, step, k);
      } else if step.Prune? || step.Lock? {
        PruneSingle(w, step, k);
      } else if step.Publish? {
        PublishSingle(w, step, k);
      } else if OfOpenNew(step) {
        OpenSingle(w, step, k);
      } else {
        OtherSingle(w, step, k);
      }
      SingleIsNotDoubled(Next(w, step), k);
    }
  }

  lemma PublishDoubles(w: World, step: Step, k: Key)
    requires GroupOk(w) && Enabled(w, step) && Doubles(w, step, k)
    ensures Doubled(Next(w, step), k)
  {
    hide Distinct;
    var w', d := Next(w, step), w.calls[step.who].c;
    var c :| Carries(w, c, k);
    assert Holds(w.calls[step.who], d);
    assert Carries(w', c, k) && Carries(w', d, k);
  }

  // Whole runs

  /** The stream is never on two published connections, from w on. */
  ghost predicate NeverDoubled(w: World, steps: seq<Step>, k: Key)
    requires IsRun(w, steps)
    decreases |steps|
  {
    !Doubled(w, k) && (steps == [] || NeverDoubled(Next(w, steps[0]), steps[1..], k))
  }

  ghost predicate NoDoublingPublish(w: World, steps: seq<Step>, k: Key)
    requires IsRun(w, steps)
    decreases |steps|
  {
    steps == [] || (!Doubles(w, steps[0], k) && NoDoublingPublish(Next(w, steps[0]), steps[1..], k))
  }

  lemma {:induction false} StaysSingleIff(w: World, steps: seq<Step>, k: Key)
    requires Inv(w) && Single(w, k) && IsRun(w, steps)
    ensures NeverDoubled(w, steps, k) <==> NoDoublingPublish(w, steps, k)
    decreases |steps|
  {
    hide Inv, Single, Doubled, Doubles, Next, Enabled;
    SingleIsNotDoubled(w, k);
    if steps != [] {
      DoubledStepIff(w, steps[0], k);
      StepKeepsInv(w, steps[0]);
      var w' := Next(w, steps[0]);
      if Doubles(w, steps[0], k) {
        assert !NeverDoubled(w', steps[1..], k) by { FirstDoubled(w', steps[1..], k); }
      } else {
        StaysSingleIff(w', steps[1..], k);
      }
    }
  }

  lemma FirstDoubled(w: World, steps: seq<Step>, k: Key)
    requires IsRun(w, steps) && Doubled(w, k)
    ensures !NeverDoubled(w, steps, k)
  {
  }

  /** In every run of a pool, a stream stays on one connection exactly as long as no publish puts it on a second. */
  lemma {:induction false} OneConnectionIff(max: nat, steps: seq<Step>, k: Key)
    requires max >= 1 && IsRun(Start(max), steps)
    ensures NeverDoubled(Start(max), steps, k) <==> NoDoublingPublish(Start(max), steps, k)
  {
    hide Inv, Next, Enabled, Doubled, Doubles, NeverDoubled, NoDoublingPublish;
    StartInv(max);
    StaysSingleIff(Start(max), steps, k);
  }

  // A run in which a stream is doubled

  /** Every stream there is: each of the 256 channels a byte tells apart has three. */
  function NthStream(i: nat): Want {
    Want(i % 256, if i < 256 then "mainStream" else if i < 512 then "subStream" else "externStream")
  }

  function NthKeys(n: nat): set<Key> {
    if n == 0 then {} else NthKeys(n - 1) + {KeyOfWant(NthStream(n - 1))}
  }

  lemma {:induction false} NthKeysAre(n: nat)
    requires n <= 768
    ensures |NthKeys(n)| == n
    ensures forall i :: n <= i < 768 ==> KeyOfWant(NthStream(i)) !in NthKeys(n)
  {
    hide KeyFor, NthStream;
    if n > 0 {
      NthKeysAre(n - 1);
      forall i | n <= i < 768
        ensures KeyOfWant(NthStream(i)) != KeyOfWant(NthStream(n - 1))
      {
        KeysDiffer(n - 1, i);
      }
    }
  }

  lemma KeysDiffer(i: nat, j: nat)
    requires i < j < 768
    ensures KeyOfWant(NthStream(i)) != KeyOfWant(NthStream(j))
  {
  }

  /** One connection, carrying the first n streams, each with the reader of that number. */
  ghost predicate Filled(w: World, n: nat, max: nat) {
    && n > 0 && w.max == max && w.group == [0] && w.shared.Keys == {0} && !w.shared[0].closed
    && w.shared[0].previews.Keys == NthKeys(n)
    && (forall id :: id in w.shared[0].subs ==> id < n)
    && FirstAlone(w.shared[0])
    && (forall x :: x in w.calls ==> x < n) && Free(w) && !w.camera && w.dialing.None?
  }

  /** Reader 0 is the only one of the first stream. */
  ghost predicate FirstAlone(s: State) {
    var k := KeyOfWant(NthStream(0));
    0 in s.subs && s.subs[0].key == k && k in s.previews && s.previews[k].readers == {0}
  }

  lemma FirstOfBlank()
    ensures var s := AfterSubscribe(Blank(), 0, "mainStream", 0, true).1;
            && FirstAlone(s) && !s.closed && s.previews.Keys == NthKeys(1)
            && forall id :: id in s.subs ==> id < 1
  {
    hide KeyFor, AfterStart;
    assert NthKeys(1) == NthKeys(0) + {KeyOfWant(NthStream(0))};
    assert NthKeys(0) == {};
  }

  lemma AnotherKeepsFirst(s: State, n: nat, id: nat)
    requires FirstAlone(s) && !s.closed && id != 0 && id !in s.subs && KeyOfWant(NthStream(n)) !in s.previews
    ensures var t := AfterSubscribe(s, NthStream(n).channel, NthStream(n).stream, id, true).1;
            && FirstAlone(t) && !t.closed && t.subs.Keys == s.subs.Keys + {id}
  {
    hide KeyFor, AfterStart;
  }

  lemma {:induction false} FillOne(max: nat) returns (steps: seq<Step>)
    ensures IsRun(Start(max), steps) && Filled(Final(Start(max), steps), 1, max)
  {
    hide Enabled, Next, AfterSubscribe, KeyFor, FirstAlone;
    var s1 := LogsIn(Start(max), 0, NthStream(0));
    var w1 := Final(Start(max), s1);
    var s2 := PoolReaders.OpensAlone(w1, 0, 0, 0);
    var w2 := Final(w1, s2);
    var s3 := PoolReaders.PublishAndReturn(w2, 0, 0, 0);
    FirstOfBlank();
    RunOn(w1, s2, s3);
    RunOn(Start(max), s1, s2 + s3);
    steps := s1 + (s2 + s3);
  }

  lemma {:induction false} FillMore(w: World, n: nat, max: nat) returns (steps: seq<Step>)
    requires Filled(w, n, max) && n < max <= 767
    ensures IsRun(w, steps) && Filled(Final(w, steps), n + 1, max)
  {
    hide Enabled, Next, AfterSubscribe, KeyFor, FirstAlone;
    CallOnce(w, n, NthStream(n));
    var w1 := Goes(w, n, Top(NthStream(n)));
    NthKeysAre(n);
    KeysCount(w.shared[0].previews);
    var rest := JoinsTheOnly(w1, n, 0, n);
    AnotherKeepsFirst(w.shared[0], n, n);
    MoreSteps(w, Call(n, NthStream(n)), rest);
    steps := [Call(n, NthStream(n))] + rest;
  }

  lemma {:induction false} FillTo(n: nat, max: nat) returns (steps: seq<Step>)
    requires 1 <= n <= max <= 767
    ensures IsRun(Start(max), steps) && Filled(Final(Start(max), steps), n, max)
  {
    hide Enabled, Next, Filled;
    if n == 1 {
      steps := FillOne(max);
    } else {
      var before := FillTo(n - 1, max);
      var more := FillMore(Final(Start(max), before), n - 1, max);
      RunOn(Start(max), before, more);
      steps := before + more;
    }
  }

  lemma FirstLeaves(s: State, max: nat)
    requires FirstAlone(s) && !s.closed && s.previews.Keys == NthKeys(max) && 1 <= max <= 767
    ensures var t := AfterUnsubscribe(s, 0);
            && !t.closed && t.subs == s.subs && |t.previews| < max && t.previews.Keys <= s.previews.Keys
  {
    hide KeyFor, AfterStop;
    NthKeysAre(max);
    var t := AfterUnsubscribe(s, 0);
    assert KeyOfWant(NthStream(0)) !in t.previews;
    FewerPreviews(s.previews, t.previews);
    KeysCount(s.previews);
  }

  /** A full connection, a login for a new stream, and a reader that leaves meanwhile. */
  lemma {:induction false} RoomOpensBehind(w: World, max: nat) returns (steps: seq<Step>)
    requires Filled(w, max, max) && 1 <= max <= 767
    ensures IsRun(w, steps)
    ensures var f := Final(w, steps);
            && f.max == max && f.calls == w.calls[max := Dialing(NthStream(max))] && Free(f) && !f.camera
            && f.group == [0] && f.shared.Keys == {0} && !f.shared[0].closed && |f.shared[0].previews| < max
            && f.shared[0].subs == w.shared[0].subs && KeyOfWant(NthStream(max)) !in f.shared[0].previews
  {
    hide Enabled, Next, AfterUnsubscribe, WentIdle, KeyFor, FirstAlone, NthKeys;
    NthKeysAre(max);
    KeysCount(w.shared[0].previews);
    CallOnce(w, max, NthStream(max));
    var w1 := Goes(w, max, Top(NthStream(max)));
    var dials := DialsBesideTheOnly(w1, max, 0);
    var w2 := Final(w1, dials);
    FirstLeaves(w.shared[0], max);
    LeaveOf(w2);
    OneStep(w2, Leave(0, 0));
    RunOn(w1, dials, [Leave(0, 0)]);
    MoreSteps(w, Call(max, NthStream(max)), dials + [Leave(0, 0)]);
    steps := [Call(max, NthStream(max))] + (dials + [Leave(0, 0)]);
    assert w2.calls == w.calls[max := Dialing(NthStream(max))];
  }

  lemma LeaveOf(w: World)
    requires 0 in w.shared && FirstAlone(w.shared[0])
    ensures Enabled(w, Leave(0, 0)) && Next(w, Leave(0, 0)) == AfterLeave(w, 0, 0)
  {
  }

  /** From the empty pool, for every limit up to 767: a stream comes to run on two published connections. */
  lemma {:induction false} DoubledInSomeRun(max: nat) returns (steps: seq<Step>)
    requires 1 <= max <= 767
    ensures IsRun(Start(max), steps) && Doubled(Final(Start(max), steps), KeyOfWant(NthStream(max)))
  {
    hide Enabled, Next, KeyFor, FirstAlone, NthKeys;
    var fill := FillTo(max, max);
    var w1 := Final(Start(max), fill);
    var room := RoomOpensBehind(w1, max);
    var w2 := Final(w1, room);
    CallOnce(w2, max + 1, NthStream(max));
    var w3 := Goes(w2, max + 1, Top(NthStream(max)));
    var twice := OneStreamTwice(w3, max, max + 1, 0, max + 1, 1, 0);
    var f, k := Final(w3, twice), KeyOfWant(NthStream(max));
    assert Carries(f, 0, k) && Carries(f, 1, k);
    MoreSteps(w2, Call(max + 1, NthStream(max)), twice);
    RunOn(w1, room, [Call(max + 1, NthStream(max))] + twice);
    RunOn(Start(max), fill, room + ([Call(max + 1, NthStream(max))] + twice));
    steps := fill + (room + ([Call(max + 1, NthStream(max))] + twice));
  }

  // Why no higher limit allows it

  /** A key that some stream has. */
  predicate Named(k: Key) { k.stream in {0, 1, 4} }

  lemma {:induction false} NthKeysHave(n: nat, i: nat)
    requires i < n
    ensures KeyOfWant(NthStream(i)) in NthKeys(n)
  {
    if i < n - 1 {
      NthKeysHave(n - 1, i);
    }
  }

  lemma NamedIsNth(k: Key)
    requires Named(k)
    ensures k in NthKeys(768)
  {
    hide NthKeys;
    var i := k.channel as int + if k.stream == 0 then 0 else if k.stream == 1 then 256 else 512;
    assert KeyOfWant(NthStream(i)) == k;
    NthKeysHave(768, i);
  }

  /** A connection without one of the streams has fewer than 768. */
  lemma RoomForOne(m: map<Key, Preview>, k: Key)
    requires Named(k) && k !in m && forall x :: x in m ==> Named(x)
    ensures |m| < 768
  {
    hide NthKeys, Named;
    NthKeysAre(768);
    forall x | x in m.Keys
      ensures x in NthKeys(768)
    {
      NamedIsNth(x);
    }
    NamedIsNth(k);
    FewerKeys(NthKeys(768), m.Keys);
    KeysCount(m);
  }

  /** At such a limit no call finds a connection full, and one is dialed only beside none. */
  ghost predicate Roomy(w: World) {
    && w.max >= 768
    && (forall c, k :: c in w.shared && k in w.shared[c].previews ==> Named(k))
    && (forall who :: who in w.calls && w.calls[who].Rooming? ==> w.calls[who].seen == [])
    && (forall who :: who in w.calls && OpensAlone(w.calls[who]) ==> w.group == [])
    && (forall c, d :: c in w.group && d in w.group ==> c == d)
  }

  predicate OpensAlone(a: At) { a.Dialing? || a.Opened? || a.Publishing? }

  lemma RoomyIsNotDoubled(w: World, k: Key)
    requires Roomy(w)
    ensures !Doubled(w, k)
  {
  }

  /** The group only loses connections, and no call comes to open one or to look for room. */
  lemma FewerRoomy(w: World, w': World)
    requires Roomy(w) && w'.max == w.max && forall c :: c in w'.group ==> c in w.group
    requires forall c, k :: c in w'.shared && k in w'.shared[c].previews ==>
               Named(k) || (c in w.shared && k in w.shared[c].previews)
    requires forall who :: who in w'.calls && (w'.calls[who].Rooming? || OpensAlone(w'.calls[who])) ==>
               || (who in w.calls && w.calls[who] == w'.calls[who])
               || (w'.calls[who].Rooming? && w'.calls[who].seen == [])
    ensures Roomy(w')
  {
    assert w.group == [] ==> w'.group == [] by {
      if w'.group != [] {
        assert w'.group[0] in w'.group;
      }
    }
  }

  lemma SharedRoomy(w: World, step: Step)
    requires GroupOk(w) && Roomy(w) && Enabled(w, step) && OfShared(step)
    ensures Roomy(Next(w, step))
  {
    hide Next, Enabled, GroupOk, Named;
    SharedLeavesCalls(w, step);
    SharedShrinks(w, step);
    SharedGroup(w, step);
    FewerRoomy(w, Next(w, step));
  }

  lemma PruneRoomy(w: World, step: Step)
    requires ScanOk(w) && Roomy(w) && Enabled(w, step) && step.Prune?
    ensures Roomy(Next(w, step))
  {
    hide Distinct, Named;
    PruneMoves(w, step);
    PruneFewer(w, step);
    FewerRoomy(w, Next(w, step));
  }

  lemma PruneFewer(w: World, step: Step)
    requires ScanOk(w) && Enabled(w, step) && step.Prune?
    ensures forall c :: c in Next(w, step).group ==> c in w.group
  {
    hide Distinct;
    var a := w.calls[step.who];
    assert forall c :: c in a.live ==> c in a.live + a.unseen;
  }

  lemma LookRoomy(w: World, step: Step)
    requires Roomy(w) && Enabled(w, step) && (step.Lock? || step.Look?)
    ensures Roomy(Next(w, step))
  {
    hide KeyFor, Named;
    FewerRoomy(w, Next(w, step));
  }

  /** A call that looks for room finds it at the first connection. */
  lemma RoomRoomy(w: World, step: Step)
    requires SeenOk(w) && Roomy(w) && Enabled(w, step) && step.Room?
    ensures Roomy(Next(w, step))
  {
    hide Named;
    var a, w' := w.calls[step.who], Next(w, step);
    var c := w.group[|a.seen|];
    assert SawRight(w, a);
    assert Lacks(w, c, KeyOfWant(a.want));
    assert Named(KeyOfWant(a.want)) by { WantsAreNamed(a.want); }
    RoomForOne(w.shared[c].previews, KeyOfWant(a.want));
    FewerRoomy(w, w');
  }

  lemma WantsAreNamed(want: Want)
    ensures Named(KeyOfWant(want))
  {
  }

  lemma SubscribeRoomy(w: World, step: Step)
    requires Roomy(w) && Enabled(w, step) && (step.Join? || step.FirstSubscribe?)
    ensures Roomy(Next(w, step))
  {
    hide AfterSubscribe, KeyFor, Named;
    var a, w' := w.calls[step.who], Next(w, step);
    var c := if step.Join? then a.pick else a.c;
    WantsAreNamed(a.want);
    SubscribeMeans(w.shared[c], a.want, step.id, step.ok);
    if step.Join? {
      FewerRoomy(w, w');
    }
  }

  lemma OpenRoomy(w: World, step: Step)
    requires DialOk(w) && Roomy(w) && Enabled(w, step) && OfOpenNew(step) && !step.FirstSubscribe?
    ensures Roomy(Next(w, step))
  {
    hide AfterConnClose, AfterClose, Named;
    NoOtherOpener(w, step.who);
    if step.CloseNew? {
      ClosedIsEmpty(w.shared[w.calls[step.who].c]);
    }
  }

  lemma ClosedIsEmpty(s: State)
    ensures forall k :: k in AfterClose(s).previews ==> k in s.previews
  {
  }

  lemma OtherRoomy(w: World, step: Step)
    requires Roomy(w) && Enabled(w, step) && !OfOpenNew(step) && !OfScan(step) && !OfShared(step)
    ensures Roomy(Next(w, step))
  {
    hide Named;
  }

  lemma StepKeepsRoomy(w: World, step: Step)
    requires Inv(w) && Roomy(w) && Enabled(w, step)
    ensures Roomy(Next(w, step))
  {
    hide Next, Enabled, Roomy, LockOk, DialOk, WaitersOk, GroupOk, ScanOk, BoundOk, SeenOk, LeakOk, IdledOk;
    if OfShared(step) {
      SharedRoomy(w, step);
    } else if step.Room? {
      RoomRoomy(w, step);
    } else if step.Join? || step.FirstSubscribe? {
      SubscribeRoomy(w, step);
    } else if step.Prune? {
      PruneRoomy(w, step);
    } else if OfScan(step) {
      LookRoomy(w, step);
    } else if OfOpenNew(step) {
      OpenRoomy(w, step);
    } else {
      OtherRoomy(w, step);
    }
  }

  lemma {:induction false} RunStaysRoomy(w: World, steps: seq<Step>)
    requires Inv(w) && Roomy(w) && IsRun(w, steps)
    ensures Roomy(Final(w, steps))
    decreases |steps|
  {
    hide Inv, Roomy, Next, Enabled;
    if steps != [] {
      StepKeepsRoomy(w, steps[0]);
      StepKeepsInv(w, steps[0]);
      RunStaysRoomy(Next(w, steps[0]), steps[1..]);
    }
  }

  /** The run from the empty pool comes to where the stream is on two published connections. */
  ghost predicate Reaches(max: nat, steps: seq<Step>, k: Key) {
    IsRun(Start(max), steps) && Doubled(Final(Start(max), steps), k)
  }

  /** Some run doubles a stream exactly when the limit is below the number of streams there are. */
  lemma {:induction false} DoubledInSomeRunIff(max: nat)
    requires max >= 1
    ensures (exists steps, k :: Reaches(max, steps, k)) <==> max < 768
  {
    hide Inv, Roomy, Doubled, IsRun;
    if max < 768 {
      var steps := DoubledInSomeRun(max);
      assert Reaches(max, steps, KeyOfWant(NthStream(max)));
    } else {
      forall steps, k
        ensures !Reaches(max, steps, k)
      {
        if IsRun(Start(max), steps) {
          StartInv(max);
          StartRoomy(max);
          RunStaysRoomy(Start(max), steps);
          RoomyIsNotDoubled(Final(Start(max), steps), k);
        }
      }
    }
  }

  lemma StartRoomy(max: nat)
    requires max >= 768
    ensures Roomy(Start(max))
  {
  }
}
