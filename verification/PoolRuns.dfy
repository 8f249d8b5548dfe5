/**
 The connection pool for one recorder login, internal/baichuan/pool.go: every interleaving of the
 steps of concurrent Open calls with readers leaving, connections ending and idle closing. A step is
 one critical section of a Shared, or of the pool's own mutex where nothing else happens under it.
 */
module PoolRuns {
  import opened Lists
  import opened Wrappers
  import opened Shared

  datatype Want = Want(channel: int, stream: string)

  function KeyOfWant(w: Want): Key { KeyFor(w.channel, w.stream) }

  datatype Result = GotReader(c: nat, id: nat) | GotConn | Failed

  /** Where a call of Open is. Pruning to Joining hold the pool's mutex; Dialing to Ending are in openNew. */
  datatype At =
    | Top(want: Want)
    | Pruning(want: Want, unseen: seq<nat>, live: seq<nat>)
    | Looking(want: Want, i: nat)
    | Rooming(want: Want, seen: seq<nat>)
    | Joining(want: Want, pick: nat)
    | Waiting(want: Want, ch: nat)
    | Dialing(want: Want)
    | Marking
    | Opened(want: Want, c: nat)
    | Publishing(c: nat, id: nat)
    | Closing(c: nat)
    | Ending(result: Result)
    | CameraDial
    | CameraBack
    | Returned(result: Result)

  predicate InLock(a: At) { a.Pruning? || a.Looking? || a.Rooming? || a.Joining? }

  predicate InOpenNew(a: At) {
    a.Dialing? || a.Marking? || a.Opened? || a.Publishing? || a.Closing? || a.Ending?
  }

  /** A dial in progress: its channel, and as history the call that makes it. */
  datatype Dial = Dial(ch: nat, caller: nat)

  /**
   shared holds every Shared ever made, group the published ones. woken are the closed channels, next
   the first unused one, idle the calls of Pool.idle under way, and idled, as history, the connections
   idle has closed.
   */
  datatype World = World(max: nat, shared: map<nat, State>, group: seq<nat>, dialing: Option<Dial>, camera: bool,
                         mu: Option<nat>, calls: map<nat, At>, woken: set<nat>, next: nat,
                         idle: multiset<nat>, idled: set<nat>)

  datatype Step =
    | Call(who: nat, want: Want)
    | Lock(who: nat)
    | Prune(who: nat)
    | Look(who: nat)
    | Room(who: nat)
    | Join(who: nat, id: nat, ok: bool)
    | WaitOrDial(who: nat)
    | Wake(who: nat)
    | GiveUp(who: nat)
    | DialFails(who: nat)
    | DialCamera(who: nat)
    | DialRecorder(who: nat, c: nat)
    | Mark(who: nat)
    | FirstSubscribe(who: nat, id: nat, ok: bool)
    | CloseNew(who: nat)
    | Publish(who: nat)
    | EndDial(who: nat)
    | CameraDialed(who: nat, ok: bool, recorder: bool)
    | CameraReset(who: nat)
    | Leave(c: nat, id: nat)
    | ConnectionEnds(c: nat)
    | Idle(c: nat)

  function Blank(): State { State(ConnState([], [], [], false), map[], map[], 0, false) }

  /** The step is of a call that is there, and free says the pool's mutex is. */
  predicate Calls(w: World, who: nat) { who in w.calls }

  predicate Free(w: World) { w.mu.None? }

  predicate Known(w: World, c: nat) { c in w.shared }

  ghost predicate Enabled(w: World, step: Step) {
    match step
    case Call(who, _) => !Calls(w, who)
    case Lock(who) => Calls(w, who) && w.calls[who].Top? && Free(w)
    case Prune(who) =>
      Calls(w, who) && w.calls[who].Pruning? && (w.calls[who].unseen != [] ==> Known(w, w.calls[who].unseen[0]))
    case Look(who) =>
      Calls(w, who) && w.calls[who].Looking?
      && (w.calls[who].i < |w.group| ==> Known(w, w.group[w.calls[who].i]))
    case Room(who) =>
      Calls(w, who) && w.calls[who].Rooming? && |w.calls[who].seen| < |w.group|
      && Known(w, w.group[|w.calls[who].seen|])
    case Join(who, id, _) =>
      Calls(w, who) && w.calls[who].Joining? && Known(w, w.calls[who].pick)
      && id !in w.shared[w.calls[who].pick].subs
    case WaitOrDial(who) => Calls(w, who) && w.calls[who].Rooming? && |w.calls[who].seen| >= |w.group|
    case Wake(who) => Calls(w, who) && w.calls[who].Waiting? && w.calls[who].ch in w.woken
    case GiveUp(who) => Calls(w, who) && w.calls[who].Waiting?
    case DialFails(who) => Calls(w, who) && w.calls[who].Dialing?
    case DialCamera(who) => Calls(w, who) && w.calls[who].Dialing?
    case DialRecorder(who, c) => Calls(w, who) && w.calls[who].Dialing? && !Known(w, c)
    case Mark(who) => Calls(w, who) && w.calls[who].Marking? && Free(w)
    case FirstSubscribe(who, id, _) =>
      Calls(w, who) && w.calls[who].Opened? && Known(w, w.calls[who].c) && id !in w.shared[w.calls[who].c].subs
    case CloseNew(who) => Calls(w, who) && w.calls[who].Closing? && Known(w, w.calls[who].c)
    case Publish(who) => Calls(w, who) && w.calls[who].Publishing? && Free(w)
    case EndDial(who) => Calls(w, who) && w.calls[who].Ending? && Free(w)
    case CameraDialed(who, _, _) => Calls(w, who) && w.calls[who].CameraDial?
    case CameraReset(who) => Calls(w, who) && w.calls[who].CameraBack? && Free(w)
    case Leave(c, id) => Known(w, c) && id in w.shared[c].subs
    case ConnectionEnds(c) => Known(w, c)
    case Idle(c) => Known(w, c) && c in w.idle && Free(w)
  }

  function Goes(w: World, who: nat, a: At): World { w.(calls := w.calls[who := a]) }

  function GoesUnlocked(w: World, who: nat, a: At): World { w.(calls := w.calls[who := a], mu := None) }

  function Set(w: World, c: nat, s: State): World { w.(shared := w.shared[c := s]) }

  ghost function Next(w: World, step: Step): World
    requires Enabled(w, step)
  {
    match step
    case Call(who, want) => Goes(w, who, Top(want))
    case Lock(who) =>
      if w.camera then Goes(w, who, CameraDial)
      else w.(calls := w.calls[who := Pruning(w.calls[who].want, w.group, [])], mu := Some(who))
    case Prune(who) => AfterPrune(w, who)
    case Look(who) => AfterLook(w, who)
    case Room(who) => AfterRoom(w, who)
    case Join(who, id, ok) => AfterJoin(w, who, id, ok)
    case WaitOrDial(who) => AfterWaitOrDial(w, who)
    case Wake(who) => Goes(w, who, Top(w.calls[who].want))
    case GiveUp(who) => Goes(w, who, Returned(Failed))
    case DialFails(who) => Goes(w, who, Ending(Failed))
    case DialCamera(who) => Goes(w, who, Marking)
    case DialRecorder(who, c) => Goes(Set(w, c, Blank()), who, Opened(w.calls[who].want, c))
    case Mark(who) => Goes(w, who, Ending(GotConn)).(camera := true)
    case FirstSubscribe(who, id, ok) => AfterFirst(w, who, id, ok)
    case CloseNew(who) =>
      var c := w.calls[who].c;
      var s := AfterClose(w.shared[c]);
      Goes(Set(w, c, s.(conn := AfterConnClose(s.conn))), who, Ending(Failed))
    case Publish(who) =>
      var a := w.calls[who];
      Goes(w, who, Ending(GotReader(a.c, a.id))).(group := w.group + [a.c])
    case EndDial(who) => AfterEndDial(w, who)
    case CameraDialed(who, ok, recorder) =>
      Goes(w, who, if !ok then Returned(Failed) else if recorder then CameraBack else Returned(GotConn))
    case CameraReset(who) => Goes(w, who, Returned(GotConn)).(camera := false)
    case Leave(c, id) => AfterLeave(w, c, id)
    case ConnectionEnds(c) => Set(w, c, AfterConnectionEnd(w.shared[c]))
    case Idle(c) => AfterIdle(w, c)
  }

  /** Open's first loop: closed connections are left out of the group. */
  function AfterPrune(w: World, who: nat): World
    requires Calls(w, who) && w.calls[who].Pruning? && (w.calls[who].unseen != [] ==> Known(w, w.calls[who].unseen[0]))
  {
    var a := w.calls[who];
    if a.unseen == [] then Goes(w, who, Looking(a.want, 0)).(group := a.live) else
    var c := a.unseen[0];
    Goes(w, who, Pruning(a.want, a.unseen[1..], if w.shared[c].closed then a.live else a.live + [c]))
  }

  /** The second: the first connection that has the stream. */
  function AfterLook(w: World, who: nat): World
    requires Calls(w, who) && w.calls[who].Looking?
    requires w.calls[who].i < |w.group| ==> Known(w, w.group[w.calls[who].i])
  {
    var a := w.calls[who];
    if a.i >= |w.group| then Goes(w, who, Rooming(a.want, []))
    else if KeyOfWant(a.want) in w.shared[w.group[a.i]].previews then Goes(w, who, Joining(a.want, w.group[a.i]))
    else Goes(w, who, Looking(a.want, a.i + 1))
  }

  /** The third: the first with room. seen are the counts found. */
  function AfterRoom(w: World, who: nat): World
    requires Calls(w, who) && w.calls[who].Rooming? && |w.calls[who].seen| < |w.group|
    requires Known(w, w.group[|w.calls[who].seen|])
  {
    var a := w.calls[who];
    var c := w.group[|a.seen|];
    var n := |w.shared[c].previews|;
    if n < w.max then Goes(w, who, Joining(a.want, c)) else Goes(w, who, Rooming(a.want, a.seen + [n]))
  }

  function AfterJoin(w: World, who: nat, id: nat, ok: bool): World
    requires Calls(w, who) && w.calls[who].Joining? && Known(w, w.calls[who].pick)
  {
    var a := w.calls[who];
    var (r, s) := AfterSubscribe(w.shared[a.pick], a.want.channel, a.want.stream, id, ok);
    GoesUnlocked(Set(w, a.pick, s), who,
                 if r.Refused? then Top(a.want) else if r.Reader? then Returned(GotReader(a.pick, id))
                 else Returned(Failed))
  }

  function AfterWaitOrDial(w: World, who: nat): World
    requires Calls(w, who) && w.calls[who].Rooming?
  {
    var a := w.calls[who];
    if w.dialing.Some? then GoesUnlocked(w, who, Waiting(a.want, w.dialing.value.ch))
    else GoesUnlocked(w, who, Dialing(a.want)).(dialing := Some(Dial(w.next, who)), next := w.next + 1)
  }

  function AfterFirst(w: World, who: nat, id: nat, ok: bool): World
    requires Calls(w, who) && w.calls[who].Opened? && Known(w, w.calls[who].c)
  {
    var a := w.calls[who];
    var (r, s) := AfterSubscribe(w.shared[a.c], a.want.channel, a.want.stream, id, ok);
    Goes(Set(w, a.c, s), who, if r.Reader? then Publishing(a.c, id) else Closing(a.c))
  }

  /** Closes whatever channel the group holds. */
  function AfterEndDial(w: World, who: nat): World
    requires Calls(w, who) && w.calls[who].Ending?
  {
    Goes(w, who, Returned(w.calls[who].result))
    .(woken := w.woken + if w.dialing.Some? then {w.dialing.value.ch} else {}, dialing := None)
  }

  /** A reader leaves, by its own Close or by being dropped; the last one of a connection calls idle. */
  function AfterLeave(w: World, c: nat, id: nat): World
    requires Known(w, c) && id in w.shared[c].subs
  {
    Set(w, c, AfterUnsubscribe(w.shared[c], id))
    .(idle := if WentIdle(w.shared[c], id) then w.idle + multiset{c} else w.idle)
  }

  function AfterIdle(w: World, c: nat): World
    requires Known(w, c)
  {
    var s := w.shared[c];
    var w1 := w.(idle := w.idle - multiset{c});
    if s.previews != map[] || s.closed then w1 else
    Set(w1, c, AfterCloseIfIdle(s).(conn := AfterConnClose(s.conn)))
    .(group := RemoveFirst(w.group, c), idled := w.idled + {c})
  }

  function Start(max: nat): World {
    World(max, map[], [], None, false, None, map[], {}, 0, multiset{}, {})
  }

  // What a Shared's steps mean to the pool

  lemma SubscribeMeans(s: State, want: Want, id: nat, ok: bool)
    requires id !in s.subs
    ensures var (r, s') := AfterSubscribe(s, want.channel, want.stream, id, ok);
            && s'.closed == s.closed && (r.Refused? <==> s.closed)
            && (r.Reader? ==> s'.previews.Keys == s.previews.Keys + {KeyOfWant(want)}
                              && id in s'.previews[KeyOfWant(want)].readers)
            && (!r.Reader? ==> s'.previews == s.previews)
            && (s'.previews == map[] ==> s.previews == map[])
  {
    hide AfterStart, KeyFor;
    var (r, s') := AfterSubscribe(s, want.channel, want.stream, id, ok);
    if r.Reader? {
      assert KeyOfWant(want) in s'.previews;
    }
  }

  lemma LeaveMeans(s: State, id: nat)
    requires id in s.subs
    ensures var s' := AfterUnsubscribe(s, id);
            && s'.closed == s.closed && s'.previews.Keys <= s.previews.Keys
            && (s'.previews == map[] && s.previews != map[] && !s.closed ==> WentIdle(s, id))
            && (WentIdle(s, id) ==> s'.previews == map[] && !s.closed)
  {
    hide AfterStop;
  }

  lemma KeysCount(m: map<Key, Preview>)
    ensures |m| == |m.Keys| && (m == map[] <==> m.Keys == {})
  {
  }

  // The invariants

  /** The mutex is held by exactly the call that is between Lock and its release. */
  ghost predicate LockOk(w: World) {
    && (forall who :: who in w.calls && InLock(w.calls[who]) ==> w.mu == Some(who))
    && (w.mu.Some? ==> w.mu.value in w.calls && InLock(w.calls[w.mu.value]))
  }

  /** A dial is in progress exactly while one call is in openNew, and its channel is open. */
  ghost predicate DialOk(w: World) {
    && (forall who :: who in w.calls && InOpenNew(w.calls[who]) ==> w.dialing.Some? && w.dialing.value.caller == who)
    && (w.dialing.Some? ==> w.dialing.value.caller in w.calls && InOpenNew(w.calls[w.dialing.value.caller])
                            && w.dialing.value.ch !in w.woken && w.dialing.value.ch < w.next)
    && (forall ch :: ch in w.woken ==> ch < w.next)
  }

  /** A waiter's channel is closed, or is the one the dial in progress will close. */
  ghost predicate WaitersOk(w: World) {
    forall who :: who in w.calls && w.calls[who].Waiting? ==>
      w.calls[who].ch in w.woken || (w.dialing.Some? && w.dialing.value.ch == w.calls[who].ch)
  }

  /** The steps inside openNew, those that begin and end it, and the rest. */
  predicate OfOpenNew(step: Step) {
    step.DialFails? || step.DialCamera? || step.DialRecorder? || step.Mark? || step.FirstSubscribe? || step.CloseNew?
    || step.Publish?
  }

  predicate OfScan(step: Step) { step.Lock? || step.Prune? || step.Look? || step.Room? || step.Join? }

  predicate OfDial(step: Step) { step.WaitOrDial? || step.EndDial? }

  predicate OfShared(step: Step) { step.Leave? || step.ConnectionEnds? || step.Idle? }

  /** Everything but the connections, the group and the idle calls. */
  ghost predicate SameCalls(w: World, w': World) {
    && w'.calls == w.calls && w'.mu == w.mu && w'.dialing == w.dialing && w'.woken == w.woken
    && w'.next == w.next && w'.max == w.max
  }

  lemma IdleLeavesCalls(w: World, c: nat)
    requires c in w.shared
    ensures SameCalls(w, AfterIdle(w, c))
  {
    hide RemoveFirst, AfterConnClose, AfterCloseIfIdle;
  }

  lemma SharedLeavesCalls(w: World, step: Step)
    requires Enabled(w, step) && OfShared(step)
    ensures SameCalls(w, Next(w, step))
  {
    hide AfterUnsubscribe, WentIdle, AfterIdle, AfterConnectionEnd;
    if step.Idle? {
      IdleLeavesCalls(w, step.c);
    }
  }

  lemma LockScans(w: World, step: Step)
    requires LockOk(w) && Enabled(w, step) && OfScan(step)
    ensures LockOk(Next(w, step))
  {
    hide AfterSubscribe, KeyFor;
  }

  lemma LockSteps(w: World, step: Step)
    requires LockOk(w) && Enabled(w, step)
    ensures LockOk(Next(w, step))
  {
    hide AfterSubscribe, AfterConnClose, AfterIdle, AfterLeave, AfterPrune, AfterLook, AfterRoom, AfterJoin;
    if OfShared(step) {
      SharedLeavesCalls(w, step);
    } else if OfScan(step) {
      LockScans(w, step);
    }
  }

  /** A scan moves one call about outside openNew. */
  lemma JoinMoves(w: World, step: Step)
    requires Enabled(w, step) && step.Join?
    ensures var w' := Next(w, step);
            && w' == w.(shared := w'.shared, calls := w'.calls, mu := None)
            && step.who in w'.calls && w'.calls == w.calls[step.who := w'.calls[step.who]]
            && (w'.calls[step.who].Top? || w'.calls[step.who].Returned?)
  {
    hide AfterSubscribe, KeyFor;
  }

  lemma PruneMoves(w: World, step: Step)
    requires Enabled(w, step) && step.Prune?
    ensures var w' := Next(w, step);
            && w' == w.(group := w'.group, calls := w'.calls)
            && step.who in w'.calls && w'.calls == w.calls[step.who := w'.calls[step.who]]
            && (w'.calls[step.who].Pruning? || w'.calls[step.who].Looking?)
  {
  }

  lemma SearchMoves(w: World, step: Step)
    requires Enabled(w, step) && (step.Look? || step.Room?)
    ensures var w' := Next(w, step);
            && w' == w.(calls := w'.calls)
            && step.who in w'.calls && w'.calls == w.calls[step.who := w'.calls[step.who]]
            && (w'.calls[step.who].Looking? || w'.calls[step.who].Rooming? || w'.calls[step.who].Joining?)
  {
    hide KeyFor;
  }

  lemma ScanMoves(w: World, step: Step)
    requires Enabled(w, step) && OfScan(step)
    ensures var w' := Next(w, step);
            && step.who in w.calls && !InOpenNew(w.calls[step.who]) && !w.calls[step.who].Waiting?
            && w'.calls.Keys == w.calls.Keys && !InOpenNew(w'.calls[step.who]) && !w'.calls[step.who].Waiting?
            && (forall x :: x in w.calls && x != step.who ==> w'.calls[x] == w.calls[x])
            && w'.dialing == w.dialing && w'.woken == w.woken && w'.next == w.next && w'.max == w.max
            && w'.idle == w.idle && w'.idled == w.idled
  {
    hide AfterSubscribe, KeyFor, AfterJoin, AfterPrune, AfterLook, AfterRoom;
    if step.Join? {
      JoinMoves(w, step);
    } else if step.Prune? {
      PruneMoves(w, step);
    } else if !step.Lock? {
      SearchMoves(w, step);
    }
  }

  lemma DialScans(w: World, step: Step)
    requires DialOk(w) && Enabled(w, step) && OfScan(step)
    ensures DialOk(Next(w, step))
  {
    hide Enabled, Next;
    ScanMoves(w, step);
  }

  lemma DialTurns(w: World, step: Step)
    requires DialOk(w) && Enabled(w, step) && OfDial(step)
    ensures DialOk(Next(w, step))
  {
  }

  lemma DialOpens(w: World, step: Step)
    requires DialOk(w) && Enabled(w, step) && OfOpenNew(step)
    ensures DialOk(Next(w, step))
  {
    hide AfterSubscribe, AfterConnClose;
  }

  lemma DialSteps(w: World, step: Step)
    requires DialOk(w) && Enabled(w, step)
    ensures DialOk(Next(w, step))
  {
    hide AfterPrune, AfterLook, AfterRoom, AfterJoin, AfterFirst, AfterIdle, AfterLeave, AfterWaitOrDial, AfterEndDial;
    if OfShared(step) {
      SharedLeavesCalls(w, step);
    } else if OfScan(step) {
      DialScans(w, step);
    } else if OfDial(step) {
      DialTurns(w, step);
    } else if OfOpenNew(step) {
      DialOpens(w, step);
    }
  }

  lemma WaiterSteps(w: World, step: Step)
    requires DialOk(w) && WaitersOk(w) && Enabled(w, step)
    ensures WaitersOk(Next(w, step))
  {
    hide AfterSubscribe, AfterIdle, AfterLeave, AfterConnClose, AfterConnectionEnd;
    if OfShared(step) {
      SharedLeavesCalls(w, step);
    } else if OfScan(step) {
      ScanMoves(w, step);
    }
  }

  // The group, and what each call holds

  /** The connection a call in openNew has made and not yet published. */
  predicate Holds(a: At, c: nat) { (a.Opened? || a.Publishing? || a.Closing?) && a.c == c }

  /** The group is a list of known connections without repeats, none of them held by openNew. */
  ghost predicate GroupOk(w: World) {
    && Distinct(w.group)
    && (forall c :: c in w.group ==> c in w.shared)
    && (forall who, c :: who in w.calls && Holds(w.calls[who], c) ==> c in w.shared && c !in w.group)
  }

  /** A scan in progress has part of the group left, and picks from the group. */
  ghost predicate ScanOk(w: World) {
    forall who :: who in w.calls ==>
      match w.calls[who] {
        case Pruning(_, unseen, live) => Distinct(live + unseen) && forall c :: c in live + unseen ==> c in w.group
        case Looking(_, i) => i <= |w.group|
        case Rooming(_, seen) => |seen| <= |w.group|
        case Joining(_, pick) => pick in w.group
        case _ => true
      }
  }

  lemma DistinctTail(group: seq<nat>)
    requires group != [] && Distinct(group)
    ensures Distinct(group[1..]) && group[0] !in group[1..]
    ensures forall x :: x in group <==> x == group[0] || x in group[1..]
  {
  }

  lemma DistinctCons(x: nat, group: seq<nat>)
    requires Distinct(group) && x !in group
    ensures Distinct([x] + group)
  {
    assert forall i :: 0 <= i < |group| ==> group[i] in group;
  }

  lemma {:induction false} DropFrom(group: seq<nat>, c: nat)
    requires Distinct(group)
    ensures Distinct(RemoveFirst(group, c)) && forall x :: x in RemoveFirst(group, c) <==> x in group && x != c
  {
    hide Distinct;
    if group != [] {
      DistinctTail(group);
      if group[0] != c {
        DropFrom(group[1..], c);
        DistinctCons(group[0], RemoveFirst(group[1..], c));
      }
    }
  }

  lemma GroupShared(w: World, step: Step)
    requires GroupOk(w) && Enabled(w, step) && OfShared(step)
    ensures GroupOk(Next(w, step))
  {
    hide AfterUnsubscribe, WentIdle, RemoveFirst, AfterConnClose, AfterConnectionEnd, Distinct;
    if step.Idle? {
      DropFrom(w.group, step.c);
    }
  }

  lemma GroupScans(w: World, step: Step)
    requires GroupOk(w) && ScanOk(w) && Enabled(w, step) && OfScan(step)
    ensures GroupOk(Next(w, step))
  {
    hide AfterSubscribe, KeyFor, Distinct, AfterJoin, AfterPrune;
    if step.Join? {
      GroupJoins(w, step);
    } else if step.Prune? {
      GroupPrunes(w, step);
    }
  }

  lemma GroupJoins(w: World, step: Step)
    requires GroupOk(w) && Enabled(w, step) && step.Join?
    ensures GroupOk(Next(w, step))
  {
    hide AfterSubscribe, KeyFor, Distinct;
  }

  lemma GroupPrunes(w: World, step: Step)
    requires GroupOk(w) && ScanOk(w) && Enabled(w, step) && step.Prune?
    ensures GroupOk(Next(w, step))
  {
    hide Distinct;
    var a := w.calls[step.who];
    if a.unseen == [] {
      assert a.live + a.unseen == a.live;
    }
  }

  lemma GroupTurns(w: World, step: Step)
    requires GroupOk(w) && Enabled(w, step) && OfDial(step)
    ensures GroupOk(Next(w, step))
  {
    hide Distinct;
  }

  /** Only one call is in openNew. */
  lemma OneOpener(w: World, a: nat, b: nat)
    requires DialOk(w) && a in w.calls && b in w.calls && InOpenNew(w.calls[a]) && InOpenNew(w.calls[b])
    ensures a == b
  {
  }

  lemma NoOtherOpener(w: World, a: nat)
    requires DialOk(w) && a in w.calls && InOpenNew(w.calls[a])
    ensures forall b :: b in w.calls && b != a ==> !InOpenNew(w.calls[b])
  {
  }

  lemma GroupOpens(w: World, step: Step)
    requires GroupOk(w) && DialOk(w) && Enabled(w, step) && OfOpenNew(step)
    ensures GroupOk(Next(w, step))
  {
    hide AfterSubscribe, AfterConnClose, DialOk;
    var w' := Next(w, step);
    if step.Publish? {
      var c := w.calls[step.who].c;
      assert Holds(w.calls[step.who], c);
      assert forall i :: 0 <= i < |w.group| ==> w.group[i] in w.group;
      assert Distinct(w.group + [c]);
      NoOtherOpener(w, step.who);
      assert forall who :: who in w'.calls ==>
          !(w'.calls[who].Opened? || w'.calls[who].Publishing? || w'.calls[who].Closing?);
    } else {
      assert w'.group == w.group;
      forall who, x | who in w'.calls && Holds(w'.calls[who], x)
        ensures x in w'.shared && x !in w'.group
      {
        if who != step.who { assert Holds(w.calls[who], x); }
        if step.FirstSubscribe? { assert Holds(w.calls[step.who], w.calls[step.who].c); }
      }
    }
  }

  lemma GroupSteps(w: World, step: Step)
    requires GroupOk(w) && ScanOk(w) && DialOk(w) && Enabled(w, step)
    ensures GroupOk(Next(w, step))
  {
    hide AfterPrune, AfterLook, AfterRoom, AfterJoin, AfterFirst, AfterIdle, AfterLeave, AfterWaitOrDial, AfterEndDial,
      Distinct, ScanOk, DialOk;
    if OfShared(step) {
      GroupShared(w, step);
    } else if OfScan(step) {
      GroupScans(w, step);
    } else if OfDial(step) {
      GroupTurns(w, step);
    } else if OfOpenNew(step) {
      GroupOpens(w, step);
    }
  }

  lemma ScanPrunes(w: World, step: Step)
    requires GroupOk(w) && LockOk(w) && ScanOk(w) && Enabled(w, step) && (step.Lock? || step.Prune?)
    ensures ScanOk(Next(w, step))
  {
    if step.Prune? {
      var a := w.calls[step.who];
      if a.unseen == [] {
        assert a.live + a.unseen == a.live;
      } else {
        assert a.unseen == [a.unseen[0]] + a.unseen[1..];
        assert a.live + [a.unseen[0]] + a.unseen[1..] == a.live + a.unseen;
        PruneKeeps(a.live, a.unseen);
      }
    } else {
      assert [] + w.group == w.group;
    }
  }

  lemma PruneKeeps(live: seq<nat>, unseen: seq<nat>)
    requires unseen != [] && Distinct(live + unseen)
    ensures Distinct(live + unseen[1..]) && forall c :: c in live + unseen[1..] ==> c in live + unseen
  {
    var all, less := live + unseen, live + unseen[1..];
    assert forall i :: 0 <= i < |less| ==> less[i] == all[if i < |live| then i else i + 1];
  }

  lemma ScanLooks(w: World, step: Step)
    requires GroupOk(w) && LockOk(w) && ScanOk(w) && Enabled(w, step) && (step.Look? || step.Room? || step.Join?)
    ensures ScanOk(Next(w, step))
  {
    hide AfterSubscribe, Distinct, KeyFor;
  }

  /** While the mutex is free no call is scanning. */
  lemma NoScan(w: World, step: Step)
    requires LockOk(w) && Enabled(w, step) && Free(w) && !OfScan(step)
    ensures LockOk(Next(w, step)) && Next(w, step).mu.None?
    ensures forall who :: who in Next(w, step).calls ==> !InLock(Next(w, step).calls[who])
  {
    hide AfterIdle, AfterLeave, AfterFirst;
    LockSteps(w, step);
    if OfShared(step) {
      SharedLeavesCalls(w, step);
    } else if step.FirstSubscribe? {
      FirstMoves(w, step);
    }
  }

  lemma FirstMoves(w: World, step: Step)
    requires Enabled(w, step) && step.FirstSubscribe?
    ensures var w' := Next(w, step);
            && w'.mu == w.mu && w'.group == w.group && w'.calls.Keys == w.calls.Keys
            && InOpenNew(w'.calls[step.who])
            && (forall x :: x in w.calls && x != step.who ==> w'.calls[x] == w.calls[x])
  {
    hide AfterSubscribe;
  }

  /** The steps that may happen beside a scan leave the group alone. */
  lemma ScanBeside(w: World, step: Step)
    requires LockOk(w) && ScanOk(w) && Enabled(w, step) && !OfScan(step) && !Free(w)
    ensures ScanOk(Next(w, step))
  {
    hide AfterIdle, AfterLeave, AfterFirst, Distinct;
    if OfShared(step) {
      SharedLeavesCalls(w, step);
      assert Next(w, step).group == w.group by { BesideGroup(w, step); }
    } else if step.FirstSubscribe? {
      FirstMoves(w, step);
    } else {
      OthersKeepScan(w, step);
    }
  }

  /** With the mutex held, the other steps move only calls that are not scanning, and not the group. */
  lemma OthersKeepScan(w: World, step: Step)
    requires LockOk(w) && ScanOk(w) && Enabled(w, step) && !OfScan(step) && !Free(w)
    requires !OfShared(step) && !step.FirstSubscribe?
    ensures ScanOk(Next(w, step))
  {
    hide Distinct;
    assert Next(w, step).group == w.group && w.shared.Keys <= Next(w, step).shared.Keys;
  }

  lemma BesideGroup(w: World, step: Step)
    requires Enabled(w, step) && OfShared(step) && !Free(w)
    ensures Next(w, step).group == w.group
  {
    hide AfterUnsubscribe, WentIdle;
  }

  lemma ScanSteps(w: World, step: Step)
    requires GroupOk(w) && LockOk(w) && ScanOk(w) && Enabled(w, step)
    ensures ScanOk(Next(w, step))
  {
    hide GroupOk, LockOk, Next, Enabled, Distinct;
    if step.Lock? || step.Prune? {
      ScanPrunes(w, step);
    } else if OfScan(step) {
      ScanLooks(w, step);
    } else if Free(w) {
      NoScan(w, step);
    } else {
      ScanBeside(w, step);
    }
  }

  // What the connections carry

  /** A call that is scanning, or has picked, knows this of the connections while it holds the mutex. */
  ghost predicate SeenOk(w: World) {
    forall who :: who in w.calls ==> SawRight(w, w.calls[who])
  }

  ghost predicate SawRight(w: World, a: At) {
    match a
    case Looking(want, i) => forall j :: 0 <= j < i && j < |w.group| ==> Lacks(w, w.group[j], KeyOfWant(want))
    case Rooming(want, seen) =>
      && (forall j :: 0 <= j < |w.group| ==> Lacks(w, w.group[j], KeyOfWant(want)))
      && (forall j :: 0 <= j < |seen| ==> seen[j] >= w.max)
    case Joining(want, pick) => RoomFor(w, pick, KeyOfWant(want))
    case Opened(_, c) => c in w.shared && w.shared[c].previews == map[]
    case _ => true
  }

  ghost predicate Lacks(w: World, c: nat, k: Key) { c in w.shared && k !in w.shared[c].previews }

  ghost predicate RoomFor(w: World, c: nat, k: Key) {
    c in w.shared && (k in w.shared[c].previews || |w.shared[c].previews| < w.max)
  }

  ghost predicate BoundOk(w: World) {
    w.max >= 1 && forall c :: c in w.shared ==> |w.shared[c].previews| <= w.max
  }

  /** No connection there was gains a stream. */
  ghost predicate Shrinks(w: World, w': World) {
    forall c :: c in w.shared ==>
      c in w'.shared && w'.shared[c].previews.Keys <= w.shared[c].previews.Keys
      && (w.shared[c].closed ==> w'.shared[c].closed)
  }

  lemma SharedShrinks(w: World, step: Step)
    requires Enabled(w, step) && OfShared(step)
    ensures Shrinks(w, Next(w, step)) && Next(w, step).shared.Keys == w.shared.Keys
  {
    hide AfterUnsubscribe, WentIdle, RemoveFirst, AfterConnClose, AfterConnectionEnd, AfterIdle, Shrinks;
    if step.Leave? {
      LeaveMeans(w.shared[step.c], step.id);
      SetShrinks(w, step.c, AfterUnsubscribe(w.shared[step.c], step.id));
      SameShared(Set(w, step.c, AfterUnsubscribe(w.shared[step.c], step.id)), Next(w, step), w);
    } else if step.ConnectionEnds? {
      EndShrinks(w, step.c);
    } else {
      IdleShrinks(w, step.c);
    }
  }

  lemma SameShared(a: World, b: World, w: World)
    requires Shrinks(w, a) && b.shared == a.shared
    ensures Shrinks(w, b)
  {
  }

  lemma EndShrinks(w: World, c: nat)
    requires c in w.shared
    ensures Shrinks(w, Set(w, c, AfterConnectionEnd(w.shared[c])))
  {
    SetShrinks(w, c, AfterConnectionEnd(w.shared[c]));
  }

  lemma IdleShrinks(w: World, c: nat)
    requires c in w.shared
    ensures Shrinks(w, AfterIdle(w, c)) && AfterIdle(w, c).shared.Keys == w.shared.Keys
  {
    hide RemoveFirst, AfterConnClose;
  }

  lemma SetShrinks(w: World, c: nat, s: State)
    requires c in w.shared && s.previews.Keys <= w.shared[c].previews.Keys && (w.shared[c].closed ==> s.closed)
    ensures Shrinks(w, Set(w, c, s)) && Set(w, c, s).shared.Keys == w.shared.Keys
  {
  }

  /** Only Open's own Subscribe, and openNew's, add a stream to a connection. */
  lemma MostShrink(w: World, step: Step)
    requires Enabled(w, step) && !step.Join? && !step.FirstSubscribe?
    ensures Shrinks(w, Next(w, step))
    ensures forall c :: c in Next(w, step).shared ==> c in w.shared || Next(w, step).shared[c].previews == map[]
  {
    hide AfterLeave, AfterIdle, AfterConnClose, AfterJoin, AfterFirst, AfterConnectionEnd, KeyFor;
    if OfShared(step) {
      SharedShrinks(w, step);
    } else if !step.CloseNew? && !step.DialRecorder? {
      SharesSame(w, step);
    }
  }

  /** Most steps touch no connection. */
  lemma SharesSame(w: World, step: Step)
    requires Enabled(w, step) && !step.Join? && !step.FirstSubscribe? && !OfShared(step)
    requires !step.CloseNew? && !step.DialRecorder?
    ensures Next(w, step).shared == w.shared
  {
  }

  lemma FewerPreviews(a: map<Key, Preview>, b: map<Key, Preview>)
    requires b.Keys <= a.Keys
    ensures |b| <= |a| && (b.Keys != a.Keys ==> |b| < |a|)
    ensures a == map[] ==> b == map[]
  {
    KeysCount(a);
    KeysCount(b);
    if b.Keys != a.Keys {
      FewerKeys(a.Keys, b.Keys);
    }
  }

  lemma FewerKeys(a: set<Key>, b: set<Key>)
    requires b < a
    ensures |b| < |a|
  {
    var extra := a - b;
    assert a == b + extra && b !! extra;
    assert extra != {};
  }

  lemma BoundSteps(w: World, step: Step)
    requires BoundOk(w) && SeenOk(w) && Enabled(w, step)
    ensures BoundOk(Next(w, step))
  {
    hide Next, Enabled, Shrinks;
    var w' := Next(w, step);
    MaxStays(w, step);
    if step.Join? {
      JoinBound(w, step);
    } else if step.FirstSubscribe? {
      FirstBound(w, step);
    } else {
      MostShrink(w, step);
      forall c | c in w'.shared
        ensures |w'.shared[c].previews| <= w.max
      {
        if c in w.shared {
          ShrinkOne(w, w', c);
        }
      }
    }
  }

  lemma ShrinkOne(w: World, w': World, c: nat)
    requires Shrinks(w, w') && c in w.shared
    ensures c in w'.shared && |w'.shared[c].previews| <= |w.shared[c].previews|
    ensures forall k :: k in w.shared[c].previews && k !in w'.shared[c].previews ==>
              |w'.shared[c].previews| < |w.shared[c].previews|
    ensures w'.shared[c].previews.Keys <= w.shared[c].previews.Keys
    ensures w.shared[c].previews == map[] ==> w'.shared[c].previews == map[]
  {
    FewerPreviews(w.shared[c].previews, w'.shared[c].previews);
  }

  lemma MaxStays(w: World, step: Step)
    requires Enabled(w, step)
    ensures Next(w, step).max == w.max
  {
    hide AfterSubscribe, AfterUnsubscribe, WentIdle, RemoveFirst, AfterConnClose, AfterConnectionEnd, KeyFor,
      AfterCloseIfIdle;
  }

  /** A Subscribe adds at most the stream asked for. */
  lemma SubscribeCount(s: State, want: Want, id: nat, ok: bool, max: nat)
    requires id !in s.subs && |s.previews| <= max
    requires KeyOfWant(want) in s.previews || |s.previews| < max
    ensures |AfterSubscribe(s, want.channel, want.stream, id, ok).1.previews| <= max
  {
    hide AfterSubscribe, KeyFor;
    SubscribeMeans(s, want, id, ok);
    var s' := AfterSubscribe(s, want.channel, want.stream, id, ok).1;
    KeysCount(s.previews);
    KeysCount(s'.previews);
    var k := KeyOfWant(want);
    if k in s.previews {
      assert s.previews.Keys + {k} == s.previews.Keys;
    }
  }

  lemma JoinBound(w: World, step: Step)
    requires BoundOk(w) && SeenOk(w) && Enabled(w, step) && step.Join?
    ensures BoundOk(Next(w, step))
  {
    hide AfterSubscribe, KeyFor;
    var a := w.calls[step.who];
    assert SawRight(w, a);
    SubscribeCount(w.shared[a.pick], a.want, step.id, step.ok, w.max);
  }

  lemma FirstBound(w: World, step: Step)
    requires BoundOk(w) && SeenOk(w) && Enabled(w, step) && step.FirstSubscribe?
    ensures BoundOk(Next(w, step))
  {
    hide AfterSubscribe, KeyFor;
    var a := w.calls[step.who];
    assert SawRight(w, a);
    SubscribeCount(w.shared[a.c], a.want, step.id, step.ok, w.max);
  }

  // What was seen stays right

  lemma LacksStays(w: World, w': World, c: nat, k: Key)
    requires Shrinks(w, w') && Lacks(w, c, k)
    ensures Lacks(w', c, k)
  {
  }

  lemma RoomStays(w: World, w': World, c: nat, k: Key)
    requires BoundOk(w) && Shrinks(w, w') && RoomFor(w, c, k) && w'.max == w.max
    ensures RoomFor(w', c, k)
  {
    ShrinkOne(w, w', c);
  }

  /** A call that does not move, while the group stays as it is and no connection gains a stream. */
  lemma SawStays(w: World, w': World, a: At)
    requires BoundOk(w) && Shrinks(w, w') && SawRight(w, a) && w'.max == w.max
    requires InLock(a) ==> w'.group == w.group
    ensures SawRight(w', a)
  {
    hide Shrinks, KeyFor, Lacks, RoomFor;
    match a
    case Looking(want, i) =>
      forall j | 0 <= j < i && j < |w.group|
        ensures Lacks(w', w.group[j], KeyOfWant(want))
      {
        LacksStays(w, w', w.group[j], KeyOfWant(want));
      }
    case Rooming(want, seen) =>
      forall j | 0 <= j < |w.group|
        ensures Lacks(w', w.group[j], KeyOfWant(want))
      {
        LacksStays(w, w', w.group[j], KeyOfWant(want));
      }
    case Joining(want, pick) => RoomStays(w, w', pick, KeyOfWant(want));
    case Opened(_, c) => ShrinkOne(w, w', c);
    case _ =>
  }

  /** The call that moves, in every step but the two that subscribe. */
  lemma MoverSawRight(w: World, step: Step)
    requires SeenOk(w) && ScanOk(w) && Enabled(w, step) && (OfScan(step) || OfDial(step)) && !step.Join?
    requires GroupOk(w)
    ensures SawRight(Next(w, step), Next(w, step).calls[step.who])
  {
    hide KeyFor, Distinct, GroupOk, AfterLook, AfterRoom, Lacks, RoomFor;
    if step.Look? {
      LookSawRight(w, step);
    } else if step.Room? {
      RoomSawRight(w, step);
    }
  }

  lemma LookSawRight(w: World, step: Step)
    requires SeenOk(w) && ScanOk(w) && GroupOk(w) && Enabled(w, step) && step.Look?
    ensures SawRight(Next(w, step), Next(w, step).calls[step.who])
  {
    hide KeyFor, Distinct, GroupOk;
    var a := w.calls[step.who];
    assert SawRight(w, a);
    if a.i >= |w.group| {
      assert forall j :: 0 <= j < |w.group| ==> Lacks(w, w.group[j], KeyOfWant(a.want));
    }
  }

  lemma RoomSawRight(w: World, step: Step)
    requires SeenOk(w) && ScanOk(w) && GroupOk(w) && Enabled(w, step) && step.Room?
    ensures SawRight(Next(w, step), Next(w, step).calls[step.who])
  {
    hide KeyFor, Distinct, GroupOk;
    assert SawRight(w, w.calls[step.who]);
  }

  lemma OtherMoverSawRight(w: World, step: Step)
    requires Enabled(w, step) && !OfScan(step) && !OfDial(step) && !OfShared(step) && !step.FirstSubscribe?
    ensures SawRight(Next(w, step), Next(w, step).calls[step.who])
    ensures forall x :: x in w.calls && x != step.who ==> Next(w, step).calls[x] == w.calls[x]
    ensures forall x :: x in Next(w, step).calls ==> x in w.calls || x == step.who
  {
    hide AfterConnClose, KeyFor;
  }

  lemma TurnMoves(w: World, step: Step)
    requires Enabled(w, step) && OfDial(step)
    ensures forall x :: x in w.calls && x != step.who ==> Next(w, step).calls[x] == w.calls[x]
    ensures Next(w, step).calls.Keys == w.calls.Keys && step.who in w.calls && Next(w, step).group == w.group
  {
  }

  /** The group changes only while no other call scans. */
  lemma GroupStays(w: World, step: Step, x: nat)
    requires LockOk(w) && Enabled(w, step) && x in w.calls && InLock(w.calls[x])
    requires OfShared(step) || x != step.who
    ensures Next(w, step).group == w.group
  {
    hide AfterSubscribe, AfterUnsubscribe, WentIdle, RemoveFirst, AfterConnClose, AfterConnectionEnd, KeyFor,
      AfterCloseIfIdle;
  }

  lemma SeenMost(w: World, step: Step)
    requires SeenOk(w) && LockOk(w) && GroupOk(w) && ScanOk(w) && BoundOk(w) && Enabled(w, step)
    requires !step.Join? && !step.FirstSubscribe?
    ensures SeenOk(Next(w, step))
  {
    hide Next, Enabled, SawRight, GroupOk, ScanOk, LockOk, BoundOk, Shrinks;
    var w' := Next(w, step);
    MostShrink(w, step);
    MaxStays(w, step);
    if OfShared(step) {
      SharedLeavesCalls(w, step);
    } else if OfScan(step) {
      ScanMoves(w, step);
      MoverSawRight(w, step);
    } else if OfDial(step) {
      TurnMoves(w, step);
      MoverSawRight(w, step);
    } else {
      OtherMoverSawRight(w, step);
    }
    forall who | who in w'.calls
      ensures SawRight(w', w'.calls[who])
    {
      if OfShared(step) || who != step.who {
        assert w'.calls[who] == w.calls[who];
        if InLock(w.calls[who]) {
          GroupStays(w, step, who);
        }
        SawStays(w, w', w.calls[who]);
      }
    }
  }

  /** After a Subscribe on the picked connection nobody scans, and openNew's connection is another. */
  lemma SeenJoin(w: World, step: Step)
    requires SeenOk(w) && LockOk(w) && GroupOk(w) && ScanOk(w) && Enabled(w, step) && step.Join?
    ensures SeenOk(Next(w, step))
  {
    hide AfterSubscribe, KeyFor, Distinct;
    var w' := Next(w, step);
    forall who | who in w'.calls
      ensures SawRight(w', w'.calls[who])
    {
      if who != step.who {
        assert SawRight(w, w.calls[who]);
        if w.calls[who].Opened? { assert Holds(w.calls[who], w.calls[who].c); }
      }
    }
  }

  lemma SeenFirst(w: World, step: Step)
    requires SeenOk(w) && LockOk(w) && GroupOk(w) && ScanOk(w) && DialOk(w) && Enabled(w, step) && step.FirstSubscribe?
    ensures SeenOk(Next(w, step))
  {
    hide AfterSubscribe, KeyFor, Distinct, DialOk, LockOk;
    var w' := Next(w, step);
    var c := w.calls[step.who].c;
    assert Holds(w.calls[step.who], c);
    forall who | who in w'.calls
      ensures SawRight(w', w'.calls[who])
    {
      if who != step.who {
        assert SawRight(w, w.calls[who]);
        if w.calls[who].Opened? { OneOpener(w, who, step.who); }
        assert forall j :: 0 <= j < |w.group| ==> w.group[j] in w.group && w.group[j] != c;
      }
    }
  }

  lemma SeenSteps(w: World, step: Step)
    requires SeenOk(w) && LockOk(w) && GroupOk(w) && ScanOk(w) && BoundOk(w) && DialOk(w) && Enabled(w, step)
    ensures SeenOk(Next(w, step))
  {
    hide Next, Enabled, SeenOk, GroupOk, ScanOk, LockOk, BoundOk, DialOk;
    if step.Join? {
      SeenJoin(w, step);
    } else if step.FirstSubscribe? {
      SeenFirst(w, step);
    } else {
      SeenMost(w, step);
    }
  }

  // Connections nobody reads

  /** Somebody will close or fill an open connection with nothing on it: idle, or openNew. */
  ghost predicate Tended(w: World, c: nat) {
    c in w.idle || (w.dialing.Some? && w.dialing.value.caller in w.calls && Tends(w.calls[w.dialing.value.caller], c))
  }

  predicate Tends(a: At, c: nat) { (a.Opened? || a.Closing?) && a.c == c }

  ghost predicate LeakOk(w: World) {
    forall c :: c in w.shared && !w.shared[c].closed && w.shared[c].previews == map[] ==> Tended(w, c)
  }

  /** What idle has closed stays closed and empty. */
  ghost predicate IdledOk(w: World) {
    forall c :: c in w.idled ==> c in w.shared && w.shared[c].closed && w.shared[c].previews == map[]
  }

  lemma LeakLeave(w: World, step: Step)
    requires LeakOk(w) && IdledOk(w) && Enabled(w, step) && step.Leave?
    ensures LeakOk(Next(w, step)) && IdledOk(Next(w, step))
  {
    hide AfterUnsubscribe, WentIdle;
    LeaveMeans(w.shared[step.c], step.id);
    if w.shared[step.c].previews == map[] {
      LeaveEmpty(w.shared[step.c], step.id);
    }
    var w' := Next(w, step);
    assert forall c :: c in w.idle ==> c in w'.idle;
  }

  lemma LeakIdle(w: World, step: Step)
    requires LeakOk(w) && IdledOk(w) && Enabled(w, step) && step.Idle?
    ensures LeakOk(Next(w, step)) && IdledOk(Next(w, step))
  {
    hide AfterIdle;
    IdleOthers(w, step);
    IdleItself(w, step);
  }

  lemma IdleItself(w: World, step: Step)
    requires Enabled(w, step) && step.Idle?
    ensures var s, s' := w.shared[step.c], Next(w, step).shared[step.c];
            s'.previews == s.previews && (s.closed ==> s'.closed) && (s'.closed || s'.previews != map[])
  {
    hide RemoveFirst, AfterConnClose;
  }

  /** Idle touches one connection. */
  lemma IdleOthers(w: World, step: Step)
    requires Enabled(w, step) && step.Idle?
    ensures var w' := Next(w, step);
            && w'.calls == w.calls && w'.dialing == w.dialing && w'.shared.Keys == w.shared.Keys
            && (forall c :: c in w.idle && c != step.c ==> c in w'.idle)
            && (forall c :: c in w.shared && c != step.c ==> w'.shared[c] == w.shared[c])
            && (forall c :: c in w'.idled && c != step.c ==> c in w.idled)
            && w.idled <= w'.idled
            && (step.c in w'.idled ==> step.c in w.idled || w'.shared[step.c].closed)
            && (step.c in w'.idled && step.c !in w.idled ==> w'.shared[step.c].previews == map[])
  {
    hide RemoveFirst, AfterConnClose;
  }

  lemma LeakEnd(w: World, step: Step)
    requires LeakOk(w) && IdledOk(w) && Enabled(w, step) && step.ConnectionEnds?
    ensures LeakOk(Next(w, step)) && IdledOk(Next(w, step))
  {
  }

  lemma LeaveEmpty(s: State, id: nat)
    requires id in s.subs && s.previews == map[]
    ensures AfterUnsubscribe(s, id).previews == map[]
  {
  }

  lemma LeakScans(w: World, step: Step)
    requires LeakOk(w) && IdledOk(w) && DialOk(w) && Enabled(w, step) && OfScan(step)
    ensures LeakOk(Next(w, step)) && IdledOk(Next(w, step))
  {
    hide KeyFor, AfterJoin, AfterPrune, AfterLook, AfterRoom;
    ScanMoves(w, step);
    if step.Join? {
      LeakJoins(w, step);
    } else {
      ScanShares(w, step);
    }
  }

  lemma ScanShares(w: World, step: Step)
    requires Enabled(w, step) && OfScan(step) && !step.Join?
    ensures Next(w, step).shared == w.shared
  {
  }

  lemma LeakJoins(w: World, step: Step)
    requires LeakOk(w) && IdledOk(w) && DialOk(w) && Enabled(w, step) && step.Join?
    ensures LeakOk(Next(w, step)) && IdledOk(Next(w, step))
  {
    hide AfterSubscribe, KeyFor;
    JoinMoves(w, step);
    var a := w.calls[step.who];
    SubscribeMeans(w.shared[a.pick], a.want, step.id, step.ok);
  }

  lemma LeakDials(w: World, step: Step)
    requires LeakOk(w) && IdledOk(w) && DialOk(w) && Enabled(w, step) && OfDial(step)
    ensures LeakOk(Next(w, step)) && IdledOk(Next(w, step))
  {
  }

  lemma LeakFirst(w: World, step: Step)
    requires LeakOk(w) && IdledOk(w) && DialOk(w) && Enabled(w, step) && step.FirstSubscribe?
    ensures LeakOk(Next(w, step)) && IdledOk(Next(w, step))
  {
    hide AfterSubscribe, KeyFor;
    var a := w.calls[step.who];
    SubscribeMeans(w.shared[a.c], a.want, step.id, step.ok);
    FirstFills(w.shared[a.c], a.want, step.id, step.ok);
  }

  lemma LeakClose(w: World, step: Step)
    requires LeakOk(w) && IdledOk(w) && DialOk(w) && Enabled(w, step) && step.CloseNew?
    ensures LeakOk(Next(w, step)) && IdledOk(Next(w, step))
  {
    hide AfterConnClose;
  }

  lemma LeakOpens(w: World, step: Step)
    requires LeakOk(w) && IdledOk(w) && DialOk(w) && Enabled(w, step) && OfOpenNew(step)
    ensures LeakOk(Next(w, step)) && IdledOk(Next(w, step))
  {
    hide AfterFirst, AfterClose, AfterConnClose;
    if step.FirstSubscribe? {
      LeakFirst(w, step);
    } else if step.CloseNew? {
      LeakClose(w, step);
    }
  }

  lemma FirstFills(s: State, want: Want, id: nat, ok: bool)
    requires id !in s.subs
    ensures AfterSubscribe(s, want.channel, want.stream, id, ok).0.Reader? ==>
              AfterSubscribe(s, want.channel, want.stream, id, ok).1.previews != map[]
  {
    hide AfterSubscribe, KeyFor;
    SubscribeMeans(s, want, id, ok);
  }

  lemma LeakSteps(w: World, step: Step)
    requires LeakOk(w) && IdledOk(w) && DialOk(w) && Enabled(w, step)
    ensures LeakOk(Next(w, step)) && IdledOk(Next(w, step))
  {
    hide AfterPrune, AfterLook, AfterRoom, AfterJoin, AfterFirst, AfterIdle, AfterLeave, AfterWaitOrDial, AfterEndDial;
    if step.Leave? {
      LeakLeave(w, step);
    } else if step.Idle? {
      LeakIdle(w, step);
    } else if step.ConnectionEnds? {
      LeakEnd(w, step);
    } else if OfScan(step) {
      LeakScans(w, step);
    } else if OfDial(step) {
      LeakDials(w, step);
    } else if OfOpenNew(step) {
      LeakOpens(w, step);
    }
  }

  // Runs

  ghost predicate Inv(w: World) {
    LockOk(w) && DialOk(w) && WaitersOk(w) && GroupOk(w) && ScanOk(w) && BoundOk(w) && SeenOk(w) && LeakOk(w)
    && IdledOk(w)
  }

  ghost predicate IsRun(w: World, steps: seq<Step>)
    decreases |steps|
  {
    steps == [] || (Enabled(w, steps[0]) && IsRun(Next(w, steps[0]), steps[1..]))
  }

  ghost function Final(w: World, steps: seq<Step>): World
    requires IsRun(w, steps)
    decreases |steps|
  {
    if steps == [] then w else Final(Next(w, steps[0]), steps[1..])
  }

  lemma StartInv(max: nat)
    requires max >= 1
    ensures Inv(Start(max))
  {
  }

  lemma StepKeepsInv(w: World, step: Step)
    requires Inv(w) && Enabled(w, step)
    ensures Inv(Next(w, step))
  {
    hide Next, Enabled, LockOk, DialOk, WaitersOk, GroupOk, ScanOk, BoundOk, SeenOk, LeakOk, IdledOk;
    LockSteps(w, step);
    DialSteps(w, step);
    WaiterSteps(w, step);
    GroupSteps(w, step);
    ScanSteps(w, step);
    BoundSteps(w, step);
    SeenSteps(w, step);
    LeakSteps(w, step);
  }

  /** Every interleaving keeps the invariant. */
  lemma {:induction false} RunKeepsInv(w: World, steps: seq<Step>)
    requires Inv(w) && IsRun(w, steps)
    ensures Inv(Final(w, steps))
    decreases |steps|
  {
    hide Inv, Next, Enabled;
    if steps != [] {
      StepKeepsInv(w, steps[0]);
      RunKeepsInv(Next(w, steps[0]), steps[1..]);
    }
  }

  lemma {:induction false} MaxKept(w: World, steps: seq<Step>)
    requires IsRun(w, steps)
    ensures Final(w, steps).max == w.max
    decreases |steps|
  {
    hide Next, Enabled;
    if steps != [] {
      MaxStays(w, steps[0]);
      MaxKept(Next(w, steps[0]), steps[1..]);
    }
  }

  // What the invariant means to users

  /** No connection ever carries more streams than MaxPreviews. */
  lemma {:induction false} NeverOverMax(max: nat, steps: seq<Step>, c: nat)
    requires max >= 1 && IsRun(Start(max), steps) && c in Final(Start(max), steps).shared
    ensures |Final(Start(max), steps).shared[c].previews| <= max
  {
    hide Next, Enabled, LockOk, DialOk, WaitersOk, GroupOk, ScanOk, SeenOk, LeakOk, IdledOk;
    StartInv(max);
    RunKeepsInv(Start(max), steps);
    MaxKept(Start(max), steps);
  }

  /** At most one login is under way, and only its own channel is closed when it ends, once. */
  lemma {:induction false} OneDialAtATime(max: nat, steps: seq<Step>, a: nat, b: nat)
    requires max >= 1 && IsRun(Start(max), steps)
    requires var w := Final(Start(max), steps);
             a in w.calls && b in w.calls && InOpenNew(w.calls[a]) && InOpenNew(w.calls[b])
    ensures var w := Final(Start(max), steps);
            a == b && w.dialing.Some? && w.dialing.value.caller == a && w.dialing.value.ch !in w.woken
  {
    hide Next, Enabled, LockOk, WaitersOk, GroupOk, ScanOk, SeenOk, LeakOk, IdledOk, BoundOk;
    StartInv(max);
    RunKeepsInv(Start(max), steps);
  }

  /**
   A login begins only when no published connection has the stream, and each was found full by this
   very call while it held the mutex.
   */
  lemma {:induction false} DialOnlyWhenFull(max: nat, steps: seq<Step>, who: nat)
    requires max >= 1 && IsRun(Start(max), steps) && Enabled(Final(Start(max), steps), WaitOrDial(who))
    ensures var w := Final(Start(max), steps);
            var a := w.calls[who];
            && w.mu == Some(who) && |a.seen| == |w.group|
            && forall j :: 0 <= j < |w.group| ==> Lacks(w, w.group[j], KeyOfWant(a.want)) && a.seen[j] >= max
  {
    hide Next, DialOk, WaitersOk, GroupOk, LeakOk, IdledOk, BoundOk;
    StartInv(max);
    RunKeepsInv(Start(max), steps);
    MaxKept(Start(max), steps);
    var w := Final(Start(max), steps);
    assert SawRight(w, w.calls[who]);
  }

  /** A call that waits is woken already, or waits for a login that is under way and will close its channel. */
  lemma {:induction false} WaiterIsWoken(max: nat, steps: seq<Step>, who: nat)
    requires max >= 1 && IsRun(Start(max), steps)
    requires who in Final(Start(max), steps).calls && Final(Start(max), steps).calls[who].Waiting?
    ensures var w := Final(Start(max), steps);
            var ch := w.calls[who].ch;
            || Enabled(w, Wake(who))
            || (w.dialing.Some? && w.dialing.value.ch == ch && w.dialing.value.caller in w.calls
                && InOpenNew(w.calls[w.dialing.value.caller])
                && (Enabled(w, EndDial(w.dialing.value.caller)) ==>
                      Enabled(Next(w, EndDial(w.dialing.value.caller)), Wake(who))))
  {
    hide LockOk, GroupOk, ScanOk, SeenOk, LeakOk, IdledOk, BoundOk;
    StartInv(max);
    RunKeepsInv(Start(max), steps);
  }

  /** No open connection is left with nothing on it and nobody to close it. */
  lemma {:induction false} NothingIsLeaked(max: nat, steps: seq<Step>, c: nat)
    requires max >= 1 && IsRun(Start(max), steps) && c in Final(Start(max), steps).shared
    requires var s := Final(Start(max), steps).shared[c]; !s.closed && s.previews == map[]
    ensures Tended(Final(Start(max), steps), c)
  {
    hide Next, Enabled, LockOk, DialOk, WaitersOk, GroupOk, ScanOk, SeenOk, IdledOk, BoundOk, Tended;
    StartInv(max);
    RunKeepsInv(Start(max), steps);
  }

  // A scan that nothing disturbs decides as the group's own code does

  /** The first connection from i on that carries the stream, or the end. */
  ghost function FirstCarrying(w: World, k: Key, i: nat): (r: nat)
    requires i <= |w.group| && forall c :: c in w.group ==> c in w.shared
    ensures i <= r <= |w.group|
    ensures r < |w.group| ==> k in w.shared[w.group[r]].previews
    ensures forall j :: i <= j < r ==> k !in w.shared[w.group[j]].previews
    decreases |w.group| - i
  {
    if i == |w.group| || k in w.shared[w.group[i]].previews then i else FirstCarrying(w, k, i + 1)
  }

  ghost function FirstRoomy(w: World, i: nat): (r: nat)
    requires i <= |w.group| && forall c :: c in w.group ==> c in w.shared
    ensures i <= r <= |w.group|
    ensures r < |w.group| ==> |w.shared[w.group[r]].previews| < w.max
    ensures forall j :: i <= j < r ==> |w.shared[w.group[j]].previews| >= w.max
    decreases |w.group| - i
  {
    if i == |w.group| || |w.shared[w.group[i]].previews| < w.max then i else FirstRoomy(w, i + 1)
  }

  ghost predicate Undisturbed(w: World, w': World, who: nat) {
    who in w.calls && who in w'.calls && w' == w.(calls := w.calls[who := w'.calls[who]])
  }

  lemma StillUndisturbed(w: World, w1: World, w2: World, who: nat)
    requires Undisturbed(w, w1, who) && Undisturbed(w1, w2, who)
    ensures Undisturbed(w, w2, who)
  {
    assert w.calls[who := w1.calls[who]][who := w2.calls[who]] == w.calls[who := w2.calls[who]];
  }

  lemma LookOnce(w: World, who: nat)
    requires who in w.calls && w.calls[who].Looking?
    requires forall c :: c in w.group ==> c in w.shared
    ensures Enabled(w, Look(who)) && Next(w, Look(who)) == AfterLook(w, who)
    ensures Undisturbed(w, AfterLook(w, who), who)
    ensures var w1, a := AfterLook(w, who), w.calls[who];
            && w1.group == w.group && w1.shared == w.shared && w1.max == w.max && who in w1.calls
            && w1.calls[who] == if a.i >= |w.group| then Rooming(a.want, [])
                                else if KeyOfWant(a.want) in w.shared[w.group[a.i]].previews
                                then Joining(a.want, w.group[a.i]) else Looking(a.want, a.i + 1)
  {
    hide KeyFor;
  }

  lemma {:induction false} LooksUndisturbed(w: World, who: nat) returns (steps: seq<Step>)
    requires who in w.calls && w.calls[who].Looking? && w.calls[who].i <= |w.group|
    requires forall c :: c in w.group ==> c in w.shared
    ensures IsRun(w, steps) && Undisturbed(w, Final(w, steps), who)
    ensures var want := w.calls[who].want;
            var r := FirstCarrying(w, KeyOfWant(want), w.calls[who].i);
            Final(w, steps).calls[who] == if r < |w.group| then Joining(want, w.group[r]) else Rooming(want, [])
    decreases |w.group| - w.calls[who].i
  {
    hide KeyFor, Enabled, Next, IsRun, Final, Undisturbed, AfterLook;
    var a := w.calls[who];
    LookOnce(w, who);
    if a.i == |w.group| || KeyOfWant(a.want) in w.shared[w.group[a.i]].previews {
      steps := [Look(who)];
      OneStep(w, Look(who));
    } else {
      var w1 := AfterLook(w, who);
      var rest := LooksUndisturbed(w1, who);
      steps := [Look(who)] + rest;
      MoreSteps(w, Look(who), rest);
      StillUndisturbed(w, w1, Final(w1, rest), who);
      FirstSame(w, w1, KeyOfWant(a.want), a.i + 1);
    }
  }

  lemma OneStep(w: World, step: Step)
    requires Enabled(w, step)
    ensures IsRun(w, [step]) && Final(w, [step]) == Next(w, step)
  {
    hide Enabled, Next;
    assert [step][1..] == [];
    assert IsRun(Next(w, step), []);
  }

  lemma MoreSteps(w: World, step: Step, rest: seq<Step>)
    requires Enabled(w, step) && IsRun(Next(w, step), rest)
    ensures IsRun(w, [step] + rest) && Final(w, [step] + rest) == Final(Next(w, step), rest)
  {
    hide Enabled, Next;
    assert ([step] + rest)[1..] == rest;
  }

  lemma {:induction false} FirstSame(w: World, w': World, k: Key, i: nat)
    requires i <= |w.group| && forall c :: c in w.group ==> c in w.shared
    requires w'.group == w.group && w'.shared == w.shared && w'.max == w.max
    ensures FirstCarrying(w', k, i) == FirstCarrying(w, k, i) && FirstRoomy(w', i) == FirstRoomy(w, i)
    decreases |w.group| - i
  {
    if i < |w.group| {
      FirstSame(w, w', k, i + 1);
    }
  }

  lemma RoomOnce(w: World, who: nat)
    requires who in w.calls && w.calls[who].Rooming? && |w.calls[who].seen| < |w.group|
    requires forall c :: c in w.group ==> c in w.shared
    ensures Enabled(w, Room(who)) && Next(w, Room(who)) == AfterRoom(w, who)
    ensures Undisturbed(w, AfterRoom(w, who), who)
    ensures var w1, a := AfterRoom(w, who), w.calls[who];
            var c := w.group[|a.seen|];
            && w1.group == w.group && w1.shared == w.shared && w1.max == w.max && who in w1.calls
            && w1.calls[who] == if |w.shared[c].previews| < w.max then Joining(a.want, c)
                                else Rooming(a.want, a.seen + [|w.shared[c].previews|])
  {
    hide KeyFor;
  }

  lemma NoSteps(w: World, who: nat)
    requires who in w.calls
    ensures IsRun(w, []) && Final(w, []) == w && Undisturbed(w, w, who)
  {
    assert w.calls[who := w.calls[who]] == w.calls;
  }

  lemma {:induction false} RoomsUndisturbed(w: World, who: nat) returns (steps: seq<Step>)
    requires who in w.calls && w.calls[who].Rooming? && |w.calls[who].seen| <= |w.group|
    requires forall c :: c in w.group ==> c in w.shared
    ensures IsRun(w, steps) && Undisturbed(w, Final(w, steps), who)
    ensures var r := FirstRoomy(w, |w.calls[who].seen|);
            var a := Final(w, steps).calls[who];
            if r < |w.group| then a == Joining(w.calls[who].want, w.group[r])
            else a.Rooming? && a.want == w.calls[who].want && |a.seen| == |w.group|
    decreases |w.group| - |w.calls[who].seen|
  {
    hide KeyFor, Enabled, Next, IsRun, Final, Undisturbed, AfterRoom;
    var a := w.calls[who];
    if |a.seen| == |w.group| {
      steps := [];
      NoSteps(w, who);
    } else {
      RoomOnce(w, who);
      var w1 := AfterRoom(w, who);
      if |w.shared[w.group[|a.seen|]].previews| < w.max {
        steps := [Room(who)];
        OneStep(w, Room(who));
      } else {
        var rest := RoomsUndisturbed(w1, who);
        steps := [Room(who)] + rest;
        MoreSteps(w, Room(who), rest);
        StillUndisturbed(w, w1, Final(w1, rest), who);
        FirstSame(w, w1, Key(0, 0), |a.seen| + 1);
      }
    }
  }

  // A stream can end up on two connections

  lemma CallOnce(w: World, who: nat, want: Want)
    requires who !in w.calls
    ensures Enabled(w, Call(who, want)) && Next(w, Call(who, want)) == Goes(w, who, Top(want))
  {
  }

  /** With no connection there, a new call begins a login. */
  lemma {:induction false} LogsIn(w: World, who: nat, want: Want) returns (steps: seq<Step>)
    requires who !in w.calls && Free(w) && !w.camera && w.group == [] && w.dialing.None?
    ensures IsRun(w, steps)
    ensures Final(w, steps)
         == w.(calls := w.calls[who := Dialing(want)], dialing := Some(Dial(w.next, who)), next := w.next + 1)
  {
    CallOnce(w, who, want);
    var w1 := Next(w, Call(who, want));
    var w2 := Next(w1, Lock(who));
    assert w2.calls == w.calls[who := Pruning(want, [], [])];
    var rest := DialsAlone(w2, who);
    MoreSteps(w1, Lock(who), rest);
    MoreSteps(w, Call(who, want), [Lock(who)] + rest);
    steps := [Call(who, want)] + ([Lock(who)] + rest);
  }

  /** From having found no connection to the login. */
  lemma {:induction false} DialsAlone(w: World, who: nat) returns (steps: seq<Step>)
    requires who in w.calls && w.calls[who].Pruning? && w.calls[who].unseen == w.calls[who].live == []
    requires w.group == [] && w.dialing.None?
    ensures IsRun(w, steps)
    ensures Final(w, steps) == w.(calls := w.calls[who := Dialing(w.calls[who].want)],
                                  dialing := Some(Dial(w.next, who)), next := w.next + 1, mu := None)
  {
    var w1 := Next(w, Prune(who));
    var w2 := Next(w1, Look(who));
    var w3 := Next(w2, WaitOrDial(who));
    assert w3.calls == w.calls[who := Dialing(w.calls[who].want)];
    OneStep(w2, WaitOrDial(who));
    MoreSteps(w1, Look(who), [WaitOrDial(who)]);
    MoreSteps(w, Prune(who), [Look(who)] + [WaitOrDial(who)]);
    steps := [Prune(who)] + ([Look(who)] + [WaitOrDial(who)]);
  }

  /** A call waiting to begin, the only connection open and with room: the call joins it. */
  lemma {:induction false} JoinsTheOnly(w: World, b: nat, c: nat, id: nat) returns (steps: seq<Step>)
    requires b in w.calls && w.calls[b].Top? && Free(w) && !w.camera && w.group == [c] && c in w.shared
    requires !w.shared[c].closed && |w.shared[c].previews| < w.max && id !in w.shared[c].subs
    requires KeyOfWant(w.calls[b].want) !in w.shared[c].previews
    ensures IsRun(w, steps)
    ensures var want := w.calls[b].want;
            var s := AfterSubscribe(w.shared[c], want.channel, want.stream, id, true).1;
            && Final(w, steps) == w.(shared := w.shared[c := s], calls := w.calls[b := Returned(GotReader(c, id))])
            && s.previews.Keys == w.shared[c].previews.Keys + {KeyOfWant(want)}
  {
    hide AfterSubscribe, KeyFor;
    var want := w.calls[b].want;
    var w1 := Next(w, Lock(b));
    var w2 := Next(w1, Prune(b));
    var w3 := Next(w2, Prune(b));
    assert w3 == w.(calls := w.calls[b := Looking(want, 0)], mu := Some(b));
    var rest := ScansToTheOnly(w3, b, c);
    var w5 := Final(w3, rest);
    SubscribeMeans(w.shared[c], want, id, true);
    JoinSucceeds(w.shared[c], want, id);
    OneStep(w5, Join(b, id, true));
    RunOn(w3, rest, [Join(b, id, true)]);
    var tail := rest + [Join(b, id, true)];
    MoreSteps(w2, Prune(b), tail);
    MoreSteps(w1, Prune(b), [Prune(b)] + tail);
    MoreSteps(w, Lock(b), [Prune(b)] + ([Prune(b)] + tail));
    steps := [Lock(b)] + ([Prune(b)] + ([Prune(b)] + tail));
    var f := Next(w5, Join(b, id, true));
    assert f.calls == w.calls[b := Returned(GotReader(c, id))];
  }

  lemma {:induction false} ScansToTheOnly(w: World, b: nat, c: nat) returns (steps: seq<Step>)
    requires b in w.calls && w.calls[b].Looking? && w.calls[b].i == 0 && w.group == [c] && c in w.shared
    requires |w.shared[c].previews| < w.max && KeyOfWant(w.calls[b].want) !in w.shared[c].previews
    ensures IsRun(w, steps)
    ensures Final(w, steps) == w.(calls := w.calls[b := Joining(w.calls[b].want, c)])
  {
    hide KeyFor, Enabled, Next;
    var rest := LooksUndisturbed(w, b);
    var w1 := Final(w, rest);
    var more := RoomsUndisturbed(w1, b);
    RunOn(w, rest, more);
    StillUndisturbed(w, w1, Final(w1, more), b);
    steps := rest + more;
  }

  /** The only connection is full and does not carry the stream: the call begins a login. */
  lemma {:induction false} DialsBesideTheOnly(w: World, b: nat, c: nat) returns (steps: seq<Step>)
    requires b in w.calls && w.calls[b].Top? && Free(w) && !w.camera && w.group == [c] && c in w.shared
    requires !w.shared[c].closed && |w.shared[c].previews| >= w.max && w.dialing.None?
    requires KeyOfWant(w.calls[b].want) !in w.shared[c].previews
    ensures IsRun(w, steps)
    ensures Final(w, steps) == w.(calls := w.calls[b := Dialing(w.calls[b].want)],
                                  dialing := Some(Dial(w.next, b)), next := w.next + 1)
  {
    hide KeyFor;
    var want := w.calls[b].want;
    var w1 := Next(w, Lock(b));
    var w2 := Next(w1, Prune(b));
    var w3 := Next(w2, Prune(b));
    assert w3 == w.(calls := w.calls[b := Looking(want, 0)], mu := Some(b));
    var rest := ScansAllFull(w3, b, c);
    var w5 := Final(w3, rest);
    OneStep(w5, WaitOrDial(b));
    RunOn(w3, rest, [WaitOrDial(b)]);
    var tail := rest + [WaitOrDial(b)];
    MoreSteps(w2, Prune(b), tail);
    MoreSteps(w1, Prune(b), [Prune(b)] + tail);
    MoreSteps(w, Lock(b), [Prune(b)] + ([Prune(b)] + tail));
    steps := [Lock(b)] + ([Prune(b)] + ([Prune(b)] + tail));
    var f := Next(w5, WaitOrDial(b));
    assert f.calls == w.calls[b := Dialing(want)];
  }

  lemma {:induction false} ScansAllFull(w: World, b: nat, c: nat) returns (steps: seq<Step>)
    requires b in w.calls && w.calls[b].Looking? && w.calls[b].i == 0 && w.group == [c] && c in w.shared
    requires |w.shared[c].previews| >= w.max && KeyOfWant(w.calls[b].want) !in w.shared[c].previews
    ensures IsRun(w, steps)
    ensures Undisturbed(w, Final(w, steps), b)
    ensures var a := Final(w, steps).calls[b]; a.Rooming? && a.want == w.calls[b].want && |a.seen| == 1
  {
    hide KeyFor, Enabled, Next;
    var rest := LooksUndisturbed(w, b);
    var w1 := Final(w, rest);
    var more := RoomsUndisturbed(w1, b);
    RunOn(w, rest, more);
    StillUndisturbed(w, w1, Final(w1, more), b);
    steps := rest + more;
  }

  lemma JoinSucceeds(s: State, want: Want, id: nat)
    requires !s.closed && id !in s.subs
    ensures AfterSubscribe(s, want.channel, want.stream, id, true).0.Reader?
  {
  }

  lemma {:induction false} RunOn(w: World, a: seq<Step>, b: seq<Step>)
    requires IsRun(w, a) && IsRun(Final(w, a), b)
    ensures IsRun(w, a + b) && Final(w, a + b) == Final(Final(w, a), b)
    decreases |a|
  {
    hide Enabled, Next;
    if a == [] {
      assert a + b == b;
    } else {
      assert (a + b)[1..] == a[1..] + b;
      RunOn(Next(w, a[0]), a[1..], b);
    }
  }

  /** A login under way brings its stream up on a new connection, whatever the others carry by then. */
  lemma {:induction false} DialLands(w: World, a: nat, c2: nat, id2: nat) returns (steps: seq<Step>)
    requires a in w.calls && w.calls[a].Dialing? && Free(w) && c2 !in w.shared
    ensures IsRun(w, steps)
    ensures var f := Final(w, steps);
            && f.group == w.group + [c2] && c2 in f.shared && KeyOfWant(w.calls[a].want) in f.shared[c2].previews
            && forall c :: c in w.shared ==> c in f.shared && f.shared[c] == w.shared[c]
  {
    var w1 := Next(w, DialRecorder(a, c2));
    var rest := OpenedLands(w1, a, id2);
    MoreSteps(w, DialRecorder(a, c2), rest);
    steps := [DialRecorder(a, c2)] + rest;
  }

  /** From a new connection to its being published with the call's stream on it. */
  lemma {:induction false} OpenedLands(w: World, a: nat, id2: nat) returns (steps: seq<Step>)
    requires a in w.calls && w.calls[a].Opened? && Free(w) && w.calls[a].c in w.shared
    requires w.shared[w.calls[a].c] == Blank()
    ensures IsRun(w, steps)
    ensures var f, c2 := Final(w, steps), w.calls[a].c;
            && f.group == w.group + [c2] && c2 in f.shared && KeyOfWant(w.calls[a].want) in f.shared[c2].previews
            && forall c :: c in w.shared && c != c2 ==> c in f.shared && f.shared[c] == w.shared[c]
  {
    hide AfterSubscribe, KeyFor;
    var want := w.calls[a].want;
    var w1 := Next(w, FirstSubscribe(a, id2, true));
    SubscribeMeans(Blank(), want, id2, true);
    JoinSucceeds(Blank(), want, id2);
    OneStep(w1, Publish(a));
    MoreSteps(w, FirstSubscribe(a, id2, true), [Publish(a)]);
    steps := [FirstSubscribe(a, id2, true)] + [Publish(a)];
  }

  /**
   A stream is not confined to one connection: while a login for it is under way, a second call that
   finds room on the connection there is takes it, and the login then brings the stream up again.
   */
  lemma {:induction false} OneStreamTwice(w: World, a: nat, b: nat, c: nat, id: nat, c2: nat, id2: nat)
      returns (steps: seq<Step>)
    requires a in w.calls && b in w.calls && a != b && w.calls[b].Top? && w.calls[a] == Dialing(w.calls[b].want)
    requires Free(w) && !w.camera && w.group == [c] && c in w.shared && c2 !in w.shared
    requires !w.shared[c].closed && |w.shared[c].previews| < w.max && id !in w.shared[c].subs
    requires KeyOfWant(w.calls[b].want) !in w.shared[c].previews
    ensures IsRun(w, steps)
    ensures var f, k := Final(w, steps), KeyOfWant(w.calls[b].want);
            && f.group == [c, c2] && c in f.shared && c2 in f.shared
            && k in f.shared[c].previews && k in f.shared[c2].previews
  {
    hide AfterSubscribe, KeyFor, Enabled, Next;
    var joins := JoinsTheOnly(w, b, c, id);
    var f := Final(w, joins);
    var lands := DialLands(f, a, c2, id2);
    RunOn(w, joins, lands);
    steps := joins + lands;
  }

  // Addresses of cameras

  /** While an address is known for a camera's, no step but a login that finds a recorder there changes that. */
  lemma {:induction false} CameraStays(w: World, steps: seq<Step>)
    requires w.camera && IsRun(w, steps) && forall i :: 0 <= i < |steps| ==> !steps[i].CameraReset?
    ensures Final(w, steps).camera
    decreases |steps|
  {
    hide Next, Enabled;
    if steps != [] {
      StepKeepsCamera(w, steps[0]);
      CameraStays(Next(w, steps[0]), steps[1..]);
    }
  }

  lemma StepKeepsCamera(w: World, step: Step)
    requires Enabled(w, step) && w.camera && !step.CameraReset?
    ensures Next(w, step).camera
  {
    hide AfterSubscribe, AfterUnsubscribe, AfterConnClose, KeyFor, WentIdle, AfterClose, AfterConnectionEnd;
  }

  /**
   Once a login has found a camera, a call that takes the lock dials for itself, and never again looks through the
   pool or waits for another's login, until such a call finds a recorder at the address. Then calls share again.
   */
  lemma {:induction false} CameraDialsAlone(w: World, who: nat, steps: seq<Step>, x: nat)
    requires Enabled(w, Mark(who)) && IsRun(Next(w, Mark(who)), steps)
    requires forall i :: 0 <= i < |steps| ==> !steps[i].CameraReset?
    requires Enabled(Final(Next(w, Mark(who)), steps), Lock(x))
    ensures var f := Next(Final(Next(w, Mark(who)), steps), Lock(x));
            f.calls[x] == CameraDial && Free(f)
  {
    var w' := Next(w, Mark(who));
    assert w'.camera;
    CameraStays(w', steps);
  }

  /** Such a call returns with a connection of its own or an error; finding a recorder, it turns sharing on first. */
  lemma CameraDialEnds(w: World, x: nat, ok: bool, recorder: bool)
    requires Enabled(w, CameraDialed(x, ok, recorder))
    ensures var f := Next(w, CameraDialed(x, ok, recorder));
            && (!ok ==> f.calls[x] == Returned(Failed))
            && (ok && !recorder ==> f.calls[x] == Returned(GotConn))
            && (ok && recorder && Free(f) ==>
                  Enabled(f, CameraReset(x))
                  && Next(f, CameraReset(x)) == f.(calls := f.calls[x := Returned(GotConn)], camera := false))
  {
  }

  // What a call makes of its reader

  /**
   A call fails at a connection it picked only when the stream had to be started there and could not be. One that
   was closed meanwhile sends it round again.
   */
  lemma JoinAnswers(w: World, who: nat, id: nat, ok: bool)
    requires Enabled(w, Join(who, id, ok))
    ensures var a, f := w.calls[who], Next(w, Join(who, id, ok));
            var s := w.shared[a.pick];
            && Free(f)
            && (s.closed ==> f.calls[who] == Top(a.want) && f.shared == w.shared)
            && (f.calls[who] == Returned(Failed) <==> !s.closed && KeyOfWant(a.want) !in s.previews && !ok)
            && (!s.closed && (ok || KeyOfWant(a.want) in s.previews) ==>
                  f.calls[who] == Returned(GotReader(a.pick, id)) && id in f.shared[a.pick].subs)
  {
    hide AfterStart, KeyFor;
    SubscribeMeans(w.shared[w.calls[who].pick], w.calls[who].want, id, ok);
  }

  /** A waiter that is woken to find one connection, with room, gets its reader there. */
  lemma {:induction false} WaiterJoins(w: World, who: nat, c: nat, id: nat) returns (steps: seq<Step>)
    requires who in w.calls && w.calls[who].Waiting? && w.calls[who].ch in w.woken
    requires Free(w) && !w.camera && w.group == [c] && c in w.shared && !w.shared[c].closed
    requires |w.shared[c].previews| < w.max && KeyOfWant(w.calls[who].want) !in w.shared[c].previews
    requires id !in w.shared[c].subs
    ensures IsRun(w, steps) && who in Final(w, steps).calls
    ensures Final(w, steps).calls[who] == Returned(GotReader(c, id))
  {
    hide AfterSubscribe, KeyFor;
    var w1 := Next(w, Wake(who));
    var rest := JoinsTheOnly(w1, who, c, id);
    MoreSteps(w, Wake(who), rest);
    steps := [Wake(who)] + rest;
  }

  /** A connection that idle closes leaves the group, and no other does. */
  lemma IdleTakesOut(w: World, c: nat)
    requires Distinct(w.group) && Enabled(w, Idle(c))
    ensures var f := Next(w, Idle(c));
            if w.shared[c].previews == map[] && !w.shared[c].closed
            then f.shared[c].closed && forall d :: d in f.group <==> d in w.group && d != c
            else f.group == w.group && f.shared == w.shared
  {
    hide RemoveFirst, AfterConnClose;
    RemovedOnce(w.group, c);
  }

  lemma {:induction false} RemovedOnce(s: seq<nat>, c: nat)
    requires Distinct(s)
    ensures forall d :: d in RemoveFirst(s, c) <==> d in s && d != c
    decreases |s|
  {
    if s != [] {
      RemovedOnce(s[1..], c);
      assert s[0] !in s[1..];
      assert forall d :: d in s <==> d == s[0] || d in s[1..];
    }
  }
}
