/**
 Every interleaving of the critical sections of Shared: subscribers, readers that close, the
 demultiplexer delivering outside the lock, readers that stall, and the connection ending, going
 idle or being closed.
 */
module SharedRuns {
  import opened Lists
  import opened Wrappers
  import opened Shared

  /** Where demux is: the message it is delivering and to whom, or the end it is handing out. */
  datatype Phase =
    | Reading
    | Delivering(m: Message, to: set<nat>)
    | Dropping(id: nat, m: Message, to: set<nat>)
    | Ending(left: set<nat>)
    | Done

  /** How a reader joined the run of a stream that has this handle: as its first, or after how many messages. */
  datatype Joined = Joined(handle: nat, first: bool, at: nat)

  /** The state with its history: the messages routed to each run of a stream, by its handle, and how readers joined. */
  datatype World = World(s: State, phase: Phase, hist: map<nat, seq<Message>>, joined: map<nat, Joined>)

  datatype Outcome = SentIt | GaveUp | Stalled

  datatype Step =
    | Subscribe(channel: int, stream: string, id: nat, ok: bool)
    | CloseQuit(id: nat)
    | Unsubscribe(id: nat)
    | TakeOne(id: nat)
    | Route(m: Message)
    | Deliver(id: nat, outcome: Outcome)
    | Delivered
    | DropUnsubscribe
    | ConnectionEnd
    | EndReader(id: nat)
    | Finish
    | CloseIfIdle
    | CloseFlag
    | ConnClose

  /** When each step can happen. */
  ghost predicate Enabled(w: World, step: Step) {
    match step
    case Subscribe(_, _, id, _) => id !in w.s.subs
    case CloseQuit(id) => id in w.s.subs
    case Unsubscribe(id) => id in w.s.subs && w.s.subs[id].quit
    case TakeOne(id) => id in w.s.subs && w.s.subs[id].queued > 0
    case Route(_) =>
      w.phase == Reading
      && forall key, id :: key in w.s.previews && id in w.s.previews[key].readers ==> id in w.s.subs
    case Deliver(id, outcome) =>
      w.phase.Delivering? && id in w.phase.to && id in w.s.subs &&
      match outcome {
        case SentIt => w.s.subs[id].queued < QUEUE
        case GaveUp => w.s.subs[id].quit
        case Stalled => true
      }
    case Delivered => w.phase.Delivering? && w.phase.to == {}
    case DropUnsubscribe => w.phase.Dropping? && w.phase.id in w.s.subs
    case ConnectionEnd => w.phase == Reading
    case EndReader(id) => w.phase.Ending? && id in w.phase.left && id in w.s.subs
    case Finish => w.phase.Ending? && w.phase.left == {}
    case CloseIfIdle => true
    case CloseFlag => true
    case ConnClose => w.s.closed
  }

  function Update(s: State, id: nat, sub: Sub): State { s.(subs := s.subs[id := sub]) }

  function HistoryOf(w: World, h: nat): seq<Message> { if h in w.hist then w.hist[h] else [] }

  ghost function Next(w: World, step: Step): World
    requires Enabled(w, step)
  {
    match step
    case Subscribe(channel, stream, id, ok) =>
      var (r, s') := AfterSubscribe(w.s, channel, stream, id, ok);
      if !r.Reader? then w.(s := s') else
      var key := KeyFor(channel, stream);
      if key !in w.s.previews then
        w.(s := s', hist := w.hist[s'.handle := []], joined := w.joined[id := Joined(s'.handle, true, 0)])
      else
        var p := w.s.previews[key];
        var at := |HistoryOf(w, p.stream.handle)|;
        w.(s := s', joined := w.joined[id := Joined(p.stream.handle, false, at)])
    case CloseQuit(id) => w.(s := Update(w.s, id, w.s.subs[id].(quit := true)))
    case Unsubscribe(id) => w.(s := AfterUnsubscribe(w.s, id))
    case TakeOne(id) => w.(s := Update(w.s, id, w.s.subs[id].(queued := w.s.subs[id].queued - 1)))
    case Route(m) =>
      var (to, s') := AfterRoute(w.s, m);
      var key := KeyOf(m);
      if m.msgID != MSG_VIDEO || key !in w.s.previews then w else
      var h := w.s.previews[key].stream.handle;
      w.(s := s', phase := Delivering(m, to), hist := w.hist[h := HistoryOf(w, h) + [m]])
    case Deliver(id, outcome) =>
      var m, to := w.phase.m, w.phase.to - {id};
      (match outcome
       case SentIt => w.(s := Update(w.s, id, Sent(w.s.subs[id], m)), phase := Delivering(m, to))
       case GaveUp => w.(phase := Delivering(m, to))
       case Stalled => w.(s := Update(w.s, id, Ended(w.s.subs[id], ReaderStalled)), phase := Dropping(id, m, to)))
    case Delivered => w.(phase := Reading)
    case DropUnsubscribe => w.(s := AfterUnsubscribe(w.s, w.phase.id), phase := Delivering(w.phase.m, w.phase.to))
    case ConnectionEnd => w.(s := AfterConnectionEnd(w.s), phase := Ending(Readers(w.s)))
    case EndReader(id) =>
      w.(s := Update(w.s, id, Ended(w.s.subs[id], ConnectionEnded)), phase := Ending(w.phase.left - {id}))
    case Finish => w.(phase := Done)
    case CloseIfIdle => w.(s := AfterCloseIfIdle(w.s))
    case CloseFlag => w.(s := AfterClose(w.s))
    case ConnClose => w.(s := w.s.(conn := AfterConnClose(w.s.conn)))
  }

  function Start(): World {
    World(State(ConnState([], [], [], false), map[], map[], 0, false), Reading, map[], map[])
  }

  // Streams: what is running on the connection and what has been asked of it

  /** The streams the connection still owes a stop. */
  function Owed(c: ConnState): seq<Stream> { if c.closed then [] else c.also }

  ghost predicate DistinctHandles(also: seq<Stream>) {
    forall i, j :: 0 <= i < j < |also| ==> also[i].handle != also[j].handle
  }

  ghost predicate RisingHandles(started: seq<Stream>, top: nat) {
    && (forall i, j :: 0 <= i < j < |started| ==> started[i].handle < started[j].handle)
    && (forall a :: a in started ==> a.handle <= top)
  }

  /** Every request to start a stream is answered by one stop, given or still owed, and handles never repeat. */
  ghost predicate AccountsOk(c: ConnState, top: nat) {
    && multiset(c.started) == multiset(c.stopped) + multiset(Owed(c))
    && RisingHandles(c.started, top) && DistinctHandles(c.also)
    && (forall a :: a in c.also ==> a.handle <= top)
  }

  /** The connection's list is exactly the previews while open, and covers them afterwards. */
  ghost predicate ListMatches(also: seq<Stream>, previews: map<Key, Preview>, closed: bool) {
    && (forall key :: key in previews ==> previews[key].stream in also && KeyOfStream(previews[key].stream) == key)
    && (!closed ==> forall a :: a in also ==> KeyOfStream(a) in previews && previews[KeyOfStream(a)].stream == a)
  }

  function KeyOfStream(a: Stream): Key { KeyFor(a.channel, a.name) }

  ghost predicate StreamsOk(s: State) {
    && AccountsOk(s.conn, s.handle) && ListMatches(s.conn.also, s.previews, s.closed)
    && (s.conn.closed ==> s.closed)
  }

  lemma {:induction false} RemoveFirstAt(s: seq<Stream>, a: Stream) returns (k: nat)
    requires a in s
    ensures k < |s| && s[k] == a && RemoveFirst(s, a) == s[..k] + s[k + 1..]
  {
    if s[0] == a {
      k := 0;
    } else {
      var j := RemoveFirstAt(s[1..], a);
      k := j + 1;
    }
  }

  /** Taking one stream off a list of distinct handles leaves the others, each once. */
  lemma {:induction false} RemoveFirstOf(s: seq<Stream>, a: Stream)
    requires DistinctHandles(s) && a in s
    ensures DistinctHandles(RemoveFirst(s, a))
    ensures multiset(RemoveFirst(s, a)) + multiset{a} == multiset(s)
    ensures forall b :: b in RemoveFirst(s, a) <==> b in s && b.handle != a.handle
  {
    hide RemoveFirst;
    var k := RemoveFirstAt(s, a);
    assert s == s[..k] + [a] + s[k + 1..];
  }

  lemma StopKeepsAccounts(c: ConnState, top: nat, a: Stream)
    requires AccountsOk(c, top) && a in c.also && !c.closed
    ensures AccountsOk(AfterStop(c, a), top)
  {
    RemoveFirstOf(c.also, a);
    assert multiset(c.stopped + [a]) == multiset(c.stopped) + multiset{a};
  }

  lemma StopKeepsMatch(c: ConnState, previews: map<Key, Preview>, key: Key)
    requires DistinctHandles(c.also) && ListMatches(c.also, previews, false) && key in previews
    ensures ListMatches(AfterStop(c, previews[key].stream).also, previews - {key}, false)
  {
    var a := previews[key].stream;
    RemoveFirstOf(c.also, a);
    forall k | k in previews && k != key
      ensures previews[k].stream.handle != a.handle
    {
      if previews[k].stream.handle == a.handle {
        SameHandle(c.also, previews[k].stream, a);
      }
    }
  }

  lemma SameHandle(also: seq<Stream>, a: Stream, b: Stream)
    requires DistinctHandles(also) && a in also && b in also && a.handle == b.handle
    ensures a == b
  {
  }

  lemma StartKeepsAccounts(c: ConnState, top: nat, a: Stream, ok: bool)
    requires AccountsOk(c, top) && a.handle == top + 1 && !c.closed
    ensures AccountsOk(AfterStart(c, a, ok), top + 1)
  {
    HandleAdded(c, top, a);
    hide DistinctHandles;
    if ok {
      hide RisingHandles;
      assert multiset(c.started + [a]) == multiset(c.started) + multiset{a};
      assert multiset(c.also + [a]) == multiset(c.also) + multiset{a};
    }
  }

  lemma HandleAdded(c: ConnState, top: nat, a: Stream)
    requires AccountsOk(c, top) && a.handle == top + 1
    ensures DistinctHandles(c.also + [a]) && RisingHandles(c.started + [a], top + 1)
  {
  }

  lemma StartKeepsMatch(also: seq<Stream>, previews: map<Key, Preview>, key: Key, p: Preview)
    requires ListMatches(also, previews, false) && key !in previews && KeyOfStream(p.stream) == key
    ensures ListMatches(also + [p.stream], previews[key := p], false)
  {
  }

  lemma UnsubscribeKeepsStreams(s: State, id: nat)
    requires StreamsOk(s) && id in s.subs
    ensures StreamsOk(AfterUnsubscribe(s, id))
  {
    hide AccountsOk, AfterStop, KeyFor;
    var key := s.subs[id].key;
    if key in s.previews && id in s.previews[key].readers && s.previews[key].readers - {id} == {} && !s.closed {
      StopKeepsAccounts(s.conn, s.handle, s.previews[key].stream);
      AccountsDistinct(s.conn, s.handle);
      StopKeepsMatch(s.conn, s.previews, key);
      assert AfterStop(s.conn, s.previews[key].stream).closed == s.conn.closed by {
        StopKeepsClosed(s.conn, s.previews[key].stream);
      }
    }
  }

  lemma StopKeepsClosed(c: ConnState, a: Stream)
    ensures AfterStop(c, a).closed == c.closed
  {
  }

  lemma AccountsDistinct(c: ConnState, top: nat)
    requires AccountsOk(c, top)
    ensures DistinctHandles(c.also)
  {
  }

  lemma SubscribeKeepsStreams(s: State, channel: int, stream: string, id: nat, ok: bool)
    requires StreamsOk(s)
    ensures StreamsOk(AfterSubscribe(s, channel, stream, id, ok).1)
  {
    hide AccountsOk, KeyFor;
    var key, a := KeyFor(channel, stream), Stream(channel, s.handle + 1, stream);
    if !s.closed && key !in s.previews {
      StartKeepsAccounts(s.conn, s.handle, a, ok);
      StartKeepsMatch(s.conn.also, s.previews, key, Preview(a, {id}, None));
    }
  }

  lemma RouteKeepsStreams(w: World, step: Step)
    requires StreamsOk(w.s) && Enabled(w, step) && step.Route?
    ensures StreamsOk(Next(w, step).s)
  {
    hide KeyFor, KeyOf, AccountsOk, IsInfoMessage, Wants, Gated;
  }

  /** The steps that end the connection or close it. */
  lemma CloseKeepsStreams(w: World, step: Step)
    requires StreamsOk(w.s) && Enabled(w, step)
    requires step.ConnectionEnd? || step.CloseIfIdle? || step.CloseFlag? || step.ConnClose?
    ensures StreamsOk(Next(w, step).s)
  {
    hide KeyFor, AccountsOk;
    if step.ConnClose? {
      CloseKeepsAccounts(w.s.conn, w.s.handle);
    }
  }

  lemma CloseKeepsAccounts(c: ConnState, top: nat)
    requires AccountsOk(c, top)
    ensures AccountsOk(AfterConnClose(c), top)
  {
    hide DistinctHandles, RisingHandles;
    assert multiset(c.stopped + c.also) == multiset(c.stopped) + multiset(c.also);
  }

  /** The rest touch no stream. */
  lemma OtherKeepsStreams(w: World, step: Step)
    requires StreamsOk(w.s) && Enabled(w, step)
    requires !step.Subscribe? && !step.Unsubscribe? && !step.DropUnsubscribe? && !step.Route?
    requires !step.ConnectionEnd? && !step.CloseIfIdle? && !step.CloseFlag? && !step.ConnClose?
    ensures StreamsOk(Next(w, step).s)
  {
    hide KeyFor, AccountsOk, ListMatches;
  }

  lemma StepKeepsStreams(w: World, step: Step)
    requires StreamsOk(w.s) && Enabled(w, step)
    ensures StreamsOk(Next(w, step).s)
  {
    hide AfterSubscribe, AfterUnsubscribe, AfterRoute, AfterConnClose, KeyFor, StreamsOk;
    match step
    case Subscribe(channel, stream, id, ok) =>
      SubscribeKeepsStreams(w.s, channel, stream, id, ok);
    case Unsubscribe(id) => UnsubscribeKeepsStreams(w.s, id);
    case DropUnsubscribe => UnsubscribeKeepsStreams(w.s, w.phase.id);
    case Route(_) => RouteKeepsStreams(w, step);
    case ConnectionEnd => CloseKeepsStreams(w, step);
    case CloseIfIdle => CloseKeepsStreams(w, step);
    case CloseFlag => CloseKeepsStreams(w, step);
    case ConnClose => CloseKeepsStreams(w, step);
    case _ => OtherKeepsStreams(w, step);
  }

  // Readers: the channel is never used after it is closed

  /** The readers the message being delivered has still to reach. */
  function Pending(phase: Phase): set<nat> {
    match phase
    case Delivering(_, to) => to
    case Dropping(_, _, to) => to
    case Ending(left) => left
    case _ => {}
  }

  ghost predicate ListedOk(s: State) {
    && (forall key :: key in s.previews ==> s.previews[key].readers != {})
    && (forall key, id :: key in s.previews && id in s.previews[key].readers ==> id in s.subs && s.subs[id].key == key)
  }

  /** A reader whose channel is closed gets nothing more: it is in no list, but for the one being dropped. */
  ghost predicate EndsOk(w: World) {
    && (forall id :: id in w.s.subs ==> !w.s.subs[id].panicked && w.s.subs[id].queued <= QUEUE)
    && (forall id :: id in Pending(w.phase) ==> id in w.s.subs && w.s.subs[id].end == None)
    && (w.phase.Dropping? ==>
          w.phase.id in w.s.subs && w.phase.id !in w.phase.to && w.s.subs[w.phase.id].end.Some?)
    && (forall key, id :: key in w.s.previews && id in w.s.previews[key].readers && id in w.s.subs ==>
          w.s.subs[id].end == None || (w.phase.Dropping? && w.phase.id == id))
    && (w.phase.Ending? || w.phase.Done? ==> w.s.closed && w.s.previews == map[])
  }

  lemma UnsubscribeKeepsListed(s: State, id: nat)
    requires ListedOk(s) && id in s.subs
    ensures ListedOk(AfterUnsubscribe(s, id))
    ensures AfterUnsubscribe(s, id).subs == s.subs && AfterUnsubscribe(s, id).closed == s.closed
    ensures forall key :: key in AfterUnsubscribe(s, id).previews ==>
              key in s.previews && AfterUnsubscribe(s, id).previews[key].readers <= s.previews[key].readers
              && id !in AfterUnsubscribe(s, id).previews[key].readers
  {
    hide AfterStop;
  }

  lemma SubscribeKeepsListed(w: World, step: Step)
    requires ListedOk(w.s) && Enabled(w, step) && step.Subscribe?
    ensures ListedOk(Next(w, step).s)
  {
    hide AfterStart, KeyFor;
  }

  lemma RouteKeepsListed(w: World, step: Step)
    requires ListedOk(w.s) && Enabled(w, step) && step.Route?
    ensures ListedOk(Next(w, step).s)
  {
    hide KeyOf, IsInfoMessage, Wants;
  }

  lemma OtherKeepsListed(w: World, step: Step)
    requires ListedOk(w.s) && Enabled(w, step)
    requires !step.Subscribe? && !step.Unsubscribe? && !step.DropUnsubscribe? && !step.Route?
    ensures ListedOk(Next(w, step).s)
  {
  }

  lemma StepKeepsListed(w: World, step: Step)
    requires ListedOk(w.s) && Enabled(w, step)
    ensures ListedOk(Next(w, step).s)
  {
    hide AfterSubscribe, AfterUnsubscribe, AfterRoute, ListedOk;
    match step
    case Subscribe(_, _, _, _) => SubscribeKeepsListed(w, step);
    case Unsubscribe(id) => UnsubscribeKeepsListed(w.s, id);
    case DropUnsubscribe => UnsubscribeKeepsListed(w.s, w.phase.id);
    case Route(_) => RouteKeepsListed(w, step);
    case _ => OtherKeepsListed(w, step);
  }

  lemma SubscribeKeepsEnds(w: World, step: Step)
    requires ListedOk(w.s) && EndsOk(w) && Enabled(w, step) && step.Subscribe?
    ensures EndsOk(Next(w, step))
  {
    hide AfterSubscribe, KeyFor, ListedOk;
    SubscribeEnds(w.s, step.channel, step.stream, step.id, step.ok);
  }

  /** A subscription adds at most its own reader, and that one is fresh. */
  lemma SubscribeEnds(s: State, channel: int, stream: string, id: nat, ok: bool)
    requires ListedOk(s) && id !in s.subs
    ensures var (r, s') := AfterSubscribe(s, channel, stream, id, ok);
            && s'.closed == s.closed && (!r.Reader? ==> s'.subs == s.subs && s'.previews == s.previews)
            && (r.Reader? ==> !s.closed && id in s'.subs && s'.subs == s.subs[id := s'.subs[id]]
                              && s'.subs[id].end == None && !s'.subs[id].panicked && s'.subs[id].queued <= QUEUE)
            && (forall key, x :: key in s'.previews && x in s'.previews[key].readers && x != id ==>
                  key in s.previews && x in s.previews[key].readers)
  {
    hide AfterStart, KeyFor;
  }

  lemma UnsubscribeKeepsEnds(w: World, step: Step)
    requires ListedOk(w.s) && EndsOk(w) && Enabled(w, step) && (step.Unsubscribe? || step.DropUnsubscribe?)
    ensures EndsOk(Next(w, step))
  {
    hide AfterUnsubscribe;
    UnsubscribeKeepsListed(w.s, if step.Unsubscribe? then step.id else w.phase.id);
  }

  lemma RouteKeepsEnds(w: World, step: Step)
    requires ListedOk(w.s) && EndsOk(w) && Enabled(w, step) && step.Route?
    ensures EndsOk(Next(w, step))
  {
    hide KeyOf, Wants, IsStatus;
  }

  lemma DeliverKeepsEnds(w: World, step: Step)
    requires ListedOk(w.s) && EndsOk(w) && Enabled(w, step) && (step.Deliver? || step.EndReader?)
    ensures EndsOk(Next(w, step))
  {
  }

  lemma OtherKeepsEnds(w: World, step: Step)
    requires ListedOk(w.s) && EndsOk(w) && Enabled(w, step)
    requires !step.Subscribe? && !step.Unsubscribe? && !step.DropUnsubscribe? && !step.Route? && !step.Deliver?
    requires !step.EndReader?
    ensures EndsOk(Next(w, step))
  {
  }

  lemma StepKeepsEnds(w: World, step: Step)
    requires ListedOk(w.s) && EndsOk(w) && Enabled(w, step)
    ensures EndsOk(Next(w, step))
  {
    hide EndsOk, ListedOk, Next, Enabled;
    match step
    case Subscribe(_, _, _, _) => SubscribeKeepsEnds(w, step);
    case Unsubscribe(_) => UnsubscribeKeepsEnds(w, step);
    case DropUnsubscribe => UnsubscribeKeepsEnds(w, step);
    case Route(_) => RouteKeepsEnds(w, step);
    case Deliver(_, _) => DeliverKeepsEnds(w, step);
    case EndReader(_) => DeliverKeepsEnds(w, step);
    case _ => OtherKeepsEnds(w, step);
  }

  // Logs: what a live reader has been sent

  /** What a late joiner is given of the messages that follow: status until a keyframe, then everything. */
  function JoinLog(ms: seq<Message>): seq<Message> {
    if ms == [] then []
    else if IsStatus(ms[0]) then [ms[0]] + JoinLog(ms[1..])
    else if IsKeyframe(ms[0]) then ms
    else JoinLog(ms[1..])
  }

  predicate Opened(ms: seq<Message>) {
    ms != [] && ((!IsStatus(ms[0]) && IsKeyframe(ms[0])) || Opened(ms[1..]))
  }

  /** The last info message of a stream, and it as a list. */
  function LastInfo(ms: seq<Message>): Option<Message> {
    if ms == [] then None
    else if IsInfoMessage(ms[|ms| - 1]) then Some(ms[|ms| - 1])
    else LastInfo(ms[..|ms| - 1])
  }

  function InfoOf(info: Option<Message>): seq<Message> {
    match info case None => [] case Some(m) => [m]
  }

  /** What a reader that joined so is to have been sent once its preview has routed hist. */
  function Promised(j: Joined, hist: seq<Message>): seq<Message>
    requires j.at <= |hist|
  {
    if j.first then hist else InfoOf(LastInfo(hist[..j.at])) + JoinLog(hist[j.at..])
  }

  predicate GateOpen(j: Joined, hist: seq<Message>)
    requires j.at <= |hist|
  {
    j.first || Opened(hist[j.at..])
  }

  lemma {:induction false} JoinLogSnoc(ms: seq<Message>, m: Message)
    ensures JoinLog(ms + [m]) == JoinLog(ms) + if Opened(ms) || IsStatus(m) || IsKeyframe(m) then [m] else []
    ensures Opened(ms + [m]) <==> Opened(ms) || (!IsStatus(m) && IsKeyframe(m))
  {
    hide IsStatus, IsKeyframe;
    if ms == [] {
      assert [m][1..] == [];
    } else {
      JoinLogSnoc(ms[1..], m);
      assert (ms + [m])[1..] == ms[1..] + [m];
      assert (ms + [m])[0] == ms[0];
    }
  }

  /** The status messages of a list, in order. */
  function StatusOf(ms: seq<Message>): (r: seq<Message>)
    ensures forall m :: m in r ==> m in ms && IsStatus(m)
  {
    if ms == [] then [] else (if IsStatus(ms[0]) then [ms[0]] else []) + StatusOf(ms[1..])
  }

  lemma {:induction false} StatusOfCons(m: Message, ms: seq<Message>)
    ensures StatusOf([m] + ms) == (if IsStatus(m) then [m] else []) + StatusOf(ms)
  {
    hide IsStatus;
    assert ([m] + ms)[1..] == ms;
  }

  /** The shape of a late joiner's log: status messages only, then an unbroken run from a keyframe. */
  lemma {:induction false} JoinLogShape(ms: seq<Message>) returns (k: nat)
    ensures k <= |ms| && (k < |ms| ==> IsKeyframe(ms[k]) && !IsStatus(ms[k]))
    ensures JoinLog(ms) == StatusOf(ms[..k]) + ms[k..]
    ensures forall i :: 0 <= i < k ==> IsStatus(ms[i]) || !IsKeyframe(ms[i])
  {
    hide IsStatus, IsKeyframe, StatusOf, JoinLog;
    if ms == [] || (!IsStatus(ms[0]) && IsKeyframe(ms[0])) {
      k := 0;
      JoinLogOpen(ms);
    } else {
      var j := JoinLogShape(ms[1..]);
      k := j + 1;
      JoinLogStep(ms, j);
      assert forall i :: 1 <= i < k ==> ms[i] == ms[1..][i - 1];
    }
  }

  lemma JoinLogOpen(ms: seq<Message>)
    requires ms == [] || (!IsStatus(ms[0]) && IsKeyframe(ms[0]))
    ensures JoinLog(ms) == StatusOf(ms[..0]) + ms[0..]
  {
    hide IsStatus, IsKeyframe;
    assert ms[..0] == [] && ms[0..] == ms;
  }

  lemma {:induction false} JoinLogStep(ms: seq<Message>, j: nat)
    requires ms != [] && (IsStatus(ms[0]) || !IsKeyframe(ms[0])) && j < |ms|
    requires JoinLog(ms[1..]) == StatusOf(ms[1..][..j]) + ms[1..][j..]
    ensures JoinLog(ms) == StatusOf(ms[..j + 1]) + ms[j + 1..]
  {
    hide IsStatus, IsKeyframe;
    StatusOfCons(ms[0], ms[1..][..j]);
    hide StatusOf;
    assert ms[..j + 1] == [ms[0]] + ms[1..][..j] && ms[1..][j..] == ms[j + 1..];
  }

  /** What id has been sent, and what it is about to be sent of the message being delivered. */
  function Received(w: World, id: nat): seq<Message>
    requires id in w.s.subs
  {
    w.s.subs[id].log + match w.phase
                       case Delivering(m, to) => if id in to then [m] else []
                       case Dropping(_, m, to) => if id in to then [m] else []
                       case _ => []
  }

  /** A reader still listed, not closed by its user and not ended. */
  ghost predicate Live(w: World, id: nat) {
    && id in w.s.subs && w.s.subs[id].key in w.s.previews && id in w.s.previews[w.s.subs[id].key].readers
    && !w.s.subs[id].quit && w.s.subs[id].end == None
  }

  /** The message being delivered is still to reach id. */
  predicate Due(w: World, id: nat) { (w.phase.Delivering? || w.phase.Dropping?) && id in w.phase.to }

  /** Every run of a stream has its history and its own handle, and the info message a preview keeps is its last. */
  ghost predicate HistOk(w: World) {
    && (forall key :: key in w.s.previews ==>
          w.s.previews[key].stream.handle in w.hist
          && w.s.previews[key].info == LastInfo(w.hist[w.s.previews[key].stream.handle]))
    && (forall h :: h in w.hist ==> h <= w.s.handle)
    && (forall k, l :: k in w.s.previews && l in w.s.previews && k != l ==>
          w.s.previews[k].stream.handle != w.s.previews[l].stream.handle)
  }

  ghost predicate JoinedOk(w: World) {
    forall id :: id in w.s.subs ==>
      id in w.joined && w.joined[id].handle in w.hist && w.joined[id].at <= |w.hist[w.joined[id].handle]|
  }

  /** The messages of the stream that reader id joined. */
  function Heard(w: World, id: nat): seq<Message>
    requires id in w.joined && w.joined[id].handle in w.hist
  {
    w.hist[w.joined[id].handle]
  }

  /** Reader id is to have been sent what was promised of the first n messages of its stream. */
  ghost predicate UpTo(w: World, id: nat, n: nat)
    requires id in w.s.subs && JoinedOk(w)
  {
    w.joined[id].at <= n <= |Heard(w, id)| && Received(w, id) == Promised(w.joined[id], Heard(w, id)[..n])
  }

  /** A reader that was dropped, or that lost its connection, stopped somewhere in its stream. */
  ghost predicate Stopped(w: World, id: nat)
    requires id in w.s.subs && JoinedOk(w)
  {
    !Due(w, id) && exists n :: UpTo(w, id, n)
  }

  /** A live reader is level with its stream, and its log is one behind when the last message is still to reach it. */
  ghost predicate LiveLog(w: World, id: nat)
    requires Live(w, id) && JoinedOk(w)
  {
    var j, hist := w.joined[id], Heard(w, id);
    && j.handle == w.s.previews[w.s.subs[id].key].stream.handle
    && Received(w, id) == Promised(j, hist)
    && w.s.subs[id].synced == GateOpen(j, hist)
    && (Due(w, id) ==> j.at < |hist| && w.s.subs[id].log == Promised(j, hist[..|hist| - 1]))
  }

  ghost predicate RowOk(w: World, id: nat)
    requires id in w.s.subs && JoinedOk(w)
  {
    w.s.subs[id].quit || (if Live(w, id) then LiveLog(w, id) else Stopped(w, id))
  }

  ghost predicate LogsOk(w: World) {
    HistOk(w) && JoinedOk(w) && forall id :: id in w.s.subs ==> RowOk(w, id)
  }

  // Each step

  lemma UnsubscribeKeepsSubs(s: State, id: nat)
    requires id in s.subs
    ensures AfterUnsubscribe(s, id).subs == s.subs
  {
    hide AfterStop;
  }

  lemma UnsubscribeKeepsPreviews(s: State, id: nat)
    requires id in s.subs
    ensures AfterUnsubscribe(s, id).handle == s.handle
    ensures forall key :: key in AfterUnsubscribe(s, id).previews ==>
              key in s.previews && AfterUnsubscribe(s, id).previews[key].stream == s.previews[key].stream
              && AfterUnsubscribe(s, id).previews[key].info == s.previews[key].info
    ensures forall key, other :: key in s.previews && other in s.previews[key].readers && other != id ==>
              key in AfterUnsubscribe(s, id).previews
              && other in AfterUnsubscribe(s, id).previews[key].readers
  {
    hide AfterStop;
    var key := s.subs[id].key;
    if key in s.previews {
      var readers := s.previews[key].readers;
      assert forall other :: other in readers - {id} <==> other in readers && other != id;
    }
  }

  lemma {:induction false} RouteKeepsHist(w: World, m: Message)
    requires HistOk(w) && Enabled(w, Route(m))
    ensures HistOk(Next(w, Route(m)))
  {
    hide KeyOf, IsInfoMessage, Wants, Gated, LastInfo;
    if m.msgID == MSG_VIDEO && KeyOf(m) in w.s.previews {
      LastInfoSnoc(w.hist[w.s.previews[KeyOf(m)].stream.handle], m);
    }
  }

  lemma LastInfoSnoc(hist: seq<Message>, m: Message)
    ensures LastInfo(hist + [m]) == if IsInfoMessage(m) then Some(m) else LastInfo(hist)
  {
    assert (hist + [m])[..|hist|] == hist && (hist + [m])[|hist|] == m;
  }

  lemma {:induction false} SubscribeKeepsHist(w: World, step: Step)
    requires HistOk(w) && Enabled(w, step) && step.Subscribe?
    ensures HistOk(Next(w, step))
  {
    hide KeyFor, AfterStart, IsInfoMessage;
    assert LastInfo([]) == None;
    hide LastInfo;
  }

  lemma {:induction false} StepKeepsHist(w: World, step: Step)
    requires HistOk(w) && Enabled(w, step)
    ensures HistOk(Next(w, step))
  {
    hide AfterSubscribe, AfterUnsubscribe, AfterRoute, LastInfo;
    if step.Unsubscribe? {
      UnsubscribeKeepsPreviews(w.s, step.id);
    } else if step.DropUnsubscribe? {
      UnsubscribeKeepsPreviews(w.s, w.phase.id);
    } else if step.Route? {
      RouteKeepsHist(w, step.m);
    } else if step.Subscribe? {
      SubscribeKeepsHist(w, step);
    }
  }

  lemma {:induction false} StepKeepsJoined(w: World, step: Step)
    requires HistOk(w) && JoinedOk(w) && Enabled(w, step)
    ensures JoinedOk(Next(w, step))
  {
    hide KeyFor, KeyOf, AfterStart, AfterUnsubscribe, IsInfoMessage, Wants, LastInfo;
    if step.Unsubscribe? {
      UnsubscribeKeepsSubs(w.s, step.id);
    } else if step.DropUnsubscribe? {
      UnsubscribeKeepsSubs(w.s, w.phase.id);
    }
  }

  /** What a step leaves alone: a reader but for its queue, what is due to it, and its history but for additions. */
  ghost predicate SameReader(w: World, w': World, id: nat)
    requires id in w.s.subs && JoinedOk(w) && JoinedOk(w')
  {
    && id in w'.s.subs && w'.s.subs[id].(queued := w.s.subs[id].queued) == w.s.subs[id]
    && Received(w', id) == Received(w, id) && (Due(w', id) <==> Due(w, id))
    && w'.joined[id] == w.joined[id] && Heard(w, id) <= Heard(w', id)
    && (Live(w', id) <==> Live(w, id))
    && (Live(w, id) ==>
          Heard(w', id) == Heard(w, id)
          && w'.s.previews[w.s.subs[id].key].stream == w.s.previews[w.s.subs[id].key].stream)
  }

  lemma StoppedStays(w: World, w': World, id: nat)
    requires JoinedOk(w) && JoinedOk(w') && id in w.s.subs && Stopped(w, id) && SameReader(w, w', id)
    ensures Stopped(w', id)
  {
    hide Promised, Received, Live;
    var n: nat :| UpTo(w, id, n);
    assert Heard(w', id)[..n] == Heard(w, id)[..n];
    assert UpTo(w', id, n);
  }

  lemma RowStays(w: World, w': World, id: nat)
    requires JoinedOk(w) && JoinedOk(w') && id in w.s.subs && RowOk(w, id) && SameReader(w, w', id)
    ensures RowOk(w', id)
  {
    hide Promised, GateOpen, Received, JoinedOk;
    if !w.s.subs[id].quit {
      if Live(w, id) {
        assert LiveLog(w', id);
      } else {
        StoppedStays(w, w', id);
      }
    }
  }

  /** A live reader taken off its stream with nothing due stops level with it. */
  lemma LiveStops(w: World, w': World, id: nat)
    requires JoinedOk(w) && JoinedOk(w') && Live(w, id) && LiveLog(w, id) && id in w'.s.subs
    requires Received(w', id) == Received(w, id) && !Due(w', id)
    requires w'.joined[id] == w.joined[id] && Heard(w', id) == Heard(w, id)
    ensures Stopped(w', id)
  {
    hide Promised, GateOpen, Received;
    assert Heard(w, id)[..|Heard(w, id)|] == Heard(w, id);
    assert UpTo(w', id, |Heard(w, id)|);
  }

  lemma JoinsAtEnd(hist: seq<Message>)
    ensures JoinLog(hist[|hist|..]) == [] && !Opened(hist[|hist|..]) && hist[..|hist|] == hist
  {
  }

  /** A new reader starts with nothing promised but the info message it was handed. */
  lemma {:induction false} NewcomerLog(w: World, step: Step)
    requires EndsOk(w) && HistOk(w) && JoinedOk(w) && Enabled(w, step) && step.Subscribe?
    requires step.id in Next(w, step).s.subs && JoinedOk(Next(w, step))
    ensures RowOk(Next(w, step), step.id)
  {
    hide KeyFor, AfterStart, IsInfoMessage, LastInfo, JoinLog, Opened;
    assert step.id !in Pending(w.phase);
    var key := KeyFor(step.channel, step.stream);
    if key in w.s.previews {
      JoinsAtEnd(w.hist[w.s.previews[key].stream.handle]);
    }
  }

  lemma {:induction false} SubscribeSame(w: World, step: Step, id: nat)
    requires HistOk(w) && JoinedOk(w) && Enabled(w, step) && step.Subscribe? && id in w.s.subs
    requires JoinedOk(Next(w, step))
    ensures SameReader(w, Next(w, step), id)
  {
    hide KeyFor, AfterStart, LastInfo;
  }

  lemma {:induction false} UnsubscribeSame(w: World, step: Step, id: nat)
    requires ListedOk(w.s) && EndsOk(w) && JoinedOk(w) && Enabled(w, step) && id in w.s.subs
    requires step.Unsubscribe? || step.DropUnsubscribe?
    requires JoinedOk(Next(w, step))
    ensures SameReader(w, Next(w, step), id)
  {
    hide AfterUnsubscribe;
    var gone := if step.Unsubscribe? then step.id else w.phase.id;
    UnsubscribeKeepsListed(w.s, gone);
    UnsubscribeKeepsPreviews(w.s, gone);
  }

  lemma {:induction false} RouteSame(w: World, m: Message, id: nat)
    requires ListedOk(w.s) && EndsOk(w) && HistOk(w) && JoinedOk(w) && Enabled(w, Route(m)) && id in w.s.subs
    requires JoinedOk(Next(w, Route(m))) && (Live(w, id) ==> LiveLog(w, id))
    requires m.msgID == MSG_VIDEO && KeyOf(m) in w.s.previews && id !in w.s.previews[KeyOf(m)].readers
    ensures SameReader(w, Next(w, Route(m)), id)
  {
    hide KeyOf, IsStatus, IsKeyframe, IsInfoMessage, Wants, LastInfo, Promised, GateOpen;
  }

  lemma {:induction false} RoutedLog(w: World, m: Message, id: nat)
    requires ListedOk(w.s) && HistOk(w) && JoinedOk(w) && Enabled(w, Route(m)) && m.msgID == MSG_VIDEO
    requires Live(w, id) && LiveLog(w, id) && w.s.subs[id].key == KeyOf(m) && JoinedOk(Next(w, Route(m)))
    ensures Live(Next(w, Route(m)), id) && LiveLog(Next(w, Route(m)), id)
  {
    hide KeyOf, JoinLog, Opened, IsStatus, IsKeyframe, IsInfoMessage, LastInfo, HistOk, ListedOk;
    var j, hist := w.joined[id], Heard(w, id);
    var ms, log, info := hist[j.at..], w.s.subs[id].log, InfoOf(LastInfo(hist[..j.at]));
    JoinLogSnoc(ms, m);
    assert (hist + [m])[j.at..] == ms + [m] && (hist + [m])[..j.at] == hist[..j.at];
    assert (hist + [m])[..|hist|] == hist;
    assert log + [] == log == Promised(j, hist);
    assert (info + JoinLog(ms)) + [m] == info + (JoinLog(ms) + [m]);
    assert (info + JoinLog(ms)) + [] == info + (JoinLog(ms) + []);
  }

  lemma {:induction false} RouteKeepsRow(w: World, m: Message, id: nat)
    requires ListedOk(w.s) && EndsOk(w) && LogsOk(w) && Enabled(w, Route(m)) && id in w.s.subs
    requires JoinedOk(Next(w, Route(m)))
    ensures id in Next(w, Route(m)).s.subs && RowOk(Next(w, Route(m)), id)
  {
    hide KeyOf, IsInfoMessage, Wants, IsStatus, LiveLog, Stopped, HistOk, JoinedOk;
    if m.msgID == MSG_VIDEO && KeyOf(m) in w.s.previews && !w.s.subs[id].quit {
      if id in w.s.previews[KeyOf(m)].readers {
        RoutedLog(w, m, id);
      } else {
        RouteSame(w, m, id);
        RowStays(w, Next(w, Route(m)), id);
      }
    }
  }

  lemma {:induction false} DeliverSame(w: World, step: Step, id: nat)
    requires JoinedOk(w) && Enabled(w, step) && step.Deliver? && id in w.s.subs && id != step.id
    requires JoinedOk(Next(w, step))
    ensures SameReader(w, Next(w, step), id)
  {
  }

  lemma {:induction false} DeliveredLog(w: World, step: Step)
    requires EndsOk(w) && JoinedOk(w) && Enabled(w, step) && step.Deliver?
    requires Live(w, step.id) && LiveLog(w, step.id) && JoinedOk(Next(w, step))
    ensures step.id in Next(w, step).s.subs && RowOk(Next(w, step), step.id)
  {
    hide Promised, GateOpen;
    var log, m, hist := w.s.subs[step.id].log, w.phase.m, Heard(w, step.id);
    assert log + [m] + [] == log + [m] && log + [] == log;
    if step.outcome == Stalled {
      assert UpTo(Next(w, step), step.id, |hist| - 1);
    }
  }

  lemma {:induction false} DeliverKeepsRow(w: World, step: Step, id: nat)
    requires EndsOk(w) && LogsOk(w) && Enabled(w, step) && step.Deliver? && id in w.s.subs
    requires JoinedOk(Next(w, step))
    ensures id in Next(w, step).s.subs && RowOk(Next(w, step), id)
  {
    hide HistOk, JoinedOk, LiveLog, EndsOk, Live;
    assert RowOk(w, id);
    if id != step.id {
      DeliverSame(w, step, id);
      RowStays(w, Next(w, step), id);
    } else if !w.s.subs[id].quit {
      DeliveredLog(w, step);
    }
  }

  lemma {:induction false} EndKeepsRow(w: World, step: Step, id: nat)
    requires EndsOk(w) && LogsOk(w) && Enabled(w, step) && (step.ConnectionEnd? || step.EndReader?) && id in w.s.subs
    requires JoinedOk(Next(w, step))
    ensures id in Next(w, step).s.subs && RowOk(Next(w, step), id)
  {
    hide HistOk, Promised, GateOpen;
    var w' := Next(w, step);
    assert RowOk(w, id);
    if !w.s.subs[id].quit {
      if Live(w, id) {
        LiveStops(w, w', id);
      } else {
        var n: nat :| UpTo(w, id, n);
        assert UpTo(w', id, n);
      }
    }
  }

  lemma {:induction false} OtherSame(w: World, step: Step, id: nat)
    requires JoinedOk(w) && Enabled(w, step) && id in w.s.subs && JoinedOk(Next(w, step))
    requires !step.Subscribe? && !step.Unsubscribe? && !step.DropUnsubscribe? && !step.Route? && !step.Deliver?
    requires !step.ConnectionEnd? && !step.EndReader? && !(step.CloseQuit? && step.id == id)
    ensures SameReader(w, Next(w, step), id)
  {
  }

  lemma {:induction false} OtherKeepsRow(w: World, step: Step, id: nat)
    requires LogsOk(w) && Enabled(w, step) && id in w.s.subs && JoinedOk(Next(w, step))
    requires !step.Subscribe? && !step.Unsubscribe? && !step.DropUnsubscribe? && !step.Route? && !step.Deliver?
    requires !step.ConnectionEnd? && !step.EndReader?
    ensures id in Next(w, step).s.subs && RowOk(Next(w, step), id)
  {
    hide HistOk, JoinedOk, LiveLog, Stopped;
    assert RowOk(w, id);
    if !(step.CloseQuit? && step.id == id) {
      OtherSame(w, step, id);
      RowStays(w, Next(w, step), id);
    }
  }

  lemma {:induction false} StepKeepsRow(w: World, step: Step, id: nat)
    requires ListedOk(w.s) && EndsOk(w) && LogsOk(w) && Enabled(w, step) && JoinedOk(Next(w, step))
    requires id in Next(w, step).s.subs
    ensures RowOk(Next(w, step), id)
  {
    hide ListedOk, EndsOk, Next, Enabled, RowOk, HistOk, JoinedOk;
    OnlySubscribeAdds(w, step, id);
    match step
    case Subscribe(_, _, newcomer, _) =>
      if id == newcomer {
        NewcomerLog(w, step);
      } else {
        SubscribeSame(w, step, id);
        RowStays(w, Next(w, step), id);
      }
    case Unsubscribe(_) =>
      UnsubscribeSame(w, step, id);
      RowStays(w, Next(w, step), id);
    case DropUnsubscribe =>
      UnsubscribeSame(w, step, id);
      RowStays(w, Next(w, step), id);
    case Route(m) => RouteKeepsRow(w, m, id);
    case Deliver(_, _) => DeliverKeepsRow(w, step, id);
    case ConnectionEnd => EndKeepsRow(w, step, id);
    case EndReader(_) => EndKeepsRow(w, step, id);
    case _ => OtherKeepsRow(w, step, id);
  }

  lemma {:induction false} OnlySubscribeAdds(w: World, step: Step, id: nat)
    requires Enabled(w, step) && id in Next(w, step).s.subs
    ensures id in w.s.subs || (step.Subscribe? && step.id == id)
  {
    hide KeyFor, KeyOf, AfterStart, AfterUnsubscribe, IsInfoMessage, Wants;
    if step.Unsubscribe? {
      UnsubscribeKeepsSubs(w.s, step.id);
    } else if step.DropUnsubscribe? {
      UnsubscribeKeepsSubs(w.s, w.phase.id);
    }
  }

  lemma {:induction false} StepKeepsLogs(w: World, step: Step)
    requires ListedOk(w.s) && EndsOk(w) && LogsOk(w) && Enabled(w, step)
    ensures LogsOk(Next(w, step))
  {
    hide ListedOk, EndsOk, Next, Enabled, RowOk, HistOk, JoinedOk;
    StepKeepsHist(w, step);
    StepKeepsJoined(w, step);
    forall id | id in Next(w, step).s.subs
      ensures RowOk(Next(w, step), id)
    {
      StepKeepsRow(w, step, id);
    }
  }

  // Runs

  ghost predicate Inv(w: World) { StreamsOk(w.s) && ListedOk(w.s) && EndsOk(w) && LogsOk(w) }

  ghost predicate IsRun(w: World, steps: seq<Step>)
    decreases |steps|
  {
    steps == [] || (Enabled(w, steps[0]) && IsRun(Next(w, steps[0]), steps[1..]))
  }

  ghost function Final(w: World, steps: seq<Step>): World
    requires IsRun(w, steps)
    decreases |steps|
  {
    if steps == [] then w else Final(Next(w, steps[0]), steps[1..])
  }

  lemma StartInv()
    ensures Inv(Start())
  {
  }

  /** Every interleaving keeps the invariant. */
  lemma {:induction false} RunKeepsInv(w: World, steps: seq<Step>)
    requires Inv(w) && IsRun(w, steps)
    ensures Inv(Final(w, steps))
    decreases |steps|
  {
    hide StreamsOk, ListedOk, EndsOk, LogsOk, Next, Enabled;
    if steps != [] {
      StepKeepsStreams(w, steps[0]);
      StepKeepsListed(w, steps[0]);
      StepKeepsEnds(w, steps[0]);
      StepKeepsLogs(w, steps[0]);
      RunKeepsInv(Next(w, steps[0]), steps[1..]);
    }
  }

  // What the invariant means to users

  /**
   Start and stop in every run closed at the end: the stops are exactly the starts, each once, since
   the started handles are all different.
   */
  lemma {:induction false} EachStartStoppedOnce(steps: seq<Step>)
    requires IsRun(Start(), steps) && Final(Start(), steps).s.conn.closed
    ensures var c := Final(Start(), steps).s.conn;
            && multiset(c.stopped) == multiset(c.started)
            && forall i, j :: 0 <= i < j < |c.started| ==> c.started[i].handle != c.started[j].handle
  {
    hide Next, Enabled, ListedOk, EndsOk, LogsOk;
    StartInv();
    RunKeepsInv(Start(), steps);
  }

  /** While the connection is open its list is exactly the running previews, and each has a reader. */
  lemma {:induction false} OpenListIsPreviews(steps: seq<Step>, a: Stream)
    requires IsRun(Start(), steps) && !Final(Start(), steps).s.closed
    ensures var s := Final(Start(), steps).s;
            && (a in s.conn.also <==> KeyOfStream(a) in s.previews && s.previews[KeyOfStream(a)].stream == a)
            && (forall key :: key in s.previews ==> s.previews[key].readers != {})
  {
    hide Next, Enabled, EndsOk, LogsOk;
    StartInv();
    RunKeepsInv(Start(), steps);
  }

  /** In every run, a reader whose user has not closed it has its row in order. */
  lemma {:induction false} RowInRun(steps: seq<Step>, id: nat) returns (n: nat)
    requires IsRun(Start(), steps) && id in Final(Start(), steps).s.subs && !Final(Start(), steps).s.subs[id].quit
    ensures var w := Final(Start(), steps);
            && JoinedOk(w) && UpTo(w, id, n) && (Live(w, id) ==> n == |Heard(w, id)|)
            && (w.s.subs[id].end.Some? ==> Received(w, id) == w.s.subs[id].log)
  {
    hide Next, Enabled, StreamsOk, ListedOk, HistOk, Promised, IsRun, Final;
    StartInv();
    RunKeepsInv(Start(), steps);
    var w := Final(Start(), steps);
    assert RowOk(w, id);
    if Live(w, id) {
      n := |Heard(w, id)|;
      assert Heard(w, id)[..n] == Heard(w, id);
    } else {
      var stop: nat :| UpTo(w, id, stop);
      n := stop;
      assert w.s.subs[id].log + [] == w.s.subs[id].log;
    }
  }

  lemma Slices(hist: seq<Message>, at: nat, k: nat, n: nat)
    requires at <= k <= n <= |hist|
    ensures hist[..n][..at] == hist[..at]
    ensures hist[..n][at..][..k - at] == hist[at..k] && hist[..n][at..][k - at..] == hist[k..n]
    ensures forall x :: at <= x < n ==> hist[x] == hist[..n][at..][x - at]
  {
  }

  lemma KeyframesAre(ms: seq<Message>)
    ensures forall i :: 0 <= i < |ms| ==> (IsKeyframe(ms[i]) <==> StartsIFrame(ms[i]))
  {
    hide IsKeyframe, StartsIFrame;
    forall i | 0 <= i < |ms|
      ensures IsKeyframe(ms[i]) <==> StartsIFrame(ms[i])
    {
      KeyframeIff(ms[i]);
    }
  }

  /**
   A late joiner's log, in every run and whatever became of the reader, unless its user closed it: the
   last info message before it joined, if there was one, then status messages only, then every message
   of its stream in order from one on that starts an I frame, up to the point where it was dropped or lost its
   connection, or up to the present. What demux is about to send it, if anything, is the last element.
   */
  lemma {:induction false} LateJoinerLog(steps: seq<Step>, id: nat) returns (k: nat, n: nat)
    requires IsRun(Start(), steps) && id in Final(Start(), steps).s.subs && !Final(Start(), steps).s.subs[id].quit
    requires id in Final(Start(), steps).joined && !Final(Start(), steps).joined[id].first
    ensures var w := Final(Start(), steps);
            var at := w.joined[id].at;
            && w.joined[id].handle in w.hist && at <= k <= n <= |Heard(w, id)|
            && Received(w, id)
                 == InfoOf(LastInfo(Heard(w, id)[..at])) + StatusOf(Heard(w, id)[at..k]) + Heard(w, id)[k..n]
            && (k < n ==> StartsIFrame(Heard(w, id)[k]))
            && (forall i :: at <= i < k ==> IsStatus(Heard(w, id)[i]) || !StartsIFrame(Heard(w, id)[i]))
            && (Live(w, id) ==> n == |Heard(w, id)|)
            && (w.s.subs[id].end.Some? ==> Received(w, id) == w.s.subs[id].log)
  {
    hide Next, Enabled, IsStatus, IsKeyframe, StartsIFrame, StatusOf, JoinLog, LastInfo, Received, Live, Start, IsRun,
         Final;
    n := RowInRun(steps, id);
    var w := Final(Start(), steps);
    var at, hist := w.joined[id].at, Heard(w, id);
    var ms := hist[..n][at..];
    var i := JoinLogShape(ms);
    k := at + i;
    Slices(hist, at, k, n);
    KeyframesAre(hist);
  }

  /** The reader that started a stream has, in every run, all its messages from the first one on, up to some point. */
  lemma {:induction false} FirstReaderLog(steps: seq<Step>, id: nat) returns (n: nat)
    requires IsRun(Start(), steps) && id in Final(Start(), steps).s.subs && !Final(Start(), steps).s.subs[id].quit
    requires id in Final(Start(), steps).joined && Final(Start(), steps).joined[id].first
    ensures var w := Final(Start(), steps);
            && w.joined[id].handle in w.hist && n <= |Heard(w, id)| && Received(w, id) == Heard(w, id)[..n]
            && (Live(w, id) ==> n == |Heard(w, id)|)
            && (w.s.subs[id].end.Some? ==> Received(w, id) == w.s.subs[id].log)
  {
    hide Next, Enabled, Received, Live, Start, IsRun, Final;
    n := RowInRun(steps, id);
  }

  /** Once a reader's channel is closed, its log and the reason stay what they are through every further step. */
  lemma {:induction false} EndedLogFrozen(w: World, steps: seq<Step>, id: nat)
    requires Inv(w) && IsRun(w, steps) && id in w.s.subs && w.s.subs[id].end.Some?
    ensures id in Final(w, steps).s.subs && Final(w, steps).s.subs[id].log == w.s.subs[id].log
    ensures Final(w, steps).s.subs[id].end == w.s.subs[id].end
    decreases |steps|
  {
    hide StreamsOk, ListedOk, EndsOk, LogsOk, Next, Enabled;
    if steps != [] {
      EndedStays(w, steps[0], id);
      StepKeepsStreams(w, steps[0]);
      StepKeepsListed(w, steps[0]);
      StepKeepsEnds(w, steps[0]);
      StepKeepsLogs(w, steps[0]);
      EndedLogFrozen(Next(w, steps[0]), steps[1..], id);
    }
  }

  lemma {:induction false} EndedStays(w: World, step: Step, id: nat)
    requires EndsOk(w) && Enabled(w, step) && id in w.s.subs && w.s.subs[id].end.Some?
    ensures var subs := Next(w, step).s.subs;
            id in subs && subs[id].log == w.s.subs[id].log && subs[id].end == w.s.subs[id].end
  {
    hide KeyFor, KeyOf, AfterStart, AfterUnsubscribe, IsInfoMessage, Wants;
    if step.Unsubscribe? {
      UnsubscribeKeepsSubs(w.s, step.id);
    } else if step.DropUnsubscribe? {
      UnsubscribeKeepsSubs(w.s, w.phase.id);
    }
  }

  /** No run sends on a closed channel or closes one twice, and a dropped or ended reader stays out of every list. */
  lemma {:induction false} NoUseAfterClose(steps: seq<Step>, id: nat)
    requires IsRun(Start(), steps) && id in Final(Start(), steps).s.subs
    ensures var w := Final(Start(), steps);
            && !w.s.subs[id].panicked
            && (w.s.subs[id].end.Some? ==> id !in Pending(w.phase))
  {
    hide Next, Enabled, StreamsOk, ListedOk, LogsOk;
    StartInv();
    RunKeepsInv(Start(), steps);
  }
}
