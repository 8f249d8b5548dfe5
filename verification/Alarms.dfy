/** The alarm watcher of internal/alarms/alarms.go: detection state, its changes, and whole runs of the watch loop. */
module Alarms {
  import opened Lists
  import opened Text

  datatype State = State(motion: bool, objects: seq<string>)

  const QUIET := State(false, [])

  datatype Change = Change(kind: string, on: bool)

  /** One parsed event: the words of its status other than "none", and the AI types it names. */
  datatype Event = Event(channel: int, words: seq<string>, ai: seq<string>)

  const MOTION := "motion"
  const VISITOR := "visitor"

  predicate Moves(e: Event) { exists i :: 0 <= i < |e.words| && e.words[i] != VISITOR }

  predicate Visits(e: Event) { VISITOR in e.words }

  // Names of object types

  function LowerChar(c: char): char {
    if 'A' <= c <= 'Z' then (c as int + 32) as char else c
  }

  function Lower(t: string): (r: string)
    ensures |r| == |t|
  {
    seq(|t|, i requires 0 <= i < |t| => LowerChar(t[i]))
  }

  function Normalize(t: string): string {
    var w := Lower(TrimSpace(t));
    if w in {"people", "person", "human"} then "person"
    else if w in {"vehicle", "car"} then "vehicle"
    else if w in {"dog_cat", "pet", "animal"} then "animal"
    else if w in {"face", "package", "visitor"} then w
    else if w in {"", "none"} then ""
    else Lower(t)
  }

  // The state a list of events adds up to

  predicate Less(a: string, b: string) {
    b != [] && (a == [] || a[0] < b[0] || (a[0] == b[0] && Less(a[1..], b[1..])))
  }

  /** Adds a name to a sorted list. */
  function Insert(s: seq<string>, x: string): (r: seq<string>)
    ensures multiset(r) == multiset(s) + multiset{x}
  {
    if s == [] || Less(x, s[0]) then [x] + s else
    assert s == [s[0]] + s[1..];
    [s[0]] + Insert(s[1..], x)
  }

  function Sort(s: seq<string>): (r: seq<string>)
    ensures multiset(r) == multiset(s)
  {
    if s == [] then [] else
    assert s == s[..|s| - 1] + [s[|s| - 1]];
    Insert(Sort(s[..|s| - 1]), s[|s| - 1])
  }

  function Add(seen: seq<string>, x: string): seq<string> {
    if x == "" || x in seen then seen else seen + [x]
  }

  function AddAll(seen: seq<string>, ai: seq<string>): seq<string>
    decreases |ai|
  {
    if ai == [] then seen else AddAll(Add(seen, Normalize(ai[0])), ai[1..])
  }

  function Seen(seen: seq<string>, events: seq<Event>): seq<string>
    decreases |events|
  {
    if events == [] then seen else
    Seen(AddAll(if Visits(events[0]) then Add(seen, VISITOR) else seen, events[0].ai), events[1..])
  }

  function StateOf(events: seq<Event>): State {
    State(exists e :: e in events && Moves(e), Sort(Seen([], events)))
  }

  /** What an event contributes to the objects. */
  predicate Names(e: Event, x: string) {
    x != "" && ((x == VISITOR && Visits(e)) || exists i :: 0 <= i < |e.ai| && Normalize(e.ai[i]) == x)
  }

  lemma {:induction false} AddAllAdds(seen: seq<string>, ai: seq<string>)
    requires Distinct(seen)
    ensures Distinct(AddAll(seen, ai))
    ensures forall x :: x in AddAll(seen, ai) <==>
              x in seen || (x != "" && exists i :: 0 <= i < |ai| && Normalize(ai[i]) == x)
    decreases |ai|
  {
    hide Normalize;
    if ai != [] {
      var next := Add(seen, Normalize(ai[0]));
      AddAllAdds(next, ai[1..]);
      forall x
        ensures x in AddAll(seen, ai) <==>
                x in seen || (x != "" && exists i :: 0 <= i < |ai| && Normalize(ai[i]) == x)
      {
        if i :| 0 <= i < |ai| && Normalize(ai[i]) == x {
          assert i == 0 || Normalize(ai[1..][i - 1]) == x;
        }
        if i :| 0 <= i < |ai[1..]| && Normalize(ai[1..][i]) == x {
          assert Normalize(ai[i + 1]) == x;
        }
      }
    }
  }

  lemma {:induction false} SeenIsNamed(seen: seq<string>, events: seq<Event>)
    requires Distinct(seen)
    ensures Distinct(Seen(seen, events))
    ensures forall x :: x in Seen(seen, events) <==>
              x in seen || exists k :: 0 <= k < |events| && Names(events[k], x)
    decreases |events|
  {
    hide Normalize;
    if events != [] {
      var e := events[0];
      var first := if Visits(e) then Add(seen, VISITOR) else seen;
      AddAllAdds(first, e.ai);
      SeenIsNamed(AddAll(first, e.ai), events[1..]);
      forall x
        ensures x in Seen(seen, events) <==> x in seen || exists k :: 0 <= k < |events| && Names(events[k], x)
      {
        assert x in AddAll(first, e.ai) <==> x in seen || Names(e, x);
        if k :| 0 <= k < |events| && Names(events[k], x) {
          assert k == 0 || Names(events[1..][k - 1], x);
        }
        if k :| 0 <= k < |events[1..]| && Names(events[1..][k], x) {
          assert Names(events[k + 1], x);
        }
      }
    }
  }

  /** The state says exactly what the events name, each object once. */
  lemma StateOfIsNamed(events: seq<Event>)
    ensures var s := StateOf(events);
            && Distinct(s.objects)
            && (s.motion <==> exists e :: e in events && Moves(e))
            && forall x :: x in s.objects <==> exists k :: 0 <= k < |events| && Names(events[k], x)
  {
    hide Names, Moves;
    SeenIsNamed([], events);
    Rearranged(Seen([], events), StateOf(events).objects);
  }

  // Changes

  function Switch(names: seq<string>, on: bool): (cs: seq<Change>)
    ensures |cs| == |names|
  {
    seq(|names|, i requires 0 <= i < |names| => Change(names[i], on))
  }

  /** The names of a that b has not. */
  function Missing(a: seq<string>, b: seq<string>): (r: seq<string>)
    ensures forall x :: x in r <==> x in a && x !in b
  {
    if a == [] then [] else (if a[0] in b then [] else [a[0]]) + Missing(a[1..], b)
  }

  function Diff(a: State, b: State): seq<Change> {
    (if a.motion != b.motion then [Change(MOTION, b.motion)] else [])
    + Switch(Missing(b.objects, a.objects), true)
    + Switch(Missing(a.objects, b.objects), false)
  }

  // What a listener makes of the changes

  function Apply(on: set<string>, c: Change): set<string> {
    if c.on then on + {c.kind} else on - {c.kind}
  }

  function Replay(on: set<string>, cs: seq<Change>): set<string>
    decreases |cs|
  {
    if cs == [] then on else Replay(Apply(on, cs[0]), cs[1..])
  }

  /** Every change is news: nothing goes on that is on or off that is off. */
  predicate Alternates(on: set<string>, cs: seq<Change>)
    decreases |cs|
  {
    cs == [] || (cs[0].on == (cs[0].kind !in on) && Alternates(Apply(on, cs[0]), cs[1..]))
  }

  /** The changes of one kind. */
  function Of(kind: string, cs: seq<Change>): seq<bool> {
    if cs == [] then [] else (if cs[0].kind == kind then [cs[0].on] else []) + Of(kind, cs[1..])
  }

  /** For each kind the changes go on, off, on, off, the first being off only for what was already on. */
  lemma {:induction false} EachKindAlternates(on: set<string>, cs: seq<Change>, kind: string, i: nat)
    requires Alternates(on, cs) && i < |Of(kind, cs)|
    ensures Of(kind, cs)[i] == ((i % 2 == 0) == (kind !in on))
    decreases |cs|
  {
    if cs[0].kind == kind {
      if i > 0 {
        EachKindAlternates(Apply(on, cs[0]), cs[1..], kind, i - 1);
      }
    } else {
      EachKindAlternates(Apply(on, cs[0]), cs[1..], kind, i);
    }
  }

  lemma {:induction false} AlternatesAppend(on: set<string>, x: seq<Change>, y: seq<Change>)
    ensures Replay(on, x + y) == Replay(Replay(on, x), y)
    ensures Alternates(on, x + y) <==> Alternates(on, x) && Alternates(Replay(on, x), y)
    decreases |x|
  {
    if x == [] {
      assert x + y == y;
    } else {
      assert (x + y)[1..] == x[1..] + y;
      AlternatesAppend(Apply(on, x[0]), x[1..], y);
    }
  }

  function SetOf(names: seq<string>): set<string> { set x | x in names }

  /** Switching distinct names on is news exactly when none is on, and off exactly when all are. */
  lemma {:induction false} SwitchIff(on: set<string>, names: seq<string>, to: bool)
    requires Distinct(names)
    ensures Replay(on, Switch(names, to)) == if to then on + SetOf(names) else on - SetOf(names)
    ensures Alternates(on, Switch(names, to)) <==> forall x :: x in names ==> (x in on) == !to
    decreases |names|
  {
    if names != [] {
      var cs := Switch(names, to);
      assert cs[1..] == Switch(names[1..], to);
      SwitchIff(Apply(on, cs[0]), names[1..], to);
      assert SetOf(names) == {names[0]} + SetOf(names[1..]);
      assert forall x :: x in names <==> x == names[0] || x in names[1..];
      assert names[0] !in names[1..];
    }
  }

  lemma {:induction false} MissingDistinct(a: seq<string>, b: seq<string>)
    requires Distinct(a)
    ensures Distinct(Missing(a, b))
    decreases |a|
  {
    if a != [] {
      MissingDistinct(a[1..], b);
      assert a[0] !in a[1..];
    }
  }

  /** What a listener should believe is on. */
  function On(s: State): set<string> { (if s.motion then {MOTION} else {}) + SetOf(s.objects) }

  /** Motion is not also reported as an object type by that name. */
  predicate Single(s: State) { Distinct(s.objects) && !(s.motion && MOTION in s.objects) }

  /** Checked on the state before and the state after: motion is not on beside an object of that name. */
  predicate Compatible(a: State, b: State) {
    !(b.motion && (MOTION in a.objects || MOTION in b.objects))
  }

  /** One update is news throughout, and replays to the new state, exactly when the two states are compatible. */
  lemma DiffAlternatesIff(a: State, b: State)
    requires Single(a) && Distinct(b.objects)
    ensures Alternates(On(a), Diff(a, b)) <==> Compatible(a, b)
    ensures Compatible(a, b) ==> Single(b) && Replay(On(a), Diff(a, b)) == On(b)
  {
    hide Alternates, Replay, Switch, Missing, Distinct;
    var flag := if a.motion != b.motion then [Change(MOTION, b.motion)] else [];
    var came, gone := Missing(b.objects, a.objects), Missing(a.objects, b.objects);
    MissingDistinct(b.objects, a.objects);
    MissingDistinct(a.objects, b.objects);
    var on1 := Replay(On(a), flag);
    var on2 := Replay(on1, Switch(came, true));
    AlternatesAppend(On(a), flag, Switch(came, true));
    AlternatesAppend(On(a), flag + Switch(came, true), Switch(gone, false));
    FlagIff(On(a), a.motion, b.motion);
    SwitchIff(on1, came, true);
    SwitchIff(on2, gone, false);
    if Compatible(a, b) {
      assert on2 - SetOf(gone) == On(b);
    }
  }

  lemma FlagIff(on: set<string>, was: bool, now: bool)
    ensures var flag := if was != now then [Change(MOTION, now)] else [];
            && Replay(on, flag) == (if was == now then on else if now then on + {MOTION} else on - {MOTION})
            && (Alternates(on, flag) <==> was == now || now == (MOTION !in on))
  {
  }

  // The watch loop

  /** What reaches the loop: a message of no use, an alarm push, or the end of the connection or of the watch. */
  datatype Input = Ignored | Push(events: seq<Event>) | Lost

  /** The channel a connection keeps to, on a recorder or a channel other than the first. */
  datatype Filter = All | Only(channel: int)

  function Kept(f: Filter, events: seq<Event>): seq<Event> {
    if events == [] then [] else
    (if f.All? || events[0].channel == f.channel then [events[0]] else []) + Kept(f, events[1..])
  }

  function After(f: Filter, cur: State, i: Input): State {
    match i
    case Ignored => cur
    case Push(events) => StateOf(Kept(f, events))
    case Lost => QUIET
  }

  function Final(f: Filter, cur: State, run: seq<Input>): State
    decreases |run|
  {
    if run == [] then cur else Final(f, After(f, cur, run[0]), run[1..])
  }

  function Emitted(f: Filter, cur: State, run: seq<Input>): seq<Change>
    decreases |run|
  {
    if run == [] then [] else
    (if run[0].Ignored? then [] else Diff(cur, After(f, cur, run[0]))) + Emitted(f, After(f, cur, run[0]), run[1..])
  }

  predicate AllCompatible(f: Filter, cur: State, run: seq<Input>)
    decreases |run|
  {
    run == [] || ((run[0].Ignored? || Compatible(cur, After(f, cur, run[0])))
                  && AllCompatible(f, After(f, cur, run[0]), run[1..]))
  }

  lemma AfterIsDistinct(f: Filter, cur: State, i: Input)
    requires Distinct(cur.objects)
    ensures Distinct(After(f, cur, i).objects)
  {
    if i.Push? {
      StateOfIsNamed(Kept(f, i.events));
    }
  }

  /** Over whole runs, reconnects included: the changes alternate exactly when every update is compatible. */
  lemma {:induction false} RunAlternatesIff(f: Filter, cur: State, run: seq<Input>)
    requires Single(cur)
    ensures Alternates(On(cur), Emitted(f, cur, run)) <==> AllCompatible(f, cur, run)
    ensures AllCompatible(f, cur, run) ==> Replay(On(cur), Emitted(f, cur, run)) == On(Final(f, cur, run))
    decreases |run|
  {
    hide Alternates, Replay, Diff, StateOf, On, Compatible;
    if run == [] {
      Nothing(On(cur));
    } else {
      var next := After(f, cur, run[0]);
      AfterIsDistinct(f, cur, run[0]);
      DiffAlternatesIff(cur, next);
      Nothing(On(cur));
      var now := if run[0].Ignored? then [] else Diff(cur, next);
      AlternatesAppend(On(cur), now, Emitted(f, next, run[1..]));
      if run[0].Ignored? || Compatible(cur, next) {
        RunAlternatesIff(f, next, run[1..]);
      }
    }
  }

  lemma Nothing(on: set<string>)
    ensures Alternates(on, []) && Replay(on, []) == on
  {
  }

  /** No type named by any event normalises to the word motion. */
  predicate NoMotionType(run: seq<Input>) {
    forall k :: 0 <= k < |run| && run[k].Push? ==>
      forall e :: e in run[k].events ==> forall t :: t in e.ai ==> Normalize(t) != MOTION
  }

  lemma {:induction false} KeptAreEvents(f: Filter, events: seq<Event>)
    ensures forall e :: e in Kept(f, events) ==> e in events
  {
    if events != [] {
      KeptAreEvents(f, events[1..]);
    }
  }

  lemma {:induction false} PlainRunIsCompatible(f: Filter, cur: State, run: seq<Input>)
    requires NoMotionType(run) && MOTION !in cur.objects && Distinct(cur.objects)
    ensures AllCompatible(f, cur, run)
    decreases |run|
  {
    hide StateOf, Normalize;
    if run != [] {
      var next := After(f, cur, run[0]);
      if run[0].Push? {
        StateOfIsNamed(Kept(f, run[0].events));
        KeptAreEvents(f, run[0].events);
        assert run[0].events == run[0].events;
        assert MOTION !in next.objects;
      }
      assert forall k :: 0 <= k < |run[1..]| ==> run[1..][k] == run[k + 1];
      PlainRunIsCompatible(f, next, run[1..]);
    }
  }

  /**
   The watch of a camera none of whose types is called motion: for each kind the changes strictly
   alternate, on first, and replaying them gives what the camera reports.
   */
  lemma {:induction false} WatchAlternates(f: Filter, run: seq<Input>, kind: string, i: nat)
    requires NoMotionType(run)
    ensures Replay({}, Emitted(f, QUIET, run)) == On(Final(f, QUIET, run))
    ensures var bits := Of(kind, Emitted(f, QUIET, run)); i < |bits| ==> bits[i] == (i % 2 == 0)
  {
    hide Alternates, Emitted, Replay, AllCompatible, Of, Final, NoMotionType;
    PlainRunIsCompatible(f, QUIET, run);
    RunAlternatesIff(f, QUIET, run);
    assert On(QUIET) == {};
    if i < |Of(kind, Emitted(f, QUIET, run))| {
      EachKindAlternates({}, Emitted(f, QUIET, run), kind, i);
    }
  }

  /** Whatever the types are called, a listener never believes more than the camera reports. */
  lemma DiffNeverOverstates(on: set<string>, a: State, b: State)
    requires on <= On(a) && Distinct(a.objects) && Distinct(b.objects)
    ensures Replay(on, Diff(a, b)) <= On(b)
  {
    hide Alternates, Replay, Switch, Missing, Distinct;
    var flag := if a.motion != b.motion then [Change(MOTION, b.motion)] else [];
    var came, gone := Missing(b.objects, a.objects), Missing(a.objects, b.objects);
    MissingDistinct(b.objects, a.objects);
    MissingDistinct(a.objects, b.objects);
    var on1 := Replay(on, flag);
    AlternatesAppend(on, flag, Switch(came, true));
    AlternatesAppend(on, flag + Switch(came, true), Switch(gone, false));
    FlagIff(on, a.motion, b.motion);
    SwitchIff(on1, came, true);
    SwitchIff(on1 + SetOf(came), gone, false);
  }

  lemma {:induction false} RunNeverOverstates(f: Filter, cur: State, run: seq<Input>, on: set<string>)
    requires on <= On(cur) && Distinct(cur.objects)
    ensures Replay(on, Emitted(f, cur, run)) <= On(Final(f, cur, run))
    decreases |run|
  {
    hide Alternates, Replay, Diff, StateOf, On;
    Nothing(on);
    if run != [] {
      var next := After(f, cur, run[0]);
      AfterIsDistinct(f, cur, run[0]);
      DiffNeverOverstates(on, cur, next);
      var now := if run[0].Ignored? then [] else Diff(cur, next);
      AlternatesAppend(on, now, Emitted(f, next, run[1..]));
      RunNeverOverstates(f, next, run[1..], Replay(on, now));
    }
  }

  /** A lost connection, or the end of the watch, leaves nothing on: in every run, whatever the types are called. */
  lemma {:induction false} LostLeavesNothing(f: Filter, run: seq<Input>)
    requires run != [] && run[|run| - 1] == Lost
    ensures Replay({}, Emitted(f, QUIET, run)) == {}
  {
    hide Emitted, Replay, Of;
    RunNeverOverstates(f, QUIET, run, {});
    EndsQuiet(f, QUIET, run);
    assert On(QUIET) == {};
  }

  lemma {:induction false} EndsQuiet(f: Filter, cur: State, run: seq<Input>)
    requires run != [] && run[|run| - 1] == Lost
    ensures Final(f, cur, run) == QUIET
    decreases |run|
  {
    if |run| > 1 {
      EndsQuiet(f, After(f, cur, run[0]), run[1..]);
    }
  }

  // One channel of a recorder

  /** What names x among the events of channel c. */
  predicate NamedOn(events: seq<Event>, c: int, x: string) {
    exists k :: 0 <= k < |events| && events[k].channel == c && Names(events[k], x)
  }

  /** What names x among the events of every channel. */
  predicate SomeName(events: seq<Event>, x: string) { exists k :: 0 <= k < |events| && Names(events[k], x) }

  lemma {:induction false} KeptIs(f: Filter, events: seq<Event>)
    ensures forall e :: e in Kept(f, events) <==> e in events && (f.All? || e.channel == f.channel)
    decreases |events|
  {
    if events != [] {
      KeptIs(f, events[1..]);
      assert forall e :: e in events <==> e == events[0] || e in events[1..];
    }
  }

  /** A watch of one channel reports what the events of that channel say, and of a camera of its own all events. */
  lemma ChannelState(cur: State, events: seq<Event>, c: int)
    ensures var s := After(Only(c), cur, Push(events));
            && (s.motion <==> exists e :: e in events && e.channel == c && Moves(e))
            && forall x :: x in s.objects <==> NamedOn(events, c, x)
    ensures var s := After(All, cur, Push(events));
            && (s.motion <==> exists e :: e in events && Moves(e))
            && forall x :: x in s.objects <==> SomeName(events, x)
  {
    hide Names, Moves, StateOf;
    KeptIs(Only(c), events);
    KeptIs(All, events);
    StateOfIsNamed(Kept(Only(c), events));
    StateOfIsNamed(Kept(All, events));
    forall x
      ensures x in After(Only(c), cur, Push(events)).objects <==> NamedOn(events, c, x)
    {
      SomeNames(events, Kept(Only(c), events), c, x);
    }
    forall x
      ensures x in After(All, cur, Push(events)).objects <==> SomeName(events, x)
    {
      AllNames(events, Kept(All, events), x);
    }
  }

  lemma SomeNames(events: seq<Event>, kept: seq<Event>, c: int, x: string)
    requires forall e :: e in kept <==> e in events && e.channel == c
    ensures SomeName(kept, x) <==> NamedOn(events, c, x)
  {
    hide Names;
    if k :| 0 <= k < |kept| && Names(kept[k], x) {
      assert kept[k] in events;
    }
    if k :| 0 <= k < |events| && events[k].channel == c && Names(events[k], x) {
      assert events[k] in kept;
    }
  }

  lemma AllNames(events: seq<Event>, kept: seq<Event>, x: string)
    requires forall e :: e in kept <==> e in events
    ensures SomeName(kept, x) <==> SomeName(events, x)
  {
    hide Names;
    if k :| 0 <= k < |kept| && Names(kept[k], x) {
      assert kept[k] in events;
    }
    if k :| 0 <= k < |events| && Names(events[k], x) {
      assert events[k] in kept;
    }
  }

  // The order of the names

  lemma {:induction false} LessOnce(a: string, b: string)
    ensures !(Less(a, b) && Less(b, a)) && (a != b ==> Less(a, b) || Less(b, a))
    decreases |a|
  {
    if a != [] && b != [] {
      LessOnce(a[1..], b[1..]);
      assert a == [a[0]] + a[1..] && b == [b[0]] + b[1..];
    }
  }

  lemma {:induction false} LessOn(a: string, b: string, c: string)
    requires Less(a, b) && Less(b, c)
    ensures Less(a, c)
    decreases |a|
  {
    if a != [] && a[0] == b[0] && b[0] == c[0] {
      LessOn(a[1..], b[1..], c[1..]);
    }
  }

  /** Names in order, each before the next and all after it. */
  predicate Ordered(s: seq<string>) { forall i, j :: 0 <= i < j < |s| ==> Less(s[i], s[j]) }

  lemma {:induction false} InsertOrders(s: seq<string>, x: string)
    requires Ordered(s) && x !in s
    ensures Ordered(Insert(s, x)) && forall y :: y in Insert(s, x) <==> y == x || y in s
    decreases |s|
  {
    hide Less;
    if s != [] {
      LessOnce(x, s[0]);
      if Less(x, s[0]) {
        forall j | 0 < j < |s|
          ensures Less(x, s[j])
        {
          LessOn(x, s[0], s[j]);
        }
      } else {
        InsertOrders(s[1..], x);
        var r := Insert(s[1..], x);
        forall j | 0 <= j < |r|
          ensures Less(s[0], r[j])
        {
          assert r[j] in r;
        }
      }
    }
  }

  lemma {:induction false} SortOrders(s: seq<string>)
    requires Distinct(s)
    ensures Ordered(Sort(s)) && forall y :: y in Sort(s) <==> y in s
    decreases |s|
  {
    if s != [] {
      var n := |s| - 1;
      SortOrders(s[..n]);
      assert s == s[..n] + [s[n]] && s[n] !in s[..n];
      InsertOrders(Sort(s[..n]), s[n]);
    }
  }

  /** Two ordered lists of the same names are the same list. */
  lemma {:induction false} OrderedOnce(a: seq<string>, b: seq<string>)
    requires Ordered(a) && Ordered(b) && forall x :: x in a <==> x in b
    ensures a == b
    decreases |a|
  {
    hide Less;
    EmptyAlike(a, b);
    if a != [] {
      FirstIsLeast(a, b);
      NotAgain(a);
      NotAgain(b);
      assert forall x :: x in a <==> x == a[0] || x in a[1..];
      assert forall x :: x in b <==> x == b[0] || x in b[1..];
      OrderedOnce(a[1..], b[1..]);
    }
  }

  lemma EmptyAlike(a: seq<string>, b: seq<string>)
    requires forall x :: x in a <==> x in b
    ensures a == [] <==> b == []
  {
    assert a != [] ==> a[0] in a;
    assert b != [] ==> b[0] in b;
  }

  lemma NotAgain(a: seq<string>)
    requires Ordered(a) && a != []
    ensures a[0] !in a[1..]
  {
    hide Less;
    if i :| 0 <= i < |a[1..]| && a[1..][i] == a[0] {
      LessOnce(a[0], a[i + 1]);
    }
  }

  lemma FirstIsLeast(a: seq<string>, b: seq<string>)
    requires Ordered(a) && Ordered(b) && a != [] && b != [] && forall x :: x in a <==> x in b
    ensures a[0] == b[0]
  {
    hide Less;
    assert a[0] in a && b[0] in b;
    var i :| 0 <= i < |b| && b[i] == a[0];
    var j :| 0 <= j < |a| && a[j] == b[0];
    LessOnce(a[0], b[0]);
  }

  /** The state depends on what is named and whether anything moved, not on which event says it or in what order. */
  lemma StateIsCanonical(a: seq<Event>, b: seq<Event>)
    requires (exists e :: e in a && Moves(e)) <==> (exists e :: e in b && Moves(e))
    requires forall x :: SomeName(a, x) <==> SomeName(b, x)
    ensures StateOf(a) == StateOf(b) && Ordered(StateOf(a).objects)
  {
    hide Names, Moves, Sort, Ordered;
    SeenIsNamed([], a);
    SeenIsNamed([], b);
    SortOrders(Seen([], a));
    SortOrders(Seen([], b));
    assert forall x :: x in StateOf(a).objects <==> SomeName(a, x);
    assert forall x :: x in StateOf(b).objects <==> SomeName(b, x);
    OrderedOnce(StateOf(a).objects, StateOf(b).objects);
  }

  // What types are called

  /** Spelling apart, three kinds have more than one name, and no type at all is none. */
  lemma Synonyms(t: string)
    ensures var w := Lower(TrimSpace(t));
            && (w == "people" || w == "person" || w == "human" ==> Normalize(t) == "person")
            && (w == "vehicle" || w == "car" ==> Normalize(t) == "vehicle")
            && (w == "dog_cat" || w == "pet" || w == "animal" ==> Normalize(t) == "animal")
            && (w == "face" || w == "package" || w == "visitor" ==> Normalize(t) == w)
            && (Normalize(t) == "" <==> w == "" || w == "none")
  {
    hide TrimSpace;
    assert t == "" ==> TrimSpace(t) == "" by { NothingTrimmed(); }
    assert Lower("") == "";
  }

  lemma NothingTrimmed()
    ensures TrimSpace("") == ""
  {
  }

  /** After the change of motion, what came is told before what went. */
  lemma OnBeforeOff(a: State, b: State, i: nat, j: nat)
    requires i < j < |Diff(a, b)| && Diff(a, b)[j].on && (i > 0 || a.motion == b.motion)
    ensures Diff(a, b)[i].on
  {
    hide Missing;
  }

  /** The state after one push with a type called motion. */
  lemma MotionState()
    ensures var e := Event(0, ["md"], ["motion"]);
            Kept(All, [e]) == [e] && StateOf([e]).motion && StateOf([e]).objects == ["motion"]
  {
    hide Normalize, TrimLeft, TrimRight, Lower;
    var e := Event(0, ["md"], ["motion"]);
    assert e.words[0] != VISITOR;
    MotionNormalizes();
    assert Kept(All, [e]) == [e] by { assert [e][1..] == []; }
    assert StateOf([e]).motion by { assert e in [e] && Moves(e); }
    assert AddAll([], ["motion"]) == ["motion"] by { assert ["motion"][1..] == []; }
    assert Seen([], [e]) == ["motion"] by { assert [e][1..] == []; }
    assert Sort(["motion"]) == ["motion"] by { assert ["motion"][..0] == []; }
  }

  /** With a type called motion the changes can repeat themselves: motion goes on twice. */
  lemma MotionTypeRepeats()
    ensures var run := [Push([Event(0, ["md"], ["motion"])])];
            Emitted(All, QUIET, run) == [Change(MOTION, true), Change(MOTION, true)]
  {
    hide Kept, StateOf, Diff;
    MotionState();
    OneMotion(StateOf([Event(0, ["md"], ["motion"])]));
  }

  lemma OneMotion(s: State)
    requires s == State(true, ["motion"])
    ensures Diff(QUIET, s) == [Change(MOTION, true), Change(MOTION, true)]
  {
    assert ["motion"][1..] == [];
    assert Missing(["motion"], []) == ["motion"];
  }

  lemma MotionNormalizes()
    ensures Normalize("motion") == "motion"
  {
    assert Lower("motion") == "motion";
    assert TrimLeft("motion") == "motion" && TrimRight("motion") == "motion";
  }

  // The loops

  method BuildState(events: seq<Event>) returns (s: State)
    ensures s == StateOf(events)
  {
    hide Normalize, Sort, Moves;
    var motion, objects := false, [];
    var k := 0;
    while k < |events|
      invariant 0 <= k <= |events|
      invariant motion == exists e :: e in events[..k] && Moves(e)
      invariant Seen([], events) == Seen(objects, events[k..])
    {
      var e := events[k];
      assert events[..k + 1] == events[..k] + [e] && events[k..][0] == e && events[k..][1..] == events[k + 1..];
      if Moves(e) {
        motion := true;
      }
      if Visits(e) {
        objects := Add(objects, VISITOR);
      }
      objects := AddTypes(objects, e.ai);
      k := k + 1;
    }
    assert events[..k] == events;
    s := State(motion, Sort(objects));
  }

  method AddTypes(seen: seq<string>, ai: seq<string>) returns (r: seq<string>)
    ensures r == AddAll(seen, ai)
  {
    hide Normalize;
    r := seen;
    var i := 0;
    while i < |ai|
      invariant 0 <= i <= |ai| && AddAll(seen, ai) == AddAll(r, ai[i..])
    {
      assert ai[i..][0] == ai[i] && ai[i..][1..] == ai[i + 1..];
      r := Add(r, Normalize(ai[i]));
      i := i + 1;
    }
  }

  lemma MissingSnoc(a: seq<string>, b: seq<string>, k: nat)
    requires k < |a|
    ensures Missing(a[..k + 1], b) == Missing(a[..k], b) + if a[k] in b then [] else [a[k]]
    decreases |a|
  {
    if k > 0 {
      MissingSnoc(a[1..], b, k - 1);
      assert a[..k + 1][1..] == a[1..][..k] && a[..k][1..] == a[1..][..k - 1];
    }
  }

  lemma NoneMissing(a: seq<string>, b: seq<string>)
    requires a == []
    ensures Missing(a, b) == []
  {
  }

  /** One loop of diff: reports the names of a that b has not. */
  method Report(a: seq<string>, b: seq<string>, on: bool, out0: seq<Change>) returns (out: seq<Change>)
    ensures out == out0 + Switch(Missing(a, b), on)
  {
    hide Missing;
    out := out0;
    var i := 0;
    assert Missing(a[..0], b) == [] by { NoneMissing(a[..0], b); }
    while i < |a|
      invariant 0 <= i <= |a| && out == out0 + Switch(Missing(a[..i], b), on)
    {
      MissingSnoc(a, b, i);
      if a[i] !in b {
        out := out + [Change(a[i], on)];
      }
      i := i + 1;
    }
    assert a[..i] == a;
  }

  class Watcher {
    var cur: State
    var told: seq<Change>

    constructor ()
      ensures cur == QUIET && told == []
    {
      cur, told := QUIET, [];
    }

    /** Tells the listener of the way to next, and goes there. */
    method MoveTo(next: State)
      modifies this
      ensures cur == next && told == old(told) + Diff(old(cur), next)
    {
      hide Switch, Missing;
      var out := if cur.motion != next.motion then [Change(MOTION, next.motion)] else [];
      out := Report(next.objects, cur.objects, true, out);
      out := Report(cur.objects, next.objects, false, out);
      told := told + out;
      cur := next;
    }

    /** One turn of the loop. */
    method Handle(f: Filter, i: Input)
      modifies this
      ensures cur == After(f, old(cur), i)
      ensures told == old(told) + if i.Ignored? then [] else Diff(old(cur), cur)
    {
      match i
      case Ignored =>
      case Push(events) =>
        var next := BuildState(Kept(f, events));
        MoveTo(next);
      case Lost => MoveTo(QUIET);
    }

    /** A whole run: what the listener is told is what the specification says. */
    method Watch(f: Filter, run: seq<Input>)
      modifies this
      ensures cur == Final(f, old(cur), run) && told == old(told) + Emitted(f, old(cur), run)
    {
      hide Diff, StateOf;
      var k := 0;
      while k < |run|
        invariant 0 <= k <= |run|
        invariant Final(f, old(cur), run) == Final(f, cur, run[k..])
        invariant old(told) + Emitted(f, old(cur), run) == told + Emitted(f, cur, run[k..])
      {
        assert run[k..][0] == run[k] && run[k..][1..] == run[k + 1..];
        Handle(f, run[k]);
        k := k + 1;
      }
    }
  }
}
