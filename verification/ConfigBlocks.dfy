/** Reordering the [[camera]] blocks of the config text: internal/control/fleetorder.go. */
module ConfigBlocks {
  import opened Lists
  import opened Text
  import opened Wrappers
  import opened ConfigScan

  /** Where each name's block is, or nothing if one has none. */
  function FindAll(nameOf: NameOf, lines: seq<string>, names: seq<string>): (r: Option<seq<Span>>)
    ensures r.Some? ==> |r.value| == |names|
  {
    if names == [] then Some([]) else
    var first, rest := Find(nameOf, lines, names[0]), FindAll(nameOf, lines, names[1..]);
    if first.None? || rest.None? then None else Some([first.value] + rest.value)
  }

  /** sort.Slice by start. */
  function InsertSpan(sorted: seq<Span>, sp: Span): (r: seq<Span>)
    ensures multiset(r) == multiset(sorted) + multiset{sp}
  {
    if sorted == [] || sp.start < sorted[0].start then [sp] + sorted else
    assert sorted == [sorted[0]] + sorted[1..];
    [sorted[0]] + InsertSpan(sorted[1..], sp)
  }

  function SortSpans(spans: seq<Span>): (r: seq<Span>)
    ensures multiset(r) == multiset(spans)
  {
    if spans == [] then [] else
    assert spans == spans[..|spans| - 1] + [spans[|spans| - 1]];
    InsertSpan(SortSpans(spans[..|spans| - 1]), spans[|spans| - 1])
  }

  predicate Rising(spans: seq<Span>) {
    forall i, j :: 0 <= i < j < |spans| ==> spans[i].start < spans[j].start
  }

  /** names without repeats and without those that are not known. */
  function Listed(names: seq<string>, known: seq<string>, listed: seq<string>): (r: seq<string>)
    decreases |names|
  {
    if names == [] then listed
    else if names[0] in known && names[0] !in listed then Listed(names[1..], known, listed + [names[0]])
    else Listed(names[1..], known, listed)
  }

  function Unlisted(current: seq<string>, listed: seq<string>): seq<string>
    decreases |current|
  {
    if current == [] then []
    else (if current[0] in listed then [] else [current[0]]) + Unlisted(current[1..], listed)
  }

  /** The order asked for: the names listed, then the rest in their order. */
  function Want(current: seq<string>, names: seq<string>): seq<string> {
    var listed := Listed(names, current, []);
    listed + Unlisted(current, listed)
  }

  lemma {:induction false} ListedIsKnown(names: seq<string>, known: seq<string>, listed: seq<string>)
    requires Distinct(listed) && forall n :: n in listed ==> n in known
    ensures var r := Listed(names, known, listed); Distinct(r) && forall n :: n in r ==> n in known
    decreases |names|
  {
    if names != [] {
      if names[0] in known && names[0] !in listed {
        ListedIsKnown(names[1..], known, listed + [names[0]]);
      } else {
        ListedIsKnown(names[1..], known, listed);
      }
    }
  }

  lemma {:induction false} UnlistedRest(current: seq<string>, listed: seq<string>)
    requires Distinct(current)
    ensures Distinct(Unlisted(current, listed))
    ensures forall n :: n in Unlisted(current, listed) <==> n in current && n !in listed
    decreases |current|
  {
    if current != [] {
      UnlistedRest(current[1..], listed);
      assert current[0] !in current[1..];
      assert forall n :: n in current <==> n == current[0] || n in current[1..];
    }
  }

  /** Whatever is asked for, every camera is placed exactly once. */
  lemma WantIsPermutation(current: seq<string>, names: seq<string>)
    requires Distinct(current)
    ensures Distinct(Want(current, names)) && multiset(Want(current, names)) == multiset(current)
  {
    var listed := Listed(names, current, []);
    ListedIsKnown(names, current, []);
    UnlistedRest(current, listed);
    var want, rest := Want(current, names), Unlisted(current, listed);
    assert forall i :: 0 <= i < |rest| ==> rest[i] !in listed;
    assert forall n :: n in want <==> n in current;
    SameElements(want, current);
  }

  /** Where a name first stands in a list, or its length. */
  function Place(s: seq<string>, n: string): (k: nat)
    ensures k <= |s| && (k < |s| ==> s[k] == n) && (n in s <==> k < |s|)
  {
    if s == [] || s[0] == n then 0 else 1 + Place(s[1..], n)
  }

  /** Names asked for come before the rest, in the order asked for; the rest keep the file's order. */
  predicate Precedes(current: seq<string>, names: seq<string>, a: string, b: string) {
    if a in names && b in names then Place(names, a) < Place(names, b)
    else if a !in names && b !in names then Place(current, a) < Place(current, b)
    else a in names
  }

  lemma {:induction false} ListedPlaces(names: seq<string>, known: seq<string>, listed: seq<string>)
    requires Distinct(listed)
    ensures var r := Listed(names, known, listed);
            && listed <= r && Distinct(r)
            && (forall n :: n in r <==> n in listed || (n in names && n in known))
            && forall i, j :: |listed| <= i < j < |r| ==> Place(names, r[i]) < Place(names, r[j])
    decreases |names|
  {
    if names != [] {
      var next := if names[0] in known && names[0] !in listed then listed + [names[0]] else listed;
      ListedPlaces(names[1..], known, next);
      var r := Listed(names, known, listed);
      forall i, j | |listed| <= i < j < |r|
        ensures Place(names, r[i]) < Place(names, r[j])
      {
        NewPlaces(names, known, listed, r, i, j);
      }
    }
  }

  lemma NewPlaces(names: seq<string>, known: seq<string>, listed: seq<string>, r: seq<string>, i: nat, j: nat)
    requires names != [] && Distinct(r) && |listed| <= i < j < |r| && listed <= r
    requires var next := if names[0] in known && names[0] !in listed then listed + [names[0]] else listed;
             && next <= r && (i >= |next| ==> Place(names[1..], r[i]) < Place(names[1..], r[j]))
             && forall n :: n in r ==> n in next || (n in names[1..] && n in known)
    ensures Place(names, r[i]) < Place(names, r[j])
  {
    Apart(r, listed, i);
    Apart(r, listed, j);
    assert r[i] in r && r[j] in r;
    if names[0] in known && names[0] !in listed {
      assert r[|listed|] == names[0];
    }
  }

  lemma Apart(r: seq<string>, listed: seq<string>, i: nat)
    requires Distinct(r) && listed <= r && |listed| <= i < |r|
    ensures r[i] !in listed
  {
    assert forall k :: 0 <= k < |listed| ==> listed[k] == r[k];
  }

  lemma {:induction false} UnlistedPlaces(current: seq<string>, listed: seq<string>)
    requires Distinct(current)
    ensures var r := Unlisted(current, listed);
            && (forall n :: n in r <==> n in current && n !in listed)
            && forall i, j :: 0 <= i < j < |r| ==> Place(current, r[i]) < Place(current, r[j])
    decreases |current|
  {
    if current != [] {
      UnlistedPlaces(current[1..], listed);
      assert current[0] !in current[1..];
      assert forall n :: n in current <==> n == current[0] || n in current[1..];
    }
  }

  /** The wanted order, whatever is asked for: unknown names and repeats left out, the asked ones first. */
  lemma WantInOrder(current: seq<string>, names: seq<string>, i: nat, j: nat)
    requires Distinct(current) && i < j < |Want(current, names)|
    ensures Precedes(current, names, Want(current, names)[i], Want(current, names)[j])
  {
    var listed := Listed(names, current, []);
    ListedPlaces(names, current, []);
    UnlistedPlaces(current, listed);
    hide Place;
    var want, rest := Want(current, names), Unlisted(current, listed);
    if j < |listed| {
      assert want[i] == listed[i] && want[j] == listed[j];
    } else if i < |listed| {
      assert want[i] == listed[i] && want[j] == rest[j - |listed|];
      assert rest[j - |listed|] in rest;
    } else {
      assert want[i] == rest[i - |listed|] && want[j] == rest[j - |listed|];
      assert rest[i - |listed|] in rest && rest[j - |listed|] in rest;
    }
  }

  /** The file's own order is what is wanted when nothing, or that very order, is asked for. */
  lemma WantOwnOrder(current: seq<string>)
    requires Distinct(current)
    ensures Want(current, []) == current && Want(current, current) == current
  {
    NoneListed(current, []);
    AllListed([], current);
    assert [] + current == current;
    NoneUnlisted(current, current);
  }

  lemma {:induction false} NoneListed(current: seq<string>, listed: seq<string>)
    requires listed == []
    ensures Unlisted(current, listed) == current
    decreases |current|
  {
    if current != [] { NoneListed(current[1..], listed); }
  }

  lemma {:induction false} NoneUnlisted(current: seq<string>, listed: seq<string>)
    requires forall n :: n in current ==> n in listed
    ensures Unlisted(current, listed) == []
    decreases |current|
  {
    if current != [] { NoneUnlisted(current[1..], listed); }
  }

  lemma {:induction false} AllListed(done: seq<string>, rest: seq<string>)
    requires Distinct(done + rest)
    ensures Listed(rest, done + rest, done) == done + rest
    decreases |rest|
  {
    if rest == [] {
      assert done + rest == done;
    } else {
      assert (done + rest)[|done|] == rest[0];
      assert forall k :: 0 <= k < |done| ==> done[k] == (done + rest)[k] != (done + rest)[|done|];
      assert done + rest == (done + [rest[0]]) + rest[1..];
      AllListed(done + [rest[0]], rest[1..]);
    }
  }

  /** The order asked for, when it names each camera once. */
  lemma WantWholeOrder(current: seq<string>, order: seq<string>)
    requires Distinct(current) && Distinct(order) && forall n :: n in order <==> n in current
    ensures Want(current, order) == order
  {
    KnownOnly(order, current, order, []);
    AllListed([], order);
    assert [] + order == order;
    NoneUnlisted(current, order);
  }

  lemma {:induction false} KnownOnly(names: seq<string>, a: seq<string>, b: seq<string>, listed: seq<string>)
    requires forall n :: n in a <==> n in b
    ensures Listed(names, a, listed) == Listed(names, b, listed)
    decreases |names|
  {
    if names != [] {
      KnownOnly(names[1..], a, b, listed);
      KnownOnly(names[1..], a, b, listed + [names[0]]);
    }
  }

  // Putting bodies into slots

  /** The lines with each slot's lines replaced by a body, and everything between the slots kept. */
  function Weave(lines: seq<string>, prev: nat, slots: seq<Span>, bodies: seq<seq<string>>): seq<string>
    requires prev <= |lines| && |bodies| == |slots| && Slots(slots, prev, |lines|)
    decreases |slots|
  {
    if slots == [] then lines[prev..] else
    lines[prev..slots[0].start] + bodies[0] + Weave(lines, slots[0].end, slots[1..], bodies[1..])
  }

  /** Slots in bounds and in order from prev on. */
  predicate Slots(slots: seq<Span>, prev: nat, n: nat) {
    && (forall k :: 0 <= k < |slots| ==> prev <= slots[k].start < slots[k].end <= n)
    && (forall j, k :: 0 <= j < k < |slots| ==> slots[j].end <= slots[k].start)
  }

  /** A block's lines; nothing for a span that is out of bounds. */
  function BodyLines(lines: seq<string>, sp: Span): seq<string> {
    if sp.start <= sp.end <= |lines| then lines[sp.start..sp.end] else []
  }

  function BodiesOf(lines: seq<string>, slots: seq<Span>): (r: seq<seq<string>>)
    ensures |r| == |slots|
  {
    Map(sp => BodyLines(lines, sp), slots)
  }

  /** Every slot given its own body back: the lines as they were. */
  lemma {:induction false} WeaveOwn(lines: seq<string>, prev: nat, slots: seq<Span>)
    requires prev <= |lines| && Slots(slots, prev, |lines|)
    ensures Weave(lines, prev, slots, BodiesOf(lines, slots)) == lines[prev..]
    decreases |slots|
  {
    hide BodyLines;
    if slots != [] {
      WeaveOwn(lines, slots[0].end, slots[1..]);
      BodiesOfRest(lines, slots);
      CutThree(lines, prev, slots[0]);
    }
  }

  lemma BodiesOfRest(lines: seq<string>, slots: seq<Span>)
    requires slots != []
    ensures BodiesOf(lines, slots)[0] == BodyLines(lines, slots[0])
    ensures BodiesOf(lines, slots)[1..] == BodiesOf(lines, slots[1..])
  {
    hide BodyLines;
  }

  lemma CutThree(lines: seq<string>, prev: nat, sp: Span)
    requires prev <= sp.start <= sp.end <= |lines|
    ensures lines[prev..sp.start] + BodyLines(lines, sp) + lines[sp.end..] == lines[prev..]
  {
  }

  /** The builder's text, from where it stands: lines between, a line end, a body, a line end. */
  function Built(lines: seq<string>, prev: nat, slots: seq<Span>, bodies: seq<string>): string
    requires prev <= |lines| && |bodies| == |slots| && Slots(slots, prev, |lines|)
    decreases |slots|
  {
    if slots == [] then Join(lines[prev..]) else
    var sp := slots[0];
    Join(lines[prev..sp.start]) + (if sp.start > prev then "\n" else "") + bodies[0]
    + (if sp.end < |lines| then "\n" else "") + Built(lines, sp.end, slots[1..], bodies[1..])
  }

  function Joined(bodies: seq<seq<string>>): (r: seq<string>)
    ensures |r| == |bodies|
  {
    seq(|bodies|, k requires 0 <= k < |bodies| => Join(bodies[k]))
  }

  /** What the builder writes is the woven lines, joined. */
  lemma {:induction false} BuiltIsWoven(lines: seq<string>, prev: nat, slots: seq<Span>, bodies: seq<seq<string>>)
    requires prev <= |lines| && |bodies| == |slots| && Slots(slots, prev, |lines|)
    requires forall k :: 0 <= k < |bodies| ==> bodies[k] != []
    ensures Built(lines, prev, slots, Joined(bodies)) == Join(Weave(lines, prev, slots, bodies))
    ensures prev < |lines| ==> Weave(lines, prev, slots, bodies) != []
    ensures prev == |lines| ==> slots == [] && Weave(lines, prev, slots, bodies) == []
    decreases |slots|
  {
    hide Join;
    if slots != [] {
      var sp, before := slots[0], lines[prev..slots[0].start];
      var rest := Weave(lines, sp.end, slots[1..], bodies[1..]);
      BuiltIsWoven(lines, sp.end, slots[1..], bodies[1..]);
      assert Joined(bodies)[1..] == Joined(bodies[1..]);
      JoinThree(before, bodies[0], rest);
      assert rest == [] <==> sp.end == |lines|;
      assert before == [] <==> sp.start == prev;
    }
  }

  lemma JoinThree(before: seq<string>, body: seq<string>, rest: seq<string>)
    requires body != []
    ensures Join(before + body + rest) ==
            Join(before) + (if before == [] then "" else "\n") + Join(body)
            + (if rest == [] then "" else "\n") + Join(rest)
  {
    var tail := Join(body) + (if rest == [] then "" else "\n") + Join(rest);
    assert Join(body + rest) == tail by {
      if rest == [] { assert body + rest == body; } else { JoinAppend(body, rest); }
    }
    assert before + body + rest == before + (body + rest);
    if before == [] {
      assert before + (body + rest) == body + rest;
    } else {
      JoinAppend(before, body + rest);
    }
  }

  // Where the blocks are

  /** One of the scan's blocks, trimmed. */
  predicate Placed(lines: seq<string>, sp: Span)
  {
    ScanInOrder(lines, 0, Outside, []);
    exists j :: 0 <= j < |Spans(lines)| && sp == Trimmed(lines, Spans(lines)[j])
  }

  lemma PlacedApart(lines: seq<string>, a: Span, b: Span)
    requires Placed(lines, a) && Placed(lines, b) && a != b
    ensures a.end <= b.start || b.end <= a.start
    ensures a.start < a.end <= |lines| && b.start < b.end <= |lines|
  {
    hide Scan, Trimmed;
    ScanInOrder(lines, 0, Outside, []);
    var spans := Spans(lines);
    var i :| 0 <= i < |spans| && a == Trimmed(lines, spans[i]);
    var j :| 0 <= j < |spans| && b == Trimmed(lines, spans[j]);
  }

  lemma FoundIsPlaced(nameOf: NameOf, lines: seq<string>, name: string)
    requires Find(nameOf, lines, name).Some?
    ensures var sp := Find(nameOf, lines, name).value;
            Placed(lines, sp) && sp.start < sp.end <= |lines| && nameOf(Body(lines, sp)) == Some(name)
  {
    hide Scan, Trimmed, Body;
    ScanInOrder(lines, 0, Outside, []);
    var k := FindInIsFirst(nameOf, lines, Spans(lines), name);
  }

  lemma {:induction false} FindAllAt(nameOf: NameOf, lines: seq<string>, names: seq<string>)
    ensures FindAll(nameOf, lines, names).Some? <==> forall n :: n in names ==> Find(nameOf, lines, n).Some?
    ensures FindAll(nameOf, lines, names).Some? ==>
              forall k :: 0 <= k < |names| ==>
                Find(nameOf, lines, names[k]) == Some(FindAll(nameOf, lines, names).value[k])
    decreases |names|
  {
    hide Find;
    if names != [] {
      FindAllAt(nameOf, lines, names[1..]);
      assert forall n :: n in names <==> n == names[0] || n in names[1..];
    }
  }

  predicate Sorted(spans: seq<Span>) {
    forall i, j :: 0 <= i < j < |spans| ==> spans[i].start <= spans[j].start
  }

  lemma {:induction false} InsertSorts(sorted: seq<Span>, sp: Span)
    requires Sorted(sorted)
    ensures Sorted(InsertSpan(sorted, sp))
    decreases |sorted|
  {
    if sorted != [] && !(sp.start < sorted[0].start) {
      InsertSorts(sorted[1..], sp);
      var r := InsertSpan(sorted[1..], sp);
      forall x | x in r
        ensures x.start >= sorted[0].start
      {
        assert x in multiset(r);
        assert x in multiset(sorted[1..]) || x == sp;
      }
    }
  }

  lemma {:induction false} SortSorts(spans: seq<Span>)
    ensures Sorted(SortSpans(spans))
    decreases |spans|
  {
    if spans != [] {
      SortSorts(spans[..|spans| - 1]);
      InsertSorts(SortSpans(spans[..|spans| - 1]), spans[|spans| - 1]);
    }
  }

  /** Different cameras have different blocks. */
  lemma FoundApart(nameOf: NameOf, lines: seq<string>, current: seq<string>)
    requires Distinct(current) && FindAll(nameOf, lines, current).Some?
    ensures var found := FindAll(nameOf, lines, current).value;
            Distinct(found) && forall sp :: sp in found ==> Placed(lines, sp)
  {
    hide Find, FindAll, Placed, Body;
    var found := FindAll(nameOf, lines, current).value;
    FindAllAt(nameOf, lines, current);
    forall k | 0 <= k < |found|
      ensures Placed(lines, found[k]) && found[k].start < found[k].end <= |lines|
      ensures nameOf(Body(lines, found[k])) == Some(current[k])
    {
      FoundIsPlaced(nameOf, lines, current[k]);
    }
  }

  lemma PlacedInBounds(lines: seq<string>, sp: Span)
    requires Placed(lines, sp)
    ensures sp.start < sp.end <= |lines|
  {
    hide Scan, Trimmed;
    ScanInOrder(lines, 0, Outside, []);
  }

  /** Blocks of the scan, without repeats, sorted, are slots. */
  lemma PlacedSlots(lines: seq<string>, found: seq<Span>)
    requires Distinct(found) && forall sp :: sp in found ==> Placed(lines, sp)
    ensures var slots := SortSpans(found);
            && Slots(slots, 0, |lines|) && |slots| == |found|
            && (forall sp :: sp in slots ==> Placed(lines, sp)) && Rising(slots)
  {
    hide Placed, SortSpans;
    var slots := SortSpans(found);
    SortSorts(found);
    Rearranged(found, slots);
    forall k | 0 <= k < |slots|
      ensures slots[k].start < slots[k].end <= |lines|
    {
      PlacedInBounds(lines, slots[k]);
    }
    forall j, k | 0 <= j < k < |slots|
      ensures slots[j].end <= slots[k].start
    {
      PlacedApart(lines, slots[j], slots[k]);
    }
  }

  lemma FoundSlots(nameOf: NameOf, lines: seq<string>, current: seq<string>)
    requires Distinct(current) && FindAll(nameOf, lines, current).Some?
    ensures var slots := SortSpans(FindAll(nameOf, lines, current).value);
            && Slots(slots, 0, |lines|) && |slots| == |current|
            && (forall sp :: sp in slots ==> Placed(lines, sp)) && Rising(slots)
  {
    hide Placed, FindAll, SortSpans;
    FoundApart(nameOf, lines, current);
    PlacedSlots(lines, FindAll(nameOf, lines, current).value);
  }

  // Reordering

  function BodyOf(nameOf: NameOf, lines: seq<string>, name: string): (b: seq<string>)
    ensures Find(nameOf, lines, name).Some? ==> b != []
  {
    var sp := Find(nameOf, lines, name);
    if sp.None? then [] else
    FoundIsPlaced(nameOf, lines, name);
    BodyLines(lines, sp.value)
  }

  function Bodies(nameOf: NameOf, lines: seq<string>, names: seq<string>): (r: seq<seq<string>>)
    ensures |r| == |names|
  {
    Map(name => BodyOf(nameOf, lines, name), names)
  }

  /** The lines in the order asked for. */
  function Rearrange(nameOf: NameOf, lines: seq<string>, current: seq<string>, names: seq<string>): seq<string>
    requires Distinct(current) && FindAll(nameOf, lines, current).Some?
  {
    FoundSlots(nameOf, lines, current);
    WantIsPermutation(current, names);
    assert |multiset(Want(current, names))| == |multiset(current)|;
    Weave(lines, 0, SortSpans(FindAll(nameOf, lines, current).value), Bodies(nameOf, lines, Want(current, names)))
  }

  /** reorderCameraBlocks: the text rearranged, or unchanged and false when a camera's block cannot be found. */
  function Reorder(nameOf: NameOf, text: string, current: seq<string>, names: seq<string>): (string, bool)
    requires Distinct(current)
  {
    var lines := Split(text);
    if FindAll(nameOf, lines, current).None? then (text, false)
    else (Join(Rearrange(nameOf, lines, current, names)), true)
  }

  lemma {:induction false} SortedStays(spans: seq<Span>)
    requires Rising(spans)
    ensures SortSpans(spans) == spans
    decreases |spans|
  {
    hide InsertSpan;
    if spans != [] {
      var init, last := spans[..|spans| - 1], spans[|spans| - 1];
      assert Rising(init);
      SortedStays(init);
      InsertLast(init, last);
      assert spans == init + [last];
    }
  }

  lemma {:induction false} InsertLast(sorted: seq<Span>, sp: Span)
    requires forall x :: x in sorted ==> x.start < sp.start
    ensures InsertSpan(sorted, sp) == sorted + [sp]
    decreases |sorted|
  {
    if sorted != [] {
      InsertLast(sorted[1..], sp);
    }
  }

  /** Asked for the order the file has, or for none, the text comes back byte for byte. */
  lemma {:induction false} OwnOrderIsText(nameOf: NameOf, text: string, current: seq<string>, names: seq<string>)
    requires Distinct(current) && (names == current || names == [])
    requires FindAll(nameOf, Split(text), current).Some? && Rising(FindAll(nameOf, Split(text), current).value)
    ensures Reorder(nameOf, text, current, names) == (text, true)
  {
    hide Find, FindAll, Split, Join, Want, Rising, Body;
    var lines := Split(text);
    var found := FindAll(nameOf, lines, current).value;
    FoundSlots(nameOf, lines, current);
    SortedStays(found);
    WantOwnOrder(current);
    FindAllAt(nameOf, lines, current);
    forall sp | sp in found
      ensures sp.start <= sp.end <= |lines|
    {
      PlacedInBounds(lines, sp);
    }
    assert Bodies(nameOf, lines, current) == BodiesOf(lines, found);
    WeaveOwn(lines, 0, found);
    assert lines[0..] == lines;
    JoinSplit(text);
  }

  // Conservation: every order keeps every character

  function AllChars(bodies: seq<seq<string>>): multiset<char> {
    if bodies == [] then multiset{} else Chars(bodies[0]) + AllChars(bodies[1..])
  }

  /** The characters between the slots. */
  function Between(lines: seq<string>, prev: nat, slots: seq<Span>): multiset<char>
    requires prev <= |lines| && Slots(slots, prev, |lines|)
    decreases |slots|
  {
    if slots == [] then Chars(lines[prev..])
    else Chars(lines[prev..slots[0].start]) + Between(lines, slots[0].end, slots[1..])
  }

  lemma {:induction false} WeaveChars(lines: seq<string>, prev: nat, slots: seq<Span>, bodies: seq<seq<string>>)
    requires prev <= |lines| && |bodies| == |slots| && Slots(slots, prev, |lines|)
    ensures Chars(Weave(lines, prev, slots, bodies)) == Between(lines, prev, slots) + AllChars(bodies)
    decreases |slots|
  {
    hide Chars;
    if slots != [] {
      var before, rest := lines[prev..slots[0].start], Weave(lines, slots[0].end, slots[1..], bodies[1..]);
      WeaveChars(lines, slots[0].end, slots[1..], bodies[1..]);
      CharsAppend(before + bodies[0], rest);
      CharsAppend(before, bodies[0]);
    }
  }

  lemma {:induction false} AllCharsAppend(a: seq<seq<string>>, b: seq<seq<string>>)
    ensures AllChars(a + b) == AllChars(a) + AllChars(b)
    decreases |a|
  {
    if a == [] {
      assert a + b == b;
    } else {
      assert (a + b)[1..] == a[1..] + b;
      AllCharsAppend(a[1..], b);
    }
  }

  lemma {:induction false} AllCharsPermuted(a: seq<seq<string>>, b: seq<seq<string>>)
    requires multiset(a) == multiset(b)
    ensures AllChars(a) == AllChars(b)
    decreases |a|
  {
    hide Chars, AllChars, Without;
    if a == [] {
      assert |multiset(b)| == 0;
      assert b == [];
    } else {
      var k := Index(b, a[0], a);
      TakeOut(a, 0);
      TakeOut(b, k);
      SameLeft(multiset(Without(a, 0)), multiset(Without(b, k)), a[0]);
      WithoutShorter(a, 0);
      AllCharsPermuted(Without(a, 0), Without(b, k));
      AllCharsWithout(a, 0);
      AllCharsWithout(b, k);
    }
  }

  lemma AllCharsCons(b: seq<seq<string>>)
    requires b != []
    ensures AllChars(b) == Chars(b[0]) + AllChars(b[1..])
  {
  }

  lemma AllCharsWithout(b: seq<seq<string>>, k: nat)
    requires k < |b|
    ensures AllChars(b) == Chars(b[k]) + AllChars(Without(b, k))
  {
    hide Chars, AllChars;
    AllCharsCons([b[k]] + b[k + 1..]);
    AllCharsAppend(b[..k], b[k + 1..]);
    AllCharsAppend(b[..k], [b[k]] + b[k + 1..]);
    assert b[..k] + ([b[k]] + b[k + 1..]) == b;
    assert ([b[k]] + b[k + 1..])[1..] == b[k + 1..];
  }

  /** The blocks of a file, in whatever order current names them, are the blocks in its slots. */
  lemma SlotBodies(nameOf: NameOf, lines: seq<string>, current: seq<string>)
    requires Distinct(current) && FindAll(nameOf, lines, current).Some?
    ensures multiset(BodiesOf(lines, SortSpans(FindAll(nameOf, lines, current).value)))
            == multiset(Bodies(nameOf, lines, current))
  {
    hide FindAll, Find, SortSpans;
    var found := FindAll(nameOf, lines, current).value;
    FindAllAt(nameOf, lines, current);
    assert BodiesOf(lines, found) == Bodies(nameOf, lines, current);
    MapRearranged(sp => BodyLines(lines, sp), SortSpans(found), found);
  }

  lemma {:induction false} RearrangeChars(nameOf: NameOf, lines: seq<string>, current: seq<string>, names: seq<string>)
    requires Distinct(current) && FindAll(nameOf, lines, current).Some? && lines != []
    ensures Chars(Rearrange(nameOf, lines, current, names)) == Chars(lines)
  {
    hide Find, FindAll, Want, Rising, Chars, BodyOf, BodyLines, Weave, SortSpans, Join, Built, Map, AllChars;
    var slots, want := SortSpans(FindAll(nameOf, lines, current).value), Want(current, names);
    WantIsPermutation(current, names);
    RearrangeLines(nameOf, lines, current, names);
    SlotBodies(nameOf, lines, current);
    MapRearranged(name => BodyOf(nameOf, lines, name), want, current);
    var mine, theirs := BodiesOf(lines, slots), Bodies(nameOf, lines, want);
    assert multiset(mine) == multiset(theirs);
    AllCharsPermuted(theirs, mine);
    WeaveChars(lines, 0, slots, theirs);
    WeaveChars(lines, 0, slots, mine);
    WeaveOwn(lines, 0, slots);
    assert lines[0..] == lines;
  }

  /** Whatever order is asked for, no character of the file is lost, added or changed. */
  lemma ReorderKeepsCharacters(nameOf: NameOf, text: string, current: seq<string>, names: seq<string>)
    requires Distinct(current)
    ensures multiset(Reorder(nameOf, text, current, names).0) == multiset(text)
  {
    hide FindAll, Split, Join, Chars, Rearrange, Built, Weave, SortSpans, Want, Bodies, Slots;
    var lines := Split(text);
    if FindAll(nameOf, lines, current).Some? {
      RearrangeLines(nameOf, lines, current, names);
      RearrangeChars(nameOf, lines, current, names);
      JoinChars(Rearrange(nameOf, lines, current, names));
      JoinChars(lines);
      JoinSplit(text);
      SameWithout(multiset(Join(Rearrange(nameOf, lines, current, names))), multiset(text), multiset{'\n'});
    }
  }

  lemma SameWithout(a: multiset<char>, b: multiset<char>, c: multiset<char>)
    requires a + c == b + c
    ensures a == b
  {
    assert a == (a + c) - c && b == (b + c) - c;
  }

  lemma RearrangeLines(nameOf: NameOf, lines: seq<string>, current: seq<string>, names: seq<string>)
    requires Distinct(current) && FindAll(nameOf, lines, current).Some? && lines != []
    ensures var slots, want := SortSpans(FindAll(nameOf, lines, current).value), Want(current, names);
            && |want| == |slots| && Slots(slots, 0, |lines|)
            && Rearrange(nameOf, lines, current, names) == Weave(lines, 0, slots, Bodies(nameOf, lines, want))
            && Rearrange(nameOf, lines, current, names) != []
            && Join(Rearrange(nameOf, lines, current, names))
               == Built(lines, 0, slots, Joined(Bodies(nameOf, lines, want)))
  {
    hide Find, FindAll, Want, Rising, BodyOf, SortSpans;
    FoundSlots(nameOf, lines, current);
    WantIsPermutation(current, names);
    var slots, want := SortSpans(FindAll(nameOf, lines, current).value), Want(current, names);
    assert |multiset(want)| == |multiset(current)|;
    FindAllAt(nameOf, lines, current);
    forall k | 0 <= k < |want|
      ensures Bodies(nameOf, lines, want)[k] != []
    {
      assert want[k] in multiset(current);
    }
    BuiltIsWoven(lines, 0, slots, Bodies(nameOf, lines, want));
  }

  // The loops

  /** The order asked for: the two loops over names and current. */
  method WantedOrder(current: seq<string>, names: seq<string>) returns (want: seq<string>)
    ensures want == Want(current, names)
  {
    want := [];
    var i := 0;
    while i < |names|
      invariant 0 <= i <= |names| && Listed(names, current, []) == Listed(names[i..], current, want)
    {
      assert names[i..][0] == names[i] && names[i..][1..] == names[i + 1..];
      if names[i] in current && names[i] !in want {
        want := want + [names[i]];
      }
      i := i + 1;
    }
    var listed := want;
    var k := 0;
    while k < |current|
      invariant 0 <= k <= |current| && listed + Unlisted(current, listed) == want + Unlisted(current[k..], listed)
    {
      assert current[k..][0] == current[k] && current[k..][1..] == current[k + 1..];
      if current[k] !in listed {
        want := want + [current[k]];
      }
      k := k + 1;
    }
  }

  /** Every camera's block: its place, and its text by name. */
  method FindBlocks(nameOf: NameOf, lines: seq<string>, current: seq<string>)
      returns (ok: bool, spans: seq<Span>, body: map<string, string>)
    ensures ok == FindAll(nameOf, lines, current).Some?
    ensures ok ==> FindAll(nameOf, lines, current) == Some(spans)
    ensures ok ==> forall n :: n in current ==> n in body && body[n] == Join(BodyOf(nameOf, lines, n))
  {
    hide Find, FindAll, Placed, Body, Join;
    FindAllAt(nameOf, lines, current);
    spans, body := [], map[];
    var k := 0;
    while k < |current|
      invariant 0 <= k <= |current| && |spans| == k
      invariant forall j :: 0 <= j < k ==> Find(nameOf, lines, current[j]) == Some(spans[j])
      invariant forall n :: n in body ==> body[n] == Join(BodyOf(nameOf, lines, n))
      invariant forall j :: 0 <= j < k ==> current[j] in body
    {
      var r := FindCameraBlock(nameOf, lines, current[k]);
      if r.None? {
        return false, [], map[];
      }
      FoundIsPlaced(nameOf, lines, current[k]);
      spans := spans + [r.value];
      body := body[current[k] := Join(lines[r.value.start..r.value.end])];
      k := k + 1;
    }
    ok := true;
    assert FindAll(nameOf, lines, current).value == spans;
  }

  /** What the builder writes for one slot. */
  function Piece(lines: seq<string>, prev: nat, sp: Span, body: string): string
    requires prev <= sp.start <= sp.end <= |lines|
  {
    Join(lines[prev..sp.start]) + (if sp.start > prev then "\n" else "") + body
    + (if sp.end < |lines| then "\n" else "")
  }

  lemma BuiltStep(lines: seq<string>, prev: nat, slots: seq<Span>, bodies: seq<string>, i: nat)
    requires i < |slots| == |bodies| && prev <= |lines| && Slots(slots[i..], prev, |lines|)
    ensures Slots(slots[i + 1..], slots[i].end, |lines|)
    ensures Built(lines, prev, slots[i..], bodies[i..])
         == Piece(lines, prev, slots[i], bodies[i]) + Built(lines, slots[i].end, slots[i + 1..], bodies[i + 1..])
  {
    hide Join;
    assert slots[i..][0] == slots[i] && slots[i..][1..] == slots[i + 1..];
    assert bodies[i..][0] == bodies[i] && bodies[i..][1..] == bodies[i + 1..];
  }

  /** Writes the text slot by slot. */
  method Build(lines: seq<string>, slots: seq<Span>, bodies: seq<string>) returns (b: string)
    requires |bodies| == |slots| && Slots(slots, 0, |lines|)
    ensures b == Built(lines, 0, slots, bodies)
  {
    hide Built, Join, Piece, Slots;
    b := "";
    var prev: nat, i := 0, 0;
    assert slots[0..] == slots && bodies[0..] == bodies;
    while i < |slots|
      invariant 0 <= i <= |slots| && prev <= |lines| && Slots(slots[i..], prev, |lines|)
      invariant b + Built(lines, prev, slots[i..], bodies[i..]) == Built(lines, 0, slots, bodies)
    {
      BuiltStep(lines, prev, slots, bodies, i);
      SlotInBounds(lines, prev, slots, i);
      b := b + Piece(lines, prev, slots[i], bodies[i]);
      prev := slots[i].end;
      i := i + 1;
    }
    BuiltNone(lines, prev, slots[i..], bodies[i..]);
    b := b + Join(lines[prev..]);
  }

  lemma SlotInBounds(lines: seq<string>, prev: nat, slots: seq<Span>, i: nat)
    requires i < |slots| && Slots(slots[i..], prev, |lines|)
    ensures prev <= slots[i].start <= slots[i].end <= |lines|
  {
    assert slots[i..][0] == slots[i];
  }

  lemma BuiltNone(lines: seq<string>, prev: nat, slots: seq<Span>, bodies: seq<string>)
    requires slots == [] && bodies == [] && prev <= |lines|
    ensures Slots(slots, prev, |lines|) && Built(lines, prev, slots, bodies) == Join(lines[prev..])
  {
  }

  method ReorderCameraBlocks(nameOf: NameOf, text: string, current: seq<string>, names: seq<string>)
      returns (out: string, ok: bool)
    requires Distinct(current)
    ensures (out, ok) == Reorder(nameOf, text, current, names)
  {
    hide FindAll, Find, Want, SortSpans, Weave, Built, BodyOf;
    var lines := Split(text);
    var found, spans, body := FindBlocks(nameOf, lines, current);
    if !found {
      return text, false;
    }
    var slots := SortSpans(spans);
    var want := WantedOrder(current, names);
    RearrangeLines(nameOf, lines, current, names);
    WantIsPermutation(current, names);
    Rearranged(current, want);
    var bodies := seq(|want|, i requires 0 <= i < |want| && want[i] in body => body[want[i]]);
    assert bodies == Joined(Bodies(nameOf, lines, want));
    out := Build(lines, slots, bodies);
    ok := true;
  }
}
