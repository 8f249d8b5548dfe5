/** What removing a camera leaves of the others, in any text. */
module ConfigRemoves {
  import opened Text
  import opened Wrappers
  import opened ConfigScan
  import opened ConfigBlocks
  import opened ConfigLayout
  import opened ConfigEdit
  import opened ConfigSaves
  import opened ConfigAppends

  // The spans of a file in two parts

  /** Spans before the last are not touched. */
  lemma {:induction false} ScanApart(lines: seq<string>, i: nat, q: Quote, front: seq<Span>, rest: seq<Span>)
    requires i <= |lines| && rest != []
    ensures Scan(lines, i, q, front + rest) == front + Scan(lines, i, q, rest)
    decreases |lines| - i
  {
    hide After, AtLine;
    if i < |lines| {
      AtLineApart(lines, i, q, front, rest);
      ScanApart(lines, i + 1, After(q, lines[i]), front, AtLine(lines, i, q, rest));
    }
  }

  lemma AtLineApart(lines: seq<string>, i: nat, q: Quote, front: seq<Span>, rest: seq<Span>)
    requires i < |lines| && rest != []
    ensures AtLine(lines, i, q, rest) != [] && AtLine(lines, i, q, front + rest) == front + AtLine(lines, i, q, rest)
  {
    hide IsHeader, IsCamera, CloseLast;
    CloseApart(front, rest, i);
    var more := if IsCamera(lines[i]) then [Span(i, |lines|)] else [];
    assert (front + CloseLast(rest, i)) + more == front + (CloseLast(rest, i) + more);
  }

  lemma CloseApart(front: seq<Span>, rest: seq<Span>, i: nat)
    requires rest != []
    ensures CloseLast(rest, i) != [] && CloseLast(front + rest, i) == front + CloseLast(rest, i)
  {
  }

  /** A header that the scan acts on and that is a camera's or the last one. */
  predicate Turns(lines: seq<string>, i: nat) {
    i < |lines| && IsHeader(lines[i]) && (IsCamera(lines[i]) || NoHeader(Outside, lines[i + 1..]))
  }

  /** The spans from such a header on. */
  function SpansOn(lines: seq<string>, i: nat): seq<Span>
    requires i <= |lines|
  {
    Scan(lines, i, Outside, [])
  }

  lemma {:induction false} ScanTurns(lines: seq<string>, i: nat, spans: seq<Span>)
    requires Turns(lines, i)
    ensures Scan(lines, i, Outside, spans) == CloseLast(spans, i) + SpansOn(lines, i)
  {
    hide After, IsHeader, IsCamera, CloseLast;
    HeaderStaysOutside(lines[i]);
    assert CloseLast([], i) == [] by { NoneToClose(i); }
    if IsCamera(lines[i]) {
      ScanApart(lines, i + 1, Outside, CloseLast(spans, i), [Span(i, |lines|)]);
      assert [] + [Span(i, |lines|)] == [Span(i, |lines|)];
    } else {
      NothingAfter(CloseLast(spans, i));
      ScanNone(lines, i + 1, Outside, CloseLast(spans, i));
      ScanNone(lines, i + 1, Outside, []);
    }
  }

  lemma NothingAfter(spans: seq<Span>)
    ensures spans + [] == spans
  {
  }

  lemma NoneToClose(i: nat)
    ensures CloseLast([], i) == []
  {
  }

  /** The spans of a file before such a header and from it on. */
  lemma {:induction false} SpansCut(lines: seq<string>, head: seq<string>, i: nat)
    requires Turns(lines, i) && head == lines[..i] && Through(Outside, head) == Outside
    ensures Spans(lines) == CloseLast(Spans(head), i) + SpansOn(lines, i)
  {
    hide After, IsHeader, IsCamera, Through, CloseLast, Turns, SpansOn;
    assert i < |lines| by { TurnsIn(lines, i); }
    assert lines[0..i] == head && head[..i] == head;
    var ra, rb := ScansAgree(lines, head, 0, i, Outside, [], []);
    ClosedAlike(ra, rb, i);
    ScanTurns(lines, i, ra);
  }

  lemma TurnsIn(lines: seq<string>, i: nat)
    requires Turns(lines, i)
    ensures i < |lines|
  {
  }

  /** The span of a camera goes on to such a header or to the end, and the others are found from there. */
  lemma {:induction false} ScanPast(lines: seq<string>, i: nat, q: Quote, sp: Span)
    requires i <= |lines|
    ensures i + Reach(q, lines[i..]) <= |lines|
    ensures Scan(lines, i, q, [sp])
         == [if NoHeader(q, lines[i..]) then sp else sp.(end := i + Reach(q, lines[i..]))]
            + SpansOn(lines, i + Reach(q, lines[i..]))
    decreases |lines| - i
  {
    hide After, IsHeader, IsCamera, SpansOn, Reach, NoHeader, CloseLast;
    ReachStep(q, lines[i..]);
    if i == |lines| {
      NoneOn(lines);
    } else {
      var l := lines[i];
      assert lines[i..][0] == l && lines[i..][1..] == lines[i + 1..];
      if Heads(q, l) {
        HeaderStaysOutside(l);
        OneClosed(sp, i);
        if IsCamera(l) || NoHeader(Outside, lines[i + 1..]) {
          ScanTurns(lines, i, [sp]);
        } else {
          NothingAfter([sp.(end := i)]);
          ScanPast(lines, i + 1, Outside, sp.(end := i));
        }
      } else {
        ScanPast(lines, i + 1, After(q, l), sp);
      }
    }
  }

  lemma OneClosed(sp: Span, i: nat)
    ensures CloseLast([sp], i) == [sp.(end := i)]
  {
  }

  lemma ReachStep(q: Quote, ls: seq<string>)
    ensures ls == [] ==> Reach(q, ls) == 0 && NoHeader(q, ls)
    ensures ls != [] && Heads(q, ls[0]) ==>
              && !NoHeader(q, ls)
              && (IsCamera(ls[0]) || NoHeader(Outside, ls[1..]) ==> Reach(q, ls) == 0)
              && (!IsCamera(ls[0]) && !NoHeader(Outside, ls[1..]) ==> Reach(q, ls) == 1 + Reach(Outside, ls[1..]))
    ensures ls != [] && !Heads(q, ls[0]) ==>
              && Reach(q, ls) == 1 + Reach(After(q, ls[0]), ls[1..])
              && (NoHeader(q, ls) <==> NoHeader(After(q, ls[0]), ls[1..]))
  {
    hide IsHeader, IsCamera, After;
    if ls != [] && Heads(q, ls[0]) {
      HeaderStaysOutside(ls[0]);
    }
  }

  lemma NoneOn(lines: seq<string>)
    ensures SpansOn(lines, |lines|) == []
  {
  }

  /** The spans of a file before one of its cameras, the camera's own, and those behind it. */
  lemma {:induction false} SpansPast(lines: seq<string>, s: nat)
    requires CameraLine(lines, s)
    ensures var e := s + 1 + Reach(Outside, lines[s + 1..]);
            && s < e <= |lines| && (e < |lines| ==> Turns(lines, e) && Through(Outside, lines[s + 1..e]) == Outside)
            && Spans(lines) == CloseLast(Spans(lines[..s]), s) + ([Span(s, e)] + SpansOn(lines, e))
  {
    hide After, IsHeader, IsCamera, Through, Reach, NoHeader, Scan, CloseLast, SpansOn;
    var own := lines[s + 1..];
    ScanTo(lines, s);
    ScanApart(lines, s + 1, Outside, CloseLast(Spans(lines[..s]), s), [Span(s, |lines|)]);
    ScanPast(lines, s + 1, Outside, Span(s, |lines|));
    if NoHeader(Outside, own) {
      ReachAll(Outside, own);
    }
    var r := Reach(Outside, own);
    if r < |own| {
      ReachStops(Outside, own);
      assert own[r] == lines[s + 1 + r] && own[r + 1..] == lines[s + 2 + r..];
      assert own[..r] == lines[s + 1..s + 1 + r];
    }
  }

  // The same lines further up

  function Shift(spans: seq<Span>, d: nat): seq<Span> {
    seq(|spans|, k requires 0 <= k < |spans| => Span(spans[k].start + d, spans[k].end + d))
  }

  lemma ShiftClose(spans: seq<Span>, i: nat, d: nat)
    ensures Shift(CloseLast(spans, i), d) == CloseLast(Shift(spans, d), i + d)
  {
  }

  lemma ShiftSnoc(spans: seq<Span>, sp: Span, d: nat)
    ensures Shift(spans + [sp], d) == Shift(spans, d) + [Span(sp.start + d, sp.end + d)]
  {
  }

  lemma ShiftFirst(spans: seq<Span>, d: nat)
    requires spans != []
    ensures Shift(spans, d) != [] && Shift(spans, d)[0] == Span(spans[0].start + d, spans[0].end + d)
    ensures Shift(spans, d)[1..] == Shift(spans[1..], d)
  {
  }

  lemma ShiftNone(d: nat)
    ensures Shift([], d) == []
  {
  }

  /** From line i of one file and line i + d of another on, the same lines. */
  predicate SameOn(a: seq<string>, b: seq<string>, i: nat, d: nat) { i <= |a| && i + d <= |b| && a[i..] == b[i + d..] }

  lemma SameOnNext(a: seq<string>, b: seq<string>, i: nat, d: nat)
    requires SameOn(a, b, i, d)
    ensures |a| + d == |b| && (i < |a| ==> a[i] == b[i + d] && SameOn(a, b, i + 1, d))
  {
    assert |a| - i == |a[i..]| == |b[i + d..]| == |b| - (i + d);
    if i < |a| {
      assert a[i] == a[i..][0] == b[i + d..][0] == b[i + d];
      assert a[i + 1..] == a[i..][1..] == b[i + d..][1..] == b[i + d + 1..];
    }
  }

  lemma SameOnSlice(a: seq<string>, b: seq<string>, i: nat, d: nat, j: nat, k: nat)
    requires SameOn(a, b, i, d) && i <= j <= k <= |a|
    ensures k + d <= |b| && a[j..k] == b[j + d..k + d]
  {
    SameOnNext(a, b, i, d);
    SliceOf(a, i, j - i, k - i);
    SliceOf(b, i + d, j - i, k - i);
  }

  lemma SliceOf(s: seq<string>, i: nat, j: nat, k: nat)
    requires j <= k && i + k <= |s|
    ensures s[i..][j..k] == s[i + j..i + k]
  {
  }

  lemma SameOnAt(a: seq<string>, b: seq<string>, i: nat, d: nat, j: nat)
    requires SameOn(a, b, i, d) && i <= j < |a|
    ensures j + d < |b| && a[j] == b[j + d]
  {
    SameOnNext(a, b, i, d);
    assert a[j] == a[i..][j - i] && b[j + d] == b[i + d..][j - i];
  }

  lemma ShiftAtLine(a: seq<string>, b: seq<string>, i: nat, d: nat, q: Quote, spans: seq<Span>)
    requires i < |a| && i + d < |b| && a[i] == b[i + d] && |a| + d == |b|
    ensures AtLine(b, i + d, q, Shift(spans, d)) == Shift(AtLine(a, i, q, spans), d)
  {
    hide IsHeader, IsCamera, CloseLast, Shift;
    ShiftClose(spans, i, d);
    ShiftSnoc(CloseLast(spans, i), Span(i, |a|), d);
    assert CloseLast(spans, i) + [] == CloseLast(spans, i);
    assert CloseLast(Shift(spans, d), i + d) + [] == CloseLast(Shift(spans, d), i + d);
  }

  /** The scan of the same rest of a file, d lines further down. */
  lemma {:induction false} ScanShift(a: seq<string>, b: seq<string>, i: nat, d: nat, q: Quote, spans: seq<Span>)
    requires SameOn(a, b, i, d)
    ensures Scan(b, i + d, q, Shift(spans, d)) == Shift(Scan(a, i, q, spans), d)
    decreases |a| - i
  {
    hide After, AtLine, Shift, SameOn;
    assert i <= |a| && i + d <= |b| by { SameOnIn(a, b, i, d); }
    SameOnNext(a, b, i, d);
    if i < |a| {
      ShiftAtLine(a, b, i, d, q, spans);
      ScanShift(a, b, i + 1, d, After(q, a[i]), AtLine(a, i, q, spans));
    }
  }

  lemma SameOnIn(a: seq<string>, b: seq<string>, i: nat, d: nat)
    requires SameOn(a, b, i, d)
    ensures i <= |a| && i + d <= |b|
  {
  }

  lemma {:induction false} TrimmedShift(a: seq<string>, b: seq<string>, i: nat, d: nat, sp: Span)
    requires SameOn(a, b, i, d) && i <= sp.start < sp.end <= |a| && sp.end + d <= |b|
    ensures var t := Trimmed(a, sp);
            && Trimmed(b, Span(sp.start + d, sp.end + d)) == Span(t.start + d, t.end + d)
            && t.end + d <= |b| && b[t.start + d..t.end + d] == a[t.start..t.end]
    decreases sp.end
  {
    hide IsBlank, SameOn;
    var e := sp.end - 1;
    SameOnAt(a, b, i, d, e);
    if e > sp.start && IsBlank(a[e]) {
      TrimmedShift(a, b, i, d, sp.(end := e));
    } else {
      SameOnSlice(a, b, i, d, sp.start, sp.end);
    }
  }

  /** A search over the same blocks further up finds the same lines. */
  lemma {:induction false} FindShift(nameOf: NameOf, a: seq<string>, b: seq<string>, i: nat, d: nat, spans: seq<Span>,
                                     name: string)
    requires SameOn(a, b, i, d) && forall k :: 0 <= k < |spans| ==> i <= spans[k].start
    requires InOrder(spans, |a|) && InOrder(Shift(spans, d), |b|) && FindIn(nameOf, b, Shift(spans, d), name).Some?
    ensures var r, o := FindIn(nameOf, a, spans, name), FindIn(nameOf, b, Shift(spans, d), name).value;
            && r.Some? && r.value.start <= r.value.end <= |a| && o.start <= o.end <= |b|
            && a[r.value.start..r.value.end] == b[o.start..o.end]
    decreases |spans|
  {
    hide Trimmed, SameOn, Shift, InOrder;
    ShiftNone(d);
    if spans != [] {
      ShiftFirst(spans, d);
      InOrderParts(spans, |a|);
      InOrderParts(Shift(spans, d), |b|);
      TrimmedShift(a, b, i, d, spans[0]);
      var t := Trimmed(a, spans[0]);
      assert Body(b, Span(t.start + d, t.end + d)) == Body(a, t);
      if nameOf(Body(a, t)) != Some(name) {
        FindShift(nameOf, a, b, i, d, spans[1..], name);
      }
    }
  }

  lemma InOrderParts(spans: seq<Span>, n: nat)
    requires InOrder(spans, n) && spans != []
    ensures spans[0].start < spans[0].end <= n && InOrder(spans[1..], n)
  {
  }

  // The cameras before the removed one

  /** Without the lines of a camera and the blank ones before it, those before it end as they did but for the last. */
  lemma {:induction false} FrontAgrees(lines: seq<string>, b: nat, s: nat)
    requires b <= s <= |lines| && AllBlank(lines[b..s])
    ensures Agree(CloseLast(Spans(lines[..s]), s), Spans(lines[..b]), b)
  {
    hide After, AtLine, Through, IsBlank;
    var long, short := lines[..s], lines[..b];
    assert long[..b] == short[..b] == short == long[0..b];
    var rl, rs := ScansAgree(long, short, 0, b, Outside, [], []);
    assert long[b..] == lines[b..s] && short[b..] == [];
    ScanBlanks(long, b, Through(Outside, long[0..b]), rl);
  }

  lemma ClosedAgrees(a: seq<Span>, b: seq<Span>, i: nat, n: nat)
    requires Agree(a, b, i)
    ensures Agree(a, CloseLast(b, n), i)
  {
  }

  /** The blocks that a search passes over before the j-th are passed over in the shorter file too. */
  lemma {:induction false} StillPassed(nameOf: NameOf, lines: seq<string>, after: seq<string>, b: nat, j: nat,
                                       front: seq<Span>, kept: seq<Span>, name: string)
    requires b <= |lines| && b <= |after| && lines[..b] == after[..b]
    requires InOrder(front, |lines|) && Agree(front, kept, b) && j < |front|
    requires forall k :: 0 <= k < j ==> nameOf(Body(lines, Trimmed(lines, front[k]))) != Some(name)
    ensures forall k :: 0 <= k < j ==>
              && kept[k] == front[k] && kept[k].start < kept[k].end <= |after|
              && nameOf(Body(after, Trimmed(after, kept[k]))) != Some(name)
  {
    hide Trimmed, Body;
    forall k | 0 <= k < j
      ensures kept[k] == front[k] && kept[k].start < kept[k].end <= |after|
      ensures nameOf(Body(after, Trimmed(after, kept[k]))) != Some(name)
    {
      assert front[k].end <= front[k + 1].start < b;
      BeforeAlike(lines, after, b, front[k]);
    }
  }

  lemma BeforeAlike(a: seq<string>, b: seq<string>, n: nat, sp: Span)
    requires n <= |a| && n <= |b| && a[..n] == b[..n] && sp.start < sp.end <= n
    ensures Trimmed(a, sp) == Trimmed(b, sp) && Body(a, Trimmed(a, sp)) == Body(b, Trimmed(b, sp))
  {
    hide Trimmed, Body;
    assert a[..sp.end] == a[..n][..sp.end] == b[..n][..sp.end] == b[..sp.end];
    TrimmedAlike(a, b, sp);
  }

  // The lines left

  /** The lines of camera s go, with the blank ones above it. */
  predicate Goes(lines: seq<string>, b: nat, s: nat, f: nat) {
    && b <= s && CameraLine(lines, s) && AllBlank(lines[b..s]) && f == s + 1 + Reach(Outside, lines[s + 1..])
  }

  function Left(lines: seq<string>, b: nat, f: nat): seq<string>
    requires b <= f <= |lines|
  {
    lines[..b] + lines[f..]
  }

  lemma GoesIn(lines: seq<string>, b: nat, s: nat, f: nat)
    requires Goes(lines, b, s, f)
    ensures b <= s < f <= |lines| && Through(Outside, lines[..b]) == Outside
  {
    hide Reach, IsHeader, IsCamera, AllBlank, Through;
    assert lines[..s] == lines[..b] + lines[b..s];
    RunAppend(Outside, lines[..b], lines[b..s]);
    BlanksAreNothing(Through(Outside, lines[..b]), lines[b..s]);
  }

  lemma LeftIs(lines: seq<string>, b: nat, f: nat)
    requires b <= f <= |lines|
    ensures var after := Left(lines, b, f);
            && after[..b] == lines[..b] && SameOn(after, lines, b, f - b)
            && (f == |lines| ==> after == lines[..b])
            && (f < |lines| ==> b < |after| && after[b] == lines[f] && after[b + 1..] == lines[f + 1..])
  {
    var after := Left(lines, b, f);
    assert after[b..] == lines[f..];
    if f < |lines| {
      assert after[b + 1..] == lines[f + 1..];
    }
  }

  /** The scan before: the cameras above, the one that goes, and those below. */
  lemma SpansBefore(lines: seq<string>, b: nat, s: nat, f: nat)
    requires Goes(lines, b, s, f)
    ensures s < f <= |lines| && (f < |lines| ==> Turns(lines, f))
    ensures Spans(lines) == CloseLast(Spans(lines[..s]), s) + ([Span(s, f)] + SpansOn(lines, f))
    ensures f == |lines| ==> SpansOn(lines, f) == []
  {
    hide Reach, Turns, SpansOn, Scan, CloseLast, CameraLine, AllBlank;
    SpansPast(lines, s);
    NoneOn(lines);
  }

  /** And after, where something is left below: the cameras below are the same, further up. */
  lemma SpansLeft(lines: seq<string>, b: nat, s: nat, f: nat)
    requires Goes(lines, b, s, f) && f < |lines|
    ensures b <= f
    ensures var after := Left(lines, b, f);
            && b <= |after| && SpansOn(lines, f) == Shift(SpansOn(after, b), f - b)
            && Spans(after) == CloseLast(Spans(lines[..b]), b) + SpansOn(after, b)
  {
    hide Reach, Turns, SpansOn, Scan, CloseLast, Left, SameOn, Shift, Through, IsHeader, IsCamera;
    GoesIn(lines, b, s, f);
    SpansBefore(lines, b, s, f);
    LeftIs(lines, b, f);
    var after := Left(lines, b, f);
    TurnsThere(lines, f, after, b);
    SpansCut(after, lines[..b], b);
    OnShift(after, lines, b, f - b);
  }

  lemma TurnsThere(a: seq<string>, i: nat, b: seq<string>, j: nat)
    requires Turns(a, i) && j < |b| && b[j] == a[i] && b[j + 1..] == a[i + 1..]
    ensures Turns(b, j)
  {
    hide IsHeader, IsCamera, NoHeader;
  }

  lemma OnShift(a: seq<string>, b: seq<string>, i: nat, d: nat)
    requires SameOn(a, b, i, d)
    ensures i <= |a| && i + d <= |b| && SpansOn(b, i + d) == Shift(SpansOn(a, i), d)
  {
    hide Scan, Shift;
    ShiftNone(d);
    ScanShift(a, b, i, d, Outside, []);
  }

  // Another camera of the file

  /** The cameras above camera s. */
  function Above(lines: seq<string>, s: nat): seq<Span>
    requires s <= |lines|
  {
    CloseLast(Spans(lines[..s]), s)
  }

  /** Another camera is found above the one that goes, as the j-th there, or below it. */
  lemma {:induction false} FoundAmong(nameOf: NameOf, lines: seq<string>, b: nat, s: nat, f: nat, name: string)
      returns (j: nat)
    requires Goes(lines, b, s, f) && Find(nameOf, lines, name).Some?
    requires s < f <= |lines| && nameOf(Body(lines, Trimmed(lines, Span(s, f)))) != Some(name)
    ensures var above, below := Above(lines, s), SpansOn(lines, f);
            && j <= |above| && InOrder(above, |lines|) && (forall k :: 0 <= k < |above| ==> above[k].end <= s)
            && (forall k :: 0 <= k < j ==> nameOf(Body(lines, Trimmed(lines, above[k]))) != Some(name))
            && (j < |above| ==> Find(nameOf, lines, name) == Some(Trimmed(lines, above[j]))
                                && nameOf(Body(lines, Trimmed(lines, above[j]))) == Some(name))
            && (j == |above| ==> below != [] && InOrder(below, |lines|)
                                 && Find(nameOf, lines, name) == FindIn(nameOf, lines, below, name)
                                 && forall k :: 0 <= k < |below| ==> f <= below[k].start)
  {
    hide Goes, Scan, SpansOn, Above, Trimmed, Body, FindIn, InOrder;
    SpansBefore(lines, b, s, f);
    AboveIs(lines, s);
    var above, below := Above(lines, s), SpansOn(lines, f);
    var spans := above + ([Span(s, f)] + below);
    FindIs(nameOf, lines, name);
    PartsInOrder(above, Span(s, f), below, |lines|);
    var k := FindInIsFirst(nameOf, lines, spans, name);
    assert spans[|above|] == Span(s, f) && forall i :: 0 <= i < |above| ==> above[i] == spans[i];
    j := if k < |above| then k else |above|;
    if k > |above| {
      SkipsTo(nameOf, lines, above, Span(s, f), below, name);
    }
  }

  lemma AboveIs(lines: seq<string>, s: nat)
    requires s <= |lines|
    ensures Above(lines, s) == CloseLast(Spans(lines[..s]), s)
  {
  }

  lemma InTwo(a: seq<Span>, c: seq<Span>, n: nat)
    requires InOrder(a + c, n)
    ensures InOrder(a, n) && InOrder(c, n)
    ensures forall j, k :: 0 <= j < |a| && 0 <= k < |c| ==> a[j].start < a[j].end <= c[k].start
  {
    var all := a + c;
    assert forall k :: 0 <= k < |a| ==> all[k] == a[k];
    forall k | 0 <= k < |c|
      ensures all[|a| + k] == c[k] && c[k].start < c[k].end <= n
    {
    }
    forall j, k | 0 <= j < k < |c|
      ensures c[j].end <= c[k].start
    {
      assert all[|a| + j] == c[j] && all[|a| + k] == c[k];
    }
    forall j, k | 0 <= j < |a| && 0 <= k < |c|
      ensures a[j].end <= c[k].start
    {
      assert all[|a| + k] == c[k];
    }
  }

  lemma PartsInOrder(a: seq<Span>, sp: Span, c: seq<Span>, n: nat)
    requires InOrder(a + ([sp] + c), n)
    ensures InOrder(a, n) && InOrder(c, n) && InOrder([sp] + c, n)
    ensures forall k :: 0 <= k < |a| ==> a[k].start < a[k].end <= sp.start
    ensures forall k :: 0 <= k < |c| ==> sp.end <= c[k].start
  {
    hide InOrder;
    InTwo(a, [sp] + c, n);
    InTwo([sp], c, n);
    assert ([sp] + c)[0] == sp && [sp][0] == sp;
  }

  lemma {:induction false} SkipsTo(nameOf: NameOf, lines: seq<string>, a: seq<Span>, sp: Span, c: seq<Span>,
                                   name: string)
    requires InOrder(a + ([sp] + c), |lines|) && InOrder(a, |lines|) && InOrder(c, |lines|)
    requires sp.start < sp.end <= |lines| && nameOf(Body(lines, Trimmed(lines, sp))) != Some(name)
    requires forall k :: 0 <= k < |a| ==> nameOf(Body(lines, Trimmed(lines, a[k]))) != Some(name)
    ensures FindIn(nameOf, lines, a + ([sp] + c), name) == FindIn(nameOf, lines, c, name)
  {
    hide Trimmed, Body;
    FindInSkips(nameOf, lines, a, [sp] + c, name);
    assert ([sp] + c)[0] == sp && ([sp] + c)[1..] == c;
  }

  /** A block above is read as before where the header below closes it again. */
  lemma {:induction false} StillRead(lines: seq<string>, after: seq<string>, b: nat, s: nat, above: seq<Span>,
                                     kept: seq<Span>, j: nat)
    requires b <= s <= |lines| && AllBlank(lines[b..s]) && b <= |after| && after[..b] == lines[..b]
    requires InOrder(above, |lines|) && Agree(above, kept, b) && j < |above|
    requires j == |above| - 1 ==> above[j].end == s && kept[j].end == b
    ensures kept[j].start < kept[j].end <= b
    ensures var t := Trimmed(lines, above[j]);
            Trimmed(after, kept[j]) == t && t.end <= b && Body(after, t) == Body(lines, t)
  {
    hide Trimmed, Body, AllBlank;
    var o := above[j];
    if j < |above| - 1 {
      assert o.end <= above[j + 1].start < b;
    } else {
      TrimmedShort(lines, o.start, b, s);
    }
    BeforeAlike(lines, after, b, kept[j]);
  }

  lemma LastClosed(spans: seq<Span>, i: nat)
    ensures var c := CloseLast(spans, i); |c| == |spans| && (c != [] ==> c[|c| - 1].end == i)
  {
  }

  /** Of the remaining spans the search stops at the same camera above. */
  lemma {:induction false} StopsAt(nameOf: NameOf, after: seq<string>, kept: seq<Span>, rest: seq<Span>, j: nat,
                                   name: string)
    requires j < |kept| && InOrder(kept + rest, |after|)
    requires forall k :: 0 <= k < j ==>
               kept[k].start < kept[k].end <= |after| && nameOf(Body(after, Trimmed(after, kept[k]))) != Some(name)
    requires kept[j].start < kept[j].end <= |after| && nameOf(Body(after, Trimmed(after, kept[j]))) == Some(name)
    ensures FindIn(nameOf, after, kept + rest, name) == Some(Trimmed(after, kept[j]))
  {
    hide Trimmed, Body, InOrder, FindIn;
    var passed := kept[..j];
    assert kept + rest == passed + ([kept[j]] + (kept[j + 1..] + rest));
    assert forall k :: 0 <= k < j ==> passed[k] == kept[k];
    FindInOver(nameOf, after, passed, kept[j], kept[j + 1..] + rest, name);
  }

  /** Something is left below: a camera above is found at its place, the same lines. */
  lemma {:induction false} AboveStays(nameOf: NameOf, lines: seq<string>, b: nat, s: nat, f: nat, j: nat, name: string)
    requires Goes(lines, b, s, f) && s < f < |lines| && InOrder(Above(lines, s), |lines|) && j < |Above(lines, s)|
    requires var above := Above(lines, s);
             && (forall k :: 0 <= k < j ==> nameOf(Body(lines, Trimmed(lines, above[k]))) != Some(name))
             && nameOf(Body(lines, Trimmed(lines, above[j]))) == Some(name)
    ensures var t := Trimmed(lines, Above(lines, s)[j]);
            b <= f && t.end <= b && Find(nameOf, Left(lines, b, f), name) == Some(t)
  {
    hide Trimmed, Body, FindIn, Scan, SpansOn, CloseLast, Through, Reach, AllBlank, CameraLine, Left, InOrder, Agree,
         SameOn, NoHeader;
    SpansLeft(lines, b, s, f);
    LeftIs(lines, b, f);
    AboveIs(lines, s);
    var after, above, kept := Left(lines, b, f), Above(lines, s), CloseLast(Spans(lines[..b]), b);
    FrontAgrees(lines, b, s);
    ClosedAgrees(above, Spans(lines[..b]), b, b);
    LastClosed(Spans(lines[..s]), s);
    LastClosed(Spans(lines[..b]), b);
    SameLength(above, kept, b);
    StillPassed(nameOf, lines, after, b, j, above, kept, name);
    StillRead(lines, after, b, s, above, kept, j);
    FindIs(nameOf, after, name);
    StopsAt(nameOf, after, kept, SpansOn(after, b), j, name);
  }

  lemma SameLength(a: seq<Span>, b: seq<Span>, i: nat)
    requires Agree(a, b, i)
    ensures |a| == |b|
  {
  }

  /** None of the blocks above has the name now either. */
  lemma {:induction false} AllPassed(nameOf: NameOf, lines: seq<string>, after: seq<string>, b: nat, s: nat,
                                     above: seq<Span>, kept: seq<Span>, name: string)
    requires b <= s <= |lines| && AllBlank(lines[b..s]) && b <= |after| && after[..b] == lines[..b]
    requires InOrder(above, |lines|) && Agree(above, kept, b)
    requires above != [] ==> above[|above| - 1].end == s && kept[|above| - 1].end == b
    requires forall k :: 0 <= k < |above| ==> nameOf(Body(lines, Trimmed(lines, above[k]))) != Some(name)
    ensures forall k :: 0 <= k < |kept| ==>
              kept[k].start < kept[k].end <= |after| && nameOf(Body(after, Trimmed(after, kept[k]))) != Some(name)
  {
    hide Trimmed, Body, AllBlank;
    if above != [] {
      var j := |above| - 1;
      StillPassed(nameOf, lines, after, b, j, above, kept, name);
      StillRead(lines, after, b, s, above, kept, j);
    }
  }

  lemma ShiftStarts(spans: seq<Span>, d: nat, f: nat)
    requires d <= f && forall k :: 0 <= k < |Shift(spans, d)| ==> f <= Shift(spans, d)[k].start
    ensures forall k :: 0 <= k < |spans| ==> f - d <= spans[k].start
  {
    assert forall k :: 0 <= k < |spans| ==> Shift(spans, d)[k] == Span(spans[k].start + d, spans[k].end + d);
  }

  /** A camera below is found further up, the same lines. */
  lemma {:induction false} BelowStays(nameOf: NameOf, lines: seq<string>, b: nat, s: nat, f: nat, name: string)
    requires Goes(lines, b, s, f) && s < f < |lines| && InOrder(Above(lines, s), |lines|)
    requires var above, below := Above(lines, s), SpansOn(lines, f);
             && (forall k :: 0 <= k < |above| ==> nameOf(Body(lines, Trimmed(lines, above[k]))) != Some(name))
             && InOrder(below, |lines|) && (forall k :: 0 <= k < |below| ==> f <= below[k].start)
             && Find(nameOf, lines, name) == FindIn(nameOf, lines, below, name)
    requires Find(nameOf, lines, name).Some?
    ensures b <= f
    ensures var after, o := Left(lines, b, f), Find(nameOf, lines, name).value;
            var r := Find(nameOf, after, name);
            && r.Some? && r.value.start <= r.value.end <= |after| && o.start <= o.end <= |lines|
            && after[r.value.start..r.value.end] == lines[o.start..o.end]
  {
    hide Trimmed, Body, FindIn, Find, Scan, SpansOn, CloseLast, Through, Reach, AllBlank, CameraLine, Left, InOrder,
         Agree, SameOn, Shift;
    SpansLeft(lines, b, s, f);
    LeftIs(lines, b, f);
    AboveIs(lines, s);
    var after, above, kept := Left(lines, b, f), Above(lines, s), CloseLast(Spans(lines[..b]), b);
    var left := SpansOn(after, b);
    FrontAgrees(lines, b, s);
    ClosedAgrees(above, Spans(lines[..b]), b, b);
    LastClosed(Spans(lines[..s]), s);
    LastClosed(Spans(lines[..b]), b);
    SameLength(above, kept, b);
    AllPassed(nameOf, lines, after, b, s, above, kept, name);
    FindIs(nameOf, after, name);
    FindInSkips(nameOf, after, kept, left, name);
    ShiftStarts(left, f - b, f);
    FindShift(nameOf, after, lines, b, f - b, left, name);
  }

  // The last camera of the file goes

  lemma LastLeft(lines: seq<string>, b: nat, s: nat)
    requires b <= s <= |lines| && AllBlank(lines[b..s])
    ensures b <= |lines| && Left(lines, b, |lines|) == lines[..b]
    ensures Agree(Above(lines, s), Spans(Left(lines, b, |lines|)), b)
  {
    hide Agree, Scan, CloseLast, AllBlank;
    LeftIs(lines, b, |lines|);
    FrontAgrees(lines, b, s);
  }

  /** Nothing is left below: the cameras above but the last stay as they were. */
  lemma {:induction false} EarlierStays(nameOf: NameOf, lines: seq<string>, b: nat, s: nat, j: nat, name: string)
    requires b <= s <= |lines| && AllBlank(lines[b..s]) && InOrder(Above(lines, s), |lines|)
    requires j < |Above(lines, s)| - 1
    requires var above := Above(lines, s);
             && (forall k :: 0 <= k < j ==> nameOf(Body(lines, Trimmed(lines, above[k]))) != Some(name))
             && nameOf(Body(lines, Trimmed(lines, above[j]))) == Some(name)
    ensures b <= |lines|
    ensures var t := Trimmed(lines, Above(lines, s)[j]);
            t.end <= b && Find(nameOf, Left(lines, b, |lines|), name) == Some(t)
  {
    hide Trimmed, Body, FindIn, Scan, AllBlank, Left, InOrder, Above, Agree;
    LastLeft(lines, b, s);
    var after, above := Left(lines, b, |lines|), Above(lines, s);
    var kept := Spans(after);
    assert after[..b] == lines[..b];
    SameLength(above, kept, b);
    StillPassed(nameOf, lines, after, b, j, above, kept, name);
    AgreeAt(above, kept, b, j);
    StillRead(lines, after, b, s, above, kept, j);
    FindIs(nameOf, after, name);
    assert kept + [] == kept;
    StopsAt(nameOf, after, kept, [], j, name);
  }

  lemma AgreeAt(a: seq<Span>, c: seq<Span>, i: nat, j: nat)
    requires Agree(a, c, i) && j < |a|
    ensures |c| == |a| && c[j].start == a[j].start < i && (j < |a| - 1 ==> c[j] == a[j])
  {
  }

  /** One block is directly above another and nothing is below that: only blank lines are in between and after. */
  predicate LastTwo(lines: seq<string>, o: Span, p: Span) {
    o.end <= p.start <= p.end <= |lines| && AllBlank(lines[o.end..p.start]) && AllBlank(lines[p.end..])
  }

  /** A block without what its last table adds, if it has one. */
  function CutShort(lines: seq<string>, o: Span): (t: Span)
    requires o.start < o.end <= |lines|
    ensures o.start == t.start < t.end <= o.end
  {
    Trimmed(lines, Span(o.start, o.start + 1 + Reach(Outside, lines[o.start + 1..o.end])))
  }

  /** The camera above the last is left with its block cut short. */
  lemma {:induction false} LastIsCut(nameOf: NameOf, lines: seq<string>, b: nat, s: nat, name: string)
    requires b <= s <= |lines| && AllBlank(lines[b..s]) && InOrder(Above(lines, s), |lines|) && Above(lines, s) != []
    requires CameraLine(lines, Above(lines, s)[|Above(lines, s)| - 1].start)
    requires Above(lines, s)[|Above(lines, s)| - 1].start < b
    requires var above := Above(lines, s);
             forall k :: 0 <= k < |above| - 1 ==> nameOf(Body(lines, Trimmed(lines, above[k]))) != Some(name)
    ensures b <= |lines|
    ensures var t := CutShort(lines, Span(Above(lines, s)[|Above(lines, s)| - 1].start, b));
            Find(nameOf, Left(lines, b, |lines|), name)
              == if nameOf(Body(lines, t)) == Some(name) then Some(t) else None
  {
    hide Trimmed, Body, FindIn, Scan, AllBlank, Left, InOrder, Above, Agree, Reach, CloseLast, CameraLine, SpansOn;
    LastLeft(lines, b, s);
    var after, above := Left(lines, b, |lines|), Above(lines, s);
    var kept, j := Spans(after), |above| - 1;
    assert after[..b] == lines[..b] == after;
    AgreeAt(above, kept, b, j);
    StillPassed(nameOf, lines, after, b, j, above, kept, name);
    var o := above[j].start;
    LastSpan(lines, b, o);
    var e := o + 1 + Reach(Outside, lines[o + 1..b]);
    FindIs(nameOf, after, name);
    FindInSkips(nameOf, after, kept[..j], [Span(o, e)], name);
    OneFound(nameOf, after, Span(o, e), name);
    BeforeAlike(lines, after, b, Span(o, e));
  }

  /** The last span of a cut file. */
  lemma {:induction false} LastSpan(lines: seq<string>, b: nat, o: nat)
    requires b <= |lines| && o < b && CameraLine(lines, o)
    requires var kept := Spans(lines[..b]); kept != [] && kept[|kept| - 1].start == o
    ensures var kept, e := Spans(lines[..b]), o + 1 + Reach(Outside, lines[o + 1..b]);
            o < e <= b && kept == kept[..|kept| - 1] + [Span(o, e)]
  {
    hide Scan, Reach, CloseLast, CameraLine, SpansOn, InOrder;
    var after := lines[..b];
    SameCamera(lines, b, o);
    SpansPast(after, o);
    assert after[o + 1..] == lines[o + 1..b];
    SpansInOrder(after);
    var e := o + 1 + Reach(Outside, lines[o + 1..b]);
    FrontIs(Spans(after), CloseLast(Spans(after[..o]), o), Span(o, e), SpansOn(after, e), |Spans(after)| - 1, |after|);
  }

  lemma SameCamera(lines: seq<string>, b: nat, o: nat)
    requires b <= |lines| && o < b && CameraLine(lines, o)
    ensures CameraLine(lines[..b], o)
  {
    hide IsHeader, IsCamera, Through;
    assert lines[..b][..o] == lines[..o];
  }

  lemma OneFound(nameOf: NameOf, lines: seq<string>, sp: Span, name: string)
    requires InOrder([sp], |lines|)
    ensures sp.start < sp.end <= |lines|
    ensures FindIn(nameOf, lines, [sp], name)
         == if nameOf(Body(lines, Trimmed(lines, sp))) == Some(name) then Some(Trimmed(lines, sp)) else None
  {
    hide Trimmed, Body;
    assert [sp][0] == sp && [sp][1..] == [];
  }

  // The whole of it

  lemma BlankAt(lines: seq<string>, i: nat, j: nat, k: nat)
    requires i <= j <= |lines| && AllBlank(lines[i..j])
    ensures i <= k < j ==> IsBlank(lines[k])
  {
    hide IsBlank;
    assert i <= k < j ==> lines[i..j][k - i] == lines[k];
  }

  /** Blank lines end at one place. */
  lemma BlanksEnd(lines: seq<string>, i: nat, e: nat, f: nat)
    requires i <= e <= |lines| && i <= f <= |lines| && AllBlank(lines[i..e]) && AllBlank(lines[i..f])
    requires (e < |lines| ==> !IsBlank(lines[e])) && (f < |lines| ==> !IsBlank(lines[f]))
    ensures e == f
  {
    hide IsBlank, AllBlank;
    BlankAt(lines, i, f, e);
    BlankAt(lines, i, e, f);
  }

  lemma BlanksBegin(lines: seq<string>, e: nat, b: nat, s: nat)
    requires 0 < e <= s <= |lines| && b <= s && AllBlank(lines[e..s]) && AllBlank(lines[b..s])
    requires !IsBlank(lines[e - 1]) && (b > 0 ==> !IsBlank(lines[b - 1]))
    ensures e == b
  {
    hide IsBlank, AllBlank;
    BlankAt(lines, b, s, e - 1);
    if b > 0 {
      BlankAt(lines, e, s, b - 1);
    }
  }

  /** What a removal takes is the block as the scan found it and the blank lines above. */
  lemma {:induction false} RemoveGoes(nameOf: NameOf, text: string, name: string) returns (b: nat, s: nat, f: nat)
    requires Find(nameOf, Split(text), name).Some?
    ensures var lines, p := Split(text), Find(nameOf, Split(text), name).value;
            && b <= s == p.start < p.end <= f <= |lines| && Goes(lines, b, s, f)
            && (b > 0 ==> !IsBlank(lines[b - 1])) && nameOf(Body(lines, p)) == Some(name)
            && p == Trimmed(lines, Span(s, f)) && (f < |lines| ==> !IsBlank(lines[f]))
            && var out := Join(Left(lines, b, f));
               Remove(nameOf, text, name) == (if TrimSpace(out) == "" then "" else out, true)
  {
    hide Join, Find, Split, IsBlank, IsHeader, IsCamera, TrimSpace, Body, Trimmed, Remove, Reach, Through, CloseLast,
         Scan, Placed, NoHeader;
    b, f := RemoveTakes(nameOf, text, name);
    var lines := Split(text);
    var more;
    s, more := FoundAt(nameOf, lines, name);
    FoundIsPlaced(nameOf, lines, name);
    var p, own := Find(nameOf, lines, name).value, lines[s + 1..];
    var e := s + 1 + Reach(Outside, own);
    if e < |lines| {
      ReachStops(Outside, own);
      assert own[Reach(Outside, own)] == lines[e];
      HeaderIsSome(lines[e]);
    }
    BlankTail(lines, Span(s, e));
    BlanksEnd(lines, p.end, e, f);
  }

  lemma BlankTail(lines: seq<string>, sp: Span)
    requires sp.start < sp.end <= |lines|
    ensures AllBlank(lines[Trimmed(lines, sp).end..sp.end])
  {
    hide IsBlank, Trimmed;
  }

  // What the removal leaves is not blank

  lemma {:induction false} JoinHas(ls: seq<string>, l: string)
    requires l in ls
    ensures forall c :: c in l ==> c in Join(ls)
    decreases |ls|
  {
    if |ls| > 1 && l != ls[0] {
      JoinHas(ls[1..], l);
    }
  }

  lemma {:induction false} SpacesAreBlank(t: string)
    requires forall c :: c in t ==> IsSpace(c)
    ensures TrimSpace(t) == ""
    decreases |t|
  {
    if t != [] {
      SpacesAreBlank(t[1..]);
    }
  }

  lemma {:induction false} NotAllBlank(ls: seq<string>, l: string)
    requires l in ls && !IsBlank(l)
    ensures TrimSpace(Join(ls)) != ""
  {
    hide Join, TrimSpace;
    if TrimSpace(Join(ls)) == "" {
      BlankIsSpaces(Join(ls));
      JoinHas(ls, l);
      SpacesAreBlank(l);
    }
  }

  /** With a line left that is not blank, the text after a removal has just the lines left. */
  lemma {:induction false} LeftText(nameOf: NameOf, text: string, name: string, b: nat, f: nat, i: nat)
    requires b <= f <= |Split(text)| && i < |Split(text)| && (i < b || f <= i) && !IsBlank(Split(text)[i])
    requires var out := Join(Left(Split(text), b, f));
             Remove(nameOf, text, name) == (if TrimSpace(out) == "" then "" else out, true)
    ensures Split(Remove(nameOf, text, name).0) == Left(Split(text), b, f)
  {
    hide Join, Split, IsBlank, TrimSpace, Remove;
    var lines := Split(text);
    var after := Left(lines, b, f);
    assert after[if i < b then i else i - (f - b)] == lines[i];
    NotAllBlank(after, lines[i]);
    LeftEnds(lines, b, f);
    SplitJoin(after);
  }

  lemma LeftEnds(lines: seq<string>, b: nat, f: nat)
    requires b <= f <= |lines| && forall l :: l in lines ==> '\n' !in l
    ensures forall l :: l in Left(lines, b, f) ==> '\n' !in l
  {
  }

  // Removing

  lemma {:induction false} AboveCameras(lines: seq<string>, b: nat, s: nat, f: nat)
    requires Goes(lines, b, s, f)
    ensures s <= |lines| && forall sp :: sp in Above(lines, s) ==> CameraLine(lines, sp.start)
  {
    hide Scan, CameraLine, Through, SpansOn, CloseLast;
    SpansBefore(lines, b, s, f);
    NothingThrough(lines);
    StartsAreCameras(lines, 0, Outside, []);
    assert forall sp :: sp in Above(lines, s) ==> sp in Spans(lines);
  }

  lemma CameraIsSome(lines: seq<string>, i: nat)
    requires CameraLine(lines, i)
    ensures i < |lines| && !IsBlank(lines[i])
  {
    hide IsHeader, IsCamera, IsBlank, Through;
    HeaderIsSome(lines[i]);
  }

  /** A camera above is one of the last two only when it is the last above and nothing is below. */
  lemma {:induction false} LastTwoIff(lines: seq<string>, b: nat, s: nat, f: nat, p: Span, j: nat)
    requires Goes(lines, b, s, f) && s == p.start < p.end <= f <= |lines| && AllBlank(lines[p.end..f])
    requires f < |lines| ==> !IsBlank(lines[f])
    requires InOrder(Above(lines, s), |lines|) && j < |Above(lines, s)|
    requires forall k :: 0 <= k < |Above(lines, s)| ==> Above(lines, s)[k].end <= s
    ensures var above := Above(lines, s);
            LastTwo(lines, Trimmed(lines, above[j]), p) <==> f == |lines| && j == |above| - 1
  {
    hide Goes, IsBlank, CameraLine, Trimmed, Above, AllBlank;
    var above := Above(lines, s);
    var o := Trimmed(lines, above[j]);
    BlankTail(lines, above[j]);
    if f < |lines| {
      SomeBetween(lines, p.end, |lines|, f);
      assert lines[p.end..|lines|] == lines[p.end..];
    } else {
      assert lines[p.end..] == lines[p.end..f];
      if j < |above| - 1 {
        AboveCameras(lines, b, s, f);
        assert above[j + 1] in above;
        CameraIsSome(lines, above[j + 1].start);
        SomeBetween(lines, o.end, s, above[j + 1].start);
      } else {
        AboveIs(lines, s);
        LastClosed(Spans(lines[..s]), s);
      }
    }
  }

  lemma SomeBetween(lines: seq<string>, i: nat, j: nat, k: nat)
    requires i <= k < j <= |lines| && !IsBlank(lines[k])
    ensures !AllBlank(lines[i..j])
  {
    hide IsBlank;
    assert lines[i..j][k - i] == lines[k];
  }

  /** Where nothing is left below: the last camera above is cut short, unless it has no table. */
  lemma {:induction false} LastAboveLeft(nameOf: NameOf, lines: seq<string>, b: nat, s: nat, f: nat, name: string)
    requires Goes(lines, b, s, f) && f == |lines| && (b > 0 ==> !IsBlank(lines[b - 1]))
    requires InOrder(Above(lines, s), |lines|) && Above(lines, s) != []
    requires var above := Above(lines, s);
             && (forall k :: 0 <= k < |above| ==> above[k].end <= s)
             && (forall k :: 0 <= k < |above| - 1 ==> nameOf(Body(lines, Trimmed(lines, above[k]))) != Some(name))
    ensures b <= |lines|
    ensures var above := Above(lines, s);
            var o := Trimmed(lines, above[|above| - 1]);
            && o.end == b && (NoHeader(Outside, lines[o.start + 1..o.end]) ==> CutShort(lines, o) == o)
            && Find(nameOf, Left(lines, b, |lines|), name)
                 == if nameOf(Body(lines, CutShort(lines, o))) == Some(name) then Some(CutShort(lines, o)) else None
  {
    hide Trimmed, Body, Find, IsBlank, AllBlank, CameraLine, Reach, Through, Left, Above, CutShort, Scan;
    var above := Above(lines, s);
    var last := above[|above| - 1];
    var o := Trimmed(lines, last);
    AboveIs(lines, s);
    LastClosed(Spans(lines[..s]), s);
    AboveCameras(lines, b, s, f);
    assert last in above;
    CameraIsSome(lines, last.start);
    BlankTail(lines, last);
    TrimmedEnds(lines, last);
    BlanksBegin(lines, o.end, b, s);
    LastIsCut(nameOf, lines, b, s, name);
    assert Span(last.start, b) == o;
    if NoHeader(Outside, lines[o.start + 1..o.end]) {
      UncutIs(lines, last);
    }
  }

  lemma {:induction false} UncutIs(lines: seq<string>, sp: Span)
    requires sp.start < sp.end <= |lines|
    requires var o := Trimmed(lines, sp); NoHeader(Outside, lines[o.start + 1..o.end])
    ensures CutShort(lines, Trimmed(lines, sp)) == Trimmed(lines, sp)
  {
    hide Trimmed, Reach, NoHeader, AllBlank;
    var o := Trimmed(lines, sp);
    ReachAll(Outside, lines[o.start + 1..o.end]);
    BlankTail(lines, sp);
    TrimmedShort(lines, sp.start, o.end, sp.end);
  }

  /** What a removal leaves of another camera: its lines, or for the camera above the last what is left of them. */
  predicate Stays(nameOf: NameOf, lines: seq<string>, after: seq<string>, p: Span, o: Span, name: string) {
    var r := Find(nameOf, after, name);
    && o.start < o.end <= |lines|
    && (!LastTwo(lines, o, p) ==>
          && r.Some? && r.value.start <= r.value.end <= |after|
          && after[r.value.start..r.value.end] == lines[o.start..o.end])
    && (LastTwo(lines, o, p) ==>
          && after == lines[..o.end]
          && r == (if nameOf(Body(lines, CutShort(lines, o))) == Some(name) then Some(CutShort(lines, o)) else None)
          && (NoHeader(Outside, lines[o.start + 1..o.end]) ==> r == Some(o)))
  }

  lemma {:induction false} StaysBelow(nameOf: NameOf, lines: seq<string>, b: nat, s: nat, f: nat, p: Span, name: string)
    requires Goes(lines, b, s, f) && s == p.start < p.end <= f < |lines| && !IsBlank(lines[f])
    requires Find(nameOf, lines, name).Some? && InOrder(Above(lines, s), |lines|)
    requires var above, below := Above(lines, s), SpansOn(lines, f);
             && (forall k :: 0 <= k < |above| ==> nameOf(Body(lines, Trimmed(lines, above[k]))) != Some(name))
             && InOrder(below, |lines|) && (forall k :: 0 <= k < |below| ==> f <= below[k].start)
             && Find(nameOf, lines, name) == FindIn(nameOf, lines, below, name)
    ensures b <= f && Stays(nameOf, lines, Left(lines, b, f), p, Find(nameOf, lines, name).value, name)
  {
    hide Find, FindIn, Body, Trimmed, Goes, Above, Left, IsBlank, AllBlank, InOrder, NoHeader, CutShort, SpansOn, Scan;
    BelowStays(nameOf, lines, b, s, f, name);
    SomeBetween(lines, p.end, |lines|, f);
    assert lines[p.end..|lines|] == lines[p.end..];
    FoundEnds(nameOf, lines, name);
  }

  lemma {:induction false} StaysAbove(nameOf: NameOf, lines: seq<string>, b: nat, s: nat, f: nat, p: Span, j: nat,
                                      name: string)
    requires Goes(lines, b, s, f) && s == p.start < p.end <= f <= |lines| && AllBlank(lines[p.end..f])
    requires (b > 0 ==> !IsBlank(lines[b - 1])) && (f < |lines| ==> !IsBlank(lines[f]))
    requires Find(nameOf, lines, name).Some? && InOrder(Above(lines, s), |lines|) && j < |Above(lines, s)|
    requires var above := Above(lines, s);
             && (forall k :: 0 <= k < |above| ==> above[k].end <= s)
             && (forall k :: 0 <= k < j ==> nameOf(Body(lines, Trimmed(lines, above[k]))) != Some(name))
             && nameOf(Body(lines, Trimmed(lines, above[j]))) == Some(name)
             && Find(nameOf, lines, name) == Some(Trimmed(lines, above[j]))
    ensures b <= f && Stays(nameOf, lines, Left(lines, b, f), p, Find(nameOf, lines, name).value, name)
  {
    hide Find, Body, Trimmed, Above, Left, IsBlank, AllBlank, InOrder, NoHeader, CutShort, SpansOn, LastTwo, Goes;
    GoesIn(lines, b, s, f);
    LastTwoIff(lines, b, s, f, p, j);
    FoundEnds(nameOf, lines, name);
    LeftIs(lines, b, f);
    if f < |lines| {
      AboveStays(nameOf, lines, b, s, f, j, name);
      SameSlice(lines, Left(lines, b, f), b, Find(nameOf, lines, name).value);
    } else if j < |Above(lines, s)| - 1 {
      GoesBlank(lines, b, s, f);
      EarlierStays(nameOf, lines, b, s, j, name);
      SameSlice(lines, Left(lines, b, f), b, Find(nameOf, lines, name).value);
    } else {
      LastAboveLeft(nameOf, lines, b, s, f, name);
    }
  }

  lemma GoesBlank(lines: seq<string>, b: nat, s: nat, f: nat)
    requires Goes(lines, b, s, f)
    ensures b <= s <= |lines| && AllBlank(lines[b..s])
  {
    hide AllBlank, Reach;
  }

  lemma SameSlice(a: seq<string>, b: seq<string>, n: nat, sp: Span)
    requires n <= |a| && n <= |b| && a[..n] == b[..n] && sp.start <= sp.end <= n
    ensures a[sp.start..sp.end] == b[sp.start..sp.end]
  {
    assert a[sp.start..sp.end] == a[..n][sp.start..sp.end] == b[..n][sp.start..sp.end] == b[sp.start..sp.end];
  }

  lemma {:induction false} StartsBefore(lines: seq<string>, b: nat, s: nat, f: nat, j: nat)
    requires Goes(lines, b, s, f) && j < |Above(lines, s)|
    ensures s <= |lines| && Above(lines, s)[j].start < b && Above(lines, s)[j].start < |lines|
    ensures !IsBlank(lines[Above(lines, s)[j].start])
  {
    hide Goes, Above, IsBlank, CameraLine, Scan, AllBlank;
    GoesBlank(lines, b, s, f);
    AboveCameras(lines, b, s, f);
    LastLeft(lines, b, s);
    AgreeAt(Above(lines, s), Spans(Left(lines, b, |lines|)), b, j);
    assert Above(lines, s)[j] in Above(lines, s);
    CameraIsSome(lines, Above(lines, s)[j].start);
  }

  /**
   Removing a camera, in any text, keeps every other: it is still found, with the same lines. One case is
   different: the camera directly above when nothing is left below. Its block is cut before its last table, and
   it is found only if the rest still has its name; without a table it stays as it was.
   */
  lemma {:induction false} RemoveKeepsOthers(nameOf: NameOf, text: string, name: string, other: string)
    requires Find(nameOf, Split(text), name).Some? && Find(nameOf, Split(text), other).Some? && other != name
    ensures Stays(nameOf, Split(text), Split(Remove(nameOf, text, name).0), Find(nameOf, Split(text), name).value,
                  Find(nameOf, Split(text), other).value, other)
  {
    hide Join, Find, FindIn, Split, Remove, Body, Trimmed, Goes, Above, Left, IsBlank, AllBlank, InOrder, Stays,
         TrimSpace, SpansOn, CameraLine;
    var lines := Split(text);
    var b, s, f := RemoveGoes(nameOf, text, name);
    var p := Find(nameOf, lines, name).value;
    var j := FoundAmong(nameOf, lines, b, s, f, other);
    SpansBefore(lines, b, s, f);
    BlankTail(lines, Span(s, f));
    if j == |Above(lines, s)| {
      StaysBelow(nameOf, lines, b, s, f, p, other);
      LeftText(nameOf, text, name, b, f, f);
    } else {
      StaysAbove(nameOf, lines, b, s, f, p, j, other);
      StartsBefore(lines, b, s, f, j);
      LeftText(nameOf, text, name, b, f, Above(lines, s)[j].start);
    }
  }
}
