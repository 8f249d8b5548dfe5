/** What saving a camera the file has does to the whole config text, for any text and any block the form writes. */
module ConfigSaves {
  import opened Text
  import opened Wrappers
  import opened ConfigScan
  import opened ConfigBlocks
  import opened ConfigLayout
  import opened ConfigEdit

  /** A block as it is written: a camera's header, and then lines none of which is blank or looks like a header. */
  predicate Written(block: seq<string>) {
    && block != [] && IsHeader(block[0]) && IsCamera(block[0]) && NoLineEnds(block)
    && forall i :: 1 <= i < |block| ==> !IsHeader(block[i]) && !IsBlank(block[i])
  }

  lemma {:induction false} NoneHead(q: Quote, ls: seq<string>)
    requires forall l :: l in ls ==> !IsHeader(l)
    ensures NoHeader(q, ls) && NoCamera(q, ls)
    decreases |ls|
  {
    hide After, IsHeader, IsCamera;
    if ls != [] {
      NoneHead(After(q, ls[0]), ls[1..]);
    }
  }

  lemma WrittenIsPlain(block: seq<string>, q: Quote)
    requires Written(block)
    ensures NoHeader(q, block[1..]) && NoCamera(q, block[1..]) && Plain(block) && !IsBlank(block[|block| - 1])
  {
    hide IsHeader, IsCamera, IsBlank, NoHeader, NoCamera;
    NoneHead(q, block[1..]);
    NoneHead(Outside, block[1..]);
    HeaderIsSome(block[0]);
  }

  lemma HeaderIsSome(line: string)
    requires IsHeader(line)
    ensures !IsBlank(line)
  {
  }

  // Where the scan ends a block

  /** How many of the lines after a camera's header are its own: up to the last header before the next camera's. */
  function Reach(q: Quote, ls: seq<string>): (r: nat)
    ensures r <= |ls|
    decreases |ls|
  {
    if ls == [] || (Heads(q, ls[0]) && (IsCamera(ls[0]) || NoHeader(After(q, ls[0]), ls[1..]))) then 0
    else 1 + Reach(After(q, ls[0]), ls[1..])
  }

  /** What stops it is a header that the scan acts on. */
  lemma {:induction false} ReachStops(q: Quote, ls: seq<string>)
    requires Reach(q, ls) < |ls|
    ensures var r := Reach(q, ls);
            && Through(q, ls[..r]) == Outside && IsHeader(ls[r])
            && (IsCamera(ls[r]) || NoHeader(Outside, ls[r + 1..]))
    decreases |ls|
  {
    hide After, IsHeader, IsCamera, NoHeader;
    if Heads(q, ls[0]) && (IsCamera(ls[0]) || NoHeader(After(q, ls[0]), ls[1..])) {
      HeaderStaysOutside(ls[0]);
    } else {
      var r := Reach(After(q, ls[0]), ls[1..]);
      ReachStops(After(q, ls[0]), ls[1..]);
      assert ls[..r + 1][0] == ls[0] && ls[..r + 1][1..] == ls[1..][..r];
      assert ls[1..][r + 1..] == ls[r + 2..];
    }
  }

  lemma {:induction false} ReachOver(q: Quote, a: seq<string>, b: seq<string>)
    requires NoHeader(q, a)
    ensures Reach(q, a + b) == |a| + Reach(Through(q, a), b)
    decreases |a|
  {
    hide After, IsHeader, IsCamera;
    if a == [] {
      assert a + b == b;
    } else {
      assert (a + b)[0] == a[0] && (a + b)[1..] == a[1..] + b;
      ReachOver(After(q, a[0]), a[1..], b);
    }
  }

  lemma {:induction false} ReachAll(q: Quote, ls: seq<string>)
    requires NoHeader(q, ls)
    ensures Reach(q, ls) == |ls|
    decreases |ls|
  {
    hide After, IsHeader, IsCamera;
    if ls != [] {
      ReachAll(After(q, ls[0]), ls[1..]);
    }
  }

  /** What comes before the first span that stays open is not touched by the scan any more. */
  lemma {:induction false} ScanFront(lines: seq<string>, i: nat, q: Quote, front: seq<Span>, sp: Span)
      returns (more: seq<Span>)
    requires i <= |lines|
    ensures Scan(lines, i, q, front + [sp])
         == front + ([if NoHeader(q, lines[i..]) then sp else sp.(end := i + Reach(q, lines[i..]))] + more)
    decreases |lines| - i
  {
    hide After, IsHeader, IsCamera;
    if i == |lines| {
      more := [];
      assert front + ([sp] + []) == front + [sp];
    } else {
      var l := lines[i];
      assert lines[i..][0] == l && lines[i..][1..] == lines[i + 1..];
      if Heads(q, l) && IsCamera(l) {
        var closed, next := front + [sp.(end := i)], Span(i, |lines|);
        assert AtLine(lines, i, q, front + [sp]) == closed + [next];
        var after := ScanFront(lines, i + 1, After(q, l), closed, next);
        more := Scan(lines, i + 1, After(q, l), closed + [next])[|closed|..];
        assert closed + more == front + ([sp.(end := i)] + more);
      } else if Heads(q, l) {
        assert AtLine(lines, i, q, front + [sp]) == front + [sp.(end := i)];
        more := ScanFront(lines, i + 1, After(q, l), front, sp.(end := i));
      } else {
        more := ScanFront(lines, i + 1, After(q, l), front, sp);
      }
    }
  }

  // Spans by where they start

  /** Two scans of the same lines agree but for where the last block ends. */
  predicate Agree(a: seq<Span>, b: seq<Span>, i: nat) {
    && |a| == |b| && (forall k :: 0 <= k < |a| - 1 ==> a[k] == b[k])
    && (forall k :: 0 <= k < |a| ==> a[k].start == b[k].start < i)
  }

  lemma AgreeAtHeader(a: seq<Span>, b: seq<Span>, i: nat, sa: Span, sb: Span, camera: bool)
    requires Agree(a, b, i) && sa.start == sb.start == i
    ensures Agree(CloseLast(a, i) + (if camera then [sa] else []),
                  CloseLast(b, i) + (if camera then [sb] else []), i + 1)
  {
  }

  lemma {:induction false} ScansAgree(a: seq<string>, b: seq<string>, i: nat, j: nat, q: Quote, sa: seq<Span>,
                                      sb: seq<Span>) returns (ra: seq<Span>, rb: seq<Span>)
    requires i <= j <= |a| && j <= |b| && a[..j] == b[..j] && Agree(sa, sb, i)
    ensures Agree(ra, rb, j)
    ensures Scan(a, i, q, sa) == Scan(a, j, Through(q, a[i..j]), ra)
    ensures Scan(b, i, q, sb) == Scan(b, j, Through(q, a[i..j]), rb)
    decreases j - i
  {
    hide After, IsHeader, IsCamera;
    if i == j {
      ra, rb := sa, sb;
    } else {
      assert a[i] == a[..j][i] == b[i];
      assert a[i..j][0] == a[i] && a[i..j][1..] == a[i + 1..j];
      AgreeAtHeader(sa, sb, i, Span(i, |a|), Span(i, |b|), IsCamera(a[i]));
      ra, rb := ScansAgree(a, b, i + 1, j, After(q, a[i]), AtLine(a, i, q, sa), AtLine(b, i, q, sb));
    }
  }

  /** A camera's header that the scan acts on. */
  predicate CameraLine(lines: seq<string>, s: nat) {
    s < |lines| && Through(Outside, lines[..s]) == Outside && IsHeader(lines[s]) && IsCamera(lines[s])
  }

  lemma {:induction false} StartsAreCameras(lines: seq<string>, i: nat, q: Quote, spans: seq<Span>)
    requires i <= |lines| && q == Through(Outside, lines[..i])
    requires forall sp :: sp in spans ==> CameraLine(lines, sp.start)
    ensures forall sp :: sp in Scan(lines, i, q, spans) ==> CameraLine(lines, sp.start)
    decreases |lines| - i
  {
    hide After, IsHeader, IsCamera, Through;
    if i < |lines| {
      ThroughNext(lines, i);
      AtLineStarts(lines, i, q, spans);
      StartsAreCameras(lines, i + 1, After(q, lines[i]), AtLine(lines, i, q, spans));
    }
  }

  lemma ThroughNext(lines: seq<string>, i: nat)
    requires i < |lines|
    ensures Through(Outside, lines[..i + 1]) == After(Through(Outside, lines[..i]), lines[i])
  {
    hide After;
    assert lines[..i + 1] == lines[..i] + [lines[i]];
    RunAppend(Outside, lines[..i], [lines[i]]);
    assert [lines[i]][1..] == [];
  }

  lemma AtLineStarts(lines: seq<string>, i: nat, q: Quote, spans: seq<Span>)
    requires i < |lines| && q == Through(Outside, lines[..i])
    requires forall sp :: sp in spans ==> CameraLine(lines, sp.start)
    ensures forall sp :: sp in AtLine(lines, i, q, spans) ==> CameraLine(lines, sp.start)
  {
    hide After, IsHeader, IsCamera, Through;
    if spans != [] {
      assert spans[|spans| - 1] in spans;
    }
  }

  /** The scan as far as one of the file's cameras: what it found before depends on the lines before alone. */
  lemma {:induction false} ScanTo(lines: seq<string>, s: nat)
    requires CameraLine(lines, s)
    ensures Spans(lines) == Scan(lines, s + 1, Outside, CloseLast(Spans(lines[..s]), s) + [Span(s, |lines|)])
  {
    hide After, IsHeader, IsCamera, Through, CloseLast;
    var head := lines[..s];
    assert lines[0..s] == head && head[..s] == head;
    var ra, rb := ScansAgree(lines, head, 0, s, Outside, [], []);
    ClosedAlike(ra, rb, s);
    HeaderStaysOutside(lines[s]);
  }

  lemma ClosedAlike(a: seq<Span>, b: seq<Span>, s: nat)
    requires Agree(a, b, s)
    ensures CloseLast(a, s) == CloseLast(b, s)
  {
  }

  /** The spans of a file around one of its cameras. */
  lemma {:induction false} SpansFrom(lines: seq<string>, s: nat) returns (more: seq<Span>)
    requires CameraLine(lines, s)
    ensures Spans(lines)
         == CloseLast(Spans(lines[..s]), s) + ([Span(s, s + 1 + Reach(Outside, lines[s + 1..]))] + more)
  {
    hide After, IsHeader, IsCamera, Through, Reach, NoHeader, Scan, CloseLast;
    ScanTo(lines, s);
    more := ScanFront(lines, s + 1, Outside, CloseLast(Spans(lines[..s]), s), Span(s, |lines|));
    if NoHeader(Outside, lines[s + 1..]) {
      ReachAll(Outside, lines[s + 1..]);
    }
  }

  // Trimming and names

  /** Trimming looks only at the lines of the span. */
  lemma {:induction false} TrimmedAlike(a: seq<string>, b: seq<string>, sp: Span)
    requires sp.start < sp.end <= |a| && sp.end <= |b| && a[..sp.end] == b[..sp.end]
    ensures Trimmed(a, sp) == Trimmed(b, sp) && Body(a, Trimmed(a, sp)) == Body(b, Trimmed(b, sp))
    decreases sp.end
  {
    hide IsBlank;
    assert a[sp.end - 1] == a[..sp.end][sp.end - 1] == b[sp.end - 1];
    if sp.end > sp.start + 1 && IsBlank(a[sp.end - 1]) {
      assert a[..sp.end - 1] == a[..sp.end][..sp.end - 1] == b[..sp.end - 1];
      TrimmedAlike(a, b, sp.(end := sp.end - 1));
    } else {
      assert a[sp.start..sp.end] == a[..sp.end][sp.start..] == b[sp.start..sp.end];
    }
  }

  /** Trimming takes off the blank lines that a longer span would add. */
  lemma {:induction false} TrimmedShort(lines: seq<string>, s: nat, e: nat, f: nat)
    requires s < e <= f <= |lines| && AllBlank(lines[e..f])
    ensures Trimmed(lines, Span(s, f)) == Trimmed(lines, Span(s, e))
    decreases f
  {
    hide IsBlank;
    if e < f {
      assert lines[e..f][f - 1 - e] == lines[f - 1];
      assert lines[e..f - 1] == lines[e..f][..f - 1 - e];
      TrimmedShort(lines, s, e, f - 1);
    }
  }

  /** A trimmed span ends with a line that is not blank. */
  lemma {:induction false} TrimmedEnds(lines: seq<string>, sp: Span)
    requires sp.start < sp.end <= |lines| && !IsBlank(lines[sp.start])
    ensures !IsBlank(lines[Trimmed(lines, sp).end - 1])
    decreases sp.end
  {
    hide IsBlank;
    if sp.end > sp.start + 1 && IsBlank(lines[sp.end - 1]) {
      TrimmedEnds(lines, sp.(end := sp.end - 1));
    }
  }

  lemma {:induction false} NoneNamed(nameOf: NameOf, lines: seq<string>, spans: seq<Span>, name: string)
    requires InOrder(spans, |lines|) && FindIn(nameOf, lines, spans, name).None?
    ensures forall k :: 0 <= k < |spans| ==>
              spans[k].start < spans[k].end <= |lines| && nameOf(Body(lines, Trimmed(lines, spans[k]))) != Some(name)
    decreases |spans|
  {
    hide Trimmed, Body;
    if spans != [] {
      NoneNamed(nameOf, lines, spans[1..], name);
      assert forall k :: 1 <= k < |spans| ==> spans[k] == spans[1..][k - 1];
    }
  }

  /** Blocks without the name are passed over. */
  lemma {:induction false} FindInSkips(nameOf: NameOf, lines: seq<string>, front: seq<Span>, rest: seq<Span>,
                                       name: string)
    requires InOrder(front + rest, |lines|)
    requires forall k :: 0 <= k < |front| ==>
               front[k].start < front[k].end <= |lines| && nameOf(Body(lines, Trimmed(lines, front[k]))) != Some(name)
    ensures InOrder(rest, |lines|) && FindIn(nameOf, lines, front + rest, name) == FindIn(nameOf, lines, rest, name)
    decreases |front|
  {
    hide Trimmed, Body;
    var all := front + rest;
    if front == [] {
      assert all == rest;
    } else {
      assert all[0] == front[0] && all[1..] == front[1..] + rest;
      FindInSkips(nameOf, lines, front[1..], rest, name);
    }
  }

  /** A found block is the first of the file's spans that is given the name. */
  lemma {:induction false} FoundIsSpan(nameOf: NameOf, lines: seq<string>, name: string) returns (k: nat)
    requires Find(nameOf, lines, name).Some?
    ensures InOrder(Spans(lines), |lines|) && k < |Spans(lines)|
    ensures Find(nameOf, lines, name) == Some(Trimmed(lines, Spans(lines)[k]))
    ensures CameraLine(lines, Spans(lines)[k].start)
    ensures forall j :: 0 <= j < k ==> nameOf(Body(lines, Trimmed(lines, Spans(lines)[j]))) != Some(name)
  {
    hide Scan, Trimmed, Body, FindIn, CameraLine, Through;
    ScanInOrder(lines, 0, Outside, []);
    assert Through(Outside, lines[..0]) == Outside by { NothingThrough(lines); }
    StartsAreCameras(lines, 0, Outside, []);
    k := FindInIsFirst(nameOf, lines, Spans(lines), name);
    assert Spans(lines)[k] in Spans(lines);
  }

  lemma NothingThrough(lines: seq<string>)
    ensures Through(Outside, lines[..0]) == Outside
  {
  }

  /** Where the found block starts, how far it goes, and that none of the blocks before it has the name. */
  lemma {:induction false} FoundAt(nameOf: NameOf, lines: seq<string>, name: string) returns (s: nat, more: seq<Span>)
    requires Find(nameOf, lines, name).Some?
    ensures CameraLine(lines, s) && s == Find(nameOf, lines, name).value.start
    ensures var front, sp := CloseLast(Spans(lines[..s]), s), Span(s, s + 1 + Reach(Outside, lines[s + 1..]));
            && Spans(lines) == front + ([sp] + more) && Find(nameOf, lines, name) == Some(Trimmed(lines, sp))
            && (forall k :: 0 <= k < |front| ==>
                  front[k].start < front[k].end <= s && nameOf(Body(lines, Trimmed(lines, front[k]))) != Some(name))
  {
    hide Scan, Trimmed, Body, Find, CloseLast, Reach, IsHeader, IsCamera, Through;
    var k := FoundIsSpan(nameOf, lines, name);
    var spans := Spans(lines);
    s := spans[k].start;
    more := SpansFrom(lines, s);
    FrontIs(spans, CloseLast(Spans(lines[..s]), s), Span(s, s + 1 + Reach(Outside, lines[s + 1..])), more, k, |lines|);
  }

  lemma FrontIs(spans: seq<Span>, front: seq<Span>, sp: Span, more: seq<Span>, k: nat, n: nat)
    requires InOrder(spans, n) && spans == front + ([sp] + more) && k < |spans| && spans[k].start == sp.start
    ensures k == |front| && spans[k] == sp && front == spans[..k]
    ensures forall j :: 0 <= j < k ==> spans[j].start < spans[j].end <= sp.start
  {
    assert spans[|front|] == sp;
  }

  // Saving

  /** The file with other lines in the place of a span; at the very end the new block's line end is kept. */
  function Replaced(lines: seq<string>, sp: Span, block: seq<string>): seq<string>
    requires sp.start <= sp.end <= |lines|
  {
    lines[..sp.start] + block + if sp.end == |lines| then [""] else lines[sp.end..]
  }

  /** Saving a camera the file has puts the block in the place of the span found, in any text. */
  lemma {:induction false} UpsertReplaces(nameOf: NameOf, text: string, name: string, block: seq<string>)
    requires Find(nameOf, Split(text), name).Some? && block != [] && NoLineEnds(block)
    ensures var lines := Split(text);
            var sp := Find(nameOf, lines, name).value;
            && sp.start < sp.end <= |lines|
            && Split(Upsert(nameOf, text, name, Join(block) + "\n")) == Replaced(lines, sp, block)
            && Upsert(nameOf, text, name, Join(block) + "\n") == Join(Replaced(lines, sp, block))
  {
    hide Join, Split, Find, Body;
    var lines := Split(text);
    var sp := Find(nameOf, lines, name).value;
    FoundIsPlaced(nameOf, lines, name);
    JoinEdit(lines[..sp.start], block, lines[sp.end..]);
    SplitJoin(Replaced(lines, sp, block));
  }

  /** Whether the block ends outside a string, or has nothing but blank lines behind it. */
  predicate StaysApart(block: seq<string>, behind: seq<string>)
    requires block != []
  {
    Through(Outside, block[1..]) == Outside || AllBlank(behind)
  }

  /** How far the scan takes the saved block: over nothing but blank lines exactly when the block stays apart. */
  lemma {:induction false} ReachBehindIff(inner: seq<string>, behind: seq<string>, block: seq<string>)
    requires Written(block) && |inner| <= Reach(Outside, inner + behind)
    requires AllBlank(behind[..Reach(Outside, inner + behind) - |inner|])
    ensures AllBlank(behind[..Reach(Through(Outside, block[1..]), behind)]) <==> StaysApart(block, behind)
  {
    hide IsHeader, IsCamera, IsBlank, Through, Reach, NoHeader;
    var q, m := Through(Outside, block[1..]), Reach(Outside, inner + behind) - |inner|;
    var r := Reach(q, behind);
    if AllBlank(behind) {
      assert forall l :: l in behind[..r] ==> l in behind;
    } else {
      if AllBlank(behind[..r]) && r < |behind| {
        ReachStops(q, behind);
        BlanksAreNothing(q, behind[..r]);
      }
      assert behind[..|behind|] == behind;
      if q == Outside {
        ReachBlanks(inner, behind, m);
      }
    }
  }

  /** What stopped the old block stops a new one that ends outside strings. */
  lemma {:induction false} ReachBlanks(inner: seq<string>, behind: seq<string>, m: nat)
    requires m <= |behind| && Reach(Outside, inner + behind) == |inner| + m && AllBlank(behind[..m])
    ensures Reach(Outside, behind) == m
  {
    hide IsHeader, IsCamera, IsBlank, Through, NoHeader, Reach;
    var ls := inner + behind;
    assert behind == behind[..m] + behind[m..];
    BlanksAreNothing(Outside, behind[..m]);
    ReachOver(Outside, behind[..m], behind[m..]);
    StopIs(behind, m);
    if m < |behind| {
      ReachStops(Outside, ls);
      assert ls[|inner| + m] == behind[m] && ls[|inner| + m + 1..] == behind[m + 1..];
    }
  }

  lemma StopIs(behind: seq<string>, m: nat)
    requires m <= |behind|
    ensures m == |behind| ==> Reach(Outside, behind[m..]) == 0
    ensures m < |behind| && IsHeader(behind[m]) && (IsCamera(behind[m]) || NoHeader(Outside, behind[m + 1..])) ==>
              Reach(Outside, behind[m..]) == 0
  {
    hide IsHeader, IsCamera, NoHeader;
    if m < |behind| {
      assert behind[m..][0] == behind[m] && behind[m..][1..] == behind[m + 1..];
      if IsHeader(behind[m]) {
        HeaderStaysOutside(behind[m]);
      }
    }
  }

  /** The lines after the found block's header: its own, then blank ones as far as the scan takes it. */
  lemma {:induction false} FoundReach(lines: seq<string>, s: nat, sp: Span)
    requires CameraLine(lines, s) && sp == Trimmed(lines, Span(s, s + 1 + Reach(Outside, lines[s + 1..])))
    ensures sp.start == s < sp.end <= |lines|
    ensures var inner, behind := lines[s + 1..sp.end], lines[sp.end..];
            && lines[s + 1..] == inner + behind && |inner| <= Reach(Outside, inner + behind)
            && AllBlank(behind[..Reach(Outside, inner + behind) - |inner|])
  {
    hide Trimmed, IsBlank, Reach, Through, IsHeader, IsCamera;
    var r := Reach(Outside, lines[s + 1..]);
    var inner, behind := lines[s + 1..sp.end], lines[sp.end..];
    assert lines[s + 1..] == inner + behind;
    assert forall i :: 0 <= i < r - |inner| ==> behind[i] == lines[sp.end + i];
  }

  /** Nothing in the saved block opens or ends a block, so its reach is its own lines and what follows. */
  lemma {:induction false} SavedReach(before: seq<string>, block: seq<string>, behind: seq<string>)
    requires Written(block)
    ensures var e, s := before + block + behind, |before|;
            s + 1 + Reach(Outside, e[s + 1..]) == s + |block| + Reach(Through(Outside, block[1..]), behind)
  {
    hide IsHeader, IsCamera, IsBlank, Through, NoHeader, Reach;
    var e, s := before + block + behind, |before|;
    assert e[s + 1..] == block[1..] + behind;
    WrittenIsPlain(block, Outside);
    ReachOver(Outside, block[1..], behind);
  }

  /** Where a saved file has the saved block: the blocks before it are as they were. */
  lemma {:induction false} SpansSaved(nameOf: NameOf, lines: seq<string>, name: string, block: seq<string>)
      returns (s: nat, sp: Span, more: seq<Span>)
    requires Find(nameOf, lines, name).Some? && Written(block)
    ensures var found := Find(nameOf, lines, name).value;
            && s == found.start < found.end <= |lines|
            && var e := Replaced(lines, found, block);
               && InOrder([sp] + more, |e|) && Find(nameOf, e, name) == FindIn(nameOf, e, [sp] + more, name)
               && sp == Span(s, s + |block| + Reach(Through(Outside, block[1..]), e[s + |block|..])) && sp.end <= |e|
  {
    hide Trimmed, Body, FindIn, CloseLast, Reach, IsHeader, IsCamera, IsBlank, Through, Scan, InOrder;
    var was;
    s, was := FoundAt(nameOf, lines, name);
    var found := Find(nameOf, lines, name).value;
    FoundReach(lines, s, found);
    var e := Replaced(lines, found, block);
    var front := CloseLast(Spans(lines[..s]), s);
    assert e[..s] == lines[..s] && e[s] == block[0];
    more := SpansFrom(e, s);
    sp := Span(s, s + 1 + Reach(Outside, e[s + 1..]));
    assert e == lines[..s] + block + e[s + |block|..];
    SavedReach(lines[..s], block, e[s + |block|..]);
    SpansInOrder(e);
    SameFront(nameOf, lines, e, front, s, name);
    FindInSkips(nameOf, e, front, [sp] + more, name);
    assert sp == ([sp] + more)[0];
    SpanInBounds([sp] + more, |e|);
    FindIs(nameOf, e, name);
  }

  lemma SpansInOrder(lines: seq<string>)
    ensures InOrder(Spans(lines), |lines|)
  {
    hide Scan;
    ScanInOrder(lines, 0, Outside, []);
  }

  lemma SpanInBounds(spans: seq<Span>, n: nat)
    requires InOrder(spans, n) && spans != []
    ensures spans[0].start < spans[0].end <= n
  {
  }

  lemma FindIs(nameOf: NameOf, lines: seq<string>, name: string)
    ensures InOrder(Spans(lines), |lines|) && Find(nameOf, lines, name) == FindIn(nameOf, lines, Spans(lines), name)
  {
    hide Scan, FindIn;
    ScanInOrder(lines, 0, Outside, []);
  }

  lemma {:induction false} SameFront(nameOf: NameOf, a: seq<string>, b: seq<string>, front: seq<Span>, s: nat,
                                     name: string)
    requires s <= |a| && s <= |b| && a[..s] == b[..s]
    requires forall k :: 0 <= k < |front| ==>
               front[k].start < front[k].end <= s && nameOf(Body(a, Trimmed(a, front[k]))) != Some(name)
    ensures forall k :: 0 <= k < |front| ==>
              front[k].start < front[k].end <= |b| && nameOf(Body(b, Trimmed(b, front[k]))) != Some(name)
  {
    hide Trimmed, Body;
    forall k | 0 <= k < |front|
      ensures nameOf(Body(b, Trimmed(b, front[k]))) != Some(name)
    {
      assert a[..front[k].end] == a[..s][..front[k].end] == b[..front[k].end];
      TrimmedAlike(a, b, front[k]);
    }
  }

  // Saving again

  lemma {:induction false} SavedBehindIff(nameOf: NameOf, lines: seq<string>, name: string, block: seq<string>)
    requires Find(nameOf, lines, name).Some? && Written(block)
    ensures var found := Find(nameOf, lines, name).value;
            && found.start < found.end <= |lines|
            && var tail := Replaced(lines, found, block)[found.start + |block|..];
               AllBlank(tail[..Reach(Through(Outside, block[1..]), tail)]) <==> StaysApart(block, lines[found.end..])
  {
    hide Find, Trimmed, Reach, IsHeader, IsCamera, IsBlank, Through, CloseLast, Scan, Body;
    var s, more := FoundAt(nameOf, lines, name);
    var found := Find(nameOf, lines, name).value;
    FoundReach(lines, s, found);
    var tail := Replaced(lines, found, block)[found.start + |block|..];
    if found.end == |lines| {
      EmptyIsBlank();
      assert tail == [""];
    } else {
      assert tail == lines[found.end..];
      ReachBehindIff(lines[s + 1..found.end], tail, block);
    }
  }

  /** The saved file gives the saved block again exactly when it stays apart from what is behind it. */
  lemma {:induction false} SavedIsFoundIff(nameOf: NameOf, lines: seq<string>, name: string, block: seq<string>)
    requires Find(nameOf, lines, name).Some? && Written(block) && nameOf(Join(block)) == Some(name)
    ensures var found := Find(nameOf, lines, name).value;
            && found.start < found.end <= |lines|
            && var r, own := Find(nameOf, Replaced(lines, found, block), name),
                             Span(found.start, found.start + |block|);
               && (r == Some(own) <==> StaysApart(block, lines[found.end..]))
               && (r.Some? && r.value != own ==>
                     r.value.start >= own.end || (r.value.start == own.start && r.value.end > own.end))
  {
    hide Join, Find, Reach, IsHeader, IsCamera, Through, FindIn, InOrder, Written, AllBlank;
    var found := Find(nameOf, lines, name).value;
    var s, sp, more := SpansSaved(nameOf, lines, name, block);
    var e := Replaced(lines, found, block);
    SavedSlices(lines, found, block, sp.end);
    SavedBehindIff(nameOf, lines, name, block);
    FirstIsOwnIff(nameOf, e, sp, more, block, name);
  }

  lemma SavedSlices(lines: seq<string>, found: Span, block: seq<string>, end: nat)
    requires found.start <= found.end <= |lines|
    ensures var e, m := Replaced(lines, found, block), found.start + |block|;
            e[found.start..m] == block && (m <= end <= |e| ==> e[m..][..end - m] == e[m..end])
  {
  }

  /** Of the spans from the saved block's on, the search gives just its lines when only blank ones follow in it. */
  lemma {:induction false} FirstIsOwnIff(nameOf: NameOf, e: seq<string>, sp: Span, more: seq<Span>, block: seq<string>,
                                         name: string)
    requires InOrder([sp] + more, |e|) && sp.start + |block| <= sp.end <= |e| && Written(block)
    requires e[sp.start..sp.start + |block|] == block && nameOf(Join(block)) == Some(name)
    ensures var r, own := FindIn(nameOf, e, [sp] + more, name), Span(sp.start, sp.start + |block|);
            && (r == Some(own) <==> AllBlank(e[own.end..sp.end]))
            && (r.Some? && r.value != own ==>
                  r.value.start >= own.end || (r.value.start == own.start && r.value.end > own.end))
  {
    hide Join, Trimmed, Body, IsHeader, IsCamera, IsBlank, FindIn, InOrder;
    FirstOrLater(nameOf, e, sp, more, name);
    TrimmedSaved(e, sp, block);
    BodyIs(e, sp.start, block);
  }

  lemma BodyIs(lines: seq<string>, o: nat, block: seq<string>)
    requires o + |block| <= |lines| && lines[o..o + |block|] == block
    ensures Body(lines, Span(o, o + |block|)) == Join(block)
  {
    hide Join;
    var sp := Span(o, o + |block|);
    assert lines[sp.start..sp.end] == block;
  }

  /** Of a list of spans the search gives the first, or one from the others, which start behind it. */
  lemma {:induction false} FirstOrLater(nameOf: NameOf, lines: seq<string>, sp: Span, more: seq<Span>, name: string)
    requires InOrder([sp] + more, |lines|)
    ensures sp.start < sp.end <= |lines|
    ensures var r := FindIn(nameOf, lines, [sp] + more, name);
            && (nameOf(Body(lines, Trimmed(lines, sp))) == Some(name) ==> r == Some(Trimmed(lines, sp)))
            && (nameOf(Body(lines, Trimmed(lines, sp))) != Some(name) && r.Some? ==> r.value.start >= sp.end)
  {
    hide Trimmed, Body;
    var all := [sp] + more;
    assert all[0] == sp && all[1..] == more;
    if nameOf(Body(lines, Trimmed(lines, sp))) != Some(name) {
      var k := FindInIsFirst(nameOf, lines, more, name);
      if k < |more| {
        assert all[k + 1] == more[k];
      }
    }
  }

  /** The saved block's span, trimmed: the block and what is behind it up to the last line that is not blank. */
  lemma {:induction false} TrimmedSaved(lines: seq<string>, sp: Span, block: seq<string>)
    requires Written(block) && sp.start + |block| <= sp.end <= |lines|
    requires lines[sp.start..sp.start + |block|] == block
    ensures var t := Trimmed(lines, sp);
            && t.end >= sp.start + |block|
            && (t == Span(sp.start, sp.start + |block|) <==> AllBlank(lines[sp.start + |block|..sp.end]))
  {
    hide IsHeader, IsCamera, IsBlank, Trimmed;
    var m := sp.start + |block|;
    WrittenIsPlain(block, Outside);
    assert lines[m - 1] == block[|block| - 1] by { assert lines[sp.start..m][|block| - 1] == lines[m - 1]; }
    TrimmedStops(lines, sp, m);
    if AllBlank(lines[m..sp.end]) {
      TrimmedShort(lines, sp.start, m, sp.end);
      TrimmedStops(lines, Span(sp.start, m), m);
    } else {
      var l :| l in lines[m..sp.end] && !IsBlank(l);
      var i :| 0 <= i < sp.end - m && lines[m..sp.end][i] == l;
      TrimmedStops(lines, sp, m + i + 1);
    }
  }

  /** Trimming stops at a line that is not blank. */
  lemma {:induction false} TrimmedStops(lines: seq<string>, sp: Span, m: nat)
    requires sp.start < m <= sp.end <= |lines| && !IsBlank(lines[m - 1])
    ensures Trimmed(lines, sp).end >= m
  {
    hide IsBlank, Trimmed;
  }

  /** Putting a block in the place of a span changes the text unless the span's lines are the block's own. */
  lemma {:induction false} ReplacedIsSame(lines: seq<string>, sp: Span, block: seq<string>)
    requires sp.start < sp.end <= |lines| && !IsBlank(lines[sp.end - 1]) && block != []
    ensures Replaced(lines, sp, block) == lines <==> sp.end < |lines| && lines[sp.start..sp.end] == block
  {
    hide IsBlank;
    EmptyIsBlank();
    var there := Replaced(lines, sp, block);
    assert lines == lines[..sp.start] + lines[sp.start..sp.end] + lines[sp.end..];
    if sp.end == |lines| {
      assert there[|there| - 1] == "";
    } else {
      assert there[sp.start..sp.start + |block|] == block;
    }
  }

  lemma {:induction false} SplitSnoc(t: string)
    ensures Split(t + "\n") == Split(t) + [""]
  {
    hide Split, Join;
    JoinSplit(t);
    JoinAppend(Split(t), [""]);
    JoinFew();
    assert t + "\n" + "" == t + "\n";
    SplitJoin(Split(t) + [""]);
  }

  /** Line ends at the end of a text are empty lines. */
  lemma {:induction false} TrimmedLines(text: string)
    ensures Split(TrimLineEnds(text)) <= Split(text)
    ensures AllBlank(Split(text)[|Split(TrimLineEnds(text))|..])
    decreases |text|
  {
    hide Split, IsBlank;
    if text != "" && text[|text| - 1] == '\n' {
      var t := text[..|text| - 1];
      TrimmedLines(t);
      SplitSnoc(t);
      EmptyIsBlank();
      assert text == t + "\n";
      var n := |Split(TrimLineEnds(text))|;
      assert Split(text)[n..] == Split(t)[n..] + [""];
    }
  }

  /** The lines of a file with a block appended. */
  function Appended(kept: seq<string>, block: seq<string>): seq<string> { kept + [""] + block + [""] }

  /** The text of an appended file, and its lines. */
  lemma {:induction false} AppendedText(existing: string, block: seq<string>)
    requires block != [] && NoLineEnds(block)
    ensures var after := Appended(Split(existing), block);
            && Join(after) == existing + "\n\n" + (Join(block) + "\n") && Split(Join(after)) == after
  {
    hide Split, Join;
    var kept := Split(existing);
    JoinSplit(existing);
    JoinAppend(kept, [""]);
    JoinAppend(kept + [""], block);
    JoinAppend(kept + [""] + block, [""]);
    JoinFew();
    SplitJoin(Appended(kept, block));
  }

  /** A save that appends a block changes the text, unless it was no more than that block. */
  lemma {:induction false} AppendChanges(nameOf: NameOf, text: string, name: string, block: seq<string>)
    requires Find(nameOf, Split(text), name).None? && Written(block) && Split(text) != block + [""]
    ensures Upsert(nameOf, text, name, Join(block) + "\n") != text
  {
    hide Find, Join, Split, TrimSpace, IsCamera;
    var kept, lines := Split(TrimLineEnds(text)), Split(text);
    TrimmedLines(text);
    AppendedText(TrimLineEnds(text), block);
    AloneText(block);
    if Upsert(nameOf, text, name, Join(block) + "\n") == text {
      assert lines == Appended(kept, block);
      var i := |kept| + 1;
      assert lines[|kept|..][1] == lines[i] == block[0];
      HeaderIsSome(block[0]);
    }
  }

  lemma {:induction false} AloneText(block: seq<string>)
    requires block != [] && NoLineEnds(block)
    ensures Join(block + [""]) == Join(block) + "\n" && Split(Join(block) + "\n") == block + [""]
  {
    hide Join, Split;
    JoinAppend(block, [""]);
    JoinFew();
    assert Join(block) + "\n" + "" == Join(block) + "\n";
    SplitJoin(block + [""]);
  }

  /** The block's lines stand further down the file as they are. */
  predicate CopyAt(block: seq<string>, behind: seq<string>, i: nat) {
    i + |block| <= |behind| && behind[i..i + |block|] == block
  }

  predicate HasCopy(block: seq<string>, behind: seq<string>) {
    exists i | 0 <= i <= |behind| :: CopyAt(block, behind, i)
  }

  lemma NotAlone(lines: seq<string>, found: Span, block: seq<string>)
    requires found.start <= found.end <= |lines| && block != []
    ensures Replaced(lines, found, block) == block + [""] ==> StaysApart(block, lines[found.end..])
  {
    hide Through, IsBlank;
    EmptyIsBlank();
    var e := Replaced(lines, found, block);
    if e == block + [""] && found.end < |lines| {
      assert |e| == |block| + 1;
      assert found.start == 0 && e[|block|..] == lines[found.end..];
      assert (block + [""])[|block|..] == [""];
    }
  }

  lemma {:induction false} FoundEnds(nameOf: NameOf, lines: seq<string>, name: string)
    requires Find(nameOf, lines, name).Some?
    ensures var sp := Find(nameOf, lines, name).value; sp.start < sp.end <= |lines| && !IsBlank(lines[sp.end - 1])
  {
    hide Find, Trimmed, Reach, IsHeader, IsCamera, IsBlank, Through, CloseLast, Scan, Body;
    var s, more := FoundAt(nameOf, lines, name);
    HeaderIsSome(lines[s]);
    TrimmedEnds(lines, Span(s, s + 1 + Reach(Outside, lines[s + 1..])));
  }

  lemma OwnOrCopy(lines: seq<string>, found: Span, block: seq<string>, sp: Span)
    requires found.start <= found.end <= |lines| && block != []
    requires sp.start < sp.end <= |Replaced(lines, found, block)|
    requires var own := Span(found.start, found.start + |block|);
             sp != own ==> sp.start >= own.end || (sp.start == own.start && sp.end > own.end)
    ensures var e, own := Replaced(lines, found, block), Span(found.start, found.start + |block|);
            && (sp == own ==> sp.end < |e| && e[sp.start..sp.end] == block)
            && (sp != own && sp.end < |e| && e[sp.start..sp.end] == block ==> HasCopy(block, lines[found.end..]))
  {
    var e, own := Replaced(lines, found, block), Span(found.start, found.start + |block|);
    var behind := lines[found.end..];
    if sp != own && sp.end < |e| && e[sp.start..sp.end] == block {
      assert e[own.end..] == behind;
      var i := sp.start - own.end;
      assert e[sp.start..sp.end] == e[own.end..][i..i + |block|];
      assert CopyAt(block, behind, i);
    }
  }

  /**
   Saving a camera the file has a second time, for any text: when the block stays apart from what is behind
   it that changes nothing, and otherwise it does, unless the search runs into a copy of the block further down.
   */
  lemma {:induction false} UpsertTwiceIff(nameOf: NameOf, text: string, name: string, block: seq<string>)
    requires Find(nameOf, Split(text), name).Some? && Written(block) && nameOf(Join(block)) == Some(name)
    ensures var found, b := Find(nameOf, Split(text), name).value, Join(block) + "\n";
            && found.start < found.end <= |Split(text)|
            && var once, behind := Upsert(nameOf, text, name, b), Split(text)[found.end..];
               && (StaysApart(block, behind) ==> Upsert(nameOf, once, name, b) == once)
               && (!HasCopy(block, behind) ==>
                     (Upsert(nameOf, once, name, b) == once <==> StaysApart(block, behind)))
  {
    hide Find, Join, Split, IsHeader, IsCamera, IsBlank, Upsert, StaysApart, HasCopy, Body;
    var lines := Split(text);
    UpsertReplaces(nameOf, text, name, block);
    var once := Upsert(nameOf, text, name, Join(block) + "\n");
    var found := Find(nameOf, lines, name).value;
    var e := Replaced(lines, found, block);
    SavedIsFoundIff(nameOf, lines, name, block);
    var r := Find(nameOf, e, name);
    if r.None? {
      NotAlone(lines, found, block);
      AppendChanges(nameOf, once, name, block);
    } else {
      UpsertReplaces(nameOf, once, name, block);
      FoundEnds(nameOf, e, name);
      ReplacedIsSame(e, r.value, block);
      OwnOrCopy(lines, found, block, r.value);
    }
  }
}
