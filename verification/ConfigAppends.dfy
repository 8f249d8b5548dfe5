/** What saving a camera the file does not have does to the whole config text, and what saving it again does. */
module ConfigAppends {
  import opened Text
  import opened Wrappers
  import opened ConfigScan
  import opened ConfigLayout
  import opened ConfigEdit
  import opened ConfigSaves

  /** Blank lines at the end change nothing the scan found. */
  lemma {:induction false} ScanBlanks(lines: seq<string>, i: nat, q: Quote, spans: seq<Span>)
    requires i <= |lines| && AllBlank(lines[i..])
    ensures Scan(lines, i, q, spans) == spans
    decreases |lines| - i
  {
    hide After, IsHeader, IsBlank;
    if i < |lines| {
      assert lines[i..][0] == lines[i] && lines[i..][1..] == lines[i + 1..];
      BlankIsNothing(q, lines[i]);
      ScanBlanks(lines, i + 1, q, spans);
    }
  }

  lemma {:induction false} ScanNone(lines: seq<string>, i: nat, q: Quote, spans: seq<Span>)
    requires i <= |lines| && NoHeader(q, lines[i..])
    ensures Scan(lines, i, q, spans) == spans
    decreases |lines| - i
  {
    hide After, IsHeader;
    if i < |lines| {
      assert lines[i..][0] == lines[i] && lines[i..][1..] == lines[i + 1..];
      ScanNone(lines, i + 1, After(q, lines[i]), spans);
    }
  }

  /** The last camera's block, taken on to the end of the file over any table below it. */
  function LastOn(lines: seq<string>): (r: Option<Span>)
    ensures r.Some? ==> r.value.start < r.value.end == |lines|
  {
    ScanInOrder(lines, 0, Outside, []);
    var spans := Spans(lines);
    if spans == [] then None else Some(Span(spans[|spans| - 1].start, |lines|))
  }

  /** Taken on so, the last block is not given that name. */
  predicate LastIsOther(nameOf: NameOf, lines: seq<string>, name: string) {
    var on := LastOn(lines);
    on.None? || nameOf(Body(lines, Trimmed(lines, on.value))) != Some(name)
  }

  // Appended outside strings

  /** A block at the end: its header closes the last block, and nothing in it is seen. */
  lemma {:induction false} ScanNew(lines: seq<string>, o: nat, block: seq<string>, spans: seq<Span>)
    requires o <= |lines| && lines[o..] == block + [""] && Written(block)
    ensures Scan(lines, o, Outside, spans) == CloseLast(spans, o) + [Span(o, |lines|)]
    ensures Trimmed(lines, Span(o, |lines|)) == Span(o, o + |block|) && lines[o..o + |block|] == block
  {
    hide After, IsHeader, IsCamera, NoHeader, NoCamera, Through, CloseLast, Trimmed, IsBlank;
    assert lines[o] == lines[o..][0] == block[0];
    assert lines[o..o + |block|] == lines[o..][..|block|] == block;
    HeaderStaysOutside(lines[o]);
    NewIsPlain(block, Outside);
    assert lines[o + 1..] == block[1..] + [""] by { assert lines[o + 1..] == lines[o..][1..]; }
    ScanNone(lines, o + 1, Outside, CloseLast(spans, o) + [Span(o, |lines|)]);
    assert lines[o + |block|..|lines|] == [""] by { assert lines[o + |block|..] == lines[o..][|block|..]; }
    EmptyIsBlank();
    TrimmedSaved(lines, Span(o, |lines|), block);
  }

  lemma {:induction false} NewIsPlain(block: seq<string>, q: Quote)
    requires Written(block)
    ensures NoHeader(q, block[1..] + [""])
  {
    hide IsHeader, IsCamera, IsBlank, NoHeader, After;
    EmptyIsNoHeader();
    NoneHead(q, block[1..] + [""]);
  }

  lemma EmptyIsNoHeader()
    ensures !IsHeader("")
  {
  }

  /** The scan of an appended file: what it had been, the last block closed by the new header, and the new block. */
  lemma {:induction false} SpansAppended(lines: seq<string>, kept: seq<string>, block: seq<string>)
      returns (was: seq<Span>)
    requires kept <= lines && AllBlank(lines[|kept|..]) && Through(Outside, kept) == Outside
    requires Written(block)
    ensures var after, o := Appended(kept, block), |kept| + 1;
            && Agree(Spans(lines), was, |kept|)
            && Spans(after) == CloseLast(was, o) + [Span(o, |after|)]
            && Trimmed(after, Span(o, |after|)) == Span(o, o + |block|) && after[o..o + |block|] == block
  {
    hide After, AtLine, IsBlank, Written, Through, CloseLast, Trimmed;
    var after, o := Appended(kept, block), |kept| + 1;
    assert after[..|kept|] == kept == lines[..|kept|] == lines[0..|kept|];
    var spans;
    spans, was := ScansAgree(lines, after, 0, |kept|, Outside, [], []);
    ScanBlanks(lines, |kept|, Outside, spans);
    assert after[o..] == block + [""] && after[|kept|] == "";
    ScanOverBlank(after, |kept|, was);
    ScanNew(after, o, block, was);
  }

  lemma ScanOverBlank(lines: seq<string>, i: nat, spans: seq<Span>)
    requires i < |lines| && lines[i] == ""
    ensures Scan(lines, i, Outside, spans) == Scan(lines, i + 1, Outside, spans)
  {
    hide After, IsHeader, IsBlank;
    EmptyIsBlank();
    BlankIsNothing(Outside, "");
  }

  lemma {:induction false} LastAlike(lines: seq<string>, kept: seq<string>, after: seq<string>, s: nat)
    requires kept <= lines && AllBlank(lines[|kept|..]) && s < |kept| && kept + [""] <= after
    ensures var t := Trimmed(lines, Span(s, |lines|));
            && Trimmed(after, Span(s, |kept| + 1)) == t && t.end <= |kept| && Body(after, t) == Body(lines, t)
  {
    hide Trimmed, IsBlank, Body;
    EmptyIsBlank();
    assert after[|kept|..|kept| + 1] == [""] by { assert after[|kept|] == (kept + [""])[|kept|]; }
    assert lines[|kept|..|lines|] == lines[|kept|..];
    assert after[..|kept|] == (kept + [""])[..|kept|] == kept == lines[..|kept|];
    TrimmedShort(after, s, |kept|, |kept| + 1);
    TrimmedShort(lines, s, |kept|, |lines|);
    TrimmedAlike(lines, after, Span(s, |kept|));
  }

  /** The blocks before the last are read as before. */
  lemma {:induction false} FrontUnnamed(nameOf: NameOf, lines: seq<string>, kept: seq<string>, after: seq<string>,
                                        spans: seq<Span>, was: seq<Span>, name: string)
    requires kept <= lines && kept <= after && Agree(spans, was, |kept|) && InOrder(spans, |lines|) && spans != []
    requires FindIn(nameOf, lines, spans, name).None?
    ensures forall k :: 0 <= k < |was| - 1 ==>
              was[k].start < was[k].end <= |after| && nameOf(Body(after, Trimmed(after, was[k]))) != Some(name)
  {
    hide Trimmed, Body, FindIn;
    NoneNamed(nameOf, lines, spans, name);
    forall k | 0 <= k < |was| - 1
      ensures was[k].start < was[k].end <= |after| && nameOf(Body(after, Trimmed(after, was[k]))) != Some(name)
    {
      assert was[k] == spans[k] && spans[k].end <= spans[k + 1].start < |kept|;
      assert lines[..was[k].end] == kept[..was[k].end] == after[..was[k].end];
      TrimmedAlike(lines, after, was[k]);
    }
  }

  lemma {:induction false} FindInOver(nameOf: NameOf, lines: seq<string>, spans: seq<Span>, sp: Span, rest: seq<Span>,
                                      name: string)
    requires InOrder(spans + ([sp] + rest), |lines|) && sp.start < sp.end <= |lines|
    requires forall k :: 0 <= k < |spans| ==>
               spans[k].start < spans[k].end <= |lines| && nameOf(Body(lines, Trimmed(lines, spans[k]))) != Some(name)
    requires nameOf(Body(lines, Trimmed(lines, sp))) == Some(name)
    ensures FindIn(nameOf, lines, spans + ([sp] + rest), name) == Some(Trimmed(lines, sp))
    decreases |spans|
  {
    hide Trimmed, Body;
    var all := spans + ([sp] + rest);
    if spans == [] {
      assert all[0] == sp;
    } else {
      assert all[0] == spans[0] && all[1..] == spans[1..] + ([sp] + rest);
      FindInOver(nameOf, lines, spans[1..], sp, rest, name);
    }
  }

  /** After an append, the search comes to the last block first if that is given the name, and to the new one if not. */
  lemma {:induction false} FindAppended(nameOf: NameOf, lines: seq<string>, kept: seq<string>, name: string,
                                        block: seq<string>)
    requires kept <= lines && AllBlank(lines[|kept|..]) && Through(Outside, kept) == Outside
    requires Written(block) && nameOf(Join(block)) == Some(name)
    requires Find(nameOf, lines, name).None?
    ensures var after, o := Appended(kept, block), |kept| + 1;
            Find(nameOf, after, name) == Some(if LastIsOther(nameOf, lines, name) then Span(o, o + |block|)
                                              else Trimmed(lines, LastOn(lines).value))
    ensures !LastIsOther(nameOf, lines, name) ==>
              var sp := Trimmed(lines, LastOn(lines).value);
              sp.end <= |kept| && Body(Appended(kept, block), sp) == Body(lines, sp)
  {
    hide IsBlank, Written, Through, Trimmed, Scan, Join, AllBlank, FindIn, Body;
    var after, o := Appended(kept, block), |kept| + 1;
    var new1 := Span(o, |after|);
    var was := SpansAppended(lines, kept, block);
    var spans := Spans(lines);
    ScanInOrder(lines, 0, Outside, []);
    ScanInOrder(after, 0, Outside, []);
    hide InOrder;
    assert Body(after, Span(o, o + |block|)) == Join(block) by { BodyIs(after, o, block); }
    if spans == [] {
      assert [] + ([new1] + []) == CloseLast(was, o) + [new1];
      FindInOver(nameOf, after, [], new1, [], name);
    } else {
      var front, s := was[..|was| - 1], spans[|spans| - 1].start;
      var last := Span(s, o);
      FrontUnnamed(nameOf, lines, kept, after, spans, was, name);
      LastAlike(lines, kept, after, s);
      assert CloseLast(was, o) + [new1] == front + ([last] + [new1]) == (front + [last]) + ([new1] + []);
      if LastIsOther(nameOf, lines, name) {
        FindInOver(nameOf, after, front + [last], new1, [], name);
      } else {
        FindInOver(nameOf, after, front, last, [new1], name);
      }
    }
  }

  lemma {:induction false} ThroughKept(lines: seq<string>, kept: seq<string>)
    requires kept <= lines && AllBlank(lines[|kept|..])
    ensures Through(Outside, kept) == Through(Outside, lines)
  {
    hide Through, IsBlank;
    assert lines == kept + lines[|kept|..];
    RunAppend(Outside, kept, lines[|kept|..]);
    BlanksAreNothing(Through(Outside, kept), lines[|kept|..]);
  }

  lemma PlainToEnd(lines: seq<string>, sp: Span, block: seq<string>)
    requires sp.start < sp.end <= |lines| && lines[sp.start..sp.end] == block && Plain(block)
    requires AllBlank(lines[sp.end..])
    ensures NoHeader(Outside, lines[sp.start + 1..])
  {
    hide IsBlank, NoHeader, Through;
    assert block[1..] == lines[sp.start + 1..sp.end];
    assert lines[sp.start + 1..] == block[1..] + lines[sp.end..];
    RunAppend(Outside, block[1..], lines[sp.end..]);
    BlanksAreNothing(Through(Outside, block[1..]), lines[sp.end..]);
  }

  /** The last block's span, by its reach. */
  lemma {:induction false} LastSpan(lines: seq<string>)
    requires Spans(lines) != []
    ensures var spans := Spans(lines);
            var s := spans[|spans| - 1].start;
            CameraLine(lines, s) && spans[|spans| - 1] == Span(s, s + 1 + Reach(Outside, lines[s + 1..]))
  {
    hide Scan, Through, IsHeader, IsCamera, Reach, CloseLast;
    var spans := Spans(lines);
    var k := |spans| - 1;
    var s := spans[k].start;
    NothingThrough(lines);
    StartsAreCameras(lines, 0, Outside, []);
    assert spans[k] in spans;
    SpansInOrder(lines);
    var more := SpansFrom(lines, s);
    FrontIs(spans, CloseLast(Spans(lines[..s]), s), Span(s, s + 1 + Reach(Outside, lines[s + 1..])), more, k, |lines|);
  }

  /** The last block, taken on over a table, is not the plain block that was appended: the file would have had it. */
  lemma {:induction false} LastIsNotBlock(nameOf: NameOf, lines: seq<string>, name: string, block: seq<string>)
    requires Find(nameOf, lines, name).None? && !LastIsOther(nameOf, lines, name)
    requires block != [] && Plain(block)
    ensures var sp := Trimmed(lines, LastOn(lines).value); lines[sp.start..sp.end] != block
  {
    hide IsBlank, Scan, Join, FindIn, Body, NoHeader, Plain, Reach, CameraLine;
    var spans := Spans(lines);
    ScanInOrder(lines, 0, Outside, []);
    NoneNamed(nameOf, lines, spans, name);
    LastSpan(lines);
    var on := LastOn(lines).value;
    var sp := Trimmed(lines, on);
    if lines[sp.start..sp.end] == block {
      PlainToEnd(lines, sp, block);
      ReachAll(Outside, lines[on.start + 1..]);
    }
  }

  // Appended inside a string

  /** Headers stop a reach where they did, whatever without headers follows. */
  lemma {:induction false} ReachTail(q: Quote, a: seq<string>, b: seq<string>)
    requires !NoHeader(q, a) && NoHeader(Through(q, a), b)
    ensures Reach(q, a + b) == Reach(q, a) < |a|
    decreases |a|
  {
    hide After, IsHeader, IsCamera;
    assert (a + b)[0] == a[0] && (a + b)[1..] == a[1..] + b;
    RunAppend(After(q, a[0]), a[1..], b);
    if NoHeader(After(q, a[0]), a[1..]) {
    } else {
      ReachTail(After(q, a[0]), a[1..], b);
    }
  }

  /** The string the text ends in is the one its last camera leaves the scan in. */
  lemma ThroughFrom(lines: seq<string>, s: nat)
    requires CameraLine(lines, s)
    ensures Through(Outside, lines[s + 1..]) == Through(Outside, lines)
  {
    hide After, IsHeader, IsCamera;
    assert lines == lines[..s] + ([lines[s]] + lines[s + 1..]);
    RunAppend(Outside, lines[..s], [lines[s]] + lines[s + 1..]);
    assert ([lines[s]] + lines[s + 1..])[1..] == lines[s + 1..];
    HeaderStaysOutside(lines[s]);
  }

  /** Inside a string the scan sees nothing of the appended block. */
  lemma {:induction false} NothingSeen(q: Quote, block: seq<string>)
    requires q != Outside && Written(block)
    ensures NoHeader(q, [""] + block + [""])
  {
    hide After, IsHeader, IsCamera, IsBlank, NoHeader, NoCamera;
    EmptyIsBlank();
    var rest := block[1..] + [""];
    assert [""] + block + [""] == [""] + ([block[0]] + rest);
    BlankIsNothing(q, "");
    NewIsPlain(block, After(q, block[0]));
    OneUnseen(q, block[0], rest);
    OneUnseen(q, "", [block[0]] + rest);
  }

  lemma OneUnseen(q: Quote, l: string, rest: seq<string>)
    requires !Heads(q, l) && NoHeader(After(q, l), rest)
    ensures NoHeader(q, [l] + rest)
  {
    hide After, IsHeader;
    assert ([l] + rest)[1..] == rest;
  }

  /** After an append inside a string the spans are what they were, but that the last may run on to the end. */
  lemma {:induction false} SpansRunOn(lines: seq<string>, kept: seq<string>, block: seq<string>)
    requires kept <= lines && AllBlank(lines[|kept|..]) && Through(Outside, kept) != Outside && Written(block)
    ensures Agree(Spans(lines), Spans(Appended(kept, block)), |kept|)
  {
    hide After, AtLine, IsBlank, Written, Through, NoHeader;
    var after := Appended(kept, block);
    assert after[..|kept|] == kept == lines[..|kept|] == lines[0..|kept|];
    var spans, was := ScansAgree(lines, after, 0, |kept|, Outside, [], []);
    ScanBlanks(lines, |kept|, Outside, spans);
    ScanBlanks(lines, |kept|, Through(Outside, kept), spans);
    assert after[|kept|..] == [""] + block + [""];
    NothingSeen(Through(Outside, kept), block);
    ScanNone(after, |kept|, Through(Outside, kept), was);
  }

  /** Where the last camera of the kept lines ends, before the append and after it. */
  lemma {:induction false} LastRunsOn(lines: seq<string>, kept: seq<string>, block: seq<string>, s: nat)
    requires kept <= lines && AllBlank(lines[|kept|..]) && Through(Outside, kept) != Outside && Written(block)
    requires s < |kept| && CameraLine(kept, s)
    ensures var after := Appended(kept, block);
            var old1, new1 := s + 1 + Reach(Outside, lines[s + 1..]), s + 1 + Reach(Outside, after[s + 1..]);
            (old1 == new1 <= |kept|) || new1 == |after|
  {
    hide IsHeader, IsCamera, IsBlank, NoHeader, Reach, Through;
    var after, own, q := Appended(kept, block), kept[s + 1..], Through(Outside, kept);
    var tail, blanks := [""] + block + [""], lines[|kept|..];
    assert lines == kept + blanks;
    assert after[s + 1..] == own + tail && lines[s + 1..] == own + blanks;
    ThroughFrom(kept, s);
    NothingSeen(q, block);
    BlanksAreNothing(q, blanks);
    if NoHeader(Outside, own) {
      ReachOver(Outside, own, tail);
      ReachAll(q, tail);
    } else {
      ReachTail(Outside, own, tail);
      ReachTail(Outside, own, blanks);
    }
  }

  /** Then the search gives nothing, or a block longer than the one appended. */
  lemma {:induction false} FindRunOn(nameOf: NameOf, lines: seq<string>, kept: seq<string>, name: string,
                                     block: seq<string>)
    requires kept <= lines && AllBlank(lines[|kept|..]) && Through(Outside, kept) != Outside && Written(block)
    requires Find(nameOf, lines, name).None?
    ensures var r := Find(nameOf, Appended(kept, block), name);
            r.Some? ==> r.value.start < r.value.end <= |Appended(kept, block)| && r.value.end - r.value.start > |block|
  {
    hide IsBlank, IsHeader, IsCamera, Through, Trimmed, Scan, Reach, FindIn, Body, InOrder, Find, Agree, AllBlank,
      Written;
    var after := Appended(kept, block);
    SpansRunOn(lines, kept, block);
    var spans, was := Spans(lines), Spans(after);
    SpansInOrder(lines);
    SpansInOrder(after);
    FindIs(nameOf, lines, name);
    FindIs(nameOf, after, name);
    SameCount(spans, was, |kept|);
    if was == [] {
      FoundNone(nameOf, after, name);
    } else {
      var k := |was| - 1;
      FrontUnnamed(nameOf, lines, kept, after, spans, was, name);
      assert was[..k] + [was[k]] == was;
      FindInSkips(nameOf, after, was[..k], [was[k]], name);
      LastFound(nameOf, lines, kept, name, block);
    }
  }

  lemma SameCount(a: seq<Span>, b: seq<Span>, i: nat)
    requires Agree(a, b, i)
    ensures |a| == |b| && (a != [] ==> a[|a| - 1].start == b[|b| - 1].start < i)
  {
  }

  lemma FoundNone(nameOf: NameOf, lines: seq<string>, name: string)
    requires Spans(lines) == []
    ensures Find(nameOf, lines, name).None?
  {
    hide Scan;
  }

  /** Only the last block can come to be given the name, and only when it has run on over the appended one. */
  lemma {:induction false} LastFound(nameOf: NameOf, lines: seq<string>, kept: seq<string>, name: string,
                                     block: seq<string>)
    requires kept <= lines && AllBlank(lines[|kept|..]) && Through(Outside, kept) != Outside && Written(block)
    requires InOrder(Spans(lines), |lines|) && FindIn(nameOf, lines, Spans(lines), name).None?
    requires var after := Appended(kept, block);
             |Spans(lines)| == |Spans(after)| > 0
             && Spans(lines)[|Spans(lines)| - 1].start == Spans(after)[|Spans(after)| - 1].start < |kept|
    ensures var after := Appended(kept, block);
            var last := Spans(after)[|Spans(after)| - 1];
            && last.start < last.end <= |after|
            && var r := FindIn(nameOf, after, [last], name);
               r.Some? ==> r.value.start < r.value.end <= |after| && r.value.end - r.value.start > |block|
  {
    hide IsBlank, IsHeader, IsCamera, Through, Trimmed, Scan, Reach, FindIn, Body, AllBlank;
    var after := Appended(kept, block);
    var old1, last := Spans(lines)[|Spans(lines)| - 1], Spans(after)[|Spans(after)| - 1];
    var s := last.start;
    LastSpan(lines);
    LastSpan(after);
    SpansInOrder(after);
    assert after[..s] == kept[..s] && after[s] == kept[s];
    LastRunsOn(lines, kept, block, s);
    NoneNamed(nameOf, lines, Spans(lines), name);
    FirstOrLater(nameOf, after, last, [], name);
    assert [last] + [] == [last];
    if last.end == |after| {
      WrittenIsPlain(block, Outside);
      assert after[|after| - 2] == block[|block| - 1];
      TrimmedStops(after, last, |after| - 1);
    } else {
      assert lines[..last.end] == kept[..last.end] == after[..last.end];
      TrimmedAlike(lines, after, last);
    }
    NoMore(nameOf, after, last, name);
  }

  lemma NoMore(nameOf: NameOf, lines: seq<string>, sp: Span, name: string)
    requires sp.start < sp.end <= |lines|
    ensures InOrder([sp], |lines|)
    ensures nameOf(Body(lines, Trimmed(lines, sp))) != Some(name) ==> FindIn(nameOf, lines, [sp], name).None?
  {
    hide Trimmed, Body;
    assert [sp][1..] == [];
  }

  // The file as text

  /** Saving a camera the file does not have, and then saving it again, in a file with text in it. */
  lemma {:induction false} NewTwiceAppended(nameOf: NameOf, text: string, name: string, block: seq<string>)
    requires Find(nameOf, Split(text), name).None? && !IsBlank(TrimLineEnds(text))
    requires Written(block) && nameOf(Join(block)) == Some(name)
    ensures var once := Upsert(nameOf, text, name, Join(block) + "\n");
            Upsert(nameOf, once, name, Join(block) + "\n") == once
            <==> Through(Outside, Split(text)) == Outside && LastIsOther(nameOf, Split(text), name)
  {
    hide TrimSpace, Scan, Join, Split, Find, Through, IsHeader, IsCamera, AllBlank, LastOn, Trimmed, Body;
    var lines, kept := Split(text), Split(TrimLineEnds(text));
    var after, o := Appended(kept, block), |kept| + 1;
    var once := Upsert(nameOf, text, name, Join(block) + "\n");
    TrimmedLines(text);
    ThroughKept(lines, kept);
    AppendedText(TrimLineEnds(text), block);
    assert Split(once) == after && once == Join(after);
    if Through(Outside, lines) == Outside {
      FindAppended(nameOf, lines, kept, name, block);
      UpsertReplaces(nameOf, once, name, block);
      FoundEnds(nameOf, after, name);
      ReplacedIsSame(after, Find(nameOf, after, name).value, block);
      assert after[o..o + |block|] == block;
      if !LastIsOther(nameOf, lines, name) {
        WrittenIsPlain(block, Outside);
        LastIsNotBlock(nameOf, lines, name, block);
        KeptSlice(lines, kept, after, Trimmed(lines, LastOn(lines).value));
      }
    } else {
      FindRunOn(nameOf, lines, kept, name, block);
      if Find(nameOf, after, name).None? {
        AppendChanges(nameOf, once, name, block);
      } else {
        UpsertReplaces(nameOf, once, name, block);
        FoundEnds(nameOf, after, name);
        ReplacedIsSame(after, Find(nameOf, after, name).value, block);
      }
    }
  }

  lemma KeptSlice(lines: seq<string>, kept: seq<string>, after: seq<string>, sp: Span)
    requires kept <= lines && kept <= after && sp.start <= sp.end <= |kept|
    ensures after[sp.start..sp.end] == lines[sp.start..sp.end]
  {
    assert after[sp.start..sp.end] == kept[sp.start..sp.end] == lines[sp.start..sp.end];
  }

  lemma {:induction false} NewTwiceAlone(nameOf: NameOf, name: string, block: seq<string>)
    requires Written(block) && nameOf(Join(block)) == Some(name)
    ensures var once := Join(block) + "\n"; Upsert(nameOf, once, name, once) == once
  {
    hide IsBlank, IsHeader, IsCamera, Scan, Join, Split, Through, Trimmed, Body, FindIn, Find;
    var lines, once := block + [""], Join(block) + "\n";
    AloneText(block);
    ScanNew(lines, 0, block, []);
    BodyIs(lines, 0, block);
    var sp := Span(0, |lines|);
    FindIs(nameOf, lines, name);
    assert [] + ([sp] + []) == CloseLast([], 0) + [sp] == Spans(lines);
    FindInOver(nameOf, lines, [], sp, [], name);
    UpsertReplaces(nameOf, once, name, block);
    FoundEnds(nameOf, lines, name);
    ReplacedIsSame(lines, Span(0, |block|), block);
  }

  /**
   Saving a new camera a second time changes nothing exactly when there was no text in the file, or the scan
   leaves it outside strings and the last camera's block, taken on to the end, is not given the new name.
   */
  lemma {:induction false} UpsertNewTwiceIff(nameOf: NameOf, text: string, name: string, block: seq<string>)
    requires Find(nameOf, Split(text), name).None? && Written(block) && nameOf(Join(block)) == Some(name)
    ensures var once := Upsert(nameOf, text, name, Join(block) + "\n");
            Upsert(nameOf, once, name, Join(block) + "\n") == once
            <==> IsBlank(TrimLineEnds(text))
                 || (Through(Outside, Split(text)) == Outside && LastIsOther(nameOf, Split(text), name))
  {
    hide Join, Split, Find, Through, Written, LastIsOther, TrimSpace;
    if IsBlank(TrimLineEnds(text)) {
      NewTwiceAlone(nameOf, name, block);
    } else {
      NewTwiceAppended(nameOf, text, name, block);
    }
  }
}
