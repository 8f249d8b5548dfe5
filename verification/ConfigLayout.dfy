/** Which layouts of the config text let a reordering be undone by reordering back. */
module ConfigLayout {
  import opened Lists
  import opened Text
  import opened Wrappers
  import opened ConfigScan
  import opened ConfigBlocks

  // Runs of lines as the scan sees them

  /** A header the scan acts on. */
  predicate Heads(q: Quote, line: string) { q.Outside? && IsHeader(line) }

  /** The string the scan is inside after some lines. */
  function Through(q: Quote, ls: seq<string>): Quote
    decreases |ls|
  {
    if ls == [] then q else Through(After(q, ls[0]), ls[1..])
  }

  predicate NoCamera(q: Quote, ls: seq<string>)
    decreases |ls|
  {
    ls == [] || (!(Heads(q, ls[0]) && IsCamera(ls[0])) && NoCamera(After(q, ls[0]), ls[1..]))
  }

  predicate NoHeader(q: Quote, ls: seq<string>)
    decreases |ls|
  {
    ls == [] || (!Heads(q, ls[0]) && NoHeader(After(q, ls[0]), ls[1..]))
  }

  lemma {:induction false} RunAppend(q: Quote, a: seq<string>, b: seq<string>)
    ensures Through(q, a + b) == Through(Through(q, a), b)
    ensures NoCamera(q, a + b) <==> NoCamera(q, a) && NoCamera(Through(q, a), b)
    ensures NoHeader(q, a + b) <==> NoHeader(q, a) && NoHeader(Through(q, a), b)
    decreases |a|
  {
    hide After, Heads, IsCamera;
    if a == [] {
      assert a + b == b;
    } else {
      assert (a + b)[1..] == a[1..] + b;
      RunAppend(After(q, a[0]), a[1..], b);
    }
  }

  lemma {:induction false} NoHeaderNoCamera(q: Quote, ls: seq<string>)
    requires NoHeader(q, ls)
    ensures NoCamera(q, ls)
    decreases |ls|
  {
    hide After, Heads, IsCamera;
    if ls != [] {
      NoHeaderNoCamera(After(q, ls[0]), ls[1..]);
    }
  }

  // Blank lines change nothing

  lemma {:induction false} TrimRightKeeps(t: string)
    requires t != [] && !IsSpace(t[0])
    ensures TrimRight(t) != []
    decreases |t|
  {
    if IsSpace(t[|t| - 1]) {
      TrimRightKeeps(t[..|t| - 1]);
    }
  }

  lemma {:induction false} BlankIsSpaces(line: string)
    requires IsBlank(line)
    ensures forall c :: c in line ==> IsSpace(c)
    decreases |line|
  {
    if line != [] {
      if IsSpace(line[0]) {
        BlankIsSpaces(line[1..]);
      } else {
        TrimRightKeeps(line);
      }
    }
  }

  lemma {:induction false} SpacesCountNone(line: string, mark: string)
    requires |mark| == 3 && !IsSpace(mark[0]) && forall c :: c in line ==> IsSpace(c)
    ensures Count(line, mark) == 0
    decreases |line|
  {
    if |line| >= 3 {
      assert line[..3][0] == line[0] && line[0] in line;
      assert forall c :: c in line[1..] ==> c in line;
      SpacesCountNone(line[1..], mark);
    }
  }

  lemma BlankIsNothing(q: Quote, line: string)
    requires IsBlank(line)
    ensures After(q, line) == q && !Heads(q, line)
  {
    hide TrimSpace, Count;
    BlankIsSpaces(line);
    SpacesCountNone(line, Mark(Basic));
    SpacesCountNone(line, Mark(Literal));
  }

  predicate AllBlank(ls: seq<string>) { forall l :: l in ls ==> IsBlank(l) }

  lemma {:induction false} BlanksAreNothing(q: Quote, ls: seq<string>)
    requires AllBlank(ls)
    ensures Through(q, ls) == q && NoHeader(q, ls)
    decreases |ls|
  {
    hide After, Heads, IsBlank;
    if ls != [] {
      BlankIsNothing(q, ls[0]);
      BlanksAreNothing(q, ls[1..]);
    }
  }

  // The file as blocks

  /** A camera's block and the blank lines after it. */
  datatype Item = Item(block: seq<string>, blanks: seq<string>)

  function Lines(it: Item): seq<string> { it.block + it.blanks }

  /** Everything up to the first camera, the cameras, and from the file's last header on when that is no camera. */
  datatype Doc = Doc(prefix: seq<string>, items: seq<Item>, tail: seq<string>)

  function Flat(items: seq<Item>): (ls: seq<string>)
    decreases |items|
  {
    if items == [] then [] else Lines(items[0]) + Flat(items[1..])
  }

  function AllLines(d: Doc): seq<string> { d.prefix + Flat(d.items) + d.tail }

  predicate GoodBlock(block: seq<string>) {
    && block != [] && IsHeader(block[0]) && IsCamera(block[0])
    && NoCamera(Outside, block[1..])
    && (|block| == 1 || !IsBlank(block[|block| - 1]))
  }

  predicate Plain(block: seq<string>)
    requires block != []
  {
    NoHeader(Outside, block[1..])
  }

  predicate GoodItem(it: Item) { GoodBlock(it.block) && AllBlank(it.blanks) }

  predicate GoodTail(tail: seq<string>) {
    tail == [] || (IsHeader(tail[0]) && !IsCamera(tail[0]) && NoHeader(Outside, tail[1..]))
  }

  predicate GoodPrefix(prefix: seq<string>) { NoCamera(Outside, prefix) && Through(Outside, prefix) == Outside }

  predicate GoodItems(items: seq<Item>) { forall k :: 0 <= k < |items| ==> GoodItem(items[k]) }

  /** The block leaves the scan outside strings. */
  predicate Closed(block: seq<string>)
    requires block != []
  {
    Through(Outside, block[1..]) == Outside
  }

  predicate AllClosed(items: seq<Item>) {
    forall k :: 0 <= k < |items| ==> items[k].block != [] && Closed(items[k].block)
  }

  /** Without a tail the last block is ended by no later header: it holds none, and it may end inside a string. */
  predicate GoodEnd(items: seq<Item>, tail: seq<string>)
    requires items != []
  {
    if tail != [] then AllClosed(items) else
    var last := items[|items| - 1].block;
    last != [] && Plain(last) && AllClosed(items[..|items| - 1])
  }

  predicate Good(d: Doc) {
    GoodPrefix(d.prefix) && GoodItems(d.items) && GoodTail(d.tail) && d.items != [] && GoodEnd(d.items, d.tail)
  }

  lemma GoodEndRest(items: seq<Item>, tail: seq<string>)
    requires |items| > 1 && GoodEnd(items, tail)
    ensures items[0].block != [] && Closed(items[0].block) && GoodEnd(items[1..], tail)
  {
    hide Through, NoHeader;
    var n := |items| - 1;
    if tail == [] {
      assert items[..n][0] == items[0];
      assert items[1..][..n - 1] == items[..n][1..];
    }
  }

  // What the scan finds

  lemma HeaderStaysOutside(line: string)
    requires IsHeader(line)
    ensures After(Outside, line) == Outside
  {
  }

  /** Over lines without a camera: the last span's end may move, to the last header there. */
  lemma {:induction false} ScanOver(lines: seq<string>, i: nat, j: nat, q: Quote, spans: seq<Span>, sp: Span)
      returns (e: nat)
    requires i <= j <= |lines| && NoCamera(q, lines[i..j])
    ensures Scan(lines, i, q, spans + [sp]) == Scan(lines, j, Through(q, lines[i..j]), spans + [sp.(end := e)])
    ensures NoHeader(q, lines[i..j]) ==> e == sp.end
    decreases j - i
  {
    hide After, IsHeader, IsCamera;
    if i == j {
      e := sp.end;
    } else {
      var l := lines[i];
      assert lines[i..j][0] == l && lines[i..j][1..] == lines[i + 1..j];
      if Heads(q, l) {
        assert AtLine(lines, i, q, spans + [sp]) == spans + [sp.(end := i)];
        e := ScanOver(lines, i + 1, j, After(q, l), spans, sp.(end := i));
      } else {
        e := ScanOver(lines, i + 1, j, After(q, l), spans, sp);
      }
    }
  }

  lemma {:induction false} ScanPrefix(lines: seq<string>, i: nat, j: nat, q: Quote)
    requires i <= j <= |lines| && NoCamera(q, lines[i..j])
    ensures Scan(lines, i, q, []) == Scan(lines, j, Through(q, lines[i..j]), [])
    decreases j - i
  {
    hide After, IsHeader, IsCamera;
    if i < j {
      assert lines[i..j][0] == lines[i] && lines[i..j][1..] == lines[i + 1..j];
      ScanPrefix(lines, i + 1, j, After(q, lines[i]));
    }
  }

  /** The spans before trimming: each block up to the next. */
  function Raw(items: seq<Item>, o: nat): (r: seq<Span>)
    ensures |r| == |items|
    decreases |items|
  {
    if items == [] then [] else
    [Span(o, o + |Lines(items[0])|)] + Raw(items[1..], o + |Lines(items[0])|)
  }

  /** One camera: its header opens a span and the rest leaves it the last. */
  lemma {:induction false} ScanItem(lines: seq<string>, o: nat, it: Item, spans: seq<Span>) returns (e: nat)
    requires GoodItem(it) && o + |Lines(it)| <= |lines| && lines[o..o + |Lines(it)|] == Lines(it)
    ensures Scan(lines, o, Outside, spans)
         == Scan(lines, o + |Lines(it)|, Through(Outside, it.block[1..]), CloseLast(spans, o) + [Span(o, e)])
    ensures Plain(it.block) ==> e == |lines|
  {
    hide IsHeader, IsCamera, After, CloseLast, Through, NoCamera, NoHeader, IsBlank;
    var all := Lines(it);
    var rest := it.block[1..] + it.blanks;
    ItemHead(lines, o, it);
    HeaderStaysOutside(lines[o]);
    RunAppend(Outside, it.block[1..], it.blanks);
    var q := Through(Outside, it.block[1..]);
    BlanksAreNothing(q, it.blanks);
    NoHeaderNoCamera(q, it.blanks);
    e := ScanOver(lines, o + 1, o + |all|, Outside, CloseLast(spans, o), Span(o, |lines|));
  }

  lemma ItemHead(lines: seq<string>, o: nat, it: Item)
    requires it.block != [] && o + |Lines(it)| <= |lines| && lines[o..o + |Lines(it)|] == Lines(it)
    ensures lines[o] == it.block[0] && lines[o + 1..o + |Lines(it)|] == it.block[1..] + it.blanks
  {
    var all := Lines(it);
    assert all[0] == it.block[0] && all[1..] == it.block[1..] + it.blanks;
    assert lines[o..o + |all|][0] == lines[o] && lines[o..o + |all|][1..] == lines[o + 1..o + |all|];
  }

  lemma CloseOne(spans: seq<Span>, sp: Span, i: nat)
    ensures CloseLast(spans + [sp], i) == spans + [sp.(end := i)]
  {
  }

  /** The first camera's lines, and what is left. */
  lemma FlatCut(lines: seq<string>, o: nat, items: seq<Item>, tail: seq<string>)
    requires o <= |lines| && lines[o..] == Flat(items) + tail && items != []
    ensures var n := |Lines(items[0])|;
            && o + n <= |lines| && lines[o..o + n] == Lines(items[0])
            && lines[o + n..] == Flat(items[1..]) + tail
            && |Raw(items, o)| == |items|
  {
    hide Lines;
    FlatCons(items);
    Regrouped(Lines(items[0]), Flat(items[1..]), tail);
    hide Flat;
    SliceCut(lines, o, Lines(items[0]), Flat(items[1..]) + tail);
  }

  lemma Regrouped(a: seq<string>, b: seq<string>, c: seq<string>)
    ensures (a + b) + c == a + (b + c)
  {
  }

  lemma SliceCut(lines: seq<string>, o: nat, a: seq<string>, rest: seq<string>)
    requires o <= |lines| && lines[o..] == a + rest
    ensures o + |a| <= |lines| && lines[o..o + |a|] == a && lines[o + |a|..] == rest
  {
    assert lines[o..o + |a|] == lines[o..][..|a|];
    assert lines[o + |a|..] == lines[o..][|a|..];
  }

  lemma FlatNone(tail: seq<string>)
    ensures Flat([]) + tail == tail
  {
  }

  lemma {:induction false} ScanItems(lines: seq<string>, o: nat, items: seq<Item>, tail: seq<string>, spans: seq<Span>)
    requires o <= |lines| && lines[o..] == Flat(items) + tail
    requires items != [] && GoodItems(items) && GoodTail(tail) && GoodEnd(items, tail)
    ensures Scan(lines, o, Outside, spans) == CloseLast(spans, o) + Raw(items, o)
    decreases |items|
  {
    hide IsHeader, IsCamera, After, CloseLast, Through, NoCamera, NoHeader, Scan, Lines, GoodItem, Plain, Flat,
      GoodTail, GoodEnd;
    if |items| == 1 {
      ScanOne(lines, o, items, tail, spans);
    } else {
      var n, found := |Lines(items[0])|, CloseLast(spans, o);
      FlatCut(lines, o, items, tail);
      var e := ScanItem(lines, o, items[0], spans);
      GoodEndRest(items, tail);
      assert GoodItems(items[1..]);
      ScanItems(lines, o + n, items[1..], tail, found + [Span(o, e)]);
      CloseOne(found, Span(o, e), o + n);
      assert found + [Span(o, o + n)] + Raw(items[1..], o + n) == found + Raw(items, o);
    }
  }

  /** The last camera, up to the tail or to the end. */
  lemma {:induction false} ScanOne(lines: seq<string>, o: nat, items: seq<Item>, tail: seq<string>, spans: seq<Span>)
    requires o <= |lines| && lines[o..] == Flat(items) + tail
    requires |items| == 1 && GoodItems(items) && GoodTail(tail) && GoodEnd(items, tail)
    ensures Scan(lines, o, Outside, spans) == CloseLast(spans, o) + Raw(items, o)
  {
    hide IsHeader, IsCamera, After, CloseLast, Through, NoCamera, NoHeader, Scan, Lines, GoodItem, Plain, Flat,
      GoodTail, GoodEnd;
    FlatCut(lines, o, items, tail);
    RestIsTail(items, tail);
    OneGoodEnd(items, tail);
    hide Flat;
    ScanLastItem(lines, o, items[0], tail, spans);
    OneRaw(items, o);
  }

  lemma {:induction false} ScanLastItem(lines: seq<string>, o: nat, it: Item, tail: seq<string>, spans: seq<Span>)
    requires GoodItem(it) && o + |Lines(it)| <= |lines| && lines[o..o + |Lines(it)|] == Lines(it)
    requires lines[o + |Lines(it)|..] == tail && GoodTail(tail) && it.block != []
    requires if tail == [] then Plain(it.block) else Closed(it.block)
    ensures Scan(lines, o, Outside, spans) == CloseLast(spans, o) + [Span(o, o + |Lines(it)|)]
  {
    hide CloseLast, Through, NoHeader, Scan, Lines, GoodItem, GoodTail;
    var e := ScanItem(lines, o, it, spans);
    ScanRest(lines, o + |Lines(it)|, Through(Outside, it.block[1..]), tail, CloseLast(spans, o), Span(o, e));
  }

  lemma RestIsTail(items: seq<Item>, tail: seq<string>)
    requires |items| == 1
    ensures Flat(items[1..]) + tail == tail
  {
    assert items[1..] == [];
    FlatNone(tail);
  }

  lemma ScanRest(lines: seq<string>, i: nat, q: Quote, tail: seq<string>, spans: seq<Span>, sp: Span)
    requires i <= |lines| && lines[i..] == tail && GoodTail(tail)
    requires if tail == [] then sp.end == |lines| else q == Outside
    ensures Scan(lines, i, q, spans + [sp]) == spans + [sp.(end := i)]
  {
    hide IsHeader, IsCamera, Scan, GoodTail;
    if tail == [] {
      assert i == |lines|;
      ScanEnd(lines, i, q, spans + [sp]);
    } else {
      ScanTail(lines, i, spans, sp);
    }
  }

  lemma OneRaw(items: seq<Item>, o: nat)
    requires |items| == 1
    ensures Raw(items, o) == [Span(o, o + |Lines(items[0])|)]
  {
    assert items[1..] == [];
  }

  lemma OneGoodEnd(items: seq<Item>, tail: seq<string>)
    requires |items| == 1 && GoodEnd(items, tail)
    ensures items[0].block != [] && (if tail == [] then Plain(items[0].block) else Closed(items[0].block))
  {
    hide Through, NoHeader;
  }

  lemma ScanEnd(lines: seq<string>, i: nat, q: Quote, spans: seq<Span>)
    requires i == |lines|
    ensures Scan(lines, i, q, spans) == spans
  {
  }

  lemma TailSlices(lines: seq<string>, i: nat)
    requires i < |lines|
    ensures lines[i..] != [] && lines[i..][0] == lines[i] && lines[i..][1..] == lines[i + 1..]
    ensures lines[i + 1..|lines|] == lines[i + 1..]
  {
  }

  lemma ScanTail(lines: seq<string>, i: nat, spans: seq<Span>, sp: Span)
    requires i <= |lines| && GoodTail(lines[i..]) && (lines[i..] == [] ==> sp.end == |lines|)
    ensures Scan(lines, i, Outside, spans + [sp]) == spans + [sp.(end := i)]
  {
    hide IsHeader, IsCamera, After, Through;
    if i < |lines| {
      TailSlices(lines, i);
      HeaderStaysOutside(lines[i]);
      CloseOne(spans, sp, i);
      assert AtLine(lines, i, Outside, spans + [sp]) == spans + [sp.(end := i)];
      NoHeaderNoCamera(Outside, lines[i + 1..]);
      var e := ScanOver(lines, i + 1, |lines|, Outside, spans, sp.(end := i));
    } else {
      assert lines[i..] == [];
    }
  }

  /** A good file's blocks, before trimming, are its cameras. */
  lemma SpansOfDoc(d: Doc)
    requires Good(d)
    ensures Spans(AllLines(d)) == Raw(d.items, |d.prefix|)
  {
    hide IsHeader, IsCamera, Through, NoCamera, NoHeader, Scan, GoodItems, Plain;
    var lines, o := AllLines(d), |d.prefix|;
    assert lines[0..o] == d.prefix;
    assert lines[o..] == Flat(d.items) + d.tail;
    ScanPrefix(lines, 0, o, Outside);
    ScanItems(lines, o, d.items, d.tail, []);
    assert CloseLast([], o) + Raw(d.items, o) == Raw(d.items, o);
  }

  // Trimming and names

  function Blocks(items: seq<Item>, o: nat): (r: seq<Span>)
    ensures |r| == |items|
    decreases |items|
  {
    if items == [] then [] else
    [Span(o, o + |items[0].block|)] + Blocks(items[1..], o + |Lines(items[0])|)
  }

  lemma {:induction false} TrimItem(lines: seq<string>, o: nat, it: Item, end: nat)
    requires GoodItem(it) && o + |Lines(it)| <= |lines| && lines[o..o + |Lines(it)|] == Lines(it)
    requires o + |it.block| <= end <= o + |Lines(it)|
    ensures Trimmed(lines, Span(o, end)) == Span(o, o + |it.block|)
    decreases end
  {
    hide IsBlank, NoCamera, Through, IsCamera, IsHeader;
    var all := Lines(it);
    if end > o + |it.block| {
      assert lines[end - 1] == all[end - 1 - o] == it.blanks[end - 1 - o - |it.block|];
      TrimItem(lines, o, it, end - 1);
    } else if |it.block| > 1 {
      assert lines[end - 1] == all[end - 1 - o] == it.block[|it.block| - 1];
    }
  }

  /** names are the cameras' names, in the order of the file. */
  predicate Named(nameOf: NameOf, items: seq<Item>, names: seq<string>) {
    |names| == |items| && forall k :: 0 <= k < |items| ==> nameOf(Join(items[k].block)) == Some(names[k])
  }

  lemma {:induction false} FindItem(nameOf: NameOf, lines: seq<string>, o: nat, items: seq<Item>, tail: seq<string>,
                                    names: seq<string>, k: nat)
    requires o <= |lines| && lines[o..] == Flat(items) + tail && GoodItems(items)
    requires Named(nameOf, items, names) && Distinct(names) && k < |names|
    requires InOrder(Raw(items, o), |lines|)
    ensures FindIn(nameOf, lines, Raw(items, o), names[k]) == Some(Blocks(items, o)[k])
    decreases |items|
  {
    hide GoodBlock, AllBlank, Trimmed, Join, InOrder, Flat, Lines;
    var it := items[0];
    var n := |Lines(it)|;
    FlatCut(lines, o, items, tail);
    BlockFirst(lines, o, it);
    TrimItem(lines, o, it, o + n);
    var raw := Raw(items, o);
    OrderRest(raw, |lines|);
    assert raw[1..] == Raw(items[1..], o + n);
    if k > 0 {
      FindItem(nameOf, lines, o + n, items[1..], tail, names[1..], k - 1);
    }
  }

  lemma BlockFirst(lines: seq<string>, o: nat, it: Item)
    requires o + |Lines(it)| <= |lines| && lines[o..o + |Lines(it)|] == Lines(it)
    ensures |it.block| <= |Lines(it)| && lines[o..o + |it.block|] == it.block
  {
    assert lines[o..o + |Lines(it)|][..|it.block|] == it.block;
  }

  lemma OrderRest(spans: seq<Span>, n: nat)
    requires spans != [] && InOrder(spans, n)
    ensures InOrder(spans[1..], n) && spans[0].start < spans[0].end <= n
  {
  }

  lemma FindInDoc(nameOf: NameOf, d: Doc, names: seq<string>)
    requires Good(d) && Named(nameOf, d.items, names) && Distinct(names)
    ensures FindAll(nameOf, AllLines(d), names) == Some(Blocks(d.items, |d.prefix|))
  {
    hide Scan, FindIn, Join, GoodItem, Plain, GoodTail, GoodPrefix;
    var lines, o := AllLines(d), |d.prefix|;
    SpansOfDoc(d);
    ScanInOrder(lines, 0, Outside, []);
    assert lines[o..] == Flat(d.items) + d.tail;
    forall k | 0 <= k < |names|
      ensures Find(nameOf, lines, names[k]) == Some(Blocks(d.items, o)[k])
    {
      FindItem(nameOf, lines, o, d.items, d.tail, names, k);
    }
    FoundAre(nameOf, lines, names, Blocks(d.items, o));
  }

  lemma FoundAre(nameOf: NameOf, lines: seq<string>, names: seq<string>, spans: seq<Span>)
    requires |spans| == |names| && forall k :: 0 <= k < |names| ==> Find(nameOf, lines, names[k]) == Some(spans[k])
    ensures FindAll(nameOf, lines, names) == Some(spans)
  {
    hide Find, FindAll;
    FindAllAt(nameOf, lines, names);
    forall n | n in names
      ensures Find(nameOf, lines, n).Some?
    {
      var k :| 0 <= k < |names| && names[k] == n;
    }
    assert FindAll(nameOf, lines, names).value == spans;
  }

  lemma {:induction false} BlocksRise(items: seq<Item>, o: nat)
    requires GoodItems(items)
    ensures Rising(Blocks(items, o)) && forall sp :: sp in Blocks(items, o) ==> sp.start >= o
    decreases |items|
  {
    hide GoodItem, Lines;
    if items != [] {
      assert GoodItems(items[1..]);
      assert |Lines(items[0])| > 0 by { ItemSome(items[0]); }
      var rest := Blocks(items[1..], o + |Lines(items[0])|);
      BlocksRise(items[1..], o + |Lines(items[0])|);
      var first := Span(o, o + |items[0].block|);
      assert Blocks(items, o) == [first] + rest;
      assert forall k :: 0 <= k < |rest| ==> rest[k] in rest;
    }
  }

  lemma ItemSome(it: Item)
    requires GoodItem(it)
    ensures Lines(it) != []
  {
  }

  lemma BlockSome(block: seq<string>)
    requires GoodBlock(block)
    ensures block != []
  {
  }

  // Reordering a good file

  /** The block of the camera of that name. */
  function BlockNamed(items: seq<Item>, names: seq<string>, n: string): seq<string>
    requires |names| == |items|
    decreases |items|
  {
    if items == [] then [] else if names[0] == n then items[0].block else BlockNamed(items[1..], names[1..], n)
  }

  lemma {:induction false} BlockNamedAt(items: seq<Item>, names: seq<string>, k: nat)
    requires |names| == |items| && Distinct(names) && k < |names|
    ensures BlockNamed(items, names, names[k]) == items[k].block
    decreases |items|
  {
    if k > 0 {
      BlockNamedAt(items[1..], names[1..], k - 1);
    }
  }

  /** The same file with its blocks in another order, each slot keeping its blank lines. */
  function Arranged(items: seq<Item>, names: seq<string>, want: seq<string>): (r: seq<Item>)
    requires |names| == |items| == |want|
    ensures |r| == |items|
  {
    seq(|items|, k requires 0 <= k < |items| => Item(BlockNamed(items, names, want[k]), items[k].blanks))
  }

  function WithBlocks(items: seq<Item>, bodies: seq<seq<string>>): (r: seq<Item>)
    requires |bodies| == |items|
    ensures |r| == |items|
  {
    seq(|items|, k requires 0 <= k < |items| => Item(bodies[k], items[k].blanks))
  }

  lemma {:induction false} WeaveItems(lines: seq<string>, prev: nat, o: nat, items: seq<Item>, tail: seq<string>,
                                      bodies: seq<seq<string>>)
    requires prev <= o <= |lines| && lines[o..] == Flat(items) + tail && |bodies| == |items|
    requires Slots(Blocks(items, o), prev, |lines|)
    ensures Weave(lines, prev, Blocks(items, o), bodies) == lines[prev..o] + Flat(WithBlocks(items, bodies)) + tail
    decreases |items|
  {
    hide Lines, Flat, Weave, Slots, WithBlocks, Blocks;
    var slots := Blocks(items, o);
    if items == [] {
      WeaveEnds(lines, prev, o, tail, bodies);
    } else {
      var it, n := items[0], |Lines(items[0])|;
      FlatCut(lines, o, items, tail);
      WeaveStep(lines, prev, o, items, bodies);
      BlanksAre(lines, o, it);
      WeaveItems(lines, o + |it.block|, o + n, items[1..], tail, bodies[1..]);
      WithBlocksCons(items, bodies);
      Grouped(lines[prev..o], bodies[0], it.blanks, Flat(WithBlocks(items[1..], bodies[1..])), tail);
    }
  }

  lemma WeaveNone(lines: seq<string>, prev: nat, slots: seq<Span>, bodies: seq<seq<string>>)
    requires slots == [] && bodies == [] && prev <= |lines|
    ensures Slots(slots, prev, |lines|) && Weave(lines, prev, slots, bodies) == lines[prev..]
  {
  }

  lemma WeaveEnds(lines: seq<string>, prev: nat, o: nat, tail: seq<string>, bodies: seq<seq<string>>)
    requires prev <= o <= |lines| && lines[o..] == Flat([]) + tail && bodies == []
    ensures Weave(lines, prev, Blocks([], o), bodies) == lines[prev..o] + Flat(WithBlocks([], bodies)) + tail
  {
    hide Flat, Weave;
    FlatNone(tail);
    WeaveNone(lines, prev, Blocks([], o), bodies);
    assert WithBlocks([], bodies) == [];
    assert lines[prev..] == lines[prev..o] + lines[o..];
    assert lines[prev..o] + Flat([]) + tail == lines[prev..o] + (Flat([]) + tail);
  }

  lemma WeaveStep(lines: seq<string>, prev: nat, o: nat, items: seq<Item>, bodies: seq<seq<string>>)
    requires items != [] && |bodies| == |items| && prev <= o <= |lines| && Slots(Blocks(items, o), prev, |lines|)
    ensures var end, next := o + |items[0].block|, Blocks(items[1..], o + |Lines(items[0])|);
            && end <= |lines| && Slots(next, end, |lines|)
            && Weave(lines, prev, Blocks(items, o), bodies)
               == lines[prev..o] + bodies[0] + Weave(lines, end, next, bodies[1..])
  {
    hide Lines;
    SlotsRest(Blocks(items, o), prev, |lines|);
    assert Blocks(items, o)[1..] == Blocks(items[1..], o + |Lines(items[0])|);
  }

  lemma WithBlocksCons(items: seq<Item>, bodies: seq<seq<string>>)
    requires items != [] && |bodies| == |items|
    ensures Flat(WithBlocks(items, bodies))
         == bodies[0] + items[0].blanks + Flat(WithBlocks(items[1..], bodies[1..]))
  {
    hide Flat;
    FlatCons(WithBlocks(items, bodies));
    assert WithBlocks(items, bodies)[1..] == WithBlocks(items[1..], bodies[1..]);
  }

  lemma Grouped(a: seq<string>, b: seq<string>, c: seq<string>, d: seq<string>, e: seq<string>)
    ensures a + b + (c + d + e) == a + (b + c + d) + e
  {
  }

  lemma FlatCons(items: seq<Item>)
    requires items != []
    ensures Flat(items) == items[0].block + items[0].blanks + Flat(items[1..])
  {
  }

  lemma SlotsRest(slots: seq<Span>, prev: nat, n: nat)
    requires slots != [] && Slots(slots, prev, n)
    ensures Slots(slots[1..], slots[0].end, n) && prev <= slots[0].start < slots[0].end <= n
  {
  }

  lemma BlanksAre(lines: seq<string>, o: nat, it: Item)
    requires o + |Lines(it)| <= |lines| && lines[o..o + |Lines(it)|] == Lines(it)
    ensures lines[o + |it.block|..o + |Lines(it)|] == it.blanks && |it.block| <= |Lines(it)|
  {
    var all := Lines(it);
    assert lines[o + |it.block|..o + |all|] == lines[o..o + |all|][|it.block|..] == all[|it.block|..];
  }

  predicate NoLineEnds(ls: seq<string>) { forall l :: l in ls ==> '\n' !in l }

  /** Reordering a good file puts each named block in its slot and touches nothing else. */
  lemma ReorderDoc(nameOf: NameOf, d: Doc, names: seq<string>, order: seq<string>)
    requires Good(d) && Named(nameOf, d.items, names) && Distinct(names) && NoLineEnds(AllLines(d))
    ensures |Want(names, order)| == |names|
    ensures Reorder(nameOf, Join(AllLines(d)), names, order)
         == (Join(AllLines(d.(items := Arranged(d.items, names, Want(names, order))))), true)
  {
    hide FindAll, Find, Want, Join, Split, Weave, Good, SortSpans, Blocks, Flat, WithBlocks;
    var lines, o, want := AllLines(d), |d.prefix|, Want(names, order);
    WantIsPermutation(names, order);
    Rearranged(names, want);
    FindInDoc(nameOf, d, names);
    assert GoodItems(d.items) by { GoodHas(d); }
    BlocksRise(d.items, o);
    SortedStays(Blocks(d.items, o));
    assert lines != [] by { SomeLines(d); }
    SplitJoin(lines);
    FoundSlots(nameOf, lines, names);
    assert lines[o..] == Flat(d.items) + d.tail && lines[0..o] == d.prefix;
    var bodies := Bodies(nameOf, lines, want);
    WeaveItems(lines, 0, o, d.items, d.tail, bodies);
    forall k | 0 <= k < |want|
      ensures bodies[k] == BlockNamed(d.items, names, want[k])
    {
      BodyIsBlock(nameOf, d, names, want[k]);
    }
    assert WithBlocks(d.items, bodies) == Arranged(d.items, names, want) by { SameItems(d.items, bodies, names, want); }
    RearrangeLines(nameOf, lines, names, order);
  }

  lemma SameItems(items: seq<Item>, bodies: seq<seq<string>>, names: seq<string>, want: seq<string>)
    requires |bodies| == |items| == |names| == |want|
    requires forall k :: 0 <= k < |want| ==> bodies[k] == BlockNamed(items, names, want[k])
    ensures WithBlocks(items, bodies) == Arranged(items, names, want)
  {
  }

  lemma GoodHas(d: Doc)
    requires Good(d)
    ensures GoodItems(d.items) && d.items != []
  {
  }

  lemma SomeLines(d: Doc)
    requires Good(d)
    ensures AllLines(d) != []
  {
    assert GoodItem(d.items[0]);
    FlatCons(d.items);
  }

  lemma BodyIsBlock(nameOf: NameOf, d: Doc, names: seq<string>, n: string)
    requires Good(d) && Named(nameOf, d.items, names) && Distinct(names) && n in names
    ensures BodyOf(nameOf, AllLines(d), n) == BlockNamed(d.items, names, n)
  {
    hide Find, FindAll, Good, Named, Join, Body;
    var lines, o := AllLines(d), |d.prefix|;
    var k :| 0 <= k < |names| && names[k] == n;
    FindInDoc(nameOf, d, names);
    FindAllAt(nameOf, lines, names);
    NamedLength(nameOf, d.items, names);
    BlockNamedAt(d.items, names, k);
    assert lines[o..] == Flat(d.items) + d.tail;
    BlockAt(lines, o, d.items, d.tail, k);
  }

  lemma NamedLength(nameOf: NameOf, items: seq<Item>, names: seq<string>)
    requires Named(nameOf, items, names)
    ensures |items| == |names|
  {
  }

  lemma {:induction false} BlockAt(lines: seq<string>, o: nat, items: seq<Item>, tail: seq<string>, k: nat)
    requires o <= |lines| && lines[o..] == Flat(items) + tail && k < |items|
    ensures BodyLines(lines, Blocks(items, o)[k]) == items[k].block
    decreases |items|
  {
    FlatCut(lines, o, items, tail);
    var n := |Lines(items[0])|;
    if k == 0 {
      var b := items[0].block;
      assert lines[o..o + |b|] == lines[o..o + n][..|b|] == b;
    } else {
      BlockAt(lines, o + n, items[1..], tail, k - 1);
    }
  }

  /** A table ends the file, or no block holds one. */
  predicate Undoable(d: Doc) { d.tail != [] || forall it :: it in d.items ==> it.block != [] && Plain(it.block) }

  lemma {:induction false} BlockNamedIn(items: seq<Item>, names: seq<string>, n: string)
    requires |names| == |items| && n in names
    ensures exists it :: it in items && it.block == BlockNamed(items, names, n)
    decreases |items|
  {
    if names[0] == n {
      assert items[0] in items;
    } else {
      BlockNamedIn(items[1..], names[1..], n);
      var it :| it in items[1..] && it.block == BlockNamed(items[1..], names[1..], n);
      assert it in items;
    }
  }

  /** A table ends the file, or camera k, put last, holds none, and no other ends inside a string. */
  predicate CanEnd(d: Doc, k: nat)
    requires k < |d.items|
  {
    d.tail != []
    || (d.items[k].block != [] && Plain(d.items[k].block) && (k == |d.items| - 1 || AllClosed(d.items)))
  }

  lemma ArrangedStaysGood(nameOf: NameOf, d: Doc, names: seq<string>, want: seq<string>, last: nat)
    requires Good(d) && Named(nameOf, d.items, names) && |want| == |names| == |d.items| && Distinct(want)
    requires Distinct(names) && forall n :: n in want ==> n in names
    requires last < |d.items| && want[|want| - 1] == names[last] && CanEnd(d, last)
    ensures var d' := d.(items := Arranged(d.items, names, want)); Good(d') && Named(nameOf, d'.items, want)
  {
    hide GoodBlock, AllBlank, GoodPrefix, GoodTail, NoHeader, Join, BlockNamed, Through, CanEnd, Plain, GoodEnd;
    var items := Arranged(d.items, names, want);
    forall k | 0 <= k < |items|
      ensures GoodItem(items[k])
      ensures nameOf(Join(items[k].block)) == Some(want[k])
      ensures items[k].block != [] && (d.tail != [] || k < |items| - 1 ==> Closed(items[k].block))
      ensures d.tail == [] && k == |items| - 1 ==> Plain(items[k].block)
    {
      assert want[k] in want;
      var i :| 0 <= i < |names| && names[i] == want[k];
      BlockNamedAt(d.items, names, i);
      assert GoodItem(d.items[i]) && GoodItem(d.items[k]);
      BlockSome(d.items[i].block);
      ClosedBut(d, last, i);
    }
    EndIs(items, d.tail);
  }

  /** All blocks are closed but perhaps the one that can be put last. */
  lemma ClosedBut(d: Doc, last: nat, i: nat)
    requires d.items != [] && GoodEnd(d.items, d.tail) && last < |d.items| && CanEnd(d, last) && i < |d.items|
    requires d.items[i].block != []
    ensures d.tail != [] || i != last ==> Closed(d.items[i].block)
    ensures d.tail == [] && i == last ==> Plain(d.items[i].block)
  {
    hide Through, NoHeader;
    var n := |d.items|;
    if d.tail == [] && i < n - 1 {
      assert d.items[..n - 1][i] == d.items[i];
    }
  }

  lemma EndIs(items: seq<Item>, tail: seq<string>)
    requires items != [] && forall k :: 0 <= k < |items| ==> items[k].block != []
    requires forall k :: 0 <= k < |items| && (tail != [] || k < |items| - 1) ==> Closed(items[k].block)
    requires tail == [] ==> Plain(items[|items| - 1].block)
    ensures GoodEnd(items, tail)
  {
    hide Through, NoHeader;
  }

  lemma ArrangedBack(items: seq<Item>, names: seq<string>, want: seq<string>)
    requires |names| == |items| == |want| && Distinct(names) && Distinct(want)
    requires forall n :: n in want <==> n in names
    ensures Arranged(Arranged(items, names, want), want, names) == items
  {
    hide BlockNamed;
    var there := Arranged(items, names, want);
    forall k | 0 <= k < |items|
      ensures Arranged(there, want, names)[k] == items[k]
    {
      assert names[k] in want;
      var i :| 0 <= i < |want| && want[i] == names[k];
      BlockNamedAt(there, want, i);
      BlockNamedAt(items, names, k);
    }
  }

  lemma {:induction false} ArrangedLines(items: seq<Item>)
    ensures forall l :: l in Flat(items) <==> exists it :: it in items && l in Lines(it)
    decreases |items|
  {
    hide Lines;
    if items != [] {
      ArrangedLines(items[1..]);
      assert forall it :: it in items <==> it == items[0] || it in items[1..];
    }
  }

  lemma ArrangedNoLineEnds(d: Doc, names: seq<string>, want: seq<string>)
    requires |names| == |d.items| == |want| && NoLineEnds(AllLines(d)) && forall n :: n in want ==> n in names
    ensures NoLineEnds(AllLines(d.(items := Arranged(d.items, names, want))))
  {
    hide BlockNamed, Flat;
    var items := Arranged(d.items, names, want);
    ArrangedLines(items);
    ArrangedLines(d.items);
    forall l | l in Flat(items)
      ensures '\n' !in l
    {
      var it :| it in items && l in Lines(it);
      var k :| 0 <= k < |items| && items[k] == it;
      BlockNamedIn(d.items, names, want[k]);
      var from :| from in d.items && from.block == it.block;
      if l in it.blanks {
        assert l in Lines(d.items[k]) && d.items[k] in d.items;
      } else {
        assert l in Lines(from);
      }
      assert l in Flat(d.items) && l in AllLines(d);
    }
  }

  /** Reordering back restores every line, when the camera put last can end the file. */
  lemma UndoneInDoc(nameOf: NameOf, d: Doc, names: seq<string>, order: seq<string>, k: nat)
    requires Good(d) && Named(nameOf, d.items, names) && Distinct(names) && NoLineEnds(AllLines(d))
    requires k < |names| == |d.items| && Want(names, order) != []
    requires Want(names, order)[|Want(names, order)| - 1] == names[k] && CanEnd(d, k)
    ensures var want := Want(names, order);
            var there := Reorder(nameOf, Join(AllLines(d)), names, order);
            && Distinct(want) && there.1
            && Reorder(nameOf, there.0, want, names) == (Join(AllLines(d)), true)
  {
    hide Good, CanEnd, Named, Want, Reorder, Join, Arranged, BlockNamed;
    var want := Want(names, order);
    WantIsPermutation(names, order);
    Rearranged(names, want);
    NamedLength(nameOf, d.items, names);
    ReorderDoc(nameOf, d, names, order);
    ArrangedStaysGood(nameOf, d, names, want, k);
    ArrangedNoLineEnds(d, names, want);
    var d' := d.(items := Arranged(d.items, names, want));
    ReorderDoc(nameOf, d', want, names);
    WantWholeOrder(want, names);
    ArrangedBack(d.items, names, want);
    assert d'.(items := Arranged(d'.items, want, names)) == d;
  }
}
