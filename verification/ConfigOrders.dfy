/** Reordering back: exactly when it restores the config text, for one order and for all. */
module ConfigOrders {
  import opened Lists
  import opened Text
  import opened Wrappers
  import opened ConfigScan
  import opened ConfigBlocks
  import opened ConfigLayout
  import opened ConfigUndo
  import opened ConfigEdit

  /** No table stands below the camera of that name, before the next camera or the end. */
  predicate NoTableBelow(nameOf: NameOf, lines: seq<string>, name: string) {
    var sp := Find(nameOf, lines, name);
    sp.Some? && sp.value.start < sp.value.end <= |lines|
    && NoHeader(Outside, lines[sp.value.start + 1..sp.value.end])
  }

  lemma NoTableBelowIff(nameOf: NameOf, d: Doc, current: seq<string>, k: nat)
    requires Good(d) && Named(nameOf, d.items, current) && Distinct(current) && NoLineEnds(AllLines(d))
    requires k < |current| && k < |d.items|
    ensures d.items[k].block != [] && (NoTableBelow(nameOf, AllLines(d), current[k]) <==> Plain(d.items[k].block))
  {
    hide Named, Join, Find, Split, Flat, Behind, Before, NoHeader, AllLines, GoodPrefix, GoodTail, Blocks, GoodBlock,
      IsBlank, Distinct, NoLineEnds;
    CameraAt(nameOf, d, current, k);
    LinesAround(d, k);
    BlockPlace(d.items, |d.prefix|, k);
    BeforeLength(d, k);
    assert GoodItem(d.items[k]);
    BlockSome(d.items[k].block);
    var lines, sp, block := AllLines(d), Blocks(d.items, |d.prefix|)[k], d.items[k].block;
    assert sp == Span(|Before(d, k)|, |Before(d, k)| + |block|);
    assert lines[sp.start + 1..sp.end] == block[1..];
  }

  /** A file taken apart has a tail exactly when its last header is a table's. */
  lemma TailIff(d: Doc)
    requires Good(d)
    ensures d.tail != [] <==> TableLast(Headers(Outside, AllLines(d)))
  {
    hide Headers, AllLines, GoodPrefix, GoodTail, GoodItems, ItemHeaders, Plain;
    GoodHas(d);
    GoodBlocksSome(d.items);
    DocHeaders(d);
    var hp, hi, ht := Headers(Outside, d.prefix), ItemHeaders(d.items), Headers(Outside, d.tail);
    if d.tail == [] {
      LastIsCamera(d.items);
      assert hp + hi + ht == hp + hi;
      assert (hp + hi)[|hp + hi| - 1] == hi[|hi| - 1];
    }
  }

  /** Without a tail the file leaves the scan where its last block does. */
  lemma ThroughDoc(d: Doc)
    requires Good(d) && d.tail == []
    ensures d.items[|d.items| - 1].block != []
    ensures Through(Outside, AllLines(d)) == Through(Outside, d.items[|d.items| - 1].block[1..])
    ensures AllClosed(d.items) <==> Through(Outside, AllLines(d)) == Outside
  {
    hide Headers, GoodItems, ItemHeaders, Plain, Through, NoCamera, NoHeader, Flat;
    GoodHas(d);
    GoodBlocksSome(d.items);
    HeadersOfItems(d.items, d.tail);
    RunAppend(Outside, d.prefix, Flat(d.items));
    assert AllLines(d) == d.prefix + Flat(d.items);
    var n := |d.items|;
    assert d.items[n - 1] in d.items;
    assert forall k :: 0 <= k < n - 1 ==> d.items[..n - 1][k] == d.items[k];
  }

  /** The camera that comes last in the order asked for. */
  lemma AskedLast(names: seq<string>, order: seq<string>) returns (k: nat)
    requires Distinct(names) && names != []
    ensures k < |names| && Want(names, order) != []
    ensures Want(names, order)[|Want(names, order)| - 1] == names[k]
  {
    hide Want;
    var want := Want(names, order);
    WantIsPermutation(names, order);
    Rearranged(names, want);
    assert want[|want| - 1] in want;
    k :| 0 <= k < |names| && names[k] == want[|want| - 1];
  }

  // A last block that ends inside a string, put elsewhere

  /** The cameras' headers that the scan acts on. */
  function Cams(q: Quote, ls: seq<string>): nat
    decreases |ls|
  {
    if ls == [] then 0 else (if Heads(q, ls[0]) && IsCamera(ls[0]) then 1 else 0) + Cams(After(q, ls[0]), ls[1..])
  }

  lemma {:induction false} CamsAppend(q: Quote, a: seq<string>, b: seq<string>)
    ensures Cams(q, a + b) == Cams(q, a) + Cams(Through(q, a), b)
    decreases |a|
  {
    hide After, Heads, IsCamera;
    if a == [] {
      assert a + b == b;
    } else {
      assert (a + b)[0] == a[0] && (a + b)[1..] == a[1..] + b;
      CamsAppend(After(q, a[0]), a[1..], b);
    }
  }

  lemma {:induction false} NoCams(q: Quote, ls: seq<string>)
    ensures NoCamera(q, ls) <==> Cams(q, ls) == 0
    decreases |ls|
  {
    hide After, Heads, IsCamera;
    if ls != [] {
      NoCams(After(q, ls[0]), ls[1..]);
    }
  }

  lemma {:induction false} ScanCount(lines: seq<string>, i: nat, q: Quote, spans: seq<Span>)
    requires i <= |lines|
    ensures |Scan(lines, i, q, spans)| == |spans| + Cams(q, lines[i..])
    decreases |lines| - i
  {
    hide After, IsHeader, IsCamera;
    if i < |lines| {
      assert lines[i..][0] == lines[i] && lines[i..][1..] == lines[i + 1..];
      ScanCount(lines, i + 1, After(q, lines[i]), AtLine(lines, i, q, spans));
    }
  }

  lemma {:induction false} CamsOfItem(it: Item)
    requires GoodItem(it) && it.block != []
    ensures Cams(Outside, Lines(it)) == 1 && Through(Outside, Lines(it)) == Through(Outside, it.block[1..])
  {
    hide IsHeader, IsCamera, After, NoCamera, NoHeader, IsBlank;
    HeaderStaysOutside(it.block[0]);
    assert Lines(it)[0] == it.block[0] && Lines(it)[1..] == it.block[1..] + it.blanks;
    CamsAppend(Outside, it.block[1..], it.blanks);
    NoCams(Outside, it.block[1..]);
    var q := Through(Outside, it.block[1..]);
    BlanksAreNothing(q, it.blanks);
    NoHeaderNoCamera(q, it.blanks);
    NoCams(q, it.blanks);
    RunAppend(Outside, it.block[1..], it.blanks);
  }

  lemma {:induction false} CamsOfClosed(items: seq<Item>)
    requires GoodItems(items) && AllClosed(items)
    ensures Cams(Outside, Flat(items)) == |items| && Through(Outside, Flat(items)) == Outside
    decreases |items|
  {
    hide Lines, GoodItem, After, Through, Cams;
    if items == [] {
      NothingYet();
    } else {
      assert GoodItem(items[0]) && GoodItems(items[1..]) && Closed(items[0].block);
      assert AllClosed(items[1..]);
      CamsOfItem(items[0]);
      CamsOfClosed(items[1..]);
      CamsAppend(Outside, Lines(items[0]), Flat(items[1..]));
      RunAppend(Outside, Lines(items[0]), Flat(items[1..]));
    }
  }

  lemma NothingYet()
    ensures Cams(Outside, []) == 0 && Through(Outside, []) == Outside
  {
  }

  /** Inside a string that no line ends the scan sees nothing. */
  lemma {:induction false} StuckInside(q: Quote, ls: seq<string>)
    requires q != Outside && forall l :: l in ls ==> IsBlank(l) || !Odd(l, q)
    ensures Cams(q, ls) == 0
    decreases |ls|
  {
    hide Odd, IsHeader, IsCamera, IsBlank;
    if ls != [] {
      if IsBlank(ls[0]) {
        BlankIsNothing(q, ls[0]);
      }
      StuckInside(q, ls[1..]);
    }
  }

  /** With an open block before others the scan finds no more cameras than up to it. */
  lemma {:induction false} CamsUpTo(prefix: seq<string>, items: seq<Item>, i: nat)
    requires GoodPrefix(prefix) && GoodItems(items) && i < |items| && AllClosed(items[..i]) && items[i].block != []
    requires var q := Through(Outside, items[i].block[1..]);
             q != Outside && forall l :: l in Flat(items[i + 1..]) ==> IsBlank(l) || !Odd(l, q)
    ensures |Spans(prefix + Flat(items))| == i + 1
  {
    hide Lines, GoodItem, Flat, Through, Cams, After, NoCamera, Odd, IsBlank, Scan;
    var lines, q := prefix + Flat(items), Through(Outside, items[i].block[1..]);
    FlatSplit(items, i);
    assert GoodItem(items[i]) && GoodItems(items[..i]);
    ScanCount(lines, 0, Outside, []);
    assert lines[0..] == lines;
    CamsAppend(Outside, prefix, Flat(items));
    NoCams(Outside, prefix);
    CamsOfClosed(items[..i]);
    CamsAppend(Outside, Flat(items[..i]), Lines(items[i]) + Flat(items[i + 1..]));
    CamsOfItem(items[i]);
    CamsAppend(Outside, Lines(items[i]), Flat(items[i + 1..]));
    StuckInside(q, Flat(items[i + 1..]));
  }

  // Fewer blocks than names

  lemma {:induction false} DistinctFit(names: seq<string>, s: seq<Option<string>>)
    requires Distinct(names) && forall n :: n in names ==> Some(n) in s
    ensures |names| <= |s|
    decreases |names|
  {
    if names != [] {
      var n := names[0];
      var k :| 0 <= k < |s| && s[k] == Some(n);
      var rest := s[..k] + s[k + 1..];
      forall m | m in names[1..]
        ensures Some(m) in rest
      {
        var j :| 0 <= j < |s| && s[j] == Some(m);
        assert m != n;
        if j < k {
          assert rest[j] == Some(m);
        } else {
          assert rest[j - 1] == Some(m);
        }
      }
      DistinctFit(names[1..], rest);
    }
  }

  /** Every name found is another block's. */
  lemma {:induction false} FindAllFits(nameOf: NameOf, lines: seq<string>, names: seq<string>)
    requires Distinct(names) && FindAll(nameOf, lines, names).Some?
    ensures |names| <= |Spans(lines)|
  {
    hide Scan, Trimmed, Body, FindIn, FindAll;
    ScanInOrder(lines, 0, Outside, []);
    FindAllAt(nameOf, lines, names);
    var spans := Spans(lines);
    var s := NamesIn(nameOf, lines, spans);
    forall n | n in names
      ensures Some(n) in s
    {
      assert Find(nameOf, lines, n).Some?;
      var k := FindInIsFirst(nameOf, lines, spans, n);
      assert s[k] == Some(n);
    }
    DistinctFit(names, s);
  }

  function NamesIn(nameOf: NameOf, lines: seq<string>, spans: seq<Span>): (s: seq<Option<string>>)
    requires InOrder(spans, |lines|)
    ensures |s| == |spans|
    ensures forall k :: 0 <= k < |spans| ==> s[k] == nameOf(Body(lines, Trimmed(lines, spans[k])))
  {
    seq(|spans|, k requires 0 <= k < |spans| => nameOf(Body(lines, Trimmed(lines, spans[k]))))
  }

  /** No line of the others ends the string the last block leaves open. */
  ghost predicate KeepsOpen(d: Doc)
    requires d.items != [] && d.items[|d.items| - 1].block != []
  {
    var q := Through(Outside, d.items[|d.items| - 1].block[1..]);
    q != Outside ==> forall l :: l in Flat(d.items[..|d.items| - 1]) ==> !Odd(l, q)
  }

  /** The lines of some cameras, arranged, are their blocks' lines and blank ones. */
  lemma {:induction false} LaterLines(d: Doc, names: seq<string>, want: seq<string>, i: nat)
    requires Good(d) && |names| == |want| == |d.items| && Distinct(names) && Distinct(want)
    requires i < |want| && want[i] == names[|names| - 1] && forall n :: n in want ==> n in names
    ensures forall l :: l in Flat(Arranged(d.items, names, want)[i + 1..]) ==>
              IsBlank(l) || l in Flat(d.items[..|d.items| - 1])
  {
    hide GoodPrefix, GoodTail, GoodEnd, GoodBlock, BlockNamed, IsBlank, Flat;
    var items, n := Arranged(d.items, names, want), |d.items|;
    ArrangedLines(items[i + 1..]);
    ArrangedLines(d.items[..n - 1]);
    forall l | l in Flat(items[i + 1..]) && !IsBlank(l)
      ensures l in Flat(d.items[..n - 1])
    {
      var it :| it in items[i + 1..] && l in Lines(it);
      var k :| i < k < n && items[k] == it;
      assert want[k] in want;
      var m :| 0 <= m < n && names[m] == want[k];
      BlockNamedAt(d.items, names, m);
      assert m < n - 1 && GoodItem(d.items[k]);
      assert d.items[..n - 1][m] == d.items[m] && l in Lines(d.items[m]);
      assert d.items[m] in d.items[..n - 1];
    }
  }

  lemma {:induction false} OpenSpans(d: Doc, names: seq<string>, want: seq<string>, i: nat)
    requires Good(d) && d.tail == [] && |names| == |want| == |d.items| && Distinct(names) && Distinct(want)
    requires i < |want| - 1 && want[i] == names[|names| - 1] && forall n :: n in want ==> n in names
    requires !AllClosed(d.items) && d.items[|d.items| - 1].block != [] && KeepsOpen(d)
    ensures var lines := AllLines(d.(items := Arranged(d.items, names, want))); |Spans(lines)| == i + 1 && lines != []
  {
    hide GoodPrefix, GoodTail, GoodBlock, BlockNamed, IsBlank, Flat, Odd, Through, Scan, AllBlank, Plain;
    var items, n := Arranged(d.items, names, want), |d.items|;
    forall k | 0 <= k < n
      ensures GoodItem(items[k]) && items[k].block != [] && (k < i ==> Closed(items[k].block))
      ensures k == i ==> items[k].block == d.items[n - 1].block
    {
      assert want[k] in want;
      var m :| 0 <= m < n && names[m] == want[k];
      BlockNamedAt(d.items, names, m);
      assert GoodItem(d.items[m]) && GoodItem(d.items[k]);
      BlockSome(d.items[m].block);
      if m < n - 1 { assert d.items[..n - 1][m] == d.items[m]; }
    }
    OpenLast(d);
    LaterLines(d, names, want, i);
    CamsUpTo(d.prefix, items, i);
    assert AllLines(d.(items := items)) == d.prefix + Flat(items);
    if d.prefix + Flat(items) == [] {
      assert Spans([]) == [] by { NoLinesNoSpans(); }
    }
  }

  lemma OpenLast(d: Doc)
    requires Good(d) && d.tail == [] && !AllClosed(d.items) && d.items[|d.items| - 1].block != []
    ensures !Closed(d.items[|d.items| - 1].block)
  {
    hide Through, NoCamera, NoHeader, GoodPrefix, GoodItems;
    var n := |d.items|;
    assert forall k :: 0 <= k < n - 1 ==> d.items[..n - 1][k] == d.items[k];
  }

  lemma NoLinesNoSpans()
    ensures Spans([]) == []
  {
  }

  /** Putting a block that ends inside a string before others is not undone: the others are no longer found. */
  lemma {:induction false} OpenNotUndone(nameOf: NameOf, d: Doc, names: seq<string>, asked: seq<string>)
    requires Good(d) && d.tail == [] && Named(nameOf, d.items, names) && Distinct(names) && NoLineEnds(AllLines(d))
    requires |names| == |d.items| && !AllClosed(d.items) && d.items[|d.items| - 1].block != [] && KeepsOpen(d)
    requires Want(names, asked) != [] && Want(names, asked)[|Want(names, asked)| - 1] != names[|names| - 1]
    ensures !IsUndone(nameOf, Join(AllLines(d)), names, asked)
  {
    hide GoodPrefix, GoodTail, GoodBlock, Named, Join, Reorder, NoLineEnds, IsBlank, Want, Flat, Odd, Through, FindAll,
      Arranged;
    var want, n := Want(names, asked), |names|;
    WantIsPermutation(names, asked);
    Rearranged(names, want);
    assert names[n - 1] in want;
    var i :| 0 <= i < n && want[i] == names[n - 1];
    var d1 := d.(items := Arranged(d.items, names, want));
    ReorderDoc(nameOf, d, names, asked);
    ArrangedNoLineEnds(d, names, want);
    OpenSpans(d, names, want, i);
    if FindAll(nameOf, AllLines(d1), want).Some? {
      FindAllFits(nameOf, AllLines(d1), want);
    }
    FailsToReorder(nameOf, AllLines(d1), want, names);
  }

  // The file as text

  /** The lines from the first camera's header to the last one's: all blocks but the last. */
  function Others(lines: seq<string>): seq<string> {
    SpansInBounds(lines);
    var spans := Spans(lines);
    if |spans| < 2 then [] else lines[spans[0].start..spans[|spans| - 1].start]
  }

  lemma SpansInBounds(lines: seq<string>)
    ensures var spans := Spans(lines); |spans| >= 2 ==> spans[0].start <= spans[|spans| - 1].start <= |lines|
  {
    hide Scan;
    ScanInOrder(lines, 0, Outside, []);
  }

  /** If the text ends inside a string, no line of the blocks before the last would end it. */
  predicate StaysOpen(lines: seq<string>) {
    var q := Through(Outside, lines);
    q != Outside ==> forall l :: l in Others(lines) ==> !Odd(l, q)
  }

  lemma StaysOpenDoc(d: Doc)
    requires Good(d) && d.tail == [] && StaysOpen(AllLines(d))
    ensures d.items[|d.items| - 1].block != [] && KeepsOpen(d)
  {
    hide Through, Odd, NoCamera, NoHeader, Scan, Flat, GoodItems, GoodPrefix, Plain;
    var lines, o, n := AllLines(d), |d.prefix|, |d.items|;
    ThroughDoc(d);
    SpansOfDoc(d);
    FlatSplit(d.items, n - 1);
    RawIs(d.items, o, 0);
    RawIs(d.items, o, n - 1);
    BlockPlace(d.items, o, 0);
    BlockPlace(d.items, o, n - 1);
    assert d.items[..0] == [] && Flat([]) == [] by { FlatNothing(); }
    if n >= 2 {
      assert lines == d.prefix + (Flat(d.items[..n - 1]) + (Lines(d.items[n - 1]) + Flat(d.items[n..])));
      assert lines[o..o + |Flat(d.items[..n - 1])|] == Flat(d.items[..n - 1]);
    } else {
      assert d.items[..n - 1] == [];
    }
  }

  lemma FlatNothing()
    ensures Flat([]) == []
  {
  }

  /**
   What a caller can check of one order: there is nothing to order, or a table ends the file, or the camera
   asked for last has no table below it and either the text ends outside a string or that camera is the last already.
   */
  predicate CanUndo(nameOf: NameOf, lines: seq<string>, current: seq<string>, want: seq<string>) {
    current == [] || TableLast(Headers(Outside, lines))
    || (want != [] && NoTableBelow(nameOf, lines, want[|want| - 1])
        && (Through(Outside, lines) == Outside || want[|want| - 1] == current[|current| - 1]))
  }

  lemma {:induction false} CanUndoIff(nameOf: NameOf, d: Doc, current: seq<string>, want: seq<string>, k: nat)
    requires Good(d) && Named(nameOf, d.items, current) && Distinct(current) && NoLineEnds(AllLines(d))
    requires k < |current| == |d.items| && want != [] && want[|want| - 1] == current[k]
    ensures CanUndo(nameOf, AllLines(d), current, want) <==> CanEnd(d, k)
  {
    hide Headers, NoTableBelow, Through, Named, NoLineEnds, AllLines, Good, Plain, AllClosed;
    NoTableBelowIff(nameOf, d, current, k);
    TailIff(d);
    if d.tail == [] {
      ThroughDoc(d);
    }
  }

  /**
   One order, in any text: where the condition holds it is undone by reordering back, and where it does not
   it is not, provided that a string left open at the end is ended by no line of the other blocks.
   */
  lemma {:induction false} UndoneForOrderIff(nameOf: NameOf, text: string, current: seq<string>, order: seq<string>)
    requires Distinct(current) && NamesOfFile(nameOf, Split(text), current)
    ensures var can := CanUndo(nameOf, Split(text), current, Want(current, order));
            && (can ==> IsUndone(nameOf, text, current, order))
            && (StaysOpen(Split(text)) ==> (IsUndone(nameOf, text, current, order) <==> can))
  {
    hide NamesOfFile, Split, Join, IsUndone, Good, Named, Through, Want, Reorder, AllLines, GoodBlock, StaysOpen,
      CanUndo, CanEnd, KeepsOpen;
    if current == [] {
      NoCamerasUndone(nameOf, text, order);
      NothingToOrder(nameOf, Split(text), Want(current, order));
    } else {
      var lines := Split(text);
      var d := Parts(nameOf, lines, current);
      var k := AskedLast(current, order);
      NamedLength(nameOf, d.items, current);
      JoinSplit(text);
      CanUndoIff(nameOf, d, current, Want(current, order), k);
      if CanEnd(d, k) {
        UndoneInDoc(nameOf, d, current, order, k);
        Undone(nameOf, text, current, order);
      } else if StaysOpen(lines) {
        CannotUndo(nameOf, d, current, order, k);
      }
    }
  }

  lemma NothingToOrder(nameOf: NameOf, lines: seq<string>, want: seq<string>)
    ensures CanUndo(nameOf, lines, [], want)
  {
  }

  lemma {:induction false} CannotUndo(nameOf: NameOf, d: Doc, names: seq<string>, order: seq<string>, k: nat)
    requires Good(d) && Named(nameOf, d.items, names) && Distinct(names) && NoLineEnds(AllLines(d))
    requires k < |names| == |d.items| && !CanEnd(d, k) && StaysOpen(AllLines(d))
    requires Want(names, order) != [] && Want(names, order)[|Want(names, order)| - 1] == names[k]
    ensures !IsUndone(nameOf, Join(AllLines(d)), names, order)
  {
    hide Join, IsUndone, Named, Want, AllLines, GoodBlock, StaysOpen, KeepsOpen, AllClosed, Plain, GoodPrefix, GoodTail;
    assert GoodItem(d.items[k]);
    BlockSome(d.items[k].block);
    if AllClosed(d.items) {
      NotUndoneInDoc(nameOf, d, names, k, order);
    } else {
      StaysOpenDoc(d);
      OpenNotUndone(nameOf, d, names, order);
    }
  }

  lemma Undone(nameOf: NameOf, text: string, current: seq<string>, order: seq<string>)
    requires Distinct(current) && Distinct(Want(current, order))
    requires var there := Reorder(nameOf, text, current, order);
             there.1 && Reorder(nameOf, there.0, Want(current, order), current) == (text, true)
    ensures IsUndone(nameOf, text, current, order)
  {
    hide Want, Reorder;
  }

  // Every order

  /** Every name but the one at j, then that one. */
  function MovedLast(names: seq<string>, j: nat): (r: seq<string>)
    requires j < |names|
    ensures |r| == |names| && r[|r| - 1] == names[j]
  {
    names[..j] + names[j + 1..] + [names[j]]
  }

  lemma MovedLastIsAll(names: seq<string>, j: nat)
    requires j < |names| && Distinct(names)
    ensures var r := MovedLast(names, j); Distinct(r) && (forall n :: n in r <==> n in names) && Want(names, r) == r
  {
    hide Want;
    var r := MovedLast(names, j);
    assert names == names[..j] + [names[j]] + names[j + 1..];
    assert multiset(r) == multiset(names);
    Rearranged(names, r);
    WantWholeOrder(names, r);
  }

  /**
   What a caller can check of all orders: a table ends the file, or none comes after the first camera and
   either the text ends outside a string or there is but one camera.
   */
  predicate AlwaysUndone(lines: seq<string>, current: seq<string>) {
    Restorable(Headers(Outside, lines))
    && (Through(Outside, lines) == Outside || TableLast(Headers(Outside, lines)) || |current| <= 1)
  }

  /** Then arranging the cameras and arranging them back gives the file byte for byte, in every order. */
  lemma {:induction false} ReorderIsUndone(nameOf: NameOf, text: string, current: seq<string>, order: seq<string>)
    requires Distinct(current) && NamesOfFile(nameOf, Split(text), current) && AlwaysUndone(Split(text), current)
    ensures IsUndone(nameOf, text, current, order)
  {
    hide NamesOfFile, Split, Join, IsUndone, Good, Named, Through, Want, Reorder, AllLines, Undoable, Restorable,
      TableLast;
    if current == [] {
      NoCamerasUndone(nameOf, text, order);
    } else {
      var d := Parts(nameOf, Split(text), current);
      var k := AskedLast(current, order);
      NamedLength(nameOf, d.items, current);
      JoinSplit(text);
      UndoableIff(d);
      TailIff(d);
      EveryCanEnd(d, k);
      UndoneInDoc(nameOf, d, current, order, k);
      Undone(nameOf, text, current, order);
    }
  }

  lemma EveryCanEnd(d: Doc, k: nat)
    requires Good(d) && Undoable(d) && k < |d.items|
    requires d.tail != [] || Through(Outside, AllLines(d)) == Outside || |d.items| <= 1
    ensures CanEnd(d, k)
  {
    hide Through, AllLines, NoHeader, GoodItems, GoodPrefix;
    assert d.items[k] in d.items;
    if d.tail == [] {
      ThroughDoc(d);
    }
  }

  /**
   All orders, in any text: where the condition holds every order is undone by reordering back, and where it
   does not some order is not, provided as for one order.
   */
  lemma {:induction false} UndoneIff(nameOf: NameOf, text: string, current: seq<string>)
    requires Distinct(current) && NamesOfFile(nameOf, Split(text), current)
    ensures AlwaysUndone(Split(text), current) ==> forall order :: IsUndone(nameOf, text, current, order)
    ensures StaysOpen(Split(text)) ==>
              ((forall order :: IsUndone(nameOf, text, current, order)) <==> AlwaysUndone(Split(text), current))
  {
    hide NamesOfFile, Split, IsUndone, AlwaysUndone, StaysOpen;
    if AlwaysUndone(Split(text), current) {
      forall order
        ensures IsUndone(nameOf, text, current, order)
      {
        ReorderIsUndone(nameOf, text, current, order);
      }
    } else if StaysOpen(Split(text)) {
      var order := WorstOrder(nameOf, text, current);
      UndoneForOrderIff(nameOf, text, current, order);
      assert !IsUndone(nameOf, text, current, order);
    }
  }

  /** An order that the condition for one order refuses. */
  lemma {:induction false} WorstOrder(nameOf: NameOf, text: string, current: seq<string>) returns (order: seq<string>)
    requires Distinct(current) && NamesOfFile(nameOf, Split(text), current) && !AlwaysUndone(Split(text), current)
    ensures !CanUndo(nameOf, Split(text), current, Want(current, order))
  {
    hide NamesOfFile, Split, Join, Good, Named, Through, Want, AllLines, Undoable, Restorable, TableLast, CanUndo,
      CanEnd, NoTableAfterCamera, Headers;
    var lines := Split(text);
    if current == [] {
      if !Restorable(Headers(Outside, lines)) {
        SomeCamera(nameOf, lines, current);
      }
      assert false;
    } else {
      var d := Parts(nameOf, lines, current);
      NamedLength(nameOf, d.items, current);
      UndoableIff(d);
      TailIff(d);
      var j := WorstLast(d);
      order := MovedLast(current, j);
      MovedLastIsAll(current, j);
      CanUndoIff(nameOf, d, current, order, j);
    }
  }

  lemma WorstLast(d: Doc) returns (j: nat)
    requires Good(d) && (!Undoable(d) || (d.tail == [] && Through(Outside, AllLines(d)) != Outside && |d.items| > 1))
    ensures j < |d.items| && !CanEnd(d, j)
  {
    hide Through, AllLines, NoHeader, GoodItems, GoodPrefix, Plain, AllClosed;
    if !Undoable(d) {
      j := TabledBlock(d);
    } else {
      ThroughDoc(d);
      j := 0;
    }
  }

  lemma SomeCamera(nameOf: NameOf, lines: seq<string>, current: seq<string>)
    requires NamesOfFile(nameOf, lines, current) && !Restorable(Headers(Outside, lines))
    ensures current != []
  {
    hide Through, Body, Trimmed, Scan, Heads, After, IsCamera, Plain, GoodItems;
    var head, items, tail := Cut(Outside, lines);
    if items == [] {
      NoHeaders(Outside, lines);
      var hs := Headers(Outside, lines);
      var i, j :| 0 <= i < j < |hs| && hs[i] && !hs[j];
      assert hs[i] in hs && hs[i] == true;
      assert lines == head + tail;
      RunAppend(Outside, head, tail);
      if tail != [] { TailNoCamera(tail); }
      assert false;
    }
    var d := Doc(head, items, tail);
    SpansOfDoc(d);
  }

  lemma TailNoCamera(tail: seq<string>)
    requires GoodTail(tail) && tail != []
    ensures NoCamera(Outside, tail)
  {
    hide IsHeader, IsCamera, After;
    HeaderStaysOutside(tail[0]);
    NoHeaderNoCamera(Outside, tail[1..]);
  }

  lemma TabledBlock(d: Doc) returns (j: nat)
    requires Good(d) && !Undoable(d)
    ensures d.tail == [] && j < |d.items| && GoodBlock(d.items[j].block) && !Plain(d.items[j].block)
  {
    hide GoodBlock, NoHeader, GoodPrefix;
    var it :| it in d.items && !(it.block != [] && Plain(it.block));
    j :| 0 <= j < |d.items| && d.items[j] == it;
    assert GoodItem(it);
    BlockSome(it.block);
  }
}
