/** Reordering back: exactly which config texts it restores. */
module ConfigUndo {
  import opened Lists
  import opened Text
  import opened Wrappers
  import opened ConfigScan
  import opened ConfigBlocks
  import opened ConfigLayout

  /** The headers the scan acts on, in order: whether each is a camera's. */
  function Headers(q: Quote, ls: seq<string>): seq<bool>
    decreases |ls|
  {
    if ls == [] then []
    else (if Heads(q, ls[0]) then [IsCamera(ls[0])] else []) + Headers(After(q, ls[0]), ls[1..])
  }

  predicate TableLast(hs: seq<bool>) { hs != [] && !hs[|hs| - 1] }

  predicate NoTableAfterCamera(hs: seq<bool>) { forall i, j :: 0 <= i < j < |hs| && hs[i] ==> hs[j] }

  /** A table ends the file, or none comes after the first camera. */
  predicate Restorable(hs: seq<bool>) { TableLast(hs) || NoTableAfterCamera(hs) }

  // Taking a file apart

  lemma {:induction false} NoHeaders(q: Quote, ls: seq<string>)
    ensures NoHeader(q, ls) <==> Headers(q, ls) == []
    ensures NoCamera(q, ls) <==> true !in Headers(q, ls)
    decreases |ls|
  {
    hide Heads, After, IsCamera;
    if ls != [] {
      NoHeaders(After(q, ls[0]), ls[1..]);
    }
  }

  /** A header and the lines after it as a block with its blank lines apart. */
  lemma {:induction false} SplitBlanks(seg: seq<string>, e: nat) returns (it: Item)
    requires 1 <= e <= |seg| && AllBlank(seg[e..])
    requires IsHeader(seg[0]) && IsCamera(seg[0])
    requires NoCamera(Outside, seg[1..])
    ensures GoodItem(it) && Lines(it) == seg && it.block != []
    ensures Plain(it.block) <==> NoHeader(Outside, seg[1..])
    ensures Closed(it.block) <==> Through(Outside, seg[1..]) == Outside
    decreases e
  {
    hide IsBlank, IsCamera, IsHeader, NoCamera, NoHeader, Through;
    if e > 1 && IsBlank(seg[e - 1]) {
      assert seg[e - 1..] == [seg[e - 1]] + seg[e..];
      it := SplitBlanks(seg, e - 1);
    } else {
      it := Item(seg[..e], seg[e..]);
      assert seg[1..] == it.block[1..] + it.blanks;
      RunAppend(Outside, it.block[1..], it.blanks);
      BlanksAreNothing(Through(Outside, it.block[1..]), it.blanks);
      assert it.block[0] == seg[0];
    }
  }

  predicate IsCut(q: Quote, ls: seq<string>, head: seq<string>, items: seq<Item>, tail: seq<string>) {
    && ls == head + Flat(items) + tail
    && NoCamera(q, head) && GoodItems(items) && GoodTail(tail)
    && (items != [] || tail != [] ==> Through(q, head) == Outside)
    && (tail != [] <==> TableLast(Headers(q, ls)))
    && (items != [] ==> GoodEnd(items, tail))
  }

  lemma {:induction false} Cut(q: Quote, ls: seq<string>)
      returns (head: seq<string>, items: seq<Item>, tail: seq<string>)
    ensures IsCut(q, ls, head, items, tail)
    decreases |ls|
  {
    hide After, IsCamera, IsHeader, GoodBlock, AllBlank, Plain;
    if ls == [] {
      head, items, tail := [], [], [];
    } else {
      var l, rest := ls[0], ls[1..];
      var hs := Headers(After(q, l), rest);
      if Heads(q, l) && !IsCamera(l) && hs == [] {
        head, items, tail := [], [], ls;
        HeaderStaysOutside(l);
        NoHeaders(Outside, rest);
      } else {
        var h, its, t := Cut(After(q, l), rest);
        if Heads(q, l) && IsCamera(l) {
          HeaderStaysOutside(l);
          head, items, tail := CutCamera(q, ls, h, its, t);
        } else {
          head, items, tail := [l] + h, its, t;
          CutPlain(q, ls, h, its, t);
        }
      }
    }
  }

  /** Any other line goes in front of what comes before the next camera. */
  lemma {:induction false} CutPlain(q: Quote, ls: seq<string>, h: seq<string>, its: seq<Item>, t: seq<string>)
    requires ls != [] && IsCut(After(q, ls[0]), ls[1..], h, its, t)
    requires Heads(q, ls[0]) ==> !IsCamera(ls[0]) && Headers(After(q, ls[0]), ls[1..]) != []
    ensures IsCut(q, ls, [ls[0]] + h, its, t)
  {
    hide After, IsCamera, IsHeader, GoodItems, GoodTail, Plain, Flat;
    var head := [ls[0]] + h;
    assert head[1..] == h;
    assert ls == head + Flat(its) + t;
    TableLastStays(q, ls);
  }

  lemma {:induction false} TableLastStays(q: Quote, ls: seq<string>)
    requires ls != [] && (Heads(q, ls[0]) ==> Headers(After(q, ls[0]), ls[1..]) != [])
    ensures TableLast(Headers(q, ls)) == TableLast(Headers(After(q, ls[0]), ls[1..]))
  {
    hide After, IsCamera, IsHeader;
  }

  /** At a camera's header, what comes before the next one becomes its block. */
  lemma {:induction false} CutCamera(q: Quote, ls: seq<string>, h: seq<string>, its: seq<Item>, t: seq<string>)
      returns (head: seq<string>, items: seq<Item>, tail: seq<string>)
    requires ls != [] && Heads(q, ls[0]) && IsCamera(ls[0]) && IsCut(Outside, ls[1..], h, its, t)
    ensures IsCut(q, ls, head, items, tail)
  {
    hide IsCamera, IsHeader, GoodBlock, IsBlank, After, NoHeader, GoodTail;
    var l, rest := ls[0], ls[1..];
    HeaderStaysOutside(l);
    HeadIsPlain(q, ls, h, its, t);
    var seg := [l] + h;
    assert seg[1..] == h && seg[|seg|..] == [];
    var it := SplitBlanks(seg, |seg|);
    head, items, tail := [], [it] + its, t;
    BlockSome(it.block);
    CutBefore(q, ls, h, its, t, it);
  }

  lemma CutBefore(q: Quote, ls: seq<string>, h: seq<string>, its: seq<Item>, t: seq<string>, it: Item)
    requires ls != [] && Heads(q, ls[0]) && IsCamera(ls[0]) && IsCut(Outside, ls[1..], h, its, t)
    requires GoodItem(it) && it.block != [] && Lines(it) == [ls[0]] + h
    requires if its == [] && t == [] then Plain(it.block) else Closed(it.block)
    ensures IsCut(q, ls, [], [it] + its, t)
  {
    hide IsCamera, IsHeader, GoodItem, After, NoHeader, GoodTail, Lines, Flat;
    var items := [it] + its;
    assert items[1..] == its;
    FlatMore(items);
    assert ls == [] + Flat(items) + t by {
      assert ls == [ls[0]] + (h + Flat(its) + t) == ([ls[0]] + h) + Flat(its) + t;
    }
    TableLastAtCamera(q, ls);
    GoodEndCons(it, its, t);
  }

  lemma GoodEndCons(it: Item, its: seq<Item>, t: seq<string>)
    requires it.block != [] && (its != [] ==> GoodEnd(its, t))
    requires if its == [] && t == [] then Plain(it.block) else Closed(it.block)
    ensures GoodEnd([it] + its, t)
  {
    hide Through, NoHeader;
    var items := [it] + its;
    if its != [] && t == [] {
      assert items[|items| - 1] == its[|its| - 1];
      assert items[..|items| - 1] == [it] + its[..|its| - 1];
    }
  }

  lemma FlatMore(items: seq<Item>)
    requires items != []
    ensures Flat(items) == Lines(items[0]) + Flat(items[1..])
  {
  }

  lemma TableLastAtCamera(q: Quote, ls: seq<string>)
    requires ls != [] && Heads(q, ls[0]) && IsCamera(ls[0])
    ensures TableLast(Headers(q, ls)) == TableLast(Headers(Outside, ls[1..]))
  {
    hide IsCamera, IsHeader;
    HeaderStaysOutside(ls[0]);
  }

  lemma {:induction false} HeadIsPlain(q: Quote, ls: seq<string>, h: seq<string>, its: seq<Item>, t: seq<string>)
    requires ls != [] && Heads(q, ls[0]) && IsCamera(ls[0]) && IsCut(Outside, ls[1..], h, its, t)
    ensures NoCamera(Outside, h)
    ensures if its == [] && t == [] then NoHeader(Outside, h) else Through(Outside, h) == Outside
  {
    hide IsCamera, IsHeader, GoodItems, GoodEnd;
    if its == [] && t == [] {
      assert ls[1..] == h;
      NoHeaders(Outside, h);
      LastIn(Headers(Outside, h));
    }
  }

  lemma LastIn(hs: seq<bool>)
    ensures hs != [] ==> hs[|hs| - 1] in hs
  {
  }

  // What the headers say of the blocks

  lemma {:induction false} HeadersAppend(q: Quote, a: seq<string>, b: seq<string>)
    ensures Headers(q, a + b) == Headers(q, a) + Headers(Through(q, a), b)
    decreases |a|
  {
    hide After, Heads, IsCamera;
    if a == [] {
      assert a + b == b;
    } else {
      assert (a + b)[1..] == a[1..] + b;
      HeadersAppend(After(q, a[0]), a[1..], b);
      var one := if Heads(q, a[0]) then [IsCamera(a[0])] else [];
      var x, y := Headers(After(q, a[0]), a[1..]), Headers(Through(q, a), b);
      assert Headers(q, a + b) == one + (x + y) == one + x + y;
    }
  }

  function ItemHeaders(items: seq<Item>): seq<bool>
    requires forall it :: it in items ==> it.block != []
    decreases |items|
  {
    if items == [] then [] else
    assert items[0] in items;
    [true] + Headers(Outside, items[0].block[1..]) + ItemHeaders(items[1..])
  }

  lemma GoodBlocksSome(items: seq<Item>)
    requires GoodItems(items)
    ensures forall it :: it in items ==> it.block != []
  {
  }

  lemma {:induction false} HeadersOfItem(it: Item)
    requires GoodItem(it)
    ensures Headers(Outside, Lines(it)) == [true] + Headers(Outside, it.block[1..])
    ensures Through(Outside, Lines(it)) == Through(Outside, it.block[1..])
  {
    hide IsHeader, IsCamera, After, NoCamera, NoHeader, IsBlank;
    var rest := it.block[1..];
    HeaderStaysOutside(it.block[0]);
    assert Lines(it)[1..] == rest + it.blanks;
    HeadersAppend(Outside, rest, it.blanks);
    BlanksAreNothing(Through(Outside, rest), it.blanks);
    NoHeaders(Through(Outside, rest), it.blanks);
    RunAppend(Outside, rest, it.blanks);
  }

  lemma {:induction false} HeadersOfItems(items: seq<Item>, tail: seq<string>)
    requires GoodItems(items) && forall it :: it in items ==> it.block != []
    requires items != [] && GoodEnd(items, tail)
    ensures Headers(Outside, Flat(items)) == ItemHeaders(items)
    ensures tail != [] ==> Through(Outside, Flat(items)) == Outside
    ensures tail == [] ==> Through(Outside, Flat(items)) == Through(Outside, items[|items| - 1].block[1..])
    decreases |items|
  {
    hide Headers, GoodItem, Lines, After, Through, GoodEnd;
    assert GoodItem(items[0]) && GoodItems(items[1..]);
    HeadersOfItem(items[0]);
    HeadersAppend(Outside, Lines(items[0]), Flat(items[1..]));
    RunAppend(Outside, Lines(items[0]), Flat(items[1..]));
    if |items| == 1 {
      OneGoodEnd(items, tail);
      EmptyRun();
      assert items[1..] == [] && Flat(items) == Lines(items[0]) + [];
      assert Lines(items[0]) + [] == Lines(items[0]);
    } else {
      GoodEndRest(items, tail);
      HeadersOfItems(items[1..], tail);
    }
  }

  lemma EmptyRun()
    ensures Headers(Outside, []) == [] && Through(Outside, []) == Outside
  {
  }

  /** The headers of the blocks are all cameras' exactly when no block holds a table. */
  lemma {:induction false} AllCamerasIff(items: seq<Item>)
    requires GoodItems(items) && forall it :: it in items ==> it.block != []
    ensures false !in ItemHeaders(items) <==> forall it :: it in items ==> Plain(it.block)
    decreases |items|
  {
    hide Headers, After, Through, NoCamera, NoHeader, IsHeader, IsCamera, AllBlank;
    if items != [] {
      var inner := Headers(Outside, items[0].block[1..]);
      NoHeaders(Outside, items[0].block[1..]);
      assert GoodItem(items[0]) && GoodItems(items[1..]);
      AllCamerasIff(items[1..]);
      assert Plain(items[0].block) <==> false !in inner by {
        assert true !in inner;
        if inner != [] { assert inner[0] in inner; assert inner[0] == false; }
      }
      assert ItemHeaders(items) == [true] + inner + ItemHeaders(items[1..]);
      assert false in ItemHeaders(items) <==> false in inner || false in ItemHeaders(items[1..]);
      assert forall it :: it in items <==> it == items[0] || it in items[1..];
    }
  }

  lemma {:induction false} LastIsCamera(items: seq<Item>)
    requires items != [] && forall it :: it in items ==> it.block != []
    requires Plain(items[|items| - 1].block)
    ensures ItemHeaders(items) != [] && ItemHeaders(items)[|ItemHeaders(items)| - 1]
    decreases |items|
  {
    hide Headers, NoHeader;
    NoHeaders(Outside, items[0].block[1..]);
    if |items| > 1 {
      assert items[1..][|items[1..]| - 1] == items[|items| - 1];
      LastIsCamera(items[1..]);
    }
  }

  lemma DocHeaders(d: Doc)
    requires Good(d) && forall it :: it in d.items ==> it.block != []
    ensures Headers(Outside, AllLines(d))
         == Headers(Outside, d.prefix) + ItemHeaders(d.items) + Headers(Outside, d.tail)
    ensures true !in Headers(Outside, d.prefix)
    ensures d.tail != [] ==> Headers(Outside, d.tail) == [false]
    ensures d.tail == [] ==> Headers(Outside, d.tail) == []
  {
    hide After, NoCamera, NoHeader, IsHeader, IsCamera, GoodItems, ItemHeaders, Plain;
    HeadersAppend(Outside, d.prefix + Flat(d.items), d.tail);
    HeadersAppend(Outside, d.prefix, Flat(d.items));
    RunAppend(Outside, d.prefix, Flat(d.items));
    HeadersOfItems(d.items, d.tail);
    NoHeaders(Outside, d.prefix);
    if d.tail != [] {
      HeaderStaysOutside(d.tail[0]);
      NoHeaders(Outside, d.tail[1..]);
    }
  }

  lemma UndoableIff(d: Doc)
    requires Good(d)
    ensures Undoable(d) <==> Restorable(Headers(Outside, AllLines(d)))
  {
    hide Headers, AllLines, GoodItems, GoodPrefix, GoodTail, ItemHeaders, Plain;
    GoodHas(d);
    GoodBlocksSome(d.items);
    DocHeaders(d);
    AllCamerasIff(d.items);
    var hp, hi, ht := Headers(Outside, d.prefix), ItemHeaders(d.items), Headers(Outside, d.tail);
    var hs := hp + hi + ht;
    if d.tail == [] {
      LastIsCamera(d.items);
      assert hs == hp + hi;
      assert hs[|hs| - 1] == hi[|hi| - 1];
      assert hi[0] by { FirstIsCamera(d.items); }
      assert hs[|hp|] == hi[0];
      if NoTableAfterCamera(hs) {
        assert forall k :: 0 < k < |hi| ==> hi[k] == hs[|hp| + k];
      } else {
        var i, j :| 0 <= i < j < |hs| && hs[i] && !hs[j];
        assert forall k :: 0 <= k < |hp| ==> hp[k] in hp && hs[k] == hp[k];
        assert i >= |hp|;
        assert hs[j] == hi[j - |hp|];
      }
    } else {
      assert hs[|hs| - 1] == ht[0];
    }
  }

  lemma FirstIsCamera(items: seq<Item>)
    requires items != [] && forall it :: it in items ==> it.block != []
    ensures ItemHeaders(items) != [] && ItemHeaders(items)[0]
  {
  }

  // The text as a whole

  /** current names the blocks the scan finds, in the order of the file, as the loader does. */
  predicate NamesOfFile(nameOf: NameOf, lines: seq<string>, current: seq<string>) {
    ScanInOrder(lines, 0, Outside, []);
    var spans := Spans(lines);
    |current| == |spans|
    && forall k :: 0 <= k < |spans| ==> nameOf(Body(lines, Trimmed(lines, spans[k]))) == Some(current[k])
  }

  /** Reordering and then reordering back to the order the file had gives the file. */
  predicate IsUndone(nameOf: NameOf, text: string, current: seq<string>, order: seq<string>)
    requires Distinct(current)
  {
    var want := Want(current, order);
    var there := Reorder(nameOf, text, current, order);
    Distinct(want) && there.1 && Reorder(nameOf, there.0, want, current) == (text, true)
  }

  lemma {:induction false} RawIs(items: seq<Item>, o: nat, k: nat)
    requires k < |items|
    ensures Raw(items, o)[k].start == Blocks(items, o)[k].start
    ensures Raw(items, o)[k].end == Raw(items, o)[k].start + |Lines(items[k])|
    ensures Blocks(items, o)[k].end == Blocks(items, o)[k].start + |items[k].block|
    decreases |items|
  {
    if k > 0 {
      RawIs(items[1..], o + |Lines(items[0])|, k - 1);
    }
  }

  lemma {:induction false} LinesAt(lines: seq<string>, o: nat, items: seq<Item>, tail: seq<string>, k: nat)
    requires o <= |lines| && lines[o..] == Flat(items) + tail && k < |items|
    ensures var sp := Raw(items, o)[k];
            sp.start <= sp.end <= |lines| && lines[sp.start..sp.end] == Lines(items[k])
    decreases |items|
  {
    FlatCut(lines, o, items, tail);
    if k > 0 {
      LinesAt(lines, o + |Lines(items[0])|, items[1..], tail, k - 1);
    }
  }

  /** The names of a good file's cameras are the names of the blocks the scan finds. */
  lemma NamedDoc(nameOf: NameOf, d: Doc, current: seq<string>)
    requires Good(d)
    ensures NamesOfFile(nameOf, AllLines(d), current) <==> Named(nameOf, d.items, current)
  {
    hide Scan, Join, GoodItem, Plain, GoodTail, GoodPrefix, Flat, Raw, Blocks, Trimmed;
    var lines, o := AllLines(d), |d.prefix|;
    SpansOfDoc(d);
    ScanInOrder(lines, 0, Outside, []);
    assert lines[o..] == Flat(d.items) + d.tail;
    forall k | 0 <= k < |d.items|
      ensures Body(lines, Trimmed(lines, Spans(lines)[k])) == Join(d.items[k].block)
    {
      var it, sp := d.items[k], Raw(d.items, o)[k];
      RawIs(d.items, o, k);
      LinesAt(lines, o, d.items, d.tail, k);
      assert GoodItem(it);
      TrimItem(lines, sp.start, it, sp.end);
      BlockAt(lines, o, d.items, d.tail, k);
    }
  }

  lemma NoCamerasUndone(nameOf: NameOf, text: string, order: seq<string>)
    ensures IsUndone(nameOf, text, [], order)
  {
    hide Split, Join, Find;
    WantIsPermutation([], order);
    var want := Want([], order);
    Rearranged([], want);
    assert want == [];
    var lines := Split(text);
    assert Rearrange(nameOf, lines, [], order) == lines[0..] == lines;
    assert Rearrange(nameOf, lines, [], []) == lines[0..] by {
      WantIsPermutation([], []);
      Rearranged([], Want([], []));
    }
    JoinSplit(text);
  }

  /** The file taken apart, when it has a camera. */
  lemma Parts(nameOf: NameOf, lines: seq<string>, current: seq<string>) returns (d: Doc)
    requires NamesOfFile(nameOf, lines, current) && current != []
    ensures Good(d) && AllLines(d) == lines && Named(nameOf, d.items, current)
  {
    hide Through, NoCamera, GoodItems, GoodTail, Plain, Trimmed, Body, Headers, Scan;
    var head, items, tail := Cut(Outside, lines);
    d := Doc(head, items, tail);
    if items == [] {
      NoSpans(lines, head, tail);
      assert false;
    }
    NamedDoc(nameOf, d, current);
  }

  lemma NoSpans(lines: seq<string>, head: seq<string>, tail: seq<string>)
    requires lines == head + tail && NoCamera(Outside, head) && GoodTail(tail)
    requires tail != [] ==> Through(Outside, head) == Outside
    ensures Spans(lines) == []
  {
    hide IsHeader, IsCamera, After;
    RunAppend(Outside, head, tail);
    if tail != [] {
      HeaderStaysOutside(tail[0]);
      NoHeaderNoCamera(Outside, tail[1..]);
    }
    assert lines[0..|lines|] == lines;
    ScanPrefix(lines, 0, |lines|, Outside);
  }

  // When a block holds a table and nothing ends the last one

  /** The last header among lines that hold some but no camera's. */
  lemma {:induction false} LastTable(q: Quote, ls: seq<string>) returns (m: nat)
    requires NoCamera(q, ls) && !NoHeader(q, ls)
    ensures m < |ls| && Through(q, ls[..m]) == Outside && GoodTail(ls[m..]) && !IsBlank(ls[m])
    ensures NoCamera(q, ls[..m])
    decreases |ls|
  {
    hide After, IsHeader, IsCamera, IsBlank;
    var rest := ls[1..];
    if NoHeader(After(q, ls[0]), rest) {
      m := 0;
      HeaderStaysOutside(ls[0]);
      HeaderNotBlank(ls[0]);
    } else {
      var k := LastTable(After(q, ls[0]), rest);
      m := k + 1;
      assert ls[..m][1..] == rest[..k] && ls[m..] == rest[k..];
    }
  }

  lemma HeaderNotBlank(l: string)
    requires IsHeader(l)
    ensures !IsBlank(l)
  {
  }

  lemma TailWithBlanks(tail: seq<string>, blanks: seq<string>)
    requires GoodTail(tail) && tail != [] && AllBlank(blanks)
    ensures GoodTail(tail + blanks)
  {
    hide After, IsHeader, IsCamera, IsBlank;
    assert (tail + blanks)[1..] == tail[1..] + blanks;
    RunAppend(Outside, tail[1..], blanks);
    BlanksAreNothing(Through(Outside, tail[1..]), blanks);
  }

  /** A block holding a table, put last: the scan ends it at its last table. */
  lemma {:induction false} CutAtTable(block: seq<string>) returns (cut: Item, table: seq<string>)
    requires GoodBlock(block) && !Plain(block)
    ensures GoodItem(cut) && GoodTail(table) && table != [] && !IsBlank(table[0]) && !IsCamera(table[0])
    ensures block == Lines(cut) + table && cut.block != [] && Closed(cut.block)
  {
    hide After, IsHeader, IsCamera, IsBlank, NoCamera, NoHeader, Through;
    var ls := block[1..];
    var m := LastTable(Outside, ls);
    var seg := block[..m + 1];
    assert seg[1..] == ls[..m] && seg[|seg|..] == [] && seg[0] == block[0];
    cut := SplitBlanks(seg, |seg|);
    table := ls[m..];
    assert block == seg + table;
  }

  lemma FirstNotBlank(a: seq<string>, x: string, s: seq<string>)
    requires AllBlank(a) && a + [x] <= s
    ensures |a| < |s| && s[|a|] == x && forall k :: 0 <= k < |a| ==> IsBlank(s[k])
  {
    hide IsBlank;
    assert s[|a|] == (a + [x])[|a|];
    assert forall k :: 0 <= k < |a| ==> s[k] == (a + [x])[k] == a[k];
  }

  /** Of two runs of blank lines, each followed by a line that is not, the lines that follow are the same line. */
  lemma SameAfterBlanks(a: seq<string>, x: string, b: seq<string>, y: string, s: seq<string>)
    requires AllBlank(a) && AllBlank(b) && !IsBlank(x) && !IsBlank(y)
    requires a + [x] <= s && b + [y] <= s
    ensures x == y
  {
    hide IsBlank, AllBlank;
    FirstNotBlank(a, x, s);
    FirstNotBlank(b, y, s);
    assert |a| == |b|;
  }

  lemma {:induction false} FlatSplit(items: seq<Item>, j: nat)
    requires j < |items|
    ensures Flat(items) == Flat(items[..j]) + (Lines(items[j]) + Flat(items[j + 1..]))
    decreases j
  {
    hide Lines;
    if j == 0 {
      assert items[..0] == [];
      assert Flat(items[..0]) + (Lines(items[0]) + Flat(items[1..])) == Lines(items[0]) + Flat(items[1..]);
    } else {
      FlatSplit(items[1..], j - 1);
      assert items[..j][1..] == items[1..][..j - 1] && items[j + 1..] == items[1..][j..];
      var l, x, y := Lines(items[0]), Flat(items[1..][..j - 1]), Lines(items[j]) + Flat(items[j + 1..]);
      assert l + (x + y) == l + x + y;
    }
  }

  /** Two files alike up to camera j, whose block one has in full and the other cut at a table, are not the same. */
  lemma {:induction false} CutShows(prefix: seq<string>, a: seq<Item>, b: seq<Item>, tailB: seq<string>, j: nat,
                                    cut: Item, table: seq<string>)
    requires |a| == |b| && j + 1 < |a| && a[..j] == b[..j] && GoodItems(a) && GoodItems(b)
    requires Lines(a[j]) == Lines(cut) + table && table != [] && !IsBlank(table[0]) && !IsCamera(table[0])
    requires AllBlank(cut.blanks) && b[j].block == cut.block
    ensures prefix + Flat(a) != prefix + Flat(b) + tailB
  {
    hide IsBlank, IsCamera, Flat, NoCamera, Through;
    FlatSplit(a, j);
    FlatSplit(b, j);
    FlatCons(b[j + 1..]);
    assert GoodItem(b[j + 1]) && GoodItem(b[j]);
    HeaderNotBlank(b[j + 1].block[0]);
    var p := prefix + Flat(a[..j]) + cut.block;
    var s := cut.blanks + table + Flat(a[j + 1..]);
    var next := b[j + 1].block;
    var t := b[j].blanks + (next + b[j + 1].blanks + Flat(b[j + 1..][1..])) + tailB;
    assert prefix + Flat(a) == p + s;
    assert prefix + Flat(b) + tailB == p + t;
    if p + s == p + t {
      assert s == (p + s)[|p|..] == (p + t)[|p|..] == t;
      assert cut.blanks + [table[0]] <= s;
      assert b[j].blanks + [next[0]] <= t;
      SameAfterBlanks(cut.blanks, table[0], b[j].blanks, next[0], s);
      assert false;
    }
  }

  /** An order of all the names that has the one at j last. */
  ghost predicate HasLast(names: seq<string>, j: nat, order: seq<string>) {
    && |order| == |names| && j < |names| && order[|order| - 1] == names[j]
    && Distinct(order) && forall n :: n in order <==> n in names
  }

  lemma {:induction false} FindNone(nameOf: NameOf, lines: seq<string>, o: nat, items: seq<Item>, tail: seq<string>,
                                    n: string)
    requires o <= |lines| && lines[o..] == Flat(items) + tail && GoodItems(items)
    requires forall k :: 0 <= k < |items| ==> nameOf(Join(items[k].block)) != Some(n)
    requires InOrder(Raw(items, o), |lines|)
    ensures FindIn(nameOf, lines, Raw(items, o), n) == None
    decreases |items|
  {
    hide GoodBlock, AllBlank, Trimmed, Join, InOrder;
    if items != [] {
      var it := items[0];
      FlatCut(lines, o, items, tail);
      assert GoodItem(it) && GoodItems(items[1..]);
      TrimItem(lines, o, it, o + |Lines(it)|);
      assert lines[o..o + |it.block|] == it.block by { assert lines[o..o + |Lines(it)|][..|it.block|] == it.block; }
      var raw := Raw(items, o);
      OrderRest(raw, |lines|);
      assert raw[1..] == Raw(items[1..], o + |Lines(it)|);
      FindNone(nameOf, lines, o + |Lines(it)|, items[1..], tail, n);
    }
  }

  lemma NotFoundInDoc(nameOf: NameOf, d: Doc, names: seq<string>, n: string)
    requires Good(d) && n in names
    requires forall k :: 0 <= k < |d.items| ==> nameOf(Join(d.items[k].block)) != Some(n)
    ensures FindAll(nameOf, AllLines(d), names) == None
  {
    hide Scan, FindIn, Join, GoodItem, Plain, GoodTail, GoodPrefix, FindAll;
    var lines, o := AllLines(d), |d.prefix|;
    SpansOfDoc(d);
    ScanInOrder(lines, 0, Outside, []);
    assert lines[o..] == Flat(d.items) + d.tail;
    FindNone(nameOf, lines, o, d.items, d.tail, n);
    FindAllAt(nameOf, lines, names);
  }

  /** The file in an order that puts a block holding a table last, as the scan now sees it. */
  function Moved(d: Doc, names: seq<string>, order: seq<string>, cut: Item, table: seq<string>): Doc
    requires |names| == |d.items| == |order| > 0 && forall n :: n in order ==> n in names
  {
    var items := Arranged(d.items, names, order);
    var n := |items|;
    Doc(d.prefix, items[..n - 1] + [cut], table + items[n - 1].blanks)
  }

  lemma MovedParts(d: Doc, names: seq<string>, j: nat, order: seq<string>, cut: Item, table: seq<string>)
    requires |names| == |d.items| && HasLast(names, j, order) && table != []
    ensures var d2 := Moved(d, names, order, cut, table);
            |d2.items| == |names| && d2.tail != [] && d2.prefix == d.prefix
  {
  }

  lemma MovedIsGood(nameOf: NameOf, d: Doc, names: seq<string>, j: nat, order: seq<string>,
                    cut: Item, table: seq<string>)
    requires Good(d) && d.tail == [] && Named(nameOf, d.items, names) && Distinct(names) && HasLast(names, j, order)
    requires GoodItem(cut) && GoodTail(table) && table != [] && d.items[j].block == Lines(cut) + table
    requires AllClosed(d.items) && cut.block != [] && Closed(cut.block)
    ensures var d1 := d.(items := Arranged(d.items, names, order));
            var d2 := Moved(d, names, order, cut, table);
            && Good(d2) && AllLines(d2) == AllLines(d1)
            && (forall k :: 0 <= k < |names| - 1 ==> nameOf(Join(d2.items[k].block)) == Some(order[k]))
  {
    hide GoodItem, GoodTail, GoodPrefix, GoodEnd, Plain, Closed, Join, BlockNamed, Flat, Lines, Distinct, Want, Named,
      IsBlank, AllClosed;
    NamedLength(nameOf, d.items, names);
    var items := Arranged(d.items, names, order);
    var n := |items|;
    assert AllBlank(items[n - 1].blanks) by { assert GoodItem(d.items[n - 1]); BlanksOf(d.items[n - 1]); }
    BlockNamedAt(d.items, names, j);
    assert items[n - 1].block == d.items[j].block;
    forall k | 0 <= k < n
      ensures GoodItem(items[k]) && nameOf(Join(items[k].block)) == Some(order[k])
      ensures items[k].block != [] && Closed(items[k].block)
    {
      ArrangedAt(nameOf, d.items, names, order, k);
    }
    TailWithBlanks(table, items[n - 1].blanks);
    EndIs(items[..n - 1] + [cut], table + items[n - 1].blanks);
    CutLines(d.prefix, items, cut, table);
  }

  lemma BlanksOf(it: Item)
    requires GoodItem(it)
    ensures AllBlank(it.blanks)
  {
  }

  lemma ArrangedAt(nameOf: NameOf, items: seq<Item>, names: seq<string>, want: seq<string>, k: nat)
    requires GoodItems(items) && Named(nameOf, items, names) && |want| == |names| && k < |names|
    requires Distinct(names) && want[k] in names
    ensures var there := Arranged(items, names, want);
            GoodItem(there[k]) && nameOf(Join(there[k].block)) == Some(want[k])
    ensures var there := Arranged(items, names, want);
            AllClosed(items) ==> there[k].block != [] && Closed(there[k].block)
  {
    hide GoodBlock, AllBlank, Join, BlockNamed, Through;
    var i :| 0 <= i < |names| && names[i] == want[k];
    BlockNamedAt(items, names, i);
    assert GoodItem(items[i]) && GoodItem(items[k]);
  }

  lemma {:induction false} FlatSnoc(items: seq<Item>, it: Item)
    ensures Flat(items + [it]) == Flat(items) + Lines(it)
  {
    hide Lines, Flat;
    var all, n := items + [it], |items|;
    FlatSplit(all, n);
    assert all[..n] == items && all[n + 1..] == [];
    FlatNone([]);
    assert Flat([]) + [] == Flat([]);
    assert Lines(it) + Flat([]) == Lines(it);
  }

  lemma CutLines(prefix: seq<string>, items: seq<Item>, cut: Item, table: seq<string>)
    requires items != [] && items[|items| - 1].block == Lines(cut) + table
    ensures var n := |items|;
            prefix + Flat(items) + [] == prefix + Flat(items[..n - 1] + [cut]) + (table + items[n - 1].blanks)
  {
    hide Lines, Flat;
    var n := |items|;
    FlatSnoc(items[..n - 1], cut);
    FlatSnoc(items[..n - 1], items[n - 1]);
    assert items[..n - 1] + [items[n - 1]] == items;
    LinesIs(items[n - 1]);
    Regroup(prefix, Flat(items[..n - 1]), Lines(cut), table, items[n - 1].blanks);
  }

  lemma Regroup(p: seq<string>, f: seq<string>, l: seq<string>, t: seq<string>, b: seq<string>)
    ensures p + (f + ((l + t) + b)) + [] == p + (f + l) + (t + b)
  {
  }

  lemma LinesIs(it: Item)
    ensures Lines(it) == it.block + it.blanks
  {
  }

  /** Then no order that puts such a camera last is undone by reordering back. */
  lemma NotUndoneInDoc(nameOf: NameOf, d: Doc, names: seq<string>, j: nat, asked: seq<string>)
    requires Good(d) && d.tail == [] && Named(nameOf, d.items, names) && Distinct(names) && NoLineEnds(AllLines(d))
    requires j < |names| && GoodBlock(d.items[j].block) && !Plain(d.items[j].block) && AllClosed(d.items)
    requires Want(names, asked) != [] && Want(names, asked)[|Want(names, asked)| - 1] == names[j]
    ensures !IsUndone(nameOf, Join(AllLines(d)), names, asked)
  {
    var order := Want(names, asked);
    WantIsPermutation(names, asked);
    Rearranged(names, order);
    hide Want;
    assert HasLast(names, j, order);
    hide Good, Named, Join, Arranged, Reorder, GoodBlock, GoodTail, Plain, NoLineEnds, AllBlank, Moved, AllLines;
    NamedLength(nameOf, d.items, names);
    var cut, table := CutAtTable(d.items[j].block);
    MovedIsGood(nameOf, d, names, j, order, cut, table);
    var d1, d2 := d.(items := Arranged(d.items, names, order)), Moved(d, names, order, cut, table);
    ReorderDoc(nameOf, d, names, asked);
    ArrangedNoLineEnds(d, names, order);
    MovedNamed(nameOf, d, names, j, order, cut, table);
    WantWholeOrder(order, names);
    if nameOf(Join(cut.block)) == Some(names[j]) {
      BackIsCut(nameOf, d, names, j, order, cut, table);
    } else {
      NotFoundInDoc(nameOf, d2, order, names[j]);
      assert AllLines(d2) != [] by { SomeLines(d2); }
      FailsToReorder(nameOf, AllLines(d2), order, names);
    }
  }

  lemma FailsToReorder(nameOf: NameOf, lines: seq<string>, current: seq<string>, names: seq<string>)
    requires Distinct(current) && lines != [] && NoLineEnds(lines) && FindAll(nameOf, lines, current).None?
    ensures !Reorder(nameOf, Join(lines), current, names).1
  {
    hide FindAll, Join;
    SplitJoin(lines);
  }

  /** The moved file's cameras keep their names, but for the one cut short. */
  lemma MovedNamed(nameOf: NameOf, d: Doc, names: seq<string>, j: nat, order: seq<string>,
                    cut: Item, table: seq<string>)
    requires |names| == |d.items| && Distinct(names) && HasLast(names, j, order)
    requires var d2 := Moved(d, names, order, cut, table);
             forall k :: 0 <= k < |names| - 1 ==> nameOf(Join(d2.items[k].block)) == Some(order[k])
    ensures var d2 := Moved(d, names, order, cut, table);
            && (nameOf(Join(cut.block)) == Some(names[j]) ==> Named(nameOf, d2.items, order))
            && (nameOf(Join(cut.block)) != Some(names[j]) ==>
                  forall k :: 0 <= k < |d2.items| ==> nameOf(Join(d2.items[k].block)) != Some(names[j]))
  {
    hide Join, Arranged, Want;
    var d2 := Moved(d, names, order, cut, table);
    assert |d2.items| == |names|;
    assert d2.items[|names| - 1] == cut;
    assert forall k :: 0 <= k < |names| - 1 ==> order[k] != order[|names| - 1];
  }

  /** Moved back, the camera at j has only the part before its last table. */
  lemma {:induction false} BackIsCut(nameOf: NameOf, d: Doc, names: seq<string>, j: nat, order: seq<string>,
                    cut: Item, table: seq<string>)
    requires Good(d) && d.tail == [] && |names| == |d.items| && Distinct(names) && HasLast(names, j, order)
    requires GoodBlock(d.items[j].block) && !Plain(d.items[j].block)
    requires GoodItem(cut) && table != [] && !IsBlank(table[0]) && !IsCamera(table[0])
    requires d.items[j].block == Lines(cut) + table
    requires var d2 := Moved(d, names, order, cut, table);
             Good(d2) && Named(nameOf, d2.items, order) && NoLineEnds(AllLines(d2))
    requires NoLineEnds(AllLines(d)) && Want(order, names) == names
    ensures var there := Join(AllLines(Moved(d, names, order, cut, table)));
            Reorder(nameOf, there, order, names).0 != Join(AllLines(d))
  {
    hide Named, Join, Reorder, GoodBlock, GoodTail, GoodPrefix, Plain, NoLineEnds, IsBlank, Want, Arranged, Flat, Lines,
      Moved;
    var d2 := Moved(d, names, order, cut, table);
    MovedParts(d, names, j, order, cut, table);
    ReorderDoc(nameOf, d2, order, names);
    var n := |names|;
    assert j < n - 1;
    assert names[n - 1] in order;
    var last :| 0 <= last < n && order[last] == names[n - 1];
    assert CanEnd(d2, last);
    var b := Arranged(d2.items, order, names);
    var d3 := d2.(items := b);
    BackItems(d, names, j, order, cut, table);
    ArrangedNoLineEnds(d2, order, names);
    assert d.items[j].block + d.items[j].blanks == Lines(cut) + (table + d.items[j].blanks);
    LinesIs(d.items[j]);
    ArrangedStaysGood(nameOf, d2, order, names, last);
    GoodHas(d3);
    SomeLines(d);
    SomeLines(d3);
    CutShows(d.prefix, d.items, b, d2.tail, j, cut, table + d.items[j].blanks);
    assert AllLines(d) == d.prefix + Flat(d.items) + [] == d.prefix + Flat(d.items);
    DifferentText(AllLines(d), AllLines(d3));
  }

  lemma DifferentText(a: seq<string>, b: seq<string>)
    requires a != b && a != [] && b != [] && NoLineEnds(a) && NoLineEnds(b)
    ensures Join(a) != Join(b)
  {
    hide Join;
    SplitJoin(a);
    SplitJoin(b);
  }

  lemma BackItems(d: Doc, names: seq<string>, j: nat, order: seq<string>,
                    cut: Item, table: seq<string>)
    requires |names| == |d.items| && Distinct(names) && j < |names| - 1 && HasLast(names, j, order)
    ensures var d2 := Moved(d, names, order, cut, table);
            var b := Arranged(d2.items, order, names);
            b[..j] == d.items[..j] && b[j].block == cut.block
  {
    hide BlockNamed, Want;
    var d2 := Moved(d, names, order, cut, table);
    var b, n := Arranged(d2.items, order, names), |names|;
    forall k | 0 <= k <= j
      ensures k < j ==> b[k] == d.items[k]
      ensures k == j ==> b[k].block == cut.block
    {
      if k == j {
        BlockNamedAt(d2.items, order, n - 1);
      } else {
        assert names[k] in order;
        var i :| 0 <= i < n && order[i] == names[k];
        BlockNamedAt(d2.items, order, i);
        BlockNamedAt(d.items, names, k);
      }
    }
  }
}
