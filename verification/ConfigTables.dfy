/** Which tables of the config text a save keeps. */
module ConfigTables {
  import opened Text
  import opened Wrappers
  import opened ConfigScan
  import opened ConfigLayout
  import opened ConfigEdit
  import opened ConfigSaves

  /** The headers the scan acts on that are not a camera's, in order. */
  function TableLines(q: Quote, ls: seq<string>): seq<string>
    decreases |ls|
  {
    if ls == [] then []
    else (if Heads(q, ls[0]) && !IsCamera(ls[0]) then [ls[0]] else []) + TableLines(After(q, ls[0]), ls[1..])
  }

  lemma {:induction false} TablesAppend(q: Quote, a: seq<string>, b: seq<string>)
    ensures TableLines(q, a + b) == TableLines(q, a) + TableLines(Through(q, a), b)
    decreases |a|
  {
    hide After, Heads, IsCamera;
    if a == [] {
      assert a + b == b;
    } else {
      assert (a + b)[0] == a[0] && (a + b)[1..] == a[1..] + b;
      TablesAppend(After(q, a[0]), a[1..], b);
    }
  }

  lemma {:induction false} NoTables(q: Quote, ls: seq<string>)
    ensures NoHeader(q, ls) <==> NoCamera(q, ls) && TableLines(q, ls) == []
    decreases |ls|
  {
    hide After, Heads, IsCamera;
    if ls != [] {
      NoTables(After(q, ls[0]), ls[1..]);
    }
  }

  /** A file's tables around one of its cameras. */
  lemma {:induction false} TablesAround(before: seq<string>, block: seq<string>, behind: seq<string>)
    requires Through(Outside, before) == Outside && block != [] && IsHeader(block[0]) && IsCamera(block[0])
    ensures TableLines(Outside, before + block + behind)
         == TableLines(Outside, before)
            + (TableLines(Outside, block[1..]) + TableLines(Through(Outside, block[1..]), behind))
  {
    hide Through, IsHeader, IsCamera, TableLines;
    TablesAppend(Outside, before, block + behind);
    assert before + block + behind == before + (block + behind);
    HeadOfBlock(block);
    TablesAppend(Outside, block, behind);
  }

  lemma {:induction false} HeadOfBlock(block: seq<string>)
    requires block != [] && IsHeader(block[0]) && IsCamera(block[0])
    ensures TableLines(Outside, block) == TableLines(Outside, block[1..])
    ensures Through(Outside, block) == Through(Outside, block[1..])
  {
    hide After, IsHeader, IsCamera;
    HeaderStaysOutside(block[0]);
  }

  /** Behind the found block the scan sees the same tables whatever string the block leaves it in. */
  lemma {:induction false} TablesBehind(inner: seq<string>, behind: seq<string>)
    requires |inner| <= Reach(Outside, inner + behind)
    requires AllBlank(behind[..Reach(Outside, inner + behind) - |inner|])
    ensures TableLines(Through(Outside, inner), behind) == TableLines(Outside, behind)
  {
    hide Through, IsHeader, IsCamera, IsBlank, Reach, TableLines;
    var q, m := Through(Outside, inner), Reach(Outside, inner + behind) - |inner|;
    var blank, rest := behind[..m], behind[m..];
    assert behind == blank + rest;
    if rest == [] {
      NoTablesInBlank(q, behind);
      NoTablesInBlank(Outside, behind);
    } else {
      ReachStops(Outside, inner + behind);
      assert (inner + behind)[..|inner| + m] == inner + blank;
      RunAppend(Outside, inner, blank);
      BlanksAreNothing(q, blank);
    }
  }

  lemma NoTablesInBlank(q: Quote, ls: seq<string>)
    requires AllBlank(ls)
    ensures TableLines(q, ls) == []
  {
    hide IsBlank, After;
    BlanksAreNothing(q, ls);
    NoTables(q, ls);
  }

  /** No camera stands inside the found block. */
  lemma {:induction false} ReachNoCamera(q: Quote, ls: seq<string>, m: nat)
    requires m <= Reach(q, ls)
    ensures NoCamera(q, ls[..m])
    decreases |ls|
  {
    hide After, IsHeader, IsCamera, NoHeader;
    if m > 0 {
      ReachNoCamera(After(q, ls[0]), ls[1..], m - 1);
      assert ls[..m][0] == ls[0] && ls[..m][1..] == ls[1..][..m - 1];
    }
  }

  /**
   Saving a camera the file has, in any text: the file has the same tables as before exactly when those in
   the old block and those the scan saw behind it are those it sees behind the new one; and when the new
   block stays apart from what is behind it, exactly when there was no header between the old block's own
   and its end.
   */
  lemma {:induction false} UpsertKeepsTablesIff(nameOf: NameOf, text: string, name: string, block: seq<string>)
    requires Find(nameOf, Split(text), name).Some? && Written(block)
    ensures var lines, found := Split(text), Find(nameOf, Split(text), name).value;
            && found.start < found.end <= |lines|
            && var inner, behind := lines[found.start + 1..found.end], lines[found.end..];
               var once := Upsert(nameOf, text, name, Join(block) + "\n");
               var kept := TableLines(Outside, Split(once)) == TableLines(Outside, lines);
               && (kept <==> TableLines(Outside, inner) + TableLines(Outside, behind)
                             == TableLines(Through(Outside, block[1..]), behind))
               && (StaysApart(block, behind) ==> (kept <==> NoHeader(Outside, inner)))
  {
    hide Find, Join, Split, IsHeader, IsCamera, IsBlank, Upsert, Body, TableLines, Through, Reach, Trimmed, CloseLast,
      Scan, NoHeader, NoCamera;
    var lines, found := Split(text), Find(nameOf, Split(text), name).value;
    UpsertReplaces(nameOf, text, name, block);
    var s, more := FoundAt(nameOf, lines, name);
    FoundReach(lines, s, found);
    var inner, behind := lines[s + 1..found.end], lines[found.end..];
    OldTables(lines, found);
    TablesBehind(inner, behind);
    NewTables(lines, found, block);
    ReachNoCamera(Outside, inner + behind, |inner|);
    assert (inner + behind)[..|inner|] == inner;
    NoTables(Outside, inner);
    if AllBlank(behind) {
      NoTablesInBlank(Through(Outside, block[1..]), behind);
      NoTablesInBlank(Outside, behind);
    }
    hide AllBlank;
    Cancel(TableLines(Outside, lines[..s]), TableLines(Outside, inner), TableLines(Outside, behind),
           TableLines(Through(Outside, block[1..]), behind));
  }

  lemma Cancel(a: seq<string>, b: seq<string>, c: seq<string>, d: seq<string>)
    ensures a + d == a + (b + c) <==> b + c == d
    ensures c == d ==> (b + c == d <==> b == [])
  {
    assert (a + d)[|a|..] == d && (a + (b + c))[|a|..] == b + c;
    assert |b + c| == |b| + |c|;
    assert [] + c == c;
  }

  lemma OldTables(lines: seq<string>, found: Span)
    requires found.start < found.end <= |lines| && CameraLine(lines, found.start)
    ensures var inner, behind := lines[found.start + 1..found.end], lines[found.end..];
            TableLines(Outside, lines) == TableLines(Outside, lines[..found.start])
                                          + (TableLines(Outside, inner) + TableLines(Through(Outside, inner), behind))
  {
    hide Through, IsHeader, IsCamera, TableLines;
    var own := lines[found.start..found.end];
    assert own[0] == lines[found.start] && own[1..] == lines[found.start + 1..found.end];
    assert lines == lines[..found.start] + own + lines[found.end..];
    TablesAround(lines[..found.start], own, lines[found.end..]);
  }

  lemma NewTables(lines: seq<string>, found: Span, block: seq<string>)
    requires found.start < found.end <= |lines| && CameraLine(lines, found.start) && Written(block)
    ensures TableLines(Outside, Replaced(lines, found, block))
         == TableLines(Outside, lines[..found.start]) + TableLines(Through(Outside, block[1..]), lines[found.end..])
  {
    hide Through, IsHeader, IsCamera, IsBlank, TableLines, NoHeader, NoCamera;
    var q, tail := Through(Outside, block[1..]), if found.end == |lines| then [""] else lines[found.end..];
    TablesAround(lines[..found.start], block, tail);
    WrittenIsPlain(block, Outside);
    NoTables(Outside, block[1..]);
    if found.end == |lines| {
      EmptyIsBlank();
      NoTablesInBlank(q, [""]);
      NoTablesInBlank(q, []);
      assert lines[found.end..] == [];
    }
    assert [] + TableLines(q, tail) == TableLines(q, tail);
  }
}
