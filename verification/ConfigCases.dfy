/** Literal config texts that the form's edits do not keep. */
module ConfigCases {
  import opened Text
  import opened Wrappers
  import opened ConfigScan
  import opened ConfigBlocks
  import opened ConfigLayout
  import opened ConfigUndo
  import opened ConfigEdit
  import opened ConfigSaves
  import opened ConfigAppends
  import opened ConfigOrders
  import opened ConfigRemoves

  const TABLED := ["[[camera]]", "name = \"a\"", "[rtsp]"]
  const BARE := ["[[camera]]", "name = \"a\""]
  const OTHER := ["[[camera]]", "name = \"b\""]
  const FILE := Join(["[[camera]]", "name = \"a\"", "[rtsp]", "[[camera]]", "name = \"b\""])

  function FileDoc(): Doc { Doc([], [Item(TABLED, []), Item(OTHER, [])], []) }

  /** A decoder that reads the blocks' names as TOML does. */
  predicate Reads(nameOf: NameOf) {
    nameOf(Join(TABLED)) == nameOf(Join(BARE)) == Some("a") && nameOf(Join(OTHER)) == Some("b")
  }

  lemma TrimKeeps(t: string)
    requires t != [] && !IsSpace(t[0]) && !IsSpace(t[|t| - 1])
    ensures TrimSpace(t) == t
  {
  }

  lemma TrimFront(t: string)
    requires t != [] && t[0] in {'[', ']'}
    ensures TrimBrackets(t) == TrimBrackets(t[1..])
  {
  }

  lemma TrimBack(t: string)
    requires t != [] && t[0] !in {'[', ']'} && t[|t| - 1] in {'[', ']'}
    ensures TrimBrackets(t) == TrimBrackets(t[..|t| - 1])
  {
  }

  lemma CameraHeading()
    ensures IsHeader("[[camera]]") && IsCamera("[[camera]]")
  {
    hide TrimBrackets, TrimSpace;
    TrimKeeps("[[camera]]");
    TrimKeeps("camera");
    TrimFront("[[camera]]");
    assert "[[camera]]"[1..] == "[camera]]";
    TrimFront("[camera]]");
    assert "[camera]]"[1..] == "camera]]";
    TrimBack("camera]]");
    assert "camera]]"[..7] == "camera]";
    TrimBack("camera]");
    assert "camera]"[..6] == "camera";
    TrimmedAlready("camera");
  }

  lemma TrimmedAlready(t: string)
    requires t != [] && t[0] !in {'[', ']'} && t[|t| - 1] !in {'[', ']'}
    ensures TrimBrackets(t) == t
  {
  }

  lemma TableHeading()
    ensures IsHeader("[rtsp]") && !IsCamera("[rtsp]") && !IsBlank("[rtsp]")
  {
    hide TrimSpace;
    TrimKeeps("[rtsp]");
    assert "[rtsp]"[1] == 'r';
  }

  /** No three in a row where there are no two. */
  lemma {:induction false} CountNone(line: string, mark: string)
    requires |mark| == 3 && mark[0] == mark[1]
    requires forall i :: 0 < i < |line| ==> line[i - 1] != mark[0] || line[i] != mark[0]
    ensures Count(line, mark) == 0
    decreases |line|
  {
    if |line| >= 3 {
      assert line[..3][0] == line[0] && line[..3][1] == line[1];
      assert forall i :: 0 < i < |line| ==> line[1..][i - 1] == line[i];
      CountNone(line[1..], mark);
    }
  }

  /** A line with a quoted name is no header and opens no long string. */
  lemma NameLine(line: string)
    requires line == "name = \"a\"" || line == "name = \"b\""
    ensures !IsHeader(line) && !IsBlank(line) && After(Outside, line) == Outside
  {
    hide TrimSpace, Count;
    TrimKeeps(line);
    CountNone(line, Mark(Basic));
    CountNone(line, Mark(Literal));
  }

  lemma BlocksAre()
    ensures GoodBlock(TABLED) && !Plain(TABLED) && Closed(TABLED)
    ensures GoodBlock(BARE) && Plain(BARE) && Closed(BARE)
    ensures GoodBlock(OTHER) && Plain(OTHER) && Closed(OTHER)
  {
    hide IsHeader, IsCamera, IsBlank, After;
    CameraHeading();
    TableHeading();
    NameLine("name = \"a\"");
    NameLine("name = \"b\"");
    HeaderStaysOutside("[rtsp]");
    assert TABLED[1..] == ["name = \"a\"", "[rtsp]"] && TABLED[1..][1..] == ["[rtsp]"];
    assert BARE[1..] == ["name = \"a\""] && OTHER[1..] == ["name = \"b\""];
    assert ["[rtsp]"][1..] == [];
  }

  /** A file of two blocks. */
  lemma TwoBlocks(a: seq<string>, b: seq<string>)
    requires GoodBlock(a) && GoodBlock(b) && a != [] && b != [] && Closed(a) && Plain(b)
    ensures var d := Doc([], [Item(a, []), Item(b, [])], []); Good(d) && (AllClosed(d.items) <==> Closed(b))
  {
    hide GoodBlock, Plain, Closed;
    var items := [Item(a, []), Item(b, [])];
    assert items[..1] == [Item(a, [])] && items[1].block == b && items[0].block == a;
    EndIs(items, []);
    if Closed(b) {
      assert forall k :: 0 <= k < 2 ==> items[k].block != [] && Closed(items[k].block);
    }
  }

  lemma ItemsFlat(items: seq<Item>, a: seq<string>, b: seq<string>)
    requires items == [Item(a, []), Item(b, [])]
    ensures Flat(items) == a + b
  {
    assert items[1..] == [Item(b, [])] && items[1..][1..] == [];
    assert Flat(items[1..]) == b;
  }

  lemma EditedItems(block: seq<string>)
    ensures Edited(FileDoc(), 0, block).items == [Item(block, []), Item(OTHER, [])]
  {
    var d := FileDoc();
    assert Followed(d, 0) && d.items[0].blanks + [] == [];
  }

  lemma FileLines()
    ensures AllLines(FileDoc()) == ["[[camera]]", "name = \"a\"", "[rtsp]", "[[camera]]", "name = \"b\""]
    ensures NoLineEnds(AllLines(FileDoc()))
  {
    hide Flat;
    ItemsFlat(FileDoc().items, TABLED, OTHER);
  }

  lemma FileIsDoc(nameOf: NameOf)
    requires Reads(nameOf)
    ensures Good(FileDoc()) && Named(nameOf, FileDoc().items, ["a", "b"]) && NoLineEnds(AllLines(FileDoc()))
    ensures Join(AllLines(FileDoc())) == FILE && AllClosed(FileDoc().items)
  {
    hide GoodBlock, Plain, Closed, Good, AllClosed, Join, AllLines, NoLineEnds;
    BlocksAre();
    FileLines();
    TwoBlocks(TABLED, OTHER);
  }

  /** Moving the first camera last and back does not give the file back. */
  lemma NotRestored(nameOf: NameOf)
    requires Reads(nameOf)
    ensures !IsUndone(nameOf, FILE, ["a", "b"], ["b", "a"])
  {
    hide GoodBlock, Plain, Closed, AllClosed, Good, Named, IsUndone, Join, Reads, NoLineEnds, AllLines;
    FileIsDoc(nameOf);
    BlocksAre();
    assert MovedLast(["a", "b"], 0) == ["b", "a"];
    MovedLastIsAll(["a", "b"], 0);
    NotUndoneInDoc(nameOf, FileDoc(), ["a", "b"], 0, ["b", "a"]);
  }

  /** Saving the first camera as it is drops the table below it. */
  lemma TableDropped(nameOf: NameOf)
    requires Reads(nameOf)
    ensures Upsert(nameOf, FILE, "a", Join(BARE) + "\n")
         == Join(["[[camera]]", "name = \"a\"", "[[camera]]", "name = \"b\""])
  {
    hide GoodBlock, Plain, Good, Named, Upsert, NoLineEnds, Join;
    FileIsDoc(nameOf);
    UpsertInDoc(nameOf, FileDoc(), ["a", "b"], 0, BARE);
    var e := Edited(FileDoc(), 0, BARE);
    EditedItems(BARE);
    ItemsFlat(e.items, BARE, OTHER);
    assert AllLines(e) == ["[[camera]]", "name = \"a\"", "[[camera]]", "name = \"b\""];
  }

  // A password that the scan takes for the start of a long string

  const QUOTED := ["[[camera]]", "name = \"a\"", "password = \"'''\""]
  const TWO := BARE + OTHER

  predicate ReadsQuoted(nameOf: NameOf) {
    && nameOf(Join(BARE)) == nameOf(Join(QUOTED)) == nameOf(Join(QUOTED + OTHER)) == Some("a")
    && nameOf(Join(OTHER)) == Some("b")
  }

  lemma {:induction false} CountFrom(a: string, b: string, mark: string)
    requires |mark| == 3 && mark[0] !in a
    ensures Count(a + b, mark) == Count(b, mark)
    decreases |a|
  {
    if a == "" {
      assert a + b == b;
    } else {
      assert (a + b)[1..] == a[1..] + b && (a + b)[0] == a[0];
      if |a + b| >= 3 {
        assert (a + b)[..3][0] == a[0];
        CountFrom(a[1..], b, mark);
      }
    }
  }

  lemma PasswordLine()
    ensures var line := "password = \"'''\"";
            !IsHeader(line) && !IsBlank(line) && After(Outside, line) == Literal
  {
    hide TrimSpace, Count;
    var line := "password = \"'''\"";
    TrimKeeps(line);
    CountNone(line, Mark(Basic));
    OneMark();
    CountFrom("password = \"", "'''\"", Mark(Literal));
    assert line == "password = \"" + "'''\"";
  }

  lemma OneMark()
    ensures Count("'''\"", "'''") == 1
  {
    assert "'''\""[..3] == "'''" && "'''\""[3..] == "\"";
  }

  lemma InLiteral(line: string)
    requires line == "[[camera]]" || line == "name = \"b\""
    ensures After(Literal, line) == Literal
  {
    hide Count;
    CountNone(line, Mark(Literal));
  }

  lemma QuotedIsWritten()
    ensures Written(QUOTED) && Through(Outside, QUOTED[1..]) != Outside
  {
    hide IsHeader, IsCamera, IsBlank, NoLineEnds, After, Written;
    CameraHeading();
    PasswordLine();
    NameLine("name = \"a\"");
    LineEndsNone();
    ThreeLines("[[camera]]", "name = \"a\"", "password = \"'''\"");
  }

  lemma ThreeLines(a: string, b: string, c: string)
    requires IsHeader(a) && IsCamera(a) && !IsHeader(b) && !IsBlank(b) && !IsHeader(c) && !IsBlank(c)
    requires NoLineEnds([a, b, c])
    ensures Written([a, b, c]) && Through(Outside, [a, b, c][1..]) == After(After(Outside, b), c)
  {
    hide IsHeader, IsCamera, IsBlank, After;
    assert [a, b, c][1..] == [b, c] && [b, c][1..] == [c] && [c][1..] == [];
    var q := After(Outside, b);
    assert Through(q, [c]) == Through(After(q, c), []);
    assert Through(Outside, [b, c]) == Through(q, [c]);
  }

  lemma LineEndsNone()
    ensures NoLineEnds(QUOTED) && NoLineEnds(OTHER)
  {
  }

  lemma QuotedFile()
    ensures QUOTED + OTHER == ["[[camera]]"] + BehindHeader() && BehindHeader()[3] == "name = \"b\""
  {
  }

  /** The saved file from its second line on. */
  function BehindHeader(): seq<string> {
    ["name = \"a\""] + (["password = \"'''\""] + (["[[camera]]"] + (["name = \"b\""] + [])))
  }

  lemma NoHeaderBehind()
    ensures NoHeader(Outside, BehindHeader())
  {
    hide IsHeader, After, NoHeader;
    PasswordLine();
    NameLine("name = \"a\"");
    InLiteral("[[camera]]");
    InLiteral("name = \"b\"");
    NothingAtEnd();
    OneUnseen(Literal, "name = \"b\"", []);
    OneUnseen(Literal, "[[camera]]", ["name = \"b\""] + []);
    OneUnseen(Outside, "password = \"'''\"", ["[[camera]]"] + (["name = \"b\""] + []));
    OneUnseen(Outside, "name = \"a\"", ["password = \"'''\""] + (["[[camera]]"] + (["name = \"b\""] + [])));
  }

  lemma NothingAtEnd()
    ensures NoHeader(Literal, [])
  {
  }

  /** The scan takes all of the saved file after the first header for that camera's. */
  lemma QuotedSpans()
    ensures Spans(QUOTED + OTHER) == [Span(0, 5)] && Trimmed(QUOTED + OTHER, Span(0, 5)) == Span(0, 5)
  {
    hide IsHeader, IsCamera, IsBlank, After, NoHeader, Trimmed, BehindHeader;
    CameraHeading();
    NameLine("name = \"b\"");
    QuotedFile();
    NoHeaderBehind();
    var lines := QUOTED + OTHER;
    assert |lines| == 5 && lines[0] == "[[camera]]" && lines[4] == "name = \"b\"";
    HeaderStaysOutside(lines[0]);
    assert lines[1..] == BehindHeader();
    ScanNone(lines, 1, Outside, [Span(0, 5)]);
    assert AtLine(lines, 0, Outside, []) == [Span(0, 5)];
    TrimmedStops(lines, Span(0, 5), 5);
  }

  lemma TwoIsDoc(nameOf: NameOf)
    requires ReadsQuoted(nameOf)
    ensures var d := Doc([], [Item(BARE, []), Item(OTHER, [])], []);
            && Good(d) && Named(nameOf, d.items, ["a", "b"]) && NoLineEnds(AllLines(d)) && AllLines(d) == TWO
  {
    hide GoodBlock, Plain, Closed, Good, AllClosed, Join, Flat;
    var d := Doc([], [Item(BARE, []), Item(OTHER, [])], []);
    BlocksAre();
    TwoBlocks(BARE, OTHER);
    ItemsFlat(d.items, BARE, OTHER);
  }

  /**
   The first save of such a password hides the camera below from the form, and saving again, without a
   change, deletes it.
   */
  lemma CameraDeleted(nameOf: NameOf)
    requires ReadsQuoted(nameOf)
    ensures var block := Join(QUOTED) + "\n";
            var once := Upsert(nameOf, Join(TWO), "a", block);
            && Written(QUOTED) && once == Join(QUOTED + OTHER) && Find(nameOf, Split(once), "b").None?
            && Upsert(nameOf, once, "a", block) == block
  {
    hide Join, Split, Find, Upsert, Written;
    QuotedIsWritten();
    FirstSave(nameOf);
    SecondSave(nameOf);
  }

  lemma FirstSave(nameOf: NameOf)
    requires ReadsQuoted(nameOf)
    ensures Upsert(nameOf, Join(TWO), "a", Join(QUOTED) + "\n") == Join(QUOTED + OTHER)
  {
    hide Join, Upsert, GoodBlock, Plain, Good, Named, NoLineEnds, Flat;
    TwoIsDoc(nameOf);
    var d := Doc([], [Item(BARE, []), Item(OTHER, [])], []);
    UpsertInDoc(nameOf, d, ["a", "b"], 0, QUOTED);
    var e := Edited(d, 0, QUOTED);
    assert Followed(d, 0) && d.items[0].blanks + [] == [];
    assert e.items == [Item(QUOTED, []), Item(OTHER, [])];
    ItemsFlat(e.items, QUOTED, OTHER);
    assert AllLines(e) == QUOTED + OTHER;
    assert ["a", "b"][0] == "a";
  }

  lemma SecondSave(nameOf: NameOf)
    requires ReadsQuoted(nameOf)
    ensures var once := Join(QUOTED + OTHER);
            && Find(nameOf, Split(once), "b").None?
            && Upsert(nameOf, once, "a", Join(QUOTED) + "\n") == Join(QUOTED) + "\n"
  {
    hide Join, Split, Trimmed, IsHeader, IsCamera, IsBlank, Scan;
    var lines := QUOTED + OTHER;
    LineEndsNone();
    SplitJoin(lines);
    QuotedSpans();
    FindIs(nameOf, lines, "a");
    FindIs(nameOf, lines, "b");
    assert [Span(0, 5)][1..] == [];
    BodyIs(lines, 0, lines);
    assert lines[5..] == [];
    JoinFew();
    assert "" + (Join(QUOTED) + "\n") + "" == Join(QUOTED) + "\n";
  }

  // That camera last in its file

  function LastDoc(): Doc { Doc([], [Item(OTHER, []), Item(QUOTED, [])], []) }

  lemma QuotedIsOpen()
    ensures GoodBlock(QUOTED) && Plain(QUOTED) && Through(Outside, QUOTED[1..]) == Literal && !Closed(QUOTED)
  {
    hide IsHeader, IsCamera, IsBlank, After, NoHeader, NoCamera, Written;
    CameraHeading();
    PasswordLine();
    NameLine("name = \"a\"");
    QuotedIsWritten();
    LineEndsNone();
    ThreeLines("[[camera]]", "name = \"a\"", "password = \"'''\"");
    WrittenIsGood(QUOTED);
  }

  lemma WrittenIsGood(block: seq<string>)
    requires Written(block)
    ensures GoodBlock(block) && Plain(block)
  {
    hide IsHeader, IsCamera, IsBlank, NoHeader, NoCamera;
    WrittenIsPlain(block, Outside);
  }

  lemma LastIsDoc(nameOf: NameOf)
    requires ReadsQuoted(nameOf)
    ensures var d := LastDoc();
            && Good(d) && Named(nameOf, d.items, ["b", "a"]) && NoLineEnds(AllLines(d)) && AllLines(d) == OTHER + QUOTED
            && !AllClosed(d.items) && KeepsOpen(d)
  {
    hide GoodBlock, Plain, Closed, Good, AllClosed, Join, Flat, Odd, NoLineEnds, KeepsOpen, Through;
    var d := LastDoc();
    BlocksAre();
    QuotedIsOpen();
    TwoBlocks(OTHER, QUOTED);
    LineEndsNone();
    NoEndsBoth();
    ItemsFlat(d.items, OTHER, QUOTED);
    assert AllLines(d) == OTHER + QUOTED;
    assert d.items[0].block == OTHER && d.items[1].block == QUOTED;
    LastKeepsOpen();
  }

  lemma LastKeepsOpen()
    ensures KeepsOpen(LastDoc())
  {
    hide Flat, Odd, Through;
    QuotedIsOpen();
    assert LastDoc().items[..1] == [Item(OTHER, [])];
    OneFlat(OTHER);
    OtherNeverEnds();
  }

  lemma NoEndsBoth()
    requires NoLineEnds(QUOTED) && NoLineEnds(OTHER)
    ensures NoLineEnds(OTHER + QUOTED)
  {
  }

  lemma OneFlat(block: seq<string>)
    ensures Flat([Item(block, [])]) == block
  {
    assert [Item(block, [])][1..] == [];
  }

  lemma OtherNeverEnds()
    ensures forall l :: l in OTHER ==> !Odd(l, Literal)
  {
    hide Odd;
    InLiteral("[[camera]]");
    InLiteral("name = \"b\"");
  }

  /** A file without a table whose last camera has that password: moving it up and back does not restore it. */
  lemma LastNotRestored(nameOf: NameOf)
    requires ReadsQuoted(nameOf)
    ensures var text := Join(OTHER + QUOTED);
            && NamesOfFile(nameOf, Split(text), ["b", "a"]) && false !in Headers(Outside, Split(text))
            && Reorder(nameOf, text, ["b", "a"], ["a", "b"]) == (Join(QUOTED + OTHER), true)
            && !IsUndone(nameOf, text, ["b", "a"], ["a", "b"])
  {
    hide Join, Split, Reorder, IsUndone, Headers, NamesOfFile, Good, Named, AllLines, NoLineEnds, KeepsOpen, AllClosed;
    var d := LastDoc();
    LastIsDoc(nameOf);
    SomeLines(d);
    SplitJoin(AllLines(d));
    NamedDoc(nameOf, d, ["b", "a"]);
    assert MovedLast(["b", "a"], 0) == ["a", "b"];
    MovedLastIsAll(["b", "a"], 0);
    ReorderDoc(nameOf, d, ["b", "a"], ["a", "b"]);
    LastArranged(d);
    OpenNotUndone(nameOf, d, ["b", "a"], ["a", "b"]);
    NoTablesInLast(d);
  }

  lemma LastArranged(d: Doc)
    requires d == LastDoc()
    ensures AllLines(d.(items := Arranged(d.items, ["b", "a"], ["a", "b"]))) == QUOTED + OTHER
  {
    hide Flat;
    BlockNamedAt(d.items, ["b", "a"], 0);
    BlockNamedAt(d.items, ["b", "a"], 1);
    var items := Arranged(d.items, ["b", "a"], ["a", "b"]);
    assert items == [Item(QUOTED, []), Item(OTHER, [])];
    ItemsFlat(items, QUOTED, OTHER);
  }

  lemma NoTablesInLast(d: Doc)
    requires d == LastDoc() && Good(d)
    ensures false !in Headers(Outside, AllLines(d))
  {
    hide Headers, AllLines, Good, GoodItems, ItemHeaders, Plain, GoodBlock;
    GoodHas(d);
    GoodBlocksSome(d.items);
    DocHeaders(d);
    AllCamerasIff(d.items);
    BlocksAre();
    QuotedIsOpen();
    NoPrefix();
    assert d.tail == [] && d.prefix == [];
  }

  lemma NoPrefix()
    ensures Headers(Outside, []) == []
  {
  }

  // Removing

  /** Removing the camera with that password deletes the hidden one below it as well. */
  lemma HiddenIsDeleted(nameOf: NameOf)
    requires ReadsQuoted(nameOf)
    ensures var text := Join(QUOTED + OTHER);
            Find(nameOf, Split(text), "b").None? && Remove(nameOf, text, "a") == ("", true)
  {
    hide Join, Split, Trimmed, IsHeader, IsCamera, IsBlank, Scan, Remove, TrimSpace;
    var lines := QUOTED + OTHER;
    var text := Join(lines);
    LineEndsNone();
    SplitJoin(lines);
    QuotedSpans();
    FindIs(nameOf, lines, "a");
    FindIs(nameOf, lines, "b");
    assert [Span(0, 5)][1..] == [];
    BodyIs(lines, 0, lines);
    var b, f := RemoveTakes(nameOf, text, "a");
    assert lines[..b] + lines[f..] == [];
    JoinFew();
  }

  /** Removing the second camera of the file leaves the first one's table where it is, but not in its block. */
  lemma TableLeftOut(nameOf: NameOf)
    requires Reads(nameOf)
    ensures var after := Split(Remove(nameOf, FILE, "b").0);
            && Find(nameOf, Split(FILE), "a") == Some(Span(0, 3)) && after == TABLED
            && Find(nameOf, after, "a") == Some(Span(0, 2))
  {
    hide Join, Split, Find, Remove, Trimmed, CutShort, AllBlank, NoHeader, Body;
    FileFinds(nameOf);
    RemoveKeepsOthers(nameOf, FILE, "b", "a");
    FileCut(Split(FILE));
  }

  lemma FileFinds(nameOf: NameOf)
    requires Reads(nameOf)
    ensures Split(FILE) == ["[[camera]]", "name = \"a\"", "[rtsp]", "[[camera]]", "name = \"b\""]
    ensures Find(nameOf, Split(FILE), "a") == Some(Span(0, 3)) && Find(nameOf, Split(FILE), "b") == Some(Span(3, 5))
  {
    hide GoodBlock, Plain, Closed, AllClosed, Good, Named, Join, Split, Reads, NoLineEnds, AllLines, Find, Before,
         Behind, Blocks;
    FileIsDoc(nameOf);
    FileLines();
    CameraAt(nameOf, FileDoc(), ["a", "b"], 0);
    CameraAt(nameOf, FileDoc(), ["a", "b"], 1);
    FilePlaces();
  }

  lemma FileCut(lines: seq<string>)
    requires lines == ["[[camera]]", "name = \"a\"", "[rtsp]", "[[camera]]", "name = \"b\""]
    ensures LastTwo(lines, Span(0, 3), Span(3, 5)) && lines[..3] == TABLED
    ensures CutShort(lines, Span(0, 3)) == Span(0, 2) && Body(lines, Span(0, 2)) == Join(BARE)
  {
    hide Join, CutShort, Body;
    assert lines[..3] == TABLED && lines[0..2] == BARE;
    assert lines[3..3] == [] && lines[5..] == [];
    TableCut(lines);
    BodyIs(lines, 0, BARE);
  }

  lemma FilePlaces()
    ensures var d := FileDoc(); Blocks(d.items, |d.prefix|)[..2] == [Span(0, 3), Span(3, 5)]
  {
    var d := FileDoc();
    BlockPlace(d.items, 0, 0);
    BlockPlace(d.items, 0, 1);
    assert d.items[..0] == [] && d.items[..1] == [Item(TABLED, [])];
    OneFlat(TABLED);
  }

  lemma TableCut(lines: seq<string>)
    requires |lines| == 5 && lines[..3] == TABLED
    ensures CutShort(lines, Span(0, 3)) == Span(0, 2)
  {
    hide IsHeader, IsCamera, IsBlank, After, Trimmed;
    NameLine("name = \"a\"");
    TableHeading();
    HeaderStaysOutside("[rtsp]");
    var own := lines[1..3];
    assert own[0] == lines[..3][1] == "name = \"a\"" && own[1] == lines[..3][2] == "[rtsp]";
    assert own[1..] == ["[rtsp]"] && ["[rtsp]"][1..] == [];
    assert Reach(Outside, own) == 1;
    TrimmedStops(lines, Span(0, 2), 2);
  }
}
