/** Saving and removing one camera's block: upsertCameraBlock and removeCameraBlock in internal/control/camform.go. */
module ConfigEdit {
  import opened Lists
  import opened Text
  import opened Wrappers
  import opened ConfigScan
  import opened ConfigBlocks
  import opened ConfigLayout
  import opened ConfigUndo

  /** strings.TrimRight(text, "\n"). */
  function TrimLineEnds(text: string): string {
    if text != "" && text[|text| - 1] == '\n' then TrimLineEnds(text[..|text| - 1]) else text
  }

  /** The text with the block written for a camera in place of its block, or at the end when it has none. */
  function Upsert(nameOf: NameOf, text: string, name: string, block: string): string {
    var lines := Split(text);
    var sp := Find(nameOf, lines, name);
    if sp.None? then
      var existing := TrimLineEnds(text);
      if TrimSpace(existing) == "" then block else existing + "\n\n" + block
    else
      FoundIsPlaced(nameOf, lines, name);
      (if sp.value.start > 0 then Join(lines[..sp.value.start]) + "\n" else "") + block + Join(lines[sp.value.end..])
  }

  /** Past blank lines, forwards and backwards. */
  function Forward(lines: seq<string>, i: nat): (r: nat)
    requires i <= |lines|
    ensures i <= r <= |lines| && AllBlank(lines[i..r]) && (r < |lines| ==> !IsBlank(lines[r]))
    decreases |lines| - i
  {
    if i < |lines| && IsBlank(lines[i]) then
      var r := Forward(lines, i + 1);
      assert lines[i..r] == [lines[i]] + lines[i + 1..r];
      r
    else i
  }

  function Back(lines: seq<string>, i: nat): (r: nat)
    requires i <= |lines|
    ensures r <= i && AllBlank(lines[r..i]) && (r > 0 ==> !IsBlank(lines[r - 1]))
    decreases i
  {
    if i > 0 && IsBlank(lines[i - 1]) then
      var r := Back(lines, i - 1);
      assert lines[r..i] == lines[r..i - 1] + [lines[i - 1]];
      r
    else i
  }

  /** The text without a camera's block and the blank lines around it. */
  function Remove(nameOf: NameOf, text: string, name: string): (string, bool) {
    var lines := Split(text);
    var sp := Find(nameOf, lines, name);
    if sp.None? then (text, false) else
    FoundIsPlaced(nameOf, lines, name);
    var out := Join(lines[..Back(lines, sp.value.start)] + lines[Forward(lines, sp.value.end)..]);
    (if TrimSpace(out) == "" then "" else out, true)
  }

  method UpsertCameraBlock(nameOf: NameOf, text: string, name: string, block: string) returns (out: string)
    ensures out == Upsert(nameOf, text, name, block)
  {
    hide Find, Join;
    var lines := Split(text);
    var sp := FindCameraBlock(nameOf, lines, name);
    if sp.None? {
      var existing := text;
      while existing != "" && existing[|existing| - 1] == '\n'
        invariant TrimLineEnds(text) == TrimLineEnds(existing)
        decreases |existing|
      {
        existing := existing[..|existing| - 1];
      }
      return if TrimSpace(existing) == "" then block else existing + "\n\n" + block;
    }
    FoundIsPlaced(nameOf, lines, name);
    var prefix := "";
    if sp.value.start > 0 {
      prefix := Join(lines[..sp.value.start]) + "\n";
    }
    out := prefix + block + Join(lines[sp.value.end..]);
  }

  method RemoveCameraBlock(nameOf: NameOf, text: string, name: string) returns (out: string, ok: bool)
    ensures (out, ok) == Remove(nameOf, text, name)
  {
    hide Find, Join, IsBlank, Body, Placed, TrimSpace;
    var lines := Split(text);
    var sp := FindCameraBlock(nameOf, lines, name);
    if sp.None? {
      return text, false;
    }
    FoundIsPlaced(nameOf, lines, name);
    var start, end := sp.value.start, sp.value.end;
    while end < |lines| && IsBlank(lines[end])
      invariant sp.value.end <= end <= |lines| && Forward(lines, sp.value.end) == Forward(lines, end)
    {
      end := end + 1;
    }
    while start > 0 && IsBlank(lines[start - 1])
      invariant 0 <= start <= sp.value.start && Back(lines, sp.value.start) == Back(lines, start)
    {
      start := start - 1;
    }
    out := Join(lines[..start] + lines[end..]);
    if TrimSpace(out) == "" {
      out := "";
    }
    ok := true;
  }

  // Saving a camera the file has

  /** Whether anything follows camera k's block. */
  predicate Followed(d: Doc, k: nat)
    requires k < |d.items|
  {
    d.items[k].blanks != [] || k + 1 < |d.items| || d.tail != []
  }

  /** The file with camera k's block replaced; at the very end the new block's line end is kept. */
  function Edited(d: Doc, k: nat, block: seq<string>): Doc
    requires k < |d.items|
  {
    d.(items := d.items[k := Item(block, d.items[k].blanks + if Followed(d, k) then [] else [""])])
  }

  lemma {:induction false} BlockPlace(items: seq<Item>, o: nat, k: nat)
    requires k < |items|
    ensures Blocks(items, o)[k] == Span(o + |Flat(items[..k])|, o + |Flat(items[..k])| + |items[k].block|)
    decreases k
  {
    hide Lines;
    if k == 0 {
      assert items[..0] == [];
    } else {
      BlockPlace(items[1..], o + |Lines(items[0])|, k - 1);
      assert items[..k][1..] == items[1..][..k - 1] && items[..k][0] == items[0];
    }
  }

  /** What stands before and after camera k's block. */
  function Before(d: Doc, k: nat): seq<string>
    requires k < |d.items|
  {
    d.prefix + Flat(d.items[..k])
  }

  function Behind(d: Doc, k: nat): seq<string>
    requires k < |d.items|
  {
    d.items[k].blanks + Flat(d.items[k + 1..]) + d.tail
  }

  lemma LinesAround(d: Doc, k: nat)
    requires k < |d.items|
    ensures AllLines(d) == Before(d, k) + d.items[k].block + Behind(d, k)
    ensures !Followed(d, k) ==> Behind(d, k) == []
  {
    hide Flat;
    FlatSplit(d.items, k);
    LinesIs(d.items[k]);
    Spread(d.prefix, Flat(d.items[..k]), d.items[k].block, d.items[k].blanks, Flat(d.items[k + 1..]), d.tail);
    if k + 1 == |d.items| {
      assert d.items[k + 1..] == [];
      FlatNone([]);
      assert Flat([]) + [] == Flat([]);
    }
  }

  lemma Spread(p: seq<string>, f: seq<string>, b: seq<string>, bl: seq<string>, r: seq<string>, t: seq<string>)
    ensures p + (f + ((b + bl) + r)) + t == (p + f) + b + (bl + r + t)
  {
  }

  lemma FollowedIff(d: Doc, k: nat)
    requires GoodItems(d.items) && k < |d.items|
    ensures Followed(d, k) <==> Behind(d, k) != []
  {
    hide GoodItem;
    LinesAround(d, k);
    if k + 1 < |d.items| {
      assert GoodItem(d.items[k + 1]);
      ItemSome(d.items[k + 1]);
      FlatMore(d.items[k + 1..]);
    }
  }

  lemma EditedLines(d: Doc, k: nat, block: seq<string>)
    requires GoodItems(d.items) && k < |d.items|
    ensures AllLines(Edited(d, k, block)) == Before(d, k) + block + (if Followed(d, k) then Behind(d, k) else [""])
  {
    hide Flat, GoodItem;
    var e := Edited(d, k, block);
    assert e.items[..k] == d.items[..k] && e.items[k + 1..] == d.items[k + 1..];
    LinesAround(e, k);
    FollowedIff(d, k);
    if !Followed(d, k) {
      assert Behind(d, k) == [];
      assert Flat(d.items[k + 1..]) == [] && d.items[k].blanks + [""] == [""];
      assert Behind(e, k) == [""];
    } else {
      assert d.items[k].blanks + [] == d.items[k].blanks;
    }
  }

  lemma {:induction false} JoinEdit(before: seq<string>, block: seq<string>, behind: seq<string>)
    requires block != []
    ensures (if |before| > 0 then Join(before) + "\n" else "") + (Join(block) + "\n") + Join(behind)
         == Join(before + block + if behind == [] then [""] else behind)
  {
    hide Join;
    var rest := if behind == [] then [""] else behind;
    JoinThree(before, block, rest);
    assert Join([""]) == "" && Join([]) == "" by { JoinFew(); }
  }

  lemma JoinFew()
    ensures Join([""]) == "" && Join([]) == ""
  {
  }

  /** Where camera k is found, and what stands around it. */
  lemma CameraAt(nameOf: NameOf, d: Doc, names: seq<string>, k: nat)
    requires Good(d) && Named(nameOf, d.items, names) && Distinct(names) && NoLineEnds(AllLines(d))
    requires k < |names| && k < |d.items|
    ensures var lines, sp := AllLines(d), Blocks(d.items, |d.prefix|)[k];
            && Split(Join(lines)) == lines && Find(nameOf, lines, names[k]) == Some(sp)
            && sp.start <= sp.end <= |lines|
            && lines[..sp.start] == Before(d, k) && lines[sp.end..] == Behind(d, k)
  {
    hide Good, Named, Join, Find, FindAll, Split, Flat, Behind, Before;
    SomeLines(d);
    var lines := AllLines(d);
    SplitJoin(lines);
    FindInDoc(nameOf, d, names);
    FindAllAt(nameOf, lines, names);
    BlockPlace(d.items, |d.prefix|, k);
    LinesAround(d, k);
    BeforeLength(d, k);
  }

  /** Saving a camera puts its new block where the old one was; nothing before or behind it changes. */
  lemma UpsertInDoc(nameOf: NameOf, d: Doc, names: seq<string>, k: nat, block: seq<string>)
    requires Good(d) && Named(nameOf, d.items, names) && Distinct(names) && NoLineEnds(AllLines(d))
    requires k < |names| && block != []
    ensures k < |d.items|
    ensures Upsert(nameOf, Join(AllLines(d)), names[k], Join(block) + "\n") == Join(AllLines(Edited(d, k, block)))
  {
    hide Good, Named, Join, Find, Split, Flat, Behind, Before, Blocks, AllLines;
    NamedLength(nameOf, d.items, names);
    GoodHas(d);
    CameraAt(nameOf, d, names, k);
    FollowedIff(d, k);
    EditedLines(d, k, block);
    JoinEdit(Before(d, k), block, Behind(d, k));
  }

  lemma BeforeLength(d: Doc, k: nat)
    requires k < |d.items|
    ensures |Before(d, k)| == |d.prefix| + |Flat(d.items[..k])|
  {
  }

  lemma EmptyIsBlank()
    ensures IsBlank("")
  {
  }

  // Removing a camera the file has

  /** Removing a camera, in any text, takes its block and the blank lines around it, all of them and nothing else. */
  lemma RemoveTakes(nameOf: NameOf, text: string, name: string) returns (b: nat, f: nat)
    requires Find(nameOf, Split(text), name).Some?
    ensures var lines, sp := Split(text), Find(nameOf, Split(text), name).value;
            && b <= sp.start < sp.end <= f <= |lines|
            && AllBlank(lines[b..sp.start]) && (b > 0 ==> !IsBlank(lines[b - 1]))
            && AllBlank(lines[sp.end..f]) && (f < |lines| ==> !IsBlank(lines[f]))
            && var out := Join(lines[..b] + lines[f..]);
               Remove(nameOf, text, name) == (if TrimSpace(out) == "" then "" else out, true)
  {
    hide Join, Find, Split, IsBlank, TrimSpace, Body;
    var lines := Split(text);
    FoundIsPlaced(nameOf, lines, name);
    var sp := Find(nameOf, lines, name).value;
    b, f := Back(lines, sp.start), Forward(lines, sp.end);
  }
}
