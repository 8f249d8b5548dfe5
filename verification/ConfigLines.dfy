/** What the scan takes single lines for, by how they are spelled. */
module ConfigLines {
  import opened Text
  import opened ConfigScan

  // Trimming

  predicate Blank(t: string) { forall c :: c in t ==> IsSpace(c) }

  /** Neither begins nor ends with white space. */
  predicate Tight(t: string) { t != [] && !IsSpace(t[0]) && !IsSpace(t[|t| - 1]) }

  lemma {:induction false} LeftTrimmed(a: string, t: string)
    requires Blank(a) && (t == [] || !IsSpace(t[0]))
    ensures TrimLeft(a + t) == t
    decreases |a|
  {
    if a == [] {
      assert a + t == t;
    } else {
      assert a[0] in a && (a + t)[1..] == a[1..] + t;
      LeftTrimmed(a[1..], t);
    }
  }

  lemma {:induction false} RightTrimmed(t: string, b: string)
    requires Blank(b) && (t == [] || !IsSpace(t[|t| - 1]))
    ensures TrimRight(t + b) == t
    decreases |b|
  {
    if b == [] {
      assert t + b == t;
    } else {
      assert b[|b| - 1] in b && (t + b)[..|t + b| - 1] == t + b[..|b| - 1];
      RightTrimmed(t, b[..|b| - 1]);
    }
  }

  lemma Trims(a: string, t: string, b: string)
    requires Blank(a) && Blank(b) && Tight(t)
    ensures TrimSpace(a + t + b) == t
  {
    assert a + t + b == a + (t + b) && (t + b)[0] == t[0];
    LeftTrimmed(a, t + b);
    RightTrimmed(t, b);
  }

  // Headers

  predicate Brackets(t: string) { forall i :: 0 <= i < |t| ==> t[i] == '[' || t[i] == ']' }

  predicate Bare(t: string) { t != [] && t[0] !in {'[', ']'} && t[|t| - 1] !in {'[', ']'} }

  lemma {:induction false} BracketsTrimmed(a: string, t: string, b: string)
    requires Brackets(a) && Brackets(b) && Bare(t)
    ensures TrimBrackets(a + t + b) == t
    decreases |a| + |b|
  {
    var all := a + t + b;
    if a != [] {
      assert all[0] == a[0] && all[1..] == a[1..] + t + b;
      BracketsTrimmed(a[1..], t, b);
    } else if b != [] {
      assert all[|all| - 1] == b[|b| - 1] && all[..|all| - 1] == a + t + b[..|b| - 1];
      assert all[0] == t[0];
      BracketsTrimmed(a, t, b[..|b| - 1]);
    } else {
      assert all == t;
    }
  }

  /** Of the lines in double brackets exactly those are a camera's header that hold its word, spaces or not. */
  lemma TableArray(lead: string, gap: string, name: string, gap2: string, trail: string)
    requires Blank(lead) && Blank(gap) && Blank(gap2) && Blank(trail) && Tight(name) && Bare(name)
    ensures var line := lead + ("[[" + gap + name + gap2 + "]]") + trail;
            IsHeader(line) && !IsComment(line) && !IsBlank(line) && (IsCamera(line) <==> name == "camera")
  {
    hide TrimSpace, TrimBrackets;
    var inner := gap + name + gap2;
    var t := "[[" + gap + name + gap2 + "]]";
    assert t[0] == '[' && t[|t| - 1] == ']' && t[..2] == "[[" && t[..1] == "[";
    Trims(lead, t, trail);
    BareInside(gap, name, gap2);
    BracketsTrimmed("[[", inner, "]]");
    assert t == "[[" + inner + "]]";
    Trims(gap, name, gap2);
  }

  lemma BareInside(gap: string, name: string, gap2: string)
    requires Blank(gap) && Blank(gap2) && Bare(name)
    ensures Bare(gap + name + gap2)
  {
    var t := gap + name + gap2;
    assert gap == [] ==> t[0] == name[0];
    assert gap != [] ==> t[0] == gap[0] && gap[0] in gap;
    assert gap2 == [] ==> t[|t| - 1] == name[|name| - 1];
    assert gap2 != [] ==> t[|t| - 1] == gap2[|gap2| - 1] && gap2[|gap2| - 1] in gap2;
  }

  /** A table in single brackets is a header and no camera's, whatever it is called. */
  lemma Table(lead: string, name: string, trail: string)
    requires Blank(lead) && Blank(trail) && name != [] && name[0] != '['
    ensures var line := lead + ("[" + name + "]") + trail; IsHeader(line) && !IsCamera(line)
  {
    hide TrimSpace, TrimBrackets;
    var t := "[" + name + "]";
    assert t[0] == '[' && t[|t| - 1] == ']' && t[1] == name[0] && t[..1] == "[";
    Trims(lead, t, trail);
  }

  // Strings over several lines

  /** Comments and headers open no string, whatever they hold. */
  lemma NeverOpens(lead: string, first: char, rest: string)
    requires Blank(lead) && first in {'#', '['}
    ensures After(Outside, lead + ([first] + rest)) == Outside
  {
    hide TrimSpace, Odd;
    StartKept(lead, first, rest);
  }

  lemma StartKept(lead: string, first: char, rest: string)
    requires Blank(lead) && !IsSpace(first)
    ensures StartsWith(TrimSpace(lead + ([first] + rest)), [first])
  {
    hide TrimRight;
    LeftTrimmed(lead, [first] + rest);
    FirstKept(first, rest);
  }

  lemma {:induction false} FirstKept(first: char, rest: string)
    requires !IsSpace(first)
    ensures StartsWith(TrimRight([first] + rest), [first])
    decreases |rest|
  {
    if rest != [] {
      assert ([first] + rest)[..|rest|] == [first] + rest[..|rest| - 1];
      FirstKept(first, rest[..|rest| - 1]);
    }
  }

  lemma {:induction false} MarkCounts(a: string, b: string, mark: string)
    requires |mark| == 3 && mark[0] == mark[1] == mark[2] && mark[0] !in a && mark[0] !in b
    ensures Count(a + mark + b, mark) == 1 && Count(a, mark) == 0
    decreases |a|
  {
    var all := a + mark + b;
    if a == [] {
      assert all[..3] == mark && all[3..] == b;
      NoneCounted(b, mark);
      NoneCounted(a, mark);
    } else {
      assert all[0] == a[0] && all[1..] == a[1..] + mark + b && all[..3] != mark;
      MarkCounts(a[1..], b, mark);
      NoneCounted(a, mark);
    }
  }

  lemma {:induction false} NoneCounted(a: string, mark: string)
    requires |mark| == 3 && mark[0] !in a
    ensures Count(a, mark) == 0
    decreases |a|
  {
    if |a| >= 3 {
      assert a[0] in a && a[..3][0] == a[0];
      NoneCounted(a[1..], mark);
    }
  }

  /** One mark on a line opens a string of its kind, ends one it stands in, and is nothing in one of the other kind. */
  lemma OneMark(q: Quote, a: string, b: string)
    requires !q.Outside? && forall c :: c in a || c in b ==> c !in {'"', '\''}
    ensures var line, other := a + Mark(q) + b, if q.Basic? then Literal else Basic;
            && (!IsComment(line) && !IsHeader(line) ==> After(Outside, line) == q)
            && After(q, line) == Outside && After(other, line) == other
  {
    hide IsComment, IsHeader, Count;
    var other := if q.Basic? then Literal else Basic;
    MarkCounts(a, b, Mark(q));
    assert Mark(other)[0] !in a + Mark(q) + b;
    NoneCounted(a + Mark(q) + b, Mark(other));
  }
}
