/** How internal/control/camform.go finds a [[camera]] block in the config text, line by line. */
module ConfigScan {
  import opened Text
  import opened Wrappers

  /** The kind of multi-line string the scan is inside, if any. */
  datatype Quote = Outside | Basic | Literal

  function Mark(q: Quote): string
    requires !q.Outside?
  {
    if q.Basic? then "\"\"\"" else "'''"
  }

  /** strings.Count of a three-character mark. */
  function Count(line: string, mark: string): nat
    requires |mark| == 3
  {
    if |line| < 3 then 0 else if line[..3] == mark then 1 + Count(line[3..], mark) else Count(line[1..], mark)
  }

  predicate Odd(line: string, q: Quote)
    requires !q.Outside?
  {
    Count(line, Mark(q)) % 2 == 1
  }

  function TrimBrackets(t: string): string
    decreases |t|
  {
    if t != [] && t[0] in {'[', ']'} then TrimBrackets(t[1..])
    else if t != [] && t[|t| - 1] in {'[', ']'} then TrimBrackets(t[..|t| - 1])
    else t
  }

  predicate IsBlank(line: string) { TrimSpace(line) == "" }

  predicate IsHeader(line: string) { StartsWith(TrimSpace(line), "[") }

  predicate IsCamera(line: string) {
    var t := TrimSpace(line);
    StartsWith(t, "[[") && TrimSpace(TrimBrackets(t)) == "camera"
  }

  predicate IsComment(line: string) { StartsWith(TrimSpace(line), "#") }

  /** The string the scan is inside after a line. */
  function After(q: Quote, line: string): Quote {
    if !q.Outside? then if Odd(line, q) then Outside else q
    else if IsComment(line) || IsHeader(line) then Outside
    else if Odd(line, Basic) then Basic
    else if Odd(line, Literal) then Literal
    else Outside
  }

  datatype Span = Span(start: nat, end: nat)

  /** Every header ends the block before it, even one that has been ended already. */
  function CloseLast(spans: seq<Span>, i: nat): (r: seq<Span>)
    ensures |r| == |spans|
  {
    if spans == [] then [] else spans[|spans| - 1 := spans[|spans| - 1].(end := i)]
  }

  function AtHeader(lines: seq<string>, i: nat, spans: seq<Span>): seq<Span>
    requires i < |lines|
  {
    CloseLast(spans, i) + if IsCamera(lines[i]) then [Span(i, |lines|)] else []
  }

  function AtLine(lines: seq<string>, i: nat, q: Quote, spans: seq<Span>): seq<Span>
    requires i < |lines|
  {
    if q.Outside? && IsHeader(lines[i]) then AtHeader(lines, i, spans) else spans
  }

  /** The spans from line i on, given those found before it. */
  function Scan(lines: seq<string>, i: nat, q: Quote, spans: seq<Span>): seq<Span>
    requires i <= |lines|
    decreases |lines| - i
  {
    if i == |lines| then spans else Scan(lines, i + 1, After(q, lines[i]), AtLine(lines, i, q, spans))
  }

  function Spans(lines: seq<string>): seq<Span> { Scan(lines, 0, Outside, []) }

  /** Spans in bounds, in order, none reaching into the next. */
  predicate InOrder(spans: seq<Span>, n: nat) {
    && (forall k :: 0 <= k < |spans| ==> spans[k].start < spans[k].end <= n)
    && (forall j, k :: 0 <= j < k < |spans| ==> spans[j].end <= spans[k].start)
  }

  lemma {:induction false} ScanInOrder(lines: seq<string>, i: nat, q: Quote, spans: seq<Span>)
    requires i <= |lines| && InOrder(spans, |lines|)
    requires forall k :: 0 <= k < |spans| ==> spans[k].start < i
    ensures InOrder(Scan(lines, i, q, spans), |lines|)
    decreases |lines| - i
  {
    hide IsHeader, IsCamera, After;
    if i < |lines| {
      ScanInOrder(lines, i + 1, After(q, lines[i]), AtLine(lines, i, q, spans));
    }
  }

  /** Trailing blank lines are left out, down to the header itself. */
  function Trimmed(lines: seq<string>, sp: Span): (r: Span)
    requires sp.start < sp.end <= |lines|
    ensures r.start == sp.start < r.end <= sp.end
    ensures forall i :: r.end <= i < sp.end ==> IsBlank(lines[i])
    decreases sp.end
  {
    if sp.end > sp.start + 1 && IsBlank(lines[sp.end - 1]) then Trimmed(lines, sp.(end := sp.end - 1)) else sp
  }

  /** What the TOML decoder makes of a block on its own: its first camera's name, or nothing. */
  type NameOf = string -> Option<string>

  function Body(lines: seq<string>, sp: Span): string
    requires sp.start <= sp.end <= |lines|
  {
    Join(lines[sp.start..sp.end])
  }

  function FindIn(nameOf: NameOf, lines: seq<string>, spans: seq<Span>, name: string): Option<Span>
    requires InOrder(spans, |lines|)
  {
    if spans == [] then None else
    var sp := Trimmed(lines, spans[0]);
    if nameOf(Body(lines, sp)) == Some(name) then Some(sp) else FindIn(nameOf, lines, spans[1..], name)
  }

  function Find(nameOf: NameOf, lines: seq<string>, name: string): Option<Span> {
    ScanInOrder(lines, 0, Outside, []);
    FindIn(nameOf, lines, Spans(lines), name)
  }

  /** A found block is one of the scan's, the first the decoder gives that name. */
  lemma {:induction false} FindInIsFirst(nameOf: NameOf, lines: seq<string>, spans: seq<Span>, name: string)
      returns (k: nat)
    requires InOrder(spans, |lines|)
    ensures k <= |spans|
    ensures forall j :: 0 <= j < k ==> nameOf(Body(lines, Trimmed(lines, spans[j]))) != Some(name)
    ensures k < |spans| ==> nameOf(Body(lines, Trimmed(lines, spans[k]))) == Some(name)
    ensures FindIn(nameOf, lines, spans, name) == if k == |spans| then None else Some(Trimmed(lines, spans[k]))
    decreases |spans|
  {
    hide Body, IsBlank;
    if spans == [] || nameOf(Body(lines, Trimmed(lines, spans[0]))) == Some(name) {
      k := 0;
    } else {
      var j := FindInIsFirst(nameOf, lines, spans[1..], name);
      k := j + 1;
    }
  }

  // The scan itself

  method ScanLine(lines: seq<string>, i: nat, q: Quote, spans: seq<Span>) returns (next: Quote, found: seq<Span>)
    requires i < |lines|
    ensures next == After(q, lines[i]) && found == AtLine(lines, i, q, spans)
  {
    hide IsHeader, IsCamera, IsComment, Odd;
    var line := lines[i];
    next, found := q, spans;
    if !q.Outside? {
      if Odd(line, q) {
        next := Outside;
      }
    } else if IsComment(line) {
      NoBoth(line);
    } else if IsHeader(line) {
      if |found| > 0 {
        found := found[|found| - 1 := found[|found| - 1].(end := i)];
      }
      if IsCamera(line) {
        found := found + [Span(i, |lines|)];
      }
    } else if Odd(line, Basic) {
      next := Basic;
    } else if Odd(line, Literal) {
      next := Literal;
    }
  }

  method ScanLines(lines: seq<string>) returns (spans: seq<Span>)
    ensures spans == Spans(lines)
  {
    hide After, AtHeader, IsHeader;
    spans := [];
    var q := Outside;
    var i := 0;
    while i < |lines|
      invariant 0 <= i <= |lines| && Spans(lines) == Scan(lines, i, q, spans)
    {
      q, spans := ScanLine(lines, i, q, spans);
      i := i + 1;
    }
  }

  lemma NoBoth(line: string)
    requires IsComment(line)
    ensures !IsHeader(line)
  {
    var t := TrimSpace(line);
    assert t[..1] == "#" && t[0] == '#';
  }

  method FindCameraBlock(nameOf: NameOf, lines: seq<string>, name: string) returns (r: Option<Span>)
    ensures r == Find(nameOf, lines, name)
  {
    hide IsBlank, Scan;
    ScanInOrder(lines, 0, Outside, []);
    var spans := ScanLines(lines);
    var k := 0;
    while k < |spans|
      invariant 0 <= k <= |spans| && Find(nameOf, lines, name) == FindIn(nameOf, lines, spans[k..], name)
    {
      var sp := spans[k];
      while sp.end > sp.start + 1 && IsBlank(lines[sp.end - 1])
        invariant sp.start == spans[k].start < sp.end <= spans[k].end
        invariant Trimmed(lines, spans[k]) == Trimmed(lines, sp)
        decreases sp.end
      {
        sp := sp.(end := sp.end - 1);
      }
      assert spans[k..][0] == spans[k] && spans[k..][1..] == spans[k + 1..];
      if nameOf(Join(lines[sp.start..sp.end])) == Some(name) {
        return Some(sp);
      }
      k := k + 1;
    }
    r := None;
  }
}
