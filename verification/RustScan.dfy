/** The hygiene tool's line-at-a-time scanner of Rust comments, against one pass over
    the whole text. In the tool's own language a character outside the basic plane is two
    units of text, so it never makes a character literal. */
module RustScan {
  import opened Outcomes

  /** What the scanner is inside of. A block keeps the line it opened on, its text so far,
      and whether that text has grown on this line: only then is the line break kept. */
  datatype Mode = Code | Str | Raw(hashes: nat) | Block(start: nat, text: string, grown: bool)

  datatype Event =
    | Opened(line: nat)                // a block comment begins
    | Remark(line: nat, text: string)  // a line comment
    | Closed(line: nat, text: string)  // a block comment that began on `line`

  /** The two characters `a`, `b` stand at `i`. */
  predicate PairAt(t: string, i: nat, a: char, b: char) {
    i + 1 < |t| && t[i] == a && t[i + 1] == b
  }

  /** The end of the line that position `i` is on. */
  function LineEnd(t: string, i: nat): (e: nat)
    requires i <= |t|
    ensures i <= e <= |t| && (e == |t| || t[e] == '\n') && forall k | i <= k < e :: t[k] != '\n'
    decreases |t| - i
  {
    if i == |t| || t[i] == '\n' then i else LineEnd(t, i + 1)
  }

  function Hashes(t: string, i: nat): (h: nat)
    ensures i + h <= |t| || h == 0
    ensures forall k | i <= k < i + h :: t[k] == '#'
    ensures i + h < |t| ==> t[i + h] != '#'
    decreases if i < |t| then |t| - i else 0
  {
    if i < |t| && t[i] == '#' then 1 + Hashes(t, i + 1) else 0
  }

  predicate LineBreakUnit(c: char) {
    c == '\n' || c == '\r' || c == '\U{2028}' || c == '\U{2029}'
  }

  predicate OneUnit(c: char) {
    c as int < 0x10000
  }

  /** The length of a character literal at `i`, 0 when there is none on this line. */
  function CharLiteral(t: string, i: nat): (n: nat)
    requires i < |t|
    ensures i + n <= |t| && (n > 0 ==> n >= 3) && forall k | i <= k < i + n :: t[k] != '\n'
  {
    if t[i] != '\'' then 0
    else if i + 3 < |t| && t[i + 1] == '\\' && !LineBreakUnit(t[i + 2]) && OneUnit(t[i + 2]) && t[i + 3] == '\'' then 4
    else if i + 2 < |t| && t[i + 1] !in {'\\', '\'', '\n'} && OneUnit(t[i + 1]) && t[i + 2] == '\'' then 3
    else 0
  }

  datatype Move = Move(next: nat, mode: Mode, events: seq<Event>)

  function EndLine(m: Mode): Mode {
    if m.Block? && m.grown then Block(m.start, m.text + "\n", false) else m
  }

  /** One move of the scanner at position `i` of line `line`. */
  function Step(t: string, i: nat, m: Mode, line: nat): (r: Move)
    requires i < |t|
    ensures r.next > i
  {
    match m
    case Block(start, text, _) =>
      if PairAt(t, i, '*', '/') then Move(i + 2, Code, [Closed(start, text)])
      else if t[i] == '\n' then Move(i + 1, EndLine(m), [])
      else Move(i + 1, Block(start, text + [t[i]], true), [])
    case Str =>
      if t[i] == '\\' then Move(i + 2, Str, [])
      else Move(i + 1, if t[i] == '"' then Code else Str, [])
    case Raw(hashes) =>
      if t[i] == '"' && Hashes(t, i + 1) >= hashes then Move(i + 1 + hashes, Code, [])
      else Move(i + 1, m, [])
    case Code =>
      if PairAt(t, i, '/', '/') then Move(LineEnd(t, i + 2), Code, [Remark(line, t[i..LineEnd(t, i)])])
      else if PairAt(t, i, '/', '*') then Move(i + 2, Block(line, "", false), [Opened(line)])
      else if t[i] == '"' then Move(i + 1, Str, [])
      else if t[i] == 'r' then
        var h := Hashes(t, i + 1);
        if i + 1 + h < |t| && t[i + 1 + h] == '"' then Move(i + 2 + h, Raw(h), []) else Move(i + 1, Code, [])
      else if CharLiteral(t, i) > 0 then Move(i + CharLiteral(t, i), Code, [])
      else Move(i + 1, Code, [])
  }

  /** An unclosed block still yields its text at the end. */
  function Finish(m: Mode): seq<Event> {
    if m.Block? then [Closed(m.start, EndLine(m).text)] else []
  }

  function Breaks(t: string): nat {
    if t == "" then 0 else Breaks(t[..|t| - 1]) + if t[|t| - 1] == '\n' then 1 else 0
  }

  /** One pass over the whole text. */
  function LexText(t: string, i: nat, m: Mode): seq<Event>
    decreases if i < |t| then |t| - i else 0
  {
    if i >= |t| then Finish(m)
    else
      var r := Step(t, i, m, 1 + Breaks(t[..i]));
      r.events + LexText(t, r.next, r.mode)
  }

  /** One line, from position `i`: where it ends, in which mode, and what was found. */
  function LexLine(s: string, i: nat, m: Mode, line: nat): Move
    decreases if i < |s| then |s| - i else 0
  {
    if i >= |s| then Move(i, m, [])
    else
      var r := Step(s, i, m, line);
      var rest := LexLine(s, r.next, r.mode, line);
      Move(rest.next, rest.mode, r.events + rest.events)
  }

  /** The lines from `n` on, the mode carried from line to line. */
  function LexLines(lines: seq<string>, n: nat, m: Mode): seq<Event>
    requires n <= |lines|
    decreases |lines| - n
  {
    if n == |lines| then Finish(m)
    else
      var r := LexLine(lines[n], 0, m, n + 1);
      r.events + LexLines(lines, n + 1, EndLine(r.mode))
  }

  // ---------- line by line equals one pass ----------

  function Join(lines: seq<string>): string
    requires |lines| > 0
  {
    if |lines| == 1 then lines[0] else Join(lines[..|lines| - 1]) + "\n" + lines[|lines| - 1]
  }

  /** `s` is the whole line of `t` that begins at `off`. */
  ghost predicate LineAt(t: string, off: nat, s: string) {
    && off + |s| <= |t| && t[off..off + |s|] == s
    && '\n' !in s
    && (off + |s| == |t| || t[off + |s|] == '\n')
  }

  lemma {:induction false} HashesInLine(t: string, off: nat, s: string, i: nat)
    requires LineAt(t, off, s) && i <= |s|
    ensures Hashes(t, off + i) == Hashes(s, i)
    decreases |s| - i
  {
    if i < |s| {
      assert t[off + i] == s[i];
      HashesInLine(t, off, s, i + 1);
    }
  }

  lemma {:induction false} LineEndInLine(t: string, off: nat, s: string, i: nat)
    requires LineAt(t, off, s) && i <= |s|
    ensures LineEnd(t, off + i) == off + |s| && LineEnd(s, i) == |s|
    decreases |s| - i
  {
    if i < |s| {
      assert t[off + i] == s[i];
      LineEndInLine(t, off, s, i + 1);
    }
  }

  lemma CharInLine(t: string, off: nat, s: string, i: nat)
    requires LineAt(t, off, s) && i < |s|
    ensures CharLiteral(t, off + i) == CharLiteral(s, i)
  {
    assert forall k | 0 <= k < |s| :: t[off..off + |s|][k] == s[k] == t[off + k];
  }

  lemma PairInLine(t: string, off: nat, s: string, i: nat, a: char, b: char)
    requires LineAt(t, off, s) && i < |s| && a != '\n' && b != '\n'
    ensures PairAt(t, off + i, a, b) <==> PairAt(s, i, a, b)
  {
    assert forall k | 0 <= k < |s| :: t[off..off + |s|][k] == s[k] == t[off + k];
  }

  lemma RestOfLine(t: string, off: nat, s: string, i: nat)
    requires LineAt(t, off, s) && i <= |s|
    ensures t[off + i..off + |s|] == s[i..|s|]
  {
    assert forall k | 0 <= k < |s| :: t[off..off + |s|][k] == s[k] == t[off + k];
  }

  /** A move inside a line is the same move in the whole text. */
  lemma StepInLine(t: string, off: nat, s: string, i: nat, m: Mode, line: nat)
    requires LineAt(t, off, s) && i < |s|
    ensures var r := Step(s, i, m, line); Step(t, off + i, m, line) == r.(next := off + r.next)
    ensures Step(s, i, m, line).next <= |s| + if Step(s, i, m, line).mode.Block? then 0 else 1
  {
    hide Hashes, LineEnd, CharLiteral, PairAt;
    SameChar(t, off, s, i);
    match m
    case Block(_, _, _) =>
      PairInLine(t, off, s, i, '*', '/');
      PairEnds(s, i, '*', '/');
    case Str =>
    case Raw(_) => HashesInLine(t, off, s, i + 1);
    case Code => CodeInLine(t, off, s, i, line);
  }

  lemma SameChar(t: string, off: nat, s: string, i: nat)
    requires LineAt(t, off, s) && i < |s|
    ensures off + i < |t| && t[off + i] == s[i] != '\n'
  {
    assert t[off..off + |s|][i] == t[off + i];
  }

  lemma CodeInLine(t: string, off: nat, s: string, i: nat, line: nat)
    requires LineAt(t, off, s) && i < |s|
    ensures var r := Step(s, i, Code, line); Step(t, off + i, Code, line) == r.(next := off + r.next)
    ensures Step(s, i, Code, line).next <= |s|
  {
    hide Hashes, LineEnd, CharLiteral, PairAt;
    SameChar(t, off, s, i);
    PairInLine(t, off, s, i, '/', '/');
    PairInLine(t, off, s, i, '/', '*');
    PairEnds(s, i, '/', '/');
    PairEnds(s, i, '/', '*');
    LineEndInLine(t, off, s, i);
    if i + 2 <= |s| {
      LineEndInLine(t, off, s, i + 2);
    }
    RestOfLine(t, off, s, i);
    RawInLine(t, off, s, i);
    CharInLine(t, off, s, i);
  }

  lemma RawInLine(t: string, off: nat, s: string, i: nat)
    requires LineAt(t, off, s) && i < |s|
    ensures Hashes(t, off + i + 1) == Hashes(s, i + 1) && i + 1 + Hashes(s, i + 1) <= |s|
    ensures var j := i + 1 + Hashes(s, i + 1);
      off + j < |t| && t[off + j] == '"' <==> j < |s| && s[j] == '"'
  {
    HashesInLine(t, off, s, i + 1);
    var j := i + 1 + Hashes(s, i + 1);
    if j < |s| {
      SameChar(t, off, s, j);
    }
  }

  lemma PairEnds(s: string, i: nat, a: char, b: char)
    ensures PairAt(s, i, a, b) ==> i + 2 <= |s|
  {
  }

  lemma {:induction false} BreaksAppend(a: string, b: string)
    ensures Breaks(a + b) == Breaks(a) + Breaks(b)
  {
    if b == "" {
      assert a + b == a;
    } else {
      BreaksAppend(a, b[..|b| - 1]);
      assert (a + b)[..|a + b| - 1] == a + b[..|b| - 1];
    }
  }

  lemma {:induction false} NoBreaks(s: string)
    requires '\n' !in s
    ensures Breaks(s) == 0
  {
    if s != "" {
      NoBreaks(s[..|s| - 1]);
    }
  }

  lemma SameLine(t: string, off: nat, s: string, i: nat)
    requires LineAt(t, off, s) && i <= |s|
    ensures Breaks(t[..off + i]) == Breaks(t[..off])
  {
    assert t[..off + i] == t[..off] + s[..i];
    BreaksAppend(t[..off], s[..i]);
    NoBreaks(s[..i]);
  }

  lemma LineFits(t: string, off: nat, s: string)
    requires LineAt(t, off, s)
    ensures off + |s| <= |t|
  {
  }

  /** Scanning a line is the stretch of the one pass that lies on it. */
  lemma {:induction false} LexInLine(t: string, off: nat, s: string, i: nat, m: Mode)
    requires LineAt(t, off, s) && i <= |s| + 1 && (m.Block? ==> i <= |s|)
    ensures var r := LexLine(s, i, m, 1 + Breaks(t[..off]));
      && r.next >= i && |s| <= r.next <= |s| + 1 && (r.mode.Block? ==> r.next <= |s|)
      && LexText(t, off + i, m) == r.events + LexText(t, off + r.next, r.mode)
    decreases |s| + 1 - i
  {
    hide Step, Breaks, LineAt;
    LineFits(t, off, s);
    if i < |s| {
      var line := 1 + Breaks(t[..off]);
      SameLine(t, off, s, i);
      StepInLine(t, off, s, i, m, line);
      var r := Step(s, i, m, line);
      LexInLine(t, off, s, r.next, r.mode);
      var rest := LexLine(s, r.next, r.mode, line);
      assert LexText(t, off + i, m) == r.events + LexText(t, off + r.next, r.mode);
      Regroup(r.events, rest.events, LexText(t, off + rest.next, rest.mode));
    }
  }

  /** A line break ends the line and changes nothing else. */
  lemma BreakStep(t: string, i: nat, m: Mode)
    requires i < |t| && t[i] == '\n'
    ensures LexText(t, i, m) == LexText(t, i + 1, EndLine(m))
  {
    assert CharLiteral(t, i) == 0;
    var r := Step(t, i, m, 1 + Breaks(t[..i]));
    assert r == Move(i + 1, EndLine(m), []);
  }

  ghost predicate IsLines(lines: seq<string>) {
    |lines| > 0 && forall n | 0 <= n < |lines| :: '\n' !in lines[n]
  }

  /** `part` is the whole text, or what stands before one of its line breaks. */
  ghost predicate Upto(t: string, part: string) {
    |part| <= |t| && t[..|part|] == part && (|part| == |t| || t[|part|] == '\n')
  }

  lemma UptoTrans(t: string, part: string, s: string)
    requires Upto(t, part + "\n" + s)
    ensures Upto(t, part)
  {
    var whole := part + "\n" + s;
    assert t[..|part|] == whole[..|part|] == part;
    assert t[|part|] == t[..|whole|][|part|] == whole[|part|] == '\n';
  }

  lemma {:induction false} JoinPrefix(lines: seq<string>, n: nat)
    requires IsLines(lines) && n < |lines|
    ensures Breaks(Join(lines[..n + 1])) == n
    ensures Upto(Join(lines), Join(lines[..n + 1]))
    decreases |lines| - n, n
  {
    BreaksOfJoin(lines[..n + 1]);
    if n + 1 == |lines| {
      assert lines[..n + 1] == lines;
    } else {
      JoinPrefix(lines, n + 1);
      assert lines[..n + 2][..n + 1] == lines[..n + 1];
      UptoTrans(Join(lines), Join(lines[..n + 1]), lines[n + 1]);
    }
  }

  lemma {:induction false} BreaksOfJoin(lines: seq<string>)
    requires IsLines(lines)
    ensures Breaks(Join(lines)) == |lines| - 1
  {
    var last := lines[|lines| - 1];
    NoBreaks(last);
    if |lines| > 1 {
      var before := lines[..|lines| - 1];
      BreaksOfJoin(before);
      BreaksAppend(Join(before) + "\n", last);
      BreaksAppend(Join(before), "\n");
      assert "\n"[..0] == "";
    }
  }

  /** Where line `n` begins in the joined text; past its end when there is no such line. */
  function LineStart(lines: seq<string>, n: nat): int
    requires 0 < |lines| && n <= |lines|
  {
    if n == |lines| then |Join(lines)| + 1 else |Join(lines[..n + 1])| - |lines[n]|
  }

  lemma NextStart(lines: seq<string>, n: nat)
    requires IsLines(lines) && n < |lines|
    ensures LineStart(lines, n + 1) == LineStart(lines, n) + |lines[n]| + 1
  {
    if n + 1 < |lines| {
      assert lines[..n + 2][..n + 1] == lines[..n + 1];
      assert Join(lines[..n + 2]) == Join(lines[..n + 1]) + "\n" + lines[n + 1];
    } else {
      assert lines[..n + 1] == lines;
    }
  }

  lemma JoinEnds(lines: seq<string>)
    requires |lines| > 0
    ensures var last := lines[|lines| - 1]; |last| <= |Join(lines)| && Join(lines)[|Join(lines)| - |last|..] == last
  {
  }

  lemma LastLineOf(t: string, sofar: string, s: string)
    requires Upto(t, sofar) && |s| <= |sofar| && sofar[|sofar| - |s|..] == s && '\n' !in s
    ensures LineAt(t, |sofar| - |s|, s)
    ensures Breaks(t[..|sofar| - |s|]) == Breaks(sofar)
  {
    hide Breaks;
    var off := |sofar| - |s|;
    assert t[off..off + |s|] == sofar[off..];
    assert t[..off] == sofar[..off] && sofar[..off] + s == sofar;
    BreaksAppend(t[..off], s);
    NoBreaks(s);
  }

  lemma LinesAreAt(lines: seq<string>, n: nat)
    requires IsLines(lines) && n < |lines|
    ensures 0 <= LineStart(lines, n) && LineStart(lines, n + 1) == LineStart(lines, n) + |lines[n]| + 1
    ensures LineAt(Join(lines), LineStart(lines, n), lines[n])
    ensures Breaks(Join(lines)[..LineStart(lines, n)]) == n
  {
    var upto := lines[..n + 1];
    assert upto[|upto| - 1] == lines[n];
    assert n + 1 == |lines| ==> upto == lines;
    JoinPrefix(lines, n);
    JoinEnds(upto);
    NextStart(lines, n);
    LastLineOf(Join(lines), Join(upto), lines[n]);
  }

  /** Scanning a line and ending it takes the one pass to the next line. */
  lemma WholeLine(t: string, off: nat, s: string, m: Mode)
    requires LineAt(t, off, s)
    ensures var r := LexLine(s, 0, m, 1 + Breaks(t[..off]));
      LexText(t, off, m) == r.events + LexText(t, off + |s| + 1, EndLine(r.mode))
  {
    hide Step, Breaks, PairAt;
    LexInLine(t, off, s, 0, m);
    var r := LexLine(s, 0, m, 1 + Breaks(t[..off]));
    if off + |s| < |t| && r.next == |s| {
      BreakStep(t, off + |s|, r.mode);
    }
  }

  lemma PastTheEnd(lines: seq<string>, m: Mode)
    requires 0 < |lines|
    ensures LexText(Join(lines), LineStart(lines, |lines|), m) == Finish(m)
  {
  }

  /** Scanning line by line with the mode carried over finds exactly what one pass over
      the whole text finds, in the same order and on the same lines. */
  lemma {:induction false} LinesEqualOnePass(lines: seq<string>, n: nat, m: Mode)
    requires IsLines(lines) && n <= |lines| && 0 <= LineStart(lines, n)
    ensures LexText(Join(lines), LineStart(lines, n), m) == LexLines(lines, n, m)
    decreases |lines| - n
  {
    hide LexLine, LexText, LineAt, LineStart, Join, Breaks;
    if n < |lines| {
      LinesAreAt(lines, n);
      WholeLine(Join(lines), LineStart(lines, n), lines[n], m);
      LinesEqualOnePass(lines, n + 1, EndLine(LexLine(lines[n], 0, m, n + 1).mode));
    } else {
      PastTheEnd(lines, m);
    }
  }

  // ---------- what is found ----------

  datatype Found = Found(line: nat, text: string)

  function OpenedBy(e: Event): seq<nat> { if e.Opened? then [e.line] else [] }
  function RemarkBy(e: Event): seq<Found> { if e.Remark? then [Found(e.line, e.text)] else [] }
  function TextBy(e: Event): seq<Found> { if e.Closed? then [Found(e.line, e.text)] else [] }

  function Openings(events: seq<Event>): seq<nat> {
    if events == [] then [] else OpenedBy(events[0]) + Openings(events[1..])
  }

  function Remarks(events: seq<Event>): seq<Found> {
    if events == [] then [] else RemarkBy(events[0]) + Remarks(events[1..])
  }

  function Texts(events: seq<Event>): seq<Found> {
    if events == [] then [] else TextBy(events[0]) + Texts(events[1..])
  }

  function LinesOf(found: seq<Found>): seq<nat> {
    if found == [] then [] else [found[0].line] + LinesOf(found[1..])
  }

  lemma {:induction false} PickAppend(a: seq<Event>, b: seq<Event>)
    ensures Openings(a + b) == Openings(a) + Openings(b)
    ensures Remarks(a + b) == Remarks(a) + Remarks(b)
    ensures Texts(a + b) == Texts(a) + Texts(b)
  {
    if a == [] {
      assert a + b == b;
    } else {
      PickAppend(a[1..], b);
      assert (a + b)[1..] == a[1..] + b && (a + b)[0] == a[0];
      Regroup(OpenedBy(a[0]), Openings(a[1..]), Openings(b));
      Regroup(RemarkBy(a[0]), Remarks(a[1..]), Remarks(b));
      Regroup(TextBy(a[0]), Texts(a[1..]), Texts(b));
    }
  }

  lemma Regroup<T>(a: seq<T>, b: seq<T>, c: seq<T>)
    ensures a + (b + c) == a + b + c
  {
  }

  lemma PickOne(a: seq<Event>, e: Event)
    ensures Openings(a + [e]) == Openings(a) + OpenedBy(e)
    ensures Remarks(a + [e]) == Remarks(a) + RemarkBy(e)
    ensures Texts(a + [e]) == Texts(a) + TextBy(e)
  {
    PickAppend(a, [e]);
    assert [e][1..] == [];
  }

  /** The line of the block the scanner is inside of. */
  function Inside(m: Mode): seq<nat> {
    if m.Block? then [m.start] else []
  }

  ghost predicate Balanced(before: Mode, events: seq<Event>, after: Mode) {
    Inside(before) + Openings(events) == LinesOf(Texts(events)) + Inside(after)
  }

  lemma StepBalanced(t: string, i: nat, m: Mode, line: nat)
    requires i < |t|
    ensures var r := Step(t, i, m, line); Balanced(m, r.events, r.mode)
  {
    var r := Step(t, i, m, line);
    if r.events != [] {
      assert r.events == [] + [r.events[0]];
      PickOne([], r.events[0]);
    }
  }

  lemma {:induction false} LinesOfAppend(a: seq<Found>, b: seq<Found>)
    ensures LinesOf(a + b) == LinesOf(a) + LinesOf(b)
  {
    if a == [] {
      assert a + b == b;
    } else {
      LinesOfAppend(a[1..], b);
      assert (a + b)[0] == a[0] && (a + b)[1..] == a[1..] + b;
      Regroup([a[0].line], LinesOf(a[1..]), LinesOf(b));
    }
  }

  lemma BalancedAppend(m: Mode, a: seq<Event>, n: Mode, b: seq<Event>, o: Mode)
    requires Balanced(m, a, n) && Balanced(n, b, o)
    ensures Balanced(m, a + b, o)
  {
    PickAppend(a, b);
    LinesOfAppend(Texts(a), Texts(b));
    Regroup(Inside(m), Openings(a), Openings(b));
    Regroup(LinesOf(Texts(a)), Inside(n), Openings(b));
    Regroup(LinesOf(Texts(a)), LinesOf(Texts(b)), Inside(o));
  }

  lemma FinishBalanced(m: Mode)
    ensures Balanced(m, Finish(m), Code)
  {
    if m.Block? {
      var e := Closed(m.start, EndLine(m).text);
      assert Finish(m) == [] + [e];
      PickOne([], e);
    }
  }

  /** Every block that is opened yields exactly one text, on the line it opened on and in
      the same order, the one left open at the end included. */
  lemma {:induction false} EveryBlockHasOneText(t: string, i: nat, m: Mode)
    ensures Balanced(m, LexText(t, i, m), Code)
    decreases if i < |t| then |t| - i else 0
  {
    hide Step, Balanced, Breaks, Finish;
    if i >= |t| {
      FinishBalanced(m);
    } else {
      var line := 1 + Breaks(t[..i]);
      var r := Step(t, i, m, line);
      StepBalanced(t, i, m, line);
      EveryBlockHasOneText(t, r.next, r.mode);
      BalancedAppend(m, r.events, r.mode, LexText(t, r.next, r.mode), Code);
    }
  }

  // ---------- lines of nothing but a comment ----------

  predicate Space(c: char) {
    || c == ' ' || c == '\t' || c == '\n' || c == '\r' || c == '\U{b}' || c == '\U{c}'
    || c == '\U{a0}' || c == '\U{1680}' || '\U{2000}' <= c <= '\U{200a}' || c == '\U{2028}'
    || c == '\U{2029}' || c == '\U{202f}' || c == '\U{205f}' || c == '\U{3000}' || c == '\U{feff}'
  }

  function SkipSpace(s: string, i: nat): (k: nat)
    requires i <= |s|
    ensures i <= k <= |s| && (k < |s| ==> !Space(s[k])) && forall j | i <= j < k :: Space(s[j])
    decreases |s| - i
  {
    if i < |s| && Space(s[i]) then SkipSpace(s, i + 1) else i
  }

  /** Only white space stands before the line's first `//`. */
  predicate LeadsWithSlashes(s: string) {
    PairAt(s, SkipSpace(s, 0), '/', '/')
  }

  lemma SpaceStep(s: string, i: nat, line: nat)
    requires i < |s| && Space(s[i])
    ensures LexLine(s, i, Code, line) == LexLine(s, i + 1, Code, line)
  {
    assert Step(s, i, Code, line) == Move(i + 1, Code, []);
  }

  lemma {:induction false} SpacesThenRemark(s: string, i: nat, line: nat)
    requires '\n' !in s && i <= |s| && PairAt(s, SkipSpace(s, i), '/', '/')
    ensures LexLine(s, i, Code, line) == Move(|s|, Code, [Remark(line, s[SkipSpace(s, i)..])])
    decreases |s| - i
  {
    hide Step, Space;
    if Space(s[i]) {
      SpaceStep(s, i, line);
      SpacesThenRemark(s, i + 1, line);
    } else {
      RemarkStep(s, i, line);
      assert LexLine(s, |s|, Code, line) == Move(|s|, Code, []);
    }
  }

  lemma RemarkStep(s: string, i: nat, line: nat)
    requires '\n' !in s && PairAt(s, i, '/', '/')
    ensures Step(s, i, Code, line) == Move(|s|, Code, [Remark(line, s[i..])])
  {
    EndOfLine(s, i);
    EndOfLine(s, i + 2);
    assert s[i..|s|] == s[i..];
  }

  lemma {:induction false} EndOfLine(s: string, i: nat)
    requires '\n' !in s && i <= |s|
    ensures LineEnd(s, i) == |s|
    decreases |s| - i
  {
    if i < |s| {
      EndOfLine(s, i + 1);
    }
  }

  /** The mode in which line `n` begins. */
  function ModeAt(lines: seq<string>, n: nat): Mode
    requires n <= |lines|
  {
    if n == 0 then Code else EndLine(LexLine(lines[n - 1], 0, ModeAt(lines, n - 1), n).mode)
  }

  predicate OnlyComment(lines: seq<string>, n: nat)
    requires n < |lines|
  {
    ModeAt(lines, n).Code? && LeadsWithSlashes(lines[n])
  }

  function EventsBefore(lines: seq<string>, n: nat): seq<Event>
    requires n <= |lines|
  {
    if n == 0 then [] else EventsBefore(lines, n - 1) + LexLine(lines[n - 1], 0, ModeAt(lines, n - 1), n).events
  }

  lemma {:induction false} EventsSplit(lines: seq<string>, n: nat)
    requires n <= |lines|
    ensures LexLines(lines, 0, Code) == EventsBefore(lines, n) + LexLines(lines, n, ModeAt(lines, n))
  {
    hide LexLine, EndLine;
    if n > 0 {
      EventsSplit(lines, n - 1);
      var r := LexLine(lines[n - 1], 0, ModeAt(lines, n - 1), n);
      Regroup(EventsBefore(lines, n - 1), r.events, LexLines(lines, n, EndLine(r.mode)));
    }
  }

  /** A line of nothing but a comment has its comment recorded, whole and under its number. */
  lemma OnlyCommentIsRecorded(lines: seq<string>, n: nat)
    requires IsLines(lines) && n < |lines| && OnlyComment(lines, n)
    ensures Found(n + 1, lines[n][SkipSpace(lines[n], 0)..]) in Remarks(LexLines(lines, 0, Code))
  {
    var s := lines[n];
    SpacesThenRemark(s, 0, n + 1);
    var e := Remark(n + 1, s[SkipSpace(s, 0)..]);
    EventsSplit(lines, n);
    var before, after := EventsBefore(lines, n), LexLines(lines, n + 1, Code);
    assert LexLines(lines, 0, Code) == (before + [e]) + after;
    PickAppend(before + [e], after);
    PickOne(before, e);
  }

  // ---------- the text in lines ----------

  /** The text cut at its line breaks, a carriage return before one dropped with it. */
  function Lines(t: string): (r: seq<string>)
    ensures IsLines(r)
  {
    if t == "" then [""]
    else if t[0] == '\n' then [""] + Lines(t[1..])
    else if t[0] == '\r' && |t| > 1 && t[1] == '\n' then Lines(t[1..])
    else
      var rest := Lines(t[1..]);
      [[t[0]] + rest[0]] + rest[1..]
  }

  function DropReturns(t: string): string {
    if t == "" then ""
    else if t[0] == '\r' && |t| > 1 && t[1] == '\n' then DropReturns(t[1..])
    else [t[0]] + DropReturns(t[1..])
  }

  lemma {:induction false} JoinFirst(lines: seq<string>)
    requires |lines| > 1
    ensures Join(lines) == lines[0] + "\n" + Join(lines[1..])
  {
    var n := |lines|;
    if n == 2 {
      assert lines[..1] == [lines[0]];
    } else {
      JoinFirst(lines[..n - 1]);
      assert lines[..n - 1][1..] == lines[1..][..n - 2];
    }
  }

  /** One more character before the first line. */
  lemma JoinPrepend(c: char, rest: seq<string>)
    requires |rest| > 0
    ensures Join([[c] + rest[0]] + rest[1..]) == [c] + Join(rest)
  {
    hide Join;
    var r := [[c] + rest[0]] + rest[1..];
    if |rest| == 1 {
      assert r == [[c] + rest[0]] && rest == [rest[0]];
      JoinOne(rest[0]);
      JoinOne([c] + rest[0]);
    } else {
      JoinFirst(rest);
      JoinFirst(r);
      assert r[1..] == rest[1..];
      Regroup([c], rest[0], "\n");
      Regroup([c], rest[0] + "\n", Join(rest[1..]));
    }
  }

  lemma JoinBreak(rest: seq<string>)
    requires |rest| > 0
    ensures Join([""] + rest) == "\n" + Join(rest)
  {
    hide Join;
    JoinFirst([""] + rest);
    assert ([""] + rest)[1..] == rest;
    assert "" + "\n" == "\n";
  }

  lemma {:induction false} LinesJoin(t: string)
    ensures Join(Lines(t)) == DropReturns(t)
  {
    hide Join;
    if t == "" {
      JoinOne("");
    } else {
      LinesJoin(t[1..]);
      if t[0] == '\n' {
        JoinBreak(Lines(t[1..]));
      } else if !(t[0] == '\r' && |t| > 1 && t[1] == '\n') {
        JoinPrepend(t[0], Lines(t[1..]));
      }
    }
  }

  lemma JoinOne(line: string)
    ensures Join([line]) == line
  {
  }

  // ---------- the scanner ----------

  datatype Tag = InCode | InStr | InRaw | InBlock

  ghost function AsMode(tag: Tag, hashes: nat, start: nat, buf: string): Mode {
    match tag
    case InCode => Code
    case InStr => Str
    case InRaw => Raw(hashes)
    case InBlock => Block(start, buf, false)
  }

  /** The first end of a block at or after `i`. */
  function FindClose(s: string, i: nat): (r: Option<nat>)
    ensures r.Some? ==> i <= r.value < |s| && PairAt(s, r.value, '*', '/')
    ensures r.Some? ==> forall k | i <= k < r.value :: !PairAt(s, k, '*', '/')
    ensures r.None? ==> forall k | i <= k :: !PairAt(s, k, '*', '/')
    decreases if i < |s| then |s| - i else 0
  {
    if PairAt(s, i, '*', '/') then Some(i) else if i >= |s| then None else FindClose(s, i + 1)
  }

  lemma BlockStep(s: string, i: nat, start: nat, text: string, grown: bool, line: nat)
    requires i < |s| && '\n' !in s && !PairAt(s, i, '*', '/')
    ensures LexLine(s, i, Block(start, text, grown), line) == LexLine(s, i + 1, Block(start, text + [s[i]], true), line)
  {
    assert Step(s, i, Block(start, text, grown), line) == Move(i + 1, Block(start, text + [s[i]], true), []);
  }

  /** Inside a block the scan runs to the block's end, or through the whole line. */
  lemma {:induction false} BlockRun(s: string, i: nat, to: nat, start: nat, text: string, grown: bool, line: nat)
    requires i <= to <= |s| && '\n' !in s
    requires forall k | i <= k < to :: !PairAt(s, k, '*', '/')
    ensures LexLine(s, i, Block(start, text, grown), line)
         == LexLine(s, to, Block(start, text + s[i..to], grown || i < to), line)
    decreases |s| - i
  {
    hide LexLine, PairAt;
    if i < to {
      BlockStep(s, i, start, text, grown, line);
      BlockRun(s, i + 1, to, start, text + [s[i]], true, line);
      assert text + [s[i]] + s[i + 1..to] == text + s[i..to];
    } else {
      assert text + s[i..to] == text;
    }
  }

  /** The rest of the line, from `i` in mode `m` on, completes what `found` began. */
  ghost predicate OnCourse(s: string, line: nat, total: Move, i: nat, m: Mode, found: seq<Event>) {
    var r := LexLine(s, i, m, line);
    found + r.events == total.events && EndLine(r.mode) == EndLine(total.mode)
  }

  /** One move keeps the course. */
  lemma MoveOn(s: string, line: nat, total: Move, i: nat, m: Mode, found: seq<Event>)
    requires i < |s| && OnCourse(s, line, total, i, m, found)
    ensures var r := Step(s, i, m, line); OnCourse(s, line, total, r.next, r.mode, found + r.events)
  {
    var r := Step(s, i, m, line);
    Regroup(found, r.events, LexLine(s, r.next, r.mode, line).events);
  }

  /** A block that ends on this line. */
  lemma CloseOn(s: string, line: nat, total: Move, i: nat, to: nat, start: nat, text: string, found: seq<Event>)
    requires '\n' !in s && i <= to < |s| && PairAt(s, to, '*', '/')
    requires forall k | i <= k < to :: !PairAt(s, k, '*', '/')
    requires OnCourse(s, line, total, i, Block(start, text, false), found)
    ensures OnCourse(s, line, total, to + 2, Code, found + [Closed(start, text + s[i..to])])
  {
    BlockRun(s, i, to, start, text, false, line);
    MoveOn(s, line, total, to, Block(start, text + s[i..to], i < to), found);
  }

  /** A block that goes on past this line. */
  lemma StayOn(s: string, line: nat, total: Move, i: nat, start: nat, text: string, found: seq<Event>)
    requires '\n' !in s && i < |s| && forall k | i <= k < |s| :: !PairAt(s, k, '*', '/')
    requires OnCourse(s, line, total, i, Block(start, text, false), found)
    ensures OnCourse(s, line, total, |s|, Block(start, text + s[i..] + "\n", false), found)
  {
    BlockRun(s, i, |s|, start, text, false, line);
    assert s[i..|s|] == s[i..];
  }

  datatype Scan = Scan(blockAt: seq<nat>, isComment: seq<bool>, comments: seq<Found>, blockTexts: seq<Found>)

  ghost predicate Records(r: Scan, found: seq<Event>) {
    && r.blockAt == Openings(found)
    && r.comments == Remarks(found)
    && r.blockTexts == Texts(found)
  }

  lemma RecordText(r: Scan, before: seq<Event>, found: seq<Event>, b: Found)
    requires Records(r, before + found)
    ensures Records(r.(blockTexts := r.blockTexts + [b]), before + (found + [Closed(b.line, b.text)]))
  {
    PickOne(before + found, Closed(b.line, b.text));
    Regroup(before, found, [Closed(b.line, b.text)]);
  }

  lemma RecordRemark(r: Scan, before: seq<Event>, found: seq<Event>, c: Found)
    requires Records(r, before + found)
    ensures Records(r.(comments := r.comments + [c]), before + (found + [Remark(c.line, c.text)]))
  {
    PickOne(before + found, Remark(c.line, c.text));
    Regroup(before, found, [Remark(c.line, c.text)]);
  }

  lemma RecordOpening(r: Scan, before: seq<Event>, found: seq<Event>, line: nat)
    requires Records(r, before + found)
    ensures Records(r.(blockAt := r.blockAt + [line]), before + (found + [Opened(line)]))
  {
    PickOne(before + found, Opened(line));
    Regroup(before, found, [Opened(line)]);
  }

  lemma StartOn(s: string, line: nat, m: Mode)
    ensures OnCourse(s, line, LexLine(s, 0, m, line), 0, m, [])
  {
  }

  lemma ArriveOn(s: string, line: nat, total: Move, i: nat, m: Mode, found: seq<Event>)
    requires i >= |s| && OnCourse(s, line, total, i, m, found)
    ensures found == total.events && EndLine(m) == EndLine(total.mode)
  {
  }

  lemma AnyLabel(r: Scan, found: seq<Event>, isComment: seq<bool>)
    requires Records(r, found)
    ensures Records(r.(isComment := isComment), found)
  {
  }

  lemma StartRecords()
    ensures Records(Scan([], [], [], []), [])
  {
  }

  /** All lines in turn, with the block left open closed, are the one pass. */
  lemma AllLines(text: string)
    ensures var n := |Lines(text)|;
      LexText(DropReturns(text), 0, Code) == EventsBefore(Lines(text), n) + Finish(ModeAt(Lines(text), n))
    ensures LexText(DropReturns(text), 0, Code) == LexLines(Lines(text), 0, Code)
  {
    var lines := Lines(text);
    LinesJoin(text);
    FirstStart(lines);
    LinesEqualOnePass(lines, 0, Code);
    EventsSplit(lines, |lines|);
  }

  lemma FirstStart(lines: seq<string>)
    requires |lines| > 0
    ensures LineStart(lines, 0) == 0
  {
    assert lines[..1] == [lines[0]];
  }

  /** Scans one line, `line` its number, in the mode the lines before it left. */
  method ScanLine(s: string, line: nat, mode0: Tag, hashes0: nat, start0: nat, buf0: string,
                  sofar: Scan, ghost before: seq<Event>)
    returns (mode: Tag, hashes: nat, blockStart: nat, blockBuf: string, r: Scan)
    requires '\n' !in s && Records(sofar, before)
    ensures var total := LexLine(s, 0, AsMode(mode0, hashes0, start0, buf0), line);
      && AsMode(mode, hashes, blockStart, blockBuf) == EndLine(total.mode)
      && Records(r, before + total.events)
    ensures r.isComment == sofar.isComment
  {
    hide LexLine, PairAt, Records, OnCourse, OpenedBy, RemarkBy, TextBy;
    mode, hashes, blockStart, blockBuf, r := mode0, hashes0, start0, buf0, sofar;
    var i: nat := 0;
    ghost var found: seq<Event>, total := [], LexLine(s, 0, AsMode(mode0, hashes0, start0, buf0), line);
    StartOn(s, line, AsMode(mode0, hashes0, start0, buf0));
    assert before + [] == before;
    while i < |s|
      invariant OnCourse(s, line, total, i, AsMode(mode, hashes, blockStart, blockBuf), found)
      invariant Records(r, before + found) && r.isComment == sofar.isComment
      decreases |s| - i
    {
      if mode == InBlock {
        var close := FindClose(s, i);
        if close.Some? {
          CloseOn(s, line, total, i, close.value, blockStart, blockBuf, found);
          blockBuf := blockBuf + s[i..close.value];
          RecordText(r, before, found, Found(blockStart, blockBuf));
          r := r.(blockTexts := r.blockTexts + [Found(blockStart, blockBuf)]);
          found := found + [Closed(blockStart, blockBuf)];
          mode, i, blockBuf := InCode, close.value + 2, "";
        } else {
          StayOn(s, line, total, i, blockStart, blockBuf, found);
          blockBuf := blockBuf + s[i..] + "\n";
          i := |s|;
        }
        continue;
      }
      MoveOn(s, line, total, i, AsMode(mode, hashes, blockStart, blockBuf), found);
      assert found + [] == found;
      if mode == InStr {
        if s[i] == '\\' {
          i := i + 2;
        } else {
          mode, i := if s[i] == '"' then InCode else InStr, i + 1;
        }
      } else if mode == InRaw {
        if s[i] == '"' && Hashes(s, i + 1) >= hashes {
          mode, i := InCode, i + 1 + hashes;
        } else {
          i := i + 1;
        }
      } else if PairAt(s, i, '/', '/') {
        RemarkStep(s, i, line);
        RecordRemark(r, before, found, Found(line, s[i..]));
        r := r.(comments := r.comments + [Found(line, s[i..])]);
        found := found + [Remark(line, s[i..])];
        i := |s|;
      } else if PairAt(s, i, '/', '*') {
        RecordOpening(r, before, found, line);
        r := r.(blockAt := r.blockAt + [line]);
        found := found + [Opened(line)];
        mode, i, blockStart, blockBuf := InBlock, i + 2, line, "";
      } else if s[i] == '"' {
        mode, i := InStr, i + 1;
      } else if s[i] == 'r' {
        var h := Hashes(s, i + 1);
        if i + 1 + h < |s| && s[i + 1 + h] == '"' {
          mode, hashes, i := InRaw, h, i + 2 + h;
        } else {
          i := i + 1;
        }
      } else {
        var n := CharLiteral(s, i);
        i := i + if n > 0 then n else 1;
      }
    }
    ArriveOn(s, line, total, i, AsMode(mode, hashes, blockStart, blockBuf), found);
  }

  /** Scans a source text for its comments: where blocks open, which lines are nothing but a
      comment, every line comment, and every block's text. */
  method ScanRustLines(text: string) returns (r: Scan)
    ensures Records(r, LexText(DropReturns(text), 0, Code))
    ensures |r.isComment| == |Lines(text)|
    ensures forall n | 0 <= n < |r.isComment| :: r.isComment[n] <==> OnlyComment(Lines(text), n)
  {
    hide LexLine, Lines, LexText, LeadsWithSlashes, DropReturns, Records;
    StartRecords();
    var lines := Lines(text);
    r := Scan([], [], [], []);
    var mode, hashes: nat, blockStart: nat, blockBuf := InCode, 0, 0, "";
    for n := 0 to |lines|
      invariant |r.isComment| == n
      invariant forall k | 0 <= k < n :: r.isComment[k] <==> OnlyComment(lines, k)
      invariant AsMode(mode, hashes, blockStart, blockBuf) == ModeAt(lines, n)
      invariant Records(r, EventsBefore(lines, n))
    {
      AnyLabel(r, EventsBefore(lines, n), r.isComment + [mode == InCode && LeadsWithSlashes(lines[n])]);
      r := r.(isComment := r.isComment + [mode == InCode && LeadsWithSlashes(lines[n])]);
      mode, hashes, blockStart, blockBuf, r :=
        ScanLine(lines[n], n + 1, mode, hashes, blockStart, blockBuf, r, EventsBefore(lines, n));
    }
    AllLines(text);
    assert EventsBefore(lines, |lines|) + [] == EventsBefore(lines, |lines|);
    if mode == InBlock {
      RecordText(r, EventsBefore(lines, |lines|), [], Found(blockStart, blockBuf));
      assert [] + [Closed(blockStart, blockBuf)] == Finish(ModeAt(lines, |lines|));
      r := r.(blockTexts := r.blockTexts + [Found(blockStart, blockBuf)]);
    }
  }

  /** The lists agree: one text for every block opened, in order, and a comment on record
      for every line that is nothing but a comment. */
  lemma ScanAgrees(text: string, r: Scan)
    requires Records(r, LexText(DropReturns(text), 0, Code)) && |r.isComment| == |Lines(text)|
    requires forall n | 0 <= n < |r.isComment| :: r.isComment[n] <==> OnlyComment(Lines(text), n)
    ensures LinesOf(r.blockTexts) == r.blockAt
    ensures forall n: nat | n < |r.isComment| && r.isComment[n] ::
      Found(n + 1, Lines(text)[n][SkipSpace(Lines(text)[n], 0)..]) in r.comments
  {
    var found := LexText(DropReturns(text), 0, Code);
    EveryBlockHasOneText(DropReturns(text), 0, Code);
    assert Inside(Code) + Openings(found) == Openings(found);
    assert LinesOf(Texts(found)) + Inside(Code) == LinesOf(Texts(found));
    AllLines(text);
    var lines := Lines(text);
    forall n: nat | n < |r.isComment| && r.isComment[n]
      ensures Found(n + 1, lines[n][SkipSpace(lines[n], 0)..]) in r.comments
    {
      OnlyCommentIsRecorded(lines, n);
    }
  }
}
