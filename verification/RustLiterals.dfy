/** What the comment scanner makes of a Rust text: literals hide what looks like a comment,
    and the first comment outside of them is found, whole and on its line. */
module RustLiterals {
  import opened RustScan

  // ---------- literals ----------

  /** The inside of a string literal: escaped characters, and others but quote and backslash. */
  predicate StringBody(s: string) {
    || s == ""
    || (s[0] == '\\' && |s| > 1 && StringBody(s[2..]))
    || (s[0] != '\\' && s[0] != '"' && StringBody(s[1..]))
  }

  /** A whole string literal stands from `i` to before `e`. */
  predicate StringAt(t: string, i: nat, e: nat) {
    i + 2 <= e <= |t| && t[i] == '"' && t[e - 1] == '"' && StringBody(t[i + 1..e - 1])
  }

  /** A quote and `h` hashes stand at `k`. */
  predicate RawEnd(t: string, k: nat, h: nat) {
    k + h < |t| && t[k] == '"' && forall n | k < n <= k + h :: t[n] == '#'
  }

  predicate RawStart(t: string, i: nat, h: nat) {
    i + 1 + h < |t| && t[i] == 'r' && t[i + 1 + h] == '"' && forall n | i < n <= i + h :: t[n] == '#'
  }

  /** A whole raw string literal with `h` hashes: it ends at the first quote with as many hashes. */
  predicate RawAt(t: string, i: nat, h: nat, e: nat) {
    && RawStart(t, i, h) && i + 2 * h + 3 <= e && RawEnd(t, e - 1 - h, h)
    && forall k | i + h + 2 <= k < e - 1 - h :: !RawEnd(t, k, h)
  }

  predicate EndsLine(c: char) {
    c == '\n' || c == '\r' || c == '\U{2028}' || c == '\U{2029}'
  }

  /** A character of the basic plane, or an escaped one, between two apostrophes. */
  predicate CharAt(t: string, i: nat, e: nat) {
    || (e == i + 3 <= |t| && t[i] == '\'' && t[i + 2] == '\''
        && t[i + 1] != '\\' && t[i + 1] != '\'' && t[i + 1] != '\n' && t[i + 1] < '\U{10000}')
    || (e == i + 4 <= |t| && t[i] == '\'' && t[i + 1] == '\\' && t[i + 3] == '\''
        && !EndsLine(t[i + 2]) && t[i + 2] < '\U{10000}')
  }

  ghost predicate LiteralAt(t: string, i: nat, e: nat) {
    StringAt(t, i, e) || CharAt(t, i, e) || exists h: nat :: RawAt(t, i, h, e)
  }

  lemma {:induction false} InString(t: string, i: nat, j: nat)
    requires i <= j < |t| && t[j] == '"' && StringBody(t[i..j])
    ensures LexText(t, i, Str) == LexText(t, j + 1, Code)
    decreases j - i
  {
    hide Breaks;
    if i < j {
      var body := t[i..j];
      var n := if t[i] == '\\' then 2 else 1;
      assert body[0] == t[i] && body[n..] == t[i + n..j];
      InString(t, i + n, j);
    }
  }

  lemma HashesAre(t: string, i: nat, h: nat)
    requires i + h <= |t| && forall n | i <= n < i + h :: t[n] == '#'
    ensures Hashes(t, i) >= h
    ensures i + h < |t| && t[i + h] != '#' ==> Hashes(t, i) == h
  {
  }

  lemma {:induction false} InRaw(t: string, i: nat, h: nat, j: nat)
    requires i <= j && RawEnd(t, j, h) && forall k | i <= k < j :: !RawEnd(t, k, h)
    ensures LexText(t, i, Raw(h)) == LexText(t, j + 1 + h, Code)
    decreases j - i
  {
    hide Breaks;
    if i < j {
      assert !(t[i] == '"' && Hashes(t, i + 1) >= h) by {
        assert !RawEnd(t, i, h);
      }
      InRaw(t, i + 1, h, j);
    } else {
      HashesAre(t, j + 1, h);
    }
  }

  lemma QuietStep(t: string, i: nat, m: Mode, next: nat, mode: Mode)
    requires i < |t| && Step(t, i, m, 1 + Breaks(t[..i])) == Move(next, mode, [])
    ensures LexText(t, i, m) == LexText(t, next, mode)
  {
    hide Step, Breaks;
  }

  lemma OpensString(t: string, i: nat, line: nat)
    requires i < |t| && t[i] == '"'
    ensures Step(t, i, Code, line) == Move(i + 1, Str, [])
  {
  }

  lemma OpensRaw(t: string, i: nat, h: nat, line: nat)
    requires RawStart(t, i, h)
    ensures Step(t, i, Code, line) == Move(i + h + 2, Raw(h), [])
  {
    HashesAre(t, i + 1, h);
    hide Hashes, LineEnd;
  }

  lemma IsChar(t: string, i: nat, e: nat, line: nat)
    requires CharAt(t, i, e)
    ensures Step(t, i, Code, line) == Move(e, Code, [])
  {
    assert CharLiteral(t, i) == e - i;
  }

  lemma StringIsSkipped(t: string, i: nat, e: nat)
    requires StringAt(t, i, e)
    ensures LexText(t, i, Code) == LexText(t, e, Code)
  {
    hide LexText, Step, StringBody;
    InString(t, i + 1, e - 1);
    OpensString(t, i, 1 + Breaks(t[..i]));
    QuietStep(t, i, Code, i + 1, Str);
  }

  lemma CharIsSkipped(t: string, i: nat, e: nat)
    requires CharAt(t, i, e)
    ensures LexText(t, i, Code) == LexText(t, e, Code)
  {
    hide LexText, Step;
    IsChar(t, i, e, 1 + Breaks(t[..i]));
    QuietStep(t, i, Code, e, Code);
  }

  lemma RawIsSkipped(t: string, i: nat, h: nat, e: nat)
    requires RawAt(t, i, h, e)
    ensures LexText(t, i, Code) == LexText(t, e, Code)
  {
    hide LexText, Step;
    OpensRaw(t, i, h, 1 + Breaks(t[..i]));
    QuietStep(t, i, Code, i + h + 2, Raw(h));
    InRaw(t, i + h + 2, h, e - 1 - h);
  }

  /** In code a whole literal is passed over: nothing in it is taken for a comment, and the
      scan goes on in code right behind it. */
  lemma LiteralIsSkipped(t: string, i: nat, e: nat)
    requires LiteralAt(t, i, e)
    ensures LexText(t, i, Code) == LexText(t, e, Code)
    ensures i < e <= |t|
  {
    hide LexText, StringBody;
    if StringAt(t, i, e) {
      StringIsSkipped(t, i, e);
    } else if CharAt(t, i, e) {
      CharIsSkipped(t, i, e);
    } else {
      var h: nat :| RawAt(t, i, h, e);
      RawIsSkipped(t, i, h, e);
    }
  }

  // ---------- code ----------

  /** No literal and no comment begins at `i`. */
  ghost predicate Plain(t: string, i: nat) {
    && i < |t| && t[i] != '"' && !PairAt(t, i, '/', '/') && !PairAt(t, i, '/', '*')
    && (forall h: nat :: !RawStart(t, i, h))
    && forall e: nat :: !CharAt(t, i, e)
  }

  lemma PlainIsSkipped(t: string, i: nat)
    requires Plain(t, i)
    ensures LexText(t, i, Code) == LexText(t, i + 1, Code)
  {
    hide Breaks;
    assert !RawStart(t, i, Hashes(t, i + 1));
    assert !CharAt(t, i, i + 3) && !CharAt(t, i, i + 4);
    assert CharLiteral(t, i) == 0;
  }

  /** From `i` to before `j` the text is code without comments: whole literals and plain characters. */
  ghost predicate Uncommented(t: string, i: nat, j: nat)
    decreases if i < j then j - i else 0
  {
    || i == j <= |t|
    || (i < j && Plain(t, i) && Uncommented(t, i + 1, j))
    || exists e :: i < e <= j && LiteralAt(t, i, e) && Uncommented(t, e, j)
  }

  lemma {:induction false} UncommentedIsSkipped(t: string, i: nat, j: nat)
    requires Uncommented(t, i, j)
    ensures i <= j <= |t| && LexText(t, i, Code) == LexText(t, j, Code)
    decreases if i < j then j - i else 0
  {
    hide LexText, Plain, LiteralAt;
    if i != j {
      if Plain(t, i) && Uncommented(t, i + 1, j) {
        PlainIsSkipped(t, i);
        UncommentedIsSkipped(t, i + 1, j);
      } else {
        var e :| i < e <= j && LiteralAt(t, i, e) && Uncommented(t, e, j);
        LiteralIsSkipped(t, i, e);
        UncommentedIsSkipped(t, e, j);
      }
    }
  }

  /** A text without comments has none found. */
  lemma NothingIsInvented(t: string)
    requires Uncommented(t, 0, |t|)
    ensures LexText(t, 0, Code) == []
  {
    UncommentedIsSkipped(t, 0, |t|);
  }

  // ---------- comments ----------

  /** The first comment, when it is a line comment, is found with its text to the end of its
      line and under that line's number; the scan goes on in code at the line's end. */
  lemma FirstRemarkIsFound(t: string, i: nat, j: nat, e: nat)
    requires Uncommented(t, i, j) && PairAt(t, j, '/', '/')
    requires j <= e <= |t| && (e == |t| || t[e] == '\n') && '\n' !in t[j..e]
    ensures LexText(t, i, Code) == [Remark(1 + Breaks(t[..j]), t[j..e])] + LexText(t, e, Code)
  {
    hide Uncommented, LexText;
    UncommentedIsSkipped(t, i, j);
    RemarkAt(t, j, e);
  }

  lemma RemarkAt(t: string, j: nat, e: nat)
    requires PairAt(t, j, '/', '/') && j <= e <= |t| && (e == |t| || t[e] == '\n') && '\n' !in t[j..e]
    ensures LexText(t, j, Code) == [Remark(1 + Breaks(t[..j]), t[j..e])] + LexText(t, e, Code)
  {
    hide Breaks;
    assert forall k | j <= k < e :: t[k] == t[j..e][k - j];
    assert e >= j + 2 && LineEnd(t, j) == e == LineEnd(t, j + 2);
  }

  /** A block's text: what stands in it without the breaks of its empty lines. */
  function BlockText(s: string): string {
    if s == "" then ""
    else
      var n := |s| - 1;
      if s[n] == '\n' && (n == 0 || s[n - 1] == '\n') then BlockText(s[..n]) else BlockText(s[..n]) + [s[n]]
  }

  /** The scanner inside of a block that began on `line`, its content from `b` to before `k` read. */
  function BlockSoFar(t: string, b: nat, k: nat, line: nat): Mode
    requires b <= k <= |t|
  {
    Block(line, BlockText(t[b..k]), k > b && t[k - 1] != '\n')
  }

  lemma BlockMove(t: string, b: nat, k: nat, line: nat)
    requires b <= k < |t| && !PairAt(t, k, '*', '/')
    ensures LexText(t, k, BlockSoFar(t, b, k, line)) == LexText(t, k + 1, BlockSoFar(t, b, k + 1, line))
  {
    hide Breaks;
    var s := t[b..k + 1];
    assert s[..k - b] == t[b..k] && s[k - b] == t[k] && (k > b ==> s[k - b - 1] == t[k - 1]);
  }

  lemma {:induction false} InBlockTo(t: string, b: nat, k: nat, q: nat, line: nat)
    requires b <= k <= q <= |t| && forall n | k <= n < q :: !PairAt(t, n, '*', '/')
    ensures LexText(t, k, BlockSoFar(t, b, k, line)) == LexText(t, q, BlockSoFar(t, b, q, line))
    decreases q - k
  {
    hide LexText, PairAt, BlockSoFar;
    if k < q {
      BlockMove(t, b, k, line);
      InBlockTo(t, b, k + 1, q, line);
    }
  }

  /** The first comment, when it is a block, is found on its line with the text up to the first
      `*` and `/` behind it; the scan goes on in code after them. */
  lemma FirstBlockIsFound(t: string, i: nat, j: nat, q: nat)
    requires Uncommented(t, i, j) && PairAt(t, j, '/', '*')
    requires j + 2 <= q && PairAt(t, q, '*', '/') && forall n | j + 2 <= n < q :: !PairAt(t, n, '*', '/')
    ensures var line := 1 + Breaks(t[..j]);
      LexText(t, i, Code) == [Opened(line), Closed(line, BlockText(t[j + 2..q]))] + LexText(t, q + 2, Code)
  {
    hide Uncommented, LexText, BlockSoFar;
    var line := 1 + Breaks(t[..j]);
    UncommentedIsSkipped(t, i, j);
    BlockOpens(t, j);
    InBlockTo(t, j + 2, j + 2, q, line);
    BlockCloses(t, j + 2, q, line);
    Regroup([Opened(line)], [Closed(line, BlockText(t[j + 2..q]))], LexText(t, q + 2, Code));
  }

  lemma BlockOpens(t: string, j: nat)
    requires PairAt(t, j, '/', '*')
    ensures var line := 1 + Breaks(t[..j]);
      LexText(t, j, Code) == [Opened(line)] + LexText(t, j + 2, BlockSoFar(t, j + 2, j + 2, line))
  {
    hide Breaks;
    EmptyBlock(t, j + 2, 1 + Breaks(t[..j]));
  }

  lemma BlockCloses(t: string, b: nat, q: nat, line: nat)
    requires b <= q && PairAt(t, q, '*', '/')
    ensures LexText(t, q, BlockSoFar(t, b, q, line)) == [Closed(line, BlockText(t[b..q]))] + LexText(t, q + 2, Code)
  {
    hide Breaks, BlockText;
  }

  lemma EmptyBlock(t: string, b: nat, line: nat)
    requires b <= |t|
    ensures BlockSoFar(t, b, b, line) == Block(line, "", false)
  {
  }

  /** A block that is never closed takes the rest of the text. */
  lemma UnclosedBlockIsFound(t: string, i: nat, j: nat)
    requires Uncommented(t, i, j) && PairAt(t, j, '/', '*')
    requires forall n | j + 2 <= n :: !PairAt(t, n, '*', '/')
    ensures var line := 1 + Breaks(t[..j]);
      LexText(t, i, Code) == [Opened(line), Closed(line, BlockText(t[j + 2..] + "\n"))]
  {
    hide Uncommented, LexText, BlockSoFar;
    var line := 1 + Breaks(t[..j]);
    UncommentedIsSkipped(t, i, j);
    BlockOpens(t, j);
    InBlockTo(t, j + 2, j + 2, |t|, line);
    BlockEnds(t, j + 2, line);
  }

  lemma BlockEnds(t: string, b: nat, line: nat)
    requires b <= |t|
    ensures LexText(t, |t|, BlockSoFar(t, b, |t|, line)) == [Closed(line, BlockText(t[b..] + "\n"))]
  {
    hide BlockText, LexText;
    var x := t[b..];
    BreakBehind(x);
    AtTheEnd(t, BlockSoFar(t, b, |t|, line));
    assert x == t[b..|t|] && (b < |t| ==> x[|x| - 1] == t[|t| - 1]);
  }

  lemma AtTheEnd(t: string, m: Mode)
    ensures LexText(t, |t|, m) == Finish(m)
  {
    hide Step, Breaks;
  }

  lemma BreakBehind(x: string)
    ensures BlockText(x + "\n") == if x == "" || x[|x| - 1] == '\n' then BlockText(x) else BlockText(x) + "\n"
  {
    var s := x + "\n";
    assert s[..|s| - 1] == x && s[|s| - 1] == '\n';
  }

  // ---------- lines of nothing but a comment ----------

  /** A line that begins in code is marked as a comment when only blanks stand before its first
      two slashes, and is not when something else does. */
  lemma IndentedCommentIsMarked(lines: seq<string>, n: nat, k: nat)
    requires n < |lines| && k < |lines[n]| && ModeAt(lines, n).Code?
    requires forall j | 0 <= j < k :: lines[n][j] == ' ' || lines[n][j] == '\t'
    ensures PairAt(lines[n], k, '/', '/') ==> OnlyComment(lines, n)
    ensures lines[n][k] !in {' ', '\t', '/'} && !Space(lines[n][k]) ==> !OnlyComment(lines, n)
  {
    var first := SkipSpace(lines[n], 0);
    assert !(first < k) && (first > k ==> Space(lines[n][k]));
  }

  /** A line that begins inside of a literal or a block is never marked. */
  lemma InsideIsNotMarked(lines: seq<string>, n: nat)
    requires n < |lines| && !ModeAt(lines, n).Code?
    ensures !OnlyComment(lines, n)
  {
  }

  // ---------- what is not recognised ----------

  /** In Rust, two character literals, the first one escaped by number, and a string that holds a
      slash and a star. */
  predicate Sample(t: string) {
    && |t| == 15 && t[0] == '\'' && t[1] == '\\' && t[2] == 'x' && t[3] == '4' && t[4] == '1' && t[5] == '\''
    && t[6] == ',' && t[7] == '\'' && t[8] == '"' && t[9] == '\'' && t[10] == ',' && t[11] == '"'
    && t[12] == '/' && t[13] == '*' && t[14] == '"'
  }

  lemma SampleString(t: string)
    requires Sample(t)
    ensures StringAt(t, 8, 12)
  {
    var body := t[9..11];
    assert StringBody(body[2..]) && body[1..][0] == ',' && body[1..][1..] == body[2..];
    assert StringBody(body[1..]);
  }

  lemma SamplePlain(t: string, i: nat)
    requires Sample(t) && i < 5
    ensures Plain(t, i)
  {
  }

  lemma SampleUncommented(t: string)
    requires Sample(t)
    ensures Uncommented(t, 0, 12)
  {
    hide LiteralAt, Plain, StringAt;
    SampleString(t);
    Behind(t, 8, 12, 12);
    assert CharAt(t, 5, 8);
    Behind(t, 5, 8, 12);
    SamplePlain(t, 4);
    SamplePlain(t, 3);
    SamplePlain(t, 2);
    SamplePlain(t, 1);
    SamplePlain(t, 0);
    hide Sample;
    PlainBefore(t, 4, 12);
    PlainBefore(t, 3, 12);
    PlainBefore(t, 2, 12);
    PlainBefore(t, 1, 12);
    PlainBefore(t, 0, 12);
  }

  /** The first literal has an escape of more than one character, which the scanner does not
      know: it takes the second one's quote for the beginning of a string, and what stands in
      the string for a block comment. */
  lemma LongEscapeInventsABlock(t: string)
    requires Sample(t)
    ensures LexText(t, 0, Code) == [Opened(1), Closed(1, "\"\n")]
  {
    hide LexText, Uncommented;
    SampleUncommented(t);
    UnclosedBlockIsFound(t, 0, 12);
    NoBreaks(t[..12]);
    var rest := t[14..] + "\n";
    assert rest == ['"', '\n'] && rest[..1] == ['"'] && rest[..1][..0] == "";
    assert BlockText(rest[..1]) == ['"'];
  }

  lemma PlainBefore(t: string, i: nat, j: nat)
    requires i < j && Plain(t, i) && Uncommented(t, i + 1, j)
    ensures Uncommented(t, i, j)
  {
    hide Plain, LiteralAt;
  }

  lemma Behind(t: string, i: nat, e: nat, j: nat)
    requires i < e <= j <= |t| && (StringAt(t, i, e) || CharAt(t, i, e)) && (e == j || Uncommented(t, e, j))
    ensures Uncommented(t, i, j)
  {
    hide StringAt, CharAt, Plain;
    assert LiteralAt(t, i, e) && Uncommented(t, e, j);
  }
}
