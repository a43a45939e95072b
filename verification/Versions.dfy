/** The numeric-aware sort key of package names and the choice of the newest package. */
module Versions {
  import opened Outcomes

  const WIDTH := 12

  predicate IsDigit(c: char) {
    '0' <= c <= '9'
  }

  predicate Digits(s: string) {
    forall i | 0 <= i < |s| :: IsDigit(s[i])
  }

  /** `{:0>12}`: zeros on the left up to twelve characters, longer runs as they are. */
  function Pad(run: string): string
    decreases WIDTH - |run|
  {
    if |run| >= WIDTH then run else Pad("0" + run)
  }

  // ---------- names as runs ----------

  datatype Token = Text(c: char) | Number(run: string)

  function Flush(run: string): seq<Token> {
    if run == "" then [] else [Number(run)]
  }

  /** Splits a name into its digit runs and its other characters, `run` being read already. */
  function Tokens(s: string, run: string): seq<Token> {
    if s == "" then Flush(run)
    else if IsDigit(s[0]) then Tokens(s[1..], run + [s[0]])
    else Flush(run) + [Text(s[0])] + Tokens(s[1..], "")
  }

  function SpellOne(token: Token): string {
    if token.Text? then [token.c] else token.run
  }

  function Spell(tokens: seq<Token>): string {
    if tokens == [] then "" else SpellOne(tokens[0]) + Spell(tokens[1..])
  }

  /** Digit runs are non-empty, all digits and maximal; other characters are no digits. */
  ghost predicate WellSplit(tokens: seq<Token>) {
    forall i: nat | i < |tokens| :: TokenOk(tokens, i)
  }

  ghost predicate TokenOk(tokens: seq<Token>, i: nat)
    requires i < |tokens|
  {
    match tokens[i]
    case Text(c) => !IsDigit(c)
    case Number(run) => run != "" && Digits(run) && (i > 0 ==> tokens[i - 1].Text?)
  }

  lemma Associate(x: string, y: string, z: string)
    ensures x + (y + z) == x + y + z
  {
  }

  lemma {:induction false} SpellAppend(a: seq<Token>, b: seq<Token>)
    ensures Spell(a + b) == Spell(a) + Spell(b)
  {
    if a == [] {
      assert a + b == b;
    } else {
      SpellAppend(a[1..], b);
      assert (a + b)[1..] == a[1..] + b;
      Associate(SpellOne(a[0]), Spell(a[1..]), Spell(b));
    }
  }

  lemma WellSplitJoin(a: seq<Token>, b: seq<Token>)
    requires WellSplit(a) && WellSplit(b)
    requires a != [] && b != [] ==> a[|a| - 1].Text? || b[0].Text?
    ensures WellSplit(a + b)
  {
    var all := a + b;
    forall i: nat | i < |all|
      ensures TokenOk(all, i)
    {
      if i < |a| {
        assert TokenOk(a, i);
      } else {
        assert TokenOk(b, i - |a|);
      }
    }
  }

  /** The split loses nothing. */
  lemma {:induction false} TokensSpell(s: string, run: string)
    ensures Spell(Tokens(s, run)) == run + s
    decreases |s|
  {
    if s != "" {
      assert s == [s[0]] + s[1..];
      if IsDigit(s[0]) {
        TokensSpell(s[1..], run + [s[0]]);
      } else {
        TokensSpell(s[1..], "");
        SpellAppend(Flush(run) + [Text(s[0])], Tokens(s[1..], ""));
        SpellAppend(Flush(run), [Text(s[0])]);
        Associate(run, [s[0]], s[1..]);
        assert Spell(Flush(run)) == run && Spell([Text(s[0])]) == [s[0]];
      }
    }
  }

  /** The split cuts exactly between digits and other characters. */
  lemma {:induction false} TokensWellSplit(s: string, run: string)
    requires Digits(run)
    ensures WellSplit(Tokens(s, run))
    decreases |s|
  {
    if s != "" {
      if IsDigit(s[0]) {
        TokensWellSplit(s[1..], run + [s[0]]);
      } else {
        TokensWellSplit(s[1..], "");
        WellSplitJoin(Flush(run), [Text(s[0])]);
        WellSplitJoin(Flush(run) + [Text(s[0])], Tokens(s[1..], ""));
      }
    }
  }

  // ---------- the key ----------

  function KeyOne(token: Token): string {
    if token.Text? then [token.c] else Pad(token.run)
  }

  function Key(tokens: seq<Token>): string {
    if tokens == [] then "" else KeyOne(tokens[0]) + Key(tokens[1..])
  }

  function KeyOf(name: string): string {
    Key(Tokens(name, ""))
  }

  lemma KeyStep(run: string, rest: seq<Token>)
    ensures Key(Flush(run) + rest) == (if run == "" then "" else Pad(run)) + Key(rest)
  {
    if run == "" {
      assert Flush(run) + rest == rest;
    } else {
      assert (Flush(run) + rest)[1..] == rest;
    }
  }

  lemma KeyPast(run: string, c: char, rest: seq<Token>)
    ensures Key(Flush(run) + [Text(c)] + rest) == (if run == "" then "" else Pad(run)) + [c] + Key(rest)
  {
    KeyStep(run, [Text(c)] + rest);
    assert Flush(run) + [Text(c)] + rest == Flush(run) + ([Text(c)] + rest);
    assert ([Text(c)] + rest)[1..] == rest;
  }

  lemma KeyOfNothing()
    ensures Key([]) == ""
  {
  }

  method VersionKey(s: string) returns (out: string)
    ensures out == KeyOf(s)
  {
    hide Key;
    out := "";
    var num := "";
    for i := 0 to |s|
      invariant KeyOf(s) == out + Key(Tokens(s[i..], num))
    {
      var c := s[i];
      assert s[i..][1..] == s[i + 1..];
      if IsDigit(c) {
        num := num + [c];
      } else {
        KeyPast(num, c, Tokens(s[i + 1..], ""));
        if num != "" {
          out := out + Pad(num);
          num := "";
        }
        out := out + [c];
      }
    }
    KeyStep(num, []);
    assert Flush(num) + [] == Flush(num);
    KeyOfNothing();
    if num != "" {
      out := out + Pad(num);
    }
  }

  // ---------- orders ----------

  /** Byte order of UTF-8 text, which is code point order. */
  predicate Less(a: string, b: string) {
    b != "" && (a == "" || a[0] < b[0] || (a[0] == b[0] && Less(a[1..], b[1..])))
  }

  function Value(run: string): nat
    requires Digits(run)
  {
    if run == "" then 0
    else 10 * Value(run[..|run| - 1]) + (run[|run| - 1] as int - '0' as int)
  }

  ghost predicate SameShape(a: seq<Token>, b: seq<Token>) {
    && |a| == |b|
    && forall i | 0 <= i < |a| :: a[i].Text? == b[i].Text? && (a[i].Text? ==> a[i] == b[i])
  }

  /** Every number is a non-empty run of digits, as in the runs of any name. */
  ghost predicate Proper(tokens: seq<Token>) {
    forall i | 0 <= i < |tokens| && tokens[i].Number? :: Digits(tokens[i].run) && tokens[i].run != ""
  }

  /** Each number is padded to the same width in both. */
  ghost predicate SameWidths(a: seq<Token>, b: seq<Token>)
    requires SameShape(a, b)
  {
    forall i | 0 <= i < |a| && a[i].Number? :: |Pad(a[i].run)| == |Pad(b[i].run)|
  }

  /** The numbers of two names of one shape, compared from the left. */
  predicate NumbersLess(a: seq<Token>, b: seq<Token>)
    requires SameShape(a, b) && Proper(a) && Proper(b)
  {
    if a == [] then false
    else if a[0].Number? && Value(a[0].run) != Value(b[0].run) then Value(a[0].run) < Value(b[0].run)
    else NumbersLess(a[1..], b[1..])
  }

  // ---------- padding keeps the number ----------

  lemma {:induction false} LeadingZero(run: string)
    requires Digits(run)
    ensures Digits("0" + run) && Value("0" + run) == Value(run)
    decreases |run|
  {
    if run != "" {
      var init := run[..|run| - 1];
      LeadingZero(init);
      assert ("0" + run)[..|run|] == "0" + init;
    } else {
      assert ("0" + run)[..0] == "";
    }
  }

  lemma {:induction false} PadKeepsValue(run: string)
    requires Digits(run)
    ensures Digits(Pad(run)) && Value(Pad(run)) == Value(run)
    ensures |Pad(run)| == if |run| < WIDTH then WIDTH else |run|
    decreases WIDTH - |run|
  {
    if |run| < WIDTH {
      LeadingZero(run);
      PadKeepsValue("0" + run);
    }
  }

  lemma {:induction false} LessBySnoc(a: string, b: string, x: char, y: char)
    requires |a| == |b|
    ensures Less(a + [x], b + [y]) <==> Less(a, b) || (a == b && x < y)
  {
    if a == "" {
      assert a + [x] == [x] && b + [y] == [y];
    } else {
      LessBySnoc(a[1..], b[1..], x, y);
      assert (a + [x])[1..] == a[1..] + [x] && (b + [y])[1..] == b[1..] + [y];
      assert a == [a[0]] + a[1..] && b == [b[0]] + b[1..];
    }
  }

  /** Among digit strings of one length, text order is numeric order. */
  lemma {:induction false} SameLengthOrder(a: string, b: string)
    requires Digits(a) && Digits(b) && |a| == |b|
    ensures Less(a, b) <==> Value(a) < Value(b)
    ensures a == b <==> Value(a) == Value(b)
    decreases |a|
  {
    if a != "" {
      var n := |a| - 1;
      SameLengthOrder(a[..n], b[..n]);
      assert a == a[..n] + [a[n]] && b == b[..n] + [b[n]];
      LessBySnoc(a[..n], b[..n], a[n], b[n]);
    }
  }

  lemma {:induction false} LessBlock(a: string, b: string, restA: string, restB: string)
    requires |a| == |b|
    ensures Less(a + restA, b + restB) <==> Less(a, b) || (a == b && Less(restA, restB))
  {
    if a == "" {
      assert a + restA == restA && b + restB == restB;
    } else {
      LessBlock(a[1..], b[1..], restA, restB);
      assert (a + restA)[1..] == a[1..] + restA && (b + restB)[1..] == b[1..] + restB;
      assert a == [a[0]] + a[1..] && b == [b[0]] + b[1..];
    }
  }

  lemma KeyCons(t: Token, u: Token, a: seq<Token>, b: seq<Token>)
    requires |KeyOne(t)| == |KeyOne(u)|
    ensures Less(Key([t] + a), Key([u] + b)) <==>
      Less(KeyOne(t), KeyOne(u)) || (KeyOne(t) == KeyOne(u) && Less(Key(a), Key(b)))
  {
    assert ([t] + a)[1..] == a && ([u] + b)[1..] == b;
    LessBlock(KeyOne(t), KeyOne(u), Key(a), Key(b));
  }

  /** For names of one shape whose numbers are padded to the same widths, the key order is the
      order of their numbers. */
  lemma {:induction false} KeyOrderIsNumberOrder(a: seq<Token>, b: seq<Token>)
    requires SameShape(a, b) && Proper(a) && Proper(b) && SameWidths(a, b)
    ensures Less(Key(a), Key(b)) <==> NumbersLess(a, b)
    decreases |a|
  {
    if a != [] {
      KeyOrderIsNumberOrder(a[1..], b[1..]);
      LessBlock(KeyOne(a[0]), KeyOne(b[0]), Key(a[1..]), Key(b[1..]));
      if a[0].Number? {
        PadKeepsValue(a[0].run);
        PadKeepsValue(b[0].run);
        SameLengthOrder(Pad(a[0].run), Pad(b[0].run));
      } else {
        LessIrreflexive(KeyOne(a[0]));
      }
    }
  }

  /** Runs of at most twelve digits are all padded to twelve. */
  lemma ShortRunsShareWidths(a: seq<Token>, b: seq<Token>)
    requires SameShape(a, b) && Proper(a) && Proper(b)
    requires forall i | 0 <= i < |a| && a[i].Number? :: |a[i].run| <= 12 && |b[i].run| <= 12
    ensures SameWidths(a, b)
  {
    forall i | 0 <= i < |a| && a[i].Number?
      ensures |Pad(a[i].run)| == |Pad(b[i].run)|
    {
      PadKeepsValue(a[i].run);
      PadKeepsValue(b[i].run);
    }
  }

  lemma {:induction false} LessIrreflexive(a: string)
    ensures !Less(a, a)
  {
    if a != "" {
      LessIrreflexive(a[1..]);
    }
  }

  lemma {:induction false} LessTotal(a: string, b: string)
    ensures Less(a, b) || a == b || Less(b, a)
  {
    if a != "" && b != "" && a[0] == b[0] {
      LessTotal(a[1..], b[1..]);
      assert a == [a[0]] + a[1..] && b == [b[0]] + b[1..];
    }
  }

  lemma {:induction false} LessTransitive(a: string, b: string, c: string)
    requires Less(a, b) && Less(b, c)
    ensures Less(a, c)
  {
    if a != "" && a[0] == b[0] == c[0] {
      LessTransitive(a[1..], b[1..], c[1..]);
    }
  }

  // ---------- exactly when the key order is right ----------

  function Nines(n: nat): (s: string)
    ensures |s| == n && Digits(s) && forall i | 0 <= i < n :: s[i] == '9'
  {
    if n == 0 then "" else Nines(n - 1) + "9"
  }

  /** One and then zeros, `n` digits in all. */
  function Tens(n: nat): (s: string)
    requires n > 0
    ensures |s| == n && Digits(s) && s[0] == '1'
  {
    if n == 1 then "1" else Tens(n - 1) + "0"
  }

  lemma OneMoreZero(q: nat)
    requires q > 1
    ensures Value(Tens(q)) == 10 * Value(Tens(q - 1))
  {
    assert Tens(q)[..q - 1] == Tens(q - 1);
  }

  lemma {:induction false} TensGrow(p: nat, q: nat)
    requires 0 < p <= q
    ensures Value(Tens(p)) <= Value(Tens(q))
  {
    hide Value, Tens;
    if p < q {
      TensGrow(p, q - 1);
      OneMoreZero(q);
    }
  }

  lemma {:induction false} NinesBelowTens(p: nat)
    ensures Value(Nines(p)) + 1 == Value(Tens(p + 1))
  {
    if p == 0 {
      assert "1"[..0] == "";
    } else {
      NinesBelowTens(p - 1);
      assert Nines(p)[..p - 1] == Nines(p - 1);
      assert Tens(p + 1)[..p] == Tens(p);
    }
  }

  /** Of two widths, all nines in the smaller are less than a one with zeros in the greater,
      but sort after it. */
  lemma WidthsClash(p: nat, q: nat)
    requires WIDTH <= p < q
    ensures Pad(Nines(p)) == Nines(p) && Pad(Tens(q)) == Tens(q)
    ensures Value(Nines(p)) < Value(Tens(q)) && Less(Tens(q), Nines(p)) && !Less(Nines(p), Tens(q))
    ensures Nines(p)[0] == '9' && Tens(q)[0] == '1'
  {
    NinesBelowTens(p);
    TensGrow(p + 1, q);
  }

  /** `a` is a name like `model`: the same characters around its numbers, each number of the
      same padded width. */
  ghost predicate Like(a: seq<Token>, model: seq<Token>) {
    SameShape(a, model) && Proper(a) && SameWidths(a, model)
  }

  lemma {:induction false} OrderNeedsSameWidths(a0: seq<Token>, b0: seq<Token>)
    returns (a: seq<Token>, b: seq<Token>)
    requires SameShape(a0, b0) && Proper(a0) && Proper(b0) && !SameWidths(a0, b0)
    ensures Like(a, a0) && Like(b, b0) && SameShape(a, b)
    ensures !(Less(Key(a), Key(b)) <==> NumbersLess(a, b))
    decreases |a0|
  {
    hide Pad, Key, Less, NumbersLess;
    if a0[0].Number? && |Pad(a0[0].run)| != |Pad(b0[0].run)| {
      a, b := ClashAtOnce(a0, b0);
    } else {
      Tails(a0, b0);
      var restA, restB := OrderNeedsSameWidths(a0[1..], b0[1..]);
      a, b := [a0[0]] + restA, [a0[0]] + restB;
      ClashLater(a0, b0, restA, restB);
    }
  }

  lemma Tails(a: seq<Token>, b: seq<Token>)
    requires SameShape(a, b) && Proper(a) && Proper(b) && a != []
    requires a[0].Number? ==> |Pad(a[0].run)| == |Pad(b[0].run)|
    ensures SameShape(a[1..], b[1..]) && Proper(a[1..]) && Proper(b[1..])
    ensures SameWidths(a[1..], b[1..]) ==> SameWidths(a, b)
  {
    hide Pad;
    if SameWidths(a[1..], b[1..]) {
      forall i | 0 <= i < |a| && a[i].Number?
        ensures |Pad(a[i].run)| == |Pad(b[i].run)|
      {
        if i > 0 {
          assert a[1..][i - 1] == a[i] && b[1..][i - 1] == b[i];
        }
      }
    }
  }

  lemma ClashAtOnce(a0: seq<Token>, b0: seq<Token>) returns (a: seq<Token>, b: seq<Token>)
    requires SameShape(a0, b0) && Proper(a0) && Proper(b0) && a0 != [] && a0[0].Number?
    requires |Pad(a0[0].run)| != |Pad(b0[0].run)|
    ensures Like(a, a0) && Like(b, b0) && SameShape(a, b)
    ensures !(Less(Key(a), Key(b)) <==> NumbersLess(a, b))
  {
    hide Key, Less, Pad, Nines, Tens, Value, NumbersLess, Like;
    var p, q := |Pad(a0[0].run)|, |Pad(b0[0].run)|;
    PadKeepsValue(a0[0].run);
    PadKeepsValue(b0[0].run);
    var x, y := if p < q then Nines(p) else Tens(p), if p < q then Tens(q) else Nines(q);
    a, b := [Number(x)] + a0[1..], [Number(y)] + b0[1..];
    if p < q {
      WidthsClash(p, q);
    } else {
      WidthsClash(q, p);
    }
    FirstDecides(x, y, a0[1..], b0[1..]);
    Renumbered(a0, x);
    Renumbered(b0, y);
    NumbersDecide(x, y, a0[1..], b0[1..]);
  }

  lemma Renumbered(tokens: seq<Token>, run: string)
    requires Proper(tokens) && tokens != [] && tokens[0].Number? && Digits(run) && run != ""
    requires |Pad(run)| == |Pad(tokens[0].run)|
    ensures Like([Number(run)] + tokens[1..], tokens)
  {
    hide Pad;
  }

  lemma NumbersDecide(x: string, y: string, a: seq<Token>, b: seq<Token>)
    requires Digits(x) && x != "" && Digits(y) && y != "" && Value(x) != Value(y)
    requires SameShape(a, b) && Proper(a) && Proper(b)
    ensures var one, two := [Number(x)] + a, [Number(y)] + b;
      SameShape(one, two) && Proper(one) && Proper(two) && (NumbersLess(one, two) <==> Value(x) < Value(y))
  {
    hide Value;
  }

  lemma ClashLater(a0: seq<Token>, b0: seq<Token>, restA: seq<Token>, restB: seq<Token>)
    requires SameShape(a0, b0) && Proper(a0) && Proper(b0) && a0 != []
    requires a0[0].Number? ==> |Pad(a0[0].run)| == |Pad(b0[0].run)|
    requires Like(restA, a0[1..]) && Like(restB, b0[1..]) && SameShape(restA, restB)
    requires !(Less(Key(restA), Key(restB)) <==> NumbersLess(restA, restB))
    ensures var a, b := [a0[0]] + restA, [a0[0]] + restB;
      Like(a, a0) && Like(b, b0) && SameShape(a, b) && !(Less(Key(a), Key(b)) <==> NumbersLess(a, b))
  {
    hide Key, Less, Pad;
    var t := a0[0];
    LikeCons(t, t, restA, a0[1..]);
    LikeCons(t, b0[0], restB, b0[1..]);
    assert a0 == [t] + a0[1..] && b0 == [b0[0]] + b0[1..];
    KeyCons(t, t, restA, restB);
    LessIrreflexive(KeyOne(t));
    assert ([t] + restA)[1..] == restA && ([t] + restB)[1..] == restB;
  }

  lemma LikeCons(t: Token, u: Token, a: seq<Token>, model: seq<Token>)
    requires Like(a, model) && t.Text? == u.Text? && (t.Text? ==> t == u)
    requires t.Number? ==> Digits(t.run) && t.run != "" && |Pad(t.run)| == |Pad(u.run)|
    ensures Like([t] + a, [u] + model)
  {
    hide Pad;
  }

  /** Keys that begin with different characters are ordered by them. */
  lemma FirstDecides(x: string, y: string, a: seq<Token>, b: seq<Token>)
    requires x != "" && y != "" && x[0] != y[0] && Pad(x) == x && Pad(y) == y
    ensures Less(Key([Number(x)] + a), Key([Number(y)] + b)) <==> x[0] < y[0]
  {
    assert ([Number(x)] + a)[1..] == a && ([Number(y)] + b)[1..] == b;
    assert Key([Number(x)] + a) == x + Key(a) && Key([Number(y)] + b) == y + Key(b);
    assert (x + Key(a))[0] == x[0] && (y + Key(b))[0] == y[0];
  }

  lemma {:induction false} RunRead(run: string, s: string, before: string)
    requires Digits(run)
    ensures Tokens(run + s, before) == Tokens(s, before + run)
    decreases |run|
  {
    if run == "" {
      assert run + s == s && before + run == before;
    } else {
      assert (run + s)[1..] == run[1..] + s;
      RunRead(run[1..], s, before + [run[0]]);
      assert before + [run[0]] + run[1..] == before + run;
    }
  }

  /** A well-split list is the split of the name it spells. */
  lemma {:induction false} SpellTokens(tokens: seq<Token>, run: string)
    requires WellSplit(tokens) && Digits(run) && (run != "" && tokens != [] ==> tokens[0].Text?)
    ensures Tokens(Spell(tokens), run) == Flush(run) + tokens
    decreases |tokens|
  {
    if tokens != [] {
      var first, rest := tokens[0], tokens[1..];
      assert TokenOk(tokens, 0);
      assert 1 < |tokens| ==> TokenOk(tokens, 1);
      forall i: nat | i < |rest|
        ensures TokenOk(rest, i)
      {
        assert TokenOk(tokens, i + 1);
      }
      assert tokens == [first] + rest;
      if first.Text? {
        SpellTokens(rest, "");
        assert Spell(tokens)[1..] == Spell(rest);
        assert Flush(run) + [first] + rest == Flush(run) + tokens;
      } else {
        RunRead(first.run, Spell(rest), "");
        assert "" + first.run == first.run;
        SpellTokens(rest, first.run);
      }
    }
  }

  lemma LikeIsWellSplit(a: seq<Token>, model: seq<Token>)
    requires Like(a, model) && WellSplit(model)
    ensures WellSplit(a)
  {
    forall i: nat | i < |a|
      ensures TokenOk(a, i)
    {
      assert TokenOk(model, i);
    }
  }

  lemma TokensProper(name: string)
    ensures Proper(Tokens(name, "")) && WellSplit(Tokens(name, ""))
  {
    TokensWellSplit(name, "");
    var tokens := Tokens(name, "");
    forall i: nat | i < |tokens| && tokens[i].Number?
      ensures Digits(tokens[i].run) && tokens[i].run != ""
    {
      assert TokenOk(tokens, i);
    }
  }

  ghost predicate LikeName(name: string, model: string) {
    Like(Tokens(name, ""), Tokens(model, ""))
  }

  /** The keys of two names of one shape compare as their numbers do. */
  ghost predicate RightlyOrdered(a: string, b: string) {
    && SameShape(Tokens(a, ""), Tokens(b, "")) && Proper(Tokens(a, "")) && Proper(Tokens(b, ""))
    && (Less(KeyOf(a), KeyOf(b)) <==> NumbersLess(Tokens(a, ""), Tokens(b, "")))
  }

  /** The key is right for all names like these two if and only if each of their numbers is
      padded to the same width in both. */
  lemma KeyOrderIffSameWidths(one: string, two: string)
    requires SameShape(Tokens(one, ""), Tokens(two, ""))
    ensures SameWidths(Tokens(one, ""), Tokens(two, "")) <==>
      forall a, b | LikeName(a, one) && LikeName(b, two) :: RightlyOrdered(a, b)
  {
    hide RightlyOrdered, LikeName, SameWidths;
    if SameWidths(Tokens(one, ""), Tokens(two, "")) {
      forall a, b | LikeName(a, one) && LikeName(b, two)
        ensures RightlyOrdered(a, b)
      {
        SameWidthsOrder(one, two, a, b);
      }
    } else {
      var a, b := DifferentWidthsClash(one, two);
    }
  }

  lemma SameWidthsOrder(one: string, two: string, a: string, b: string)
    requires SameShape(Tokens(one, ""), Tokens(two, "")) && SameWidths(Tokens(one, ""), Tokens(two, ""))
    requires LikeName(a, one) && LikeName(b, two)
    ensures RightlyOrdered(a, b)
  {
    hide Tokens, Pad, Key, Less, NumbersLess;
    KeyOrderIsNumberOrder(Tokens(a, ""), Tokens(b, ""));
  }

  lemma DifferentWidthsClash(one: string, two: string) returns (a: string, b: string)
    requires SameShape(Tokens(one, ""), Tokens(two, "")) && !SameWidths(Tokens(one, ""), Tokens(two, ""))
    ensures LikeName(a, one) && LikeName(b, two) && !RightlyOrdered(a, b)
  {
    hide Like, Tokens, Pad, Key, Less, NumbersLess, WellSplit, SameWidths;
    TokensProper(one);
    TokensProper(two);
    var x, y := OrderNeedsSameWidths(Tokens(one, ""), Tokens(two, ""));
    LikeIsWellSplit(x, Tokens(one, ""));
    LikeIsWellSplit(y, Tokens(two, ""));
    SpellTokens(x, "");
    SpellTokens(y, "");
    assert Flush("") + x == x && Flush("") + y == y;
    a, b := Spell(x), Spell(y);
  }

  lemma KeyOfRun(run: string)
    requires Digits(run) && run != ""
    ensures Tokens(run, "") == [Number(run)] && KeyOf(run) == Pad(run)
  {
    RunRead(run, "", "");
    assert run + "" == run && "" + run == run;
    KeyStep(run, []);
    assert Flush(run) + [] == Flush(run) && Pad(run) + "" == Pad(run);
  }

  /** A name that fails: ten to the twelfth sorts before the number below it. */
  lemma LongRunsBreakTheOrder()
    ensures var big, small := Tens(13), Nines(12);
      Value(big) == Value(small) + 1 && Less(KeyOf(big), KeyOf(small)) && !RightlyOrdered(small, big)
  {
    var big, small := Tens(WIDTH + 1), Nines(WIDTH);
    NinesBelowTens(WIDTH);
    WidthsClash(WIDTH, WIDTH + 1);
    KeyOfRun(big);
    KeyOfRun(small);
  }

  // ---------- choosing a package ----------

  predicate NameChar(c: char) {
    IsDigit(c) || 'a' <= c <= 'z' || 'A' <= c <= 'Z' || c in {'+', '-', '_', '.', '~', ':'}
  }

  /** The maximal runs of name characters of a page, empty ones included. */
  function Words(text: string, word: string): seq<string> {
    if text == "" then [word]
    else if NameChar(text[0]) then Words(text[1..], word + [text[0]])
    else [word] + Words(text[1..], "")
  }

  predicate PartAt(word: string, part: string, i: nat) {
    i + |part| <= |word| && word[i..i + |part|] == part
  }

  ghost predicate Within(word: string, part: string) {
    exists i: nat :: PartAt(word, part, i)
  }

  method HasPart(word: string, part: string) returns (found: bool)
    ensures found <==> Within(word, part)
  {
    for i := 0 to |word| + 1
      invariant forall j: nat | j < i :: !PartAt(word, part, j)
    {
      if PartAt(word, part, i) {
        return true;
      }
    }
    return false;
  }

  predicate EndsWith(word: string, end: string) {
    |end| <= |word| && word[|word| - |end|..] == end
  }

  ghost predicate Candidate(text: string, prefix: string, part: string, name: string) {
    name in Words(text, "") && prefix <= name && EndsWith(name, ".deb") && Within(name, part)
  }

  /** The name characters from `i` to before `j`, and no further. */
  predicate Stretch(text: string, i: nat, j: nat) {
    i <= j <= |text| && (forall k | i <= k < j :: NameChar(text[k])) && (j < |text| ==> !NameChar(text[j]))
  }

  /** The word `w` stands in the text with no name character next to it. */
  ghost predicate Stands(text: string, w: string) {
    exists i: nat, j: nat :: StandsAt(text, i, j, w)
  }

  predicate StandsAt(text: string, i: nat, j: nat, w: string) {
    Stretch(text, i, j) && (i > 0 ==> !NameChar(text[i - 1])) && w == text[i..j]
  }

  lemma StretchShift(text: string, i: nat, j: nat)
    requires text != ""
    ensures Stretch(text[1..], i, j) <==> Stretch(text, i + 1, j + 1)
    ensures j < |text| && i <= j ==> text[1..][i..j] == text[i + 1..j + 1]
  {
    if Stretch(text[1..], i, j) {
      assert forall k | i + 1 <= k < j + 1 :: text[k] == text[1..][k - 1];
    }
    if Stretch(text, i + 1, j + 1) {
      assert forall k | i <= k < j :: text[1..][k] == text[k + 1];
    }
  }

  /** The first word when `word` has been read of it already. */
  ghost predicate Begins(text: string, word: string, w: string) {
    exists j: nat :: Stretch(text, 0, j) && w == word + text[..j]
  }

  ghost predicate StandsLater(text: string, w: string) {
    exists i: nat, j: nat :: i > 0 && StandsAt(text, i, j, w)
  }

  lemma LaterShift(text: string, w: string)
    requires text != ""
    ensures StandsLater(text, w) <==> StandsLater(text[1..], w) || (!NameChar(text[0]) && Begins(text[1..], "", w))
  {
    var rest := text[1..];
    if i: nat, j: nat :| i > 0 && StandsAt(text, i, j, w) {
      StretchShift(text, i - 1, j - 1);
      assert i > 1 ==> StandsAt(rest, i - 1, j - 1, w);
      assert i == 1 ==> Stretch(rest, 0, j - 1) && w == "" + rest[..j - 1];
    }
    if i: nat, j: nat :| i > 0 && StandsAt(rest, i, j, w) {
      StretchShift(text, i, j);
      assert StandsAt(text, i + 1, j + 1, w);
    }
    if !NameChar(text[0]) && Begins(rest, "", w) {
      var j: nat :| Stretch(rest, 0, j) && w == "" + rest[..j];
      StretchShift(text, 0, j);
      assert StandsAt(text, 1, j + 1, w);
    }
  }

  lemma BeginsShift(text: string, word: string, w: string)
    requires text != "" && NameChar(text[0])
    ensures Begins(text, word, w) <==> Begins(text[1..], word + [text[0]], w)
  {
    if j: nat :| Stretch(text, 0, j) && w == word + text[..j] {
      StretchShift(text, 0, j - 1);
      assert text[..j] == [text[0]] + text[1..][..j - 1];
      assert w == word + [text[0]] + text[1..][..j - 1];
    }
    if j: nat :| Stretch(text[1..], 0, j) && w == word + [text[0]] + text[1..][..j] {
      StretchShift(text, 0, j);
      assert text[..j + 1] == [text[0]] + text[1..][..j];
      assert w == word + text[..j + 1];
    }
  }

  lemma {:induction false} WordsAre(text: string, word: string, w: string)
    ensures w in Words(text, word) <==> Begins(text, word, w) || StandsLater(text, w)
  {
    if text == "" {
      assert Stretch(text, 0, 0) && word + text[..0] == word;
    } else if NameChar(text[0]) {
      WordsAre(text[1..], word + [text[0]], w);
      BeginsShift(text, word, w);
      LaterShift(text, w);
    } else {
      WordsAre(text[1..], "", w);
      assert Stretch(text, 0, 0) && word + text[..0] == word;
      LaterShift(text, w);
    }
  }

  /** A candidate is a whole word of the page, with the prefix, the part and the ending asked for. */
  lemma CandidateStands(text: string, prefix: string, part: string, name: string)
    ensures Candidate(text, prefix, part, name) <==>
      && Stands(text, name) && prefix <= name && |name| >= 4 && name[|name| - 4..] == ".deb"
      && exists before, after :: name == before + part + after
  {
    WordsAre(text, "", name);
    if Begins(text, "", name) {
      var j: nat :| Stretch(text, 0, j) && name == "" + text[..j];
      assert StandsAt(text, 0, j, name);
    }
    if i: nat, j: nat :| StandsAt(text, i, j, name) {
      assert i == 0 ==> name == "" + text[..j];
    }
    if Within(name, part) {
      var i: nat :| PartAt(name, part, i);
      assert name == name[..i] + part + name[i + |part|..];
    }
    if before, after :| name == before + part + after {
      assert PartAt(name, part, |before|);
    }
  }

  /** Where a word first stands in a list. */
  function FirstAt(words: seq<string>, word: string): nat {
    if words == [] || words[0] == word then 0 else 1 + FirstAt(words[1..], word)
  }

  lemma {:induction false} FirstAtIs(words: seq<string>, i: nat)
    requires i < |words| && forall j | 0 <= j < i :: words[j] != words[i]
    ensures FirstAt(words, words[i]) == i
  {
    if i > 0 {
      assert words[0] != words[i];
      FirstAtIs(words[1..], i - 1);
    }
  }

  /** The names are among the first `n` words, in the order in which they first stand there. */
  ghost predicate InOrder(words: seq<string>, names: seq<string>, n: nat) {
    && (forall i | 0 <= i < |names| :: FirstAt(words, names[i]) < n)
    && forall i, j | 0 <= i < j < |names| :: FirstAt(words, names[i]) < FirstAt(words, names[j])
  }

  /** The candidate with the greatest key, of equal keys the one that comes up last; None when
      the page has no candidate. */
  method PickDeb(text: string, prefix: string, part: string) returns (best: Option<string>)
    ensures best.None? <==> forall name :: !Candidate(text, prefix, part, name)
    ensures best.Some? ==>
      && Candidate(text, prefix, part, best.value)
      && (forall name :: Candidate(text, prefix, part, name) ==> !Less(KeyOf(best.value), KeyOf(name)))
      && (forall name :: Candidate(text, prefix, part, name) && KeyOf(name) == KeyOf(best.value) ==>
            FirstAt(Words(text, ""), name) <= FirstAt(Words(text, ""), best.value))
  {
    hide Candidate, Words, Less, KeyOf;
    var names := Candidates(text, prefix, part);
    ghost var words := Words(text, "");
    best := LastOfGreatest(names);
    if best.Some? {
      ghost var k :| 0 <= k < |names| && names[k] == best.value && IsLastGreatest(names, k, |names|);
      assert names[k] in names;
      forall name | Candidate(text, prefix, part, name) && KeyOf(name) == KeyOf(best.value)
        ensures FirstAt(words, name) <= FirstAt(words, best.value)
      {
        var j :| 0 <= j < |names| && names[j] == name;
        assert j <= k;
      }
    }
  }

  /** The candidates, each once, in the order in which they first stand on the page. */
  method Candidates(text: string, prefix: string, part: string) returns (names: seq<string>)
    ensures forall name :: name in names <==> Candidate(text, prefix, part, name)
    ensures InOrder(Words(text, ""), names, |Words(text, "")|)
  {
    hide Words, FirstAt, Within, EndsWith;
    var words := Words(text, "");
    names := [];
    for i := 0 to |words|
      invariant forall name | name in names :: Candidate(text, prefix, part, name)
      invariant forall j | 0 <= j < i && Candidate(text, prefix, part, words[j]) :: words[j] in names
      invariant InOrder(words, names, i)
    {
      var tok := words[i];
      var has := HasPart(tok, part);
      if prefix <= tok && EndsWith(tok, ".deb") && has && tok !in names {
        FirstAtIs(words, i);
        names := names + [tok];
      }
    }
    forall name | Candidate(text, prefix, part, name)
      ensures name in names
    {
      var j :| 0 <= j < |words| && words[j] == name;
    }
  }

  /** The last of the names with the greatest key. */
  method LastOfGreatest(names: seq<string>) returns (best: Option<string>)
    ensures best.None? <==> names == []
    ensures best.Some? ==> exists k :: 0 <= k < |names| && names[k] == best.value && IsLastGreatest(names, k, |names|)
  {
    best := None;
    ghost var at := 0;
    for i := 0 to |names|
      invariant best.None? <==> i == 0
      invariant best.Some? ==> 0 <= at < i && names[at] == best.value && IsLastGreatest(names, at, i)
    {
      var key := VersionKey(names[i]);
      var bestKey := "";
      if best.Some? {
        bestKey := VersionKey(best.value);
      }
      if best.None? || !Less(key, bestKey) {
        LessIrreflexive(KeyOf(names[i]));
        forall j | 0 <= j < i
          ensures !Less(KeyOf(names[i]), KeyOf(names[j]))
        {
          Replaced(KeyOf(names[i]), KeyOf(names[at]), KeyOf(names[j]));
        }
        best, at := Some(names[i]), i;
      } else {
        LessAsymmetric(key, bestKey);
        LessIrreflexive(key);
      }
    }
  }

  /** Among the first `n` names none has a greater key than name `k`, and none after it an equal one. */
  ghost predicate IsLastGreatest(names: seq<string>, k: int, n: nat)
    requires 0 <= k < |names| && n <= |names|
  {
    && (forall j | 0 <= j < n :: !Less(KeyOf(names[k]), KeyOf(names[j])))
    && forall j | k < j < n :: KeyOf(names[j]) != KeyOf(names[k])
  }

  lemma Replaced(newer: string, best: string, other: string)
    requires !Less(newer, best) && !Less(best, other)
    ensures !Less(newer, other)
  {
    if Less(newer, other) {
      LessTotal(best, other);
      if Less(other, best) {
        LessTransitive(newer, other, best);
      }
    }
  }

  lemma LessAsymmetric(a: string, b: string)
    requires Less(a, b)
    ensures !Less(b, a)
  {
    if Less(b, a) {
      LessTransitive(a, b, a);
      LessIrreflexive(a);
    }
  }

  /** No candidate of the chosen one's shape and widths has a greater version. */
  lemma NewestOfItsShape(best: string, other: string)
    requires !Less(KeyOf(best), KeyOf(other))
    requires SameShape(Tokens(best, ""), Tokens(other, ""))
    requires SameWidths(Tokens(best, ""), Tokens(other, ""))
    ensures Proper(Tokens(best, "")) && Proper(Tokens(other, "")) && !NumbersLess(Tokens(best, ""), Tokens(other, ""))
  {
    TokensProper(best);
    TokensProper(other);
    KeyOrderIsNumberOrder(Tokens(best, ""), Tokens(other, ""));
  }
}
