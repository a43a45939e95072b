/** The pure rules of the versioned workspace: clean paths, path expansion and
    the file-level three-way comparison of baseline, head and local file. */
module Workstore {
  import opened Outcomes
  import opened WorkTree

  // ---------- clean relative paths ----------

  function Split(s: string, sep: char): (parts: seq<string>)
    ensures |parts| > 0
    ensures forall part | part in parts :: sep !in part
  {
    if s == [] then [""]
    else
      var rest := Split(s[1..], sep);
      if s[0] == sep then [""] + rest else [[s[0]] + rest[0]] + rest[1..]
  }

  function Join(parts: seq<string>, sep: char): string
    requires |parts| > 0
  {
    if |parts| == 1 then parts[0] else parts[0] + [sep] + Join(parts[1..], sep)
  }

  lemma {:induction false} JoinSplit(s: string, sep: char)
    ensures Join(Split(s, sep), sep) == s
  {
    if s != [] {
      JoinSplit(s[1..], sep);
      var rest := Split(s[1..], sep);
      if s[0] == sep {
        assert Split(s, sep)[1..] == rest;
        assert s == [sep] + s[1..];
      } else {
        var head := [s[0]] + rest[0];
        assert Split(s, sep) == [head] + rest[1..];
        assert Split(s, sep)[1..] == rest[1..];
        assert s == [s[0]] + s[1..];
        if |rest| > 1 {
          assert Join(Split(s, sep), sep) == [s[0]] + Join(rest, sep);
        }
      }
    }
  }

  /** Unicode category Cc, which is what the source's control-character test accepts. */
  predicate IsControl(c: char) {
    c as int < 0x20 || 0x7f <= c as int < 0xa0
  }

  predicate CleanSegment(seg: string) {
    seg != "" && seg != "." && seg != ".." && forall c | c in seg :: !IsControl(c)
  }

  predicate IsClean(raw: string) {
    && raw != ""
    && '\\' !in raw
    && raw[0] != '/'
    && forall seg | seg in Split(raw, '/') :: CleanSegment(seg)
  }

  function CleanRel(raw: string): Result<Path> {
    if IsClean(raw) then Ok(Join(Split(raw, '/'), '/')) else Err(Rejected(BadPath))
  }

  /** Cleaning never rewrites a path: it is accepted as written or refused. */
  lemma CleanRelIsIdentity(raw: string)
    ensures CleanRel(raw) == if IsClean(raw) then Ok(raw) else Err(Rejected(BadPath))
  {
    JoinSplit(raw, '/');
  }

  /** Where one segment of a path leads in a file system. */
  function Enter(dir: seq<string>, seg: string): seq<string> {
    if seg == "" || seg == "." then dir
    else if seg == ".." then if dir == [] then [] else dir[..|dir| - 1]
    else dir + [seg]
  }

  function Walk(dir: seq<string>, segs: seq<string>): seq<string>
    decreases |segs|
  {
    if segs == [] then dir else Walk(Enter(dir, segs[0]), segs[1..])
  }

  lemma {:induction false} WalkIsShort(dir: seq<string>, segs: seq<string>)
    ensures |Walk(dir, segs)| <= |dir| + |segs|
    ensures (exists seg :: seg in segs && seg in {"", ".", ".."}) ==> |Walk(dir, segs)| < |dir| + |segs|
    decreases |segs|
  {
    if segs != [] {
      WalkIsShort(Enter(dir, segs[0]), segs[1..]);
      assert forall seg :: seg in segs <==> seg == segs[0] || seg in segs[1..];
    }
  }

  lemma {:induction false} WalkDown(dir: seq<string>, segs: seq<string>)
    requires forall seg | seg in segs :: seg !in {"", ".", ".."}
    ensures Walk(dir, segs) == dir + segs
    decreases |segs|
  {
    if segs != [] {
      assert segs[0] in segs && forall seg | seg in segs[1..] :: seg in segs;
      WalkDown(dir + [segs[0]], segs[1..]);
      assert dir + [segs[0]] + segs[1..] == dir + segs;
    }
  }

  lemma {:induction false} CharsOfSegments(s: string, sep: char, c: char)
    ensures c in s <==> (c == sep && |Split(s, sep)| > 1) || exists seg :: seg in Split(s, sep) && c in seg
  {
    if s != [] {
      CharsOfSegments(s[1..], sep, c);
      var rest, all := Split(s[1..], sep), Split(s, sep);
      assert s == [s[0]] + s[1..];
      if s[0] == sep {
        assert all == [""] + rest;
      } else {
        assert forall seg :: seg in all <==> seg == [s[0]] + rest[0] || seg in rest[1..];
        assert forall seg :: seg in rest <==> seg == rest[0] || seg in rest[1..];
        assert [s[0]] + rest[0] in all && rest[0] in rest;
      }
    }
  }

  /** From any directory these segments lead to the one of that name below it. */
  ghost predicate GoesDown(segs: seq<string>) {
    forall dir :: Walk(dir, segs) == dir + segs
  }

  /** A path is accepted exactly when it has no backslash and no control character and leads
      straight down from wherever one starts: it never goes up, stays, or starts at the root. */
  lemma CleanGoesDown(raw: string)
    ensures IsClean(raw) <==>
      && (forall c | c in raw :: c != '\\' && c >= ' ' && !('\U{7f}' <= c <= '\U{9f}'))
      && GoesDown(Split(raw, '/'))
  {
    var segs := Split(raw, '/');
    forall c {
      CharsOfSegments(raw, '/', c);
    }
    assert raw == "" || raw[0] == '/' ==> segs[0] == "" && segs[0] in segs;
    if forall seg | seg in segs :: seg !in {"", ".", ".."} {
      forall dir
        ensures Walk(dir, segs) == dir + segs
      {
        WalkDown(dir, segs);
      }
      forall seg, c | seg in segs && c in seg
        ensures c in raw
      {
      }
    } else {
      var seg :| seg in segs && seg in {"", ".", ".."};
      assert !CleanSegment(seg);
      WalkIsShort([], segs);
      assert Walk([], segs) != [] + segs;
    }
  }

  // ---------- path expansion ----------

  predicate Under(folder: Path, p: Path) {
    folder + "/" <= p
  }

  /** `raw` asks for `p`: it is `p` itself, or it names no file and is a folder above `p`. */
  predicate Asks(raw: Path, available: set<Path>, p: Path) {
    if raw in available then p == raw else p in available && Under(raw, p)
  }

  /** The first segment, with what is before it in the text, and the others. */
  lemma SplitFirst(s: string, sep: char)
    requires s != ""
    ensures var rest := Split(s[1..], sep);
      if s[0] == sep then Split(s, sep) == [""] + rest else Split(s, sep) == [[s[0]] + rest[0]] + rest[1..]
    ensures Split(s[1..], sep) == [Split(s[1..], sep)[0]] + Split(s[1..], sep)[1..]
  {
  }

  lemma {:induction false} SplitAppend(x: string, y: string, sep: char)
    ensures Split(x + [sep] + y, sep) == Split(x, sep) + Split(y, sep)
  {
    var s := x + [sep] + y;
    if x == "" {
      assert s[1..] == y;
    } else {
      SplitAppend(x[1..], y, sep);
      assert s[1..] == x[1..] + [sep] + y;
      SplitFirst(x, sep);
      SplitFirst(s, sep);
      assert s[0] == x[0];
      hide Split;
      SegmentsAppend(x[0], Split(x[1..], sep), Split(y, sep));
    }
  }

  lemma SegmentsAppend(c: char, rest: seq<string>, more: seq<string>)
    requires |rest| > 0
    ensures (rest + more)[0] == rest[0] && (rest + more)[1..] == rest[1..] + more
    ensures [""] + (rest + more) == [""] + rest + more
    ensures [[c] + rest[0]] + (rest[1..] + more) == [[c] + rest[0]] + rest[1..] + more
  {
  }

  lemma {:induction false} OneSegment(s: string, sep: char)
    requires sep !in s
    ensures Split(s, sep) == [s]
  {
    if s != "" {
      OneSegment(s[1..], sep);
      assert s == [s[0]] + s[1..];
    }
  }

  /** A file is under a folder exactly when its path goes on, segment by segment, from the folder's. */
  lemma {:induction false} UnderIsBelow(folder: Path, p: Path)
    ensures Under(folder, p) <==> Split(folder, '/') < Split(p, '/')
  {
    if p == "" {
    } else if folder == "" {
      SplitFirst(p, '/');
      var rest := Split(p[1..], '/');
      PrefixTail('/', [], p[0], p[1..]);
      PrefixTail("", [], if p[0] == '/' then "" else [p[0]] + rest[0], if p[0] == '/' then rest else rest[1..]);
      assert folder + "/" == ['/'] + [] && [p[0]] + p[1..] == p && Split("", '/') == [""] + [];
    } else {
      UnderIsBelow(folder[1..], p[1..]);
      SplitFirst(folder, '/');
      SplitFirst(p, '/');
      assert folder + "/" == [folder[0]] + (folder[1..] + "/");
      assert p == [p[0]] + p[1..];
      PrefixTail(folder[0], folder[1..] + "/", p[0], p[1..]);
      hide Split;
      SegmentsOn(folder[0], Split(folder[1..], '/'), Split(folder, '/'), p[0], Split(p[1..], '/'), Split(p, '/'));
    }
  }

  /** One more character in front of two lists of segments. */
  lemma SegmentsOn(a: char, i: seq<string>, inner: seq<string>, b: char, o: seq<string>, outer: seq<string>)
    requires |i| > 0 && |o| > 0 && i == [i[0]] + i[1..] && o == [o[0]] + o[1..]
    requires inner == if a == '/' then [""] + i else [[a] + i[0]] + i[1..]
    requires outer == if b == '/' then [""] + o else [[b] + o[0]] + o[1..]
    ensures inner < outer <==> a == b && i < o
  {
    var x, y := if a == '/' then "" else [a] + i[0], if b == '/' then "" else [b] + o[0];
    var xs, ys := if a == '/' then i else i[1..], if b == '/' then o else o[1..];
    PrefixTail(x, xs, y, ys);
    PrefixTail(i[0], i[1..], o[0], o[1..]);
    if x != "" && y != "" {
      assert x[1..] == i[0] && y[1..] == o[0];
    }
  }

  lemma PrefixTail<T>(a: T, x: seq<T>, b: T, y: seq<T>)
    ensures [a] + x <= [b] + y <==> a == b && x <= y
    ensures [a] + x < [b] + y <==> a == b && x < y
  {
    if a == b && x <= y {
      assert [b] + y == [a] + x + y[|x|..];
    }
    if [a] + x <= [b] + y {
      assert ([a] + x)[0] == ([b] + y)[0] && ([a] + x)[1..] == x && ([b] + y)[1..] == y;
    }
  }

  ghost function Expanded(paths: seq<Path>, available: set<Path>): set<Path> {
    set p | p in available && exists i | 0 <= i < |paths| :: Asks(paths[i], available, p)
  }

  /** The files asked for: those named, and those below a named folder when no file has its name. */
  lemma ExpandedIs(paths: seq<Path>, available: set<Path>, p: Path)
    ensures p in Expanded(paths, available) <==>
      && p in available
      && exists raw :: raw in paths && (raw == p || (raw !in available && Split(raw, '/') < Split(p, '/')))
  {
    if p in Expanded(paths, available) {
      var i :| 0 <= i < |paths| && Asks(paths[i], available, p);
      UnderIsBelow(paths[i], p);
      assert paths[i] in paths;
    }
    if raw :| raw in paths && (raw == p || (raw !in available && Split(raw, '/') < Split(p, '/'))) {
      UnderIsBelow(raw, p);
      var i :| 0 <= i < |paths| && paths[i] == raw;
      assert p in available ==> Asks(paths[i], available, p);
    }
  }

  ghost predicate Found(raw: Path, available: set<Path>) {
    exists p :: Asks(raw, available, p)
  }

  ghost predicate AllFound(paths: seq<Path>, available: set<Path>) {
    forall i | 0 <= i < |paths| :: Found(paths[i], available)
  }

  /** The requests that stand for nothing, in the order they were made. */
  ghost function Unfound(paths: seq<Path>, available: set<Path>): seq<Path> {
    if paths == [] then []
    else
      var last := paths[|paths| - 1];
      Unfound(paths[..|paths| - 1], available) + if Found(last, available) then [] else [last]
  }

  method ExpandPaths(paths: seq<Path>, available: set<Path>) returns (want: set<Path>, missing: seq<Path>)
    ensures want == Expanded(paths, available)
    ensures missing == Unfound(paths, available)
    ensures missing == [] <==> AllFound(paths, available)
  {
    want, missing := {}, [];
    for k := 0 to |paths|
      invariant want == Expanded(paths[..k], available)
      invariant missing == Unfound(paths[..k], available)
      invariant missing == [] <==> AllFound(paths[..k], available)
    {
      var raw := paths[k];
      assert paths[..k + 1][..k] == paths[..k];
      assert paths[..k + 1][k] == raw;
      var hits := set p | p in available && Asks(raw, available, p);
      assert Expanded(paths[..k + 1], available) == Expanded(paths[..k], available) + hits by {
        forall p | p in available
          ensures p in Expanded(paths[..k + 1], available) <==> p in Expanded(paths[..k], available) + hits
        {
          if p in hits {
            assert Asks(paths[..k + 1][k], available, p);
          }
          if i :| 0 <= i < k && Asks(paths[..k][i], available, p) {
            assert Asks(paths[..k + 1][i], available, p);
          }
        }
      }
      assert hits != {} <==> Found(raw, available) by {
        if p :| Asks(raw, available, p) {
          assert p in hits;
        }
      }
      assert forall i | 0 <= i < k :: paths[..k + 1][i] == paths[..k][i];
      want := want + hits;
      if hits == {} {
        missing := missing + [raw];
      }
    }
    assert paths[..|paths|] == paths;
  }

  // ---------- commit side ----------

  datatype Unchanged = SameAsBase | SameAsHead | UpstreamMoved | UpstreamDeleted | AlreadyDeleted
  datatype Conflict = BothModified | BothAdded | ModifyVsDelete | DeleteVsModify | DeleteWithoutBase
  datatype CommitVerdict = Write(change: Change) | Leave(why: Unchanged) | Clash(kind: Conflict)

  /** What to commit at a path: `local` is the content to write, None an explicit deletion. */
  function JudgeCommit(base: Option<Hash>, head: Option<Hash>, local: Option<Hash>): CommitVerdict {
    match local
    case None =>
      (match (base, head)
       case (None, _) => Clash(DeleteWithoutBase)
       case (Some(_), None) => Leave(AlreadyDeleted)
       case (Some(b), Some(h)) => if b == h then Write(Delete) else Clash(DeleteVsModify))
    case Some(l) =>
      (match (base, head)
       case (None, None) => Write(Add(l))
       case (None, Some(h)) => if l == h then Leave(SameAsHead) else Clash(BothAdded)
       case (Some(b), None) => if l == b then Leave(UpstreamDeleted) else Clash(ModifyVsDelete)
       case (Some(b), Some(h)) =>
         if l == b then Leave(if b == h then SameAsBase else UpstreamMoved)
         else if l == h then Leave(SameAsHead)
         else if b == h then Write(Modify(l))
         else Clash(BothModified))
  }

  function Outcome(change: Change): Option<Hash> {
    if change.Delete? then None else Some(change.hash)
  }

  /** The three-way rule behind the table: head is replaced exactly when the
      agent changed the path and head still is the version the agent saw. */
  lemma CommitRule(base: Option<Hash>, head: Option<Hash>, local: Option<Hash>)
    ensures var v := JudgeCommit(base, head, local);
      && (v.Write? <==> base == head && local != base)
      && (v.Write? ==> Outcome(v.change) == local && (v.change.Add? <==> head.None?))
      && (v.Clash? <==> (base != head && local != base && local != head) || (base.None? && local.None?))
      && (v.Leave? ==> local == base || local == head)
      && (v == Leave(UpstreamMoved) <==> local.Some? && head.Some? && local == base && base != head)
      && (v == Leave(UpstreamDeleted) <==> local.Some? && head.None? && local == base)
      && (v == Leave(AlreadyDeleted) <==> local.None? && head.None? && base.Some?)
      && (v == Leave(SameAsBase) <==> local.Some? && local == base == head)
      && (v == Leave(SameAsHead) <==> local.Some? && local == head != base)
      && (v == Clash(DeleteWithoutBase) <==> local.None? && base.None?)
      && (v == Clash(DeleteVsModify) <==> local.None? && base.Some? && head.Some? && base != head)
      && (v.Clash? && local.Some? ==>
            v.kind == if head.None? then ModifyVsDelete else if base.None? then BothAdded else BothModified)
  {
  }

  type Locals = map<Path, Option<Hash>>

  function PlannedChanges(index: Tree, tree: Tree, locals: Locals): Changes {
    map p | p in locals && JudgeCommit(Get(index, p), Get(tree, p), locals[p]).Write?
      :: JudgeCommit(Get(index, p), Get(tree, p), locals[p]).change
  }

  function PlannedUnchanged(index: Tree, tree: Tree, locals: Locals): map<Path, Unchanged> {
    map p | p in locals && JudgeCommit(Get(index, p), Get(tree, p), locals[p]).Leave?
      :: JudgeCommit(Get(index, p), Get(tree, p), locals[p]).why
  }

  function PlannedConflicts(index: Tree, tree: Tree, locals: Locals): map<Path, Conflict> {
    map p | p in locals && JudgeCommit(Get(index, p), Get(tree, p), locals[p]).Clash?
      :: JudgeCommit(Get(index, p), Get(tree, p), locals[p]).kind
  }

  /** Taking one key off the list of keys left out puts its entry, if any, back. */
  lemma TakeOne<V>(m: map<Path, V>, todo: set<Path>, p: Path)
    requires p in todo
    ensures m - (todo - {p}) == if p in m then (m - todo)[p := m[p]] else m - todo
  {
  }

  /** The three parts of a plan cover the listed paths, each exactly once. */
  lemma PlanCovers(index: Tree, tree: Tree, locals: Locals)
    ensures PlannedChanges(index, tree, locals).Keys + PlannedUnchanged(index, tree, locals).Keys
         + PlannedConflicts(index, tree, locals).Keys == locals.Keys
    ensures PlannedChanges(index, tree, locals).Keys !! PlannedUnchanged(index, tree, locals).Keys
         !! PlannedConflicts(index, tree, locals).Keys
  {
  }

  method PlanCommit(index: Tree, tree: Tree, locals: Locals)
    returns (changes: Changes, kept: map<Path, Unchanged>, conflicts: map<Path, Conflict>)
    ensures changes == PlannedChanges(index, tree, locals)
    ensures kept == PlannedUnchanged(index, tree, locals)
    ensures conflicts == PlannedConflicts(index, tree, locals)
  {
    changes, kept, conflicts := map[], map[], map[];
    ghost var allChanges := PlannedChanges(index, tree, locals);
    ghost var allKept := PlannedUnchanged(index, tree, locals);
    ghost var allConflicts := PlannedConflicts(index, tree, locals);
    var todo := locals.Keys;
    while todo != {}
      invariant todo <= locals.Keys
      invariant changes == allChanges - todo
      invariant kept == allKept - todo
      invariant conflicts == allConflicts - todo
    {
      var p :| p in todo;
      TakeOne(allChanges, todo, p);
      TakeOne(allKept, todo, p);
      TakeOne(allConflicts, todo, p);
      todo := todo - {p};
      match JudgeCommit(Get(index, p), Get(tree, p), locals[p])
      case Write(change) => changes := changes[p := change];
      case Leave(why) => kept := kept[p := why];
      case Clash(kind) => conflicts := conflicts[p := kind];
    }
  }

  // ---------- pull side ----------

  datatype PullVerdict = Update | AlreadySame | Occupied | PullConflict | Missing | NoChange

  function JudgePull(base: Option<Hash>, head: Option<Hash>, local: Option<Hash>): PullVerdict {
    if head.None? then Missing
    else
      match base
      case None => if local.None? then Update else if local == head then AlreadySame else Occupied
      case Some(_) =>
        if local.None? then if base == head then NoChange else PullConflict
        else if local == base then if base == head then NoChange else Update
        else if local == head then AlreadySame
        else if base == head then NoChange
        else PullConflict
  }

  /** A pull overwrites a file only when the agent never changed it since its
      baseline and head has moved; it moves a baseline only to a head version
      the sandbox then holds. */
  lemma PullRule(base: Option<Hash>, head: Option<Hash>, local: Option<Hash>)
    ensures var v := JudgePull(base, head, local);
      && (v == Update <==> head.Some? && local == base && base != head)
      && (v == AlreadySame <==> head.Some? && local == head && base != head)
      && (v == PullConflict || v == Occupied <==> head.Some? && base != head && local != base && local != head)
      && (v == PullConflict ==> base.Some?) && (v == Occupied ==> base.None? && local.Some?)
      && (v == Missing <==> head.None?)
      && (v == NoChange <==> head.Some? && base == head)
  {
  }

  // ---------- resolving ----------

  datatype Take = Upstream | Local
  datatype LocalTake = Accept | WarnLocalMissing | WarnNoBase | DenyUnchanged

  function JudgeLocalTake(base: Option<Hash>, head: Option<Hash>, local: Option<Hash>): LocalTake {
    if head.None? then Accept
    else if local.None? then WarnLocalMissing
    else if base.Some? && base != head && local == base then DenyUnchanged
    else if base.None? && local != head then WarnNoBase
    else Accept
  }

  /** Keeping the local file is denied exactly when the agent never changed it and head has another
      version; it is warned of a missing file, and of one that the agent never pulled. */
  lemma LocalTakeRule(base: Option<Hash>, head: Option<Hash>, local: Option<Hash>)
    ensures var v := JudgeLocalTake(base, head, local);
      && (v == DenyUnchanged <==> head.Some? && base.Some? && local == base != head)
      && (v == WarnLocalMissing <==> head.Some? && local.None?)
      && (v == WarnNoBase <==> head.Some? && local.Some? && base.None? && local != head)
  {
  }

  predicate NeedsBackup(head: Option<Hash>, local: Option<Hash>) {
    local.Some? && local != head
  }
}
