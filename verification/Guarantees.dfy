/** What the operations promise about files: restores leave untracked files alone, an
    external workspace loses nothing unrecorded, pulls converge, and resolving never
    destroys the only copy of a file. */
module Guarantees {
  import opened Outcomes
  import opened WorkTree
  import opened Workstore
  import opened Repository
  import opened Steps
  import opened Preservation
  import opened Refusals
  import opened Reports

  // ---------- moving the shared area ----------

  /** A move changes only files of the old head tree or of the target tree, in whatever
      half-done state its replay starts from, and it ends on exactly the target's content. */
  lemma MoveFrame(s: Repo)
    requires Moving(s)
    ensures var from, to := HeadTree(s), TreeAt(s.commits, Target(s.pending.value));
      && OnlyWithin(s.shared, Recovered(s).shared, from.Keys + to.Keys)
      && (forall p | p in to :: HashAt(Recovered(s).shared, p) == Some(to[p]))
      && (forall p | p in from && p !in to :: p !in Recovered(s).shared)
  {
    hide Recovered, Brought;
    MoveBrings(s);
    BroughtFrame(s.shared, HeadTree(s), TreeAt(s.commits, Target(s.pending.value)));
  }

  /** Replaying a landed commit changes only the files it lists, each to the committed content. */
  lemma CommitFrame(s: Repo)
    requires s.pending.Some? && s.pending.value.Committing?
    ensures var changes := s.pending.value.commit.changes;
      && OnlyWithin(s.shared, Recovered(s).shared, changes.Keys)
      && (forall p | p in changes :: HashAt(Recovered(s).shared, p) == Outcome(changes[p]))
  {
  }

  /** Every file overwritten or deleted on disk was exactly head's version of it, whose
      content is stored. */
  ghost predicate LosesNothingUnrecorded(s: Repo, t: Repo) {
    forall p | p in s.shared && Get(t.shared, p) != Some(s.shared[p]) ::
      && Get(HeadTree(s), p) == Some(ContentHash(s.shared[p]))
      && Object(ContentHash(s.shared[p])) in s.objects
  }

  lemma HeadTreeClosed(s: Repo)
    requires Idle(s)
    ensures TreeClosed(HeadTree(s), s.objects)
  {
    if s.head.Some? {
      assert TreeClosed(s.commits[s.head.value].tree, s.objects);
    }
  }

  lemma CheckedMoveKeepsOutsideEdits(s: Repo, target: Option<nat>)
    requires Idle(s) && s.external && OutsideConflicts(s, target) == {}
    ensures LosesNothingUnrecorded(s, Moved(s, target))
  {
    HeadTreeClosed(s);
    var from, to, t := HeadTree(s), TreeAt(s.commits, target), Moved(s, target);
    forall p | p in s.shared && Get(t.shared, p) != Some(s.shared[p])
      ensures Get(from, p) == Some(ContentHash(s.shared[p]))
    {
      if p in to {
        assert !(p in to && HashAt(s.shared, p) != Get(from, p)) by {
          assert p !in OutsideConflicts(s, target);
        }
      } else {
        assert p in from;
        assert p !in OutsideConflicts(s, target);
      }
    }
  }

  lemma CheckedCommitKeepsOutsideEdits(s: Repo, agent: Agent, paths: seq<Path>, deletes: seq<Path>, line: nat,
                                      note: Note, t: Repo)
    requires Idle(s) && s.external && CommitStep(s, agent, paths, deletes, line, note, t)
    ensures LosesNothingUnrecorded(s, t)
  {
    HeadTreeClosed(s);
    var locals := CommitLocals(s, agent, paths, deletes);
    var changes := PlannedChanges(s.indexes[agent], HeadTree(s), locals);
    assert t.shared == ApplyFiles(s.shared, changes);
    forall p | p in s.shared && Get(t.shared, p) != Some(s.shared[p])
      ensures Get(HeadTree(s), p) == Some(ContentHash(s.shared[p]))
    {
      assert p in changes && p in locals;
      assert UntouchedAt(HashAt(s.shared, p), Get(HeadTree(s), p), locals[p]);
    }
  }

  lemma Unrecorded(s: Repo, t: Repo)
    ensures Spare(s, t) ==> LosesNothingUnrecorded(s, t)
  {
    hide HeadTree, ObjectsOk;
  }

  lemma SameFilesLost(s: Repo, t: Repo, u: Repo)
    requires LosesNothingUnrecorded(s, t) && DiscardOf(t, u)
    ensures LosesNothingUnrecorded(s, u)
  {
  }

  /** `u` is `t` with other commits stored. */
  predicate DiscardOf(t: Repo, u: Repo) {
    u == t.(commits := u.commits)
  }

  /** The operations that check the disk before they write to it. */
  predicate ChecksTheDisk(call: Call) {
    || call.WorkCommit? || (call.WorkRestore? && !call.force) || call.WorkRewind? || call.WorkDiscard?
  }

  /** In an external workspace a checked operation never loses content that no commit holds. */
  lemma ExternalLosesNothingUnrecorded(s: Repo, call: Call, t: Repo)
    requires Idle(s) && s.external && Step(s, call, t) && ChecksTheDisk(call)
    ensures LosesNothingUnrecorded(s, t)
  {
    hide Idle, CommitStep, LosesNothingUnrecorded, Moved, OutsideConflicts, IsRewindTarget;
    Unrecorded(s, t);
    if Effect(s, call, t) {
      match call
      case WorkCommit(agent, paths, deletes, line, note) =>
        CheckedCommitKeepsOutsideEdits(s, agent, paths, deletes, line, note, t);
      case WorkRestore(target, _) => CheckedMoveKeepsOutsideEdits(s, target);
      case WorkRewind(_) => CheckedMoveKeepsOutsideEdits(s, t.head);
      case WorkDiscard(keep) =>
        CheckedMoveKeepsOutsideEdits(s, keep);
        SameFilesLost(s, Moved(s, keep), t);
    }
  }

  // ---------- rewinding ----------

  /** The rewind target is unique, lies on head's own chain and is within. */
  lemma RewindTargetIsUnique(s: Repo, keepByAgent: map<Agent, nat>, one: Option<nat>, two: Option<nat>)
    requires IsRewindTarget(s, keepByAgent, one) && IsRewindTarget(s, keepByAgent, two)
    ensures one == two
    ensures one.Some? ==> one.value in Ancestors(s.commits, s.head) && Within(s.commits[one.value], keepByAgent)
  {
  }

  /** If a commit within has only commits within below it, the chain a rewind keeps is
      exactly the commits within. */
  lemma RewindKeepsExactlyWithin(s: Repo, keepByAgent: map<Agent, nat>, target: Option<nat>)
    requires Idle(s) && IsRewindTarget(s, keepByAgent, target)
    requires forall id | id in WithinCommits(s, keepByAgent) ::
      Ancestors(s.commits, Some(id)) <= WithinCommits(s, keepByAgent)
    ensures Ancestors(s.commits, target) == WithinCommits(s, keepByAgent)
  {
    if target.Some? {
      forall id | id in WithinCommits(s, keepByAgent)
        ensures id in Ancestors(s.commits, target)
      {
        ChainIsOrdered(s.commits, s.head, id, target.value);
      }
    }
  }

  /** Of two commits on one chain the older is an ancestor of the newer. */
  lemma {:induction false} ChainIsOrdered(commits: Commits, from: Option<nat>, older: nat, newer: nat)
    requires HistoryOk(commits) && (from.Some? ==> from.value in commits)
    requires older in Ancestors(commits, from) && newer in Ancestors(commits, from) && older <= newer
    ensures older in Ancestors(commits, Some(newer))
    decreases if from.Some? then from.value + 1 else 0
  {
    if newer != from.value {
      HistoryChainOk(commits, from);
      ChainStep(commits, from);
      var parent := commits[from.value].parent;
      AncestorsBelow(commits, parent);
      ChainIsOrdered(commits, parent, older, newer);
    }
  }

  // ---------- pulling ----------

  /** A pull changes only files whose baseline lags behind head and that the agent never
      edited, each to head's content; it moves a baseline only to a head version the
      sandbox holds. */
  lemma PullFrame(s: Repo, agent: Agent, want: set<Path>, copied: set<Path>, noted: set<Path>, t: Repo, p: Path)
    requires PulledSome(s, agent, want, copied, noted, t)
    ensures Get(t.sandbox[agent], p) != Get(s.sandbox[agent], p) ==>
      && p in Updating(s, agent, want)
      && HashAt(s.sandbox[agent], p) == Get(s.indexes[agent], p)
      && HashAt(t.sandbox[agent], p) == Get(HeadTree(s), p)
    ensures Get(t.indexes[agent], p) != Get(s.indexes[agent], p) ==>
      && Get(t.indexes[agent], p) == Get(HeadTree(s), p) == HashAt(t.sandbox[agent], p)
    ensures t.shared == s.shared && t.commits == s.commits && t.head == s.head && t.lost == s.lost
  {
    PullRule(Get(s.indexes[agent], p), Get(HeadTree(s), p), HashAt(s.sandbox[agent], p));
  }

  /** What a pull still wants to do at one path after having stopped somewhere. */
  lemma PullVerdictAfter(s: Repo, agent: Agent, want: set<Path>, copied: set<Path>, noted: set<Path>, t: Repo, p: Path)
    requires PulledSome(s, agent, want, copied, noted, t) && p in want
    ensures var before, after := PullVerdictAt(s, agent, p), PullVerdictAt(t, agent, p);
      && (before !in {Update, AlreadySame} ==> after == before)
      && (before == Update ==> after == if p in noted then NoChange else if p in copied then AlreadySame else Update)
      && (before == AlreadySame ==> after == if p in noted then NoChange else AlreadySame)
  {
    PullRule(Get(s.indexes[agent], p), Get(HeadTree(s), p), HashAt(s.sandbox[agent], p));
    PullRule(Get(t.indexes[agent], p), Get(HeadTree(t), p), HashAt(t.sandbox[agent], p));
    if p !in noted {
      assert Get(t.indexes[agent], p) == Get(s.indexes[agent], p);
    }
    if p !in copied {
      assert Get(t.sandbox[agent], p) == Get(s.sandbox[agent], p);
    }
  }

  /** A pull that stopped anywhere, whether or not its baselines were written, and is then
      repeated ends exactly where one uninterrupted pull would have. */
  lemma PullConverges(s: Repo, agent: Agent, want: set<Path>, copied: set<Path>, noted: set<Path>, t: Repo)
    requires PulledSome(s, agent, want, copied, noted, t) && want <= HeadTree(s).Keys
    ensures PulledBox(t, agent, want) == PulledBox(s, agent, want)
    ensures PulledIndex(t, agent, want) == PulledIndex(s, agent, want)
  {
    forall p
      ensures Get(PulledBox(t, agent, want), p) == Get(PulledBox(s, agent, want), p)
      ensures Get(PulledIndex(t, agent, want), p) == Get(PulledIndex(s, agent, want), p)
    {
      if p in want {
        PullVerdictAfter(s, agent, want, copied, noted, t, p);
        PullRule(Get(s.indexes[agent], p), Get(HeadTree(s), p), HashAt(s.sandbox[agent], p));
      }
    }
    SameByGet(PulledBox(t, agent, want), PulledBox(s, agent, want));
    SameByGet(PulledIndex(t, agent, want), PulledIndex(s, agent, want));
  }

  // ---------- resolving ----------

  /** Wherever a resolve stops, every local file it was asked about still exists: in the
      sandbox, in the backups, or as head's version. */
  lemma ResolveKeepsEveryCopy(s: Repo, agent: Agent, want: set<Path>, take: Take,
                              saved: set<Path>, taken: set<Path>, marked: bool, t: Repo, p: Path)
    requires ResolvedSome(s, agent, want, take, saved, taken, marked, t)
    requires p in s.sandbox[agent]
    ensures var bytes := s.sandbox[agent][p];
      || Get(t.sandbox[agent], p) == Some(bytes)
      || Get(t.lost[agent], p) == Some(bytes)
      || Get(HeadTree(s), p) == Some(ContentHash(bytes))
    ensures p !in want ==> Get(t.sandbox[agent], p) == Some(s.sandbox[agent][p])
  {
    if p in taken && Get(HeadTree(s), p) != Some(ContentHash(s.sandbox[agent][p])) {
      assert p in AtRisk(s, agent, want);
    }
  }

  /** Wherever a resolve stopped, restoring a backup it made over the file the sandbox now has
      brings the original back, changes no other file and keeps the backup. */
  lemma RestoreUndoesTakeUpstream(s: Repo, agent: Agent, want: set<Path>, take: Take, saved: set<Path>,
                                  taken: set<Path>,
                                  marked: bool, t: Repo, p: Path, u: Repo)
    requires ResolvedSome(s, agent, want, take, saved, taken, marked, t) && p in saved
    requires RestoreLostStep(t, agent, p, HashAt(t.sandbox[agent], p), u)
    ensures Get(u.sandbox[agent], p) == Get(s.sandbox[agent], p)
    ensures forall q | q != p :: Get(u.sandbox[agent], q) == Get(t.sandbox[agent], q)
    ensures u.lost == t.lost
  {
  }

  /** Wherever a resolve stopped, every file it took head's side of and that head does not
      have in this version can be restored: the backup is there, and the fingerprint to give
      is head's, or that of the file itself when it was not reached. */
  lemma RestoreIsPossible(s: Repo, agent: Agent, want: set<Path>, take: Take, saved: set<Path>, taken: set<Path>,
                          marked: bool, t: Repo, p: Path)
    requires ResolvedSome(s, agent, want, take, saved, taken, marked, t)
    ensures p in saved ==>
      && p in t.lost[agent] && t.lost[agent][p] == s.sandbox[agent][p]
      && HashAt(t.sandbox[agent], p) == if p in taken then Get(HeadTree(s), p) else HashAt(s.sandbox[agent], p)
    ensures p in taken && p in s.sandbox[agent] && Get(HeadTree(s), p) != HashAt(s.sandbox[agent], p) ==> p in saved
  {
    if p in taken && p in s.sandbox[agent] && Get(HeadTree(s), p) != HashAt(s.sandbox[agent], p) {
      assert p in AtRisk(s, agent, want);
    }
  }

  /** The backup of a file lies in the agent's own backup folder, under the file's own path: it
      does not lead out of it, and no two files of any agents share a backup. */
  lemma BackupsApart(agent: Agent, p: Path, other: Agent, q: Path)
    requires OneComponent(agent) && IsClean(p) && OneComponent(other)
    ensures Split(LostRel(agent, p), '/') == ["lost", agent] + Split(p, '/')
    ensures GoesDown(Split(LostRel(agent, p), '/'))
    ensures LostRel(agent, p) == LostRel(other, q) ==> agent == other && p == q
  {
    BackupSegments(agent, p);
    BackupSegments(other, q);
    JoinSplit(p, '/');
    JoinSplit(q, '/');
    var mine, theirs := ["lost", agent] + Split(p, '/'), ["lost", other] + Split(q, '/');
    assert mine[1] == agent && theirs[1] == other && mine[2..] == Split(p, '/') && theirs[2..] == Split(q, '/');
    forall dir
      ensures Walk(dir, mine) == dir + mine
    {
      WalkDown(dir, mine);
    }
  }

  lemma BackupSegments(agent: Agent, p: Path)
    requires '/' !in agent
    ensures Split(LostRel(agent, p), '/') == ["lost", agent] + Split(p, '/')
  {
    OneSegment("lost", '/');
    OneSegment(agent, '/');
    SplitAppend("lost/" + agent, p, '/');
    SplitAppend("lost", agent, '/');
    assert "lost/" + agent == "lost" + ['/'] + agent;
    assert LostRel(agent, p) == "lost/" + agent + ['/'] + p;
  }

  /** Only the latest backup of a path is kept: an older backup outlives the next resolve, wherever
      that stops, if and only if the resolve keeps local files, the path's file is not at risk, or
      it has the content of the backup. */
  lemma SecondResolveReplacesBackup(s: Repo, agent: Agent, want: set<Path>, take: Take, p: Path)
    requires agent in s.sandbox && agent in s.indexes && agent in s.lost && p in s.lost[agent]
    ensures (forall saved, taken, marked, t | ResolvedSome(s, agent, want, take, saved, taken, marked, t) ::
               Get(t.lost[agent], p) == Some(s.lost[agent][p]))
      <==> take.Local? || p !in AtRisk(s, agent, want) || s.sandbox[agent][p] == s.lost[agent][p]
  {
    hide HeadTree;
    if take.Upstream? && p in AtRisk(s, agent, want) && s.sandbox[agent][p] != s.lost[agent][p] {
      var box, index := s.sandbox[agent], s.indexes[agent];
      OverlayOne(box, Contents(HeadTree(s)), p);
      OverlayOne(index, HeadTree(s), p);
      OverlayGet(s.lost[agent], box, {p}, p);
      hide Overlay, Contents, AtRisk;
      var t := s.(lost := s.lost[agent := Overlay(s.lost[agent], box, {p})]);
      assert s.sandbox[agent := box] == s.sandbox && s.indexes[agent := index] == s.indexes;
      assert ResolvedSome(s, agent, want, take, {p}, {}, false, t);
    }
  }

  /** No sandbox, no backup, no object and no file of the shared area has this content. */
  ghost predicate Gone(s: Repo, bytes: Bytes) {
    && bytes !in s.shared.Values && bytes !in s.objects.Values
    && forall a :: (a in s.sandbox ==> bytes !in s.sandbox[a].Values) && (a in s.lost ==> bytes !in s.lost[a].Values)
  }

  /** One file, committed as `theirs`, edited by the only agent to `mine`, with these backups. */
  function OneFile(a: Agent, p: Path, theirs: Bytes, mine: Bytes, index: Tree, kept: Files): Repo {
    var hash := Hash(theirs);
    var first := Commit(1, None, a, Note("", 0, ""), map[p := Add(hash)], map[p := hash], None);
    Repo(false, map[Object(hash) := theirs], map[1 := first], Some(1), map[a := index], Some(2), None,
         map[p := theirs], map[a := map[p := mine]], map[a := kept])
  }

  lemma OneFileIdle(a: Agent, p: Path, theirs: Bytes, mine: Bytes)
    ensures Idle(OneFile(a, p, theirs, mine, map[], map[]))
  {
    var s := OneFile(a, p, theirs, mine, map[], map[]);
    assert CommitOk(s.commits, 1);
  }

  lemma OneFileWanted(a: Agent, p: Path, theirs: Bytes, mine: Bytes, index: Tree, kept: Files)
    requires mine != theirs && index.Keys <= {p}
    ensures var s := OneFile(a, p, theirs, mine, index, kept);
      ResolveWant(s, a, [p]) == {p} && AtRisk(s, a, {p}) == {p}
  {
    assert Asks([p][0], ResolveAvailable(OneFile(a, p, theirs, mine, index, kept), a), p);
  }

  lemma OverlayOnly<V>(m: map<Path, V>, from: map<Path, V>, p: Path)
    requires m.Keys <= {p} && from.Keys == {p}
    ensures Overlay(m, from, {p}) == from
  {
  }

  lemma OneKey<V>(a: Agent, before: V, after: V)
    ensures map[a := before][a := after] == map[a := after]
  {
  }

  /** One path resolved in favour of head, written out. */
  lemma OnePathResolves(s: Repo, a: Agent, p: Path, t: Repo)
    requires a in s.sandbox && a in s.indexes && a in s.lost && ResolveWant(s, a, [p]) == {p} == AtRisk(s, a, {p})
    requires t == s.(lost := s.lost[a := Overlay(s.lost[a], s.sandbox[a], {p})],
                     sandbox := s.sandbox[a := Overlay(s.sandbox[a], Contents(HeadTree(s)), {p})],
                     indexes := s.indexes[a := Overlay(s.indexes[a], HeadTree(s), {p})])
    ensures Effect(s, WorkResolve(a, [p], Upstream, None), t)
  {
    hide AtRisk, ResolveWant, Overlay, Contents, HeadTree;
    assert ResolvedSome(s, a, {p}, Upstream, {p}, {p}, true, t);
  }

  lemma OneFileResolves(a: Agent, p: Path, theirs: Bytes, mine: Bytes, index: Tree, kept: Files)
    requires mine != theirs && index.Keys <= {p} && kept.Keys <= {p}
    ensures Effect(OneFile(a, p, theirs, mine, index, kept), WorkResolve(a, [p], Upstream, None),
                   OneFile(a, p, theirs, theirs, map[p := Hash(theirs)], map[p := mine]))
  {
    hide AtRisk, ResolveWant, Overlay, Effect;
    OneFileWanted(a, p, theirs, mine, index, kept);
    OverlayOnly(kept, map[p := mine], p);
    OverlayOnly(index, map[p := Hash(theirs)], p);
    OverlayOnly(map[p := mine], map[p := theirs], p);
    OneKey(a, kept, map[p := mine]);
    OneKey(a, index, map[p := Hash(theirs)]);
    OneKey(a, map[p := mine], map[p := theirs]);
    assert Contents(map[p := Hash(theirs)]) == map[p := theirs];
    OnePathResolves(OneFile(a, p, theirs, mine, index, kept), a, p,
                    OneFile(a, p, theirs, theirs, map[p := Hash(theirs)], map[p := mine]));
  }

  lemma OneFileEdited(a: Agent, p: Path, theirs: Bytes, mine: Bytes, newer: Bytes, index: Tree, kept: Files)
    ensures Effect(OneFile(a, p, theirs, mine, index, kept), EditSandbox(a, map[p := newer]),
                   OneFile(a, p, theirs, newer, index, kept))
  {
    OneKey(a, map[p := mine], map[p := newer]);
  }

  lemma OneFileLost(a: Agent, p: Path, index: Tree)
    ensures Gone(OneFile(a, p, [], [], index, map[p := [2]]), [1])
  {
  }

  /** Two resolves in favour of head with an edit in between: the first edit is backed up, and
      gone when the second takes its place. */
  lemma TwoResolvesLoseABackup(a: Agent, p: Path)
    ensures var resolve, theirs := WorkResolve(a, [p], Upstream, None), Hash([]);
      var s0 := OneFile(a, p, [], [1], map[], map[]);
      var s1 := OneFile(a, p, [], [], map[p := theirs], map[p := [1]]);
      var s2 := OneFile(a, p, [], [2], map[p := theirs], map[p := [1]]);
      var s3 := OneFile(a, p, [], [], map[p := theirs], map[p := [2]]);
      && Idle(s0) && Effect(s0, resolve, s1) && Effect(s1, EditSandbox(a, map[p := [2]]), s2) && Effect(s2, resolve, s3)
      && Gone(s3, [1])
  {
    hide Idle, Effect, Gone;
    OneFileIdle(a, p, [], [1]);
    OneFileResolves(a, p, [], [1], map[], map[]);
    OneFileEdited(a, p, [], [], [2], map[p := Hash([])], map[p := [1]]);
    OneFileResolves(a, p, [], [2], map[p := Hash([])], map[p := [1]]);
    OneFileLost(a, p, map[p := Hash([])]);
  }

  /** Head, baseline and sandbox agree about this path. */
  predicate Settled(s: Repo, agent: Agent, p: Path)
    requires agent in s.sandbox && agent in s.indexes
  {
    Get(s.indexes[agent], p) == Get(HeadTree(s), p) == HashAt(s.sandbox[agent], p)
  }

  lemma OverlayGet<V>(m: map<Path, V>, from: map<Path, V>, at: set<Path>, p: Path)
    ensures Get(Overlay(m, from, at), p) == if p in at then Get(from, p) else Get(m, p)
  {
  }

  /** What a resolve in favour of head has done at one path where it stopped. */
  lemma ResolvedAt(s: Repo, agent: Agent, want: set<Path>, saved: set<Path>, taken: set<Path>, marked: bool,
                   t: Repo, p: Path)
    requires ResolvedSome(s, agent, want, Upstream, saved, taken, marked, t)
    ensures Stands(s, t, agent) && HeadTree(t) == HeadTree(s)
    ensures Get(t.sandbox[agent], p) == Get(if p in taken then Contents(HeadTree(s)) else s.sandbox[agent], p)
    ensures Get(t.indexes[agent], p) == Get(if marked && p in want then HeadTree(s) else s.indexes[agent], p)
    ensures Get(t.lost[agent], p) == Get(if p in saved then s.sandbox[agent] else s.lost[agent], p)
    ensures p in taken || (marked && p in want) ==> p !in AtRisk(s, agent, want) - saved
    ensures marked && p in want ==> p in taken
    ensures p in taken ==> p in want
    ensures p in saved ==> p in AtRisk(s, agent, want)
  {
    hide Overlay, AtRisk;
    OverlayGet(s.lost[agent], s.sandbox[agent], saved, p);
    OverlayGet(s.sandbox[agent], Contents(HeadTree(s)), taken, p);
    OverlayGet(s.indexes[agent], HeadTree(s), if marked then want else {}, p);
  }

  /** Nothing but one agent's files, baseline and backups changed. */
  predicate Stands(s: Repo, t: Repo, agent: Agent) {
    && agent in s.sandbox && agent in s.indexes && agent in s.lost
    && agent in t.sandbox && agent in t.indexes && agent in t.lost
    && t == s.(lost := s.lost[agent := t.lost[agent]], sandbox := s.sandbox[agent := t.sandbox[agent]],
               indexes := s.indexes[agent := t.indexes[agent]])
  }

  lemma ConvergesAt(s: Repo, agent: Agent, want: set<Path>, saved: set<Path>, taken: set<Path>, marked: bool,
                    t: Repo, u: Repo, again: set<Path>, v: Repo, p: Path)
    requires ResolvedSome(s, agent, want, Upstream, saved, taken, marked, t)
    requires ResolvedAll(s, agent, want, Upstream, u)
    requires p in want && p in ResolveAvailable(t, agent) ==> p in again
    requires p in again ==> p in want || Settled(s, agent, p)
    requires ResolvedAll(t, agent, again, Upstream, v)
    ensures Get(v.sandbox[agent], p) == Get(u.sandbox[agent], p)
    ensures Get(v.indexes[agent], p) == Get(u.indexes[agent], p)
    ensures Get(v.lost[agent], p) == Get(u.lost[agent], p)
    ensures Stands(s, t, agent) && Stands(s, u, agent) && Stands(t, v, agent)
  {
    hide ResolvedSome;
    ResolvedAt(s, agent, want, saved, taken, marked, t, p);
    ResolvedAt(s, agent, want, AtRisk(s, agent, want), want, true, u, p);
    ResolvedAt(t, agent, again, AtRisk(t, agent, again), again, true, v, p);
    SameContent(s.sandbox[agent], HeadTree(s), p);
    SameContent(t.sandbox[agent], HeadTree(s), p);
  }

  /** A file has a tree's fingerprint if and only if it has the content the tree gives it. */
  lemma SameContent(files: Files, tree: Tree, p: Path)
    ensures HashAt(files, p) == Get(tree, p) <==> Get(files, p) == Get(Contents(tree), p)
  {
  }

  lemma StandsOn(s: Repo, t: Repo, u: Repo, agent: Agent)
    requires Stands(s, t, agent) && Stands(t, u, agent)
    ensures Stands(s, u, agent)
  {
  }

  lemma StandsAgent(s: Repo, t: Repo, agent: Agent)
    requires Stands(s, t, agent)
    ensures agent in t.sandbox && agent in t.indexes && agent in t.lost
  {
  }

  lemma StandsSame(s: Repo, u: Repo, v: Repo, agent: Agent)
    requires Stands(s, u, agent) && Stands(s, v, agent)
    requires v.sandbox[agent] == u.sandbox[agent] && v.indexes[agent] == u.indexes[agent]
    requires v.lost[agent] == u.lost[agent]
    ensures v == u
  {
  }

  /** A resolve that took head's side, stopped anywhere, and was then repeated, ends exactly where
      one uninterrupted resolve would have. The repetition may leave out paths that no longer
      exist anywhere, and may add settled ones. */
  lemma ResolveConverges(s: Repo, agent: Agent, want: set<Path>, saved: set<Path>, taken: set<Path>, marked: bool,
                         t: Repo, u: Repo, again: set<Path>, v: Repo)
    requires ResolvedSome(s, agent, want, Upstream, saved, taken, marked, t)
    requires ResolvedAll(s, agent, want, Upstream, u)
    requires want * ResolveAvailable(t, agent) <= again && forall p | p in again :: p in want || Settled(s, agent, p)
    requires ResolvedAll(t, agent, again, Upstream, v)
    ensures v == u
  {
    hide ResolvedSome, ResolvedAll, ResolveAvailable, Settled, HeadTree, Get, Stands;
    ConvergesAt(s, agent, want, saved, taken, marked, t, u, again, v, "");
    StandsOn(s, t, v, agent);
    StandsAgent(s, u, agent);
    StandsAgent(s, v, agent);
    forall p
      ensures Get(v.sandbox[agent], p) == Get(u.sandbox[agent], p)
      ensures Get(v.indexes[agent], p) == Get(u.indexes[agent], p)
      ensures Get(v.lost[agent], p) == Get(u.lost[agent], p)
    {
      ConvergesAt(s, agent, want, saved, taken, marked, t, u, again, v, p);
    }
    SameByGet(v.sandbox[agent], u.sandbox[agent]);
    SameByGet(v.indexes[agent], u.indexes[agent]);
    SameByGet(v.lost[agent], u.lost[agent]);
    StandsSame(s, u, v, agent);
  }

  /** The request `paths`, stopped at `t`, was repeated and led to `v`; uninterrupted it leads to `u`. */
  ghost predicate Repeated(s: Repo, agent: Agent, paths: seq<Path>, saved: set<Path>, taken: set<Path>, marked: bool,
                           t: Repo, u: Repo, v: Repo)
    requires agent in s.sandbox && agent in s.indexes && agent in s.lost
  {
    var want := ResolveWant(s, agent, paths);
    && ResolvedSome(s, agent, want, Upstream, saved, taken, marked, t)
    && ResolvedAll(s, agent, want, Upstream, u)
    && ResolvedAll(t, agent, ResolveWant(t, agent, paths), Upstream, v)
  }

  /** When a request names a file that head lacks, which the resolve removes, then whatever lies
      under a folder of that name was asked for too, or is settled. */
  ghost predicate FoldersSettled(s: Repo, agent: Agent, paths: seq<Path>)
    requires agent in s.sandbox && agent in s.indexes
  {
    forall i, p | 0 <= i < |paths| && paths[i] in ResolveAvailable(s, agent) - HeadTree(s).Keys
                  && p in ResolveAvailable(s, agent) && Under(paths[i], p) ::
      p in ResolveWant(s, agent, paths) || Settled(s, agent, p)
  }

  /** It fails when head has only a file below the folder `raw`, and the agent only a file `raw`. */
  lemma FileHidesFolder(a: Agent, raw: Path, name: Path)
    ensures var s := OneFile(a, raw + "/" + name, [], [], map[], map[]).(sandbox := map[a := map[raw := [1]]]);
      Idle(s) && !FoldersSettled(s, a, [raw])
  {
    var p := raw + "/" + name;
    var s := OneFile(a, p, [], [], map[], map[]).(sandbox := map[a := map[raw := [1]]]);
    OneFileIdle(a, p, [], []);
    FilesKeep(OneFile(a, p, [], [], map[], map[]), s);
    assert |p| > |raw| && Under(raw, p);
    assert [raw][0] in ResolveAvailable(s, a) - HeadTree(s).Keys && p in ResolveAvailable(s, a);
    assert p !in ResolveWant(s, a, [raw]) && !Settled(s, a, p);
  }

  /** A path the repeated request still stands for. */
  lemma AskedAgain(s: Repo, agent: Agent, paths: seq<Path>, saved: set<Path>, taken: set<Path>, marked: bool,
                   t: Repo, p: Path)
    requires agent in s.sandbox && agent in s.indexes && agent in s.lost
    requires ResolvedSome(s, agent, ResolveWant(s, agent, paths), Upstream, saved, taken, marked, t)
    requires FoldersSettled(s, agent, paths)
    ensures p in ResolveWant(s, agent, paths) * ResolveAvailable(t, agent) ==> p in ResolveWant(t, agent, paths)
    ensures p in ResolveWant(t, agent, paths) ==> p in ResolveWant(s, agent, paths) || Settled(s, agent, p)
  {
    hide ResolvedSome, ResolveAvailable, Settled, HeadTree, Under;
    ResolvedAt(s, agent, ResolveWant(s, agent, paths), saved, taken, marked, t, p);
    var before, now := ResolveAvailable(s, agent), ResolveAvailable(t, agent);
    forall q {
      StillAvailable(s, agent, ResolveWant(s, agent, paths), saved, taken, marked, t, q);
    }
    if p in ResolveWant(t, agent, paths) {
      var i :| 0 <= i < |paths| && Asks(paths[i], now, p);
      if paths[i] in now || paths[i] !in before {
        assert Asks(paths[i], before, p);
      }
    }
    if p in ResolveWant(s, agent, paths) * now {
      var i :| 0 <= i < |paths| && Asks(paths[i], before, p);
      assert Asks(paths[i], now, p);
    }
  }

  /** A stopped resolve makes no path available; those of head stay. */
  lemma StillAvailable(s: Repo, agent: Agent, want: set<Path>, saved: set<Path>, taken: set<Path>, marked: bool,
                       t: Repo, p: Path)
    requires ResolvedSome(s, agent, want, Upstream, saved, taken, marked, t)
    ensures p in ResolveAvailable(t, agent) ==> p in ResolveAvailable(s, agent)
    ensures p in HeadTree(s) ==> p in ResolveAvailable(t, agent)
  {
    hide ResolvedSome;
    ResolvedAt(s, agent, want, saved, taken, marked, t, p);
  }

  /** The state an uninterrupted resolve in favour of head leaves. */
  ghost function ResolvedRepo(s: Repo, agent: Agent, want: set<Path>): (t: Repo)
    requires agent in s.sandbox && agent in s.indexes && agent in s.lost
    ensures ResolvedAll(s, agent, want, Upstream, t) && Stands(s, t, agent)
  {
    s.(lost := s.lost[agent := Overlay(s.lost[agent], s.sandbox[agent], AtRisk(s, agent, want))],
       sandbox := s.sandbox[agent := Overlay(s.sandbox[agent], Contents(HeadTree(s)), want)],
       indexes := s.indexes[agent := Overlay(s.indexes[agent], HeadTree(s), want)])
  }

  /** The failing case: once the file is gone, its name stands for the folder. */
  lemma UnsettledDiverges(s: Repo, agent: Agent, paths: seq<Path>)
    requires agent in s.sandbox && agent in s.indexes && agent in s.lost && !FoldersSettled(s, agent, paths)
    ensures exists saved, taken, marked, t, u, v :: Repeated(s, agent, paths, saved, taken, marked, t, u, v) && v != u
  {
    hide ResolvedSome, Settled, HeadTree, Under, Asks, ResolvedRepo;
    var want := ResolveWant(s, agent, paths);
    var i, p :| 0 <= i < |paths| && paths[i] in ResolveAvailable(s, agent) - HeadTree(s).Keys
                && p in ResolveAvailable(s, agent) && Under(paths[i], p)
                && !(p in ResolveWant(s, agent, paths) || Settled(s, agent, p));
    var u := ResolvedRepo(s, agent, want);
    var again := ResolveWant(u, agent, paths);
    var v := ResolvedRepo(u, agent, again);
    NowFolder(s, agent, paths, i, p, u);
    TakesUnsettled(s, agent, want, u, again, v, p);
    assert Repeated(s, agent, paths, AtRisk(s, agent, want), want, true, u, u, v);
  }

  lemma NowFolder(s: Repo, agent: Agent, paths: seq<Path>, i: nat, p: Path, u: Repo)
    requires agent in s.sandbox && agent in s.indexes && i < |paths|
    requires paths[i] in ResolveAvailable(s, agent) - HeadTree(s).Keys
    requires p in ResolveAvailable(s, agent) - ResolveWant(s, agent, paths) && Under(paths[i], p)
    requires ResolvedAll(s, agent, ResolveWant(s, agent, paths), Upstream, u)
    ensures p in ResolveWant(u, agent, paths)
  {
    hide ResolvedSome, Under, HeadTree;
    var want, raw := ResolveWant(s, agent, paths), paths[i];
    assert Asks(raw, ResolveAvailable(s, agent), raw);
    ResolvedAt(s, agent, want, AtRisk(s, agent, want), want, true, u, raw);
    ResolvedAt(s, agent, want, AtRisk(s, agent, want), want, true, u, p);
    assert Asks(raw, ResolveAvailable(u, agent), p);
  }

  lemma TakesUnsettled(s: Repo, agent: Agent, want: set<Path>, u: Repo, again: set<Path>, v: Repo, p: Path)
    requires agent in s.sandbox && agent in s.indexes && p !in want && p in again && !Settled(s, agent, p)
    requires ResolvedAll(s, agent, want, Upstream, u) && ResolvedAll(u, agent, again, Upstream, v)
    ensures v != u
  {
    hide ResolvedSome;
    ResolvedAt(s, agent, want, AtRisk(s, agent, want), want, true, u, p);
    ResolvedAt(u, agent, again, AtRisk(u, agent, again), again, true, v, p);
    SameContent(s.sandbox[agent], HeadTree(s), p);
  }

  /** A resolve in favour of head that stopped anywhere and whose request is then repeated ends where
      one uninterrupted resolve would have, if and only if no request names both a file that
      head lacks and a folder with unsettled files not asked for. */
  lemma RepeatedResolveConverges(s: Repo, agent: Agent, paths: seq<Path>)
    requires agent in s.sandbox && agent in s.indexes && agent in s.lost
    ensures (forall saved, taken, marked, t, u, v | Repeated(s, agent, paths, saved, taken, marked, t, u, v) :: v == u)
      <==> FoldersSettled(s, agent, paths)
  {
    if FoldersSettled(s, agent, paths) {
      forall saved, taken, marked, t, u, v | Repeated(s, agent, paths, saved, taken, marked, t, u, v)
        ensures v == u
      {
        forall p {
          AskedAgain(s, agent, paths, saved, taken, marked, t, p);
        }
        ResolveConverges(s, agent, ResolveWant(s, agent, paths), saved, taken, marked, t, u,
                         ResolveWant(t, agent, paths), v);
      }
    } else {
      UnsettledDiverges(s, agent, paths);
    }
  }

  // ---------- reclaiming objects ----------

  /** After a collection a second one finds nothing to delete, and keeps every byte it counted as kept. */
  lemma SecondGcFindsNothing(s: Repo, t: Repo)
    requires t == s.(objects := s.objects - (Dead(s, s.objects.Keys) + Strays(s.objects.Keys)))
    ensures Dead(t, t.objects.Keys) == {} && Strays(t.objects.Keys) == {}
    ensures Live(t, t.objects.Keys) == Live(s, s.objects.Keys) == t.objects.Keys
  {
    assert forall o :: Wanted(t, o) <==> Wanted(s, o) by {
      assert forall h :: Reachable(t, h) <==> Reachable(s, h);
    }
    forall o | o in t.objects
      ensures Wanted(s, o)
    {
      assert o !in Dead(s, s.objects.Keys) && o !in Strays(s.objects.Keys);
    }
  }
}
