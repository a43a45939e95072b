/** What the operations do to head, baselines and files, told from the files and trees before
    the call and without the plans they make. */
module Effects {
  import opened Outcomes
  import Texts
  import opened WorkTree
  import opened Workstore
  import opened Repository
  import opened Steps
  import opened Reports
  import opened Preservation

  /** What a change of head from `before` to `after` is called. */
  function ChangeOf(before: Option<Hash>, after: Option<Hash>): Option<Change> {
    if after == before then None
    else Some(if after.None? then Delete else if before.None? then Add(after.value) else Modify(after.value))
  }

  // ---------- adopting outside edits ----------

  /** Of one path: if it was listed, head now has the file as the disk shows it, with its content
      stored, otherwise head has it as before; `changes` says what was done. */
  ghost predicate AdoptedAt(s: Repo, paths: seq<Path>, changes: Changes, t: Repo, p: Path) {
    var before, after := Get(HeadTree(s), p), Get(HeadTree(t), p);
    && after == (if p in Expanded(paths, SyncAvailable(s)) then HashAt(s.shared, p) else before)
    && (after.Some? ==> Object(after.value) in t.objects)
    && Get(changes, p) == ChangeOf(before, after)
  }

  ghost predicate Adopted(s: Repo, paths: seq<Path>, changes: Changes, t: Repo) {
    && t.shared == s.shared && t.sandbox == s.sandbox && t.indexes == s.indexes
    && forall p :: AdoptedAt(s, paths, changes, t, p)
  }

  lemma SyncChangesAt(s: Repo, paths: seq<Path>, p: Path)
    ensures p in SyncChanges(s, paths) <==>
      p in Expanded(paths, SyncAvailable(s)) && HashAt(s.shared, p) != Get(HeadTree(s), p)
    ensures p in SyncChanges(s, paths) ==>
      && Outcome(SyncChanges(s, paths)[p]) == HashAt(s.shared, p)
      && (SyncChanges(s, paths)[p].Add? <==> p !in HeadTree(s))
  {
  }

  lemma SyncLeavesDisk(s: Repo, paths: seq<Path>)
    ensures ApplyFiles(s.shared, SyncChanges(s, paths)) == s.shared
  {
    hide SyncChanges, Expanded;
    var changes := SyncChanges(s, paths);
    forall p
      ensures Get(ApplyFiles(s.shared, changes), p) == Get(s.shared, p)
    {
      SyncChangesAt(s, paths, p);
    }
    SameByGet(ApplyFiles(s.shared, changes), s.shared);
  }

  /** What landing a commit makes of head and the files. */
  lemma LandedFacts(s: Repo, c: Commit, index: Option<PendingIndex>, t: Repo)
    requires CommitLands(s, c, index, t)
    ensures t.head == Some(c.id) && c.id in t.commits && t.commits == s.commits[c.id := c] && HeadTree(t) == c.tree
    ensures t.shared == ApplyFiles(s.shared, c.changes) && t.sandbox == s.sandbox && t.lost == s.lost
    ensures t.indexes == if index.Some? then s.indexes[index.value.agent := index.value.index] else s.indexes
  {
    hide ApplyFiles, ObjectsOk;
  }

  lemma HeadIsStored(s: Repo, p: Path)
    requires Idle(s) && p in HeadTree(s)
    ensures Object(HeadTree(s)[p]) in s.objects
  {
    hide HistoryOk, ObjectsOk;
    assert TreeClosed(s.commits[s.head.value].tree, s.objects);
  }

  /** A sync adopts the disk, whether or not there was anything to commit. */
  lemma SyncAdoptsDisk(s: Repo, paths: seq<Path>, time: int, t: Repo)
    requires Idle(s) && if SyncChanges(s, paths) == map[] then t == s else SyncStep(s, paths, time, t)
    ensures Adopted(s, paths, SyncChanges(s, paths), t)
  {
    hide SyncChanges, Expanded, Idle, HeadTree, CommitLands, Effect;
    var changes := SyncChanges(s, paths);
    if changes != map[] {
      var c := NewCommit(s, "external", SyncNote(time, |changes|), changes, None);
      LandedFacts(s, c, None, t);
      SyncLeavesDisk(s, paths);
      SyncStepKeeps(s, paths, time, t);
    }
    forall p
      ensures AdoptedAt(s, paths, changes, t, p)
    {
      SyncChangesAt(s, paths, p);
      if p in HeadTree(t) {
        HeadIsStored(t, p);
      }
    }
  }

  // ---------- commits ----------

  /** Of one path: head takes the agent's file when it was listed and edited, and drops the path
      when it was listed as deleted; the shared area, the agent's baseline and the reported
      changes follow head wherever it changed. */
  ghost predicate CommittedAt(s: Repo, agent: Agent, paths: seq<Path>, deletes: seq<Path>, changes: Changes, t: Repo,
                              p: Path)
    requires agent in s.sandbox && agent in s.indexes && agent in t.indexes
  {
    var before, after := Get(HeadTree(s), p), Get(HeadTree(t), p);
    var mine, base := HashAt(s.sandbox[agent], p), Get(s.indexes[agent], p);
    && after == (if p in Expanded(paths, s.sandbox[agent].Keys) then if mine == base then before else mine
                 else if p in deletes then None else before)
    && (after.Some? ==> Object(after.value) in t.objects)
    && Get(t.indexes[agent], p) == (if after == before then base else after)
    && Get(t.shared, p) == (if after == before then Get(s.shared, p)
                            else if after.Some? then Some(after.value.content) else None)
    && Get(changes, p) == ChangeOf(before, after)
  }

  lemma PlannedAt(s: Repo, agent: Agent, paths: seq<Path>, deletes: seq<Path>, p: Path)
    requires agent in s.sandbox && agent in s.indexes
    requires PlannedConflicts(s.indexes[agent], HeadTree(s), CommitLocals(s, agent, paths, deletes)) == map[]
    ensures var changes := PlannedChanges(s.indexes[agent], HeadTree(s), CommitLocals(s, agent, paths, deletes));
      var before := Get(HeadTree(s), p);
      Get(changes, p) == ChangeOf(before,
        if p in Expanded(paths, s.sandbox[agent].Keys) then
          if HashAt(s.sandbox[agent], p) == Get(s.indexes[agent], p) then before else HashAt(s.sandbox[agent], p)
        else if p in deletes then None else before)
  {
    hide Expanded;
    var locals := CommitLocals(s, agent, paths, deletes);
    if p in locals {
      assert !JudgeCommit(Get(s.indexes[agent], p), Get(HeadTree(s), p), locals[p]).Clash? by {
        assert p !in PlannedConflicts(s.indexes[agent], HeadTree(s), locals);
      }
    }
  }

  /** A commit takes exactly the listed edits of its agent to head. */
  lemma CommitTakesEdits(s: Repo, agent: Agent, paths: seq<Path>, deletes: seq<Path>, line: nat, note: Note, t: Repo)
    requires Idle(s) && CommitStep(s, agent, paths, deletes, line, note, t)
    ensures t.sandbox == s.sandbox && t.lost == s.lost && agent in t.indexes
    ensures forall a | a in s.indexes && a != agent :: a in t.indexes && t.indexes[a] == s.indexes[a]
    ensures var changes := PlannedChanges(s.indexes[agent], HeadTree(s), CommitLocals(s, agent, paths, deletes));
      forall p :: CommittedAt(s, agent, paths, deletes, changes, t, p)
  {
    hide Expanded, Idle, HeadTree, CommitLands, Effect, PlannedChanges, PlannedConflicts, CommitLocals,
         UntouchedOutside;
    var changes := PlannedChanges(s.indexes[agent], HeadTree(s), CommitLocals(s, agent, paths, deletes));
    var c := NewCommit(s, agent, Trimmed(note), changes, Some(Anchor(agent, line)));
    var index := Some(PendingIndex(agent, ApplyTree(s.indexes[agent], changes)));
    LandedFacts(s, c, index, t);
    CommitStepKeeps(s, agent, paths, deletes, line, note, t);
    forall p
      ensures CommittedAt(s, agent, paths, deletes, changes, t, p)
    {
      PlannedAt(s, agent, paths, deletes, p);
      AppliedAt(s, changes, p);
      AppliedIndexAt(s.indexes[agent], changes, p);
      if p in HeadTree(t) {
        HeadIsStored(t, p);
      }
    }
  }

  lemma AppliedAt(s: Repo, changes: Changes, p: Path)
    ensures Get(ApplyTree(HeadTree(s), changes), p) == if p in changes then Outcome(changes[p]) else Get(HeadTree(s), p)
    ensures Get(ApplyFiles(s.shared, changes), p) ==
      if p !in changes then Get(s.shared, p)
      else if changes[p].Delete? then None else Some(changes[p].hash.content)
  {
  }

  lemma AppliedIndexAt(index: Tree, changes: Changes, p: Path)
    ensures Get(ApplyTree(index, changes), p) == if p in changes then Outcome(changes[p]) else Get(index, p)
  {
  }

  /** A user's file is head's version and on disk afterwards, with its content stored; nothing
      else changed. */
  lemma UserCommitAddsFile(s: Repo, path: Path, bytes: Bytes, time: int, line: nat, t: Repo)
    requires Idle(s) && UserCommitStep(s, path, bytes, time, line, t)
    ensures FreshId(s) in t.commits && HeadTree(t) == HeadTree(s)[path := ContentHash(bytes)]
    ensures Get(t.commits[FreshId(s)].changes, path).Some?
    ensures t.commits[FreshId(s)].changes[path].Add? <==> path !in HeadTree(s)
    ensures t.shared == s.shared[path := bytes] && Object(ContentHash(bytes)) in t.objects
    ensures t.sandbox == s.sandbox && t.indexes == s.indexes && t.lost == s.lost
  {
    hide Idle, HeadTree, ApplyTree, ApplyFiles, CommitLands;
    var changes := UserChanges(s, path, bytes);
    UserFileLands(s, path, bytes, time, line, t);
    ApplyOne(HeadTree(s), s.shared, changes, path);
    LandedFacts(s, NewCommit(s, "user", UserNote(time, path), changes, Some(Anchor("", line))), None, t);
  }

  lemma UserFileLands(s: Repo, path: Path, bytes: Bytes, time: int, line: nat, t: Repo)
    requires UserCommitStep(s, path, bytes, time, line, t)
    ensures CommitLands(s, NewCommit(s, "user", UserNote(time, path), UserChanges(s, path, bytes),
                                     Some(Anchor("", line))), None, t)
    ensures Object(ContentHash(bytes)) in t.objects
  {
    hide HeadTree, ApplyTree, ApplyFiles, Landed;
    assert path in UserChanges(s, path, bytes);
  }

  lemma ApplyOne(tree: Tree, files: Files, changes: Changes, p: Path)
    requires changes.Keys == {p} && !changes[p].Delete?
    ensures ApplyTree(tree, changes) == tree[p := changes[p].hash]
    ensures ApplyFiles(files, changes) == files[p := changes[p].hash.content]
  {
  }

  // ---------- pulls and resolves ----------

  /** A pull gives the agent head's version of exactly the listed files that lag behind head and
      that the agent did not edit, and takes note of it there and where the agent has it already;
      in an external workspace only while the disk shows it. */
  lemma PullFollowsHead(s: Repo, agent: Agent, want: set<Path>, t: Repo, p: Path)
    requires PulledSome(s, agent, want, want, want, t)
    ensures var head, base, mine := Get(HeadTree(s), p), Get(s.indexes[agent], p), HashAt(s.sandbox[agent], p);
      var lags := p in want && head.Some? && base != head && (s.external ==> HashAt(s.shared, p) == head);
      && Get(t.sandbox[agent], p) ==
         (if lags && mine == base then Some(head.value.content) else Get(s.sandbox[agent], p))
      && Get(t.indexes[agent], p) == (if lags && (mine == base || mine == head) then head else base)
  {
    PullRule(Get(s.indexes[agent], p), Get(HeadTree(s), p), HashAt(s.sandbox[agent], p));
  }

  /** A resolve takes note of head's version of every listed path. In favour of head it also takes
      the file, and backs the agent's own up where the two differ; in favour of the local files
      it touches none, and none of them is an unedited older version. */
  lemma ResolveSettles(s: Repo, agent: Agent, want: set<Path>, take: Take, expectHead: Option<nat>, t: Repo, p: Path)
    requires ResolvedAll(s, agent, want, take, t) && ResolveAllowed(s, agent, want, take, expectHead)
    ensures var head, base, mine := Get(HeadTree(s), p), Get(s.indexes[agent], p), Get(s.sandbox[agent], p);
      var theirs := if head.Some? then Some(head.value.content) else None;
      && Get(t.indexes[agent], p) == (if p in want then head else base)
      && Get(t.sandbox[agent], p) == (if p in want && take.Upstream? then theirs else mine)
      && Get(t.lost[agent], p) ==
         (if p in want && take.Upstream? && mine.Some? && mine != theirs then mine else Get(s.lost[agent], p))
      && (take.Local? && p in want && head.Some? && base.Some? && base != head ==> mine != Some(base.value.content))
  {
  }

  // ---------- reclaiming objects ----------

  /** The state a collection leaves. */
  ghost predicate Collected(s: Repo, t: Repo) {
    t == s.(objects := Swept(s, s.objects.Keys))
  }

  /** After a collection everything that is left is needed: without any one of the objects, some
      commit's tree or some baseline could not be read back. */
  lemma GcLeavesWhatIsNeeded(s: Repo, t: Repo, o: ObjName)
    requires Idle(s) && Collected(s, t) && o in t.objects
    ensures Closed(t) && !Closed(t.(objects := t.objects - {o}))
  {
    hide Reachable;
    GcIsStep(s, t);
    WantedStays(s, t, o);
    WantedIsNeeded(t, o);
  }

  lemma WantedStays(s: Repo, t: Repo, o: ObjName)
    requires t.commits == s.commits && t.indexes == s.indexes
    ensures Wanted(t, o) <==> Wanted(s, o)
  {
    if o.Object? {
      assert Reachable(t, o.hash) <==> Reachable(s, o.hash);
    }
  }

  lemma GcIsStep(s: Repo, t: Repo)
    requires Idle(s) && Collected(s, t)
    ensures Closed(t) && forall o | o in t.objects :: Wanted(s, o)
  {
    hide Reachable, HistoryOk, ObjectsOk, Closed, Idle;
    forall o | o in t.objects
      ensures Wanted(s, o)
    {
      assert o !in Dead(s, s.objects.Keys) && o !in Strays(s.objects.Keys);
    }
    GcKeeps(s, t);
    IdleIsClosed(t);
  }

  lemma IdleIsClosed(s: Repo)
    requires Idle(s)
    ensures Closed(s)
  {
  }

  lemma WantedIsNeeded(s: Repo, o: ObjName)
    requires Wanted(s, o)
    ensures !Closed(s.(objects := s.objects - {o}))
  {
    var less := s.(objects := s.objects - {o});
    if id, p :| id in s.commits && p in s.commits[id].tree && s.commits[id].tree[p] == o.hash {
      assert !TreeClosed(less.commits[id].tree, less.objects);
    } else {
      var a, p :| a in s.indexes && p in s.indexes[a] && s.indexes[a][p] == o.hash;
      assert !TreeClosed(less.indexes[a], less.objects);
    }
  }

  lemma {:induction false} SameSizes(objects: map<ObjName, Bytes>, fewer: map<ObjName, Bytes>, names: set<ObjName>)
    requires names <= fewer.Keys <= objects.Keys && forall o | o in names :: fewer[o] == objects[o]
    ensures SizeOf(fewer, names) == SizeOf(objects, names)
  {
    if o :| o in names {
      SizeOfSplit(objects, names, o);
      SizeOfSplit(fewer, names, o);
      SameSizes(objects, fewer, names - {o});
    }
  }

  /** The report of a collection counts what is left and what went. */
  lemma GcReportIsTrue(s: Repo, t: Repo)
    requires Collected(s, t)
    ensures var r := GcReportOf(s, true);
      && r.reachable == |t.objects| && r.reachableBytes == SizeOf(t.objects, t.objects.Keys)
      && r.removed + r.removedIgnored == |s.objects| - |t.objects|
  {
    var names := s.objects.Keys;
    var live, gone := Live(s, names), Dead(s, names) + Strays(names);
    Parted(s, t, live, gone);
    hide Wanted, SizeOf, Live, Dead, Strays, Swept;
    assert |names| == |live + gone| == |live| + |gone|;
    SameSizes(s.objects, t.objects, live);
  }

  lemma Parted(s: Repo, t: Repo, live: set<ObjName>, gone: set<ObjName>)
    requires Collected(s, t) && live == Live(s, s.objects.Keys)
    requires gone == Dead(s, s.objects.Keys) + Strays(s.objects.Keys)
    ensures s.objects.Keys == live + gone && live !! gone && t.objects.Keys == live
    ensures forall o | o in live :: t.objects[o] == s.objects[o]
    ensures |gone| == |Dead(s, s.objects.Keys)| + |Strays(s.objects.Keys)|
  {
    hide Reachable;
    assert Dead(s, s.objects.Keys) !! Strays(s.objects.Keys);
  }

  // ---------- moving the shared area ----------

  /** A move is in conflict exactly where an external workspace does not show head's version and
      the move would write the file, or delete one that is there. */
  lemma ConflictsAre(s: Repo, target: Option<nat>, p: Path)
    ensures p in OutsideConflicts(s, target) <==>
      && s.external && HashAt(s.shared, p) != Get(HeadTree(s), p)
      && (p in TreeAt(s.commits, target) || (p in HeadTree(s) && p in s.shared))
  {
  }

  /** Of one file: it is as the new head has it, gone when only the old head had it, or untouched. */
  ghost predicate MovedAt(s: Repo, t: Repo, p: Path) {
    Get(t.shared, p) ==
    (if p in HeadTree(t) then Some(HeadTree(t)[p].content) else if p in HeadTree(s) then None else Get(s.shared, p))
  }

  lemma BroughtIs(s: Repo, to: Tree, t: Repo)
    ensures t.shared == Brought(s.shared, HeadTree(s), to) && HeadTree(t) == to ==> forall p :: MovedAt(s, t, p)
  {
    hide HeadTree;
  }

  /** A move brings head to the target and the files to its tree, and touches no other file. A discard
      does so too and keeps, of all commits, those on the target's parent chain. */
  lemma MovesTo(s: Repo, target: Option<nat>, call: Call, t: Repo)
    requires Idle(s) && Effect(s, call, t)
    requires call == WorkDiscard(target) || (call.WorkRestore? && call.target == target)
      || (call.WorkRewind? && t.head == target)
    ensures t.head == target && HeadTree(t) == TreeAt(s.commits, target)
    ensures forall p :: MovedAt(s, t, p)
    ensures target.Some? ==> target.value in s.commits
    ensures forall id :: id in t.commits <==>
      id in s.commits && (call.WorkDiscard? ==> id in Lineage(s.commits, target))
    ensures forall id | id in t.commits :: t.commits[id] == s.commits[id]
  {
    hide Closed, ObjectsOk, OutsideConflicts, Brought, Contents;
    BroughtIs(s, TreeAt(s.commits, target), t);
    hide MovedAt;
    LineageIsAncestors(s.commits, target);
    if call.WorkDiscard? && target.Some? {
      assert target.value in Ancestors(s.commits, target);
    }
  }

  // ---------- requests ----------

  /** A file that is named is asked for wherever there is one of that name: on disk or in head for a
      sync, in head for a pull, in the baseline, head or the sandbox for a resolve. */
  lemma NamedIsAsked(s: Repo, agent: Agent, paths: seq<Path>, p: Path)
    requires agent in s.sandbox && agent in s.indexes && p in paths
    ensures p in Expanded(paths, SyncAvailable(s)) <==> p in s.shared || p in HeadTree(s)
    ensures p in PullWant(s, paths) <==> p in HeadTree(s)
    ensures p in ResolveWant(s, agent, paths) <==> p in s.indexes[agent] || p in HeadTree(s) || p in s.sandbox[agent]
  {
    ExpandedIs(paths, SyncAvailable(s), p);
    ExpandedIs(paths, HeadTree(s).Keys, p);
    ExpandedIs(paths, ResolveAvailable(s, agent), p);
    hide Expanded;
  }

  /** An external workspace refuses a commit exactly when a listed path is not on disk as head has it,
      files that are to be deleted and are gone already aside. */
  lemma CommitChecksDisk(s: Repo, agent: Agent, paths: seq<Path>, deletes: seq<Path>)
    requires agent in s.sandbox
    ensures UntouchedOutside(s, CommitLocals(s, agent, paths, deletes)) <==>
      && (forall p | p in Expanded(paths, s.sandbox[agent].Keys) :: HashAt(s.shared, p) == Get(HeadTree(s), p))
      && (forall p | p in deletes && p !in Expanded(paths, s.sandbox[agent].Keys) && p in s.shared ::
            HashAt(s.shared, p) == Get(HeadTree(s), p))
  {
    hide Expanded, HeadTree;
    var locals := CommitLocals(s, agent, paths, deletes);
    forall p | p in deletes && p !in Expanded(paths, s.sandbox[agent].Keys)
      ensures p in locals && locals[p].None?
    {
    }
    forall p | p in Expanded(paths, s.sandbox[agent].Keys)
      ensures p in locals && locals[p].Some?
    {
      ExpandedThere(paths, s.sandbox[agent].Keys, p);
    }
  }

  lemma ExpandedThere(paths: seq<Path>, available: set<Path>, p: Path)
    requires p in Expanded(paths, available)
    ensures p in available
  {
  }
}
