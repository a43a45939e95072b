/** Every atomic step keeps the repository consistent, and every journal entry an
    operation writes describes such a step. */
module Preservation {
  import opened Outcomes
  import opened WorkTree
  import opened Workstore
  import opened Repository
  import opened Steps

  lemma SpareKeeps(s: Repo, t: Repo)
    requires Idle(s) && Spare(s, t)
    ensures Idle(t)
  {
    forall id | id in t.commits
      ensures TreeClosed(t.commits[id].tree, t.objects)
    {
      assert TreeClosed(s.commits[id].tree, s.objects);
    }
    forall a | a in t.indexes
      ensures TreeClosed(t.indexes[a], t.objects)
    {
      assert TreeClosed(s.indexes[a], s.objects);
    }
  }

  /** The part of consistency that speaks of the commit records. */
  ghost predicate CommitFits(s: Repo, c: Commit) {
    && c.id == FreshId(s) && c.parent == s.head
    && c.tree == ApplyTree(HeadTree(s), c.changes)
  }

  ghost predicate IndexFits(s: Repo, c: Commit, index: Option<PendingIndex>) {
    index.Some? ==>
      && index.value.agent in s.indexes
      && index.value.index == ApplyTree(s.indexes[index.value.agent], c.changes)
  }

  ghost predicate Grown(s: map<ObjName, Bytes>, t: map<ObjName, Bytes>) {
    forall o | o in s :: o in t && t[o] == s[o]
  }

  lemma ApplyClosed(tree: Tree, changes: Changes, before: map<ObjName, Bytes>, objects: map<ObjName, Bytes>)
    requires TreeClosed(tree, before) && Grown(before, objects)
    requires forall p | p in changes && !changes[p].Delete? :: Object(changes[p].hash) in objects
    ensures TreeClosed(ApplyTree(tree, changes), objects)
  {
  }

  lemma LandsHistory(s: Repo, c: Commit)
    requires Idle(s) && CommitFits(s, c)
    ensures HistoryOk(s.commits[c.id := c])
    ensures IdsBelow(s.commits[c.id := c], Some(c.id + 1))
    ensures c.id !in s.commits
    ensures s.head.Some? ==> s.head.value < c.id
  {
    ExtendHistoryOk(s.commits, c);
  }

  lemma LandsClosed(s: Repo, c: Commit, index: Option<PendingIndex>, t: Repo)
    requires Idle(s) && CommitFits(s, c) && IndexFits(s, c, index) && CommitLands(s, c, index, t)
    ensures Closed(t)
  {
    assert TreeClosed(HeadTree(s), s.objects);
    ApplyClosed(HeadTree(s), c.changes, s.objects, t.objects);
    forall id | id in t.commits
      ensures TreeClosed(t.commits[id].tree, t.objects)
    {
      if id != c.id {
        assert TreeClosed(s.commits[id].tree, s.objects);
      }
    }
    forall a | a in t.indexes
      ensures TreeClosed(t.indexes[a], t.objects)
    {
      assert TreeClosed(s.indexes[a], s.objects);
      if index.Some? && a == index.value.agent {
        ApplyClosed(s.indexes[a], c.changes, s.objects, t.objects);
      }
    }
  }

  lemma LandsKeeps(s: Repo, c: Commit, index: Option<PendingIndex>, t: Repo)
    requires Idle(s) && CommitFits(s, c) && IndexFits(s, c, index) && CommitLands(s, c, index, t)
    ensures Idle(t)
  {
    LandsHistory(s, c);
    LandsClosed(s, c, index, t);
    ContentsOfApply(HeadTree(s), c.changes);
    assert HeadTree(t) == c.tree;
  }

  lemma MovedShowsTarget(s: Repo, target: Option<nat>)
    requires s.shared == Contents(HeadTree(s))
    ensures Moved(s, target).shared == Contents(TreeAt(s.commits, target))
  {
    hide TreeAt, Contents;
    var from, to := HeadTree(s), TreeAt(s.commits, target);
    ContentsFacts(from);
    ContentsFacts(to);
    assert Brought(Contents(from), from, to) == Contents(to);
  }

  lemma MovedKeeps(s: Repo, target: Option<nat>)
    requires Idle(s) && Stored(s, target)
    ensures Idle(Moved(s, target))
  {
    hide Brought, Contents, HistoryOk, IdsBelow, ObjectsOk, TreeClosed, TreeAt;
    if !s.external {
      MovedShowsTarget(s, target);
    }
  }

  lemma DiscardedKeeps(s: Repo, keep: Option<nat>)
    requires Idle(s) && Stored(s, keep)
    ensures Idle(Discarded(s, keep))
  {
    MovedKeeps(s, keep);
    KeepHistoryOk(s.commits, keep);
    var t := Discarded(s, keep);
    if keep.Some? {
      assert keep.value in Ancestors(s.commits, keep);
    }
    assert HeadTree(t) == TreeAt(s.commits, keep);
  }

  lemma OverlayClosed(tree: Tree, from: Tree, at: set<Path>, objects: map<ObjName, Bytes>)
    requires TreeClosed(tree, objects) && TreeClosed(from, objects)
    ensures TreeClosed(Overlay(tree, from, at), objects)
  {
  }

  lemma AgentIndexKeeps(s: Repo, agent: Agent, index: Tree, t: Repo)
    requires Idle(s) && agent in s.sandbox
    requires TreeClosed(index, s.objects)
    requires t == s.(sandbox := t.sandbox, lost := t.lost, indexes := s.indexes[agent := index])
    requires t.sandbox.Keys == s.sandbox.Keys && t.lost.Keys == s.lost.Keys
    ensures Idle(t)
  {
  }

  /** Files outside the version store may change freely; the shared area only when it is external. */
  lemma FilesKeep(s: Repo, t: Repo)
    requires Idle(s) && t == s.(sandbox := t.sandbox, shared := t.shared)
    requires t.sandbox.Keys == s.sandbox.Keys
    requires s.external || t.shared == s.shared
    ensures Idle(t)
  {
  }

  lemma GcKeeps(s: Repo, t: Repo)
    requires Idle(s) && GcStep(s, t)
    ensures Idle(t)
  {
    forall id | id in t.commits
      ensures TreeClosed(t.commits[id].tree, t.objects)
    {
      var tree := s.commits[id].tree;
      assert TreeClosed(tree, s.objects);
      forall p | p in tree
        ensures Object(tree[p]) in t.objects
      {
        assert Wanted(s, Object(tree[p]));
      }
    }
    forall a | a in t.indexes
      ensures TreeClosed(t.indexes[a], t.objects)
    {
      var tree := s.indexes[a];
      assert TreeClosed(tree, s.objects);
      forall p | p in tree
        ensures Object(tree[p]) in t.objects
      {
        assert Wanted(s, Object(tree[p]));
      }
    }
  }

  lemma CommitStepKeeps(s: Repo, agent: Agent, paths: seq<Path>, deletes: seq<Path>, line: nat,
                         note: Note, t: Repo)
    requires Idle(s) && CommitStep(s, agent, paths, deletes, line, note, t)
    ensures Idle(t)
  {
    var changes := PlannedChanges(s.indexes[agent], HeadTree(s), CommitLocals(s, agent, paths, deletes));
    LandsKeeps(s, NewCommit(s, agent, Trimmed(note), changes, Some(Anchor(agent, line))),
               Some(PendingIndex(agent, ApplyTree(s.indexes[agent], changes))), t);
  }

  lemma PullStepKeeps(s: Repo, agent: Agent, want: set<Path>, copied: set<Path>, noted: set<Path>, t: Repo)
    requires Idle(s) && PulledSome(s, agent, want, copied, noted, t)
    ensures Idle(t)
  {
    OverlayClosed(s.indexes[agent], HeadTree(s), Adopting(s, agent, noted), s.objects);
    AgentIndexKeeps(s, agent, PulledIndex(s, agent, noted), t);
  }

  lemma ResolveStepKeeps(s: Repo, agent: Agent, want: set<Path>, take: Take,
                         saved: set<Path>, taken: set<Path>, marked: bool, t: Repo)
    requires Idle(s) && ResolvedSome(s, agent, want, take, saved, taken, marked, t)
    ensures Idle(t)
  {
    var at := if marked then want else {};
    OverlayClosed(s.indexes[agent], HeadTree(s), at, s.objects);
    AgentIndexKeeps(s, agent, Overlay(s.indexes[agent], HeadTree(s), at), t);
  }

  lemma PullKeeps(s: Repo, agent: Agent, paths: seq<Path>, t: Repo)
    requires Idle(s) && PullStep(s, agent, paths, t)
    ensures Idle(t)
  {
    hide Idle, PulledSome, PullWant;
    var want := PullWant(s, paths);
    var copied, noted :| PulledSome(s, agent, want, copied, noted, t);
    PullStepKeeps(s, agent, want, copied, noted, t);
  }

  lemma ResolveKeeps(s: Repo, agent: Agent, paths: seq<Path>, take: Take, expectHead: Option<nat>, t: Repo)
    requires Idle(s) && ResolveStep(s, agent, paths, take, expectHead, t)
    ensures Idle(t)
  {
    hide Idle, ResolvedSome, ResolveWant, ResolveAllowed;
    var want := ResolveWant(s, agent, paths);
    var saved, taken, marked :| ResolvedSome(s, agent, want, take, saved, taken, marked, t);
    ResolveStepKeeps(s, agent, want, take, saved, taken, marked, t);
  }

  lemma SyncStepKeeps(s: Repo, paths: seq<Path>, time: int, t: Repo)
    requires Idle(s) && SyncStep(s, paths, time, t)
    ensures Idle(t)
  {
    hide Consistent, CommitLands, SyncChanges, ApplyTree;
    var note := SyncNote(time, |SyncChanges(s, paths)|);
    LandsKeeps(s, NewCommit(s, "external", note, SyncChanges(s, paths), None), None, t);
  }

  lemma UserStepKeeps(s: Repo, path: Path, bytes: Bytes, time: int, line: nat, t: Repo)
    requires Idle(s) && UserCommitStep(s, path, bytes, time, line, t)
    ensures Idle(t)
  {
    hide Consistent, CommitLands, UserChanges, ApplyTree;
    var note := UserNote(time, path);
    LandsKeeps(s, NewCommit(s, "user", note, UserChanges(s, path, bytes), Some(Anchor("", line))), None, t);
  }

  /** Consistency is kept by every step of every operation. */
  lemma StepKeepsIdle(s: Repo, call: Call, t: Repo)
    requires Idle(s) && Step(s, call, t)
    ensures Idle(t)
  {
    hide Idle, CommitLands, Spare, OutsideConflicts, PullStep, CommitStep, SyncStep, UserCommitStep, ResolveStep,
         GcStep, IsRewindTarget, Moved, Discarded;
    if Spare(s, t) {
      SpareKeeps(s, t);
    } else {
      match call
      case EditSandbox(_, _) => FilesKeep(s, t);
      case EditOutside(_) => FilesKeep(s, t);
      case WorkPull(agent, paths) => PullKeeps(s, agent, paths, t);
      case WorkCommit(agent, paths, deletes, line, note) => CommitStepKeeps(s, agent, paths, deletes, line, note, t);
      case WorkSync(paths, time) => SyncStepKeeps(s, paths, time, t);
      case WorkCommitUser(path, bytes, time, line) => UserStepKeeps(s, path, bytes, time, line, t);
      case WorkResolve(agent, paths, take, expectHead) => ResolveKeeps(s, agent, paths, take, expectHead, t);
      case WorkRestoreLost(_, _, _) => FilesKeep(s, t);
      case WorkRestore(target, _) => MovedKeeps(s, target);
      case WorkRewind(_) => MovedKeeps(s, t.head);
      case WorkDiscard(keep) => DiscardedKeeps(s, keep);
      case WorkGc => GcKeeps(s, t);
      case WorkRecover =>
    }
  }

  // ---------- journal entries ----------

  /** Once the objects are stored and the id is taken, journalling a commit is safe. */
  lemma JournalCommit(s: Repo, c: Commit, index: Option<PendingIndex>, base: Repo)
    requires Idle(s) && CommitFits(s, c) && IndexFits(s, c, index)
    requires Spare(s, base) && base.nextId == Some(c.id + 1)
    requires forall p | p in c.changes && !c.changes[p].Delete? :: Object(c.changes[p].hash) in base.objects
    ensures var u := base.(pending := Some(Committing(c, index)));
      Inv(u) && CommitLands(s, c, index, Recovered(u))
  {
    var u := base.(pending := Some(Committing(c, index)));
    var t := Recovered(u);
    assert t == Landed(base, c, index);
    assert CommitLands(s, c, index, t);
    LandsKeeps(s, c, index, t);
    SpareKeeps(s, base);
    LandsHistory(s, c);
  }

  lemma JournalMove(s: Repo, target: Option<nat>)
    requires Idle(s) && Stored(s, target)
    ensures var u := s.(pending := Some(Restoring(target))); Inv(u) && Recovered(u) == Moved(s, target)
  {
    MovedKeeps(s, target);
  }

  lemma JournalDiscard(s: Repo, keep: Option<nat>)
    requires Idle(s) && Stored(s, keep)
    ensures var u := s.(pending := Some(Discarding(keep))); Inv(u) && Recovered(u) == Discarded(s, keep)
  {
    DiscardedKeeps(s, keep);
    var u := s.(pending := Some(Discarding(keep)));
    assert u.(pending := None) == s;
  }
}
