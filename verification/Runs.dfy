/** Safety over whole runs: any interleaving of any agents' edits and calls, any
    number of crashes and failures included, seen as a sequence of atomic steps. */
module Runs {
  import opened Outcomes
  import opened WorkTree
  import opened Workstore
  import opened Repository
  import opened Steps
  import opened Preservation

  /** A fresh repository: no commits, no baselines, no backups; an external folder may hold files. */
  ghost predicate Fresh(s: Repo) {
    && s.pending.None? && s.commits == map[] && s.head.None? && s.nextId.None? && s.objects == map[]
    && s.sandbox.Keys == s.indexes.Keys == s.lost.Keys
    && (forall a | a in s.indexes :: s.indexes[a] == map[])
    && (forall a | a in s.lost :: s.lost[a] == map[])
    && (!s.external ==> s.shared == map[])
  }

  ghost predicate IsRun(states: seq<Repo>, calls: seq<Call>) {
    && |states| == |calls| + 1
    && Fresh(states[0])
    && forall i | 0 <= i < |calls| :: StepAt(states, calls, i)
  }

  ghost predicate StepAt(states: seq<Repo>, calls: seq<Call>, i: nat)
    requires i < |calls| && |states| == |calls| + 1
  {
    Step(states[i], calls[i], states[i + 1])
  }

  /** Every state of every run is consistent. */
  lemma {:induction false} RunIsConsistent(states: seq<Repo>, calls: seq<Call>, i: nat)
    requires IsRun(states, calls) && i < |states|
    ensures Idle(states[i])
  {
    if i > 0 {
      RunIsConsistent(states, calls, i - 1);
      assert StepAt(states, calls, i - 1);
      StepKeepsIdle(states[i - 1], calls[i - 1], states[i]);
    }
  }

  /** At every point of every run, every stored tree is the replay of all changes on
      its parent chain, and the files it names can be read back. */
  lemma HistoryReplays(states: seq<Repo>, calls: seq<Call>, i: nat, id: nat)
    requires IsRun(states, calls) && i < |states| && id in states[i].commits
    ensures var s := states[i];
      && HistoryOk(s.commits)
      && s.commits[id].tree == Replay(s.commits, Lineage(s.commits, Some(id)))
      && TreeClosed(s.commits[id].tree, s.objects)
      && (s.head.Some? ==> s.head.value in s.commits)
  {
    RunIsConsistent(states, calls, i);
    SnapshotIsReplay(states[i].commits, id);
  }

  /** In a product-internal workspace the shared area is exactly the head tree at every point. */
  lemma SharedIsHead(states: seq<Repo>, calls: seq<Call>, i: nat)
    requires IsRun(states, calls) && i < |states| && !states[i].external
    ensures states[i].shared == Contents(HeadTree(states[i]))
  {
    RunIsConsistent(states, calls, i);
  }

  // ---------- commit ids ----------

  lemma LandedIds(s: Repo, c: Commit, index: Option<PendingIndex>, t: Repo)
    requires Consistent(s) && CommitLands(s, c, index, t) && c.id == FreshId(s)
    ensures IdsAdvance(s, t)
  {
    hide HistoryOk, Closed, ObjectsOk, ApplyFiles;
  }

  lemma OtherIds(s: Repo, call: Call, t: Repo)
    requires Consistent(s) && Effect(s, call, t)
    requires !call.WorkCommit? && !call.WorkSync? && !call.WorkCommitUser?
    ensures IdsAdvance(s, t)
  {
    hide Consistent, PulledBox, PulledIndex, ResolveAllowed, OutsideConflicts, Brought, Ancestors, Wanted;
  }

  /** A step stores at most one new commit, under the next fresh id; it never
      rewrites a stored commit, and the next fresh id never goes down. */
  lemma StepIds(s: Repo, call: Call, t: Repo)
    requires Idle(s) && Step(s, call, t)
    ensures IdsAdvance(s, t)
  {
    hide Consistent, CommitLands, CommitLocals, PlannedChanges, PlannedConflicts, SyncChanges, UserChanges,
         ApplyTree, UntouchedOutside;
    if !Effect(s, call, t) {
      return;
    }
    match call {
      case WorkCommit(agent, paths, deletes, line, note) =>
        var changes := PlannedChanges(s.indexes[agent], HeadTree(s), CommitLocals(s, agent, paths, deletes));
        LandedIds(s, NewCommit(s, agent, Trimmed(note), changes, Some(Anchor(agent, line))),
                  Some(PendingIndex(agent, ApplyTree(s.indexes[agent], changes))), t);
      case WorkSync(paths, time) =>
        var note := SyncNote(time, |SyncChanges(s, paths)|);
        LandedIds(s, NewCommit(s, "external", note, SyncChanges(s, paths), None), None, t);
      case WorkCommitUser(path, bytes, time, line) =>
        var note := UserNote(time, path);
        LandedIds(s, NewCommit(s, "user", note, UserChanges(s, path, bytes), Some(Anchor("", line))), None, t);
      case _ => OtherIds(s, call, t);
    }
  }

  ghost predicate IdsAdvance(s: Repo, t: Repo) {
    && FreshId(s) <= FreshId(t)
    && (forall id | id in t.commits && id !in s.commits :: id == FreshId(s) && id < FreshId(t))
    && (forall id | id in t.commits && id in s.commits :: t.commits[id] == s.commits[id])
  }

  lemma {:induction false} FreshIdGrows(states: seq<Repo>, calls: seq<Call>, i: nat, j: nat)
    requires IsRun(states, calls) && i <= j < |states|
    ensures FreshId(states[i]) <= FreshId(states[j])
    decreases j
  {
    if i < j {
      FreshIdGrows(states, calls, i, j - 1);
      RunIsConsistent(states, calls, j - 1);
      assert StepAt(states, calls, j - 1);
      StepIds(states[j - 1], calls[j - 1], states[j]);
    }
  }

  /** An id given to a commit is greater than every id given before, even after the
      newest commits were discarded. */
  lemma IdsNeverReused(states: seq<Repo>, calls: seq<Call>, i: nat, j: nat, early: nat, late: nat)
    requires IsRun(states, calls) && i < j < |calls|
    requires early in states[i + 1].commits && early !in states[i].commits
    requires late in states[j + 1].commits && late !in states[j].commits
    ensures early < late
  {
    hide Idle, Step, FreshId, Fresh;
    RunIsConsistent(states, calls, i);
    RunIsConsistent(states, calls, j);
    assert StepAt(states, calls, i) && StepAt(states, calls, j);
    StepIds(states[i], calls[i], states[i + 1]);
    StepIds(states[j], calls[j], states[j + 1]);
    FreshIdGrows(states, calls, i + 1, j);
  }

  /** After some of the commits ever stored were discarded, the next id is a new one if and
      only if the counter is above all of them, or none of the discarded ones was the newest. A
      store that lost its counter hands an id out again. */
  lemma NoReuseIffCounterOrNewestKept(nextId: Option<nat>, ever: set<nat>, kept: set<nat>, n: nat)
    requires kept <= ever && 0 !in ever && TakesId(nextId, kept, n)
    ensures (forall id | id in ever :: id < n) <==>
      || (nextId.Some? && forall id | id in ever :: id < nextId.value)
      || forall id | id in ever :: exists k :: k in kept && id <= k
  {
    if forall id | id in ever :: id < n {
      if n - 1 in kept {
        assert forall id | id in ever :: id <= n - 1;
      }
    }
  }

  /** A store of two commits that lost its counter and whose second commit was discarded gives the
      id 2 out again, and can give out no other. */
  lemma LostCounterReusesId()
    ensures var ever, kept := {1, 2}, {1};
      kept <= ever && forall n :: TakesId(None, kept, n) <==> n == 2 && n in ever
  {
  }

  // ---------- no lost update ----------

  ghost function Baseline(s: Repo, agent: Agent, p: Path): Option<Hash> {
    if agent in s.indexes then Get(s.indexes[agent], p) else None
  }

  /** The step by which `agent` takes note of version `h` of `p`. */
  ghost predicate Adopts(s: Repo, call: Call, t: Repo, agent: Agent, p: Path, h: Hash) {
    && agent in s.sandbox && agent in t.sandbox
    && match call
       // pulled head's version h, which the sandbox then holds
       case WorkPull(a, _) =>
         a == agent && Get(HeadTree(s), p) == Some(h) && HashAt(t.sandbox[agent], p) == Some(h)
       // committed its own file with content h
       case WorkCommit(a, _, _, _, _) =>
         a == agent && HashAt(s.sandbox[agent], p) == Some(h) && Get(HeadTree(t), p) == Some(h)
       // resolved against head's version h: took it, so that the sandbox holds it, or kept its
       // own file knowing this very head
       case WorkResolve(a, _, take, expectHead) =>
         a == agent && Get(HeadTree(s), p) == Some(h)
         && (if take.Upstream? then HashAt(t.sandbox[agent], p) == Some(h) else s.head.Some? && expectHead == s.head)
       case _ => false
  }

  lemma PullAdopts(s: Repo, agent: Agent, want: set<Path>, copied: set<Path>, noted: set<Path>, t: Repo, p: Path,
                   h: Hash)
    requires Idle(s) && PulledSome(s, agent, want, copied, noted, t)
    requires Baseline(t, agent, p) == Some(h) && Baseline(s, agent, p) != Some(h)
    ensures Get(HeadTree(s), p) == Some(h) && HashAt(t.sandbox[agent], p) == Some(h)
  {
    assert p in Adopting(s, agent, noted);
  }

  lemma CommitAdopts(s: Repo, agent: Agent, paths: seq<Path>, deletes: seq<Path>, line: nat,
                     note: Note, t: Repo, p: Path, h: Hash)
    requires CommitStep(s, agent, paths, deletes, line, note, t)
    requires Baseline(t, agent, p) == Some(h) && Baseline(s, agent, p) != Some(h)
    ensures HashAt(s.sandbox[agent], p) == Some(h) && Get(HeadTree(t), p) == Some(h)
  {
    var locals := CommitLocals(s, agent, paths, deletes);
    CommitRule(Get(s.indexes[agent], p), Get(HeadTree(s), p), if p in locals then locals[p] else None);
  }

  lemma ResolveAdopts(s: Repo, agent: Agent, want: set<Path>, take: Take, saved: set<Path>, taken: set<Path>,
                      marked: bool,
                      t: Repo, p: Path, h: Hash)
    requires ResolvedSome(s, agent, want, take, saved, taken, marked, t)
    requires Baseline(t, agent, p) == Some(h) && Baseline(s, agent, p) != Some(h)
    ensures Get(HeadTree(s), p) == Some(h)
    ensures take.Upstream? ==> HashAt(t.sandbox[agent], p) == Some(h)
  {
  }

  lemma ByPull(s: Repo, call: Call, t: Repo, agent: Agent, p: Path, h: Hash)
    requires Idle(s) && call.WorkPull? && PullStep(s, call.agent, call.paths, t)
    requires Baseline(t, agent, p) == Some(h) && Baseline(s, agent, p) != Some(h)
    ensures Adopts(s, call, t, agent, p, h)
  {
    hide Consistent, PulledBox, PulledIndex, PullWant;
    var want := PullWant(s, call.paths);
    var copied, noted :| PulledSome(s, call.agent, want, copied, noted, t);
    PullAdopts(s, agent, want, copied, noted, t, p, h);
  }

  lemma ByCommit(s: Repo, call: Call, t: Repo, agent: Agent, p: Path, h: Hash)
    requires call.WorkCommit? && CommitStep(s, call.agent, call.paths, call.deletes, call.line, call.note, t)
    requires Baseline(t, agent, p) == Some(h) && Baseline(s, agent, p) != Some(h)
    ensures Adopts(s, call, t, agent, p, h)
  {
    hide CommitLocals, PlannedChanges, PlannedConflicts, UntouchedOutside, ApplyFiles, ApplyTree, ObjectsOk;
    CommitAdopts(s, agent, call.paths, call.deletes, call.line, call.note, t, p, h);
  }

  lemma ByResolve(s: Repo, call: Call, t: Repo, agent: Agent, p: Path, h: Hash)
    requires call.WorkResolve? && ResolveStep(s, call.agent, call.paths, call.take, call.expectHead, t)
    requires Baseline(t, agent, p) == Some(h) && Baseline(s, agent, p) != Some(h)
    ensures Adopts(s, call, t, agent, p, h)
  {
    hide Overlay, AtRisk, ResolveWant;
    var want := ResolveWant(s, call.agent, call.paths);
    var saved, taken, marked :| ResolvedSome(s, call.agent, want, call.take, saved, taken, marked, t);
    ResolveAdopts(s, agent, want, call.take, saved, taken, marked, t, p, h);
  }

  lemma OthersKeepBaselines(s: Repo, call: Call, t: Repo)
    requires Effect(s, call, t) && !call.WorkPull? && !call.WorkCommit? && !call.WorkResolve?
    ensures t.indexes == s.indexes
  {
    hide Consistent, SyncChanges, UserChanges, OutsideConflicts, Brought, ApplyFiles, ApplyTree, Ancestors, Keep,
         Wanted, ObjectsOk;
  }

  /** A baseline becomes h only by pulling h, committing h, or resolving against h. */
  lemma BaselineMoves(s: Repo, call: Call, t: Repo, agent: Agent, p: Path, h: Hash)
    requires Idle(s) && Step(s, call, t)
    requires Baseline(t, agent, p) == Some(h) && Baseline(s, agent, p) != Some(h)
    ensures Adopts(s, call, t, agent, p, h)
  {
    hide Consistent, PullStep, CommitStep, ResolveStep, Adopts, ObjectsOk;
    assert Effect(s, call, t);
    match call {
      case WorkPull(_, _) => ByPull(s, call, t, agent, p, h);
      case WorkCommit(_, _, _, _, _) => ByCommit(s, call, t, agent, p, h);
      case WorkResolve(_, _, _, _) => ByResolve(s, call, t, agent, p, h);
      case _ => OthersKeepBaselines(s, call, t);
    }
  }

  /** At step j `agent` took note of version h of `p`, and h has been its baseline up to state i. */
  ghost predicate AdoptedAndHeld(states: seq<Repo>, calls: seq<Call>, j: nat, i: nat, agent: Agent, p: Path, h: Hash)
    requires |states| == |calls| + 1
  {
    && j < i < |states|
    && Adopts(states[j], calls[j], states[j + 1], agent, p, h)
    && forall k | j < k <= i :: Baseline(states[k], agent, p) == Some(h)
  }

  lemma NoBaselineAtFirst(states: seq<Repo>, calls: seq<Call>, agent: Agent, p: Path)
    requires IsRun(states, calls)
    ensures |states| == |calls| + 1 && Baseline(states[0], agent, p).None?
  {
  }

  lemma StepOf(states: seq<Repo>, calls: seq<Call>, i: nat)
    requires IsRun(states, calls) && i < |calls|
    ensures |states| == |calls| + 1 && Step(states[i], calls[i], states[i + 1])
  {
    hide Step;
    assert StepAt(states, calls, i);
  }

  /** Every baseline an agent holds, it took note of at an earlier step and has held since. */
  lemma {:induction false} BaselineHasOrigin(states: seq<Repo>, calls: seq<Call>, i: nat, agent: Agent, p: Path,
                                             h: Hash)
    requires IsRun(states, calls) && i < |states|
    requires Baseline(states[i], agent, p) == Some(h)
    ensures exists j :: AdoptedAndHeld(states, calls, j, i, agent, p, h)
  {
    hide Idle, Step, Fresh, Baseline, AdoptedAndHeld, IsRun;
    NoBaselineAtFirst(states, calls, agent, p);
    RunIsConsistent(states, calls, i - 1);
    StepOf(states, calls, i - 1);
    if Baseline(states[i - 1], agent, p) == Some(h) {
      BaselineHasOrigin(states, calls, i - 1, agent, p, h);
      var j :| AdoptedAndHeld(states, calls, j, i - 1, agent, p, h);
      HeldOn(states, calls, j, i, agent, p, h);
    } else {
      BaselineMoves(states[i - 1], calls[i - 1], states[i], agent, p, h);
      JustAdopted(states, calls, i - 1, agent, p, h);
    }
  }

  lemma HeldOn(states: seq<Repo>, calls: seq<Call>, j: nat, i: nat, agent: Agent, p: Path, h: Hash)
    requires |states| == |calls| + 1 && 0 < i < |states| && AdoptedAndHeld(states, calls, j, i - 1, agent, p, h)
    requires Baseline(states[i], agent, p) == Some(h)
    ensures AdoptedAndHeld(states, calls, j, i, agent, p, h)
  {
    hide Baseline, Adopts;
  }

  lemma JustAdopted(states: seq<Repo>, calls: seq<Call>, j: nat, agent: Agent, p: Path, h: Hash)
    requires |states| == |calls| + 1 && j < |calls| && Adopts(states[j], calls[j], states[j + 1], agent, p, h)
    requires Baseline(states[j + 1], agent, p) == Some(h)
    ensures AdoptedAndHeld(states, calls, j, j + 1, agent, p, h)
  {
    hide Baseline, Adopts;
  }

  /** An agent's commit changes a path only from the version that is its baseline. */
  lemma CommitReplacesBaseline(s: Repo, agent: Agent, paths: seq<Path>, deletes: seq<Path>, line: nat,
                               note: Note, t: Repo, p: Path)
    requires CommitStep(s, agent, paths, deletes, line, note, t)
    requires Get(HeadTree(t), p) != Get(HeadTree(s), p)
    ensures Baseline(s, agent, p) == Get(HeadTree(s), p)
  {
    var locals := CommitLocals(s, agent, paths, deletes);
    if p in locals {
      CommitRule(Get(s.indexes[agent], p), Get(HeadTree(s), p), locals[p]);
    }
  }

  /** No lost update: whatever version h of a file an agent's commit replaces or deletes,
      that agent took note of h at an earlier step and h has been its baseline ever since. */
  lemma NoLostUpdate(states: seq<Repo>, calls: seq<Call>, i: nat, p: Path, h: Hash)
    requires IsRun(states, calls) && i < |calls| && calls[i].WorkCommit?
    requires Get(HeadTree(states[i]), p) == Some(h) && Get(HeadTree(states[i + 1]), p) != Some(h)
    ensures exists j :: AdoptedAndHeld(states, calls, j, i, calls[i].agent, p, h)
  {
    var call := calls[i];
    assert StepAt(states, calls, i);
    CommitReplacesBaseline(states[i], call.agent, call.paths, call.deletes, call.line, call.note,
                           states[i + 1], p);
    BaselineHasOrigin(states, calls, i, call.agent, p, h);
  }
}
