/** An agent that leaves a file as it pulled it never commits that old version over a newer
    one, unless it gave up its note of the file in between. */
module StaleFiles {
  import opened Outcomes
  import opened WorkTree
  import opened Workstore
  import opened Repository
  import opened Steps
  import opened Preservation
  import opened Effects
  import opened Runs

  /** The agent's file has this content. */
  ghost predicate Has(s: Repo, agent: Agent, p: Path, h: Hash) {
    agent in s.sandbox && HashAt(s.sandbox[agent], p) == Some(h)
  }

  /** The agent asks to delete the file although it may still have it, or resolves while head lacks
      the file. */
  predicate GivesUp(s: Repo, call: Call, agent: Agent, p: Path) {
    match call
    case WorkCommit(a, _, deletes, _, _) => a == agent && p in deletes
    case WorkResolve(a, _, _, _) => a == agent && p !in HeadTree(s)
    case _ => false
  }

  lemma PullKeepsNotes(s: Repo, agent: Agent, paths: seq<Path>, t: Repo, a: Agent, p: Path)
    requires PullStep(s, agent, paths, t) && Baseline(s, a, p).Some?
    ensures Baseline(t, a, p).Some?
  {
    hide PullWant, PulledBox, JudgePull;
  }

  lemma CommitKeepsNotes(s: Repo, agent: Agent, paths: seq<Path>, deletes: seq<Path>, line: nat, note: Note, t: Repo,
                         a: Agent, p: Path)
    requires Idle(s) && CommitStep(s, agent, paths, deletes, line, note, t) && Baseline(s, a, p).Some?
    ensures Baseline(t, a, p).Some? || (a == agent && p in deletes)
  {
    hide Idle, PlannedChanges, CommitLocals, CommittedAt, CommitLands, HeadTree, PlannedConflicts, UntouchedOutside;
    CommitTakesEdits(s, agent, paths, deletes, line, note, t);
    if a == agent {
      CommittedNote(s, agent, paths, deletes,
                    PlannedChanges(s.indexes[agent], HeadTree(s), CommitLocals(s, agent, paths, deletes)), t, p);
    }
  }

  lemma CommittedNote(s: Repo, agent: Agent, paths: seq<Path>, deletes: seq<Path>, changes: Changes, t: Repo, p: Path)
    requires agent in s.sandbox && agent in s.indexes && agent in t.indexes
    requires CommittedAt(s, agent, paths, deletes, changes, t, p)
    ensures p in s.indexes[agent] ==> p in t.indexes[agent] || p in deletes
    ensures HashAt(s.sandbox[agent], p) == Get(s.indexes[agent], p) && p !in deletes ==>
      Get(HeadTree(t), p) == Get(HeadTree(s), p)
  {
  }

  lemma ResolveKeepsNotes(s: Repo, agent: Agent, paths: seq<Path>, take: Take, expectHead: Option<nat>, t: Repo,
                          a: Agent, p: Path)
    requires ResolveStep(s, agent, paths, take, expectHead, t) && Baseline(s, a, p).Some?
    ensures Baseline(t, a, p).Some? || (a == agent && p !in HeadTree(s))
  {
    hide ResolveWant, AtRisk;
  }

  /** A resolve in favour of local files takes note of no newer version of a file left as it was. */
  lemma LocalTakeKeepsNote(s: Repo, agent: Agent, paths: seq<Path>, expectHead: Option<nat>, t: Repo, p: Path, h: Hash)
    requires ResolveStep(s, agent, paths, Local, expectHead, t)
    requires Baseline(s, agent, p) == Some(h) && Has(s, agent, p, h) && p in HeadTree(s)
    ensures Baseline(t, agent, p) == Some(h)
  {
    hide ResolveWant, AtRisk;
    assert !Outdated(s, agent, p) || p !in ResolveWant(s, agent, paths);
  }

  /** While its file stays as it is, an agent's note of the version stays, unless it is given up. */
  lemma NoteStays(s: Repo, call: Call, t: Repo, agent: Agent, p: Path, h: Hash)
    requires Idle(s) && Step(s, call, t) && !GivesUp(s, call, agent, p)
    requires Baseline(s, agent, p) == Some(h) && Has(s, agent, p, h) && Has(t, agent, p, h)
    ensures Baseline(t, agent, p) == Some(h)
  {
    hide Idle, Consistent, PullStep, CommitStep, ResolveStep;
    if Effect(s, call, t) {
      match call {
        case WorkPull(a, paths) => PullKeepsNotes(s, a, paths, t, agent, p);
        case WorkCommit(a, paths, deletes, line, note) =>
          CommitKeepsNotes(s, a, paths, deletes, line, note, t, agent, p);
        case WorkResolve(a, paths, take, expectHead) =>
          ResolveKeepsNotes(s, a, paths, take, expectHead, t, agent, p);
          if a == agent && take.Local? {
            LocalTakeKeepsNote(s, a, paths, expectHead, t, p, h);
          }
        case _ => OthersKeepBaselines(s, call, t);
      }
      if Baseline(t, agent, p).Some? && Baseline(t, agent, p) != Some(h) {
        BaselineMoves(s, call, t, agent, p, Baseline(t, agent, p).value);
      }
    }
  }

  /** Up to state `i` the agent left its file as it was at state `j`, and gave up no note of it. */
  ghost predicate LeftAlone(states: seq<Repo>, calls: seq<Call>, j: nat, i: nat, agent: Agent, p: Path, h: Hash)
    requires |states| == |calls| + 1
  {
    && j <= i < |states|
    && (forall k | j <= k <= i :: Has(states[k], agent, p, h))
    && (forall k | j <= k < i :: !GivesUp(states[k], calls[k], agent, p))
  }

  lemma {:induction false} StillNoted(states: seq<Repo>, calls: seq<Call>, j: nat, i: nat, agent: Agent, p: Path,
                                      h: Hash)
    requires IsRun(states, calls) && LeftAlone(states, calls, j, i, agent, p, h)
    requires Baseline(states[j], agent, p) == Some(h)
    ensures Baseline(states[i], agent, p) == Some(h)
    decreases i
  {
    hide Idle, Step, Fresh, Baseline, Has, GivesUp;
    if j < i {
      StillNoted(states, calls, j, i - 1, agent, p, h);
      RunIsConsistent(states, calls, i - 1);
      StepOf(states, calls, i - 1);
      NoteStays(states[i - 1], calls[i - 1], states[i], agent, p, h);
    }
  }

  /** Whatever others do meanwhile, a file an agent left as it was when it took note of the version is
      not changed in head by that agent's commits, except where they ask to delete it. */
  lemma NoStaleCommit(states: seq<Repo>, calls: seq<Call>, j: nat, i: nat, p: Path, h: Hash)
    requires IsRun(states, calls) && i < |calls| && calls[i].WorkCommit? && p !in calls[i].deletes
    requires LeftAlone(states, calls, j, i, calls[i].agent, p, h)
    requires Baseline(states[j], calls[i].agent, p) == Some(h)
    ensures Get(HeadTree(states[i + 1]), p) == Get(HeadTree(states[i]), p)
  {
    var call, s, t := calls[i], states[i], states[i + 1];
    StillNoted(states, calls, j, i, call.agent, p, h);
    RunIsConsistent(states, calls, i);
    StepOf(states, calls, i);
    hide IsRun, Idle, CommitStep, LeftAlone;
    if Effect(s, call, t) {
      EditsOnly(s, call.agent, call.paths, call.deletes, call.line, call.note, t, p);
    }
  }

  lemma EditsOnly(s: Repo, agent: Agent, paths: seq<Path>, deletes: seq<Path>, line: nat, note: Note, t: Repo, p: Path)
    requires Idle(s) && CommitStep(s, agent, paths, deletes, line, note, t) && p !in deletes
    ensures agent in s.sandbox && agent in s.indexes
    ensures HashAt(s.sandbox[agent], p) == Get(s.indexes[agent], p) ==> Get(HeadTree(t), p) == Get(HeadTree(s), p)
  {
    hide Idle, PlannedChanges, CommitLocals, CommittedAt, CommitLands, HeadTree, PlannedConflicts, UntouchedOutside;
    CommitTakesEdits(s, agent, paths, deletes, line, note, t);
    CommittedNote(s, agent, paths, deletes,
                  PlannedChanges(s.indexes[agent], HeadTree(s), CommitLocals(s, agent, paths, deletes)), t, p);
  }

  // ---------- giving up the note ----------

  /** The agent keeps its file against its deletion in head: only its note of the file goes. */
  function NoteDropped(s: Repo, a: Agent, p: Path): Repo
    requires a in s.indexes
  {
    s.(indexes := s.indexes[a := s.indexes[a] - {p}])
  }

  function NoteTaken(s: Repo, a: Agent, p: Path, h: Hash): Repo
    requires a in s.indexes
  {
    s.(indexes := s.indexes[a := s.indexes[a][p := h]])
  }

  /** The state in which everything listed in the change `c` is stored and landed. */
  function WithCommit(s: Repo, c: Commit, index: Option<PendingIndex>, bytes: Bytes): Repo {
    Landed(s.(objects := s.objects[Object(ContentHash(bytes)) := bytes], nextId := Some(c.id + 1)), c, index)
  }

  /** `p` is in nobody's head, but the agent has it unedited as `mine`. */
  ghost predicate GoneUpstream(s: Repo, a: Agent, p: Path, mine: Bytes) {
    && Idle(s) && !s.external && s.head.Some? && p !in HeadTree(s)
    && Baseline(s, a, p) == Some(ContentHash(mine)) && a in s.sandbox && Get(s.sandbox[a], p) == Some(mine)
  }

  lemma AsksForOne(s: Repo, a: Agent, p: Path)
    requires a in s.sandbox && a in s.indexes && p in s.sandbox[a]
    ensures ResolveWant(s, a, [p]) == {p}
  {
    assert Asks([p][0], ResolveAvailable(s, a), p);
  }

  lemma SameEntry<V>(m: map<Agent, V>, a: Agent)
    requires a in m
    ensures m[a := m[a]] == m
  {
  }

  /** Keeping a local file takes note of what head has. */
  lemma LocalTaken(s: Repo, a: Agent, p: Path, t: Repo)
    requires Idle(s) && a in s.sandbox && a in s.indexes && s.head.Some? && p in s.sandbox[a] && !Outdated(s, a, p)
    requires t == if p in HeadTree(s) then NoteTaken(s, a, p, HeadTree(s)[p]) else NoteDropped(s, a, p)
    ensures Effect(s, WorkResolve(a, [p], Local, s.head), t)
  {
    assert a in s.lost;
    AsksForOne(s, a, p);
    OverlayOne(s.indexes[a], HeadTree(s), p);
    OverlayOne(s.sandbox[a], Contents(HeadTree(s)), p);
    OverlayOne(s.lost[a], s.sandbox[a], p);
    SameEntry(s.sandbox, a);
    SameEntry(s.lost, a);
    hide ResolveWant, HeadTree, AtRisk, Outdated, Overlay, Contents, Idle;
    assert ResolvedSome(s, a, {p}, Local, {}, {}, true, t);
  }

  /** A commit of stored content under the next id lands. */
  lemma Lands(s: Repo, c: Commit, index: Option<PendingIndex>, bytes: Bytes)
    requires Idle(s) && (forall p | p in c.changes :: !c.changes[p].Delete? && c.changes[p].hash == ContentHash(bytes))
    ensures CommitLands(s, c, index, WithCommit(s, c, index, bytes))
  {
    hide HistoryOk, Closed, TreeClosed, ApplyFiles, Contents;
  }

  /** The user's file `newer` under the path of the agent's. */
  function WithUserFile(s: Repo, p: Path, newer: Bytes, time: int, line: nat): Repo {
    var anchor := Some(Anchor("", line));
    WithCommit(s, NewCommit(s, "user", UserNote(time, p), UserChanges(s, p, newer), anchor), None, newer)
  }

  lemma UserFileEffect(s: Repo, p: Path, newer: Bytes, time: int, line: nat)
    requires Idle(s)
    ensures var t := WithUserFile(s, p, newer, time, line);
      && Effect(s, WorkCommitUser(p, newer, time, line), t)
      && Idle(t) && HeadTree(t) == HeadTree(s)[p := ContentHash(newer)]
      && t.sandbox == s.sandbox && t.indexes == s.indexes && t.external == s.external && t.head.Some?
  {
    hide Idle, HeadTree, CommitLands, ApplyTree;
    var t := WithUserFile(s, p, newer, time, line);
    var c := NewCommit(s, "user", UserNote(time, p), UserChanges(s, p, newer), Some(Anchor("", line)));
    Lands(s, c, None, newer);
    assert UserCommitStep(s, p, newer, time, line, t);
    UserCommitAddsFile(s, p, newer, time, line, t);
    hide Landed;
    StepKeepsIdle(s, WorkCommitUser(p, newer, time, line), t);
  }

  /** The agent's file committed over the version it took note of. */
  function WithOwnFile(s: Repo, a: Agent, p: Path, mine: Bytes, line: nat, note: Note): Repo
    requires a in s.indexes
  {
    var changes := map[p := Modify(ContentHash(mine))];
    WithCommit(s, NewCommit(s, a, Trimmed(note), changes, Some(Anchor(a, line))),
               Some(PendingIndex(a, ApplyTree(s.indexes[a], changes))), mine)
  }

  /** The agent noted head's version of the one path and has another file there. */
  lemma PlansOwnFile(s: Repo, a: Agent, p: Path)
    requires a in s.sandbox && a in s.indexes && p in s.sandbox[a] && p in HeadTree(s)
    requires Get(s.indexes[a], p) == Get(HeadTree(s), p) != HashAt(s.sandbox[a], p)
    ensures var locals := CommitLocals(s, a, [p], []);
      && PlannedConflicts(s.indexes[a], HeadTree(s), locals) == map[]
      && PlannedChanges(s.indexes[a], HeadTree(s), locals) == map[p := Modify(ContentHash(s.sandbox[a][p]))]
  {
    hide HeadTree;
    assert Asks([p][0], s.sandbox[a].Keys, p);
    assert CommitLocals(s, a, [p], []) == map[p := HashAt(s.sandbox[a], p)];
    hide Expanded, CommitLocals;
  }

  lemma OwnFileEffect(s: Repo, a: Agent, p: Path, mine: Bytes, line: nat, note: Note)
    requires Idle(s) && !s.external && a in s.sandbox && a in s.indexes && p in HeadTree(s)
    requires Get(s.indexes[a], p) == Get(HeadTree(s), p) != Some(ContentHash(mine))
    requires Get(s.sandbox[a], p) == Some(mine)
    ensures var t := WithOwnFile(s, a, p, mine, line, note);
      && Effect(s, WorkCommit(a, [p], [], line, note), t)
      && Get(HeadTree(t), p) == Some(ContentHash(mine))
  {
    hide Idle, HeadTree, CommitLands, CommitLocals, PlannedChanges, PlannedConflicts, UntouchedOutside;
    var t := WithOwnFile(s, a, p, mine, line, note);
    var changes := map[p := Modify(ContentHash(mine))];
    var c := NewCommit(s, a, Trimmed(note), changes, Some(Anchor(a, line)));
    var index := Some(PendingIndex(a, ApplyTree(s.indexes[a], changes)));
    PlansOwnFile(s, a, p);
    Lands(s, c, index, mine);
    LandedFacts(s, c, index, t);
    AppliedAt(s, changes, p);
    hide Landed, ApplyTree;
    assert CommitStep(s, a, [p], [], line, note, t);
  }

  /** Why the note must not be given up: an unedited file whose deletion in head the agent resolves
      against, and which then comes back in another version that it resolves against as well, is
      committed in its old version over the new one. */
  lemma GivenUpThenStale(s: Repo, a: Agent, p: Path, mine: Bytes, newer: Bytes, time: int, line: nat, note: Note)
    requires GoneUpstream(s, a, p, mine) && newer != mine
    ensures var s1 := NoteDropped(s, a, p);
      var s2 := WithUserFile(s1, p, newer, time, line);
      && Effect(s, WorkResolve(a, [p], Local, s.head), s1)
      && Effect(s1, WorkCommitUser(p, newer, time, line), s2)
      && a in s2.indexes && var s3 := NoteTaken(s2, a, p, ContentHash(newer));
      && a in s3.indexes && var s4 := WithOwnFile(s3, a, p, mine, line, note);
      && Effect(s2, WorkResolve(a, [p], Local, s2.head), s3)
      && Effect(s3, WorkCommit(a, [p], [], line, note), s4)
      && Get(HeadTree(s3), p) == Some(ContentHash(newer)) && Get(HeadTree(s4), p) == Some(ContentHash(mine))
  {
    hide Effect, Idle, HeadTree, WithCommit;
    var s1 := NoteDropped(s, a, p);
    LocalTaken(s, a, p, s1);
    NotesIdle(s, WorkResolve(a, [p], Local, s.head), s1);
    UserFileEffect(s1, p, newer, time, line);
    var s2 := WithUserFile(s1, p, newer, time, line);
    var s3 := NoteTaken(s2, a, p, ContentHash(newer));
    LocalTaken(s2, a, p, s3);
    NotesIdle(s2, WorkResolve(a, [p], Local, s2.head), s3);
    OwnFileEffect(s3, a, p, mine, line, note);
  }

  lemma NotesIdle(s: Repo, call: Call, t: Repo)
    requires Idle(s) && Effect(s, call, t) && t == s.(indexes := t.indexes)
    ensures Idle(t) && HeadTree(t) == HeadTree(s)
  {
    hide Idle, Effect;
    StepKeepsIdle(s, call, t);
  }
}
