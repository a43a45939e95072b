/** The workspace service over its storage ports. Every port write may fail before
    or after taking effect, and the process may die at any of them. */
module Workspace {
  import opened Outcomes
  import opened WorkTree
  import opened Workstore
  import opened Repository
  import opened Steps
  import opened Refusals
  import CommitLog
  import opened Reports
  import Texts
  import opened Preservation
  import opened Effects

  /** One port write: the state is as before or as intended, and success means intended. */
  ghost predicate Written(s: Repo, goal: Repo, u: Repo, r: Result<()>) {
    && (u == s || u == goal)
    && (r.Ok? ==> u == goal)
    && (r.Err? ==> r.Interrupted())
  }

  /** The files a journalled move removes. */
  ghost function Stale(start: Repo): set<Path>
    requires Moving(start)
  {
    HeadTree(start).Keys - TreeAt(start.commits, Target(start.pending.value)).Keys
  }

  /** How far a move has come in removing files: those of `todo` are left. */
  ghost predicate RemoveSoFar(start: Repo, files: Files, todo: set<Path>) {
    && Moving(start) && todo <= Stale(start) && files == start.shared - (Stale(start) - todo)
    && SameRecovery(start, start.(shared := files)) && OnlyWithin(start.shared, files, HeadTree(start).Keys)
  }

  lemma RemoveStarts(start: Repo)
    requires Inv(start) && Moving(start)
    ensures RemoveSoFar(start, start.shared, Stale(start))
  {
    hide Inv, Recovered, SameRecovery, OnlyWithin;
    SameRecoveryRefl(start);
    OnlyWithinNone(start.shared, HeadTree(start).Keys);
    assert Stale(start) - Stale(start) == {} && start.shared - {} == start.shared;
  }

  lemma RemoveStands(start: Repo, files: Files, todo: set<Path>)
    requires RemoveSoFar(start, files, todo)
    ensures SameRecovery(start, start.(shared := files)) && OnlyWithin(start.shared, files, HeadTree(start).Keys)
    ensures todo == {} ==> files == start.shared - Stale(start)
  {
    hide SameRecovery, OnlyWithin;
    assert todo == {} ==> Stale(start) - todo == Stale(start);
  }

  lemma RemoveOneMore(start: Repo, files: Files, todo: set<Path>, rel: Path)
    requires RemoveSoFar(start, files, todo) && rel in todo
    ensures RemoveSoFar(start, files - {rel}, todo - {rel})
  {
    hide Inv, Recovered, SameRecovery, OnlyWithin;
    var s := start.(shared := files);
    SameRecoveryInv(start, s);
    MoveFileStep(s, rel, s.(shared := files - {rel}));
    SameRecoveryTrans(start, s, s.(shared := files - {rel}));
    assert Stale(start) - (todo - {rel}) == (Stale(start) - todo) + {rel};
    OneFewer(start.shared, Stale(start) - todo, rel);
    WithinFewer(start.shared, Stale(start) - (todo - {rel}), HeadTree(start).Keys);
  }

  lemma OneFewer(files: Files, gone: set<Path>, rel: Path)
    ensures files - gone - {rel} == files - (gone + {rel})
  {
  }

  lemma WithinFewer(files: Files, gone: set<Path>, paths: set<Path>)
    requires gone <= paths
    ensures OnlyWithin(files, files - gone, paths)
  {
  }

  /** How far a move has come in writing files: those of `todo` are left. */
  ghost predicate WriteSoFar(start: Repo, files: Files, todo: set<Path>) {
    && Moving(start)
    && var tree := TreeAt(start.commits, Target(start.pending.value));
       && todo <= tree.Keys && files == start.shared + (Contents(tree) - todo)
       && SameRecovery(start, start.(shared := files)) && OnlyWithin(start.shared, files, tree.Keys)
  }

  lemma WriteStarts(start: Repo)
    requires Inv(start) && Moving(start)
    ensures WriteSoFar(start, start.shared, TreeAt(start.commits, Target(start.pending.value)).Keys)
  {
    hide Inv, Recovered, SameRecovery, OnlyWithin, Contents;
    var tree := TreeAt(start.commits, Target(start.pending.value));
    SameRecoveryRefl(start);
    OnlyWithinNone(start.shared, tree.Keys);
    ContentsFacts(tree);
    assert Contents(tree) - tree.Keys == map[];
  }

  lemma WriteStands(start: Repo, files: Files, todo: set<Path>)
    requires WriteSoFar(start, files, todo)
    ensures var tree := TreeAt(start.commits, Target(start.pending.value));
      && SameRecovery(start, start.(shared := files)) && OnlyWithin(start.shared, files, tree.Keys)
      && (todo == {} ==> files == start.shared + Contents(tree))
  {
    hide SameRecovery, OnlyWithin, Contents;
    var tree := TreeAt(start.commits, Target(start.pending.value));
    assert todo == {} ==> Contents(tree) - todo == Contents(tree);
  }

  lemma WriteOneMore(start: Repo, files: Files, todo: set<Path>, rel: Path)
    requires WriteSoFar(start, files, todo) && rel in todo
    ensures var tree := TreeAt(start.commits, Target(start.pending.value));
      && rel in tree && WriteSoFar(start, files[rel := tree[rel].content], todo - {rel})
      && Object(tree[rel]) in start.objects && start.objects[Object(tree[rel])] == tree[rel].content
  {
    hide Inv, Recovered, SameRecovery, OnlyWithin, Contents;
    var tree := TreeAt(start.commits, Target(start.pending.value));
    var s, goal := start.(shared := files), start.(shared := files[rel := tree[rel].content]);
    SameRecoveryInv(start, s);
    ObjectAt(s, Target(s.pending.value), rel);
    MoveFileStep(s, rel, goal);
    SameRecoveryTrans(start, s, goal);
    ContentsFacts(tree);
    PutOne(start.shared, Contents(tree), todo, rel);
    OnlyWithinPut(start.shared, files, tree.Keys, rel, tree[rel].content);
  }

  /** Once the files are moved, head may follow. */
  lemma HeadMayMove(start: Repo, files: Files, target: Option<nat>)
    requires Moving(start) && Target(start.pending.value) == target && SameRecovery(start, start.(shared := files))
    requires files == Brought(start.shared, HeadTree(start), TreeAt(start.commits, target))
    ensures SameRecovery(start, start.(shared := files, head := target))
  {
    hide Inv, Recovered, SameRecovery, Brought;
    var placed, goal := start.(shared := files), start.(shared := files, head := target);
    SameRecoveryInv(start, placed);
    BroughtTwice(start.shared, HeadTree(start), TreeAt(start.commits, target));
    MoveHeadStep(placed, goal);
    SameRecoveryTrans(start, placed, goal);
  }

  /** How far a journalled commit has come in the shared area: `todo` is still to be changed. */
  ghost predicate ApplySoFar(start: Repo, files: Files, todo: set<Path>) {
    && start.pending.Some? && start.pending.value.Committing?
    && var changes := start.pending.value.commit.changes;
       && todo <= changes.Keys && files == PartApplied(start.shared, changes, todo)
       && SameRecovery(start, start.(shared := files)) && OnlyWithin(start.shared, files, changes.Keys)
  }

  lemma ApplyStarts(start: Repo)
    requires Inv(start) && start.pending.Some? && start.pending.value.Committing?
    ensures ApplySoFar(start, start.shared, start.pending.value.commit.changes.Keys)
  {
    hide Inv, Recovered, SameRecovery, OnlyWithin, PartApplied;
    var changes := start.pending.value.commit.changes;
    SameRecoveryRefl(start);
    OnlyWithinNone(start.shared, changes.Keys);
    PartAppliedEnds(start.shared, changes);
  }

  lemma ApplyStands(start: Repo, files: Files, todo: set<Path>)
    requires ApplySoFar(start, files, todo)
    ensures var changes := start.pending.value.commit.changes;
      && SameRecovery(start, start.(shared := files)) && OnlyWithin(start.shared, files, changes.Keys)
      && (todo == {} ==> files == ApplyFiles(start.shared, changes))
  {
    hide SameRecovery, OnlyWithin, PartApplied, ApplyFiles;
    PartAppliedEnds(start.shared, start.pending.value.commit.changes);
  }

  function WithChange(files: Files, rel: Path, change: Change): Files {
    if change.Delete? then files - {rel} else files[rel := change.hash.content]
  }

  lemma ApplyOneMore(start: Repo, files: Files, todo: set<Path>, rel: Path)
    requires ApplySoFar(start, files, todo) && rel in todo
    ensures rel in start.pending.value.commit.changes
    ensures var change := start.pending.value.commit.changes[rel];
      && ApplySoFar(start, WithChange(files, rel, change), todo - {rel})
      && (!change.Delete? ==>
            Object(change.hash) in start.objects && start.objects[Object(change.hash)] == change.hash.content)
  {
    hide Inv, Recovered, SameRecovery, OnlyWithin, PartApplied, ApplyFiles;
    var changes := start.pending.value.commit.changes;
    var change := changes[rel];
    var s, goal := start.(shared := files), start.(shared := WithChange(files, rel, change));
    SameRecoveryInv(start, s);
    CommitFacts(s);
    CommitFileStep(s, rel, goal);
    SameRecoveryTrans(start, s, goal);
    PartAppliedStep(start.shared, changes, todo, rel);
    OnlyWithinPut(start.shared, files, changes.Keys, rel, if change.Delete? then [] else change.hash.content);
  }

  /** A change that broke off at one file leaves recovery where it was. */
  lemma ApplyTorn(start: Repo, files: Files, todo: set<Path>, rel: Path, torn: Files)
    requires ApplySoFar(start, files, todo) && rel in todo && OnlyWithin(files, torn, {rel})
    ensures SameRecovery(start, start.(shared := torn))
    ensures OnlyWithin(start.shared, torn, start.pending.value.commit.changes.Keys)
  {
    hide Inv, Recovered, SameRecovery, OnlyWithin, PartApplied, ApplyFiles;
    var s, now := start.(shared := files), start.(shared := torn);
    SameRecoveryInv(start, s);
    OnlyWithinMore(start.shared, files, torn, {rel}, start.pending.value.commit.changes.Keys);
    CommitTornStep(s, now);
    SameRecoveryTrans(start, s, now);
  }

  /** Recording the commit, moving head and writing the baseline, in that order. */
  lemma RecordSteps(s: Repo)
    requires Inv(s) && s.pending.Some? && s.pending.value.Committing?
    ensures var c, index := s.pending.value.commit, s.pending.value.index;
      var recorded := s.(commits := s.commits[c.id := c]);
      var moved := recorded.(head := Some(c.id));
      && SameRecovery(s, recorded) && SameRecovery(s, moved)
      && (index.Some? ==>
            SameRecovery(s, moved.(indexes := s.indexes[index.value.agent := index.value.index])))
  {
    var c, index := s.pending.value.commit, s.pending.value.index;
    var recorded := s.(commits := s.commits[c.id := c]);
    var moved := recorded.(head := Some(c.id));
    CommitRecordStep(s);
    CommitHeadStep(recorded);
    SameRecoveryTrans(s, recorded, moved);
    if index.Some? {
      CommitIndexStep(moved);
      SameRecoveryTrans(s, moved, moved.(indexes := s.indexes[index.value.agent := index.value.index]));
    }
  }

  lemma IdleWhenClear(s: Repo)
    requires Inv(s)
    ensures s.pending.None? ==> Idle(s) && Recovered(s) == s
  {
  }

  /** How far a discard has come: the commits of `todo` are still to be removed. */
  ghost predicate DiscardSoFar(start: Repo, keep: Option<nat>, commits: Commits, todo: set<nat>) {
    var chain := Ancestors(start.commits, keep);
    && start.pending == Some(Discarding(keep)) && start.head == keep
    && chain !! todo && todo <= start.commits.Keys
    && SameRecovery(start, start.(commits := commits))
    && commits == Keep(start.commits, chain + todo)
    && Ancestors(commits, keep) == chain
  }

  lemma DiscardStarts(start: Repo, keep: Option<nat>)
    requires Inv(start) && start.pending == Some(Discarding(keep)) && start.head == keep
    ensures DiscardSoFar(start, keep, start.commits, start.commits.Keys - Ancestors(start.commits, keep))
  {
    hide Inv, Recovered, SameRecovery, Keep;
    SameRecoveryRefl(start);
    KeptChainOk(start);
    ChainStored(start.commits, keep);
    KeepFacts(start.commits, Ancestors(start.commits, keep), start.commits.Keys - Ancestors(start.commits, keep));
  }

  lemma {:induction false} ChainStored(commits: Commits, from: Option<nat>)
    requires ChainOk(commits, from)
    ensures Ancestors(commits, from) <= commits.Keys
    decreases if from.Some? then from.value + 1 else 0
  {
    if from.Some? {
      ChainStep(commits, from);
      if from.value in commits {
        ChainStored(commits, commits[from.value].parent);
      }
    }
  }

  lemma DiscardStands(start: Repo, keep: Option<nat>, commits: Commits, todo: set<nat>)
    requires DiscardSoFar(start, keep, commits, todo)
    ensures SameRecovery(start, start.(commits := commits))
    ensures todo == {} ==>
      commits == Keep(start.commits, Ancestors(start.commits, keep)) && commits.Keys == Ancestors(commits, keep)
  {
    hide SameRecovery, Keep;
    var chain := Ancestors(start.commits, keep);
    if todo == {} {
      assert chain + todo == chain;
      SameRecoveryInv(start, start.(commits := commits));
      KeptChainOk(start.(commits := commits));
      ChainStored(commits, keep);
      KeepWithin(start.commits, chain);
    }
  }

  lemma KeepWithin(commits: Commits, ids: set<nat>)
    ensures Keep(commits, ids).Keys <= ids
  {
  }

  lemma DiscardOneMore(start: Repo, keep: Option<nat>, commits: Commits, todo: set<nat>, id: nat)
    requires DiscardSoFar(start, keep, commits, todo) && id in todo
    ensures DiscardSoFar(start, keep, commits - {id}, todo - {id})
  {
    hide Inv, Recovered, SameRecovery, Keep, Ancestors;
    var s := start.(commits := commits);
    SameRecoveryInv(start, s);
    DropCommitStep(s, id);
    SameRecoveryTrans(start, s, s.(commits := commits - {id}));
    KeepDrop(start.commits, Ancestors(start.commits, keep), todo, id);
  }

  lemma KeepFacts(commits: Commits, chain: set<nat>, todo: set<nat>)
    requires todo == commits.Keys - chain && chain <= commits.Keys
    ensures Keep(commits, chain + todo) == commits
    ensures Keep(commits, chain).Keys == chain
  {
  }

  lemma KeepDrop(commits: Commits, chain: set<nat>, todo: set<nat>, id: nat)
    requires id in todo && chain !! todo
    ensures Keep(commits, chain + todo) - {id} == Keep(commits, chain + (todo - {id}))
  {
  }

  /** What a public operation promises. Seen with every journal carried out, a call
      is one atomic step whatever happens to it; success means the whole effect, a
      refusal means no effect. */
  ghost predicate Answers(s: Repo, call: Call, u: Repo, ok: bool, interrupted: bool) {
    && Inv(u)
    && Step(Recovered(s), call, Recovered(u))
    && (ok ==> Idle(u) && Effect(Recovered(s), call, u))
    && (!ok && !interrupted ==> Spare(Recovered(s), Recovered(u)))
  }

  lemma NothingYet(s: Repo, call: Call, u: Repo)
    requires Inv(u) && Recovered(u) == Recovered(s)
    ensures Answers(s, call, u, false, true) && Answers(s, call, u, false, false)
  {
    assert Consistent(Recovered(u));
    assert Spare(Recovered(s), Recovered(u));
  }

  lemma SyncAdopted(s: Repo, paths: seq<Path>, time: int, u: Repo)
    requires Idle(Recovered(s)) && Answers(s, WorkSync(paths, time), u, true, false)
    requires SyncChanges(Recovered(s), paths) != map[]
    ensures Adopted(Recovered(s), paths, SyncChanges(Recovered(s), paths), u)
  {
    hide Idle, Recovered, SyncChanges, Adopted, SyncStep;
    SyncAdoptsDisk(Recovered(s), paths, time, u);
  }

  lemma CommitTaken(s: Repo, agent: Agent, paths: seq<Path>, deletes: seq<Path>, line: nat, note: Note, u: Repo)
    requires Idle(Recovered(s)) && Answers(s, WorkCommit(agent, paths, deletes, line, note), u, true, false)
    ensures var r := Recovered(s);
      && agent in r.sandbox && agent in r.indexes && agent in u.indexes
      && var changes := PlannedChanges(r.indexes[agent], HeadTree(r), CommitLocals(r, agent, paths, deletes));
         forall p :: CommittedAt(r, agent, paths, deletes, changes, u, p)
  {
    hide Idle, Recovered, CommittedAt, CommitLands;
    CommitTakesEdits(Recovered(s), agent, paths, deletes, line, note, u);
  }

  lemma UserFileAdded(s: Repo, path: Path, bytes: Bytes, time: int, line: nat, u: Repo)
    requires Idle(Recovered(s)) && Answers(s, WorkCommitUser(path, bytes, time, line), u, true, false)
    ensures u.head == Some(FreshId(Recovered(s)))
    ensures HeadTree(u) == HeadTree(Recovered(s))[path := ContentHash(bytes)]
    ensures u.shared == Recovered(s).shared[path := bytes]
  {
    hide Idle, Recovered, CommitLands, HeadTree;
    var r := Recovered(s);
    UserCommitAddsFile(r, path, bytes, time, line, u);
    var c := NewCommit(r, "user", UserNote(time, path), UserChanges(r, path, bytes), Some(Anchor("", line)));
    LandedFacts(r, c, None, u);
  }

  /** After recovery the state is idle; whatever orphan objects or unused id follow do not show. */
  lemma SpareAnswers(s: Repo, call: Call, u: Repo)
    requires Inv(s) && Idle(Recovered(s)) && Spare(Recovered(s), u)
    ensures Answers(s, call, u, false, true) && Answers(s, call, u, false, false)
  {
    SpareKeeps(Recovered(s), u);
    IdleIsInv(u);
  }

  /** A transaction that either did not start or will be carried out answers the call. */
  lemma TransactAnswers(s: Repo, call: Call, before: Repo, after: Repo, u: Repo, ok: bool)
    requires Inv(s) && Idle(Recovered(s)) && Spare(Recovered(s), before)
    requires Effect(Recovered(s), call, after) && Idle(after)
    requires Inv(u) && Recovered(u) in {before, after}
    requires ok ==> u == after
    ensures Answers(s, call, u, ok, !ok)
  {
    SpareKeeps(Recovered(s), before);
  }

  /** The files a move to `to` would delete, among those looked at. */
  ghost function StaleConflicts(s: Repo, to: Tree, looked: set<Path>): set<Path> {
    var from := HeadTree(s);
    set p | p in looked && p in from && p !in to && p in s.shared && HashAt(s.shared, p) != Some(from[p])
  }

  ghost function WriteConflicts(s: Repo, to: Tree, looked: set<Path>): set<Path> {
    set p | p in looked && p in to && HashAt(s.shared, p) != Get(HeadTree(s), p)
  }

  lemma NoConflicts(s: Repo, to: Tree)
    ensures forall none: set<Path> | none == {} ::
      StaleConflicts(s, to, none) == {} && WriteConflicts(s, to, none) == {}
  {
  }

  lemma OneMoreStale(s: Repo, to: Tree, looked: set<Path>, rel: Path)
    requires rel in HeadTree(s)
    ensures StaleConflicts(s, to, looked + {rel}) == StaleConflicts(s, to, looked) +
      if rel !in to && HashAt(s.shared, rel).Some? && HashAt(s.shared, rel) != Some(HeadTree(s)[rel]) then {rel} else {}
  {
    hide HeadTree;
  }

  lemma OneMoreWrite(s: Repo, to: Tree, looked: set<Path>, rel: Path)
    requires rel in to
    ensures WriteConflicts(s, to, looked + {rel}) == WriteConflicts(s, to, looked) +
      if HashAt(s.shared, rel) != Get(HeadTree(s), rel) then {rel} else {}
  {
    hide HeadTree, HashAt, Get;
  }

  lemma NoneOutside(s: Repo, target: Option<nat>)
    ensures !s.external ==> OutsideConflicts(s, target) == {}
  {
  }

  lemma AllConflicts(s: Repo, target: Option<nat>)
    requires s.external
    ensures var to := TreeAt(s.commits, target);
      OutsideConflicts(s, target) == StaleConflicts(s, to, HeadTree(s).Keys) + WriteConflicts(s, to, to.Keys)
  {
    hide HeadTree, TreeAt, HashAt, Get;
  }

  lemma IdleIsInv(s: Repo)
    requires Idle(s)
    ensures Inv(s) && Recovered(s) == s && s.pending.None?
  {
  }

  lemma RewindTargetStored(s: Repo, keepByAgent: map<Agent, nat>, target: Option<nat>)
    requires IsRewindTarget(s, keepByAgent, target)
    ensures Stored(s, target)
  {
  }

  lemma RewindEffect(s: Repo, keepByAgent: map<Agent, nat>, target: Option<nat>)
    requires IsRewindTarget(s, keepByAgent, target) && Stored(s, target) && OutsideConflicts(s, target) == {}
    ensures RewindStep(s, keepByAgent, Moved(s, target))
  {
  }

  function Deletions(paths: seq<Path>): Locals {
    map d | d in paths :: None
  }

  lemma NoDeletions(files: Locals)
    ensures files + Deletions([]) == files
  {
  }

  lemma OneMoreDeletion(files: Locals, paths: seq<Path>, rel: Path)
    ensures rel in files + Deletions(paths) <==> rel in files || rel in paths
    ensures files + Deletions(paths + [rel]) == (files + Deletions(paths))[rel := None]
  {
  }

  lemma AgentLands(s: Repo, call: Call, agent: Agent, changes: Changes, line: nat, note: Note)
    requires agent in s.sandbox && agent in s.indexes
    requires call.WorkCommit? && call.agent == agent && call.line == line && note == Trimmed(call.note)
    requires changes == PlannedChanges(s.indexes[agent], HeadTree(s), CommitLocals(s, agent, call.paths, call.deletes))
    requires changes != map[] && (s.external ==> UntouchedOutside(s, CommitLocals(s, agent, call.paths, call.deletes)))
    requires PlannedConflicts(s.indexes[agent], HeadTree(s), CommitLocals(s, agent, call.paths, call.deletes)) == map[]
    ensures var c := NewCommit(s, agent, note, changes, Some(Anchor(agent, line)));
      var index := Some(PendingIndex(agent, ApplyTree(s.indexes[agent], changes)));
      && IndexFits(s, c, index)
      && forall t | CommitLands(s, c, index, t) :: Effect(s, call, t)
  {
    hide CommitLands, PlannedChanges, PlannedConflicts, CommitLocals, UntouchedOutside, ApplyTree, FreshId, HeadTree;
  }

  lemma SyncLands(s: Repo, paths: seq<Path>, time: int)
    requires SyncChanges(s, paths) != map[]
    ensures var note := SyncNote(time, |SyncChanges(s, paths)|);
      forall t | CommitLands(s, NewCommit(s, "external", note, SyncChanges(s, paths), None), None, t) ::
        Effect(s, WorkSync(paths, time), t)
  {
    hide CommitLands, SyncChanges, NewCommit, SyncNote;
  }

  lemma UserLands(s: Repo, path: Path, bytes: Bytes, time: int, line: nat, changes: Changes)
    requires changes == map[path := if path in HeadTree(s) then Modify(ContentHash(bytes)) else Add(ContentHash(bytes))]
    ensures forall t |
      CommitLands(s, NewCommit(s, "user", UserNote(time, path), changes, Some(Anchor("", line))), None, t) ::
        Effect(s, WorkCommitUser(path, bytes, time, line), t)
  {
    hide CommitLands, NewCommit, UserNote;
  }

  lemma TakesFresh(s: Repo, n: nat)
    requires Idle(s) && TakesId(s.nextId, s.commits.Keys, n)
    ensures n == FreshId(s)
  {
  }

  lemma IdleObjects(s: Repo)
    requires Idle(s)
    ensures ObjectsOk(s.objects)
  {
  }

  /** Recovery never adds or drops an agent. */
  lemma IdleAgents(start: Repo, s: Repo, agent: Agent)
    requires Inv(start) && s == Recovered(start) && agent in start.sandbox
    ensures agent in s.sandbox && agent in s.indexes && agent in s.lost
  {
    hide Ready, HistoryOk, IdsBelow, ObjectsOk, Closed, Recovered;
    RecoveryFrame(start);
  }

  /** Every added or modified file of a plan is in the sandbox with the planned content. */
  lemma LocalsHaveContent(s: Repo, agent: Agent, paths: seq<Path>, deletes: seq<Path>, limit: nat)
    requires agent in s.sandbox && agent in s.indexes && !TooLargeListed(s.sandbox[agent], paths, limit)
    ensures var changes := PlannedChanges(s.indexes[agent], HeadTree(s), CommitLocals(s, agent, paths, deletes));
      forall p | p in changes && !changes[p].Delete? ::
        && p in s.sandbox[agent] && ContentHash(s.sandbox[agent][p]) == changes[p].hash
        && |s.sandbox[agent][p]| <= limit
  {
  }

  lemma LandedHead(s: Repo, c: WorkTree.Commit, index: Option<PendingIndex>, t: Repo)
    requires CommitLands(s, c, index, t)
    ensures t.head == Some(c.id)
  {
  }

  lemma PullNothing(s: Repo, agent: Agent)
    requires agent in s.sandbox && agent in s.indexes
    ensures PulledBox(s, agent, {}) == s.sandbox[agent]
    ensures PulledIndex(s, agent, {}) == s.indexes[agent]
    ensures s.sandbox[agent := PulledBox(s, agent, {})] == s.sandbox
    ensures s.indexes[agent := PulledIndex(s, agent, {})] == s.indexes
  {
    assert Updating(s, agent, {}) == {} && Adopting(s, agent, {}) == {};
    OverlayNone(s.sandbox[agent], Contents(HeadTree(s)));
    OverlayNone(s.indexes[agent], HeadTree(s));
  }

  lemma OverlayNone<V>(m: map<Path, V>, from: map<Path, V>)
    ensures Overlay(m, from, {}) == m
  {
  }

  lemma OverlayMore<V>(m: map<Path, V>, from: map<Path, V>, at: set<Path>, p: Path)
    ensures Overlay(m, from, at + {p}) ==
      if p in from then Overlay(m, from, at)[p := from[p]] else Overlay(m, from, at) - {p}
    ensures p !in at ==> Get(Overlay(m, from, at), p) == Get(m, p)
  {
  }

  /** What one more file adds to a pull. */
  lemma OneMoreVerdict(s: Repo, agent: Agent, seen: set<Path>, rel: Path)
    requires agent in s.sandbox && agent in s.indexes && rel !in seen
    ensures var verdict := PullVerdictAt(s, agent, rel);
      && Updating(s, agent, seen + {rel}) == Updating(s, agent, seen) + (if verdict == Update then {rel} else {})
      && Adopting(s, agent, seen + {rel}) ==
         Adopting(s, agent, seen) + (if verdict in {Update, AlreadySame} then {rel} else {})
  {
    hide PullVerdictAt;
  }

  /** How far a pull has come: the files of `seen` are done and reported. */
  ghost predicate PullSoFar(s: Repo, agent: Agent, seen: set<Path>, boxes: map<Agent, Files>, index: Tree,
                            outcomes: map<Path, PullOutcome>)
  {
    && agent in s.sandbox && agent in s.indexes
    && boxes == s.sandbox[agent := PulledBox(s, agent, seen)]
    && index == PulledIndex(s, agent, seen)
    && outcomes == PullOutcomes(s, agent, seen)
  }

  lemma PullStarts(s: Repo, agent: Agent)
    requires agent in s.sandbox && agent in s.indexes
    ensures PullSoFar(s, agent, {}, s.sandbox, s.indexes[agent], map[])
  {
    PullNothing(s, agent);
  }

  lemma PullEnds(s: Repo, agent: Agent, seen: set<Path>, boxes: map<Agent, Files>, index: Tree,
                 outcomes: map<Path, PullOutcome>)
    requires PullSoFar(s, agent, seen, boxes, index, outcomes)
    ensures agent in s.sandbox && agent in s.indexes && agent in boxes
    ensures boxes == s.sandbox[agent := PulledBox(s, agent, seen)]
    ensures index == PulledIndex(s, agent, seen)
    ensures outcomes == PullOutcomes(s, agent, seen) && outcomes.Keys == seen
  {
  }

  /** What a pull does about one more file, and what it reports. */
  lemma OneMoreOutcome(s: Repo, agent: Agent, seen: set<Path>, rel: Path)
    requires agent in s.sandbox && agent in s.indexes && rel in HeadTree(s)
    ensures PullOutcomes(s, agent, seen + {rel}) == PullOutcomes(s, agent, seen)[rel := PullOutcomeAt(s, agent, rel)]
    ensures var o, verdict := PullOutcomeAt(s, agent, rel), PullVerdictAt(s, agent, rel);
      (o == Updated <==> verdict == Update) && (o == Already <==> verdict == AlreadySame)
  {
    hide JudgePull, HashAt;
  }

  lemma OneMoreCopied(s: Repo, agent: Agent, seen: set<Path>, rel: Path)
    requires agent in s.sandbox && agent in s.indexes && rel in HeadTree(s) && rel !in seen
    ensures var hash, verdict := HeadTree(s)[rel], PullVerdictAt(s, agent, rel);
      && Get(PulledIndex(s, agent, seen), rel) == Get(s.indexes[agent], rel)
      && HashAt(PulledBox(s, agent, seen), rel) == HashAt(s.sandbox[agent], rel)
      && PulledBox(s, agent, seen + {rel}) ==
         (if verdict == Update then PulledBox(s, agent, seen)[rel := hash.content] else PulledBox(s, agent, seen))
      && PulledIndex(s, agent, seen + {rel}) ==
         (if verdict in {Update, AlreadySame} then PulledIndex(s, agent, seen)[rel := hash]
          else PulledIndex(s, agent, seen))
  {
    hide PullVerdictAt, Overlay;
    ContentsFacts(HeadTree(s));
    OneMoreVerdict(s, agent, seen, rel);
    assert Updating(s, agent, seen) + {} == Updating(s, agent, seen);
    assert Adopting(s, agent, seen) + {} == Adopting(s, agent, seen);
    OverlayMore(s.sandbox[agent], Contents(HeadTree(s)), Updating(s, agent, seen), rel);
    OverlayMore(s.indexes[agent], HeadTree(s), Adopting(s, agent, seen), rel);
  }

  lemma PullOneMore(s: Repo, agent: Agent, seen: set<Path>, boxes: map<Agent, Files>, index: Tree,
                    outcomes: map<Path, PullOutcome>, rel: Path)
    requires Idle(s) && PullSoFar(s, agent, seen, boxes, index, outcomes) && rel in HeadTree(s) && rel !in seen
    ensures agent in boxes
    ensures var hash := HeadTree(s)[rel];
      var o := FileOutcome(Shown(s.external, s.shared, rel), Some(hash), Get(index, rel), HashAt(boxes[agent], rel));
      && Object(hash) in s.objects && s.objects[Object(hash)] == hash.content
      && PullSoFar(s, agent, seen + {rel},
                   if o == Updated then boxes[agent := boxes[agent][rel := hash.content]] else boxes,
                   if o in {Updated, Already} then index[rel := hash] else index, outcomes[rel := o])
  {
    hide PulledBox, PulledIndex, PullOutcomes, PullVerdictAt, FileOutcome, Consistent, HashAt;
    IdleIsInv(s);
    ObjectAt(s, s.head, rel);
    OneMoreOutcome(s, agent, seen, rel);
    OneMoreCopied(s, agent, seen, rel);
  }

  /** A pull answers the call wherever it stops. */
  lemma PullAnswers(start: Repo, call: Call, s: Repo, copied: set<Path>, noted: set<Path>, u: Repo)
    requires Inv(start) && s == Recovered(start) && Idle(s) && call.WorkPull?
    requires call.agent in s.sandbox && call.agent in s.indexes
    requires noted <= copied <= PullWant(s, call.paths)
    requires var agent := call.agent;
      u == s.(sandbox := s.sandbox[agent := PulledBox(s, agent, copied)],
              indexes := s.indexes[agent := PulledIndex(s, agent, noted)])
    ensures Answers(start, call, u, true, false) && Answers(start, call, u, false, true)
  {
    assert PulledSome(s, call.agent, PullWant(s, call.paths), copied, noted, u);
    assert PullStep(s, call.agent, call.paths, u);
    StepKeepsIdle(s, call, u);
    IdleIsInv(u);
  }

  lemma NoOverlay(s: Repo, agent: Agent)
    requires agent in s.sandbox && agent in s.indexes
    ensures s.sandbox[agent := Overlay(s.sandbox[agent], Contents(HeadTree(s)), {})] == s.sandbox
    ensures s.indexes[agent := Overlay(s.indexes[agent], HeadTree(s), {})] == s.indexes
  {
    OverlayNone(s.sandbox[agent], Contents(HeadTree(s)));
    OverlayNone(s.indexes[agent], HeadTree(s));
  }

  lemma ExpandedWithin(paths: seq<Path>, available: set<Path>)
    ensures Expanded(paths, available) <= available
  {
  }

  lemma LocalsRefusals(s: Repo, limit: nat, agent: Agent, paths: seq<Path>, deletes: seq<Path>)
    requires agent in s.sandbox && agent in s.indexes
    ensures var box := s.sandbox[agent];
      && (RefusesLocals(s, limit, agent, paths, deletes, PathsMissing) <==> !AllFound(paths, box.Keys))
      && (RefusesLocals(s, limit, agent, paths, deletes, TooLarge) <==>
            exists p :: p in Expanded(paths, box.Keys) && p in box && |box[p]| > limit)
      && (RefusesLocals(s, limit, agent, paths, deletes, BadPath) <==> !AllClean(deletes))
      && (RefusesLocals(s, limit, agent, paths, deletes, ListedTwice) <==>
            !Distinct(deletes) || exists d :: d in deletes && d in Expanded(paths, box.Keys))
      && (RefusesLocals(s, limit, agent, paths, deletes, NothingListed) <==>
            CommitLocals(s, agent, paths, deletes) == map[])
    ensures (forall d | d in deletes :: d !in Expanded(paths, s.sandbox[agent].Keys)) ==>
      CommitLocals(s, agent, paths, deletes) ==
      (map p | p in Expanded(paths, s.sandbox[agent].Keys) :: HashAt(s.sandbox[agent], p)) + Deletions(deletes)
  {
    hide UntouchedOutside, PlannedConflicts, PlannedChanges, AllClean, Distinct, AllFound;
    ExpandedWithin(paths, s.sandbox[agent].Keys);
  }

  lemma CommitRefusals(s: Repo, limit: nat, agent: Agent, paths: seq<Path>, deletes: seq<Path>, note: Note)
    ensures RefusesCommit(s, limit, agent, paths, deletes, note, EmptyMessage) <==> Texts.Trim(note.message) == ""
    ensures !AllClean(paths) ==> RefusesCommit(s, limit, agent, paths, deletes, note, BadPath)
    ensures RefusesCommit(s, limit, agent, paths, deletes, note, UnknownAgent) <==> agent !in s.sandbox
    ensures agent in s.sandbox && agent in s.indexes ==>
      (forall why | RefusesLocals(s, limit, agent, paths, deletes, why) ::
         RefusesCommit(s, limit, agent, paths, deletes, note, why))
    ensures agent in s.sandbox && agent in s.indexes && AllClean(paths) && Texts.Trim(note.message) != "" ==>
      (forall why | RefusesCommit(s, limit, agent, paths, deletes, note, why) ::
         RefusesLocals(s, limit, agent, paths, deletes, why))
  {
    hide RefusesLocals;
    LocalReasons(s, limit, agent, paths, deletes);
  }

  lemma LocalReasons(s: Repo, limit: nat, agent: Agent, paths: seq<Path>, deletes: seq<Path>)
    ensures agent in s.sandbox && agent in s.indexes ==>
      var locals := CommitLocals(s, agent, paths, deletes);
      && (RefusesLocals(s, limit, agent, paths, deletes, ChangedOutside) <==>
            s.external && !UntouchedOutside(s, locals))
      && (RefusesLocals(s, limit, agent, paths, deletes, Conflicts) <==>
            PlannedConflicts(s.indexes[agent], HeadTree(s), locals) != map[])
      && (RefusesLocals(s, limit, agent, paths, deletes, NothingChanged) <==>
            PlannedChanges(s.indexes[agent], HeadTree(s), locals) == map[])
      && (RefusesLocals(s, limit, agent, paths, deletes, TooLarge) <==>
            TooLargeListed(s.sandbox[agent], paths, limit))
      && !RefusesLocals(s, limit, agent, paths, deletes, UnknownAgent)
      && !RefusesLocals(s, limit, agent, paths, deletes, EmptyMessage)
      && forall why | RefusesLocals(s, limit, agent, paths, deletes, why) ::
           why in {PathsMissing, TooLarge, BadPath, ListedTwice, NothingListed,
                   ChangedOutside, Conflicts, NothingChanged}
  {
    hide CommitLocals, UntouchedOutside, PlannedConflicts, PlannedChanges, TooLargeListed, ListsTwice,
         AllFound, AllClean;
  }

  lemma ResolveRefusals(s: Repo, agent: Agent, paths: seq<Path>, take: Take, expectHead: Option<nat>)
    ensures paths == [] <==> RefusesResolve(s, agent, paths, take, expectHead, NoPaths)
    ensures !AllClean(paths) || !OneComponent(agent) <==> RefusesResolve(s, agent, paths, take, expectHead, BadPath)
    ensures agent !in s.sandbox <==> RefusesResolve(s, agent, paths, take, expectHead, UnknownAgent)
    ensures agent in s.sandbox && agent in s.indexes ==>
      && (RefusesResolve(s, agent, paths, take, expectHead, PathsMissing) <==> ResolveWant(s, agent, paths) == {})
      && (RefusesResolve(s, agent, paths, take, expectHead, LocalUnchanged) <==>
            take.Local? && KeepsUnmerged(s, agent, ResolveWant(s, agent, paths)))
    ensures take.Local? && s.head.Some? && expectHead != s.head <==>
      RefusesResolve(s, agent, paths, take, expectHead, if expectHead.Some? then HeadMoved else HeadRequired)
    ensures !RefusesResolve(s, agent, paths, take, expectHead, if expectHead.Some? then HeadRequired else HeadMoved)
    ensures forall why | RefusesResolve(s, agent, paths, take, expectHead, why) ::
      why in {NoPaths, BadPath, UnknownAgent, PathsMissing, HeadMoved, HeadRequired, LocalUnchanged}
  {
  }

  lemma ResolveMayGo(s: Repo, agent: Agent, want: set<Path>, take: Take, expectHead: Option<nat>)
    requires agent in s.sandbox && agent in s.indexes
    requires take.Local? ==> (s.head.Some? ==> expectHead == s.head) && !KeepsUnmerged(s, agent, want)
    ensures ResolveAllowed(s, agent, want, take, expectHead)
  {
  }

  /** The sandbox file brought to a version, None for no file. */
  function WithVersion(box: Files, rel: Path, hash: Option<Hash>): Files {
    if hash.Some? then box[rel := hash.value.content] else box - {rel}
  }

  /** The baseline entry set to a version, None for no entry. */
  function WithEntry(index: Tree, rel: Path, hash: Option<Hash>): Tree {
    if hash.Some? then index[rel := hash.value] else index - {rel}
  }

  lemma SameEntryKept(index: Tree, rel: Path, hash: Option<Hash>)
    ensures Get(index, rel) == hash ==> WithEntry(index, rel, hash) == index
  {
  }

  lemma ActionIs(take: Take, base: Option<Hash>, head: Option<Hash>, local: Option<Hash>)
    ensures take.Upstream? && head.Some? && local != head ==> ActionOf(take, base, head, local) == WroteUpstream
    ensures take.Upstream? && head.None? && local.Some? ==> ActionOf(take, base, head, local) == RemovedLocal
    ensures take.Local? || local == head ==>
      ActionOf(take, base, head, local) ==
        if base == head then NothingToDo else if head.Some? then Marked else Cleared
  {
  }

  /** The files a resolve overwrites among those it has done. */
  ghost function Taken(take: Take, done: set<Path>): set<Path> {
    if take.Upstream? then done else {}
  }

  /** How far a resolve has come: the files of `done` are on the chosen side. */
  ghost predicate TakeSoFar(s: Repo, agent: Agent, take: Take, done: set<Path>, boxes: map<Agent, Files>, index: Tree,
                            entries: map<Path, ResolveEntry>)
  {
    && agent in s.sandbox && agent in s.indexes
    && boxes == s.sandbox[agent := Overlay(s.sandbox[agent], Contents(HeadTree(s)), Taken(take, done))]
    && index == Overlay(s.indexes[agent], HeadTree(s), done)
    && entries == Entries(s, agent, take, done)
  }

  lemma TakeStarts(s: Repo, agent: Agent, take: Take)
    requires agent in s.sandbox && agent in s.indexes
    ensures TakeSoFar(s, agent, take, {}, s.sandbox, s.indexes[agent], map[])
  {
    OverlayNone(s.sandbox[agent], Contents(HeadTree(s)));
    OverlayNone(s.indexes[agent], HeadTree(s));
  }

  lemma TakeStands(s: Repo, agent: Agent, take: Take, done: set<Path>, boxes: map<Agent, Files>, index: Tree,
                   entries: map<Path, ResolveEntry>)
    requires TakeSoFar(s, agent, take, done, boxes, index, entries)
    ensures agent in s.sandbox && agent in s.indexes && agent in boxes
    ensures boxes == s.sandbox[agent := Overlay(s.sandbox[agent], Contents(HeadTree(s)), Taken(take, done))]
    ensures index == Overlay(s.indexes[agent], HeadTree(s), done)
    ensures entries == Entries(s, agent, take, done)
  {
  }

  lemma OneMoreTaken(s: Repo, agent: Agent, take: Take, done: set<Path>, rel: Path)
    requires Idle(s) && agent in s.sandbox && agent in s.indexes && rel !in done
    ensures var head, taken := Get(HeadTree(s), rel), if take.Upstream? then done else {};
      var box := Overlay(s.sandbox[agent], Contents(HeadTree(s)), taken);
      && (head.Some? ==> Object(head.value) in s.objects && s.objects[Object(head.value)] == head.value.content)
      && HashAt(box, rel) == HashAt(s.sandbox[agent], rel)
      && (take.Upstream? ==>
            Overlay(s.sandbox[agent], Contents(HeadTree(s)), taken + {rel}) == WithVersion(box, rel, head))
  {
    hide Overlay, Consistent;
    IdleIsInv(s);
    OverlayMore(s.sandbox[agent], Contents(HeadTree(s)), if take.Upstream? then done else {}, rel);
    ContentsFacts(HeadTree(s));
    if rel in HeadTree(s) {
      ObjectAt(s, s.head, rel);
    }
  }

  lemma OneMoreMarked(s: Repo, agent: Agent, done: set<Path>, rel: Path)
    requires agent in s.indexes && rel !in done
    ensures var head, index := Get(HeadTree(s), rel), Overlay(s.indexes[agent], HeadTree(s), done);
      && Get(index, rel) == Get(s.indexes[agent], rel)
      && Overlay(s.indexes[agent], HeadTree(s), done + {rel}) == WithEntry(index, rel, head)
  {
    hide Overlay;
    OverlayMore(s.indexes[agent], HeadTree(s), done, rel);
  }

  /** What a resolve does about one more file, and what it reports. */
  lemma TakeOneMore(s: Repo, agent: Agent, take: Take, done: set<Path>, boxes: map<Agent, Files>, index: Tree,
                    entries: map<Path, ResolveEntry>, rel: Path)
    requires Idle(s) && TakeSoFar(s, agent, take, done, boxes, index, entries) && rel !in done
    ensures agent in s.sandbox && agent in s.indexes && agent in boxes
    ensures var head, base, local := Get(HeadTree(s), rel), Get(index, rel), HashAt(boxes[agent], rel);
      && (head.Some? ==> Object(head.value) in s.objects && s.objects[Object(head.value)] == head.value.content)
      && base == Get(s.indexes[agent], rel)
      && EntryAt(s, agent, take, rel) ==
         ResolveEntry(ActionOf(take, base, head, local),
                      if take.Upstream? && NeedsBackup(head, local) then Some(LostRel(agent, rel)) else None)
      && TakeSoFar(s, agent, take, done + {rel},
                   if take.Upstream? then boxes[agent := WithVersion(boxes[agent], rel, head)] else boxes,
                   WithEntry(index, rel, head), entries[rel := EntryAt(s, agent, take, rel)])
  {
    hide Overlay, Consistent, Entries, WithVersion, WithEntry, ActionOf, NeedsBackup, Get, HashAt;
    OneMoreTaken(s, agent, take, done, rel);
    OneMoreMarked(s, agent, done, rel);
    OneMoreEntry(s, agent, take, done, rel);
  }

  ghost function Denied(s: Repo, agent: Agent, take: Take, seen: set<Path>): set<Path>
    requires agent in s.sandbox && agent in s.indexes
  {
    set p | p in seen && take.Local? && LocalTakeAt(s, agent, p) == DenyUnchanged
  }

  lemma NoWarnings(s: Repo, agent: Agent, take: Take)
    requires agent in s.sandbox && agent in s.indexes
    ensures forall none: set<Path> | none == {} ::
      Denied(s, agent, take, none) == {} && Warnings(s, agent, take, none) == map[]
  {
  }

  lemma OneMoreWarning(s: Repo, agent: Agent, take: Take, seen: set<Path>, rel: Path)
    requires agent in s.sandbox && agent in s.indexes
    ensures var verdict := JudgeLocalTake(Get(s.indexes[agent], rel), Get(HeadTree(s), rel),
      HashAt(s.sandbox[agent], rel));
      && Denied(s, agent, take, seen + {rel}) ==
         (if take.Local? && verdict == DenyUnchanged then Denied(s, agent, take, seen) + {rel}
          else Denied(s, agent, take, seen))
      && (take.Local? && verdict in {WarnLocalMissing, WarnNoBase} ==>
            Warnings(s, agent, take, seen + {rel}) == Warnings(s, agent, take, seen)[rel := verdict])
      && (take.Upstream? || (verdict in {Accept, DenyUnchanged} && rel !in seen) ==>
            Warnings(s, agent, take, seen + {rel}) == Warnings(s, agent, take, seen))
  {
    hide JudgeLocalTake, HashAt, Get;
  }

  lemma DeniedIsOutdated(s: Repo, agent: Agent, p: Path)
    requires agent in s.sandbox && agent in s.indexes
    ensures LocalTakeAt(s, agent, p) == DenyUnchanged <==> Outdated(s, agent, p)
  {
  }

  lemma DeniedKeepsUnmerged(s: Repo, agent: Agent, take: Take, want: set<Path>)
    requires agent in s.sandbox && agent in s.indexes
    ensures Denied(s, agent, take, want) == {} <==> take.Upstream? || !KeepsUnmerged(s, agent, want)
  {
    hide Outdated, LocalTakeAt;
    forall p {
      DeniedIsOutdated(s, agent, p);
    }
    if take.Local? && KeepsUnmerged(s, agent, want) {
      var p :| p in want && Outdated(s, agent, p);
      assert p in Denied(s, agent, take, want);
    }
  }

  lemma OneMoreEntry(s: Repo, agent: Agent, take: Take, done: set<Path>, rel: Path)
    requires agent in s.sandbox && agent in s.indexes
    ensures Entries(s, agent, take, done + {rel}) == Entries(s, agent, take, done)[rel := EntryAt(s, agent, take, rel)]
  {
    hide EntryAt;
  }

  /** A resolve answers the call wherever it stops. */
  lemma ResolveAnswers(start: Repo, call: Call, s: Repo, want: set<Path>,
                       saved: set<Path>, taken: set<Path>, marked: bool, u: Repo)
    requires Inv(start) && s == Recovered(start) && Idle(s) && call.WorkResolve?
    requires call.agent in s.sandbox && call.agent in s.indexes && call.agent in s.lost
    requires want == ResolveWant(s, call.agent, call.paths)
    requires ResolveAllowed(s, call.agent, want, call.take, call.expectHead)
    requires saved <= AtRisk(s, call.agent, want) && taken <= want
    requires call.take.Local? ==> saved == {} && taken == {}
    requires taken != {} || (marked && call.take.Upstream?) ==> saved == AtRisk(s, call.agent, want)
    requires marked && call.take.Upstream? ==> taken == want
    requires var agent := call.agent;
      u == s.(lost := s.lost[agent := Overlay(s.lost[agent], s.sandbox[agent], saved)],
              sandbox := s.sandbox[agent := Overlay(s.sandbox[agent], Contents(HeadTree(s)), taken)],
              indexes := s.indexes[agent := Overlay(s.indexes[agent], HeadTree(s), if marked then want else {})])
    ensures ResolvedSome(s, call.agent, want, call.take, saved, taken, marked, u)
    ensures Answers(start, call, u, true, false) && Answers(start, call, u, false, true)
  {
    assert ResolvedSome(s, call.agent, want, call.take, saved, taken, marked, u);
    assert ResolveStep(s, call.agent, call.paths, call.take, call.expectHead, u);
    StepKeepsIdle(s, call, u);
    IdleIsInv(u);
  }

  lemma RestoreLostRefusals(s: Repo, agent: Agent, path: Path, expectCurrent: Option<Hash>)
    ensures RefusesRestoreLost(s, agent, path, expectCurrent, BadPath) <==> !IsClean(path) || !OneComponent(agent)
    ensures RefusesRestoreLost(s, agent, path, expectCurrent, UnknownAgent) <==> agent !in s.sandbox
    ensures agent in s.lost ==>
      (RefusesRestoreLost(s, agent, path, expectCurrent, NoBackup) <==> path !in s.lost[agent])
    ensures agent in s.sandbox ==>
      (RefusesRestoreLost(s, agent, path, expectCurrent, NotAsExpected) <==>
         HashAt(s.sandbox[agent], path) != expectCurrent)
    ensures forall why | RefusesRestoreLost(s, agent, path, expectCurrent, why) ::
      why in {BadPath, UnknownAgent, NoBackup, NotAsExpected}
  {
  }

  lemma RestoreLostAnswers(start: Repo, s: Repo, agent: Agent, path: Path, expectCurrent: Option<Hash>)
    requires Inv(start) && s == Recovered(start) && Idle(s)
    requires agent in s.sandbox && agent in s.lost && path in s.lost[agent]
    requires HashAt(s.sandbox[agent], path) == expectCurrent
    ensures var after := s.(sandbox := s.sandbox[agent := s.sandbox[agent][path := s.lost[agent][path]]]);
      && Answers(start, WorkRestoreLost(agent, path, expectCurrent), after, true, false)
      && Answers(start, WorkRestoreLost(agent, path, expectCurrent), after, false, true)
  {
    hide Consistent, Inv, Recovered, Answers, HashAt;
    var after := s.(sandbox := s.sandbox[agent := s.sandbox[agent][path := s.lost[agent][path]]]);
    FilesKeep(s, after);
    EffectAnswers(start, WorkRestoreLost(agent, path, expectCurrent), after);
  }

  /** The whole effect, reached at once or not at all. */
  lemma EffectAnswers(start: Repo, call: Call, u: Repo)
    requires Inv(start) && Idle(u) && Effect(Recovered(start), call, u)
    ensures Answers(start, call, u, true, false) && Answers(start, call, u, false, true)
  {
    IdleIsInv(u);
  }

  lemma IdleHead(s: Repo)
    requires Idle(s)
    ensures Stored(s, s.head) && ChainOk(s.commits, s.head)
  {
    HistoryChainOk(s.commits, s.head);
  }

  lemma SpareSelf(s: Repo)
    requires Idle(s)
    ensures Spare(s, s)
  {
  }

  lemma MovedHere(files: Files, from: Tree, to: Tree)
    ensures Brought(Brought(files, from, to), to, to) == Brought(files, from, to)
  {
    BroughtTwice(files, from, to);
    BroughtSettles(Brought(files, from, to), from, to);
  }

  /** A discard leaves the tree of the commit it keeps. */
  lemma DiscardKeepsHeadTree(s: Repo, t: Repo)
    requires t == s.(commits := t.commits) && ChainOk(s.commits, s.head)
    requires t.commits == Keep(s.commits, Ancestors(s.commits, s.head))
    ensures HeadTree(t) == HeadTree(s)
  {
    if s.head.Some? {
      assert s.head.value in Ancestors(s.commits, s.head);
    }
  }

  /** A list of all elements of a set, each once, is as long as the set is large. */
  lemma {:induction false} AllCounted(ids: seq<nat>, all: set<nat>)
    requires CommitLog.Ascending(ids) && forall id :: id in ids <==> id in all
    ensures |ids| == |all|
  {
    if ids == [] {
      assert all == {};
    } else {
      var n := |ids| - 1;
      assert forall id :: id in ids[..n] <==> id in all - {ids[n]};
      AllCounted(ids[..n], all - {ids[n]});
    }
  }

  method Least(ids: set<nat>) returns (least: nat)
    requires ids != {}
    ensures least in ids && forall id | id in ids :: least <= id
  {
    least :| least in ids;
    var rest := ids - {least};
    while rest != {}
      invariant rest <= ids && least in ids
      invariant forall id | id in ids && id !in rest :: least <= id
    {
      var id :| id in rest;
      if id < least {
        least := id;
      }
      rest := rest - {id};
    }
  }

  class Service {
    const external: bool
    const maxAssetBytes: nat

    var objects: map<ObjName, Bytes>
    var commits: Commits
    var head: Option<nat>
    var indexes: map<Agent, Tree>
    var nextId: Option<nat>
    var pending: Option<Pending>
    var shared: Files
    var sandbox: map<Agent, Files>
    var lost: map<Agent, Files>

    ghost function State(): Repo
      reads this
    {
      Repo(external, objects, commits, head, indexes, nextId, pending, shared, sandbox, lost)
    }

    // ---------- ports ----------

    /** How one port call ends, and whether its write took effect. */
    method Fate() returns (r: Result<()>, done: bool)
      ensures r.Ok? ==> done
      ensures r.Err? ==> r.Interrupted()
    {
      if * {
        return Ok(()), true;
      } else if * {
        r := Err(Crash);
      } else {
        r := Err(PortFailure);
      }
      if * {
        done := true;
      } else {
        done := false;
      }
    }

    /** A port call that only reads. */
    method Reading() returns (r: Result<()>)
      ensures r.Err? ==> r.Interrupted()
    {
      var done;
      r, done := Fate();
    }

    method RemoveShared(rel: Path) returns (r: Result<()>)
      modifies this`shared
      ensures Written(old(State()), old(State()).(shared := old(shared) - {rel}), State(), r)
    {
      var done;
      r, done := Fate();
      if done {
        shared := shared - {rel};
      }
    }

    method CopyObjectToShared(hash: Hash, rel: Path) returns (r: Result<()>)
      modifies this`shared
      ensures Object(hash) !in objects ==> r == Err(MissingObject) && shared == old(shared)
      ensures Object(hash) in objects ==>
        Written(old(State()), old(State()).(shared := old(shared)[rel := objects[Object(hash)]]), State(), r)
    {
      if Object(hash) !in objects {
        return Err(MissingObject);
      }
      var done;
      r, done := Fate();
      if done {
        shared := shared[rel := objects[Object(hash)]];
      }
    }

    method ReadObject(hash: Hash) returns (r: Result<Bytes>)
      ensures Object(hash) !in objects ==> r == Err(MissingObject)
      ensures Object(hash) in objects ==> r == Ok(objects[Object(hash)]) || r.Interrupted()
    {
      if Object(hash) !in objects {
        return Err(MissingObject);
      }
      var _ :- Reading();
      return Ok(objects[Object(hash)]);
    }

    /** Writes a file in place: when the write breaks off, the file may hold anything. */
    method WriteWork(rel: Path, bytes: Bytes) returns (r: Result<()>)
      modifies this`shared
      ensures r.Ok? ==> shared == old(shared)[rel := bytes]
      ensures r.Err? ==> r.Interrupted()
      ensures OnlyWithin(old(shared), shared, {rel}) && (rel in old(shared) ==> rel in shared)
    {
      var done;
      r, done := Fate();
      if done {
        var torn: Bytes := *;
        shared := shared[rel := if r.Ok? then bytes else torn];
      }
    }

    method SetHead(target: Option<nat>) returns (r: Result<()>)
      modifies this`head
      ensures Written(old(State()), old(State()).(head := target), State(), r)
    {
      var done;
      r, done := Fate();
      if done {
        head := target;
      }
    }

    method WriteCommit(c: Commit) returns (r: Result<()>)
      modifies this`commits
      ensures Written(old(State()), old(State()).(commits := old(commits)[c.id := c]), State(), r)
    {
      var done;
      r, done := Fate();
      if done {
        commits := commits[c.id := c];
      }
    }

    method RemoveCommit(id: nat) returns (r: Result<()>)
      modifies this`commits
      ensures Written(old(State()), old(State()).(commits := old(commits) - {id}), State(), r)
    {
      var done;
      r, done := Fate();
      if done {
        commits := commits - {id};
      }
    }

    method WriteIndex(agent: Agent, index: Tree) returns (r: Result<()>)
      modifies this`indexes
      ensures Written(old(State()), old(State()).(indexes := old(indexes)[agent := index]), State(), r)
    {
      var done;
      r, done := Fate();
      if done {
        indexes := indexes[agent := index];
      }
    }

    method WritePending(entry: Pending) returns (r: Result<()>)
      modifies this`pending
      ensures Written(old(State()), old(State()).(pending := Some(entry)), State(), r)
    {
      var done;
      r, done := Fate();
      if done {
        pending := Some(entry);
      }
    }

    method WriteNextId(id: nat) returns (r: Result<()>)
      modifies this`nextId
      ensures Written(old(State()), old(State()).(nextId := Some(id)), State(), r)
    {
      var done;
      r, done := Fate();
      if done {
        nextId := Some(id);
      }
    }

    /** The stored commit ids, oldest first. */
    method ListCommits() returns (r: Result<seq<nat>>)
      ensures r.Ok? ==> CommitLog.Ascending(r.value) && forall id :: id in r.value <==> id in commits
      ensures r.Err? ==> r.Interrupted()
    {
      var _ :- Reading();
      var ids: seq<nat> := [];
      var rest := commits.Keys;
      while rest != {}
        invariant rest <= commits.Keys
        invariant forall id | id in commits && id !in rest :: id in ids
        invariant forall i | 0 <= i < |ids| :: ids[i] in commits && ids[i] !in rest
        invariant forall i, id | 0 <= i < |ids| && id in rest :: ids[i] < id
        invariant CommitLog.Ascending(ids)
      {
        var least := Least(rest);
        ids := ids + [least];
        rest := rest - {least};
      }
      return Ok(ids);
    }

    /** Stores a file as the object `expected`, after checking size and fingerprint.
        A crash may leave a temporary file behind. */
    method Ingest(source: Bytes, expected: Hash) returns (r: Result<()>)
      requires ObjectsOk(objects)
      modifies this`objects
      ensures Grown(old(objects), objects) && ObjectsOk(objects)
      ensures r.Ok? ==> Object(expected) in objects
      ensures forall h | Object(h) in objects && Object(h) !in old(objects) ::
        h == ContentHash(source) && |source| <= maxAssetBytes
      ensures r.Err? && !r.Interrupted() ==>
        && Object(expected) !in objects
        && ((r == Err(Rejected(TooLarge)) && |source| > maxAssetBytes) || ContentHash(source) != expected)
    {
      if Object(expected) in objects {
        return Ok(());
      }
      if |source| > maxAssetBytes {
        return Err(Rejected(TooLarge));
      }
      if ContentHash(source) != expected {
        return Err(Rejected(NotAsExpected));
      }
      if * {
        var name: string, part: Bytes := *, *;
        if Stray(name) !in objects {
          objects := objects[Stray(name) := part];
        }
        return Err(Crash);
      }
      var done;
      r, done := Fate();
      if done {
        objects := objects[Object(expected) := source];
      }
    }

    /** Stores bytes as an object. A crash may leave a temporary file behind. */
    method WriteObject(bytes: Bytes) returns (r: Result<()>)
      requires ObjectsOk(objects)
      modifies this`objects
      ensures Grown(old(objects), objects) && ObjectsOk(objects)
      ensures r.Ok? ==> Object(ContentHash(bytes)) in objects
      ensures r.Err? ==> r.Interrupted()
    {
      if * {
        var name: string, part: Bytes := *, *;
        if Stray(name) !in objects {
          objects := objects[Stray(name) := part];
        }
        return Err(Crash);
      }
      var done;
      r, done := Fate();
      if done {
        objects := objects[Object(ContentHash(bytes)) := bytes];
      }
    }

    method CopyObjectToSandbox(hash: Hash, agent: Agent, rel: Path) returns (r: Result<()>)
      requires agent in sandbox
      modifies this`sandbox
      ensures Object(hash) !in objects ==> r == Err(MissingObject) && sandbox == old(sandbox)
      ensures Object(hash) in objects ==>
        Written(old(State()),
                old(State()).(sandbox := old(sandbox)[agent := old(sandbox)[agent][rel := objects[Object(hash)]]]),
                State(), r)
    {
      if Object(hash) !in objects {
        return Err(MissingObject);
      }
      var done;
      r, done := Fate();
      if done {
        sandbox := sandbox[agent := sandbox[agent][rel := objects[Object(hash)]]];
      }
    }

    method RemoveFromSandbox(agent: Agent, rel: Path) returns (r: Result<()>)
      requires agent in sandbox
      modifies this`sandbox
      ensures Written(old(State()),
                      old(State()).(sandbox := old(sandbox)[agent := old(sandbox)[agent] - {rel}]), State(), r)
    {
      var done;
      r, done := Fate();
      if done {
        sandbox := sandbox[agent := sandbox[agent] - {rel}];
      }
    }

    method CopySandboxToLost(agent: Agent, rel: Path) returns (r: Result<()>)
      requires agent in sandbox && agent in lost && rel in sandbox[agent]
      modifies this`lost
      ensures Written(old(State()),
        old(State()).(lost := old(lost)[agent := old(lost)[agent][rel := sandbox[agent][rel]]]),
                      State(), r)
    {
      var done;
      r, done := Fate();
      if done {
        lost := lost[agent := lost[agent][rel := sandbox[agent][rel]]];
      }
    }

    method CopyLostToSandbox(agent: Agent, rel: Path) returns (r: Result<()>)
      requires agent in sandbox && agent in lost && rel in lost[agent]
      modifies this`sandbox
      ensures Written(old(State()),
        old(State()).(sandbox := old(sandbox)[agent := old(sandbox)[agent][rel := lost[agent][rel]]]),
                      State(), r)
    {
      var done;
      r, done := Fate();
      if done {
        sandbox := sandbox[agent := sandbox[agent][rel := lost[agent][rel]]];
      }
    }

    method RemoveObject(o: ObjName) returns (r: Result<()>)
      modifies this`objects
      ensures Written(old(State()), old(State()).(objects := old(objects) - {o}), State(), r)
    {
      var done;
      r, done := Fate();
      if done {
        objects := objects - {o};
      }
    }

    method ClearPending() returns (r: Result<()>)
      modifies this`pending
      ensures Written(old(State()), old(State()).(pending := None), State(), r)
    {
      var done;
      r, done := Fate();
      if done {
        pending := None;
      }
    }

    // ---------- the journalled transactions ----------

    /** Moves the shared area and head to a commit, None for the empty tree. */
    method Materialize(target: Option<nat>) returns (r: Result<()>)
      requires Inv(State()) && Moving(State()) && Target(pending.value) == target
      modifies this`shared, this`head
      ensures SameRecovery(old(State()), State())
      ensures r.Err? ==> r.Interrupted()
      ensures r.Ok? ==>
        && head == target
        && shared == Brought(old(shared), old(HeadTree(State())), TreeAt(commits, target))
      ensures OnlyWithin(old(shared), shared, old(HeadTree(State())).Keys + TreeAt(commits, target).Keys)
    {
      hide Inv, Recovered, SameRecovery, Brought, OnlyWithin, TreeAt;
      ghost var start := State();
      SameRecoveryRefl(start);
      MoveEndsExist(start);
      OnlyWithinNone(start.shared, HeadTree(start).Keys + TreeAt(commits, target).Keys);
      var _ :- Reading();
      if target.Some? && target.value !in commits {
        return Err(NoSuchCommit);
      }
      if head.Some? && head.value !in commits {
        return Err(CorruptHead);
      }
      var tree := TreeAt(commits, target);
      var _ :- MoveFiles(TreeAt(commits, head), tree);
      HeadMayMove(start, shared, target);
      r := SetHead(target);
    }

    /** Deletes what `tree` lacks, then writes what it has. */
    method MoveFiles(current: Tree, tree: Tree) returns (r: Result<()>)
      requires Inv(State()) && Moving(State())
      requires current == HeadTree(State()) && tree == TreeAt(commits, Target(pending.value))
      modifies this`shared
      ensures SameRecovery(old(State()), State())
      ensures r.Err? ==> r.Interrupted()
      ensures r.Ok? ==> shared == Brought(old(shared), current, tree)
      ensures OnlyWithin(old(shared), shared, current.Keys + tree.Keys)
    {
      hide Inv, Recovered, SameRecovery, Brought, Contents;
      ghost var start := State();
      var _ :- RemoveStale(current, tree);
      ghost var cleared := State();
      SameRecoveryInv(start, cleared);
      r := WriteAll(tree);
      SameRecoveryTrans(start, cleared, State());
      BroughtInTwoPasses(start.shared, current, tree);
    }

    /** Deletes the files of `current` that `tree` no longer has. */
    method RemoveStale(current: Tree, tree: Tree) returns (r: Result<()>)
      requires Inv(State()) && Moving(State())
      requires current == HeadTree(State()) && tree == TreeAt(commits, Target(pending.value))
      modifies this`shared
      ensures SameRecovery(old(State()), State())
      ensures r.Err? ==> r.Interrupted()
      ensures r.Ok? ==> shared == old(shared) - (current.Keys - tree.Keys)
      ensures OnlyWithin(old(shared), shared, current.Keys)
    {
      hide Inv, Recovered, SameRecovery, OnlyWithin, RemoveSoFar, HeadTree, TreeAt;
      ghost var start := State();
      var todo := current.Keys - tree.Keys;
      RemoveStarts(start);
      while todo != {}
        invariant State() == start.(shared := shared) && RemoveSoFar(start, shared, todo)
      {
        var rel :| rel in todo;
        RemoveOneMore(start, shared, todo, rel);
        RemoveStands(start, shared, todo);
        RemoveStands(start, shared - {rel}, todo - {rel});
        var _ :- RemoveShared(rel);
        todo := todo - {rel};
      }
      RemoveStands(start, shared, todo);
      return Ok(());
    }

    /** Writes every file of `tree` from its object. */
    method WriteAll(tree: Tree) returns (r: Result<()>)
      requires Inv(State()) && Moving(State())
      requires tree == TreeAt(commits, Target(pending.value))
      modifies this`shared
      ensures SameRecovery(old(State()), State())
      ensures r.Err? ==> r.Interrupted()
      ensures r.Ok? ==> shared == old(shared) + Contents(tree)
      ensures OnlyWithin(old(shared), shared, tree.Keys)
    {
      hide Inv, Recovered, SameRecovery, Contents, OnlyWithin, WriteSoFar, TreeAt;
      ghost var start := State();
      var todo := tree.Keys;
      WriteStarts(start);
      while todo != {}
        invariant State() == start.(shared := shared) && WriteSoFar(start, shared, todo)
      {
        var rel :| rel in todo;
        WriteOneMore(start, shared, todo, rel);
        WriteStands(start, shared, todo);
        WriteStands(start, shared[rel := tree[rel].content], todo - {rel});
        var _ :- CopyObjectToShared(tree[rel], rel);
        todo := todo - {rel};
      }
      WriteStands(start, shared, todo);
      return Ok(());
    }

    /** Carries out a journalled commit. Refuses to move the shared area backwards;
        the contract says that this never happens. */
    method ApplyCommitPending(c: Commit, index: Option<PendingIndex>) returns (r: Result<()>)
      requires Inv(State()) && pending == Some(Committing(c, index))
      modifies this`shared, this`commits, this`head, this`indexes
      ensures SameRecovery(old(State()), State())
      ensures r.Err? ==> r.Interrupted()
      ensures r.Ok? ==> CarriedOut(State())
      ensures OnlyWithin(old(shared), shared, c.changes.Keys)
    {
      hide Inv, Recovered, SameRecovery, CarriedOut, OnlyWithin, ApplyFiles;
      ghost var start := State();
      SameRecoveryRefl(start);
      CommitFacts(start);
      OnlyWithinNone(start.shared, c.changes.Keys);
      var _ :- Reading();
      if head.Some? && head.value > c.id {
        return Err(StaleCommit);
      }
      var _ :- ApplyChanges(c, index);
      ghost var placed := State();
      SameRecoveryInv(start, placed);
      RecordSteps(placed);
      ghost var recorded := placed.(commits := placed.commits[c.id := c]);
      ghost var moved := recorded.(head := Some(c.id));
      SameRecoveryTrans(start, placed, recorded);
      SameRecoveryTrans(start, placed, moved);
      var _ :- WriteCommit(c);
      var _ :- SetHead(Some(c.id));
      PartAppliedEnds(start.shared, c.changes);
      if index.Some? {
        ghost var noted := moved.(indexes := placed.indexes[index.value.agent := index.value.index]);
        SameRecoveryTrans(start, placed, noted);
        r := WriteIndex(index.value.agent, index.value.index);
        if r.Ok? {
          CommitCarriedOut(State());
        }
      } else {
        CommitCarriedOut(State());
        r := Ok(());
      }
    }

    /** Makes the changes of a journalled commit in the shared area, in any order. */
    method ApplyChanges(c: Commit, ghost index: Option<PendingIndex>) returns (r: Result<()>)
      requires Inv(State()) && pending == Some(Committing(c, index))
      modifies this`shared
      ensures SameRecovery(old(State()), State())
      ensures r.Err? ==> r.Interrupted()
      ensures r.Ok? ==> shared == ApplyFiles(old(shared), c.changes)
      ensures OnlyWithin(old(shared), shared, c.changes.Keys)
    {
      hide Inv, Recovered, SameRecovery, OnlyWithin, ApplyFiles, ApplySoFar;
      ghost var start := State();
      ApplyStarts(start);
      var todo := c.changes.Keys;
      while todo != {}
        invariant todo <= c.changes.Keys
        invariant State() == start.(shared := shared) && ApplySoFar(start, shared, todo)
      {
        var rel :| rel in todo;
        ApplyOneMore(start, shared, todo, rel);
        ApplyStands(start, shared, todo);
        ApplyStands(start, WithChange(shared, rel, c.changes[rel]), todo - {rel});
        ghost var files := shared;
        r := ApplyChange(c.author, rel, c.changes[rel]);
        if r.Err? {
          ApplyTorn(start, files, todo, rel, shared);
          return;
        }
        todo := todo - {rel};
      }
      ApplyStands(start, shared, todo);
      return Ok(());
    }

    /** Makes one change: a user's file goes in as bytes, any other straight from its object. */
    method ApplyChange(author: string, rel: Path, change: Change) returns (r: Result<()>)
      requires !change.Delete? ==>
        Object(change.hash) in objects && objects[Object(change.hash)] == change.hash.content
      modifies this`shared
      ensures r.Ok? ==> shared == WithChange(old(shared), rel, change)
      ensures r.Err? ==> r.Interrupted() && OnlyWithin(old(shared), shared, {rel})
      ensures r.Err? && (change.Delete? || author != "user") ==>
        shared == old(shared) || shared == WithChange(old(shared), rel, change)
    {
      if change.Delete? {
        r := RemoveShared(rel);
      } else if author == "user" {
        var content :- ReadObject(change.hash);
        r := WriteWork(rel, content);
      } else {
        r := CopyObjectToShared(change.hash, rel);
      }
    }

    /** The parent chain of `from`, read commit by commit. */
    method HeadAncestors(from: Option<nat>) returns (r: Result<set<nat>>)
      requires ChainOk(commits, from)
      ensures r.Ok? ==> r.value == Ancestors(commits, from)
      ensures r.Err? ==> r.Interrupted()
    {
      var seen: set<nat> := {};
      var cur := from;
      while cur.Some?
        invariant ChainOk(commits, cur)
        invariant seen + Ancestors(commits, cur) == Ancestors(commits, from)
        invariant cur.Some? ==> forall id | id in seen :: cur.value < id
        decreases if cur.Some? then cur.value + 1 else 0
      {
        if cur.value in seen {
          break;
        }
        var _ :- Reading();
        ChainStep(commits, cur);
        seen := seen + {cur.value};
        cur := if cur.value in commits then commits[cur.value].parent else None;
      }
      return Ok(seen);
    }

    /** Deletes every commit off the parent chain of `keep`. */
    method DiscardCommits(keep: Option<nat>) returns (r: Result<()>)
      requires Inv(State()) && pending == Some(Discarding(keep)) && head == keep
      modifies this`commits
      ensures SameRecovery(old(State()), State())
      ensures r.Err? ==> r.Interrupted()
      ensures r.Ok? ==>
        && commits == Keep(old(commits), Ancestors(old(commits), keep))
        && commits.Keys == Ancestors(commits, keep)
    {
      hide Inv, Recovered, SameRecovery, Keep, Ancestors, DiscardSoFar, ChainOk;
      ghost var start := State();
      SameRecoveryRefl(start);
      KeptChainOk(start);
      var chain :- HeadAncestors(keep);
      DiscardStarts(start, keep);
      r := RemoveCommits(start, keep, commits.Keys - chain);
    }

    /** Deletes the listed commits. */
    method RemoveCommits(ghost start: Repo, ghost keep: Option<nat>, ids: set<nat>) returns (r: Result<()>)
      requires start == State() && DiscardSoFar(start, keep, commits, ids)
      modifies this`commits
      ensures SameRecovery(start, State())
      ensures r.Err? ==> r.Interrupted()
      ensures r.Ok? ==>
        && commits == Keep(start.commits, Ancestors(start.commits, keep))
        && commits.Keys == Ancestors(commits, keep)
    {
      hide Recovered, SameRecovery, Keep, Ancestors, DiscardSoFar;
      var todo := ids;
      while todo != {}
        invariant State() == start.(commits := commits) && DiscardSoFar(start, keep, commits, todo)
      {
        var id :| id in todo;
        DiscardOneMore(start, keep, commits, todo, id);
        DiscardStands(start, keep, commits, todo);
        DiscardStands(start, keep, commits - {id}, todo - {id});
        var _ :- RemoveCommit(id);
        todo := todo - {id};
      }
      DiscardStands(start, keep, commits, todo);
      return Ok(());
    }

    /** Replays the journal, if there is one. A refusal or a missing record or object never happens. */
    method RecoverLocked() returns (r: Result<()>)
      requires Inv(State())
      modifies this`shared, this`commits, this`head, this`indexes, this`pending
      ensures Inv(State()) && Recovered(State()) == Recovered(old(State()))
      ensures r.Ok? ==> State() == Recovered(old(State())) && Idle(State())
      ensures r.Err? ==> r.Interrupted()
    {
      hide Inv, Recovered, SameRecovery, CarriedOut, Ready, Consistent;
      ghost var start := State();
      IdleWhenClear(start);
      var _ :- Reading();
      if pending.None? {
        return Ok(());
      }
      var entry := pending.value;
      r := Replay(entry);
      ghost var replayed := State();
      SameRecoveryInv(start, replayed);
      if r.Ok? {
        ClearStep(replayed);
        IdleWhenClear(replayed.(pending := None));
        r := ClearPending();
      }
    }

    method Replay(entry: Pending) returns (r: Result<()>)
      requires Inv(State()) && pending == Some(entry)
      modifies this`shared, this`commits, this`head, this`indexes
      ensures SameRecovery(old(State()), State())
      ensures r.Ok? ==> CarriedOut(State())
      ensures r.Err? ==> r.Interrupted()
    {
      hide Inv, Recovered, SameRecovery, CarriedOut, Ready, Consistent;
      match entry
      case Committing(c, index) => r := ApplyCommitPending(c, index);
      case Restoring(target) => r := RunMove(target);
      case Discarding(keep) => r := RunDiscard(keep);
    }

    method RunMove(target: Option<nat>) returns (r: Result<()>)
      requires Inv(State()) && pending == Some(Restoring(target))
      modifies this`shared, this`head
      ensures SameRecovery(old(State()), State())
      ensures r.Ok? ==> CarriedOut(State())
      ensures r.Err? ==> r.Interrupted()
    {
      hide Inv, Recovered, SameRecovery, CarriedOut, Ready, Consistent, Brought, OnlyWithin;
      ghost var start := State();
      r := Materialize(target);
      if r.Ok? {
        MovedHere(start.shared, HeadTree(start), TreeAt(commits, target));
        MoveCarriedOut(State());
      }
    }

    method RunDiscard(keep: Option<nat>) returns (r: Result<()>)
      requires Inv(State()) && pending == Some(Discarding(keep))
      modifies this`shared, this`head, this`commits
      ensures SameRecovery(old(State()), State())
      ensures r.Ok? ==> CarriedOut(State())
      ensures r.Err? ==> r.Interrupted()
    {
      hide Inv, Recovered, SameRecovery, CarriedOut, Ready, Consistent, Brought, OnlyWithin;
      ghost var start := State();
      var _ :- Materialize(keep);
      ghost var moved := State();
      MovedHere(start.shared, HeadTree(start), TreeAt(commits, keep));
      SameRecoveryInv(start, moved);
      KeptChainOk(moved);
      r := DiscardCommits(keep);
      SameRecoveryTrans(start, moved, State());
      if r.Ok? {
        DiscardKeepsHeadTree(moved, State());
        MoveCarriedOut(State());
      }
    }

    /** Closes a transaction: an interrupted one is replayed once before giving up. */
    method Settle(result: Result<()>) returns (r: Result<()>)
      requires Inv(State())
      requires result.Ok? ==> CarriedOut(State())
      requires result != Err(Crash)
      modifies this`shared, this`commits, this`head, this`indexes, this`pending
      ensures Inv(State()) && Recovered(State()) == Recovered(old(State()))
      ensures r.Ok? ==> State() == Recovered(old(State())) && Idle(State())
      ensures r.Err? ==> r.Interrupted()
    {
      hide Inv, Recovered, CarriedOut, Ready, Consistent;
      if result.Ok? {
        ghost var start := State();
        ClearStep(start);
        IdleWhenClear(start.(pending := None));
        r := ClearPending();
        if r.Ok? || r == Err(Crash) {
          return;
        }
      }
      r := RecoverLocked();
    }

    /** Journals a transaction, carries it out and closes it. */
    method Transact(entry: Pending) returns (r: Result<()>)
      requires Idle(State()) && Inv(State().(pending := Some(entry)))
      modifies this`shared, this`commits, this`head, this`indexes, this`pending
      ensures Inv(State())
      ensures Recovered(State()) in {old(State()), Recovered(old(State()).(pending := Some(entry)))}
      ensures r.Ok? ==> Idle(State()) && State() == Recovered(old(State()).(pending := Some(entry)))
      ensures r.Err? ==> r.Interrupted()
    {
      hide Inv, Recovered, SameRecovery, CarriedOut, Ready, Consistent;
      ghost var start := State();
      IdleIsInv(start);
      var _ :- WritePending(entry);
      ghost var journalled := State();
      var result := Replay(entry);
      SameRecoveryInv(journalled, State());
      if result == Err(Crash) {
        return result;
      }
      r := Settle(result);
    }

    /** Takes the next commit id; ids only go up, and an id taken is never given out again. */
    method ReserveId() returns (r: Result<nat>)
      modifies this`nextId
      ensures nextId == old(nextId) ||
        (nextId.Some? && nextId.value > 0 && TakesId(old(nextId), commits.Keys, nextId.value - 1))
      ensures r.Ok? ==> TakesId(old(nextId), commits.Keys, r.value) && nextId == Some(r.value + 1)
      ensures Idle(old(State())) ==>
        && (nextId == old(nextId) || nextId == Some(FreshId(old(State())) + 1))
        && (r.Ok? ==> r.value == FreshId(old(State())))
      ensures r.Err? ==> r.Interrupted()
    {
      var ids :- ListCommits();
      var greatest := if |ids| == 0 then 0 else ids[|ids| - 1];
      var stored := if nextId.Some? then nextId.value else greatest + 1;
      var next := if stored < greatest + 1 then greatest + 1 else stored;
      assert |ids| > 0 ==> ids[|ids| - 1] in commits;
      assert |ids| == 0 ==> commits == map[] by {
        assert forall id :: id in commits ==> id in ids;
      }
      assert TakesId(nextId, commits.Keys, next);
      if Idle(State()) {
        TakesFresh(State(), next);
      }
      var _ :- WriteNextId(next + 1);
      return Ok(next);
    }

    // ---------- moving the shared area ----------

    /** The outside edits a move to `target` would overwrite or delete. */
    method ExternalMaterializeConflicts(target: Option<nat>) returns (r: Result<set<Path>>)
      requires Stored(State(), target) && Stored(State(), head)
      ensures r.Ok? ==> r.value == OutsideConflicts(State(), target)
      ensures r.Err? ==> r.Interrupted()
    {
      hide StaleConflicts, WriteConflicts, OutsideConflicts, HashAt, Get, TreeAt;
      ghost var s := State();
      NoneOutside(s, target);
      if !external {
        return Ok({});
      }
      var current := TreeAt(commits, head);
      var to := TreeAt(commits, target);
      NoConflicts(s, to);
      var conflicts: set<Path> := {};
      var todo := current.Keys;
      while todo != {}
        invariant todo <= current.Keys
        invariant conflicts == StaleConflicts(s, to, current.Keys - todo)
      {
        var rel :| rel in todo;
        assert current.Keys - (todo - {rel}) == (current.Keys - todo) + {rel};
        OneMoreStale(s, to, current.Keys - todo, rel);
        todo := todo - {rel};
        if rel in to {
          continue;
        }
        var _ :- Reading();
        var disk := HashAt(shared, rel);
        if disk.Some? && disk != Some(current[rel]) {
          conflicts := conflicts + {rel};
        }
      }
      assert current.Keys - todo == current.Keys;
      ghost var stale := conflicts;
      todo := to.Keys;
      while todo != {}
        invariant todo <= to.Keys
        invariant conflicts == stale + WriteConflicts(s, to, to.Keys - todo)
      {
        var rel :| rel in todo;
        assert to.Keys - (todo - {rel}) == (to.Keys - todo) + {rel};
        OneMoreWrite(s, to, to.Keys - todo, rel);
        todo := todo - {rel};
        var _ :- Reading();
        if HashAt(shared, rel) != Get(current, rel) {
          conflicts := conflicts + {rel};
        }
      }
      assert to.Keys - todo == to.Keys;
      AllConflicts(s, target);
      return Ok(conflicts);
    }

    /** The common body of the restores: check, journal, move. */
    method MoveTo(target: Option<nat>, force: bool) returns (r: Result<()>)
      requires Inv(State())
      modifies this
      ensures Answers(old(State()), WorkRestore(target, force), State(), r.Ok?, r.Interrupted())
      ensures r.Ok? ==> State() == Moved(Recovered(old(State())), target)
      ensures r.Err? && !r.Interrupted() ==>
        var s := Recovered(old(State()));
        State() == s && (!Stored(s, target) || (!force && OutsideConflicts(s, target) != {}))
    {
      hide Inv, Recovered, Answers, Ready, Consistent, OutsideConflicts, Moved;
      ghost var start, call := State(), WorkRestore(target, force);
      r := RecoverLocked();
      ghost var s := State();
      NothingYet(start, call, s);
      if r.Err? {
        return;
      }
      IdleHead(s);
      if target.Some? && target.value !in commits {
        return Err(NoSuchCommit);
      }
      var conflicts :- ExternalMaterializeConflicts(target);
      if !force && conflicts != {} {
        return Err(Rejected(ChangedOutside));
      }
      JournalMove(s, target);
      MovedKeeps(s, target);
      SpareSelf(s);
      r := Transact(Restoring(target));
      TransactAnswers(start, call, s, Moved(s, target), State(), r.Ok?);
    }

    /** Moves the shared area back to a commit; later commits stay in the store. */
    method WorkRestoreCommit(commit: nat, force: bool) returns (r: Result<()>)
      requires Inv(State())
      modifies this
      ensures Answers(old(State()), WorkRestore(Some(commit), force), State(), r.Ok?, r.Interrupted())
      ensures r.Err? && !r.Interrupted() ==>
        var s := Recovered(old(State()));
        State() == s && (!Stored(s, Some(commit)) || (!force && OutsideConflicts(s, Some(commit)) != {}))
    {
      r := MoveTo(Some(commit), force);
    }

    method WorkRestorePoint(target: Option<nat>) returns (r: Result<()>)
      requires Inv(State())
      modifies this
      ensures Answers(old(State()), WorkRestore(target, false), State(), r.Ok?, r.Interrupted())
      ensures r.Err? && !r.Interrupted() ==>
        var s := Recovered(old(State()));
        State() == s && (!Stored(s, target) || OutsideConflicts(s, target) != {})
    {
      r := MoveTo(target, false);
    }

    /** Moves to `keep` and deletes every commit off its parent chain. */
    method WorkDiscardAfter(keep: Option<nat>) returns (r: Result<()>)
      requires Inv(State())
      modifies this
      ensures Answers(old(State()), WorkDiscard(keep), State(), r.Ok?, r.Interrupted())
      ensures r.Ok? ==> State() == Discarded(Recovered(old(State())), keep)
      ensures r.Err? && !r.Interrupted() ==>
        var s := Recovered(old(State()));
        State() == s && (!Stored(s, keep) || OutsideConflicts(s, keep) != {})
    {
      hide Inv, Recovered, Answers, Ready, Consistent, OutsideConflicts, Discarded;
      ghost var start, call := State(), WorkDiscard(keep);
      r := RecoverLocked();
      ghost var s := State();
      NothingYet(start, call, s);
      if r.Err? {
        return;
      }
      IdleHead(s);
      if keep.Some? && keep.value !in commits {
        return Err(NoSuchCommit);
      }
      var conflicts :- ExternalMaterializeConflicts(keep);
      if conflicts != {} {
        return Err(Rejected(ChangedOutside));
      }
      JournalDiscard(s, keep);
      DiscardedKeeps(s, keep);
      SpareSelf(s);
      r := Transact(Discarding(keep));
      TransactAnswers(start, call, s, Discarded(s, keep), State(), r.Ok?);
    }

    /** Moves back to the newest commit on head's own chain that is within every keep line. */
    method WorkRewindTo(keepByAgent: map<Agent, nat>) returns (r: Result<Option<nat>>)
      requires Inv(State())
      modifies this
      ensures Answers(old(State()), WorkRewind(keepByAgent), State(), r.Ok?, r.Interrupted())
      ensures r.Ok? ==>
        && IsRewindTarget(Recovered(old(State())), keepByAgent, r.value)
        && State() == Moved(Recovered(old(State())), r.value)
      ensures r.Err? && !r.Interrupted() ==>
        var s := Recovered(old(State()));
        State() == s && exists target :: IsRewindTarget(s, keepByAgent, target) && OutsideConflicts(s, target) != {}
    {
      hide Inv, Recovered, Answers, Ready, Consistent, OutsideConflicts, Moved, IsRewindTarget;
      ghost var start, call := State(), WorkRewind(keepByAgent);
      var recovery := RecoverLocked();
      ghost var s := State();
      NothingYet(start, call, s);
      if recovery.Err? {
        return Err(recovery.error);
      }
      IdleHead(s);
      var target :- ChooseRewind(keepByAgent);
      RewindTargetStored(s, keepByAgent, target);
      var conflicts :- ExternalMaterializeConflicts(target);
      if conflicts != {} {
        return Err(Rejected(ChangedOutside));
      }
      JournalMove(s, target);
      MovedKeeps(s, target);
      SpareSelf(s);
      RewindEffect(s, keepByAgent, target);
      var moved := Transact(Restoring(target));
      TransactAnswers(start, call, s, Moved(s, target), State(), moved.Ok?);
      return if moved.Ok? then Ok(target) else Err(moved.error);
    }

    method ChooseRewind(keepByAgent: map<Agent, nat>) returns (r: Result<Option<nat>>)
      requires Stored(State(), head) && ChainOk(commits, head)
      ensures r.Ok? ==> IsRewindTarget(State(), keepByAgent, r.value)
      ensures r.Err? ==> r.Interrupted()
    {
      var ancestors :- HeadAncestors(head);
      var ids :- ListCommits();
      var target: Option<nat> := None;
      ghost var within := WithinCommits(State(), keepByAgent);
      for i := 0 to |ids|
        invariant target.None? ==> forall j | 0 <= j < i :: ids[j] !in within
        invariant target.Some? ==> target.value in within
        invariant target.Some? ==> forall j | 0 <= j < i && ids[j] in within :: ids[j] <= target.value
      {
        var id := ids[i];
        if id !in ancestors {
          continue;
        }
        var _ :- Reading();
        if Within(commits[id], keepByAgent) {
          assert forall j | 0 <= j < i :: ids[j] < id;
          target := Some(id);
        }
      }
      forall other | other in within
        ensures target.Some? && other <= target.value
      {
        assert other in ids;
      }
      return Ok(target);
    }

    method WorkRecoverNow() returns (r: Result<()>)
      requires Inv(State())
      modifies this
      ensures Answers(old(State()), WorkRecover, State(), r.Ok?, r.Interrupted())
    {
      hide Inv, Recovered, Ready, Consistent;
      r := RecoverLocked();
    }

    /** One page of the history, newest first, each commit marked whether head descends from it. */
    method WorkLog(limit: nat, before: Option<nat>) returns (r: Result<CommitLog.Page>)
      requires Inv(State())
      modifies this
      ensures Answers(old(State()), WorkRecover, State(), r.Ok?, r.Interrupted())
      ensures r.Err? ==> r.Interrupted()
      ensures r.Ok? ==>
        && r.value.head == CommitLog.HeadSummary(State()) && r.value.total == |State().commits|
        && CommitLog.IsPage(State(), CommitLog.Clamp(limit), before, r.value.entries, r.value.truncated)
    {
      hide Inv, Recovered, Answers, Ready, Consistent, CommitLog.IsPage;
      ghost var start := State();
      var recovery := RecoverLocked();
      ghost var s := State();
      NothingYet(start, WorkRecover, s);
      if recovery.Err? {
        return Err(recovery.error);
      }
      IdleHead(s);
      EffectAnswers(start, WorkRecover, s);
      var _ :- Reading();
      if head.Some? && head.value !in commits {
        return Err(CorruptHead);
      }
      var summary := if head.None? then None else Some(CommitLog.SummaryOf(commits[head.value]));
      var onHead :- HeadAncestors(head);
      var all :- ListCommits();
      r := PageOf(CommitLog.Clamp(limit), before, summary, onHead, all);
    }

    /** Reads the page off the list of all commits, from its end. */
    method PageOf(limit: nat, before: Option<nat>, summary: Option<CommitLog.Summary>, onHead: set<nat>, all: seq<nat>)
      returns (r: Result<CommitLog.Page>)
      requires onHead == Ancestors(commits, head)
      requires CommitLog.Ascending(all) && forall id :: id in all <==> id in commits
      ensures r.Err? ==> r.Interrupted()
      ensures r.Ok? ==>
        && r.value.head == summary && r.value.total == |commits|
        && CommitLog.IsPage(State(), limit, before, r.value.entries, r.value.truncated)
    {
      hide CommitLog.IsPage, CommitLog.ReadTo, CommitLog.Listed, CommitLog.EntryOf, Ancestors;
      ghost var s := State();
      AllCounted(all, commits.Keys);
      var entries: seq<CommitLog.Entry>, truncated := [], false;
      var k := |all|;
      CommitLog.ReadNothing(s, limit, before, all);
      while k > 0
        invariant 0 <= k <= |all| && CommitLog.ReadTo(s, limit, before, all, k, entries)
      {
        var id := all[k - 1];
        assert id in all;
        if before.Some? && id >= before.value {
          CommitLog.ReadPast(s, limit, before, all, k, entries);
          k := k - 1;
          continue;
        }
        if |entries| >= limit {
          CommitLog.ReadEnough(s, limit, before, all, k, entries);
          return Ok(CommitLog.Page(summary, entries, |all|, true));
        }
        var _ :- Reading();
        var c := commits[id];
        CommitLog.ReadOne(s, limit, before, all, k, entries);
        CommitLog.EntryIs(s, id);
        entries := entries + [CommitLog.Entry(id, c.parent, c.author, c.note, |c.changes|, id in onHead)];
        k := k - 1;
      }
      CommitLog.ReadAll(s, limit, before, all, entries);
      return Ok(CommitLog.Page(summary, entries, |all|, false));
    }

    // ---------- commits ----------

    /** Stores the new content of every added or modified file. */
    method StoreObjects(changes: Changes, source: Files) returns (r: Result<()>)
      requires ObjectsOk(objects)
      requires forall p | p in changes && !changes[p].Delete? ::
        p in source && ContentHash(source[p]) == changes[p].hash
      modifies this`objects
      ensures Grown(old(objects), objects) && ObjectsOk(objects)
      ensures r.Ok? ==> forall p | p in changes && !changes[p].Delete? :: Object(changes[p].hash) in objects
      ensures r.Ok? ==> !TooLargeToStore(old(State()), changes, maxAssetBytes)
      ensures r.Err? && !r.Interrupted() ==>
        r == Err(Rejected(TooLarge)) && TooLargeToStore(old(State()), changes, maxAssetBytes)
    {
      var todo := changes.Keys;
      while todo != {}
        invariant todo <= changes.Keys
        invariant Grown(old(objects), objects) && ObjectsOk(objects)
        invariant forall p | p in changes && p !in todo && !changes[p].Delete? :: Object(changes[p].hash) in objects
        invariant forall h | Object(h) in objects && Object(h) !in old(objects) :: |h.content| <= maxAssetBytes
      {
        var p :| p in todo;
        if !changes[p].Delete? {
          var _ :- Ingest(source[p], changes[p].hash);
        }
        todo := todo - {p};
      }
      return Ok(());
    }

    /** Journals and lands a commit whose objects are stored and whose id is taken. */
    method LandCommit(ghost s: Repo, c: Commit, index: Option<PendingIndex>) returns (r: Result<()>, ghost after: Repo)
      requires Idle(s) && Spare(s, State()) && nextId == Some(c.id + 1)
      requires CommitFits(s, c) && IndexFits(s, c, index)
      requires forall p | p in c.changes && !c.changes[p].Delete? :: Object(c.changes[p].hash) in objects
      modifies this
      ensures CommitLands(s, c, index, after) && Idle(after)
      ensures Inv(State()) && Recovered(State()) in {old(State()), after}
      ensures r.Ok? ==> State() == after
      ensures r.Err? ==> r.Interrupted()
    {
      hide Inv, Recovered, Ready, Consistent, CommitLands;
      ghost var base := State();
      JournalCommit(s, c, index, base);
      SpareKeeps(s, base);
      after := Recovered(base.(pending := Some(Committing(c, index))));
      LandsKeeps(s, c, index, after);
      r := Transact(Committing(c, index));
    }

    /** Takes an id and lands a commit that leaves every baseline alone; its objects are stored. */
    method ReserveAndLand(ghost start: Repo, ghost s: Repo, ghost call: Call, author: string, note: Note,
                          changes: Changes, anchor: Option<Anchor>)
      returns (r: Result<nat>)
      requires Inv(start) && s == Recovered(start) && Idle(s)
      requires Spare(s, State()) && nextId == s.nextId && Idle(State())
      requires forall p | p in changes && !changes[p].Delete? :: Object(changes[p].hash) in objects
      requires forall t | CommitLands(s, NewCommit(s, author, note, changes, anchor), None, t) :: Effect(s, call, t)
      modifies this
      ensures Answers(start, call, State(), r.Ok?, r.Interrupted())
      ensures r.Ok? ==> r.value == FreshId(s)
      ensures r.Err? ==> r.Interrupted()
    {
      hide Inv, Recovered, Answers, Ready, Consistent, CommitLands, Effect, ApplyTree, ObjectsOk, NewCommit;
      var reserved := ReserveId();
      SpareAnswers(start, call, State());
      if reserved.Err? {
        return Err(reserved.error);
      }
      r := Land(start, s, call, reserved.value, author, note, changes, anchor, None);
    }

    /** Lands a commit whose objects are stored and whose id is taken. */
    method Land(ghost start: Repo, ghost s: Repo, ghost call: Call, id: nat, author: string, note: Note,
                changes: Changes, anchor: Option<Anchor>, index: Option<PendingIndex>)
      returns (r: Result<nat>)
      requires Inv(start) && s == Recovered(start) && Idle(s)
      requires Spare(s, State()) && id == FreshId(s) && nextId == Some(id + 1)
      requires IndexFits(s, NewCommit(s, author, note, changes, anchor), index)
      requires forall p | p in changes && !changes[p].Delete? :: Object(changes[p].hash) in objects
      requires forall t | CommitLands(s, NewCommit(s, author, note, changes, anchor), index, t) :: Effect(s, call, t)
      modifies this
      ensures Answers(start, call, State(), r.Ok?, r.Interrupted())
      ensures r.Ok? ==> r.value == id && head == Some(id)
      ensures r.Err? ==> r.Interrupted()
    {
      hide Inv, Recovered, Answers, Ready, Consistent, CommitLands, Effect, ApplyTree, ObjectsOk, IndexFits;
      var tree := ApplyTree(TreeAt(commits, head), changes);
      var c := WorkTree.Commit(id, head, author, note, changes, tree, anchor);
      assert c == NewCommit(s, author, note, changes, anchor);
      ghost var base := State();
      var landed, after := LandCommit(s, c, index);
      TransactAnswers(start, call, base, after, State(), landed.Ok?);
      if landed.Err? {
        return Err(landed.error);
      }
      LandedHead(s, c, index, after);
      return Ok(id);
    }

    /** Commits an agent's files and deletions, or refuses all of them. */
    method WorkCommitAgent(agent: Agent, paths: seq<Path>, deletes: seq<Path>, line: nat, note: Note)
      returns (r: Result<CommitReport>)
      requires Inv(State())
      modifies this
      ensures Answers(old(State()), WorkCommit(agent, paths, deletes, line, note), State(), r.Ok?, r.Interrupted())
      ensures r.Ok? ==>
        var s := Recovered(old(State()));
        && r.value.id == FreshId(s) && head == Some(r.value.id)
        && agent in s.sandbox && agent in s.indexes
        && r.value.changes == PlannedChanges(s.indexes[agent], HeadTree(s), CommitLocals(s, agent, paths, deletes))
        && agent in indexes && forall p :: CommittedAt(s, agent, paths, deletes, r.value.changes, State(), p)
      ensures r.Ok? ==>
        forall why :: !RefusesCommit(Recovered(old(State())), maxAssetBytes, agent, paths, deletes, note, why)
      ensures r.Err? && !r.Interrupted() ==>
        && r.error.Rejected?
        && RefusesCommit(Recovered(old(State())), maxAssetBytes, agent, paths, deletes, note, r.error.why)
    {
      hide Inv, Recovered, Answers, Ready, Consistent, CommitStep, CommitLands, PlannedChanges, PlannedConflicts,
           CommitLocals, UntouchedOutside, ApplyTree, TooLargeListed, ListsTwice, AllFound, Effect, RefusesCommit,
           RefusesLocals, CommittedAt;
      ghost var start, call := State(), WorkCommit(agent, paths, deletes, line, note);
      NothingYet(start, call, start);
      RecoveryFrame(start);
      CommitRefusals(Recovered(start), maxAssetBytes, agent, paths, deletes, note);
      var message := Texts.Trim(note.message);
      if message == "" {
        return Err(Rejected(EmptyMessage));
      }
      if !AllClean(paths) {
        return Err(Rejected(BadPath));
      }
      if agent !in sandbox {
        return Err(Rejected(UnknownAgent));
      }
      var recovery := RecoverLocked();
      ghost var s := State();
      NothingYet(start, call, s);
      if recovery.Err? {
        return Err(recovery.error);
      }
      IdleHead(s);
      IdleAgents(start, s, agent);
      LocalReasons(s, maxAssetBytes, agent, paths, deletes);
      var locals :- GatherLocals(agent, paths, deletes);
      if external {
        var _ :- RejectExternalChanges(locals);
      }
      var changes, kept, conflicts := PlanCommit(indexes[agent], TreeAt(commits, head), locals);
      if conflicts != map[] {
        return Err(Rejected(Conflicts));
      }
      if changes == map[] {
        return Err(Rejected(NothingChanged));
      }
      LocalsHaveContent(s, agent, paths, deletes, maxAssetBytes);
      var landed := StoreAndLand(start, s, agent, changes, line, note.(message := message), call);
      if landed.Err? {
        return Err(landed.error);
      }
      CommitTaken(start, agent, paths, deletes, line, note, State());
      return Ok(CommitReport(landed.value, changes));
    }

    /** What the agent asks to commit, or why the request is refused as it stands. */
    method GatherLocals(agent: Agent, paths: seq<Path>, deletes: seq<Path>) returns (r: Result<Locals>)
      requires agent in sandbox && agent in indexes
      ensures r.Ok? ==> r.value == CommitLocals(State(), agent, paths, deletes)
      ensures r.Ok? ==> forall why | why in {PathsMissing, TooLarge, BadPath, ListedTwice, NothingListed} ::
        !RefusesLocals(State(), maxAssetBytes, agent, paths, deletes, why)
      ensures r.Err? && !r.Interrupted() ==>
        && r.error.Rejected? && r.error.why in {PathsMissing, TooLarge, BadPath, ListedTwice, NothingListed}
        && RefusesLocals(State(), maxAssetBytes, agent, paths, deletes, r.error.why)
    {
      hide AllClean, AllFound, Expanded, CommitLocals, Distinct, RefusesLocals, Deletions;
      var _ :- Reading();
      var box := sandbox[agent];
      ExpandedWithin(paths, box.Keys);
      LocalsRefusals(State(), maxAssetBytes, agent, paths, deletes);
      var want, missing := ExpandPaths(paths, box.Keys);
      if missing != [] {
        return Err(Rejected(PathsMissing));
      }
      var oversize := set p | p in want && |box[p]| > maxAssetBytes;
      if oversize != {} {
        assert exists p :: p in oversize;
        return Err(Rejected(TooLarge));
      }
      forall p | p in want
        ensures |box[p]| <= maxAssetBytes
      {
        assert p !in oversize;
      }
      var files: Locals := map p | p in want :: HashAt(box, p);
      var locals :- AddDeletes(files, deletes);
      if locals == map[] {
        return Err(Rejected(NothingListed));
      }
      return Ok(locals);
    }

    /** Adds the explicit deletions; none may be listed twice or also be a file to commit. */
    method AddDeletes(files: Locals, deletes: seq<Path>) returns (r: Result<Locals>)
      ensures r.Ok? <==> AllClean(deletes) && Distinct(deletes) && forall d | d in deletes :: d !in files
      ensures r.Ok? ==> r.value == files + Deletions(deletes)
      ensures r.Err? ==>
        || (r == Err(Rejected(BadPath)) && !AllClean(deletes))
        || (r == Err(Rejected(ListedTwice)) && (!Distinct(deletes) || exists d :: d in deletes && d in files))
    {
      hide IsClean, Deletions;
      var locals := files;
      NoDeletions(files);
      for i := 0 to |deletes|
        invariant forall j | 0 <= j < i :: IsClean(deletes[j]) && deletes[j] !in files
        invariant Distinct(deletes[..i])
        invariant locals == files + Deletions(deletes[..i])
      {
        var rel := deletes[i];
        OneMoreDeletion(files, deletes[..i], rel);
        assert deletes[..i + 1] == deletes[..i] + [rel];
        if !IsClean(rel) {
          return Err(Rejected(BadPath));
        }
        if rel in locals {
          return Err(Rejected(ListedTwice));
        }
        locals := locals[rel := None];
      }
      assert deletes[..|deletes|] == deletes;
      return Ok(locals);
    }

    /** Refuses the whole commit when a listed file was changed in the external workspace. */
    method RejectExternalChanges(locals: Locals) returns (r: Result<()>)
      requires Stored(State(), head)
      ensures r.Ok? ==> UntouchedOutside(State(), locals)
      ensures r == Err(Rejected(ChangedOutside)) ==> !UntouchedOutside(State(), locals)
      ensures r.Err? ==> r.Interrupted() || r == Err(Rejected(ChangedOutside))
    {
      var tree := TreeAt(commits, head);
      var changed: set<Path> := {};
      var todo := locals.Keys;
      while todo != {}
        invariant todo <= locals.Keys
        invariant forall p | p in locals && p !in todo ::
          p in changed <==> !UntouchedAt(HashAt(shared, p), Get(tree, p), locals[p])
        invariant changed <= locals.Keys - todo
      {
        var rel :| rel in todo;
        var _ :- Reading();
        var ok := match (locals[rel], Get(tree, rel))
          case (None, Some(h)) => HashAt(shared, rel).None? || HashAt(shared, rel) == Some(h)
          case (None, None) => HashAt(shared, rel).None?
          case (Some(_), Some(h)) => HashAt(shared, rel) == Some(h)
          case (Some(_), None) => HashAt(shared, rel).None?;
        if !ok {
          changed := changed + {rel};
        }
        todo := todo - {rel};
      }
      if changed == {} {
        return Ok(());
      }
      assert exists p :: p in changed;
      return Err(Rejected(ChangedOutside));
    }

    method StoreAndLand(ghost start: Repo, ghost s: Repo, agent: Agent, changes: Changes, line: nat, note: Note,
                        ghost call: Call)
      returns (r: Result<nat>)
      requires Inv(start) && s == Recovered(start) && s == State() && Idle(s)
      requires agent in sandbox && agent in indexes
      requires call.WorkCommit? && call.agent == agent && call.line == line && note == Trimmed(call.note)
      requires changes == PlannedChanges(indexes[agent], HeadTree(s), CommitLocals(s, agent, call.paths, call.deletes))
      requires changes != map[]
      requires s.external ==> UntouchedOutside(s, CommitLocals(s, agent, call.paths, call.deletes))
      requires PlannedConflicts(indexes[agent], HeadTree(s), CommitLocals(s, agent, call.paths, call.deletes)) == map[]
      requires forall p | p in changes && !changes[p].Delete? ::
        && p in sandbox[agent] && ContentHash(sandbox[agent][p]) == changes[p].hash
        && |sandbox[agent][p]| <= maxAssetBytes
      modifies this
      ensures Answers(start, call, State(), r.Ok?, r.Interrupted())
      ensures r.Ok? ==> r.value == FreshId(s) && head == Some(r.value)
      ensures r.Err? ==> r.Interrupted()
    {
      hide Inv, Recovered, Answers, Ready, Consistent, CommitLands, PlannedChanges, PlannedConflicts, CommitLocals,
           UntouchedOutside, ApplyTree, Effect, NewCommit, IndexFits;
      IdleIsInv(s);
      IdleObjects(s);
      var reserved := ReserveId();
      SpareAnswers(start, call, State());
      if reserved.Err? {
        return Err(reserved.error);
      }
      var stored := StoreObjects(changes, sandbox[agent]);
      SpareAnswers(start, call, State());
      if stored.Err? {
        return Err(stored.error);
      }
      var index := Some(PendingIndex(agent, ApplyTree(indexes[agent], changes)));
      AgentLands(s, call, agent, changes, line, note);
      r := Land(start, s, call, reserved.value, agent, note, changes, Some(Anchor(agent, line)), index);
    }

    /** Adopts the files of the workspace folder as a commit of their own; None when nothing differs. */
    method WorkSyncPaths(paths: seq<Path>, time: int) returns (r: Result<SyncReport>)
      requires Inv(State())
      modifies this
      ensures Answers(old(State()), WorkSync(paths, time), State(), r.Ok? && r.value.commit.Some?, r.Interrupted())
      ensures r.Ok? ==>
        var s := Recovered(old(State()));
        && r.value.changes == SyncChanges(s, paths) && r.value.same == SyncSame(s, paths)
        && r.value.missing == Unfound(paths, SyncAvailable(s))
        && r.value.commit == (if SyncChanges(s, paths) == map[] then None else Some(FreshId(s)))
        && (r.value.commit.None? ==> State() == s)
        && Adopted(s, paths, r.value.changes, State())
      ensures r.Ok? ==> forall why :: !RefusesSync(Recovered(old(State())), maxAssetBytes, paths, why)
      ensures r.Err? && !r.Interrupted() ==>
        r.error.Rejected? && RefusesSync(Recovered(old(State())), maxAssetBytes, paths, r.error.why)
    {
      hide Inv, Recovered, Answers, Ready, Consistent, CommitLands, SyncChanges, SyncSame, ApplyTree,
           Adopted;
      ghost var start, call := State(), WorkSync(paths, time);
      NothingYet(start, call, start);
      if paths == [] {
        return Err(Rejected(NoPaths));
      }
      if !AllClean(paths) {
        return Err(Rejected(BadPath));
      }
      var recovery := RecoverLocked();
      ghost var s := State();
      NothingYet(start, call, s);
      if recovery.Err? {
        return Err(recovery.error);
      }
      IdleHead(s);
      IdleObjects(s);
      var report :- GatherSync(paths);
      var changes := report.changes;
      if changes == map[] {
        SyncAdoptsDisk(s, paths, time, s);
        return Ok(report);
      }
      var stored := StoreObjects(changes, shared);
      SpareAnswers(start, call, State());
      if stored.Err? {
        return Err(stored.error);
      }
      SpareKeeps(s, State());
      SyncLands(s, paths, time);
      var landed := ReserveAndLand(start, s, call, "external", SyncNote(time, |changes|), changes, None);
      if landed.Err? {
        return Err(landed.error);
      }
      SyncAdopted(start, paths, time, State());
      return Ok(report.(commit := Some(landed.value)));
    }

    /** Compares the listed files on disk with head. */
    method GatherSync(paths: seq<Path>) returns (r: Result<SyncReport>)
      ensures r.Ok? ==>
        && r.value.changes == SyncChanges(State(), paths) && r.value.same == SyncSame(State(), paths)
        && r.value.missing == Unfound(paths, SyncAvailable(State())) && r.value.commit.None?
      ensures r.Ok? ==> forall p | p in r.value.changes && !r.value.changes[p].Delete? ::
        p in shared && ContentHash(shared[p]) == r.value.changes[p].hash
      ensures r.Err? ==> r.Interrupted()
    {
      var tree := TreeAt(commits, head);
      var want, missing := ExpandPaths(paths, tree.Keys + shared.Keys);
      var changes: Changes, same: set<Path> := map[], {};
      var todo := want;
      while todo != {}
        invariant todo <= want
        invariant changes.Keys <= want - todo
        invariant forall p | p in want - todo ::
          (p in changes <==> JudgeSync(HashAt(shared, p), Get(tree, p)).Some?)
        invariant forall p | p in changes :: Some(changes[p]) == JudgeSync(HashAt(shared, p), Get(tree, p))
        invariant forall p :: p in same <==> p in want - todo && p in shared && HashAt(shared, p) == Get(tree, p)
      {
        var rel :| rel in todo;
        var _ :- Reading();
        match (HashAt(shared, rel), Get(tree, rel)) {
          case (None, None) =>
          case (None, Some(_)) => changes := changes[rel := Delete];
          case (Some(d), None) => changes := changes[rel := Add(d)];
          case (Some(d), Some(h)) =>
            if d == h {
              same := same + {rel};
            } else {
              changes := changes[rel := Modify(d)];
            }
        }
        todo := todo - {rel};
      }
      return Ok(SyncReport(None, changes, same, missing));
    }

    /** Puts a user's file into the shared area as a commit of its own; it is never refused as a conflict. */
    method WorkCommitUserFile(path: Path, bytes: Bytes, time: int, line: nat) returns (r: Result<nat>)
      requires Inv(State())
      modifies this
      ensures Answers(old(State()), WorkCommitUser(path, bytes, time, line), State(), r.Ok?, r.Interrupted())
      ensures r.Ok? ==> r.value == FreshId(Recovered(old(State()))) && head == Some(r.value)
      ensures r.Ok? ==>
        && HeadTree(State()) == HeadTree(Recovered(old(State())))[path := ContentHash(bytes)]
        && shared == Recovered(old(State())).shared[path := bytes]
      ensures r.Err? && !r.Interrupted() <==> !IsClean(path) || '/' in path || |bytes| > maxAssetBytes
    {
      hide Inv, Recovered, Answers, Ready, Consistent, CommitLands, CommitStep, Effect, UserChanges, ApplyTree,
           IsClean;
      ghost var start, call := State(), WorkCommitUser(path, bytes, time, line);
      NothingYet(start, call, start);
      if !IsClean(path) {
        return Err(Rejected(BadPath));
      }
      if '/' in path {
        return Err(Rejected(NotTopLevel));
      }
      if |bytes| > maxAssetBytes {
        return Err(Rejected(TooLarge));
      }
      var recovery := RecoverLocked();
      ghost var s := State();
      NothingYet(start, call, s);
      if recovery.Err? {
        return Err(recovery.error);
      }
      IdleHead(s);
      IdleObjects(s);
      var tree := TreeAt(commits, head);
      var hash := ContentHash(bytes);
      var written := WriteObject(bytes);
      SpareAnswers(start, call, State());
      if written.Err? {
        return Err(written.error);
      }
      SpareKeeps(s, State());
      var changes := map[path := if path in tree then Modify(hash) else Add(hash)];
      UserLands(s, path, bytes, time, line, changes);
      r := ReserveAndLand(start, s, call, "user", UserNote(time, path), changes, Some(Anchor("", line)));
      if r.Ok? {
        UserFileAdded(start, path, bytes, time, line, State());
      }
    }

    // ---------- pulling ----------

    /** Copies head's version of `rel` into the sandbox when the three-way rule says so. */
    method PullFile(agent: Agent, rel: Path, hash: Hash, base: Option<Hash>) returns (r: Result<PullOutcome>)
      requires agent in sandbox
      requires Object(hash) in objects && objects[Object(hash)] == hash.content
      modifies this`sandbox
      ensures var local := HashAt(old(sandbox)[agent], rel);
        var outcome := FileOutcome(Shown(external, shared, rel), Some(hash), base, local);
        var copied := if outcome == Updated then old(sandbox)[agent := old(sandbox)[agent][rel := hash.content]]
                      else old(sandbox);
        && (r.Ok? ==> r.value == outcome && sandbox == copied)
        && (r.Err? ==> r.Interrupted() && (sandbox == old(sandbox) || sandbox == copied))
    {
      var _ :- Reading();
      if external && HashAt(shared, rel) != Some(hash) {
        return Ok(DiffersOutside);
      }
      var local := HashAt(sandbox[agent], rel);
      var verdict := JudgePull(base, Some(hash), local);
      if verdict == Update {
        var copied := CopyObjectToSandbox(hash, agent, rel);
        if copied.Err? {
          return Err(copied.error);
        }
      }
      return Ok(OutcomeOf(verdict, local));
    }

    /** Brings head's version of the listed files into the agent's sandbox. A pull that
        stops half way records the baselines of the files it finished, if it still can. */
    method WorkPullPaths(agent: Agent, paths: seq<Path>) returns (r: Result<PullReport>)
      requires Inv(State())
      modifies this
      ensures Answers(old(State()), WorkPull(agent, paths), State(), r.Ok?, r.Interrupted())
      ensures r.Ok? ==>
        var s := Recovered(old(State()));
        && agent in s.sandbox && agent in s.indexes
        && var want := PullWant(s, paths);
           && State() == s.(sandbox := s.sandbox[agent := PulledBox(s, agent, want)],
                            indexes := s.indexes[agent := PulledIndex(s, agent, want)])
           && r.value == PullReport(s.head, PullOutcomes(s, agent, want), Unfound(paths, HeadTree(s).Keys))
      ensures r.Ok? ==> forall why :: !RefusesPull(Recovered(old(State())), agent, paths, why)
      ensures r.Err? && !r.Interrupted() ==>
        r.error.Rejected? && RefusesPull(Recovered(old(State())), agent, paths, r.error.why)
    {
      hide Inv, Recovered, Answers, Ready, Consistent, PulledBox, PulledIndex, PullVerdictAt, PullOutcomes, Adopting;
      ghost var start, call := State(), WorkPull(agent, paths);
      NothingYet(start, call, start);
      RecoveryFrame(start);
      if paths == [] {
        return Err(Rejected(NoPaths));
      }
      if !AllClean(paths) {
        return Err(Rejected(BadPath));
      }
      if agent !in sandbox {
        return Err(Rejected(UnknownAgent));
      }
      var recovery := RecoverLocked();
      ghost var s := State();
      NothingYet(start, call, s);
      if recovery.Err? {
        return Err(recovery.error);
      }
      IdleAgents(start, s, agent);
      if head.None? {
        return Err(Rejected(EmptyRepository));
      }
      var want, missing := ExpandPaths(paths, TreeAt(commits, head).Keys);
      var index, outcomes, stopped, copied := PullAll(s, agent, want);
      ghost var done := outcomes.Keys;
      PullNothing(s, agent);
      PullAnswers(start, call, s, copied, {}, State());
      if stopped == Err(Crash) {
        return Err(Crash);
      }
      PullAnswers(start, call, s, copied, done, State().(indexes := s.indexes[agent := index]));
      if stopped.Err? {
        if exists p | p in outcomes :: outcomes[p] in {Updated, Already} {
          var saved := WriteIndex(agent, index);
          if saved == Err(Crash) {
            return Err(Crash);
          }
        }
        return Err(stopped.error);
      }
      var saved := WriteIndex(agent, index);
      return if saved.Ok? then Ok(PullReport(head, outcomes, missing)) else Err(saved.error);
    }

    /** The file loop of a pull. */
    method PullAll(ghost s: Repo, agent: Agent, want: set<Path>)
      returns (index: Tree, outcomes: map<Path, PullOutcome>, stopped: Result<()>, ghost copied: set<Path>)
      requires Idle(s) && s == State() && agent in sandbox && agent in indexes
      requires want <= TreeAt(commits, head).Keys
      modifies this`sandbox
      ensures outcomes == PullOutcomes(s, agent, outcomes.Keys)
      ensures outcomes.Keys <= copied <= want && index == PulledIndex(s, agent, outcomes.Keys)
      ensures State() == s.(sandbox := s.sandbox[agent := PulledBox(s, agent, copied)])
      ensures stopped.Ok? ==> outcomes.Keys == want && copied == want
      ensures stopped.Err? ==> stopped.Interrupted()
    {
      hide Idle, Consistent, PulledBox, PulledIndex, PullOutcomes, PullSoFar, FileOutcome, HashAt, Get;
      var tree := TreeAt(commits, head);
      index, outcomes, stopped := indexes[agent], map[], Ok(());
      var todo := want;
      ghost var seen: set<Path> := {};
      PullStarts(s, agent);
      while todo != {}
        invariant todo <= want && seen == want - todo
        invariant State() == s.(sandbox := sandbox) && PullSoFar(s, agent, seen, sandbox, index, outcomes)
        invariant stopped == Ok(())
      {
        var rel :| rel in todo;
        PullOneMore(s, agent, seen, sandbox, index, outcomes, rel);
        ghost var before, noted := sandbox, seen;
        PullEnds(s, agent, seen, before, index, outcomes);
        var base := Get(index, rel);
        ghost var local := HashAt(before[agent], rel);
        ghost var outcome' := FileOutcome(Shown(external, shared, rel), Some(tree[rel]), base, local);
        seen := seen + {rel};
        PullEnds(s, agent, seen,
                 if outcome' == Updated then before[agent := before[agent][rel := tree[rel].content]] else before,
                 if outcome' in {Updated, Already} then index[rel := tree[rel]] else index, outcomes[rel := outcome']);
        var pulled := PullFile(agent, rel, tree[rel], base);
        if pulled.Err? {
          copied := if sandbox == before then noted else seen;
          return index, outcomes, Err(pulled.error), copied;
        }
        var outcome := pulled.value;
        if outcome in {Updated, Already} {
          index := index[rel := tree[rel]];
        }
        outcomes := outcomes[rel := outcome];
        todo := todo - {rel};
      }
      PullEnds(s, agent, seen, sandbox, index, outcomes);
      copied := seen;
      assert copied == want;
    }

    // ---------- resolving ----------

    /** Takes head's side of the listed files, or keeps the agent's side as merged. Files
        that taking head's side would destroy are backed up before anything is touched. */
    method WorkResolvePaths(agent: Agent, paths: seq<Path>, take: Take, expectHead: Option<nat>)
      returns (r: Result<ResolveReport>)
      requires Inv(State())
      modifies this
      ensures Answers(old(State()), WorkResolve(agent, paths, take, expectHead), State(), r.Ok?, r.Interrupted())
      ensures r.Ok? ==>
        var s := Recovered(old(State()));
        && agent in s.sandbox && agent in s.indexes && agent in s.lost
        && var want := ResolveWant(s, agent, paths);
           && r.value == ResolveReport(s.head, Entries(s, agent, take, want),
                                       Unfound(paths, ResolveAvailable(s, agent)), Warnings(s, agent, take, want))
           && ResolvedAll(s, agent, want, take, State())
      ensures r.Ok? ==> forall why :: !RefusesResolve(Recovered(old(State())), agent, paths, take, expectHead, why)
      ensures r.Err? && !r.Interrupted() ==>
        r.error.Rejected? && RefusesResolve(Recovered(old(State())), agent, paths, take, expectHead, r.error.why)
    {
      hide Inv, Recovered, Answers, Ready, Consistent, ResolvedSome, ResolveAllowed, ResolveStep, KeepsUnmerged, AtRisk,
           RefusesResolve, ResolvedAll, Entries, Warnings, Effect, Expanded, AllFound, IsClean;
      ResolveRefusals(Recovered(State()), agent, paths, take, expectHead);
      ghost var start, call := State(), WorkResolve(agent, paths, take, expectHead);
      NothingYet(start, call, start);
      RecoveryFrame(start);
      if paths == [] {
        return Err(Rejected(NoPaths));
      }
      if !AllClean(paths) {
        return Err(Rejected(BadPath));
      }
      if agent !in sandbox {
        return Err(Rejected(UnknownAgent));
      }
      var recovery := RecoverLocked();
      ghost var s := State();
      NothingYet(start, call, s);
      if recovery.Err? {
        return Err(recovery.error);
      }
      IdleAgents(start, s, agent);
      IdleHead(s);
      var want, missing := ExpandPaths(paths, indexes[agent].Keys + TreeAt(commits, head).Keys + sandbox[agent].Keys);
      if want == {} {
        return Err(Rejected(PathsMissing));
      }
      if take.Local? && head.Some? && expectHead != head {
        return Err(Rejected(if expectHead.Some? then HeadMoved else HeadRequired));
      }
      var warnings :- PlanResolve(agent, want, take);
      if !OneComponent(agent) {
        return Err(Rejected(BadPath));
      }
      ResolveMayGo(s, agent, want, take, expectHead);
      var resolved := CarryOutResolve(start, s, call, agent, take, want);
      return if resolved.Ok? then Ok(ResolveReport(head, resolved.value, missing, warnings)) else Err(resolved.error);
    }

    /** Looks at every file before anything is touched; keeping an unmodified local file is refused. */
    method PlanResolve(agent: Agent, want: set<Path>, take: Take) returns (r: Result<map<Path, LocalTake>>)
      requires agent in sandbox && agent in indexes && Stored(State(), head)
      ensures r.Ok? && take.Local? ==> !KeepsUnmerged(State(), agent, want)
      ensures r.Err? ==>
        r.Interrupted() || (r == Err(Rejected(LocalUnchanged)) && take.Local? && KeepsUnmerged(State(), agent, want))
      ensures r.Ok? ==> r.value == Warnings(State(), agent, take, want)
    {
      hide Warnings, Denied, LocalTakeAt, KeepsUnmerged;
      ghost var s := State();
      var tree := TreeAt(commits, head);
      var denied: set<Path>, warnings: map<Path, LocalTake> := {}, map[];
      var todo := want;
      NoWarnings(s, agent, take);
      while todo != {}
        invariant todo <= want
        invariant denied == Denied(s, agent, take, want - todo) && warnings == Warnings(s, agent, take, want - todo)
      {
        var rel :| rel in todo;
        assert want - (todo - {rel}) == (want - todo) + {rel};
        OneMoreWarning(s, agent, take, want - todo, rel);
        var _ :- Reading();
        if take.Local? {
          var verdict := JudgeLocalTake(Get(indexes[agent], rel), Get(tree, rel), HashAt(sandbox[agent], rel));
          match verdict {
            case DenyUnchanged => denied := denied + {rel};
            case Accept =>
            case _ => warnings := warnings[rel := verdict];
          }
        }
        todo := todo - {rel};
      }
      assert want - todo == want;
      DeniedKeepsUnmerged(s, agent, take, want);
      if denied != {} {
        return Err(Rejected(LocalUnchanged));
      }
      return Ok(warnings);
    }

    method CarryOutResolve(ghost start: Repo, ghost s: Repo, ghost call: Call, agent: Agent, take: Take,
                           want: set<Path>)
      returns (r: Result<map<Path, ResolveEntry>>)
      requires Inv(start) && s == Recovered(start) && s == State() && Idle(s)
      requires call.WorkResolve? && call.agent == agent && call.take == take
      requires agent in sandbox && agent in indexes && agent in lost
      requires want == ResolveWant(s, agent, call.paths)
      requires ResolveAllowed(s, agent, want, take, call.expectHead)
      modifies this`lost, this`sandbox, this`indexes
      ensures Answers(start, call, State(), r.Ok?, r.Interrupted())
      ensures r.Ok? ==> r.value == Entries(s, agent, take, want) && ResolvedAll(s, agent, want, take, State())
      ensures r.Err? ==> r.Interrupted()
    {
      hide Inv, Recovered, Answers, Idle, Consistent, ResolvedSome, Entries, ResolveAllowed, ResolveStep,
           ResolveWant, AtRisk, Overlay, Contents;
      var risky := FilesAtRisk(agent, want, take);
      NoOverlay(s, agent);
      var backed, saved := BackUp(s, agent, risky);
      ResolveAnswers(start, call, s, want, saved, {}, false, State());
      if backed.Err? {
        return Err(backed.error);
      }
      var index, changed, entries, applied, taken := ApplyTake(s, agent, want, take);
      ResolveAnswers(start, call, s, want, risky, taken, false, State());
      if applied.Err? {
        return Err(applied.error);
      }
      ResolveAnswers(start, call, s, want, risky, taken, true, State().(indexes := s.indexes[agent := index]));
      if changed {
        var written := WriteIndex(agent, index);
        if written.Err? {
          return Err(written.error);
        }
      }
      return Ok(entries);
    }

    method FilesAtRisk(agent: Agent, want: set<Path>, take: Take) returns (risky: set<Path>)
      requires agent in sandbox
      ensures risky == if take.Upstream? then AtRisk(State(), agent, want) else {}
      ensures risky <= sandbox[agent].Keys
    {
      var tree := TreeAt(commits, head);
      risky := if take.Local? then {} else set p | p in want && NeedsBackup(Get(tree, p), HashAt(sandbox[agent], p));
    }

    /** Copies the files at risk into the agent's backups. */
    method BackUp(ghost s: Repo, agent: Agent, risky: set<Path>) returns (r: Result<()>, ghost saved: set<Path>)
      requires s == State() && agent in sandbox && agent in lost && risky <= sandbox[agent].Keys
      modifies this`lost
      ensures saved <= risky && lost == s.lost[agent := Overlay(s.lost[agent], s.sandbox[agent], saved)]
      ensures r.Ok? ==> saved == risky
      ensures r.Err? ==> r.Interrupted()
    {
      hide Overlay;
      var todo := risky;
      saved := {};
      r := Ok(());
      OverlayNone(s.lost[agent], s.sandbox[agent]);
      while todo != {}
        invariant todo <= risky && saved == risky - todo
        invariant lost == s.lost[agent := Overlay(s.lost[agent], s.sandbox[agent], saved)]
        invariant r.Ok?
      {
        var rel :| rel in todo;
        OverlayMore(s.lost[agent], s.sandbox[agent], saved, rel);
        ghost var before := lost;
        assert before[agent := Overlay(s.lost[agent], s.sandbox[agent], saved + {rel})]
            == s.lost[agent := Overlay(s.lost[agent], s.sandbox[agent], saved + {rel})];
        r := CopySandboxToLost(agent, rel);
        if r.Err? {
          saved := if lost == before then saved else saved + {rel};
          return;
        }
        saved := saved + {rel};
        todo := todo - {rel};
      }
      assert saved == risky;
    }

    /** Brings sandbox and baseline to the chosen side, file by file; the baseline stays in memory. */
    method ApplyTake(ghost s: Repo, agent: Agent, want: set<Path>, take: Take)
      returns (index: Tree, changed: bool, entries: map<Path, ResolveEntry>, r: Result<()>, ghost taken: set<Path>)
      requires Idle(s) && s.(lost := lost) == State() && agent in sandbox && agent in indexes
      modifies this`sandbox
      ensures taken <= want && (take.Local? ==> taken == {})
      ensures sandbox == s.sandbox[agent := Overlay(s.sandbox[agent], Contents(HeadTree(s)), taken)]
      ensures r.Ok? ==> index == Overlay(s.indexes[agent], HeadTree(s), want)
      ensures r.Ok? ==> entries == Entries(s, agent, take, want)
      ensures r.Ok? && !changed ==> index == s.indexes[agent]
      ensures r.Ok? && take.Upstream? ==> taken == want
      ensures r.Err? ==> r.Interrupted()
    {
      hide Overlay, Contents, Idle, Consistent, Entries, TakeSoFar, ActionOf, HashAt, Get;
      var tree := TreeAt(commits, head);
      index, changed, entries, r, taken := indexes[agent], false, map[], Ok(()), {};
      var todo := want;
      TakeStarts(s, agent, take);
      ghost var done: set<Path> := {};
      while todo != {}
        invariant todo <= want && done == want - todo && taken == if take.Local? then {} else done
        invariant TakeSoFar(s, agent, take, done, sandbox, index, entries)
        invariant !changed ==> index == s.indexes[agent]
        invariant r.Ok?
      {
        var rel :| rel in todo;
        ghost var before := sandbox;
        TakeStands(s, agent, take, done, before, index, entries);
        TakeOneMore(s, agent, take, done, before, index, entries, rel);
        var hash, base, local := Get(tree, rel), Get(index, rel), HashAt(sandbox[agent], rel);
        if take.Upstream? {
          TakeStands(s, agent, take, done + {rel}, before[agent := WithVersion(before[agent], rel, hash)],
                     WithEntry(index, rel, hash), entries[rel := EntryAt(s, agent, take, rel)]);
          r := TakeUpstream(agent, rel, hash);
          if r.Err? {
            taken := if sandbox == before then taken else taken + {rel};
            return;
          }
          taken := taken + {rel};
        }
        var action := NothingToDo;
        if hash.Some? {
          if base != hash {
            changed := true;
            action := Marked;
          }
          if take.Upstream? && local != hash {
            action := WroteUpstream;
          }
        } else {
          var hadLocal := take.Upstream? && local.Some?;
          changed := changed || hadLocal || base.Some?;
          action := if hadLocal then RemovedLocal else if base.Some? then Cleared else NothingToDo;
        }
        SameEntryKept(index, rel, hash);
        ActionIs(take, base, hash, local);
        index := WithEntry(index, rel, hash);
        var backup := if take.Upstream? && NeedsBackup(hash, local) then Some(LostRel(agent, rel)) else None;
        entries := entries[rel := ResolveEntry(action, backup)];
        done := done + {rel};
        todo := todo - {rel};
      }
      assert done == want;
      TakeStands(s, agent, take, done, sandbox, index, entries);
    }

    /** Overwrites or deletes one sandbox file so that it is head's version. */
    method TakeUpstream(agent: Agent, rel: Path, hash: Option<Hash>) returns (r: Result<()>)
      requires agent in sandbox
      requires hash.Some? ==> Object(hash.value) in objects && objects[Object(hash.value)] == hash.value.content
      modifies this`sandbox
      ensures var box := old(sandbox)[agent];
        var after := old(sandbox)[agent := WithVersion(box, rel, hash)];
        && (sandbox == after || (r.Err? && sandbox == old(sandbox)))
        && (r.Err? ==> r.Interrupted())
    {
      var box := sandbox[agent];
      if hash.Some? {
        if HashAt(box, rel) == hash {
          assert box[rel := hash.value.content] == box;
          assert sandbox[agent := box] == sandbox;
          return Ok(());
        }
        r := CopyObjectToSandbox(hash.value, agent, rel);
      } else {
        if rel !in box {
          assert box - {rel} == box;
          assert sandbox[agent := box] == sandbox;
          return Ok(());
        }
        r := RemoveFromSandbox(agent, rel);
      }
    }

    /** Copies a backup back over the sandbox file, provided that file is what the caller last saw. */
    method WorkRestoreLostPath(agent: Agent, path: Path, expectCurrent: Option<Hash>) returns (r: Result<RestoreReport>)
      requires Inv(State())
      modifies this
      ensures Answers(old(State()), WorkRestoreLost(agent, path, expectCurrent), State(), r.Ok?, r.Interrupted())
      ensures r.Ok? ==>
        var s := Recovered(old(State()));
        && agent in s.sandbox && agent in s.lost && path in s.lost[agent] && lost == s.lost
        && r.value.previous == expectCurrent == HashAt(s.sandbox[agent], path)
        && r.value.hash == ContentHash(s.lost[agent][path]) && r.value.size == |s.lost[agent][path]|
      ensures r.Ok? ==> forall why :: !RefusesRestoreLost(Recovered(old(State())), agent, path, expectCurrent, why)
      ensures r.Err? && !r.Interrupted() ==>
        r.error.Rejected? && RefusesRestoreLost(Recovered(old(State())), agent, path, expectCurrent, r.error.why)
    {
      hide Inv, Recovered, Answers, Ready, Consistent, IsClean, HashAt, Effect, RefusesRestoreLost;
      ghost var start, call := State(), WorkRestoreLost(agent, path, expectCurrent);
      NothingYet(start, call, start);
      RestoreLostRefusals(Recovered(start), agent, path, expectCurrent);
      RecoveryFrame(start);
      if !IsClean(path) {
        return Err(Rejected(BadPath));
      }
      if agent !in sandbox {
        return Err(Rejected(UnknownAgent));
      }
      var recovery := RecoverLocked();
      ghost var s := State();
      NothingYet(start, call, s);
      if recovery.Err? {
        return Err(recovery.error);
      }
      IdleAgents(start, s, agent);
      if !OneComponent(agent) {
        return Err(Rejected(BadPath));
      }
      if path !in lost[agent] {
        return Err(Rejected(NoBackup));
      }
      var current := HashAt(sandbox[agent], path);
      if current != expectCurrent {
        return Err(Rejected(NotAsExpected));
      }
      RestoreLostAnswers(start, s, agent, path, expectCurrent);
      var copied := CopyLostToSandbox(agent, path);
      var backup := lost[agent][path];
      return if copied.Ok? then Ok(RestoreReport(ContentHash(backup), |backup|, current)) else Err(copied.error);
    }

    // ---------- reclaiming objects ----------

    /** Every fingerprint a stored commit tree or a baseline mentions. */
    method ReachableHashes() returns (r: Result<set<Hash>>)
      ensures r.Ok? ==> forall h :: h in r.value <==> Reachable(State(), h)
      ensures r.Err? ==> r.Interrupted()
    {
      var found: set<Hash> := {};
      var ids := commits.Keys;
      while ids != {}
        invariant ids <= commits.Keys
        invariant forall h :: h in found <==>
          exists id, p :: id in commits && id !in ids && p in commits[id].tree && commits[id].tree[p] == h
      {
        var id :| id in ids;
        var _ :- Reading();
        found := found + commits[id].tree.Values;
        ids := ids - {id};
      }
      ghost var fromCommits := found;
      var agents := indexes.Keys;
      while agents != {}
        invariant agents <= indexes.Keys
        invariant forall h :: h in found <==>
          (h in fromCommits || exists a, p :: a in indexes && a !in agents && p in indexes[a] && indexes[a][p] == h)
      {
        var a :| a in agents;
        var _ :- Reading();
        found := found + indexes[a].Values;
        agents := agents - {a};
      }
      return Ok(found);
    }

    /** Counts the object directory and, with `apply`, deletes what nothing refers to. */
    method WorkGcNow(apply: bool) returns (r: Result<GcReport>)
      requires Inv(State())
      modifies this
      ensures Answers(old(State()), WorkGc, State(), r.Ok?, r.Interrupted())
      ensures r.Ok? ==> r.value == GcReportOf(Recovered(old(State())), apply) && AddsUp(r.value)
      ensures r.Ok? ==>
        var s := Recovered(old(State()));
        State() == s.(objects := if apply then Swept(s, s.objects.Keys) else s.objects)
    {
      hide Inv, Recovered, Answers, Ready, Consistent, Reachable, Swept;
      ghost var start, call := State(), WorkGc;
      var recovery := RecoverLocked();
      ghost var s := State();
      NothingYet(start, call, s);
      if recovery.Err? {
        return Err(recovery.error);
      }
      var reachable :- ReachableHashes();
      var report, swept := Sweep(s, apply, reachable);
      GcKeeps(s, State());
      EffectAnswers(start, call, State());
      if swept.Err? {
        return Err(swept.error);
      }
      GcCountsAddUp(s, apply);
      return Ok(report);
    }

    method Sweep(ghost s: Repo, apply: bool, reachable: set<Hash>) returns (report: GcReport, r: Result<()>)
      requires s == State() && forall h :: h in reachable <==> Reachable(s, h)
      modifies this`objects
      ensures GcStep(s, State())
      ensures r.Ok? ==>
        && report == GcReportOf(s, apply)
        && objects == (if apply then Swept(s, s.objects.Keys) else s.objects)
      ensures r.Err? ==> r.Interrupted()
    {
      hide Reachable, GcReportFor, Swept, GcStep, Tally;
      report, r := GcReport(apply, 0, 0, 0, 0, 0, 0, 0, 0, 0, 0), Ok(());
      ghost var seen: set<ObjName> := {};
      var listed := objects;
      var todo := listed.Keys;
      NoneSeen(s, apply);
      while todo != {}
        invariant todo <= s.objects.Keys && seen == s.objects.Keys - todo
        invariant objects == if apply then Swept(s, seen) else s.objects
        invariant report == GcReportFor(s, seen, apply)
        invariant GcStep(s, State()) && r.Ok?
      {
        var o :| o in todo;
        var wanted := o.Object? && o.hash in reachable;
        TallyStep(s, seen, o, apply);
        SweptStep(s, seen, o);
        if apply && !wanted {
          r := RemoveObject(o);
          if r.Err? {
            return;
          }
        }
        report := Tally(report, o, |listed[o]|, wanted);
        seen := seen + {o};
        todo := todo - {o};
      }
      assert seen == s.objects.Keys;
    }
  }
}
