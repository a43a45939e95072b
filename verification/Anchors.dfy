/** What a commit's record is good for afterwards: rewinding by the transcript line that
    made it, and the log that shows it. */
module Anchors {
  import opened Outcomes
  import Texts
  import opened WorkTree
  import opened Workstore
  import opened Repository
  import opened Steps
  import opened Preservation
  import opened Effects
  import opened CommitLog

  // ---------- rewinding ----------

  /** `t` is the store `s` with the commit `c` added under a new id, as head. */
  ghost predicate JustLanded(s: Repo, c: Commit, t: Repo) {
    && Idle(s) && Idle(t) && t.head == Some(c.id) && t.commits == s.commits[c.id := c]
    && c.id == FreshId(s) && c.parent == s.head
  }

  lemma CommitJustLanded(s: Repo, agent: Agent, paths: seq<Path>, deletes: seq<Path>, line: nat, note: Note, t: Repo)
    returns (c: Commit)
    requires Idle(s) && CommitStep(s, agent, paths, deletes, line, note, t)
    ensures JustLanded(s, c, t) && c.author == agent && c.note == Trimmed(note)
    ensures c.anchor == Some(Anchor(agent, line)) && c.changes.Keys == Changed(s, t)
  {
    hide Idle, HeadTree, CommitLands, PlannedChanges, PlannedConflicts, CommitLocals, UntouchedOutside, CommittedAt;
    var changes := PlannedChanges(s.indexes[agent], HeadTree(s), CommitLocals(s, agent, paths, deletes));
    c := NewCommit(s, agent, Trimmed(note), changes, Some(Anchor(agent, line)));
    LandedFacts(s, c, Some(PendingIndex(agent, ApplyTree(s.indexes[agent], changes))), t);
    CommitStepKeeps(s, agent, paths, deletes, line, note, t);
    CommitTakesEdits(s, agent, paths, deletes, line, note, t);
    forall p
      ensures p in changes <==> Get(HeadTree(t), p) != Get(HeadTree(s), p)
    {
      assert CommittedAt(s, agent, paths, deletes, changes, t, p);
      ReportedAt(s, agent, paths, deletes, changes, t, p);
    }
    ChangedAre(s, t, changes.Keys);
  }

  lemma ReportedAt(s: Repo, agent: Agent, paths: seq<Path>, deletes: seq<Path>, changes: Changes, t: Repo, p: Path)
    requires agent in s.sandbox && agent in s.indexes && agent in t.indexes
    requires CommittedAt(s, agent, paths, deletes, changes, t, p)
    ensures p in changes <==> Get(HeadTree(t), p) != Get(HeadTree(s), p)
  {
  }

  /** The paths at which head is not what it was. */
  ghost function Changed(s: Repo, t: Repo): set<Path> {
    set p | p in HeadTree(s).Keys + HeadTree(t).Keys && Get(HeadTree(t), p) != Get(HeadTree(s), p)
  }

  lemma ChangedAre(s: Repo, t: Repo, paths: set<Path>)
    requires forall p :: p in paths <==> Get(HeadTree(t), p) != Get(HeadTree(s), p)
    ensures paths == Changed(s, t)
  {
    hide HeadTree;
  }

  lemma SyncJustLanded(s: Repo, paths: seq<Path>, time: int, t: Repo) returns (c: Commit)
    requires Idle(s) && SyncStep(s, paths, time, t)
    ensures JustLanded(s, c, t) && c.author == "external" && c.anchor == None && c.changes.Keys == Changed(s, t)
    ensures c.note == SyncNote(time, |Changed(s, t)|)
  {
    hide Idle, HeadTree, CommitLands, SyncChanges, AdoptedAt;
    var changes := SyncChanges(s, paths);
    c := NewCommit(s, "external", SyncNote(time, |changes|), changes, None);
    LandedFacts(s, c, None, t);
    SyncStepKeeps(s, paths, time, t);
    SyncAdoptsDisk(s, paths, time, t);
    forall p
      ensures p in changes <==> Get(HeadTree(t), p) != Get(HeadTree(s), p)
    {
      assert AdoptedAt(s, paths, changes, t, p);
      AdoptedChange(s, paths, changes, t, p);
    }
    ChangedAre(s, t, changes.Keys);
  }

  lemma AdoptedChange(s: Repo, paths: seq<Path>, changes: Changes, t: Repo, p: Path)
    requires AdoptedAt(s, paths, changes, t, p)
    ensures p in changes <==> Get(HeadTree(t), p) != Get(HeadTree(s), p)
  {
  }

  lemma UserFileJustLanded(s: Repo, path: Path, bytes: Bytes, time: int, line: nat, t: Repo) returns (c: Commit)
    requires Idle(s) && UserCommitStep(s, path, bytes, time, line, t)
    ensures JustLanded(s, c, t) && c.author == "user" && c.anchor == Some(Anchor("", line))
    ensures c.note == UserNote(time, path) && c.changes.Keys == {path}
  {
    hide Idle, HeadTree, CommitLands;
    c := NewCommit(s, "user", UserNote(time, path), UserChanges(s, path, bytes), Some(Anchor("", line)));
    LandedFacts(s, c, None, t);
    UserStepKeeps(s, path, bytes, time, line, t);
  }

  lemma NewestOnChain(s: Repo, c: Commit, t: Repo)
    requires JustLanded(s, c, t)
    ensures forall id | id in t.commits :: id <= c.id
    ensures Ancestors(t.commits, t.head) <= t.commits.Keys && c.id in Ancestors(t.commits, t.head)
  {
    hide HistoryOk, Closed, ObjectsOk, TreeClosed, ApplyTree;
  }

  lemma OlderChain(t: Repo, target: Option<nat>, id: nat)
    requires Idle(t) && (target.Some? ==> target.value in t.commits && target.value < id)
    ensures id !in Ancestors(t.commits, target)
  {
    LineageIsAncestors(t.commits, target);
  }

  /** Rewinding right after an agent's commit stays at that commit when the agent's transcript is
      kept up to the commit's line; otherwise, the agent's whole transcript being dropped
      included, it goes to an older one, whose chain the commit is not on. */
  lemma RewindAfterCommit(s: Repo, agent: Agent, paths: seq<Path>, deletes: seq<Path>, line: nat, note: Note, t: Repo,
                          keepByAgent: map<Agent, nat>, u: Repo)
    requires Idle(s) && CommitStep(s, agent, paths, deletes, line, note, t) && RewindStep(t, keepByAgent, u)
    ensures agent in keepByAgent && line <= keepByAgent[agent] ==> u.head == t.head
    ensures agent !in keepByAgent || keepByAgent[agent] < line ==>
      (u.head.Some? ==> u.head.value < t.head.value) && FreshId(s) !in Ancestors(u.commits, u.head)
  {
    hide Idle, CommitStep, Moved, Ancestors, Changed;
    var c := CommitJustLanded(s, agent, paths, deletes, line, note, t);
    NewestOnChain(s, c, t);
    if agent !in keepByAgent || keepByAgent[agent] < line {
      assert c.id !in WithinCommits(t, keepByAgent);
      OlderChain(t, u.head, c.id);
      MoveKeepsCommits(t, u.head);
    } else {
      assert c.id in WithinCommits(t, keepByAgent);
    }
  }

  lemma MoveKeepsCommits(s: Repo, target: Option<nat>)
    ensures Moved(s, target).commits == s.commits && Moved(s, target).head == target
  {
    hide Brought, TreeAt;
  }

  /** A commit that adopted outside edits has no line: no rewind right after it passes it over. */
  lemma RewindAfterSync(s: Repo, paths: seq<Path>, time: int, t: Repo, keepByAgent: map<Agent, nat>, u: Repo)
    requires Idle(s) && SyncStep(s, paths, time, t) && RewindStep(t, keepByAgent, u)
    ensures u.head == t.head
  {
    hide Idle, SyncStep, Moved, Ancestors, Changed, SyncNote;
    var c := SyncJustLanded(s, paths, time, t);
    NewestOnChain(s, c, t);
    assert c.id in WithinCommits(t, keepByAgent);
  }

  // ---------- the log ----------

  /** The first page begins with the commit just landed, and so does the summary of head. */
  lemma NewestIsFirst(s: Repo, c: Commit, t: Repo, limit: nat, entries: seq<Entry>, truncated: bool)
    requires JustLanded(s, c, t) && limit > 0 && IsPage(t, limit, None, entries, truncated)
    ensures entries != [] && entries[0] == Entry(c.id, s.head, c.author, c.note, |c.changes.Keys|, true)
    ensures HeadSummary(t) == Some(Summary(c.id, c.author, c.note.time, c.note.message))
  {
    NewestOnChain(s, c, t);
    OlderThanFirst(t, limit, entries, truncated, c.id);
    EntryIs(t, c.id);
    hide Ancestors, Idle, IsPage, Listed, EntryOf;
  }

  /** After an agent's commit the log begins with it: under the agent's name, with its message
      trimmed, and as many changes as head changed at. */
  lemma LogShowsCommit(s: Repo, agent: Agent, paths: seq<Path>, deletes: seq<Path>, line: nat, note: Note, t: Repo,
                       limit: nat, entries: seq<Entry>, truncated: bool)
    requires Idle(s) && CommitStep(s, agent, paths, deletes, line, note, t)
    requires limit > 0 && IsPage(t, limit, None, entries, truncated)
    ensures entries != []
    ensures entries[0] == Entry(FreshId(s), s.head, agent, Note(note.session, note.time, Texts.Trim(note.message)),
                                |Changed(s, t)|, true)
    ensures HeadSummary(t) == Some(Summary(FreshId(s), agent, note.time, Texts.Trim(note.message)))
  {
    hide Idle, CommitStep, IsPage, Changed, HeadSummary;
    var c := CommitJustLanded(s, agent, paths, deletes, line, note, t);
    NewestIsFirst(s, c, t, limit, entries, truncated);
  }

  /** So it does after a sync and after a user's file, which are told apart by their authors. */
  lemma LogShowsOthers(s: Repo, call: Call, t: Repo, limit: nat, entries: seq<Entry>, truncated: bool)
    requires Idle(s) && (call.WorkSync? || call.WorkCommitUser?) && Effect(s, call, t)
    requires limit > 0 && IsPage(t, limit, None, entries, truncated)
    ensures entries != []
    ensures call.WorkSync? ==> entries[0] == Entry(FreshId(s), s.head, "external",
      Note("", call.time, "外部工作区同步：" + Texts.Decimal(|Changed(s, t)|) + " 条"), |Changed(s, t)|, true)
    ensures call.WorkCommitUser? ==>
      entries[0] == Entry(FreshId(s), s.head, "user", Note("", call.time, "用户投喂：" + call.path), 1, true)
  {
    hide Idle, SyncStep, UserCommitStep, IsPage, Changed, HeadSummary;
    if call.WorkSync? {
      var c := SyncJustLanded(s, call.paths, call.time, t);
      NewestIsFirst(s, c, t, limit, entries, truncated);
    } else {
      var c := UserFileJustLanded(s, call.path, call.bytes, call.time, call.line, t);
      NewestIsFirst(s, c, t, limit, entries, truncated);
    }
  }
}
