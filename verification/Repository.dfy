/** The whole persistent state of one work, what its redo journal means, and the
    invariant that holds at every point where the process can die. */
module Repository {
  import opened Outcomes
  import opened WorkTree

  /** A file of the object directory: a content object, or a leftover temporary. */
  datatype ObjName = Object(hash: Hash) | Stray(name: string)

  datatype PendingIndex = PendingIndex(agent: Agent, index: Tree)

  /** The one-slot redo journal. */
  datatype Pending =
    | Committing(commit: Commit, index: Option<PendingIndex>)
    | Restoring(target: Option<nat>)
    | Discarding(keep: Option<nat>)

  /** `external` says whether the shared area is bound to a folder outside the
      product. `indexes` holds a baseline for every agent, empty when the agent
      never pulled; `sandbox` and `lost` hold its files and its backups. */
  datatype Repo = Repo(
    external: bool,
    objects: map<ObjName, Bytes>,
    commits: Commits,
    head: Option<nat>,
    indexes: map<Agent, Tree>,
    nextId: Option<nat>,
    pending: Option<Pending>,
    shared: Files,
    sandbox: map<Agent, Files>,
    lost: map<Agent, Files>)

  function HeadTree(s: Repo): Tree {
    TreeAt(s.commits, s.head)
  }

  // ---------- what the journal means ----------

  /** The effect of a commit, in one step. */
  function Landed(s: Repo, c: Commit, index: Option<PendingIndex>): Repo {
    s.(shared := ApplyFiles(s.shared, c.changes),
       commits := s.commits[c.id := c],
       head := Some(c.id),
       indexes := if index.Some? then s.indexes[index.value.agent := index.value.index] else s.indexes)
  }

  /** The effect of moving the shared area and head to a commit, in one step. */
  function Moved(s: Repo, target: Option<nat>): Repo {
    s.(shared := Brought(s.shared, HeadTree(s), TreeAt(s.commits, target)), head := target)
  }

  /** The effect of a discard, in one step. */
  ghost function Discarded(s: Repo, keep: Option<nat>): Repo {
    Moved(s, keep).(commits := Keep(s.commits, Ancestors(s.commits, keep)))
  }

  /** The state once the journal, if any, has been carried out. */
  ghost function Recovered(s: Repo): Repo {
    var idle := s.(pending := None);
    match s.pending
    case None => s
    case Some(Committing(c, index)) => Landed(idle, c, index)
    case Some(Restoring(target)) => Moved(idle, target)
    case Some(Discarding(keep)) => Discarded(idle, keep)
  }

  lemma LandedFrame(s: Repo, c: Commit, index: Option<PendingIndex>)
    ensures Landed(s, c, index).pending == s.pending && Landed(s, c, index).sandbox == s.sandbox
  {
  }

  lemma MovedFrame(s: Repo, target: Option<nat>)
    ensures Moved(s, target).pending == s.pending && Moved(s, target).sandbox == s.sandbox
  {
    hide Brought, TreeAt;
  }

  lemma DiscardedFrame(s: Repo, keep: Option<nat>)
    ensures Discarded(s, keep).pending == s.pending && Discarded(s, keep).sandbox == s.sandbox
  {
    hide Brought, TreeAt, Ancestors, Keep;
  }

  /** Recovery empties the journal and leaves the sandboxes alone. */
  lemma RecoveryFrame(s: Repo)
    ensures Recovered(s).pending.None? && Recovered(s).sandbox == s.sandbox
  {
    hide Landed, Moved, Discarded;
    var idle := s.(pending := None);
    match s.pending {
      case None =>
      case Some(Committing(c, index)) => LandedFrame(idle, c, index);
      case Some(Restoring(target)) => MovedFrame(idle, target);
      case Some(Discarding(keep)) => DiscardedFrame(idle, keep);
    }
  }

  ghost predicate TreeClosed(tree: Tree, objects: map<ObjName, Bytes>) {
    forall p | p in tree :: Object(tree[p]) in objects
  }

  ghost predicate ObjectsOk(objects: map<ObjName, Bytes>) {
    forall h: Hash | Object(h) in objects :: objects[Object(h)] == h.content
  }

  /** Every fingerprint of a commit tree or a baseline has its object. */
  ghost predicate Closed(s: Repo) {
    && (forall id | id in s.commits :: TreeClosed(s.commits[id].tree, s.objects))
    && (forall a | a in s.indexes :: TreeClosed(s.indexes[a], s.objects))
  }

  ghost predicate IdsBelow(commits: Commits, nextId: Option<nat>) {
    match nextId
    case None => commits == map[]
    case Some(n) => n > 0 && forall id | id in commits :: id < n
  }

  /** What holds of a state without a journal. */
  ghost predicate Consistent(s: Repo) {
    && s.sandbox.Keys == s.indexes.Keys == s.lost.Keys
    && HistoryOk(s.commits)
    && (s.head.Some? ==> s.head.value in s.commits)
    && IdsBelow(s.commits, s.nextId)
    && ObjectsOk(s.objects)
    && Closed(s)
    && (!s.external ==> s.shared == Contents(HeadTree(s)))
  }

  /** What the next recovery needs to find on disk. */
  ghost predicate Ready(s: Repo) {
    && ObjectsOk(s.objects)
    && Closed(s)
    && (s.head.Some? ==> s.head.value in s.commits)
    && match s.pending
       case None => true
       case Some(Committing(c, index)) =>
         && (s.head.Some? ==> s.head.value <= c.id)
         && (forall p | p in c.changes && !c.changes[p].Delete? :: Object(c.changes[p].hash) in s.objects)
       case Some(Restoring(target)) => target.Some? ==> target.value in s.commits
       case Some(Discarding(keep)) => keep.Some? ==> keep.value in s.commits
  }

  /** Holds between any two port writes, so wherever a crash can leave the state. */
  ghost predicate Inv(s: Repo) {
    Ready(s) && Consistent(Recovered(s))
  }

  // ---------- single port writes under a journal ----------

  /** One write that a journalled transaction may make. */
  ghost predicate SameRecovery(s: Repo, t: Repo) {
    Inv(t) && t.pending == s.pending && Recovered(t) == Recovered(s)
  }

  lemma SameRecoveryRefl(s: Repo)
    requires Inv(s)
    ensures SameRecovery(s, s)
  {
  }

  lemma SameRecoveryTrans(s: Repo, t: Repo, u: Repo)
    requires SameRecovery(s, t) && SameRecovery(t, u)
    ensures SameRecovery(s, u) && Inv(u) && u.pending == s.pending
  {
  }

  lemma SameRecoveryInv(s: Repo, t: Repo)
    requires SameRecovery(s, t)
    ensures Inv(t) && t.pending == s.pending && Recovered(t) == Recovered(s)
  {
  }

  /** The content of every file of a stored commit is at hand. */
  lemma ObjectAt(s: Repo, id: Option<nat>, p: Path)
    requires Inv(s) && p in TreeAt(s.commits, id)
    ensures var h := TreeAt(s.commits, id)[p]; Object(h) in s.objects && s.objects[Object(h)] == h.content
  {
    assert TreeClosed(s.commits[id.value].tree, s.objects);
  }

  /** A file of the shared area reaches the state a commit wants. */
  lemma CommitFileStep(s: Repo, p: Path, t: Repo)
    requires Inv(s) && s.pending.Some? && s.pending.value.Committing?
    requires p in s.pending.value.commit.changes
    requires var change := s.pending.value.commit.changes[p];
      t == s.(shared := if change.Delete? then s.shared - {p} else s.shared[p := change.hash.content])
    ensures SameRecovery(s, t)
  {
    ApplyAbsorbs(s.shared, s.pending.value.commit.changes, p);
    assert Recovered(t) == Recovered(s);
  }

  /** Whatever a write that broke off left in the files a commit lists, its replay makes it good. */
  lemma CommitTornStep(s: Repo, t: Repo)
    requires Inv(s) && s.pending.Some? && s.pending.value.Committing?
    requires t == s.(shared := t.shared) && OnlyWithin(s.shared, t.shared, s.pending.value.commit.changes.Keys)
    ensures SameRecovery(s, t)
  {
    hide ApplyFiles, OnlyWithin, ObjectsOk, TreeClosed, HistoryOk, IdsBelow, Contents;
    ApplyOverwrites(s.shared, t.shared, s.pending.value.commit.changes);
    assert Recovered(t) == Recovered(s);
  }

  lemma CommitRecordStep(s: Repo)
    requires Inv(s) && s.pending.Some? && s.pending.value.Committing?
    ensures var c := s.pending.value.commit;
      SameRecovery(s, s.(commits := s.commits[c.id := c]))
  {
    var c := s.pending.value.commit;
    var t := s.(commits := s.commits[c.id := c]);
    assert t.commits[c.id := c] == s.commits[c.id := c];
    assert Recovered(s).commits[c.id] == c;
    assert Recovered(t) == Recovered(s);
  }

  lemma CommitHeadStep(s: Repo)
    requires Inv(s) && s.pending.Some? && s.pending.value.Committing?
    requires s.pending.value.commit.id in s.commits
    ensures SameRecovery(s, s.(head := Some(s.pending.value.commit.id)))
  {
    hide ApplyFiles, ObjectsOk, TreeClosed, HistoryOk, IdsBelow, Contents;
  }

  lemma CommitIndexStep(s: Repo)
    requires Inv(s) && s.pending.Some? && s.pending.value.Committing? && s.pending.value.index.Some?
    ensures var index := s.pending.value.index.value;
      SameRecovery(s, s.(indexes := s.indexes[index.agent := index.index]))
  {
    hide ApplyFiles, ObjectsOk, TreeClosed, HistoryOk, IdsBelow, Contents;
    var index := s.pending.value.index.value;
    var t := s.(indexes := s.indexes[index.agent := index.index]);
    assert Recovered(s).indexes[index.agent] == index.index;
    assert t.indexes[index.agent := index.index] == s.indexes[index.agent := index.index];
    assert Recovered(t) == Recovered(s);
  }

  /** Recovery depends on the shared area and head only through the files it leaves. */
  lemma MovesAlike(s: Repo, t: Repo)
    requires Moving(s) && t == s.(shared := t.shared, head := t.head)
    requires var to := TreeAt(s.commits, Target(s.pending.value));
      Brought(t.shared, HeadTree(t), to) == Brought(s.shared, HeadTree(s), to)
    ensures Recovered(t) == Recovered(s)
  {
  }

  lemma MoveBrings(s: Repo)
    requires Moving(s)
    ensures Recovered(s).shared == Brought(s.shared, HeadTree(s), TreeAt(s.commits, Target(s.pending.value)))
  {
    hide Brought, Keep, Ancestors, TreeAt, ApplyFiles, Landed;
    match s.pending.value {
      case Restoring(target) => assert Recovered(s) == Moved(s.(pending := None), target);
      case Discarding(keep) => assert Recovered(s) == Discarded(s.(pending := None), keep);
    }
  }

  /** A move's journal stays replayable whatever head and the shared area are. */
  lemma StaysReady(s: Repo, t: Repo)
    requires Ready(s) && Moving(s) && t == s.(shared := t.shared, head := t.head)
    requires t.head.Some? ==> t.head.value in t.commits
    ensures Ready(t)
  {
  }

  ghost predicate Moving(s: Repo) {
    s.pending.Some? && (s.pending.value.Restoring? || s.pending.value.Discarding?)
  }

  function Target(pending: Pending): Option<nat>
    requires !pending.Committing?
  {
    if pending.Restoring? then pending.target else pending.keep
  }

  lemma MoveFileStep(s: Repo, p: Path, t: Repo)
    requires Inv(s) && Moving(s)
    requires var to := TreeAt(s.commits, Target(s.pending.value));
      || (p in to && t == s.(shared := s.shared[p := to[p].content]))
      || (p in HeadTree(s) && p !in to && t == s.(shared := s.shared - {p}))
    ensures SameRecovery(s, t)
  {
    var from, to := HeadTree(s), TreeAt(s.commits, Target(s.pending.value));
    if p in to {
      BroughtAbsorbsWrite(s.shared, from, to, p);
    } else {
      BroughtAbsorbsRemove(s.shared, from, to, p);
    }
    MovesAlike(s, t);
    StaysReady(s, t);
  }

  /** Head and the commit a move goes to are both stored. */
  lemma MoveEndsExist(s: Repo)
    requires Inv(s) && Moving(s)
    ensures s.head.Some? ==> s.head.value in s.commits
    ensures Target(s.pending.value).Some? ==> Target(s.pending.value).value in s.commits
  {
  }

  /** The chain a discard keeps can be walked at any point of the discard. */
  lemma KeptChainOk(s: Repo)
    requires Inv(s) && s.pending.Some? && s.pending.value.Discarding?
    ensures ChainOk(s.commits, s.pending.value.keep)
  {
    var keep := s.pending.value.keep;
    var chain := Ancestors(s.commits, keep);
    var kept := Keep(s.commits, chain);
    assert Recovered(s).commits == kept;
    forall id | id in chain && s.commits[id].parent.Some?
      ensures s.commits[id].parent.value < id && s.commits[id].parent.value in s.commits
    {
      assert CommitOk(kept, id);
    }
  }

  /** Once the files are in place, moving head leaves recovery nothing else to do. */
  lemma HeadMovesAlike(s: Repo, t: Repo)
    requires Moving(s) && t == s.(head := Target(s.pending.value))
    requires s.shared == Brought(s.shared, HeadTree(s), TreeAt(s.commits, t.head))
    ensures Brought(t.shared, HeadTree(t), TreeAt(t.commits, t.head)) == t.shared
    ensures Recovered(t) == Recovered(s)
  {
    BroughtSettles(s.shared, HeadTree(s), TreeAt(s.commits, t.head));
    MovesAlike(s, t);
  }

  lemma MoveHeadStep(s: Repo, t: Repo)
    requires Inv(s) && Moving(s) && t == s.(head := Target(s.pending.value))
    requires s.shared == Brought(s.shared, HeadTree(s), TreeAt(s.commits, t.head))
    ensures SameRecovery(s, t)
  {
    HeadMovesAlike(s, t);
    StaysReady(s, t);
  }

  /** The commit record and the objects a commit journal relies on. */
  lemma CommitFacts(s: Repo)
    requires Inv(s) && s.pending.Some? && s.pending.value.Committing?
    ensures var c := s.pending.value.commit;
      && (s.head.Some? ==> s.head.value <= c.id)
      && (forall p | p in c.changes && !c.changes[p].Delete? ::
            var h := c.changes[p].hash; Object(h) in s.objects && s.objects[Object(h)] == h.content)
  {
  }

  lemma DropCommitStep(s: Repo, id: nat)
    requires Inv(s) && s.pending.Some? && s.pending.value.Discarding?
    requires s.head == s.pending.value.keep
    requires id !in Ancestors(s.commits, s.pending.value.keep)
    ensures SameRecovery(s, s.(commits := s.commits - {id}))
    ensures Ancestors(s.commits - {id}, s.pending.value.keep) == Ancestors(s.commits, s.pending.value.keep)
  {
    var keep := s.pending.value.keep;
    var t := s.(commits := s.commits - {id});
    AncestorsSurvive(s.commits, t.commits, keep);
    var chain := Ancestors(s.commits, keep);
    assert Keep(t.commits, chain) == Keep(s.commits, chain);
    if keep.Some? {
      assert keep.value in chain;
    }
    hide Ancestors, Keep, Consistent, ObjectsOk, Brought, TreeClosed;
    assert Recovered(t) == Recovered(s);
  }

  // ---------- when nothing is left to do ----------

  /** The journal has been carried out and only remains to be cleared. */
  ghost predicate CarriedOut(s: Repo) {
    s.(pending := None) == Recovered(s)
  }

  /** Clearing the journal of a finished transaction changes nothing else. */
  lemma ClearStep(s: Repo)
    requires Inv(s) && CarriedOut(s)
    ensures Inv(s.(pending := None)) && Recovered(s.(pending := None)) == Recovered(s)
  {
  }

  lemma CommitCarriedOut(s: Repo)
    requires s.pending.Some? && s.pending.value.Committing?
    requires var c := s.pending.value.commit;
      && s.shared == ApplyFiles(s.shared, c.changes)
      && c.id in s.commits && s.commits[c.id] == c && s.head == Some(c.id)
      && var index := s.pending.value.index;
         index.Some? ==> index.value.agent in s.indexes && s.indexes[index.value.agent] == index.value.index
    ensures CarriedOut(s)
  {
    var c, index := s.pending.value.commit, s.pending.value.index;
    assert s.commits[c.id := c] == s.commits;
    if index.Some? {
      assert s.indexes[index.value.agent := index.value.index] == s.indexes;
    }
  }

  lemma MoveCarriedOut(s: Repo)
    requires Moving(s) && s.head == Target(s.pending.value)
    requires s.shared == Brought(s.shared, HeadTree(s), HeadTree(s))
    requires s.pending.value.Discarding? ==> s.commits.Keys == Ancestors(s.commits, s.head)
    ensures CarriedOut(s)
  {
    if s.pending.value.Discarding? {
      assert Keep(s.commits, s.commits.Keys) == s.commits;
    }
  }
}
