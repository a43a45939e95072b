/** Trees, commits and the two ways a change list is applied: to a tree of
    fingerprints and to the files of the shared area. */
module WorkTree {
  import opened Outcomes

  newtype Byte = x: int | 0 <= x < 256
  type Bytes = seq<Byte>
  type Path = string
  type Agent = string

  /** The fingerprint of a content. Only its injectivity matters here. */
  datatype Hash = Hash(content: Bytes)

  function ContentHash(bytes: Bytes): Hash {
    Hash(bytes)
  }

  /** A commit's whole tree, or an agent's baseline: path to fingerprint. */
  type Tree = map<Path, Hash>
  type Files = map<Path, Bytes>

  datatype Change = Add(hash: Hash) | Modify(hash: Hash) | Delete
  /** The changes of one commit; a path occurs at most once. */
  type Changes = map<Path, Change>

  /** Which agent's transcript line made the commit; agent "" is the user. */
  datatype Anchor = Anchor(agent: Agent, line: nat)

  /** What a commit says of itself: its session, its time and its message. */
  datatype Note = Note(session: string, time: int, message: string)

  datatype Commit = Commit(
    id: nat,
    parent: Option<nat>,
    author: string,
    note: Note,
    changes: Changes,
    tree: Tree,
    anchor: Option<Anchor>)

  type Commits = map<nat, Commit>

  function Get<V>(m: map<Path, V>, p: Path): Option<V> {
    if p in m then Some(m[p]) else None
  }

  lemma SameByGet<V>(one: map<Path, V>, two: map<Path, V>)
    requires forall p :: Get(one, p) == Get(two, p)
    ensures one == two
  {
    forall p
      ensures p in one <==> p in two
      ensures p in one ==> one[p] == two[p]
    {
      assert Get(one, p) == Get(two, p);
    }
  }

  /** The fingerprint of a file, None when there is no file. */
  function HashAt(files: Files, p: Path): Option<Hash> {
    if p in files then Some(ContentHash(files[p])) else None
  }

  /** No file outside `paths` differs. */
  ghost predicate OnlyWithin(before: Files, after: Files, paths: set<Path>) {
    forall p | p !in paths :: Get(before, p) == Get(after, p)
  }

  lemma OnlyWithinNone(files: Files, paths: set<Path>)
    ensures OnlyWithin(files, files, paths)
  {
  }

  lemma OnlyWithinPut(before: Files, after: Files, paths: set<Path>, p: Path, bytes: Bytes)
    requires OnlyWithin(before, after, paths) && p in paths
    ensures OnlyWithin(before, after[p := bytes], paths)
    ensures OnlyWithin(before, after - {p}, paths)
  {
  }

  function ApplyTree(tree: Tree, changes: Changes): Tree {
    map p | p in tree.Keys + changes.Keys && !(p in changes && changes[p].Delete?)
      :: if p in changes then changes[p].hash else tree[p]
  }

  function ApplyFiles(files: Files, changes: Changes): Files {
    map p | p in files.Keys + changes.Keys && !(p in changes && changes[p].Delete?)
      :: if p in changes then changes[p].hash.content else files[p]
  }

  /** The files a tree describes. */
  function Contents(tree: Tree): Files {
    map p | p in tree :: tree[p].content
  }

  lemma ContentsFacts(tree: Tree)
    ensures Contents(tree).Keys == tree.Keys
    ensures forall p | p in tree :: Contents(tree)[p] == tree[p].content
    ensures Contents(tree) - tree.Keys == map[]
    ensures Contents(tree) - {} == Contents(tree)
  {
  }

  lemma ContentsOfApply(tree: Tree, changes: Changes)
    ensures Contents(ApplyTree(tree, changes)) == ApplyFiles(Contents(tree), changes)
  {
  }

  /** Making one of the changes first does not alter the outcome of making them all. */
  lemma ApplyAbsorbs(files: Files, changes: Changes, p: Path)
    requires p in changes
    ensures changes[p].Delete? ==> ApplyFiles(files - {p}, changes) == ApplyFiles(files, changes)
    ensures !changes[p].Delete? ==>
      ApplyFiles(files[p := changes[p].hash.content], changes) == ApplyFiles(files, changes)
  {
  }

  /** What the changed files held before does not matter to the outcome. */
  lemma ApplyOverwrites(files: Files, other: Files, changes: Changes)
    requires OnlyWithin(files, other, changes.Keys)
    ensures ApplyFiles(other, changes) == ApplyFiles(files, changes)
  {
    forall p
      ensures p in ApplyFiles(other, changes) <==> p in ApplyFiles(files, changes)
      ensures p in ApplyFiles(files, changes) ==> ApplyFiles(other, changes)[p] == ApplyFiles(files, changes)[p]
    {
      assert p !in changes.Keys ==> Get(files, p) == Get(other, p);
    }
  }

  lemma OnlyWithinMore(before: Files, now: Files, after: Files, one: set<Path>, paths: set<Path>)
    requires OnlyWithin(before, now, paths) && OnlyWithin(now, after, one) && one <= paths
    ensures OnlyWithin(now, after, paths) && OnlyWithin(before, after, paths)
  {
    forall p | p !in paths
      ensures Get(before, p) == Get(now, p) == Get(after, p)
    {
    }
  }

  /** The files once the changes outside `todo` are made. */
  function PartApplied(files: Files, changes: Changes, todo: set<Path>): Files {
    ApplyFiles(files, changes - todo)
  }

  lemma PartAppliedStep(files: Files, changes: Changes, todo: set<Path>, p: Path)
    requires p in todo && p in changes
    ensures PartApplied(files, changes, todo - {p}) ==
      var now := PartApplied(files, changes, todo);
      if changes[p].Delete? then now - {p} else now[p := changes[p].hash.content]
  {
  }

  lemma PartAppliedEnds(files: Files, changes: Changes)
    ensures PartApplied(files, changes, changes.Keys) == files
    ensures PartApplied(files, changes, {}) == ApplyFiles(files, changes)
    ensures ApplyFiles(ApplyFiles(files, changes), changes) == ApplyFiles(files, changes)
  {
    assert changes - {} == changes;
  }

  /** `files` brought from tree `from` to tree `to`: only paths of `from` that
      `to` lacks are deleted, and every path of `to` is written. */
  function Brought(files: Files, from: Tree, to: Tree): Files {
    map p | p in files.Keys + to.Keys && (p in to || p !in from)
      :: if p in to then to[p].content else files[p]
  }

  lemma BroughtFrame(files: Files, from: Tree, to: Tree)
    ensures OnlyWithin(files, Brought(files, from, to), from.Keys + to.Keys)
    ensures forall p | p in to :: HashAt(Brought(files, from, to), p) == Some(to[p])
    ensures forall p | p in from && p !in to :: p !in Brought(files, from, to)
  {
  }

  lemma BroughtAbsorbsWrite(files: Files, from: Tree, to: Tree, p: Path)
    requires p in to
    ensures Brought(files[p := to[p].content], from, to) == Brought(files, from, to)
  {
  }

  lemma BroughtAbsorbsRemove(files: Files, from: Tree, to: Tree, p: Path)
    requires p in from && p !in to
    ensures Brought(files - {p}, from, to) == Brought(files, from, to)
  {
  }

  lemma PutOne(files: Files, wanted: Files, todo: set<Path>, p: Path)
    requires p in todo && p in wanted
    ensures files + (wanted - (todo - {p})) == (files + (wanted - todo))[p := wanted[p]]
  {
  }

  /** Deleting what `to` lacks and then writing what it has is bringing the files there. */
  lemma BroughtInTwoPasses(files: Files, from: Tree, to: Tree)
    ensures files - (from.Keys - to.Keys) + Contents(to) == Brought(files, from, to)
  {
  }

  /** Bringing files somewhere twice is bringing them there once. */
  lemma BroughtTwice(files: Files, from: Tree, to: Tree)
    ensures Brought(Brought(files, from, to), from, to) == Brought(files, from, to)
  {
    assert forall p | p in Brought(files, from, to) && p !in to :: p in files;
  }

  /** Files that are already where `to` wants them stay put when `to` itself becomes the starting tree. */
  lemma BroughtSettles(files: Files, from: Tree, to: Tree)
    requires files == Brought(files, from, to)
    ensures Brought(files, to, to) == files
  {
    assert forall p | p in to :: p in Brought(files, from, to) && files[p] == to[p].content;
  }

  function TreeAt(commits: Commits, id: Option<nat>): Tree {
    if id.Some? && id.value in commits then commits[id.value].tree else map[]
  }

  /** Every parent is stored and older, and every stored tree is the parent's
      tree with the commit's own changes applied. */
  ghost predicate HistoryOk(commits: Commits) {
    forall id | id in commits :: CommitOk(commits, id)
  }

  ghost predicate CommitOk(commits: Commits, id: nat)
    requires id in commits
  {
    var c := commits[id];
    && c.id == id
    && (c.parent.Some? ==> c.parent.value < id && c.parent.value in commits)
    && c.tree == ApplyTree(TreeAt(commits, c.parent), c.changes)
  }

  /** The parent chain of `from`, itself included. */
  ghost function Ancestors(commits: Commits, from: Option<nat>): (chain: set<nat>)
    ensures chain <= commits.Keys
    decreases if from.Some? then from.value + 1 else 0
  {
    if from.None? || from.value !in commits then {}
    else
      var parent := commits[from.value].parent;
      {from.value} + if parent.Some? && parent.value < from.value then Ancestors(commits, parent) else {}
  }

  /** The parent chain of `from`, root first. */
  ghost function Lineage(commits: Commits, from: Option<nat>): (line: seq<nat>)
    requires HistoryOk(commits)
    requires from.Some? ==> from.value in commits
    ensures forall id | id in line :: id in commits
    decreases if from.Some? then from.value + 1 else 0
  {
    if from.None? then []
    else
      assert CommitOk(commits, from.value);
      Lineage(commits, commits[from.value].parent) + [from.value]
  }

  /** Replays the changes of the listed commits, oldest first, from the empty tree. */
  ghost function Replay(commits: Commits, line: seq<nat>): Tree
    requires forall id | id in line :: id in commits
  {
    if line == [] then map[]
    else ApplyTree(Replay(commits, line[..|line| - 1]), commits[line[|line| - 1]].changes)
  }

  /** A stored tree is exactly the replay of every change on its parent chain. */
  lemma {:induction false} SnapshotIsReplay(commits: Commits, id: nat)
    requires HistoryOk(commits) && id in commits
    ensures commits[id].tree == Replay(commits, Lineage(commits, Some(id)))
    decreases id
  {
    assert CommitOk(commits, id);
    var c := commits[id];
    var before := Lineage(commits, c.parent);
    var line := Lineage(commits, Some(id));
    assert line == before + [id];
    assert line[..|line| - 1] == before;
    if c.parent.Some? {
      SnapshotIsReplay(commits, c.parent.value);
    }
  }

  /** The parent chain is the same set whichever way it is walked. */
  lemma {:induction false} LineageIsAncestors(commits: Commits, from: Option<nat>)
    requires HistoryOk(commits)
    requires from.Some? ==> from.value in commits
    ensures forall id :: id in Lineage(commits, from) <==> id in Ancestors(commits, from)
    ensures forall id | id in Ancestors(commits, from) :: from.Some? && id <= from.value
    decreases if from.Some? then from.value + 1 else 0
  {
    if from.Some? {
      assert CommitOk(commits, from.value);
      LineageIsAncestors(commits, commits[from.value].parent);
    }
  }

  ghost function Keep(commits: Commits, ids: set<nat>): Commits {
    map id | id in commits && id in ids :: commits[id]
  }

  /** Dropping commits that are not ancestors of `from` leaves its chain as it was. */
  lemma {:induction false} AncestorsSurvive(commits: Commits, fewer: Commits, from: Option<nat>)
    requires fewer.Keys <= commits.Keys && forall id | id in fewer :: fewer[id] == commits[id]
    requires Ancestors(commits, from) <= fewer.Keys
    ensures Ancestors(fewer, from) == Ancestors(commits, from)
    decreases if from.Some? then from.value + 1 else 0
  {
    if from.Some? && from.value in commits {
      assert from.value in Ancestors(commits, from);
      var parent := commits[from.value].parent;
      if parent.Some? && parent.value < from.value {
        assert Ancestors(commits, parent) <= Ancestors(commits, from);
        AncestorsSurvive(commits, fewer, parent);
      }
    }
  }

  /** Every ancestor's stored parent is an ancestor too. */
  lemma {:induction false} AncestorsClosed(commits: Commits, from: Option<nat>, id: nat)
    requires HistoryOk(commits)
    requires id in Ancestors(commits, from)
    ensures commits[id].parent.Some? ==> commits[id].parent.value in Ancestors(commits, from)
    decreases if from.Some? then from.value + 1 else 0
  {
    assert CommitOk(commits, from.value);
    var parent := commits[from.value].parent;
    if id != from.value {
      AncestorsClosed(commits, parent, id);
    } else if parent.Some? {
      assert parent.value in Ancestors(commits, parent);
    }
  }

  /** Keeping exactly one parent chain keeps the history well formed. */
  lemma KeepHistoryOk(commits: Commits, from: Option<nat>)
    requires HistoryOk(commits)
    ensures HistoryOk(Keep(commits, Ancestors(commits, from)))
  {
    var kept := Keep(commits, Ancestors(commits, from));
    forall id | id in kept
      ensures CommitOk(kept, id)
    {
      assert CommitOk(commits, id);
      AncestorsClosed(commits, from, id);
    }
  }

  /** A commit on top of a stored parent, newer than everything, extends the history. */
  lemma ExtendHistoryOk(commits: Commits, c: Commit)
    requires HistoryOk(commits)
    requires forall id | id in commits :: id < c.id
    requires c.parent.Some? ==> c.parent.value in commits
    requires c.tree == ApplyTree(TreeAt(commits, c.parent), c.changes)
    ensures HistoryOk(commits[c.id := c])
  {
    var more := commits[c.id := c];
    forall id | id in more
      ensures CommitOk(more, id)
    {
      if id != c.id {
        assert CommitOk(commits, id);
      }
    }
  }

  /** Following parents from `from` only ever leads to older stored commits. */
  ghost predicate ChainOk(commits: Commits, from: Option<nat>) {
    && (from.Some? ==> from.value in commits)
    && forall id | id in Ancestors(commits, from) && commits[id].parent.Some? ::
         commits[id].parent.value < id && commits[id].parent.value in commits
  }

  lemma HistoryChainOk(commits: Commits, from: Option<nat>)
    requires HistoryOk(commits) && (from.Some? ==> from.value in commits)
    ensures ChainOk(commits, from)
  {
    forall id | id in Ancestors(commits, from) && commits[id].parent.Some?
      ensures commits[id].parent.value < id && commits[id].parent.value in commits
    {
      assert CommitOk(commits, id);
    }
  }

  /** One step of walking a chain. */
  lemma {:induction false} ChainStep(commits: Commits, from: Option<nat>)
    requires ChainOk(commits, from) && from.Some?
    ensures var parent := commits[from.value].parent;
      && ChainOk(commits, parent)
      && Ancestors(commits, from) == {from.value} + Ancestors(commits, parent)
      && (parent.Some? ==> parent.value < from.value)
  {
    assert from.value in Ancestors(commits, from);
  }

  /** The whole chain of a commit is among its ancestors' records, none is older than the root. */
  lemma {:induction false} AncestorsBelow(commits: Commits, from: Option<nat>)
    ensures forall id | id in Ancestors(commits, from) :: from.Some? && id <= from.value
    decreases if from.Some? then from.value + 1 else 0
  {
    if from.Some? && from.value in commits {
      var parent := commits[from.value].parent;
      if parent.Some? && parent.value < from.value {
        AncestorsBelow(commits, parent);
      }
    }
  }
}
