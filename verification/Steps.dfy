/** What each workspace operation may do to an idle, consistent repository, as one
    atomic step: either nothing that anyone can see, or its whole effect. */
module Steps {
  import opened Outcomes
  import Texts
  import opened WorkTree
  import opened Workstore
  import opened Repository

  /** The id the next commit gets: the stored counter, 1 in a fresh repository. */
  function FreshId(s: Repo): nat {
    if s.nextId.Some? then s.nextId.value else 1
  }

  ghost predicate Idle(s: Repo) {
    s.pending.None? && Consistent(s)
  }

  /** `t` is `s` up to orphan objects and at most one id that no commit got. */
  ghost predicate Spare(s: Repo, t: Repo) {
    && t == s.(objects := t.objects, nextId := t.nextId)
    && (forall o | o in s.objects :: o in t.objects && t.objects[o] == s.objects[o])
    && ObjectsOk(t.objects)
    && (t.nextId == s.nextId || t.nextId == Some(FreshId(s) + 1))
  }

  function NewCommit(s: Repo, author: string, note: Note, changes: Changes, anchor: Option<Anchor>): Commit {
    Commit(FreshId(s), s.head, author, note, changes, ApplyTree(HeadTree(s), changes), anchor)
  }

  /** The greatest of the stored ids and the counter decides: the number taken next is above
      every stored id, not below the counter, and no greater than that asks for. */
  ghost predicate TakesId(nextId: Option<nat>, ids: set<nat>, n: nat) {
    && 1 <= n && (forall id | id in ids :: id < n) && (nextId.Some? ==> nextId.value <= n)
    && (n == 1 || n - 1 in ids || nextId == Some(n))
  }

  /** `t` is `s` with the commit landed, its objects stored and its id used up. */
  ghost predicate CommitLands(s: Repo, c: Commit, index: Option<PendingIndex>, t: Repo) {
    && t.nextId == Some(c.id + 1)
    && (forall o | o in s.objects :: o in t.objects && t.objects[o] == s.objects[o])
    && ObjectsOk(t.objects)
    && (forall p | p in c.changes && !c.changes[p].Delete? :: Object(c.changes[p].hash) in t.objects)
    && t == Landed(s.(objects := t.objects, nextId := t.nextId), c, index)
  }

  // ---------- agent commits ----------

  /** The content an agent asks to commit at each listed path, None for a deletion. */
  ghost function CommitLocals(s: Repo, agent: Agent, paths: seq<Path>, deletes: seq<Path>): Locals
    requires agent in s.sandbox
  {
    var box := s.sandbox[agent];
    map p | p in Expanded(paths, box.Keys) + (set d | d in deletes)
      :: if p in Expanded(paths, box.Keys) then HashAt(box, p) else None
  }

  /** The check an external workspace makes before a commit: nobody else changed these files. */
  ghost predicate UntouchedOutside(s: Repo, locals: Locals) {
    forall p | p in locals :: UntouchedAt(HashAt(s.shared, p), Get(HeadTree(s), p), locals[p])
  }

  predicate UntouchedAt(disk: Option<Hash>, head: Option<Hash>, local: Option<Hash>) {
    disk == head || (local.None? && disk.None?)
  }

  /** The message as it is stored. */
  function Trimmed(note: Note): Note {
    note.(message := Texts.Trim(note.message))
  }

  ghost predicate CommitStep(s: Repo, agent: Agent, paths: seq<Path>, deletes: seq<Path>, line: nat, note: Note,
                             t: Repo) {
    && agent in s.sandbox && agent in s.indexes
    && var locals := CommitLocals(s, agent, paths, deletes);
       var changes := PlannedChanges(s.indexes[agent], HeadTree(s), locals);
       && changes != map[]
       && PlannedConflicts(s.indexes[agent], HeadTree(s), locals) == map[]
       && (s.external ==> UntouchedOutside(s, locals))
       && CommitLands(s, NewCommit(s, agent, Trimmed(note), changes, Some(Anchor(agent, line))),
                      Some(PendingIndex(agent, ApplyTree(s.indexes[agent], changes))), t)
  }

  // ---------- adopting outside edits and user files ----------

  function JudgeSync(disk: Option<Hash>, head: Option<Hash>): Option<Change> {
    if disk == head then None
    else if disk.None? then Some(Delete)
    else if head.None? then Some(Add(disk.value))
    else Some(Modify(disk.value))
  }

  ghost function SyncChanges(s: Repo, paths: seq<Path>): Changes {
    map p | p in Expanded(paths, HeadTree(s).Keys + s.shared.Keys)
            && JudgeSync(HashAt(s.shared, p), Get(HeadTree(s), p)).Some?
      :: JudgeSync(HashAt(s.shared, p), Get(HeadTree(s), p)).value
  }

  function SyncNote(time: int, count: nat): Note {
    Note("", time, "外部工作区同步：" + Texts.Decimal(count) + " 条")
  }

  ghost predicate SyncStep(s: Repo, paths: seq<Path>, time: int, t: Repo) {
    && SyncChanges(s, paths) != map[]
    && var note := SyncNote(time, |SyncChanges(s, paths)|);
       CommitLands(s, NewCommit(s, "external", note, SyncChanges(s, paths), None), None, t)
  }

  function UserChanges(s: Repo, path: Path, bytes: Bytes): Changes {
    var hash := ContentHash(bytes);
    map[path := if path in HeadTree(s) then Modify(hash) else Add(hash)]
  }

  function UserNote(time: int, path: Path): Note {
    Note("", time, "用户投喂：" + path)
  }

  ghost predicate UserCommitStep(s: Repo, path: Path, bytes: Bytes, time: int, line: nat, t: Repo) {
    var anchor := Some(Anchor("", line));
    CommitLands(s, NewCommit(s, "user", UserNote(time, path), UserChanges(s, path, bytes), anchor), None, t)
  }

  // ---------- moving the shared area ----------

  /** The files a move would overwrite or delete although somebody changed them outside. */
  ghost function OutsideConflicts(s: Repo, target: Option<nat>): set<Path> {
    var from, to := HeadTree(s), TreeAt(s.commits, target);
    if !s.external then {}
    else
      (set p | p in from && p !in to && p in s.shared && HashAt(s.shared, p) != Some(from[p]))
      + (set p | p in to && HashAt(s.shared, p) != Get(from, p))
  }

  ghost predicate Stored(s: Repo, target: Option<nat>) {
    target.Some? ==> target.value in s.commits
  }

  ghost predicate MoveStep(s: Repo, target: Option<nat>, force: bool, t: Repo) {
    Stored(s, target) && (force || OutsideConflicts(s, target) == {}) && t == Moved(s, target)
  }

  ghost predicate DiscardStep(s: Repo, keep: Option<nat>, t: Repo) {
    Stored(s, keep) && OutsideConflicts(s, keep) == {} && t == Discarded(s, keep)
  }

  /** Is this commit not past any agent's keep line? Without an anchor it always is within. */
  predicate Within(c: Commit, keepByAgent: map<Agent, nat>) {
    c.anchor.None? || (c.anchor.value.agent in keepByAgent && c.anchor.value.line <= keepByAgent[c.anchor.value.agent])
  }

  ghost function WithinCommits(s: Repo, keepByAgent: map<Agent, nat>): set<nat> {
    set id | id in Ancestors(s.commits, s.head) && Within(s.commits[id], keepByAgent)
  }

  /** The newest commit on head's own chain that is within, None when there is none. */
  ghost predicate IsRewindTarget(s: Repo, keepByAgent: map<Agent, nat>, target: Option<nat>) {
    match target
    case None => WithinCommits(s, keepByAgent) == {}
    case Some(id) =>
      id in WithinCommits(s, keepByAgent) && forall other | other in WithinCommits(s, keepByAgent) :: other <= id
  }

  ghost predicate RewindStep(s: Repo, keepByAgent: map<Agent, nat>, t: Repo) {
    IsRewindTarget(s, keepByAgent, t.head) && MoveStep(s, t.head, false, t)
  }

  // ---------- pulling ----------

  /** May this path be pulled? In an external workspace only while the disk shows head's version. */
  predicate Pullable(s: Repo, p: Path) {
    p in HeadTree(s) && (s.external ==> HashAt(s.shared, p) == Some(HeadTree(s)[p]))
  }

  function PullVerdictAt(s: Repo, agent: Agent, p: Path): PullVerdict
    requires agent in s.sandbox && agent in s.indexes
  {
    if !Pullable(s, p) then NoChange
    else JudgePull(Get(s.indexes[agent], p), Get(HeadTree(s), p), HashAt(s.sandbox[agent], p))
  }

  /** `m` with the entries at `at` replaced by those of `from`. */
  function Overlay<V>(m: map<Path, V>, from: map<Path, V>, at: set<Path>): map<Path, V> {
    map p | p in m.Keys + from.Keys && (if p in at then p in from else p in m)
      :: if p in at then from[p] else m[p]
  }

  lemma OverlayOne<V>(m: map<Path, V>, from: map<Path, V>, p: Path)
    ensures Overlay(m, from, {p}) == if p in from then m[p := from[p]] else m - {p}
    ensures Overlay(m, from, {}) == m
  {
  }

  ghost function Updating(s: Repo, agent: Agent, want: set<Path>): set<Path>
    requires agent in s.sandbox && agent in s.indexes
  {
    set p | p in want && PullVerdictAt(s, agent, p) == Update
  }

  ghost function Adopting(s: Repo, agent: Agent, want: set<Path>): set<Path>
    requires agent in s.sandbox && agent in s.indexes
  {
    set p | p in want && PullVerdictAt(s, agent, p) in {Update, AlreadySame}
  }

  /** The sandbox a pull of `want` leaves. */
  ghost function PulledBox(s: Repo, agent: Agent, want: set<Path>): Files
    requires agent in s.sandbox && agent in s.indexes
  {
    Overlay(s.sandbox[agent], Contents(HeadTree(s)), Updating(s, agent, want))
  }

  /** The baseline a pull of `want` leaves. */
  ghost function PulledIndex(s: Repo, agent: Agent, want: set<Path>): Tree
    requires agent in s.sandbox && agent in s.indexes
  {
    Overlay(s.indexes[agent], HeadTree(s), Adopting(s, agent, want))
  }

  ghost function PullWant(s: Repo, paths: seq<Path>): set<Path> {
    Expanded(paths, HeadTree(s).Keys)
  }

  /** A pull of `want` that got as far as the files of `copied` and the baselines of `noted`. */
  ghost predicate PulledSome(s: Repo, agent: Agent, want: set<Path>, copied: set<Path>, noted: set<Path>, t: Repo) {
    && agent in s.sandbox && agent in s.indexes
    && noted <= copied <= want
    && t == s.(sandbox := s.sandbox[agent := PulledBox(s, agent, copied)],
               indexes := s.indexes[agent := PulledIndex(s, agent, noted)])
  }

  ghost predicate PullStep(s: Repo, agent: Agent, paths: seq<Path>, t: Repo) {
    exists copied, noted :: PulledSome(s, agent, PullWant(s, paths), copied, noted, t)
  }

  // ---------- resolving ----------

  ghost function ResolveAvailable(s: Repo, agent: Agent): set<Path>
    requires agent in s.sandbox && agent in s.indexes
  {
    s.indexes[agent].Keys + HeadTree(s).Keys + s.sandbox[agent].Keys
  }

  ghost function ResolveWant(s: Repo, agent: Agent, paths: seq<Path>): set<Path>
    requires agent in s.sandbox && agent in s.indexes
  {
    Expanded(paths, ResolveAvailable(s, agent))
  }

  /** The local files taking head's side would destroy. */
  ghost function AtRisk(s: Repo, agent: Agent, want: set<Path>): set<Path>
    requires agent in s.sandbox
  {
    set p | p in want && NeedsBackup(Get(HeadTree(s), p), HashAt(s.sandbox[agent], p))
  }

  /** The agent's file is still the version it took note of, though head has another one. */
  predicate Outdated(s: Repo, agent: Agent, p: Path)
    requires agent in s.sandbox && agent in s.indexes
  {
    && p in HeadTree(s) && p in s.indexes[agent] && s.indexes[agent][p] != HeadTree(s)[p]
    && p in s.sandbox[agent] && ContentHash(s.sandbox[agent][p]) == s.indexes[agent][p]
  }

  ghost predicate ResolveAllowed(s: Repo, agent: Agent, want: set<Path>, take: Take, expectHead: Option<nat>)
    requires agent in s.sandbox && agent in s.indexes
  {
    take.Local? ==> (s.head.Some? ==> expectHead == s.head) && forall p | p in want :: !Outdated(s, agent, p)
  }

  /** A resolve of `want` that wrote the backups of `saved` and the files of
      `taken`; the baselines are written all together or not at all. */
  ghost predicate ResolvedSome(s: Repo, agent: Agent, want: set<Path>, take: Take,
                               saved: set<Path>, taken: set<Path>, marked: bool, t: Repo)
  {
    && agent in s.sandbox && agent in s.indexes && agent in s.lost
    && saved <= AtRisk(s, agent, want) && taken <= want
    && (take.Local? ==> saved == {} && taken == {})
    && (taken != {} || (marked && take.Upstream?) ==> saved == AtRisk(s, agent, want))
    && (marked && take.Upstream? ==> taken == want)
    && t == s.(lost := s.lost[agent := Overlay(s.lost[agent], s.sandbox[agent], saved)],
               sandbox := s.sandbox[agent := Overlay(s.sandbox[agent], Contents(HeadTree(s)), taken)],
               indexes := s.indexes[agent := Overlay(s.indexes[agent], HeadTree(s), if marked then want else {})])
  }

  /** A resolve of `want` that went through. */
  ghost predicate ResolvedAll(s: Repo, agent: Agent, want: set<Path>, take: Take, t: Repo) {
    && agent in s.sandbox
    && ResolvedSome(s, agent, want, take, if take.Upstream? then AtRisk(s, agent, want) else {},
                    if take.Upstream? then want else {}, true, t)
  }

  ghost predicate ResolveStep(s: Repo, agent: Agent, paths: seq<Path>, take: Take, expectHead: Option<nat>, t: Repo) {
    && agent in s.sandbox && agent in s.indexes
    && var want := ResolveWant(s, agent, paths);
       && ResolveAllowed(s, agent, want, take, expectHead)
       && exists saved, taken, marked :: ResolvedSome(s, agent, want, take, saved, taken, marked, t)
  }

  ghost predicate RestoreLostStep(s: Repo, agent: Agent, path: Path, expectCurrent: Option<Hash>, t: Repo) {
    && agent in s.sandbox && agent in s.lost
    && path in s.lost[agent]
    && HashAt(s.sandbox[agent], path) == expectCurrent
    && t == s.(sandbox := s.sandbox[agent := s.sandbox[agent][path := s.lost[agent][path]]])
  }

  // ---------- reclaiming objects ----------

  ghost predicate Reachable(s: Repo, h: Hash) {
    || (exists id, p :: id in s.commits && p in s.commits[id].tree && s.commits[id].tree[p] == h)
    || (exists a, p :: a in s.indexes && p in s.indexes[a] && s.indexes[a][p] == h)
  }

  /** Is this file of the object directory to be kept? */
  ghost predicate Wanted(s: Repo, o: ObjName) {
    o.Object? && Reachable(s, o.hash)
  }

  /** The kept objects, the unreachable objects and the leftovers among `names`. */
  ghost function Live(s: Repo, names: set<ObjName>): set<ObjName> {
    set o | o in names && Wanted(s, o)
  }

  ghost function Dead(s: Repo, names: set<ObjName>): set<ObjName> {
    set o | o in names && o.Object? && !Wanted(s, o)
  }

  ghost function Strays(names: set<ObjName>): set<ObjName> {
    set o | o in names && o.Stray?
  }

  /** The bytes of the listed files of the object directory. */
  ghost function SizeOf(objects: map<ObjName, Bytes>, names: set<ObjName>): nat
    requires names <= objects.Keys
  {
    if names == {} then 0
    else var o :| o in names; |objects[o]| + SizeOf(objects, names - {o})
  }

  lemma {:induction false} SizeOfSplit(objects: map<ObjName, Bytes>, names: set<ObjName>, o: ObjName)
    requires names <= objects.Keys && o in names
    ensures SizeOf(objects, names) == |objects[o]| + SizeOf(objects, names - {o})
  {
    var first :| first in names && SizeOf(objects, names) == |objects[first]| + SizeOf(objects, names - {first});
    if first != o {
      SizeOfSplit(objects, names - {first}, o);
      SizeOfSplit(objects, names - {o}, first);
      assert names - {first} - {o} == names - {o} - {first};
    }
  }

  ghost predicate GcStep(s: Repo, t: Repo) {
    && t == s.(objects := t.objects)
    && (forall o | o in t.objects :: o in s.objects && t.objects[o] == s.objects[o])
    && (forall o | o in s.objects && Wanted(s, o) :: o in t.objects)
  }

  // ---------- all of them ----------

  datatype Call =
    | EditSandbox(agent: Agent, files: Files)
    | EditOutside(files: Files)
    | WorkPull(agent: Agent, paths: seq<Path>)
    | WorkCommit(agent: Agent, paths: seq<Path>, deletes: seq<Path>, line: nat, note: Note)
    | WorkSync(paths: seq<Path>, time: int)
    | WorkCommitUser(path: Path, bytes: Bytes, time: int, line: nat)
    | WorkResolve(agent: Agent, paths: seq<Path>, take: Take, expectHead: Option<nat>)
    | WorkRestoreLost(agent: Agent, path: Path, expectCurrent: Option<Hash>)
    | WorkRestore(target: Option<nat>, force: bool)
    | WorkRewind(keepByAgent: map<Agent, nat>)
    | WorkDiscard(keep: Option<nat>)
    | WorkGc
    | WorkRecover

  ghost predicate Effect(s: Repo, call: Call, t: Repo) {
    match call
    case EditSandbox(agent, files) => agent in s.sandbox && t == s.(sandbox := s.sandbox[agent := files])
    case EditOutside(files) => s.external && t == s.(shared := files)
    case WorkPull(agent, paths) => PullStep(s, agent, paths, t)
    case WorkCommit(agent, paths, deletes, line, note) => CommitStep(s, agent, paths, deletes, line, note, t)
    case WorkSync(paths, time) => SyncStep(s, paths, time, t)
    case WorkCommitUser(path, bytes, time, line) => UserCommitStep(s, path, bytes, time, line, t)
    case WorkResolve(agent, paths, take, expectHead) => ResolveStep(s, agent, paths, take, expectHead, t)
    case WorkRestoreLost(agent, path, expectCurrent) => RestoreLostStep(s, agent, path, expectCurrent, t)
    case WorkRestore(target, force) => MoveStep(s, target, force, t)
    case WorkRewind(keepByAgent) => RewindStep(s, keepByAgent, t)
    case WorkDiscard(keep) => DiscardStep(s, keep, t)
    case WorkGc => GcStep(s, t)
    case WorkRecover => t == s
  }

  /** One call of an operation, seen from idle state to idle state. */
  ghost predicate Step(s: Repo, call: Call, t: Repo) {
    Spare(s, t) || Effect(s, call, t)
  }
}
