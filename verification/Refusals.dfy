/** For which reasons each operation may turn a request down, read off the repository's
    state alone. The operations' contracts say that a call which is not interrupted is
    refused for one of these reasons, and succeeds only when none of them holds. */
module Refusals {
  import opened Outcomes
  import Texts
  import opened WorkTree
  import opened Workstore
  import opened Repository
  import opened Steps

  predicate AllClean(paths: seq<Path>) {
    forall i | 0 <= i < |paths| :: IsClean(paths[i])
  }

  /** The requests that pass: none of their paths can lead anywhere but down. */
  lemma AllCleanGoDown(paths: seq<Path>)
    ensures AllClean(paths) <==> forall p | p in paths ::
      GoesDown(Split(p, '/')) && forall c | c in p :: c != '\\' && c >= ' ' && !('\U{7f}' <= c <= '\U{9f}')
  {
    hide IsClean, GoesDown;
    forall p | p in paths {
      CleanGoesDown(p);
    }
    if AllClean(paths) {
      forall p | p in paths
        ensures IsClean(p)
      {
        var i :| 0 <= i < |paths| && paths[i] == p;
      }
    }
  }

  ghost predicate Distinct(paths: seq<Path>) {
    forall i, j | 0 <= i < j < |paths| :: paths[i] != paths[j]
  }

  ghost predicate RefusesPull(s: Repo, agent: Agent, paths: seq<Path>, why: Refusal) {
    match why
    case NoPaths => paths == []
    case BadPath => !AllClean(paths)
    case UnknownAgent => agent !in s.sandbox
    case EmptyRepository => s.head.None?
    case _ => false
  }

  ghost predicate TooLargeListed(box: Files, paths: seq<Path>, limit: nat) {
    exists p :: p in Expanded(paths, box.Keys) && |box[p]| > limit
  }

  ghost predicate ListsTwice(box: Files, paths: seq<Path>, deletes: seq<Path>) {
    !Distinct(deletes) || exists d :: d in deletes && d in Expanded(paths, box.Keys)
  }

  lemma {:induction false} DistinctCount(paths: seq<Path>)
    ensures |set p | p in paths| <= |paths|
    ensures |set p | p in paths| == |paths| <==> Distinct(paths)
  {
    if paths != [] {
      var n := |paths| - 1;
      var last, few := paths[n], paths[..n];
      DistinctCount(few);
      assert forall p :: p in paths <==> p in few || p == last;
      var all := set p | p in few;
      assert (set p | p in paths) == all + {last};
      if last in few {
        assert all + {last} == all;
        var i :| 0 <= i < n && few[i] == last;
        assert paths[i] == paths[n];
      } else {
        assert forall i | 0 <= i < n :: paths[i] == few[i] && few[i] in few;
        assert Distinct(paths) ==> Distinct(few);
      }
    }
  }

  /** A request lists nothing twice exactly when the files it asks for and its deletions count up to
      the paths it is about. */
  lemma ListsTwiceIs(s: Repo, agent: Agent, paths: seq<Path>, deletes: seq<Path>)
    requires agent in s.sandbox
    ensures ListsTwice(s.sandbox[agent], paths, deletes) <==>
      |CommitLocals(s, agent, paths, deletes).Keys| < |Expanded(paths, s.sandbox[agent].Keys)| + |deletes|
  {
    hide Expanded, Distinct;
    var asked, dropped := Expanded(paths, s.sandbox[agent].Keys), set d | d in deletes;
    DistinctCount(deletes);
    assert CommitLocals(s, agent, paths, deletes).Keys == asked + dropped;
    assert asked + dropped == asked + (dropped - asked) && |asked + (dropped - asked)| == |asked| + |dropped - asked|;
    assert dropped == (dropped - asked) + (dropped * asked);
    assert |dropped| == |dropped - asked| + |dropped * asked|;
    assert dropped * asked == {} <==> !exists d :: d in deletes && d in asked by {
      if dropped * asked != {} {
        var d :| d in dropped * asked;
      }
    }
  }

  /** What a commit is refused for once the agent is known. */
  ghost predicate RefusesLocals(s: Repo, limit: nat, agent: Agent, paths: seq<Path>, deletes: seq<Path>, why: Refusal)
    requires agent in s.sandbox && agent in s.indexes
  {
    var locals := CommitLocals(s, agent, paths, deletes);
    match why
    case PathsMissing => !AllFound(paths, s.sandbox[agent].Keys)
    case TooLarge => TooLargeListed(s.sandbox[agent], paths, limit)
    case BadPath => !AllClean(deletes)
    case ListedTwice => ListsTwice(s.sandbox[agent], paths, deletes)
    case NothingListed => locals == map[]
    case ChangedOutside => s.external && !UntouchedOutside(s, locals)
    case Conflicts => PlannedConflicts(s.indexes[agent], HeadTree(s), locals) != map[]
    case NothingChanged => PlannedChanges(s.indexes[agent], HeadTree(s), locals) == map[]
    case _ => false
  }

  ghost predicate RefusesCommit(s: Repo, limit: nat, agent: Agent, paths: seq<Path>, deletes: seq<Path>, note: Note,
                                why: Refusal)
  {
    || (why.EmptyMessage? && Texts.Trim(note.message) == "")
    || (why.BadPath? && !AllClean(paths))
    || (why.UnknownAgent? && agent !in s.sandbox)
    || (agent in s.sandbox && agent in s.indexes && RefusesLocals(s, limit, agent, paths, deletes, why))
  }

  /** A changed file is too large unless its content is stored already. */
  ghost predicate TooLargeToStore(s: Repo, changes: Changes, limit: nat) {
    exists p :: p in changes && !changes[p].Delete?
      && |changes[p].hash.content| > limit && Object(changes[p].hash) !in s.objects
  }

  ghost predicate RefusesSync(s: Repo, limit: nat, paths: seq<Path>, why: Refusal) {
    match why
    case NoPaths => paths == []
    case BadPath => !AllClean(paths)
    case TooLarge => TooLargeToStore(s, SyncChanges(s, paths), limit)
    case _ => false
  }

  ghost predicate RefusesResolve(s: Repo, agent: Agent, paths: seq<Path>, take: Take, expectHead: Option<nat>,
                                 why: Refusal)
  {
    match why
    case NoPaths => paths == []
    case BadPath => !AllClean(paths) || !OneComponent(agent)
    case UnknownAgent => agent !in s.sandbox
    case PathsMissing => agent in s.sandbox && agent in s.indexes && ResolveWant(s, agent, paths) == {}
    case HeadMoved => take.Local? && s.head.Some? && expectHead.Some? && expectHead != s.head
    case HeadRequired => take.Local? && s.head.Some? && expectHead.None?
    case LocalUnchanged =>
      && agent in s.sandbox && agent in s.indexes && take.Local?
      && KeepsUnmerged(s, agent, ResolveWant(s, agent, paths))
    case _ => false
  }

  /** Some file asked for is outdated. */
  ghost predicate KeepsUnmerged(s: Repo, agent: Agent, want: set<Path>)
    requires agent in s.sandbox && agent in s.indexes
  {
    exists p :: p in want && Outdated(s, agent, p)
  }

  predicate OneComponent(agent: Agent) {
    agent !in {"", ".", ".."} && '/' !in agent && '\\' !in agent
  }

  ghost predicate RefusesRestoreLost(s: Repo, agent: Agent, path: Path, expectCurrent: Option<Hash>, why: Refusal) {
    match why
    case BadPath => !IsClean(path) || !OneComponent(agent)
    case UnknownAgent => agent !in s.sandbox
    case NoBackup => agent in s.lost && path !in s.lost[agent]
    case NotAsExpected => agent in s.sandbox && HashAt(s.sandbox[agent], path) != expectCurrent
    case _ => false
  }
}
