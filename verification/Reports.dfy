/** What the operations tell their caller, read off the state before the call. */
module Reports {
  import opened Outcomes
  import opened WorkTree
  import opened Workstore
  import opened Repository
  import opened Steps

  // ---------- commits ----------

  datatype CommitReport = CommitReport(id: nat, changes: Changes)

  /** What adopting outside edits found; no commit when nothing differs. */
  datatype SyncReport = SyncReport(commit: Option<nat>, changes: Changes, same: set<Path>, missing: seq<Path>)

  ghost function SyncAvailable(s: Repo): set<Path> {
    HeadTree(s).Keys + s.shared.Keys
  }

  /** The listed files that are on disk as head has them. */
  ghost function SyncSame(s: Repo, paths: seq<Path>): set<Path> {
    set p | p in Expanded(paths, SyncAvailable(s)) && p in s.shared && HashAt(s.shared, p) == Get(HeadTree(s), p)
  }

  /** Every file asked for is reported once, as a change or as the same. */
  lemma SyncReportCovers(s: Repo, paths: seq<Path>)
    ensures SyncChanges(s, paths).Keys + SyncSame(s, paths) == Expanded(paths, SyncAvailable(s))
    ensures SyncChanges(s, paths).Keys !! SyncSame(s, paths)
  {
  }

  // ---------- pulls ----------

  /** What a pull did about one path. */
  datatype PullOutcome =
    | Updated                   // copied into the sandbox
    | Already                   // the sandbox had it; only the baseline moved
    | Untouched                 // head has not moved
    | InTheWay                  // an unrelated local file was left alone
    | Clashing(kind: Conflict)  // both sides moved
    | DiffersOutside            // the external workspace shows another content than head

  datatype PullReport = PullReport(commit: Option<nat>, outcomes: map<Path, PullOutcome>, missing: seq<Path>)

  function OutcomeOf(verdict: PullVerdict, local: Option<Hash>): PullOutcome {
    match verdict
    case Update => Updated
    case AlreadySame => Already
    case Occupied => InTheWay
    case PullConflict => Clashing(if local.None? then DeleteVsModify else BothModified)
    case _ => Untouched
  }

  /** What is done about a file of head: `disk` is what an external workspace shows, None elsewhere. */
  function FileOutcome(disk: Option<Option<Hash>>, head: Option<Hash>, base: Option<Hash>,
                       local: Option<Hash>): PullOutcome {
    if disk.Some? && disk.value != head then DiffersOutside else OutcomeOf(JudgePull(base, head, local), local)
  }

  /** The content of a file in an external workspace. */
  function Shown(external: bool, shared: Files, p: Path): Option<Option<Hash>> {
    if external then Some(HashAt(shared, p)) else None
  }

  function PullOutcomeAt(s: Repo, agent: Agent, p: Path): PullOutcome
    requires agent in s.sandbox && agent in s.indexes
  {
    FileOutcome(Shown(s.external, s.shared, p), Get(HeadTree(s), p),
                Get(s.indexes[agent], p), HashAt(s.sandbox[agent], p))
  }

  ghost function PullOutcomes(s: Repo, agent: Agent, seen: set<Path>): map<Path, PullOutcome>
    requires agent in s.sandbox && agent in s.indexes
  {
    map p | p in seen :: PullOutcomeAt(s, agent, p)
  }

  /** The report of a pull that went through tells exactly what happened to each file and baseline. */
  lemma PullReportIsTrue(s: Repo, agent: Agent, want: set<Path>, t: Repo, p: Path)
    requires PulledSome(s, agent, want, want, want, t) && p in want && want <= HeadTree(s).Keys
    ensures var o := PullOutcomeAt(s, agent, p);
      && (o == Updated <==> Get(t.sandbox[agent], p) != Get(s.sandbox[agent], p))
      && (o == Already <==> Get(t.sandbox[agent], p) == Get(s.sandbox[agent], p)
                            && Get(t.indexes[agent], p) != Get(s.indexes[agent], p))
      && (o in {Updated, Already} <==> Get(t.indexes[agent], p) != Get(s.indexes[agent], p))
      && (o in {Updated, Already} ==> Get(t.indexes[agent], p) == Get(HeadTree(s), p) == HashAt(t.sandbox[agent], p))
      && (o == DiffersOutside <==> s.external && HashAt(s.shared, p) != Get(HeadTree(s), p))
      && (o == Untouched <==> o != DiffersOutside && Get(s.indexes[agent], p) == Get(HeadTree(s), p))
      && (o == InTheWay ==> p !in s.indexes[agent] && p in s.sandbox[agent])
      && (o.Clashing? ==> p in s.indexes[agent] && o.kind in {DeleteVsModify, BothModified})
      && (o == Clashing(DeleteVsModify) ==> p !in s.sandbox[agent])
      && (o == Clashing(BothModified) ==> p in s.sandbox[agent])
      && (o == InTheWay || o.Clashing? ==>
            Get(HeadTree(s), p) !in {Get(s.indexes[agent], p), HashAt(s.sandbox[agent], p)})
  {
    PullRule(Get(s.indexes[agent], p), Get(HeadTree(s), p), HashAt(s.sandbox[agent], p));
  }

  // ---------- resolves ----------

  datatype ResolveAction = WroteUpstream | RemovedLocal | Marked | Cleared | NothingToDo

  datatype ResolveEntry = ResolveEntry(action: ResolveAction, backup: Option<Path>)

  datatype ResolveReport = ResolveReport(
    head: Option<nat>, entries: map<Path, ResolveEntry>, missing: seq<Path>, warnings: map<Path, LocalTake>)

  /** Where the backup of a file is kept, from the store's directory. */
  function LostRel(agent: Agent, rel: Path): Path {
    "lost/" + agent + "/" + rel
  }

  function ActionOf(take: Take, base: Option<Hash>, head: Option<Hash>, local: Option<Hash>): ResolveAction {
    if take.Upstream? && local != head then if head.Some? then WroteUpstream else RemovedLocal
    else if base == head then NothingToDo
    else if head.Some? then Marked
    else Cleared
  }

  function EntryAt(s: Repo, agent: Agent, take: Take, p: Path): ResolveEntry
    requires agent in s.sandbox && agent in s.indexes
  {
    var head, local := Get(HeadTree(s), p), HashAt(s.sandbox[agent], p);
    ResolveEntry(ActionOf(take, Get(s.indexes[agent], p), head, local),
                 if take.Upstream? && NeedsBackup(head, local) then Some(LostRel(agent, p)) else None)
  }

  ghost function Entries(s: Repo, agent: Agent, take: Take, done: set<Path>): map<Path, ResolveEntry>
    requires agent in s.sandbox && agent in s.indexes
  {
    map p | p in done :: EntryAt(s, agent, take, p)
  }

  ghost function Warnings(s: Repo, agent: Agent, take: Take, seen: set<Path>): map<Path, LocalTake>
    requires agent in s.sandbox && agent in s.indexes
  {
    map p | p in seen && take.Local? && LocalTakeAt(s, agent, p) in {WarnLocalMissing, WarnNoBase}
      :: LocalTakeAt(s, agent, p)
  }

  /** Keeping a local file is warned of exactly where head has the file and the sandbox does not, or
      has another one although the agent took note of none. */
  lemma WarningsAreTrue(s: Repo, agent: Agent, take: Take, want: set<Path>, p: Path)
    requires agent in s.sandbox && agent in s.indexes
    ensures var w := Get(Warnings(s, agent, take, want), p);
      var asked := take.Local? && p in want && p in HeadTree(s);
      && (w == Some(WarnLocalMissing) <==> asked && p !in s.sandbox[agent])
      && (w == Some(WarnNoBase) <==> asked && p in s.sandbox[agent] && p !in s.indexes[agent]
                                     && s.sandbox[agent][p] != HeadTree(s)[p].content)
      && (w.Some? ==> w.value in {WarnLocalMissing, WarnNoBase})
  {
  }

  function LocalTakeAt(s: Repo, agent: Agent, p: Path): LocalTake
    requires agent in s.sandbox && agent in s.indexes
  {
    JudgeLocalTake(Get(s.indexes[agent], p), Get(HeadTree(s), p), HashAt(s.sandbox[agent], p))
  }

  /** The report of a resolve that went through tells exactly what happened to each file,
      baseline and backup. */
  lemma ResolveReportIsTrue(s: Repo, agent: Agent, want: set<Path>, take: Take, t: Repo, p: Path)
    requires agent in s.sandbox && agent in s.indexes && p in want
    requires ResolvedAll(s, agent, want, take, t)
    ensures var e := EntryAt(s, agent, take, p);
      && (e.action in {WroteUpstream, RemovedLocal} <==> Get(t.sandbox[agent], p) != Get(s.sandbox[agent], p))
      && (e.action == RemovedLocal <==> p in s.sandbox[agent] && p !in t.sandbox[agent])
      && (e.action == WroteUpstream ==> p in t.sandbox[agent])
      && (e.action == Marked ==> Get(t.indexes[agent], p) != Get(s.indexes[agent], p) && p in t.indexes[agent])
      && (e.action == Cleared ==> p in s.indexes[agent] && p !in t.indexes[agent])
      && (e.action == NothingToDo <==>
            && Get(t.sandbox[agent], p) == Get(s.sandbox[agent], p)
            && Get(t.indexes[agent], p) == Get(s.indexes[agent], p))
      && (e.backup.Some? <==> take.Upstream? && p in s.sandbox[agent]
                              && Get(t.sandbox[agent], p) != Get(s.sandbox[agent], p))
      && (e.backup.Some? ==> Get(t.lost[agent], p) == Get(s.sandbox[agent], p))
    ensures Get(t.indexes[agent], p) == Get(HeadTree(s), p)
  {
    assert p in AtRisk(s, agent, want) <==> NeedsBackup(Get(HeadTree(s), p), HashAt(s.sandbox[agent], p));
  }

  // ---------- restored backups ----------

  datatype RestoreReport = RestoreReport(hash: Hash, size: nat, previous: Option<Hash>)

  // ---------- collections ----------

  /** The counts of a collection: all content objects, the kept and the unreachable ones, each
      with their bytes, what was deleted of the latter, and the leftover files. */
  datatype GcReport = GcReport(
    applied: bool, objects: nat, bytes: nat,
    reachable: nat, reachableBytes: nat, unreachable: nat, unreachableBytes: nat,
    removed: nat, removedBytes: nat, ignored: nat, removedIgnored: nat)

  /** The content objects among `names`. */
  ghost function Contentful(names: set<ObjName>): set<ObjName> {
    set o | o in names && o.Object?
  }

  ghost function GcReportFor(s: Repo, seen: set<ObjName>, apply: bool): GcReport
    requires seen <= s.objects.Keys
  {
    var all, live, dead := Contentful(seen), Live(s, seen), Dead(s, seen);
    GcReport(
      apply, |all|, SizeOf(s.objects, all),
      |live|, SizeOf(s.objects, live), |dead|, SizeOf(s.objects, dead),
      if apply then |dead| else 0, if apply then SizeOf(s.objects, dead) else 0,
      |Strays(seen)|, if apply then |Strays(seen)| else 0)
  }

  ghost function GcReportOf(s: Repo, apply: bool): GcReport {
    GcReportFor(s, s.objects.Keys, apply)
  }

  /** The parts of a report add up: kept and unreachable are all objects, in number and in
      bytes, and a collection deletes all of the unreachable or, as a dry run, nothing. */
  predicate AddsUp(report: GcReport) {
    && report.objects == report.reachable + report.unreachable
    && report.bytes == report.reachableBytes + report.unreachableBytes
    && report.removed == (if report.applied then report.unreachable else 0)
    && report.removedBytes == (if report.applied then report.unreachableBytes else 0)
    && report.removedIgnored == (if report.applied then report.ignored else 0)
  }

  lemma GcCountsAddUp(s: Repo, apply: bool)
    ensures AddsUp(GcReportOf(s, apply))
  {
    var names := s.objects.Keys;
    var live, dead := Live(s, names), Dead(s, names);
    assert live + dead == Contentful(names) && live !! dead;
    SizeOfUnion(s.objects, live, dead);
  }

  lemma {:induction false} SizeOfUnion(objects: map<ObjName, Bytes>, one: set<ObjName>, two: set<ObjName>)
    requires one + two <= objects.Keys && one !! two
    ensures SizeOf(objects, one + two) == SizeOf(objects, one) + SizeOf(objects, two)
    decreases one
  {
    if one == {} {
      assert one + two == two;
    } else {
      var o :| o in one;
      SizeOfSplit(objects, one, o);
      SizeOfSplit(objects, one + two, o);
      assert one + two - {o} == (one - {o}) + two;
      SizeOfUnion(objects, one - {o}, two);
    }
  }

  /** Counts one more file of the object directory. */
  function Tally(report: GcReport, o: ObjName, size: nat, wanted: bool): GcReport {
    var r := if o.Object? then report.(objects := report.objects + 1, bytes := report.bytes + size) else report;
    if o.Stray? then
      r.(ignored := r.ignored + 1, removedIgnored := r.removedIgnored + if r.applied then 1 else 0)
    else if wanted then
      r.(reachable := r.reachable + 1, reachableBytes := r.reachableBytes + size)
    else
      r.(unreachable := r.unreachable + 1, unreachableBytes := r.unreachableBytes + size,
         removed := r.removed + (if r.applied then 1 else 0),
         removedBytes := r.removedBytes + if r.applied then size else 0)
  }

  lemma StrayUnwanted(s: Repo, o: ObjName)
    ensures Wanted(s, o) ==> o.Object?
  {
  }

  lemma OneMore(objects: map<ObjName, Bytes>, names: set<ObjName>, more: set<ObjName>, o: ObjName)
    requires o in objects && o !in names && more == names + {o} && more <= objects.Keys
    ensures |more| == |names| + 1 && SizeOf(objects, more) == SizeOf(objects, names) + |objects[o]|
  {
    SizeOfSplit(objects, more, o);
    assert more - {o} == names;
  }

  lemma SeenMore(s: Repo, seen: set<ObjName>, o: ObjName)
    requires o !in seen && o in s.objects && seen <= s.objects.Keys
    ensures Live(s, seen + {o}) == if Wanted(s, o) then Live(s, seen) + {o} else Live(s, seen)
    ensures Dead(s, seen + {o}) == if o.Object? && !Wanted(s, o) then Dead(s, seen) + {o} else Dead(s, seen)
    ensures Strays(seen + {o}) == if o.Stray? then Strays(seen) + {o} else Strays(seen)
    ensures Contentful(seen + {o}) == if o.Object? then Contentful(seen) + {o} else Contentful(seen)
    ensures o !in Live(s, seen) + Dead(s, seen) + Strays(seen) + Contentful(seen)
    ensures Live(s, seen) + Dead(s, seen) + Strays(seen) + Contentful(seen) <= s.objects.Keys
  {
    hide Reachable;
  }

  lemma TallyStray(s: Repo, seen: set<ObjName>, o: ObjName, apply: bool)
    requires seen <= s.objects.Keys && o in s.objects && o !in seen && o.Stray?
    ensures GcReportFor(s, seen + {o}, apply) == Tally(GcReportFor(s, seen, apply), o, |s.objects[o]|, Wanted(s, o))
  {
    hide Wanted, SizeOf, Live, Dead, Strays, Contentful;
    StrayUnwanted(s, o);
    SeenMore(s, seen, o);
    OneMore(s.objects, Strays(seen), Strays(seen + {o}), o);
  }

  lemma TallyKept(s: Repo, seen: set<ObjName>, o: ObjName, apply: bool)
    requires seen <= s.objects.Keys && o in s.objects && o !in seen && o.Object? && Wanted(s, o)
    ensures GcReportFor(s, seen + {o}, apply) == Tally(GcReportFor(s, seen, apply), o, |s.objects[o]|, true)
  {
    hide Wanted, SizeOf, Live, Dead, Strays, Contentful;
    SeenMore(s, seen, o);
    OneMore(s.objects, Contentful(seen), Contentful(seen + {o}), o);
    OneMore(s.objects, Live(s, seen), Live(s, seen + {o}), o);
  }

  lemma TallyDead(s: Repo, seen: set<ObjName>, o: ObjName, apply: bool)
    requires seen <= s.objects.Keys && o in s.objects && o !in seen && o.Object? && !Wanted(s, o)
    ensures GcReportFor(s, seen + {o}, apply) == Tally(GcReportFor(s, seen, apply), o, |s.objects[o]|, false)
  {
    hide Wanted, SizeOf, Live, Dead, Strays, Contentful;
    SeenMore(s, seen, o);
    OneMore(s.objects, Contentful(seen), Contentful(seen + {o}), o);
    OneMore(s.objects, Dead(s, seen), Dead(s, seen + {o}), o);
  }

  lemma TallyStep(s: Repo, seen: set<ObjName>, o: ObjName, apply: bool)
    requires seen <= s.objects.Keys && o in s.objects && o !in seen
    ensures GcReportFor(s, seen + {o}, apply) == Tally(GcReportFor(s, seen, apply), o, |s.objects[o]|, Wanted(s, o))
  {
    hide Wanted, GcReportFor, Tally;
    if o.Stray? {
      TallyStray(s, seen, o, apply);
    } else if Wanted(s, o) {
      TallyKept(s, seen, o, apply);
    } else {
      TallyDead(s, seen, o, apply);
    }
  }

  /** The object directory without the unwanted files among `seen`. */
  ghost function Swept(s: Repo, seen: set<ObjName>): map<ObjName, Bytes> {
    s.objects - (Dead(s, seen) + Strays(seen))
  }

  lemma NoneSeen(s: Repo, apply: bool)
    ensures GcReportFor(s, {}, apply) == GcReport(apply, 0, 0, 0, 0, 0, 0, 0, 0, 0, 0)
    ensures Swept(s, {}) == s.objects && GcStep(s, s)
  {
    assert Live(s, {}) == {} && Dead(s, {}) == {} && Strays({}) == {} && Contentful({}) == {};
  }

  /** Deleting one unwanted file is what the sweep of one more file amounts to. */
  lemma SweptStep(s: Repo, seen: set<ObjName>, o: ObjName)
    requires o in s.objects && o !in seen
    ensures Swept(s, seen + {o}) == if Wanted(s, o) then Swept(s, seen) else Swept(s, seen) - {o}
    ensures GcStep(s, s.(objects := Swept(s, seen))) && GcStep(s, s.(objects := Swept(s, seen + {o})))
  {
    hide Reachable;
    assert forall x :: x in Dead(s, seen + {o}) + Strays(seen + {o}) <==>
      (x in Dead(s, seen) + Strays(seen) || (x == o && !Wanted(s, o)));
  }
}
