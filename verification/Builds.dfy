/** Batch builds: what is skipped, what is built, and in which order the results come back.
    Build commands, guests and ports are free to fail at any step and to leave anything in
    the directory of the module they run for; they reach no other module's directory. */
module Builds {
  import opened Outcomes

  datatype Decl = Decl(command: string, needs: seq<string>, net: bool)

  datatype Module = Module(id: string, root: string, entries: seq<string>, build: Option<Decl>)

  datatype Target = Host | Guest(name: string) {
    function Label(): string {
      if Host? then "host" else name
    }
  }

  datatype Built = Built(id: string, target: string, skipped: bool, output: string)

  /** An entry of a module that can be run on an operating system. */
  datatype Usable = Usable(root: string, entry: string, os: string)

  /** What a build was made from. */
  datatype Fingerprint = Fingerprint(decl: Decl, providers: seq<string>, sources: string)

  datatype State = State(id: string, target: string, fingerprint: Fingerprint)

  /** What a module needs while it is built, on a target. */
  datatype Need = Need(target: string, needs: seq<string>)

  /** What a build reads: the entries that can be run, the states kept, the sources by module
      directory, and who would provide what is needed. */
  datatype Disk = Disk(
    usable: set<Usable>, states: map<string, State>, sources: map<string, string>, offers: map<Need, seq<string>>)

  datatype Plan = Plan(made: Module, decl: Decl, fingerprint: Fingerprint)

  function Left(m: Module, os: string, usable: set<Usable>): seq<string> {
    LeftOf(m.entries, m.root, os, usable)
  }

  function LeftOf(entries: seq<string>, root: string, os: string, usable: set<Usable>): (left: seq<string>)
    ensures left == [] <==> forall i | 0 <= i < |entries| :: Usable(root, entries[i], os) in usable
  {
    if entries == [] then []
    else
      var rest := LeftOf(entries[1..], root, os, usable);
      if Usable(root, entries[0], os) in usable then rest else [entries[0]] + rest
  }

  /** The product on disk is for this target, or came with the module. */
  predicate UpToDate(m: Module, tag: string, os: string, d: Disk) {
    && Left(m, os, d.usable) == []
    && (m.build.None? || m.id !in d.states || d.states[m.id].target == tag)
  }

  /** What a build of the module would be made from. */
  function FingerprintNow(m: Module, tag: string, d: Disk): Option<Fingerprint> {
    if m.build.Some? && m.root in d.sources && Need(tag, m.build.value.needs) in d.offers then
      Some(Fingerprint(m.build.value, d.offers[Need(tag, m.build.value.needs)], d.sources[m.root]))
    else None
  }

  /** The last build was for this target and from what is there now, and its entries are there. */
  predicate Reusable(m: Module, tag: string, os: string, d: Disk) {
    && m.id in d.states && d.states[m.id].target == tag && Left(m, os, d.usable) == []
    && Some(d.states[m.id].fingerprint) == FingerprintNow(m, tag, d)
  }

  /** The state kept for the module names the target and what was there before the build. */
  predicate Stamped(m: Module, tag: string, before: Disk, after: Disk) {
    && m.id in after.states && after.states[m.id].target == tag
    && Some(after.states[m.id].fingerprint) == FingerprintNow(m, tag, before)
  }

  ghost predicate AllStamped(ms: seq<Module>, tag: string, before: Disk, after: Disk) {
    Distinct(ms) ==> forall k | 0 <= k < |ms| :: Stamped(ms[k], tag, before, after)
  }

  ghost predicate Apart(ms: seq<Module>) {
    forall i, j | 0 <= i < j < |ms| :: ms[i].root != ms[j].root
  }

  ghost predicate Distinct(ms: seq<Module>) {
    Apart(ms) && forall i, j | 0 <= i < j < |ms| :: ms[i].id != ms[j].id
  }

  /** `b` is about module `m` on the target called `tag`. */
  predicate About(m: Module, tag: string, b: Built) {
    b.id == m.id && b.target == tag && (b.skipped ==> b.output == "")
  }

  ghost predicate InOrder(ms: seq<Module>, tag: string, bs: seq<Built>) {
    |bs| == |ms| && forall i | 0 <= i < |ms| :: About(ms[i], tag, bs[i])
  }

  /** The directories the first `n` results say a build command ran in. */
  function RanIn(ms: seq<Module>, bs: seq<Built>, n: nat): seq<string>
    requires n <= |ms| && n <= |bs|
  {
    if n == 0 then [] else RanIn(ms, bs, n - 1) + if bs[n - 1].skipped then [] else [ms[n - 1].root]
  }

  /** Nothing outside these modules' directories became usable or stopped being so. */
  ghost predicate Confined(before: set<Usable>, after: set<Usable>, ms: seq<Module>) {
    forall u | u !in before <==> u in after :: exists k :: 0 <= k < |ms| && ms[k].root == u.root
  }

  ghost predicate SameAt<K, V>(before: map<K, V>, after: map<K, V>, key: K) {
    (key in before <==> key in after) && (key in before ==> before[key] == after[key])
  }

  /** Only these modules' directories had their sources changed. */
  ghost predicate SourcesConfined(before: map<string, string>, after: map<string, string>, ms: seq<Module>) {
    forall root | !SameAt(before, after, root) :: exists k :: 0 <= k < |ms| && ms[k].root == root
  }

  /** Module `k` answers for the state kept under `id`: a state that can be read names this
      module and target, and unless another module shares its directory, all its entries are there. */
  ghost predicate AnswersFor(ms: seq<Module>, k: nat, d: Disk, id: string, tag: string, os: string) {
    && k < |ms| && ms[k].id == id
    && (id in d.states ==>
          && d.states[id].id == id && d.states[id].target == tag
          && (Apart(ms) ==> Left(ms[k], os, d.usable) == []))
  }

  /** Only these modules' directories and states were touched, and one of the modules answers
      for every state that changed. */
  ghost predicate Did(before: Disk, after: Disk, ms: seq<Module>, tag: string, os: string) {
    && Confined(before.usable, after.usable, ms)
    && SourcesConfined(before.sources, after.sources, ms)
    && after.offers == before.offers
    && forall id | !SameAt(before.states, after.states, id) :: exists k: nat :: AnswersFor(ms, k, after, id, tag, os)
  }

  ghost predicate AllThere(ms: seq<Module>, os: string, usable: set<Usable>) {
    Apart(ms) ==> forall i | 0 <= i < |ms| :: Left(ms[i], os, usable) == []
  }

  // ---------- putting results back ----------

  /** How many of the first `n` slots are still empty. */
  function Holes(slots: seq<Option<Built>>, n: nat): nat
    requires n <= |slots|
  {
    if n == 0 then 0 else Holes(slots, n - 1) + if slots[n - 1].None? then 1 else 0
  }

  /** Result `i`: what its slot holds, else the next of the built ones. */
  function Slot(slots: seq<Option<Built>>, built: seq<Built>, i: nat): Option<Built>
    requires i < |slots|
  {
    if slots[i].Some? then slots[i]
    else if Holes(slots, i) < |built| then Some(built[Holes(slots, i)]) else None
  }

  lemma {:induction false} HolesGrow(slots: seq<Option<Built>>, i: nat, j: nat)
    requires i <= j <= |slots|
    ensures Holes(slots, i) <= Holes(slots, j)
    decreases j - i
  {
    if i < j {
      HolesGrow(slots, i, j - 1);
    }
  }

  lemma HoleHasResult(slots: seq<Option<Built>>, i: nat)
    requires i < |slots| && slots[i].None?
    ensures Holes(slots, i) < Holes(slots, |slots|)
  {
    HolesGrow(slots, i + 1, |slots|);
  }

  lemma {:induction false} HolesPrefix(slots: seq<Option<Built>>, more: seq<Option<Built>>, n: nat)
    requires n <= |slots| <= |more| && slots == more[..|slots|]
    ensures Holes(slots, n) == Holes(more, n)
  {
    if n > 0 {
      HolesPrefix(slots, more, n - 1);
    }
  }

  /** The modules whose slots are empty are `jobs`, in order; `at` says which they are. */
  ghost predicate Picked(ms: seq<Module>, slots: seq<Option<Built>>, jobs: seq<Module>, at: seq<nat>) {
    && |slots| == |ms| && |jobs| == |at| == Holes(slots, |slots|)
    && (forall t: nat | t < |at| :: PickedAt(ms, slots, jobs, at, t))
    && forall i: nat | i < |slots| && slots[i].None? :: Holes(slots, i) < |at| && at[Holes(slots, i)] == i
  }

  ghost predicate PickedAt(ms: seq<Module>, slots: seq<Option<Built>>, jobs: seq<Module>, at: seq<nat>, t: nat)
    requires |slots| == |ms| && |jobs| == |at| && t < |at|
  {
    at[t] < |ms| && slots[at[t]].None? && Holes(slots, at[t]) == t && jobs[t] == ms[at[t]]
  }

  lemma PickMore(ms: seq<Module>, slots: seq<Option<Built>>, jobs: seq<Module>, at: seq<nat>, m: Module,
                 b: Option<Built>)
    requires Picked(ms, slots, jobs, at)
    ensures Picked(ms + [m], slots + [b], if b.None? then jobs + [m] else jobs, if b.None? then at + [|ms|] else at)
  {
    var more := slots + [b];
    forall i: nat | i <= |slots|
      ensures Holes(more, i) == Holes(slots, i)
    {
      HolesPrefix(slots, more, i);
    }
    var jobs', at' := if b.None? then jobs + [m] else jobs, if b.None? then at + [|ms|] else at;
    forall t: nat | t < |at'|
      ensures PickedAt(ms + [m], more, jobs', at', t)
    {
      assert t < |at| ==> PickedAt(ms, slots, jobs, at, t);
    }
  }

  lemma PickedApart(ms: seq<Module>, slots: seq<Option<Built>>, jobs: seq<Module>, at: seq<nat>)
    requires Picked(ms, slots, jobs, at)
    ensures Apart(ms) ==> Apart(jobs)
    ensures Distinct(ms) ==> Distinct(jobs)
  {
    forall s: nat, t: nat | s < t < |jobs|
      ensures at[s] < |ms| && at[t] < |ms| && at[s] != at[t] && jobs[s] == ms[at[s]] && jobs[t] == ms[at[t]]
    {
      assert PickedAt(ms, slots, jobs, at, s) && PickedAt(ms, slots, jobs, at, t);
    }
  }

  /** Slots filled from the results of the jobs are results for all modules, in order. */
  lemma FilledInOrder(ms: seq<Module>, slots: seq<Option<Built>>, jobs: seq<Module>, at: seq<nat>, built: seq<Built>,
                      tag: string, bs: seq<Built>)
    requires Picked(ms, slots, jobs, at) && InOrder(jobs, tag, built)
    requires forall i: nat | i < |ms| && slots[i].Some? :: About(ms[i], tag, slots[i].value) && slots[i].value.skipped
    requires |bs| == |ms| && forall i: nat | i < |ms| :: Slot(slots, built, i) == Some(bs[i])
    ensures InOrder(ms, tag, bs)
    ensures RanIn(ms, bs, |ms|) == RanIn(jobs, built, |jobs|)
  {
    forall i: nat | i < |ms|
      ensures About(ms[i], tag, bs[i])
    {
      assert Slot(slots, built, i) == Some(bs[i]);
      if slots[i].None? {
        assert PickedAt(ms, slots, jobs, at, Holes(slots, i));
      }
    }
    FilledRan(ms, slots, jobs, at, built, bs, |ms|);
  }

  lemma {:induction false} FilledRan(ms: seq<Module>, slots: seq<Option<Built>>, jobs: seq<Module>, at: seq<nat>,
                                     built: seq<Built>, bs: seq<Built>, n: nat)
    requires Picked(ms, slots, jobs, at) && |built| == |jobs| && n <= |ms|
    requires forall i: nat | i < |ms| && slots[i].Some? :: slots[i].value.skipped
    requires |bs| == |ms| && forall i: nat | i < |ms| :: Slot(slots, built, i) == Some(bs[i])
    ensures Holes(slots, n) <= |jobs|
    ensures RanIn(ms, bs, n) == RanIn(jobs, built, Holes(slots, n))
  {
    HolesGrow(slots, n, |slots|);
    if n > 0 {
      FilledRan(ms, slots, jobs, at, built, bs, n - 1);
      assert Slot(slots, built, n - 1) == Some(bs[n - 1]);
      if slots[n - 1].None? {
        assert PickedAt(ms, slots, jobs, at, Holes(slots, n - 1));
      }
    }
  }

  // ---------- what steps keep ----------

  /** A module whose directory no job shares keeps its entries. */
  lemma KeepsEntries(before: set<Usable>, after: set<Usable>, ms: seq<Module>, m: Module, os: string)
    requires Confined(before, after, ms)
    requires forall k | 0 <= k < |ms| :: ms[k].root != m.root
    ensures Left(m, os, before) == [] <==> Left(m, os, after) == []
  {
    forall i | 0 <= i < |m.entries|
      ensures Usable(m.root, m.entries[i], os) in before <==> Usable(m.root, m.entries[i], os) in after
    {
    }
  }

  lemma WiderSources(before: map<string, string>, after: map<string, string>, few: seq<Module>, many: seq<Module>)
    requires SourcesConfined(before, after, few)
    requires forall m | m in few :: exists k :: 0 <= k < |many| && many[k].root == m.root
    ensures SourcesConfined(before, after, many)
  {
    forall root | !SameAt(before, after, root)
      ensures exists k :: 0 <= k < |many| && many[k].root == root
    {
      var k :| 0 <= k < |few| && few[k].root == root;
      assert few[k] in few;
    }
  }

  lemma SourcesMore(a: map<string, string>, b: map<string, string>, c: map<string, string>, ms: seq<Module>, m: Module)
    requires SourcesConfined(a, b, ms) && SourcesConfined(b, c, [m])
    ensures SourcesConfined(a, c, ms + [m])
  {
    var all := ms + [m];
    assert all[|ms|] == m;
    forall root | !SameAt(a, c, root)
      ensures exists k :: 0 <= k < |all| && all[k].root == root
    {
      if !SameAt(a, b, root) {
        var k :| 0 <= k < |ms| && ms[k].root == root;
        assert all[k].root == root;
      } else {
        assert !SameAt(b, c, root);
        assert all[|ms|].root == root;
      }
    }
  }

  /** Builds of modules in other directories change nothing that a module is built from. */
  lemma SameNow(a: Disk, b: Disk, ms: seq<Module>, m: Module, tag: string)
    requires SourcesConfined(a.sources, b.sources, ms) && b.offers == a.offers
    requires forall k | 0 <= k < |ms| :: ms[k].root != m.root
    ensures FingerprintNow(m, tag, b) == FingerprintNow(m, tag, a)
  {
    assert SameAt(a.sources, b.sources, m.root);
  }

  /** One module's build: its entries were all there when its state was written. */
  lemma DoneOne(a: Disk, b: Disk, m: Module, tag: string, os: string)
    requires Confined(a.usable, b.usable, [m]) && SourcesConfined(a.sources, b.sources, [m]) && b.offers == a.offers
    requires forall id | id != m.id :: SameAt(a.states, b.states, id)
    requires !SameAt(a.states, b.states, m.id) && m.id in b.states ==>
      b.states[m.id].id == m.id && b.states[m.id].target == tag && Left(m, os, b.usable) == []
    ensures Did(a, b, [m], tag, os)
  {
    forall id | !SameAt(a.states, b.states, id)
      ensures exists k: nat :: AnswersFor([m], k, b, id, tag, os)
    {
      assert AnswersFor([m], 0, b, id, tag, os);
    }
  }

  /** One more module's build after a batch. */
  lemma DoneMore(a: Disk, b: Disk, c: Disk, ms: seq<Module>, m: Module, tag: string, os: string)
    requires Did(a, b, ms, tag, os) && Did(b, c, [m], tag, os)
    ensures Did(a, c, ms + [m], tag, os)
  {
    var all := ms + [m];
    assert all[|ms|] == m;
    SourcesMore(a.sources, b.sources, c.sources, ms, m);
    forall u | u !in a.usable <==> u in c.usable
      ensures exists k :: 0 <= k < |all| && all[k].root == u.root
    {
      if u !in a.usable <==> u in b.usable {
        var k :| 0 <= k < |ms| && ms[k].root == u.root;
        assert all[k].root == u.root;
      }
    }
    forall id | !SameAt(a.states, c.states, id)
      ensures exists k: nat :: AnswersFor(all, k, c, id, tag, os)
    {
      if !SameAt(b.states, c.states, id) {
        var k: nat :| AnswersFor([m], k, c, id, tag, os);
        assert AnswersFor(all, |ms|, c, id, tag, os);
      } else {
        assert !SameAt(a.states, b.states, id);
        var k: nat :| AnswersFor(ms, k, b, id, tag, os);
        assert all[k] == ms[k];
        if Apart(all) {
          PrefixApart(ms, m);
          KeepsEntries(b.usable, c.usable, [m], ms[k], os);
        }
        assert AnswersFor(all, k, c, id, tag, os);
      }
    }
  }

  lemma PrefixApart(ms: seq<Module>, m: Module)
    requires Apart(ms + [m])
    ensures Apart(ms) && forall k | 0 <= k < |ms| :: ms[k].root != m.root
  {
    var all := ms + [m];
    assert forall k | 0 <= k < |ms| :: all[k] == ms[k];
    assert all[|ms|] == m;
  }

  /** What the jobs did is done for the modules they were picked from. */
  lemma DidForAll(a: Disk, b: Disk, ms: seq<Module>, slots: seq<Option<Built>>, jobs: seq<Module>, at: seq<nat>,
                  tag: string, os: string)
    requires Picked(ms, slots, jobs, at) && Did(a, b, jobs, tag, os)
    ensures Did(a, b, ms, tag, os)
  {
    PickedApart(ms, slots, jobs, at);
    forall m | m in jobs
      ensures exists k :: 0 <= k < |ms| && ms[k].root == m.root
    {
      var t: nat :| t < |jobs| && jobs[t] == m;
      assert PickedAt(ms, slots, jobs, at, t);
      assert ms[at[t]].root == m.root;
    }
    WiderSources(a.sources, b.sources, jobs, ms);
    forall u | u !in a.usable <==> u in b.usable
      ensures exists k :: 0 <= k < |ms| && ms[k].root == u.root
    {
      var k :| 0 <= k < |jobs| && jobs[k].root == u.root;
      assert PickedAt(ms, slots, jobs, at, k);
      assert ms[at[k]].root == u.root;
    }
    forall id | !SameAt(a.states, b.states, id)
      ensures exists k: nat :: AnswersFor(ms, k, b, id, tag, os)
    {
      var k: nat :| AnswersFor(jobs, k, b, id, tag, os);
      assert PickedAt(ms, slots, jobs, at, k);
      assert AnswersFor(ms, at[k], b, id, tag, os);
    }
  }

  /** The modules that were not jobs keep the entries they had. */
  lemma ThereForAll(a: Disk, b: Disk, ms: seq<Module>, slots: seq<Option<Built>>, jobs: seq<Module>, at: seq<nat>,
                    os: string)
    requires Picked(ms, slots, jobs, at) && Confined(a.usable, b.usable, jobs) && AllThere(jobs, os, b.usable)
    requires forall i: nat | i < |ms| && slots[i].Some? :: Left(ms[i], os, a.usable) == []
    ensures AllThere(ms, os, b.usable)
  {
    PickedApart(ms, slots, jobs, at);
    if Apart(ms) {
      forall i: nat | i < |ms|
        ensures Left(ms[i], os, b.usable) == []
      {
        if slots[i].None? {
          assert PickedAt(ms, slots, jobs, at, Holes(slots, i));
        } else {
          forall k: nat | k < |jobs|
            ensures jobs[k].root != ms[i].root
          {
            assert PickedAt(ms, slots, jobs, at, k);
          }
          KeepsEntries(a.usable, b.usable, jobs, ms[i], os);
        }
      }
    }
  }

  /** A module is reusable after builds of other modules exactly if it was so before them. */
  lemma ReusableBefore(a: Disk, b: Disk, ms: seq<Module>, m: Module, tag: string, os: string)
    requires Did(a, b, ms, tag, os)
    requires forall k | 0 <= k < |ms| :: ms[k].root != m.root && ms[k].id != m.id
    ensures Reusable(m, tag, os, b) <==> Reusable(m, tag, os, a)
  {
    KeepsEntries(a.usable, b.usable, ms, m, os);
    SameNow(a, b, ms, m, tag);
    assert SameAt(a.states, b.states, m.id);
  }

  /** Exactly the modules whose last build still stood came back as skipped. */
  ghost predicate SkipsRightly(ms: seq<Module>, bs: seq<Built>, tag: string, os: string, d: Disk)
    requires |bs| == |ms|
  {
    Distinct(ms) ==> forall k | 0 <= k < |ms| :: bs[k].skipped <==> Reusable(ms[k], tag, os, d)
  }

  lemma SkipMore(a: Disk, b: Disk, ms: seq<Module>, bs: seq<Built>, m: Module, r: Built, tag: string, os: string)
    requires |bs| == |ms| && SkipsRightly(ms, bs, tag, os, a) && Did(a, b, ms, tag, os)
    requires r.skipped <==> Reusable(m, tag, os, b)
    ensures SkipsRightly(ms + [m], bs + [r], tag, os, a)
  {
    var all := ms + [m];
    if Distinct(all) {
      PrefixApart(ms, m);
      assert forall k | 0 <= k < |ms| :: all[k] == ms[k];
      assert all[|ms|] == m;
      ReusableBefore(a, b, ms, m, tag, os);
    }
  }

  /** Put together: the batch skips exactly the modules that were up to date at its start. */
  lemma SkipsExactly(ms: seq<Module>, slots: seq<Option<Built>>, jobs: seq<Module>, at: seq<nat>, built: seq<Built>,
                     bs: seq<Built>, tag: string, os: string, d: Disk)
    requires Picked(ms, slots, jobs, at) && |built| == |jobs| && SkipsRightly(jobs, built, tag, os, d)
    requires forall i: nat | i < |ms| :: slots[i].Some? <==> UpToDate(ms[i], tag, os, d)
    requires forall i: nat | i < |ms| && slots[i].Some? :: slots[i].value.skipped
    requires |bs| == |ms| && forall i: nat | i < |ms| :: Slot(slots, built, i) == Some(bs[i])
    ensures Distinct(ms) ==> forall i: nat | i < |ms| :: bs[i].skipped <==> UpToDate(ms[i], tag, os, d)
  {
    PickedApart(ms, slots, jobs, at);
    if Distinct(ms) {
      forall i: nat | i < |ms|
        ensures bs[i].skipped <==> UpToDate(ms[i], tag, os, d)
      {
        assert Slot(slots, built, i) == Some(bs[i]);
        if slots[i].None? {
          assert PickedAt(ms, slots, jobs, at, Holes(slots, i));
        }
      }
    }
  }

  /** One more build leaves the states of the modules before it as they were stamped. */
  lemma StampMore(a: Disk, b: Disk, c: Disk, ms: seq<Module>, m: Module, tag: string, os: string)
    requires Did(a, b, ms, tag, os) && Did(b, c, [m], tag, os)
    requires AllStamped(ms, tag, a, b) && Stamped(m, tag, b, c)
    ensures AllStamped(ms + [m], tag, a, c)
  {
    hide FingerprintNow;
    var all := ms + [m];
    if Distinct(all) {
      PrefixApart(ms, m);
      SameNow(a, b, ms, m, tag);
      assert all[|ms|] == m && forall k | 0 <= k < |ms| :: all[k] == ms[k];
      forall k: nat | k < |ms|
        ensures Stamped(all[k], tag, a, c)
      {
        assert all[k].id != all[|ms|].id;
        assert SameAt(b.states, c.states, ms[k].id);
      }
    }
  }

  lemma StampNone(ms: seq<Module>, tag: string, a: Disk, b: Disk)
    ensures AllStamped(ms[..0], tag, a, b)
  {
  }

  /** The state kept for a plan's module is the plan's. */
  predicate StampedBy(plan: Plan, tag: string, d: Disk) {
    && plan.made.id in d.states && d.states[plan.made.id].target == tag
    && d.states[plan.made.id].fingerprint == plan.fingerprint
  }

  ghost predicate AllPlanned(plans: seq<Plan>, tag: string, d: Disk) {
    Distinct(Mades(plans)) ==> forall k | 0 <= k < |plans| :: StampedBy(plans[k], tag, d)
  }

  lemma PlannedMore(b: Disk, c: Disk, plans: seq<Plan>, i: nat, tag: string, os: string)
    requires i < |plans| && Did(b, c, [plans[i].made], tag, os)
    requires AllPlanned(plans[..i], tag, b) && StampedBy(plans[i], tag, c)
    ensures AllPlanned(plans[..i + 1], tag, c)
  {
    var few, more := plans[..i], plans[..i + 1];
    if Distinct(Mades(more)) {
      assert forall k | 0 <= k < i :: Mades(few)[k] == Mades(more)[k];
      assert Mades(more)[i] == plans[i].made;
      forall k | 0 <= k < i
        ensures StampedBy(more[k], tag, c)
      {
        assert StampedBy(few[k], tag, b);
        assert SameAt(b.states, c.states, Mades(more)[k].id);
      }
    }
  }

  lemma PlannedNone(plans: seq<Plan>, tag: string, d: Disk)
    ensures AllPlanned(plans[..0], tag, d)
  {
  }

  /** The plans were made from what was there at the start, and the other jobs' states still stood. */
  lemma GuestStamped(a: Disk, b: Disk, jobs: seq<Module>, done: seq<Option<Built>>, plans: seq<Plan>, at: seq<nat>,
                     guest: string, os: string)
    requires Picked(jobs, done, Mades(plans), at) && Did(a, b, Mades(plans), guest, os) && AllPlanned(plans, guest, b)
    requires forall k: nat | k < |jobs| && done[k].Some? :: Reusable(jobs[k], guest, os, a)
    requires forall k | 0 <= k < |plans| :: Some(plans[k].fingerprint) == FingerprintNow(plans[k].made, guest, a)
    ensures AllStamped(jobs, guest, a, b)
  {
    hide FingerprintNow;
    PickedApart(jobs, done, Mades(plans), at);
    if Distinct(jobs) {
      forall k: nat | k < |jobs|
        ensures Stamped(jobs[k], guest, a, b)
      {
        if done[k].None? {
          assert PickedAt(jobs, done, Mades(plans), at, Holes(done, k));
          assert StampedBy(plans[Holes(done, k)], guest, b);
        } else {
          NotPicked(jobs, done, Mades(plans), at, k);
          assert SameAt(a.states, b.states, jobs[k].id);
        }
      }
    }
  }

  lemma NotPicked(ms: seq<Module>, slots: seq<Option<Built>>, jobs: seq<Module>, at: seq<nat>, k: nat)
    requires Picked(ms, slots, jobs, at) && Distinct(ms) && k < |ms| && slots[k].Some?
    ensures forall t | 0 <= t < |jobs| :: jobs[t].id != ms[k].id
  {
    forall t: nat | t < |jobs|
      ensures jobs[t].id != ms[k].id
    {
      assert PickedAt(ms, slots, jobs, at, t);
    }
  }

  lemma ThereMore(before: set<Usable>, after: set<Usable>, ms: seq<Module>, m: Module, os: string)
    requires AllThere(ms, os, before) && Confined(before, after, [m]) && Left(m, os, after) == []
    ensures AllThere(ms + [m], os, after)
  {
    if Apart(ms + [m]) {
      PrefixApart(ms, m);
      forall i | 0 <= i < |ms|
        ensures Left(ms[i], os, after) == []
      {
        KeepsEntries(before, after, [m], ms[i], os);
      }
    }
  }

  /** A batch came back whole: a result for each module, in order; no build skipped that did
      not fit; every entry there. */
  ghost predicate Completed(ms: seq<Module>, bs: seq<Built>, tag: string, os: string, before: Disk,
                            usable: set<Usable>) {
    |bs| == |ms| && InOrder(ms, tag, bs) && AllThere(ms, os, usable) && SkipsRightly(ms, bs, tag, os, before)
  }

  lemma PickedLength(ms: seq<Module>, slots: seq<Option<Built>>, jobs: seq<Module>, at: seq<nat>)
    requires Picked(ms, slots, jobs, at)
    ensures |slots| == |ms| && Holes(slots, |slots|) == |jobs|
    ensures forall k: nat | k < |ms| && slots[k].None? :: Holes(slots, k) < |jobs| && jobs[Holes(slots, k)] == ms[k]
  {
    forall k: nat | k < |ms| && slots[k].None?
      ensures Holes(slots, k) < |jobs| && jobs[Holes(slots, k)] == ms[k]
    {
      assert PickedAt(ms, slots, jobs, at, Holes(slots, k));
    }
  }

  /** The results of the guest and of the builds that still stood, put back in place. */
  lemma GuestResults(jobs: seq<Module>, done: seq<Option<Built>>, ms: seq<Module>, at: seq<nat>, built: seq<Built>,
                     out: seq<Built>, guest: string, os: string, a: Disk, b: Disk)
    requires Picked(jobs, done, ms, at) && |built| == |ms| && InOrder(ms, guest, built) && |done| == |jobs|
    requires forall k: nat | k < |jobs| && done[k].Some? ::
      About(jobs[k], guest, done[k].value) && done[k].value.skipped && Reusable(jobs[k], guest, os, a)
    requires forall k: nat | k < |jobs| && done[k].None? :: !Reusable(jobs[k], guest, os, a)
    requires |out| == |done| && forall i: nat | i < |done| :: Slot(done, built, i) == Some(out[i])
    requires forall i | 0 <= i < |built| :: !built[i].skipped
    requires Did(a, b, ms, guest, os) && AllThere(ms, os, b.usable)
    ensures Completed(jobs, out, guest, os, a, b.usable)
    ensures RanIn(jobs, out, |jobs|) == RanIn(ms, built, |ms|)
    ensures ms == [] <==> forall i | 0 <= i < |jobs| :: out[i].skipped
  {
    hide AllThere, InOrder, RanIn, About, Reusable, Left;
    assert forall k: nat | k < |jobs| && done[k].Some? :: Left(jobs[k], os, a.usable) == [] by {
      ReusableLeft(guest, os, a);
    }
    FilledInOrder(jobs, done, ms, at, built, guest, out);
    ThereForAll(a, b, jobs, done, ms, at, os);
    forall i: nat | i < |jobs|
      ensures out[i].skipped <==> done[i].Some?
    {
      assert Slot(done, built, i) == Some(out[i]);
      assert done[i].None? ==> out[i] == built[Holes(done, i)];
    }
    if ms != [] {
      assert PickedAt(jobs, done, ms, at, 0);
      assert !out[at[0]].skipped;
    }
  }

  lemma ReusableLeft(tag: string, os: string, d: Disk)
    ensures forall m :: Reusable(m, tag, os, d) ==> Left(m, os, d.usable) == []
  {
  }

  function Mades(plans: seq<Plan>): (ms: seq<Module>)
    ensures |ms| == |plans| && forall i | 0 <= i < |ms| :: ms[i] == plans[i].made
  {
    seq(|plans|, i requires 0 <= i < |plans| => plans[i].made)
  }

  lemma DidNothing(d: Disk, ms: seq<Module>, tag: string, os: string)
    ensures Did(d, d, ms, tag, os)
  {
  }

  /** What was done for the first modules was done for all of them. */
  lemma DidPrefix(a: Disk, b: Disk, ms: seq<Module>, n: nat, tag: string, os: string)
    requires n <= |ms| && Did(a, b, ms[..n], tag, os)
    ensures Did(a, b, ms, tag, os)
  {
    WiderSources(a.sources, b.sources, ms[..n], ms);
    forall u | u !in a.usable <==> u in b.usable
      ensures exists k :: 0 <= k < |ms| && ms[k].root == u.root
    {
      var k :| 0 <= k < n && ms[..n][k].root == u.root;
      assert ms[k].root == u.root;
    }
    forall id | !SameAt(a.states, b.states, id)
      ensures exists k: nat :: AnswersFor(ms, k, b, id, tag, os)
    {
      var k: nat :| AnswersFor(ms[..n], k, b, id, tag, os);
      assert AnswersFor(ms, k, b, id, tag, os);
    }
  }

  lemma {:induction false} RanPrefix(ms: seq<Module>, bs: seq<Built>, more: seq<Built>, n: nat)
    requires n <= |ms| && n <= |bs| <= |more| && bs == more[..|bs|]
    ensures RanIn(ms, bs, n) == RanIn(ms, more, n)
  {
    if n > 0 {
      RanPrefix(ms, bs, more, n - 1);
    }
  }

  lemma NoBatch(d: Disk, ms: seq<Module>, tag: string, os: string)
    ensures Did(d, d, ms[..0], tag, os) && AllThere(ms[..0], os, d.usable) && InOrder(ms[..0], tag, [])
    ensures RanIn(ms, [], 0) == []
  {
  }

  lemma DoneUpto(a: Disk, b: Disk, c: Disk, ms: seq<Module>, i: nat, tag: string, os: string)
    requires i < |ms| && Did(a, b, ms[..i], tag, os) && Did(b, c, [ms[i]], tag, os)
    ensures Did(a, c, ms[..i + 1], tag, os)
  {
    assert ms[..i + 1] == ms[..i] + [ms[i]];
    DoneMore(a, b, c, ms[..i], ms[i], tag, os);
  }

  lemma BatchMore(b: Disk, c: Disk, ms: seq<Module>, i: nat, out: seq<Built>, r: Built, tag: string, os: string)
    requires i < |ms| && |out| == i && Did(b, c, [ms[i]], tag, os)
    requires InOrder(ms[..i], tag, out) && About(ms[i], tag, r)
    requires AllThere(ms[..i], os, b.usable) && Left(ms[i], os, c.usable) == []
    ensures InOrder(ms[..i + 1], tag, out + [r]) && AllThere(ms[..i + 1], os, c.usable)
    ensures RanIn(ms, out + [r], i + 1) == RanIn(ms, out, i) + if r.skipped then [] else [ms[i].root]
  {
    assert ms[..i + 1] == ms[..i] + [ms[i]];
    ThereMore(b.usable, c.usable, ms[..i], ms[i], os);
    RanPrefix(ms, out, out + [r], i);
  }

  lemma NoSkips(d: Disk, ms: seq<Module>, tag: string, os: string)
    ensures SkipsRightly(ms[..0], [], tag, os, d)
  {
  }

  lemma NothingPicked()
    ensures Picked([], [], [], [])
  {
  }

  /** A module that misses an entry and does not say how to build it. */
  ghost predicate Hopeless(ms: seq<Module>, os: string, usable: set<Usable>) {
    exists k :: 0 <= k < |ms| && ms[k].build.None? && Left(ms[k], os, usable) != []
  }

  /** The batch is as it was asked for: a result for each module, in order; every entry there;
      exactly the modules that were up to date at the start skipped. The last two need modules
      that share no directory, and no name. */
  ghost predicate Ensured(ms: seq<Module>, bs: seq<Built>, tag: string, os: string, before: Disk, after: Disk) {
    && |bs| == |ms| && InOrder(ms, tag, bs) && AllThere(ms, os, after.usable)
    && (Distinct(ms) ==> forall i: nat | i < |ms| :: bs[i].skipped <==> UpToDate(ms[i], tag, os, before))
    && (Distinct(ms) ==> forall i: nat | i < |ms| && !bs[i].skipped :: Stamped(ms[i], tag, before, after))
  }

  lemma NoHoles(ms: seq<Module>, slots: seq<Option<Built>>, jobs: seq<Module>, at: seq<nat>)
    requires Picked(ms, slots, jobs, at)
    ensures (forall i | 0 <= i < |ms| :: slots[i].Some?) ==> jobs == []
  {
    if jobs != [] {
      assert PickedAt(ms, slots, jobs, at, 0);
    }
  }

  /** The results of the jobs, put back among the modules that were up to date. */
  lemma AllEnsured(ms: seq<Module>, slots: seq<Option<Built>>, jobs: seq<Module>, at: seq<nat>, built: seq<Built>,
                   out: seq<Built>, tag: string, os: string, a: Disk, b: Disk)
    requires Picked(ms, slots, jobs, at) && Completed(jobs, built, tag, os, a, b.usable) && Did(a, b, jobs, tag, os)
    requires AllStamped(jobs, tag, a, b)
    requires |slots| == |ms| && forall k: nat | k < |ms| :: (slots[k].Some? <==> UpToDate(ms[k], tag, os, a))
    requires forall k: nat | k < |ms| && slots[k].Some? :: About(ms[k], tag, slots[k].value) && slots[k].value.skipped
    requires |out| == |slots| && forall i: nat | i < |slots| :: Slot(slots, built, i) == Some(out[i])
    ensures Ensured(ms, out, tag, os, a, b)
    ensures RanIn(ms, out, |ms|) == RanIn(jobs, built, |jobs|)
  {
    hide AllThere, InOrder, RanIn, SkipsRightly, Slot, Left, About;
    FilledInOrder(ms, slots, jobs, at, built, tag, out);
    ThereForAll(a, b, ms, slots, jobs, at, os);
    SkipsExactly(ms, slots, jobs, at, built, out, tag, os, a);
    PickedApart(ms, slots, jobs, at);
    forall i: nat | Distinct(ms) && i < |ms| && !out[i].skipped
      ensures Stamped(ms[i], tag, a, b)
    {
      assert PickedAt(ms, slots, jobs, at, Holes(slots, i));
    }
  }

  class Builder {
    var usable: set<Usable>
    var states: map<string, State>
    var sources: map<string, string>  // by module directory
    var ran: seq<string>              // the directories build commands ran in, in order
    var inGuest: bool                 // a build guest is up
    var starts: nat                   // how often one was started
    var hostOs: string
    var images: map<string, string>   // the operating system of each guest image
    var offers: map<Need, seq<string>> // who provides what a build needs

    function OnDisk(): Disk
      reads this
    {
      Disk(usable, states, sources, offers)
    }

    /** Whether a step outside this service succeeds. */
    method Works() returns (ok: bool)
    {
      ok := *;
    }

    /** Runs a module's build command: it may change what is in the module's directory. */
    method RunCommand(m: Module) returns (ok: bool, output: string)
      modifies this`usable, this`sources, this`ran
      ensures Confined(old(usable), usable, [m]) && SourcesConfined(old(sources), sources, [m])
      ensures ran == old(ran) + [m.root]
    {
      Disturb(m);
      ran := ran + [m.root];
      ok := *;
      output := *;
    }

    /** Something is written into a module's directory, with any result. */
    method Disturb(m: Module)
      modifies this`usable, this`sources
      ensures Confined(old(usable), usable, [m]) && SourcesConfined(old(sources), sources, [m])
    {
      var any: set<Usable> := *;
      var text: string := *;
      usable := (set u | u in usable && u.root != m.root) + (set u | u in any && u.root == m.root);
      sources := sources[m.root := text];
      assert [m][0] == m;
    }

    /** Reads the sources and asks who provides what the build needs. */
    method FingerprintOf(m: Module, decl: Decl, tag: string) returns (r: Result<Fingerprint>)
      requires m.build == Some(decl)
      ensures r.Ok? ==> Some(r.value) == FingerprintNow(m, tag, OnDisk())
    {
      var read := Works();
      if !read || m.root !in sources || Need(tag, decl.needs) !in offers {
        return Err(PortFailure);
      }
      return Ok(Fingerprint(decl, offers[Need(tag, decl.needs)], sources[m.root]));
    }

    predicate Fresh(m: Module, tag: string, os: string, fingerprint: Fingerprint)
      reads this
      ensures Some(fingerprint) == FingerprintNow(m, tag, OnDisk()) ==>
        (Fresh(m, tag, os, fingerprint) <==> Reusable(m, tag, os, OnDisk()))
    {
      && m.id in states
      && states[m.id].target == tag
      && states[m.id].fingerprint == fingerprint
      && Left(m, os, usable) == []
    }

    /** The end of a build: the entries are looked at once more, then the state is written.
        A write that fails may leave a state that cannot be read. */
    method Finish(m: Module, tag: string, os: string, fingerprint: Fingerprint) returns (r: Result<()>)
      modifies this`states
      ensures Left(m, os, usable) != [] ==> r == Err(Rejected(EntriesMissing)) && states == old(states)
      ensures r.Ok? ==> Left(m, os, usable) == [] && states == old(states)[m.id := State(m.id, tag, fingerprint)]
      ensures r.Err? ==> states == old(states) || states == old(states) - {m.id}
    {
      if Left(m, os, usable) != [] {
        return Err(Rejected(EntriesMissing));
      }
      if * {
        states := states - {m.id};
        return Err(PortFailure);
      }
      states := states[m.id := State(m.id, tag, fingerprint)];
      return Ok(());
    }

    method BuildOnHost(m: Module, decl: Decl, os: string) returns (r: Result<Built>)
      requires m.build == Some(decl)
      modifies this`usable, this`sources, this`ran, this`states
      ensures Did(old(OnDisk()), OnDisk(), [m], "host", os)
      ensures r.Ok? ==>
        && About(m, "host", r.value) && Left(m, os, usable) == []
        && ran == old(ran) + (if r.value.skipped then [] else [m.root])
        && (r.value.skipped <==> Reusable(m, "host", os, old(OnDisk())))
        && Stamped(m, "host", old(OnDisk()), OnDisk())
    {
      var fingerprint :- FingerprintOf(m, decl, "host");
      if Fresh(m, "host", os, fingerprint) {
        return Ok(Built(m.id, "host", true, ""));
      }
      var up := Works();
      if !up {
        return Err(PortFailure);
      }
      var ok, output := RunCommand(m);
      DoneOne(old(OnDisk()), OnDisk(), m, "host", os);
      if !ok {
        return Err(PortFailure);
      }
      var done := Finish(m, "host", os, fingerprint);
      DoneOne(old(OnDisk()), OnDisk(), m, "host", os);
      if done.Err? {
        return Err(done.error);
      }
      return Ok(Built(m.id, "host", false, output));
    }

    /** Builds one module in the running guest and writes its product back. */
    method BuildOne(plan: Plan, guest: string, os: string) returns (r: Result<Built>)
      requires inGuest
      modifies this`usable, this`sources, this`ran, this`states
      ensures Did(old(OnDisk()), OnDisk(), [plan.made], guest, os)
      ensures r.Ok? ==>
        && About(plan.made, guest, r.value) && !r.value.skipped && Left(plan.made, os, usable) == []
        && ran == old(ran) + [plan.made.root]
        && StampedBy(plan, guest, OnDisk())
    {
      var m := plan.made;
      var prepared := Works();
      if !prepared {
        return Err(PortFailure);
      }
      ran := ran + [m.root];
      var ok := Works();
      var output: string := *;
      if !ok {
        return Err(PortFailure);
      }
      Disturb(m);
      DoneOne(old(OnDisk()), OnDisk(), m, guest, os);
      var back := Works();
      if !back {
        return Err(PortFailure);
      }
      var done := Finish(m, guest, os, plan.fingerprint);
      DoneOne(old(OnDisk()), OnDisk(), m, guest, os);
      if done.Err? {
        return Err(done.error);
      }
      return Ok(Built(m.id, guest, false, output));
    }

    method BuildInGuest(plans: seq<Plan>, guest: string, os: string) returns (r: Result<seq<Built>>)
      requires inGuest
      modifies this`usable, this`sources, this`ran, this`states
      ensures Did(old(OnDisk()), OnDisk(), Mades(plans), guest, os)
      ensures r.Ok? ==>
        && |r.value| == |plans| && InOrder(Mades(plans), guest, r.value) && AllThere(Mades(plans), os, usable)
        && (forall i | 0 <= i < |plans| :: !r.value[i].skipped)
        && ran == old(ran) + RanIn(Mades(plans), r.value, |plans|)
        && AllPlanned(plans, guest, OnDisk())
    {
      hide Did, AllThere, InOrder, RanIn, AllPlanned;
      var ms := Mades(plans);
      DidNothing(OnDisk(), ms, guest, os);
      var ready := Works();
      if !ready {
        return Err(PortFailure);
      }
      var out := [];
      NoBatch(OnDisk(), ms, guest, os);
      PlannedNone(plans, guest, OnDisk());
      for i := 0 to |plans|
        invariant |out| == i && Did(old(OnDisk()), OnDisk(), ms[..i], guest, os)
        invariant InOrder(ms[..i], guest, out) && AllThere(ms[..i], os, usable)
        invariant forall k | 0 <= k < i :: !out[k].skipped
        invariant ran == old(ran) + RanIn(ms, out, i)
        invariant AllPlanned(plans[..i], guest, OnDisk())
      {
        ghost var before := OnDisk();
        var built := BuildOne(plans[i], guest, os);
        DoneUpto(old(OnDisk()), before, OnDisk(), ms, i, guest, os);
        if built.Err? {
          DidPrefix(old(OnDisk()), OnDisk(), ms, i + 1, guest, os);
          return Err(built.error);
        }
        BatchMore(before, OnDisk(), ms, i, out, built.value, guest, os);
        PlannedMore(before, OnDisk(), plans, i, guest, os);
        out := out + [built.value];
      }
      assert ms[..|plans|] == ms && plans[..|plans|] == plans;
      return Ok(out);
    }

    /** Fills every empty slot with the next built result; there is always one to take. */
    method PutBack(slots: seq<Option<Built>>, built: seq<Built>) returns (out: seq<Built>)
      requires |built| == Holes(slots, |slots|)
      ensures |out| == |slots| && forall i: nat | i < |slots| :: Slot(slots, built, i) == Some(out[i])
    {
      out := [];
      var next := 0;
      for i := 0 to |slots|
        invariant next == Holes(slots, i)
        invariant |out| == i && forall k: nat | k < i :: Slot(slots, built, k) == Some(out[k])
      {
        if slots[i].Some? {
          out := out + [slots[i].value];
        } else {
          HoleHasResult(slots, i);
          out := out + [built[next]];
          next := next + 1;
        }
      }
    }

    /** Fingerprints a batch and sorts out the modules whose last build still stands. */
    method PlanBatch(jobs: seq<Module>, guest: string, os: string)
      returns (r: Result<()>, plans: seq<Plan>, done: seq<Option<Built>>, ghost at: seq<nat>)
      requires forall i | 0 <= i < |jobs| :: jobs[i].build.Some?
      ensures r.Ok? ==> |done| == |jobs| && |plans| == Holes(done, |jobs|)
      ensures r.Ok? ==> forall k: nat | k < |jobs| && done[k].Some? ::
        About(jobs[k], guest, done[k].value) && done[k].value.skipped && Reusable(jobs[k], guest, os, OnDisk())
      ensures r.Ok? ==> forall k: nat | k < |jobs| && done[k].None? ::
        && Holes(done, k) < |plans| && plans[Holes(done, k)].made == jobs[k]
        && !Reusable(jobs[k], guest, os, OnDisk())
      ensures r.Ok? ==> Picked(jobs, done, Mades(plans), at)
      ensures r.Ok? ==> forall k | 0 <= k < |plans| ::
        Some(plans[k].fingerprint) == FingerprintNow(plans[k].made, guest, OnDisk())
    {
      hide FingerprintNow, Reusable, Picked;
      NothingPicked();
      r, plans, done, at := Ok(()), [], [], [];
      for i := 0 to |jobs|
        invariant |done| == i && Picked(jobs[..i], done, Mades(plans), at)
        invariant forall k: nat | k < i && done[k].Some? ::
          About(jobs[k], guest, done[k].value) && done[k].value.skipped && Reusable(jobs[k], guest, os, OnDisk())
        invariant forall k: nat | k < i && done[k].None? :: !Reusable(jobs[k], guest, os, OnDisk())
        invariant forall k | 0 <= k < |plans| ::
          Some(plans[k].fingerprint) == FingerprintNow(plans[k].made, guest, OnDisk())
      {
        var m := jobs[i];
        var fits := Works();
        if !fits {
          return Err(PortFailure), plans, done, at;
        }
        var fingerprint := FingerprintOf(m, m.build.value, guest);
        if fingerprint.Err? {
          return Err(fingerprint.error), plans, done, at;
        }
        var fresh? := Fresh(m, guest, os, fingerprint.value);
        var slot := if fresh? then Some(Built(m.id, guest, true, "")) else None;
        PickMore(jobs[..i], done, Mades(plans), at, m, slot);
        assert jobs[..i + 1] == jobs[..i] + [m];
        done := done + [slot];
        if !fresh? {
          var plan := Plan(m, m.build.value, fingerprint.value);
          assert Mades(plans + [plan]) == Mades(plans) + [m];
          plans := plans + [plan];
          at := at + [i];
        }
      }
      assert jobs[..|jobs|] == jobs;
      PickedLength(jobs, done, Mades(plans), at);
    }

    /** Builds a batch in one guest. Modules whose last build still stands take no part. */
    method BuildWithGuest(jobs: seq<Module>, guest: string, os: string) returns (r: Result<seq<Built>>)
      requires !inGuest && forall i | 0 <= i < |jobs| :: jobs[i].build.Some?
      modifies this`usable, this`sources, this`ran, this`states, this`inGuest, this`starts
      ensures !inGuest && old(starts) <= starts <= old(starts) + 1
      ensures Did(old(OnDisk()), OnDisk(), jobs, guest, os)
      ensures r.Ok? ==> Completed(jobs, r.value, guest, os, old(OnDisk()), usable)
      ensures r.Ok? ==> ran == old(ran) + RanIn(jobs, r.value, |jobs|)
      ensures r.Ok? ==> AllStamped(jobs, guest, old(OnDisk()), OnDisk())
      ensures r.Ok? ==> (starts == old(starts) <==> forall i | 0 <= i < |jobs| :: r.value[i].skipped)
    {
      hide Did, AllThere, InOrder, RanIn, SkipsRightly, Picked, Slot, Reusable, About, AllPlanned, AllStamped,
           FingerprintNow;
      DidNothing(OnDisk(), jobs, guest, os);
      var ready := Works();
      if !ready {
        return Err(PortFailure);
      }
      if os != "linux" {
        return Err(Rejected(WrongGuest));
      }
      var planned, plans, done, at := PlanBatch(jobs, guest, os);
      if planned.Err? {
        return Err(planned.error);
      }
      var built: seq<Built> := [];
      NoBatch(OnDisk(), Mades(plans), guest, os);
      if plans != [] {
        var up := Works();
        if !up {
          return Err(PortFailure);
        }
        inGuest, starts := true, starts + 1;
        var result := BuildInGuest(plans, guest, os);
        inGuest := false;
        DidForAll(old(OnDisk()), OnDisk(), jobs, done, Mades(plans), at, guest, os);
        if result.Err? {
          return Err(result.error);
        }
        built := result.value;
      } else {
        assert Mades(plans)[..0] == Mades(plans) && plans[..0] == plans;
        PlannedNone(plans, guest, OnDisk());
      }
      GuestStamped(old(OnDisk()), OnDisk(), jobs, done, plans, at, guest, os);
      PickedLength(jobs, done, Mades(plans), at);
      var out := PutBack(done, built);
      GuestResults(jobs, done, Mades(plans), at, built, out, guest, os, old(OnDisk()), OnDisk());
      return Ok(out);
    }

    /** Builds each of these modules, on the host one after the other, or all in one guest. */
    method RunJobs(jobs: seq<Module>, target: Target, os: string) returns (r: Result<seq<Built>>)
      requires !inGuest && forall i | 0 <= i < |jobs| :: jobs[i].build.Some?
      modifies this`usable, this`sources, this`ran, this`states, this`inGuest, this`starts
      ensures !inGuest && old(starts) <= starts <= old(starts) + if target.Host? then 0 else 1
      ensures Did(old(OnDisk()), OnDisk(), jobs, target.Label(), os)
      ensures r.Ok? ==> Completed(jobs, r.value, target.Label(), os, old(OnDisk()), usable)
      ensures r.Ok? ==> ran == old(ran) + RanIn(jobs, r.value, |jobs|)
      ensures r.Ok? ==> AllStamped(jobs, target.Label(), old(OnDisk()), OnDisk())
    {
      hide Did, AllThere, InOrder, RanIn, SkipsRightly, About, Reusable, AllStamped, Stamped;
      if target.Guest? {
        r := BuildWithGuest(jobs, target.name, os);
        return;
      }
      var out := [];
      NoBatch(OnDisk(), jobs, "host", os);
      NoSkips(OnDisk(), jobs, "host", os);
      StampNone(jobs, "host", OnDisk(), OnDisk());
      for i := 0 to |jobs|
        invariant |out| == i && Did(old(OnDisk()), OnDisk(), jobs[..i], "host", os)
        invariant Completed(jobs[..i], out, "host", os, old(OnDisk()), usable)
        invariant ran == old(ran) + RanIn(jobs, out, i)
        invariant AllStamped(jobs[..i], "host", old(OnDisk()), OnDisk())
        invariant !inGuest && starts == old(starts)
      {
        ghost var before := OnDisk();
        var built := BuildOnHost(jobs[i], jobs[i].build.value, os);
        DoneUpto(old(OnDisk()), before, OnDisk(), jobs, i, "host", os);
        if built.Err? {
          DidPrefix(old(OnDisk()), OnDisk(), jobs, i + 1, "host", os);
          return Err(built.error);
        }
        BatchMore(before, OnDisk(), jobs, i, out, built.value, "host", os);
        StampMore(old(OnDisk()), before, OnDisk(), jobs[..i], jobs[i], "host", os);
        SkipMore(old(OnDisk()), before, jobs[..i], out, jobs[i], built.value, "host", os);
        assert jobs[..i + 1] == jobs[..i] + [jobs[i]];
        out := out + [built.value];
      }
      assert jobs[..|jobs|] == jobs;
      return Ok(out);
    }

    function OsOf(target: Target): Option<string>
      reads this
    {
      if target.Host? then Some(hostOs)
      else if target.name in images then Some(images[target.name]) else None
    }

    /** Makes sure that a batch of modules can run on a target, building what has to be built. */
    method EnsureMany(modules: seq<Module>, target: Target) returns (r: Result<seq<Built>>)
      requires !inGuest
      modifies this`usable, this`sources, this`ran, this`states, this`inGuest, this`starts
      ensures !inGuest && old(starts) <= starts <= old(starts) + if target.Host? then 0 else 1
      ensures OsOf(target).None? ==> r.Err?
      ensures OsOf(target).Some? ==> Did(old(OnDisk()), OnDisk(), modules, target.Label(), OsOf(target).value)
      ensures OsOf(target).Some? && Hopeless(modules, OsOf(target).value, old(usable)) ==>
        r == Err(Rejected(EntriesMissing)) && ran == old(ran) && OnDisk() == old(OnDisk())
      ensures OsOf(target).Some? && (forall i | 0 <= i < |modules| ::
        UpToDate(modules[i], target.Label(), OsOf(target).value, old(OnDisk()))) ==>
        r.Ok? && ran == old(ran) && OnDisk() == old(OnDisk()) && starts == old(starts)
      ensures r.Ok? ==> Ensured(modules, r.value, target.Label(), OsOf(target).value, old(OnDisk()), OnDisk())
      ensures r.Ok? ==> ran == old(ran) + RanIn(modules, r.value, |modules|)
    {
      hide Did, AllThere, InOrder, RanIn, SkipsRightly, Picked, Slot, Holes, Distinct, Left, Apart;
      var known := OsOf(target);
      if known.None? {
        return Err(PortFailure);
      }
      var os, tag := known.value, target.Label();
      var slots: seq<Option<Built>>, jobs: seq<Module>, jobSlots: seq<nat> := [], [], [];
      NothingPicked();
      for i := 0 to |modules|
        invariant OnDisk() == old(OnDisk()) && ran == old(ran) && starts == old(starts) && !inGuest
        invariant |slots| == i && Picked(modules[..i], slots, jobs, jobSlots)
        invariant forall k | 0 <= k < |jobs| :: jobs[k].build.Some?
        invariant forall k: nat | k < i :: (slots[k].Some? <==> UpToDate(modules[k], tag, os, OnDisk()))
        invariant forall k: nat | k < i && slots[k].Some? ::
          About(modules[k], tag, slots[k].value) && slots[k].value.skipped
        invariant forall k | 0 <= k < i :: !(modules[k].build.None? && Left(modules[k], os, usable) != [])
      {
        var m := modules[i];
        var left := Left(m, os, usable);
        var slot := if UpToDate(m, tag, os, OnDisk()) then Some(Built(m.id, tag, true, "")) else None;
        if m.build.None? && left != [] {
          DidNothing(OnDisk(), modules, tag, os);
          return Err(Rejected(EntriesMissing));
        }
        PickMore(modules[..i], slots, jobs, jobSlots, m, slot);
        assert modules[..i + 1] == modules[..i] + [m];
        slots := slots + [slot];
        if slot.None? {
          jobSlots, jobs := jobSlots + [i], jobs + [m];
        }
      }
      assert modules[..|modules|] == modules;
      var built: seq<Built> := [];
      NoBatch(OnDisk(), jobs, tag, os);
      NoSkips(OnDisk(), jobs, tag, os);
      StampNone(jobs, tag, OnDisk(), OnDisk());
      DidNothing(OnDisk(), jobs, tag, os);
      NoHoles(modules, slots, jobs, jobSlots);
      if jobs != [] {
        var result := RunJobs(jobs, target, os);
        DidForAll(old(OnDisk()), OnDisk(), modules, slots, jobs, jobSlots, tag, os);
        if result.Err? {
          return Err(result.error);
        }
        built := result.value;
      } else {
        assert jobs[..0] == jobs;
        DidNothing(OnDisk(), modules, tag, os);
      }
      var out := Fill(modules, slots, jobs, jobSlots, built);
      AllEnsured(modules, slots, jobs, jobSlots, built, out, tag, os, old(OnDisk()), OnDisk());
      return Ok(out);
    }

    /** Puts each built result into the slot it belongs to, then empties the slots: every one is filled. */
    method Fill(ghost ms: seq<Module>, slots: seq<Option<Built>>, ghost jobs: seq<Module>, jobSlots: seq<nat>,
                built: seq<Built>)
      returns (out: seq<Built>)
      requires Picked(ms, slots, jobs, jobSlots) && |built| == |jobs|
      ensures |out| == |slots| && forall i: nat | i < |slots| :: Slot(slots, built, i) == Some(out[i])
    {
      hide Holes;
      var filled := slots;
      for t := 0 to |jobSlots|
        invariant |filled| == |slots|
        invariant forall i: nat | i < |slots| ::
          filled[i] == if slots[i].None? && Holes(slots, i) >= t then None else Slot(slots, built, i)
      {
        assert PickedAt(ms, slots, jobs, jobSlots, t);
        filled := filled[jobSlots[t] := Some(built[t])];
      }
      out := [];
      for i := 0 to |filled|
        invariant |out| == i && forall k: nat | k < i :: filled[k] == Some(out[k])
      {
        out := out + [filled[i].value];
      }
    }

    /** Builds one module by its build section. The state of the last build decides whether anything runs. */
    method Build(m: Module, target: Target) returns (r: Result<Built>)
      requires !inGuest
      modifies this`usable, this`sources, this`ran, this`states, this`inGuest, this`starts
      ensures !inGuest
      ensures OsOf(target).None? ==> r.Err?
      ensures OsOf(target).Some? && m.build.None? ==> r == Err(Rejected(NoBuildSection))
      ensures r.Err? && (OsOf(target).None? || m.build.None?) ==> OnDisk() == old(OnDisk()) && ran == old(ran)
      ensures OsOf(target).Some? ==> Did(old(OnDisk()), OnDisk(), [m], target.Label(), OsOf(target).value)
      ensures r.Ok? ==>
        && About(m, target.Label(), r.value) && Left(m, OsOf(target).value, usable) == []
        && (r.value.skipped <==> Reusable(m, target.Label(), OsOf(target).value, old(OnDisk())))
        && Stamped(m, target.Label(), old(OnDisk()), OnDisk())
        && ran == old(ran) + if r.value.skipped then [] else [m.root]
    {
      var os := OsOf(target);
      if os.None? {
        return Err(PortFailure);
      }
      if m.build.None? {
        return Err(Rejected(NoBuildSection));
      }
      var built :- RunJobs([m], target, os.value);
      assert RanIn([m], built, 1) == RanIn([m], built, 0) + if built[0].skipped then [] else [m.root];
      return Ok(built[|built| - 1]);
    }
  }
}
