/** What two calls in a row do: which edits make a module be built again, and which builds
    are done once only. */
module Rebuilds {
  import opened Outcomes
  import opened Builds

  /** The same module as it may have become since: the same name and directory. */
  predicate Became(m: Module, later: Module) {
    later.id == m.id && later.root == m.root
  }

  /** A state that an earlier build wrote stands for a later one if and only if the target, the
      declaration, the sources and the providers are the same and no entry is missing. */
  lemma StandsIffUntouched(m: Module, tag: string, a: Disk, b: Disk, later: Module, tag': string, os: string, c: Disk)
    requires Stamped(m, tag, a, b) && Became(m, later) && SameAt(b.states, c.states, m.id)
    ensures Reusable(later, tag', os, c) <==>
      && tag' == tag && later.build == m.build
      && SameAt(a.sources, c.sources, m.root)
      && SameAt(a.offers, c.offers, Need(tag, m.build.value.needs))
      && forall i | 0 <= i < |later.entries| :: Usable(later.root, later.entries[i], os) in c.usable
  {
  }

  /** Builds a module, lets its author change declaration and sources, and builds it again,
      on the same target or another. */
  method BuildEditBuild(b: Builder, m: Module, target: Target, later: Module, text: string, target': Target)
    returns (first: Result<Built>, second: Result<Built>)
    requires !b.inGuest && Became(m, later)
    modifies b
    ensures first.Ok? && second.Ok? && second.value.skipped ==>
      && target'.Label() == target.Label() && later.build == m.build
      && m.root in old(b.sources) && text == old(b.sources)[m.root]
    ensures first.Ok? && second.Ok? && target' == target && later == m ==>
      m.root in old(b.sources) && (second.value.skipped <==> text == old(b.sources)[m.root])
  {
    ghost var a := b.OnDisk();
    first := b.Build(m, target);
    if first.Err? {
      return first, first;
    }
    ghost var done := b.OnDisk();
    b.sources := b.sources[m.root := text];
    ghost var edited := b.OnDisk();
    second := b.Build(later, target');
    if second.Err? {
      return;
    }
    StandsIffUntouched(m, target.Label(), a, done, later, target'.Label(), b.OsOf(target').value, edited);
  }

  /** A batch that came back leaves every module up to date. */
  lemma EnsuredIsUpToDate(ms: seq<Module>, bs: seq<Built>, tag: string, os: string, a: Disk, b: Disk, i: nat)
    requires Ensured(ms, bs, tag, os, a, b) && Did(a, b, ms, tag, os) && Distinct(ms) && i < |ms|
    ensures UpToDate(ms[i], tag, os, b)
  {
    hide Left, FingerprintNow;
    if bs[i].skipped && !SameAt(a.states, b.states, ms[i].id) {
      var k: nat :| AnswersFor(ms, k, b, ms[i].id, tag, os);
    }
  }

  /** Ensuring a batch twice in a row runs nothing the second time. */
  method EnsureTwice(b: Builder, modules: seq<Module>, target: Target)
    returns (first: Result<seq<Built>>, second: Result<seq<Built>>, ghost between: seq<string>)
    requires !b.inGuest && Distinct(modules)
    modifies b
    ensures first.Ok? ==> second.Ok? && b.ran == between
    ensures first.Ok? ==> |second.value| == |modules| && forall i | 0 <= i < |modules| :: second.value[i].skipped
  {
    ghost var a := b.OnDisk();
    first := b.EnsureMany(modules, target);
    between := b.ran;
    if first.Err? {
      return first, first, between;
    }
    forall i: nat | i < |modules|
      ensures UpToDate(modules[i], target.Label(), b.OsOf(target).value, b.OnDisk())
    {
      EnsuredIsUpToDate(modules, first.value, target.Label(), b.OsOf(target).value, a, b.OnDisk(), i);
    }
    second := b.EnsureMany(modules, target);
  }

  /** What was built for one target is never passed off as built for another. */
  method EnsureElsewhere(b: Builder, m: Module, target: Target, target': Target)
    returns (first: Result<Built>, second: Result<seq<Built>>)
    requires !b.inGuest && target.Label() != target'.Label()
    modifies b
    ensures first.Ok? && second.Ok? ==> |second.value| == 1 && !second.value[0].skipped
  {
    first := b.Build(m, target);
    if first.Err? {
      return first, Err(first.error);
    }
    second := b.EnsureMany([m], target');
  }

  /** A product that came with the module, its state never written, is taken as it is. */
  method EnsureShipped(b: Builder, m: Module, target: Target) returns (r: Result<seq<Built>>)
    requires !b.inGuest && b.OsOf(target).Some? && m.id !in b.states
    requires forall i | 0 <= i < |m.entries| :: Usable(m.root, m.entries[i], b.OsOf(target).value) in b.usable
    modifies b
    ensures r.Ok? && |r.value| == 1 && r.value[0].skipped && b.ran == old(b.ran)
  {
    r := b.EnsureMany([m], target);
  }
}
