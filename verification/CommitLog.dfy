/** The commit history as it is shown page by page, newest first. */
module CommitLog {
  import opened Outcomes
  import opened WorkTree
  import opened Repository

  const MAX_LIMIT: nat := 200

  datatype Entry = Entry(id: nat, parent: Option<nat>, author: string, note: Note, changes: nat, onHead: bool)

  datatype Summary = Summary(id: nat, author: string, time: int, message: string)

  datatype Page = Page(head: Option<Summary>, entries: seq<Entry>, total: nat, truncated: bool)

  function SummaryOf(c: Commit): Summary {
    Summary(c.id, c.author, c.note.time, c.note.message)
  }

  /** The summary of head, None in an empty repository. */
  function HeadSummary(s: Repo): Option<Summary> {
    if s.head.Some? && s.head.value in s.commits then Some(SummaryOf(s.commits[s.head.value])) else None
  }

  function Clamp(limit: nat): (n: nat)
    ensures 1 <= n <= MAX_LIMIT && (1 <= limit <= MAX_LIMIT ==> n == limit)
  {
    if limit < 1 then 1 else if limit > MAX_LIMIT then MAX_LIMIT else limit
  }

  ghost function EntryOf(s: Repo, id: nat): Entry
    requires id in s.commits
  {
    var c := s.commits[id];
    Entry(id, c.parent, c.author, c.note, |c.changes|, id in Ancestors(s.commits, s.head))
  }

  predicate Asked(before: Option<nat>, id: nat) {
    before.Some? ==> id < before.value
  }

  /** Is commit `id` on the page? */
  ghost predicate Listed(entries: seq<Entry>, id: nat) {
    exists i :: 0 <= i < |entries| && entries[i].id == id
  }

  /** The entries are the newest commits asked for, newest first, each shown as it is stored. */
  ghost predicate Newest(s: Repo, before: Option<nat>, entries: seq<Entry>) {
    && (forall i | 0 <= i < |entries| ::
          entries[i].id in s.commits && Asked(before, entries[i].id) && entries[i] == EntryOf(s, entries[i].id))
    && (forall i, j | 0 <= i < j < |entries| :: entries[i].id > entries[j].id)
    && (forall id | id in s.commits && Asked(before, id) && !Listed(entries, id) ::
          forall i | 0 <= i < |entries| :: id < entries[i].id)
  }

  /** A page is cut short exactly when commits asked for are left out, and then it is full. */
  ghost predicate IsPage(s: Repo, limit: nat, before: Option<nat>, entries: seq<Entry>, truncated: bool) {
    && Newest(s, before, entries) && |entries| <= limit
    && (truncated <==> exists id :: id in s.commits && Asked(before, id) && !Listed(entries, id))
    && (truncated ==> |entries| == limit)
  }

  lemma ListedInBoth(one: seq<Entry>, two: seq<Entry>, id: nat)
    ensures Listed(one + two, id) <==> Listed(one, id) || Listed(two, id)
  {
    var both := one + two;
    if Listed(one, id) {
      var i :| 0 <= i < |one| && one[i].id == id;
      assert both[i].id == id;
    }
    if Listed(two, id) {
      var i :| 0 <= i < |two| && two[i].id == id;
      assert both[|one| + i].id == id;
    }
  }

  lemma ListedAbove(s: Repo, before: Option<nat>, entries: seq<Entry>, id: nat)
    requires entries != [] && Newest(s, before, entries)
    ensures Listed(entries, id) ==> entries[|entries| - 1].id <= id && Asked(before, id)
    ensures id in s.commits && Asked(before, id) && !Listed(entries, id) ==> id < entries[|entries| - 1].id
  {
    hide EntryOf;
  }

  /** What is not on either page is what the second one leaves out. */
  lemma LeftOut(s: Repo, before: Option<nat>, one: seq<Entry>, two: seq<Entry>, id: nat)
    requires one != [] && Newest(s, before, one)
    ensures id in s.commits && Asked(before, id) && !Listed(one + two, id) <==>
      id in s.commits && Asked(Some(one[|one| - 1].id), id) && !Listed(two, id)
  {
    hide Newest, Listed;
    ListedAbove(s, before, one, id);
    ListedInBoth(one, two, id);
    LastAsked(s, before, one);
  }

  lemma LastAsked(s: Repo, before: Option<nat>, entries: seq<Entry>)
    requires entries != [] && Newest(s, before, entries)
    ensures Asked(before, entries[|entries| - 1].id)
  {
  }

  /** A page and a page that goes on from its last entry list the newest commits together. */
  lemma Older(s: Repo, before: Option<nat>, one: seq<Entry>, two: seq<Entry>)
    requires one != [] && Newest(s, before, one) && Newest(s, Some(one[|one| - 1].id), two)
    ensures Newest(s, before, one + two)
  {
    hide EntryOf, Listed;
    var both := one + two;
    assert forall i | 0 <= i < |one| :: both[i] == one[i];
    assert forall i | 0 <= i < |two| :: both[|one| + i] == two[i];
    forall id | id in s.commits && Asked(before, id) && !Listed(both, id)
      ensures forall i | 0 <= i < |both| :: id < both[i].id
    {
      LeftOut(s, before, one, two, id);
      ListedInBoth(one, two, id);
    }
  }

  /** Asking on from the last entry of a page loses nothing and shows nothing twice: the two
      pages together are one page. */
  lemma PagesMeet(s: Repo, before: Option<nat>, n: nat, one: seq<Entry>, m: nat, two: seq<Entry>, more: bool)
    requires one != [] && IsPage(s, n, before, one, true)
    requires IsPage(s, m, Some(one[|one| - 1].id), two, more)
    ensures IsPage(s, n + m, before, one + two, more)
  {
    hide Newest, Listed, Asked;
    Older(s, before, one, two);
    forall id
      ensures id in s.commits && Asked(before, id) && !Listed(one + two, id) <==>
        id in s.commits && Asked(Some(one[|one| - 1].id), id) && !Listed(two, id)
    {
      LeftOut(s, before, one, two, id);
    }
  }

  /** There is only one page for a request. */
  lemma PageIsUnique(s: Repo, limit: nat, before: Option<nat>, one: seq<Entry>, cutOne: bool, two: seq<Entry>,
                     cutTwo: bool)
    requires IsPage(s, limit, before, one, cutOne) && IsPage(s, limit, before, two, cutTwo)
    ensures one == two && cutOne == cutTwo
  {
    SameEntries(s, before, one, two, if |one| <= |two| then |one| else |two|);
    if |one| < |two| {
      NotYetListed(s, before, one, two);
    } else if |two| < |one| {
      NotYetListed(s, before, two, one);
    }
  }

  /** What is left out of the first page is older than its first entry. */
  lemma OlderThanFirst(s: Repo, limit: nat, entries: seq<Entry>, truncated: bool, id: nat)
    requires limit > 0 && IsPage(s, limit, None, entries, truncated) && id in s.commits
    ensures !Listed(entries, id) ==> |entries| > 0 && id < entries[0].id
    ensures |entries| > 0 ==> entries[0].id in s.commits && entries[0] == EntryOf(s, entries[0].id)
    ensures Listed(entries, id) ==> |entries| > 0 && id <= entries[0].id
  {
    hide EntryOf;
    assert Asked(None, id);
  }

  lemma NotYetListed(s: Repo, before: Option<nat>, one: seq<Entry>, two: seq<Entry>)
    requires Newest(s, before, two) && |one| < |two| && one == two[..|one|]
    ensures var id := two[|one|].id; id in s.commits && Asked(before, id) && !Listed(one, id)
  {
  }

  lemma {:induction false} SameEntries(s: Repo, before: Option<nat>, one: seq<Entry>, two: seq<Entry>, n: nat)
    requires Newest(s, before, one) && Newest(s, before, two) && n <= |one| && n <= |two|
    ensures one[..n] == two[..n]
  {
    hide Newest;
    if n > 0 {
      SameEntries(s, before, one, two, n - 1);
      NotBelow(s, before, one, two, n - 1);
      NotBelow(s, before, two, one, n - 1);
      SameEntry(s, before, one, two, n - 1);
      assert one[..n] == one[..n - 1] + [one[n - 1]] && two[..n] == two[..n - 1] + [two[n - 1]];
    }
  }

  lemma SameEntry(s: Repo, before: Option<nat>, one: seq<Entry>, two: seq<Entry>, k: nat)
    requires Newest(s, before, one) && Newest(s, before, two) && k < |one| && k < |two| && one[k].id == two[k].id
    ensures one[k] == two[k]
  {
    hide EntryOf, Listed;
  }

  lemma NotBelow(s: Repo, before: Option<nat>, one: seq<Entry>, two: seq<Entry>, k: nat)
    requires Newest(s, before, one) && Newest(s, before, two) && k < |one| && k < |two| && one[..k] == two[..k]
    ensures two[k].id <= one[k].id
  {
    hide EntryOf;
    var id := two[k].id;
    forall i | 0 <= i < k
      ensures one[i].id > id
    {
      assert one[..k][i] == two[..k][i];
    }
    if Listed(one, id) {
      var i :| 0 <= i < |one| && one[i].id == id;
      assert k <= i;
    } else {
      hide Listed;
      assert id in s.commits && Asked(before, id);
    }
  }

  // ---------- reading a page off the list of all commits ----------

  ghost predicate Ascending(ids: seq<nat>) {
    forall i, j | 0 <= i < j < |ids| :: ids[i] < ids[j]
  }

  ghost predicate IsAll(s: Repo, all: seq<nat>) {
    Ascending(all) && forall id :: id in all <==> id in s.commits
  }

  /** The commits from number `k` of the list on have been read: those asked for are the entries. */
  ghost predicate ReadTo(s: Repo, limit: nat, before: Option<nat>, all: seq<nat>, k: nat, entries: seq<Entry>) {
    && IsAll(s, all) && k <= |all| && |entries| <= limit
    && (forall i | 0 <= i < |entries| ::
          entries[i].id in s.commits && Asked(before, entries[i].id) && entries[i] == EntryOf(s, entries[i].id))
    && (forall i, j | 0 <= i < j < |entries| :: entries[i].id > entries[j].id)
    && (forall i, j | 0 <= i < |entries| && 0 <= j < k :: all[j] < entries[i].id)
    && (forall j | k <= j < |all| && Asked(before, all[j]) :: Listed(entries, all[j]))
  }

  lemma ReadNothing(s: Repo, limit: nat, before: Option<nat>, all: seq<nat>)
    requires IsAll(s, all)
    ensures ReadTo(s, limit, before, all, |all|, [])
  {
  }

  lemma ReadPast(s: Repo, limit: nat, before: Option<nat>, all: seq<nat>, k: nat, entries: seq<Entry>)
    requires ReadTo(s, limit, before, all, k, entries) && k > 0 && !Asked(before, all[k - 1])
    ensures ReadTo(s, limit, before, all, k - 1, entries)
  {
    hide Listed, EntryOf;
  }

  lemma ReadOne(s: Repo, limit: nat, before: Option<nat>, all: seq<nat>, k: nat, entries: seq<Entry>)
    requires ReadTo(s, limit, before, all, k, entries) && k > 0 && Asked(before, all[k - 1]) && |entries| < limit
    ensures all[k - 1] in s.commits
    ensures ReadTo(s, limit, before, all, k - 1, entries + [EntryOf(s, all[k - 1])])
  {
    hide Listed;
    assert all[k - 1] in all;
    var one := [EntryOf(s, all[k - 1])];
    ListsOne(one[0]);
    forall j | k - 1 <= j < |all| && Asked(before, all[j])
      ensures Listed(entries + one, all[j])
    {
      ListedInBoth(entries, one, all[j]);
    }
    hide EntryOf;
  }

  lemma ListsOne(e: Entry)
    ensures Listed([e], e.id)
  {
    assert [e][0].id == e.id;
  }

  lemma EntryIs(s: Repo, id: nat)
    ensures id in s.commits ==>
      var c := s.commits[id];
      EntryOf(s, id) == Entry(id, c.parent, c.author, c.note, |c.changes|, id in Ancestors(s.commits, s.head))
  {
  }

  /** What has not been read is older than every entry. */
  lemma Unread(s: Repo, limit: nat, before: Option<nat>, all: seq<nat>, k: nat, entries: seq<Entry>, id: nat)
    requires ReadTo(s, limit, before, all, k, entries) && id in s.commits && Asked(before, id) && !Listed(entries, id)
    ensures k > 0 && forall i | 0 <= i < |entries| :: id < entries[i].id
  {
    hide Listed, EntryOf;
    assert id in all;
    var j :| 0 <= j < |all| && all[j] == id;
  }

  lemma ReadIsNewest(s: Repo, limit: nat, before: Option<nat>, all: seq<nat>, k: nat, entries: seq<Entry>)
    requires ReadTo(s, limit, before, all, k, entries)
    ensures Newest(s, before, entries)
  {
    hide Listed, EntryOf;
    forall id | id in s.commits && Asked(before, id) && !Listed(entries, id)
      ensures forall i | 0 <= i < |entries| :: id < entries[i].id
    {
      Unread(s, limit, before, all, k, entries, id);
    }
  }

  lemma ReadEnough(s: Repo, limit: nat, before: Option<nat>, all: seq<nat>, k: nat, entries: seq<Entry>)
    requires ReadTo(s, limit, before, all, k, entries) && k > 0 && Asked(before, all[k - 1]) && |entries| >= limit
    ensures IsPage(s, limit, before, entries, true)
  {
    hide EntryOf, Newest;
    ReadIsNewest(s, limit, before, all, k, entries);
    assert all[k - 1] in all;
    assert !Listed(entries, all[k - 1]);
  }

  lemma AllRead(s: Repo, limit: nat, before: Option<nat>, all: seq<nat>, entries: seq<Entry>, id: nat)
    requires ReadTo(s, limit, before, all, 0, entries) && id in s.commits && Asked(before, id)
    ensures Listed(entries, id)
  {
    hide Listed, EntryOf;
    assert id in all;
    var j :| 0 <= j < |all| && all[j] == id;
  }

  lemma ReadAll(s: Repo, limit: nat, before: Option<nat>, all: seq<nat>, entries: seq<Entry>)
    requires ReadTo(s, limit, before, all, 0, entries)
    ensures IsPage(s, limit, before, entries, false)
  {
    hide EntryOf, Newest, Listed;
    ReadIsNewest(s, limit, before, all, 0, entries);
    forall id | id in s.commits && Asked(before, id)
      ensures Listed(entries, id)
    {
      AllRead(s, limit, before, all, entries, id);
    }
  }
}
