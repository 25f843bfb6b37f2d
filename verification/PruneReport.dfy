/** What a report says about each item of the scanned snapshot: exactly one entry, with the item's own size
    and last use, and decisions in terms of the items alone. */
module PruneReport {
  import opened CacheBudget
  import opened Options
  import opened PrunePlan
  import opened PruneProperties
  import opened Seqs

  // ----- Cache items -----

  predicate IsCacheArea(area: Area) {
    area != Locks && area != Workspaces
  }

  function CacheListing(s: Snapshot, area: Area): Listing<CacheItem>
    requires IsCacheArea(area)
  {
    match area
    case PodsV1 => s.podsV1
    case PodsV2 => s.podsV2
    case PodsEntries => s.podsEntries
    case PodsIndexes => s.podsIndexes
    case NativeEntries => s.native
  }

  /** An item that is scanned: not a link, in a cache directory that is there and no link. */
  ghost predicate IsItem(s: Snapshot, area: Area, i: CacheItem) {
    IsCacheArea(area) && i in Items(CacheListing(s, area)) && !i.link
  }

  function KindOf(area: Area): Kind {
    if area == NativeEntries then NativeCache else PodsCache
  }

  predicate At(e: Entry, p: Path) {
    e.path == p
  }

  function AtPath(p: Path): Entry -> bool {
    (e: Entry) => At(e, p)
  }

  predicate CacheAt(c: CacheEntry, p: Path) {
    c.path == p
  }

  lemma NamesDiffer(s: Snapshot, area: Area, i: CacheItem, j: CacheItem)
    requires WellFormed(s) && IsCacheArea(area)
    requires i in Items(CacheListing(s, area)) && j in Items(CacheListing(s, area)) && i.name == j.name
    ensures i == j
  {
    var items := Items(CacheListing(s, area));
    var a :| 0 <= a < |items| && items[a] == i;
    var b :| 0 <= b < |items| && items[b] == j;
    assert DistinctNames(items);
  }

  /** The collected record of an item. */
  lemma ItemIsCollected(s: Snapshot, area: Area, i: CacheItem) returns (c: CacheEntry)
    requires IsItem(s, area, i)
    ensures c in Collected(s) && c.path == Item(area, i.name) && c.kind == KindOf(area)
    ensures c.size == i.size && c.lastUsed == i.mtime
    ensures area != PodsIndexes ==> c.linked.None? && (c.legacy <==> area == PodsV1 || area == PodsV2)
    ensures area == PodsIndexes ==>
              c.linked == (if i.key.Some? && Item(PodsEntries, i.key.value) in Paths(CollectedEntries(s))
                           then Some(Item(PodsEntries, i.key.value)) else None)
              && c.legacy == c.linked.None?
  {
    var items := Items(CacheListing(s, area));
    FilterIn(items, Owned);
    if area == PodsIndexes {
      var targets := Paths(CollectedEntries(s));
      c := IndexOf(i, targets);
      MapIn(Filter(items, Owned), i => IndexOf(i, targets));
      assert c in CollectIndexes(s.podsIndexes, targets);
    } else {
      var legacy := area == PodsV1 || area == PodsV2;
      var kind := KindOf(area);
      c := EntryOf(i, area, kind, legacy);
      MapIn(Filter(items, Owned), i => EntryOf(i, area, kind, legacy));
      assert c in Collect(CacheListing(s, area), area, kind, legacy);
      assert c in CollectedEntries(s);
    }
  }

  lemma {:induction false} DistinctPathsCountOnce(es: seq<CacheEntry>, c: CacheEntry)
    requires c in es && forall i, j :: 0 <= i < j < |es| ==> es[i].path != es[j].path
    ensures Count(es, (e: CacheEntry) => CacheAt(e, c.path)) == 1
  {
    var p := (e: CacheEntry) => CacheAt(e, c.path);
    var rest := es[1..];
    assert es == [es[0]] + rest;
    FilterCons(es[0], rest, p);
    if es[0] == c {
      forall e | e in rest ensures !p(e) {
        var i :| 0 <= i < |rest| && rest[i] == e;
        assert es[i + 1] == e;
      }
      CountNone(rest, p);
    } else {
      var i :| 0 <= i < |es| && es[i] == c;
      assert rest[i - 1] == c;
      DistinctPathsCountOnce(rest, c);
    }
  }

  /** The cache part of a report has each collected path once. */
  lemma CachePartCountsOnce(s: Snapshot, now: int, alive: set<nat>, budget: int, collate: Path -> int, c: CacheEntry)
    requires WellFormed(s) && c in Collected(s)
    ensures Count(ToEntries(CacheIn(s, now, alive, budget, collate)), AtPath(c.path)) == 1
  {
    var es := Collected(s);
    var p := (e: CacheEntry) => CacheAt(e, c.path);
    CollectedIsWellLinked(s);
    DistinctPathsCountOnce(es, c);
    CountMap(CacheIn(s, now, alive, budget, collate), ToEntry, p, AtPath(c.path));
    if Active(s, now, alive) != {} {
      CountMap(es, Protected, p, p);
    } else {
      var gone := Evicted(es, collate, budget);
      CountMap(es, e => Decided(e, gone), p, p);
    }
  }

  lemma NoLinkAt(s: Snapshot, l: Listing<CacheItem>, area: Area, kind: Kind, now: int, at: Area, i: CacheItem, e: Entry)
    requires WellFormed(s) && IsItem(s, at, i) && IsCacheArea(area) && l == CacheListing(s, area)
    requires e in LinkEntries(l, area, kind, now)
    ensures !At(e, Item(at, i.name))
  {
    if e in LinkedItems(Items(l), area, kind, now) {
      FilterIn(Items(l), i => !Owned(i));
      var j := MapSource(Filter(Items(l), i => !Owned(i)), i => LinkEntry(i, area, kind, now), e);
      if area == at && j.name == i.name {
        NamesDiffer(s, area, i, j);
      }
    }
  }

  lemma NoLinksCount(s: Snapshot, area: Area, now: int, at: Area, i: CacheItem)
    requires WellFormed(s) && IsItem(s, at, i) && IsCacheArea(area)
    ensures Count(LinkEntries(CacheListing(s, area), area, KindOf(area), now),
              AtPath(Item(at, i.name))) == 0
  {
    var links := LinkEntries(CacheListing(s, area), area, KindOf(area), now);
    forall e | e in links ensures !At(e, Item(at, i.name)) {
      NoLinkAt(s, CacheListing(s, area), area, KindOf(area), now, at, i, e);
    }
    CountNone(links, AtPath(Item(at, i.name)));
  }

  lemma LinkPartCountsNone(s: Snapshot, now: int, at: Area, i: CacheItem)
    requires WellFormed(s) && IsItem(s, at, i)
    ensures Count(LinkPart(s, now), AtPath(Item(at, i.name))) == 0
  {
    NoLinksCount(s, PodsV1, now, at, i);
    NoLinksCount(s, PodsV2, now, at, i);
    NoLinksCount(s, PodsEntries, now, at, i);
    NoLinksCount(s, NativeEntries, now, at, i);
    NoLinksCount(s, PodsIndexes, now, at, i);
    var v1, v2 := LinkEntries(s.podsV1, PodsV1, PodsCache, now), LinkEntries(s.podsV2, PodsV2, PodsCache, now);
    var pods := LinkEntries(s.podsEntries, PodsEntries, PodsCache, now);
    var native := LinkEntries(s.native, NativeEntries, NativeCache, now);
    var indexes := LinkEntries(s.podsIndexes, PodsIndexes, PodsCache, now);
    NoneOfFive(v1, v2, pods, native, indexes, AtPath(Item(at, i.name)));
  }

  lemma NoneOfFive(a: seq<Entry>, b: seq<Entry>, c: seq<Entry>, d: seq<Entry>, f: seq<Entry>, p: Entry -> bool)
    requires Count(a, p) == 0 && Count(b, p) == 0 && Count(c, p) == 0 && Count(d, p) == 0 && Count(f, p) == 0
    ensures Count(a + b + c + d + f, p) == 0
  {
    CountOfFive(a, b, c, d, f, p);
  }

  lemma NoWorkPartAt(s: Snapshot, now: int, alive: set<nat>, budget: int, collate: Path -> int, p: Path, e: Entry)
    requires p.Item? && IsCacheArea(p.area)
    requires e in LockPart(s, now, alive) || e in WorkspacePart(s, Active(s, now, alive), now)
    ensures !At(e, p)
  {
    if e in LockPart(s, now, alive) {
      var src := LockSource(s, now, alive, budget, collate, e);
    } else {
      var src := WorkspaceSource(s, now, alive, budget, collate, e);
    }
  }

  lemma CountOfFive(
    a: seq<Entry>, b: seq<Entry>, c: seq<Entry>, d: seq<Entry>, f: seq<Entry>, p: Entry -> bool)
    ensures Count(a + b + c + d + f, p) == Count(a, p) + Count(b, p) + Count(c, p) + Count(d, p) + Count(f, p)
  {
    CountConcat(a + b + c + d, f, p);
    CountConcat(a + b + c, d, p);
    CountConcat(a + b, c, p);
    CountConcat(a, b, p);
  }

  lemma ItemCountsOnce(
    s: Snapshot, now: int, alive: set<nat>, budget: int, collate: Path -> int, area: Area, i: CacheItem)
    requires WellFormed(s) && IsItem(s, area, i)
    ensures Count(Entries(s, now, alive, budget, collate), AtPath(Item(area, i.name))) == 1
  {
    var p := Item(area, i.name);
    var at := AtPath(p);
    var locks, workspaces := LockPart(s, now, alive), WorkspacePart(s, Active(s, now, alive), now);
    var links, runs := LinkPart(s, now), ExpiredRuns(Items(s.runs), [], now);
    var c := ItemIsCollected(s, area, i);
    CachePartCountsOnce(s, now, alive, budget, collate, c);
    forall e | e in locks || e in workspaces ensures !at(e) {
      NoWorkPartAt(s, now, alive, budget, collate, p, e);
    }
    forall e | e in runs ensures !at(e) {
      ExpiredRunsAreDeleted(Items(s.runs), [], now, e);
    }
    CountNone(locks, at);
    CountNone(workspaces, at);
    LinkPartCountsNone(s, now, area, i);
    CountNone(runs, at);
    CountOfFive(locks, workspaces, links, ToEntries(CacheIn(s, now, alive, budget, collate)), runs, at);
  }

  /** The decision about the collected record of an item is that of its entry. */
  lemma ItemEntry(
    s: Snapshot, now: int, alive: set<nat>, budget: int, collate: Path -> int, area: Area, i: CacheItem, c: CacheEntry)
    returns (e: Entry)
    requires WellFormed(s) && !s.rootLinked && IsItem(s, area, i)
    requires c in Collected(s) && c.path == Item(area, i.name)
    ensures e in Plan(s, now, alive, budget, collate).entries
    ensures e == Entry(c.path, c.kind, e.decision, c.size, c.lastUsed)
    ensures e.decision == if Active(s, now, alive) != {} then Protect
                          else Decided(c, Evicted(Collected(s), collate, budget)).decision
  {
    var es := Collected(s);
    var d;
    if Active(s, now, alive) != {} {
      d := Protected(c);
      MapIn(es, Protected);
    } else {
      var gone := Evicted(es, collate, budget);
      d := Decided(c, gone);
      MapIn(es, e => Decided(e, gone));
    }
    e := ToEntry(d);
    SourceIsListed(s, now, alive, budget, collate, OfCache(d), e);
  }

  /** What the plan does with the item: `e` is its entry, the only one at its path. */
  ghost predicate Reported(r: Report, area: Area, i: CacheItem, e: Entry) {
    && e in r.entries && Count(r.entries, AtPath(Item(area, i.name))) == 1
    && e == Entry(Item(area, i.name), KindOf(area), e.decision, i.size, i.mtime)
  }

  lemma OnlyOneAt(es: seq<Entry>, p: Path, e: Entry, d: Entry)
    requires Count(es, AtPath(p)) == 1 && e in es && d in es && e.path == p && d.path == p
    ensures d == e
  {
    var at := AtPath(p);
    FilterIn(es, at);
    assert e in Filter(es, at) && d in Filter(es, at);
  }

  /** Every scanned cache item has exactly one entry in the report, with its own size and last use. */
  lemma ItemIsReported(
    s: Snapshot, now: int, alive: set<nat>, budget: int, collate: Path -> int, area: Area, i: CacheItem)
    returns (e: Entry)
    requires WellFormed(s) && !s.rootLinked && IsItem(s, area, i)
    ensures Reported(Plan(s, now, alive, budget, collate), area, i, e)
    ensures forall d :: d in Plan(s, now, alive, budget, collate).entries && d.path == Item(area, i.name) ==> d == e
  {
    var c := ItemIsCollected(s, area, i);
    e := ItemEntry(s, now, alive, budget, collate, area, i, c);
    ItemCountsOnce(s, now, alive, budget, collate, area, i);
    forall d | d in Plan(s, now, alive, budget, collate).entries && d.path == Item(area, i.name) ensures d == e {
      OnlyOneAt(Plan(s, now, alive, budget, collate).entries, Item(area, i.name), e, d);
    }
  }

  ghost predicate IsInLinkPart(s: Snapshot, now: int, area: Area, e: Entry) {
    IsCacheArea(area) && e in LinkEntries(CacheListing(s, area), area, KindOf(area), now)
  }

  lemma LinkPartIsListed(
    s: Snapshot, now: int, alive: set<nat>, budget: int, collate: Path -> int, area: Area, e: Entry)
    requires !s.rootLinked && IsInLinkPart(s, now, area, e)
    ensures e in Plan(s, now, alive, budget, collate).entries
  {
    InOneOfFive(e, LinkEntries(s.podsV1, PodsV1, PodsCache, now), LinkEntries(s.podsV2, PodsV2, PodsCache, now),
      LinkEntries(s.podsEntries, PodsEntries, PodsCache, now), LinkEntries(s.native, NativeEntries, NativeCache, now),
      LinkEntries(s.podsIndexes, PodsIndexes, PodsCache, now));
    assert e in LinkPart(s, now);
    InOneOfFive(e, LockPart(s, now, alive), WorkspacePart(s, Active(s, now, alive), now), LinkPart(s, now),
      ToEntries(CacheIn(s, now, alive, budget, collate)), ExpiredRuns(Items(s.runs), [], now));
  }

  /** A link inside a cache directory, and a cache directory that is one, is reported as protected. */
  lemma LinksAreReported(
    s: Snapshot, now: int, alive: set<nat>, budget: int, collate: Path -> int, area: Area, i: CacheItem)
    requires !s.rootLinked && IsCacheArea(area)
    ensures i in Items(CacheListing(s, area)) && i.link ==>
              Entry(Item(area, i.name), KindOf(area), Protect, 0, now) in Plan(s, now, alive, budget, collate).entries
    ensures CacheListing(s, area).Linked? ==>
              Entry(AreaRoot(area), KindOf(area), Protect, 0, now) in Plan(s, now, alive, budget, collate).entries
  {
    var l := CacheListing(s, area);
    if i in Items(l) && i.link {
      FilterIn(Items(l), i => !Owned(i));
      MapIn(Filter(Items(l), i => !Owned(i)), i => LinkEntry(i, area, KindOf(area), now));
      assert LinkEntry(i, area, KindOf(area), now) in LinkedItems(Items(l), area, KindOf(area), now);
      LinkPartIsListed(s, now, alive, budget, collate, area, LinkEntry(i, area, KindOf(area), now));
    }
    if l.Linked? {
      var e := Entry(AreaRoot(area), KindOf(area), Protect, 0, now);
      assert e in RootEntries(l, area, KindOf(area), now);
      LinkPartIsListed(s, now, alive, budget, collate, area, e);
    }
  }

  /** An item of the obsolete layouts goes whenever no build is active. */
  lemma ObsoleteItemsGo(
    s: Snapshot, now: int, alive: set<nat>, budget: int, collate: Path -> int, area: Area, i: CacheItem, e: Entry)
    requires WellFormed(s) && !s.rootLinked && IsItem(s, area, i) && (area == PodsV1 || area == PodsV2)
    requires e in Plan(s, now, alive, budget, collate).entries && e.path == Item(area, i.name)
    ensures e.decision == if Active(s, now, alive) == {} then Delete else Protect
  {
    var c := ItemIsCollected(s, area, i);
    var d := ItemEntry(s, now, alive, budget, collate, area, i, c);
    ItemCountsOnce(s, now, alive, budget, collate, area, i);
    OnlyOneAt(Plan(s, now, alive, budget, collate).entries, Item(area, i.name), e, d);
  }

  // ----- Least recently used first -----

  predicate IsCurrentArea(area: Area) {
    area == PodsEntries || area == NativeEntries
  }

  /** Item `i` was used before item `j`, or at the same time and comes first in path order. */
  predicate UsedBefore(collate: Path -> int, a: Area, i: CacheItem, b: Area, j: CacheItem) {
    i.mtime < j.mtime || (i.mtime == j.mtime && collate(Item(a, i.name)) < collate(Item(b, j.name)))
  }

  lemma EvictedInOrder(es: seq<CacheEntry>, collate: Path -> int, budget: int, c: CacheEntry, d: CacheEntry)
    requires WellLinked(es) && c in es && d in es && Evictable(c) && Evictable(d)
    requires d.path in Evicted(es, collate, budget) && !LeastRecent(collate)(d, c)
    ensures c.path in Evicted(es, collate, budget)
  {
    var order := Order(es, collate);
    var k := EvictionIsLeastPrefix(es, collate, budget);
    OrderHasEvictables(es, collate);
    PathIdentifies(es);
    var x :| x in order[..k] && x.path == d.path;
    assert x in order;
    var b :| 0 <= b < k && order[b] == d;
    var a :| 0 <= a < |order| && order[a] == c;
    assert Sorted(order, LeastRecent(collate));
    assert a <= b;
    assert order[a] in order[..k];
  }

  /** With no active build, what is deleted of the current entries was used least recently: an item used
      before a deleted one is deleted too, whichever cache they are in. */
  lemma LeastRecentlyUsedGoFirst(
    s: Snapshot, now: int, alive: set<nat>, budget: int, collate: Path -> int,
    a: Area, i: CacheItem, b: Area, j: CacheItem, e: Entry, f: Entry)
    requires WellFormed(s) && !s.rootLinked && Active(s, now, alive) == {}
    requires IsCurrentArea(a) && IsItem(s, a, i) && IsCurrentArea(b) && IsItem(s, b, j)
    requires e in Plan(s, now, alive, budget, collate).entries && e.path == Item(a, i.name)
    requires f in Plan(s, now, alive, budget, collate).entries && f.path == Item(b, j.name)
    requires UsedBefore(collate, a, i, b, j) && f.decision == Delete
    ensures e.decision == Delete
  {
    var c := ItemIsCollected(s, a, i);
    var d := ItemIsCollected(s, b, j);
    var e' := ItemEntry(s, now, alive, budget, collate, a, i, c);
    var f' := ItemEntry(s, now, alive, budget, collate, b, j, d);
    ItemCountsOnce(s, now, alive, budget, collate, a, i);
    ItemCountsOnce(s, now, alive, budget, collate, b, j);
    OnlyOneAt(Plan(s, now, alive, budget, collate).entries, Item(a, i.name), e, e');
    OnlyOneAt(Plan(s, now, alive, budget, collate).entries, Item(b, j.name), f, f');
    CollectedIsWellLinked(s);
    EvictedInOrder(Collected(s), collate, budget, c, d);
  }

  /** A current entry goes, with no active build, only while the cache exceeds the budget. */
  lemma NothingGoesWithinBudget(
    s: Snapshot, now: int, alive: set<nat>, budget: int, collate: Path -> int, a: Area, i: CacheItem, e: Entry)
    requires WellFormed(s) && !s.rootLinked && IsCurrentArea(a) && IsItem(s, a, i)
    requires e in Plan(s, now, alive, budget, collate).entries && e.path == Item(a, i.name)
    requires Plan(s, now, alive, budget, collate).before <= budget
    ensures e.decision != Delete
  {
    var c := ItemIsCollected(s, a, i);
    var d := ItemEntry(s, now, alive, budget, collate, a, i, c);
    ItemCountsOnce(s, now, alive, budget, collate, a, i);
    OnlyOneAt(Plan(s, now, alive, budget, collate).entries, Item(a, i.name), e, d);
    CollectedIsWellLinked(s);
    BeforeEviction(Collected(s));
  }

  // ----- Indexes -----

  ghost predicate IsKeptEntry(s: Snapshot, r: Report, j: CacheItem) {
    && IsItem(s, PodsEntries, j)
    && exists f :: f in r.entries && f.path == Item(PodsEntries, j.name) && f.decision == Keep
  }

  /** With no active build, an index is kept if and only if it names a scanned entry that is kept. */
  lemma IndexFollowsItsEntry(
    s: Snapshot, now: int, alive: set<nat>, budget: int, collate: Path -> int, i: CacheItem, e: Entry)
    requires WellFormed(s) && !s.rootLinked && Active(s, now, alive) == {} && IsItem(s, PodsIndexes, i)
    requires e in Plan(s, now, alive, budget, collate).entries && e.path == Item(PodsIndexes, i.name)
    ensures e.decision == Keep <==>
              exists j: CacheItem :: i.key == Some(j.name) && IsKeptEntry(s, Plan(s, now, alive, budget, collate), j)
    ensures e.decision == Keep || e.decision == Delete
  {
    var c := ItemIsCollected(s, PodsIndexes, i);
    var d := ItemEntry(s, now, alive, budget, collate, PodsIndexes, i, c);
    var gone := Evicted(Collected(s), collate, budget);
    ItemCountsOnce(s, now, alive, budget, collate, PodsIndexes, i);
    OnlyOneAt(Plan(s, now, alive, budget, collate).entries, Item(PodsIndexes, i.name), e, d);
    OnlyEntriesAreEvicted(s, budget, collate, i.name);
    if e.decision == Keep {
      var j := EntryIsItem(s, i.key.value);
      var t := ItemIsCollected(s, PodsEntries, j);
      var f := ItemEntry(s, now, alive, budget, collate, PodsEntries, j, t);
      assert f.decision == Keep && IsKeptEntry(s, Plan(s, now, alive, budget, collate), j);
    }
    if j: CacheItem :| i.key == Some(j.name) && IsKeptEntry(s, Plan(s, now, alive, budget, collate), j) {
      var f :| f in Plan(s, now, alive, budget, collate).entries && f.path == Item(PodsEntries, j.name)
        && f.decision == Keep;
      var t := ItemIsCollected(s, PodsEntries, j);
      var g := ItemEntry(s, now, alive, budget, collate, PodsEntries, j, t);
      ItemCountsOnce(s, now, alive, budget, collate, PodsEntries, j);
      OnlyOneAt(Plan(s, now, alive, budget, collate).entries, Item(PodsEntries, j.name), f, g);
      EntryIsTarget(s, j);
    }
  }

  lemma OnlyEntriesAreEvicted(s: Snapshot, budget: int, collate: Path -> int, name: string)
    requires WellFormed(s)
    ensures Item(PodsIndexes, name) !in Evicted(Collected(s), collate, budget)
  {
    var es := Collected(s);
    var k := EvictionIsLeastPrefix(es, collate, budget);
    OrderHasEvictables(es, collate);
    if Item(PodsIndexes, name) in Evicted(es, collate, budget) {
      var x :| x in Order(es, collate)[..k] && x.path == Item(PodsIndexes, name);
      assert x in es && Evictable(x);
      CollectedEntriesAreItems(s, x);
    }
  }

  lemma CollectedEntriesAreItems(s: Snapshot, x: CacheEntry)
    requires WellFormed(s) && x in Collected(s) && Evictable(x)
    ensures x.path.Item? && x.path.area != PodsIndexes
  {
    CollectedIndexes(s.podsIndexes, Paths(CollectedEntries(s)));
    CollectedInArea(s.podsV1, PodsV1, PodsCache, true);
    CollectedInArea(s.podsV2, PodsV2, PodsCache, true);
    CollectedInArea(s.podsEntries, PodsEntries, PodsCache, false);
    CollectedInArea(s.native, NativeEntries, NativeCache, false);
  }

  lemma EntryIsItem(s: Snapshot, name: string) returns (j: CacheItem)
    requires WellFormed(s) && Item(PodsEntries, name) in Paths(CollectedEntries(s))
    ensures IsItem(s, PodsEntries, j) && j.name == name
  {
    var t :| t in CollectedEntries(s) && t.path == Item(PodsEntries, name);
    CollectedInArea(s.podsV1, PodsV1, PodsCache, true);
    CollectedInArea(s.podsV2, PodsV2, PodsCache, true);
    CollectedInArea(s.native, NativeEntries, NativeCache, false);
    assert t in Collect(s.podsEntries, PodsEntries, PodsCache, false);
    FilterIn(Items(s.podsEntries), Owned);
    j := MapSource(Filter(Items(s.podsEntries), Owned), i => EntryOf(i, PodsEntries, PodsCache, false), t);
  }

  lemma EntryIsTarget(s: Snapshot, j: CacheItem)
    requires IsItem(s, PodsEntries, j)
    ensures Item(PodsEntries, j.name) in Paths(CollectedEntries(s))
  {
    FilterIn(Items(s.podsEntries), Owned);
    MapIn(Filter(Items(s.podsEntries), Owned), i => EntryOf(i, PodsEntries, PodsCache, false));
    assert EntryOf(j, PodsEntries, PodsCache, false) in Collect(s.podsEntries, PodsEntries, PodsCache, false);
  }

  // ----- Locks and workspaces -----

  /** A lock whose record names a live process. */
  predicate HeldByLive(l: LockItem, alive: set<nat>) {
    !l.link && l.owner.Some? && l.owner.value.pid in alive
  }

  /** A lock without a record, touched less than 60 seconds ago. */
  predicate JustMade(l: LockItem, now: int) {
    !l.link && l.owner.None? && now - l.mtime < 60_000
  }

  /** The report decides about every lock: links and locks in use are protected, all others deleted, at
      their own size and last use. */
  lemma LockIsReported(s: Snapshot, now: int, alive: set<nat>, budget: int, collate: Path -> int, l: LockItem)
    returns (e: Entry)
    requires WellFormed(s) && !s.rootLinked && l in Items(s.locks)
    ensures e in Plan(s, now, alive, budget, collate).entries && e.path == Item(Locks, l.name) && e.kind == Lock
    ensures e.decision == if l.link || HeldByLive(l, alive) || JustMade(l, now) then Protect else Delete
    ensures if l.link then e.size == 0 && e.lastUsed == now
            else if HeldByLive(l, alive) then e.size == 0 && e.lastUsed == l.owner.value.startedAt
            else e.size == l.size && e.lastUsed == l.mtime
  {
    e := LockEntry(l, now, alive);
    SourceIsListed(s, now, alive, budget, collate, OfLock(l), e);
  }

  /** While there is a lock in use: the workspace that its record names, or the one of its own name while it
      has none, is protected, and so is every scanned cache item. */
  lemma LockInUseProtects(
    s: Snapshot, now: int, alive: set<nat>, budget: int, collate: Path -> int, l: LockItem, e: Entry)
    requires WellFormed(s) && !s.rootLinked && l in Items(s.locks) && (HeldByLive(l, alive) || JustMade(l, now))
    requires e in Plan(s, now, alive, budget, collate).entries
    ensures HeldByLive(l, alive) && e.path == Item(Workspaces, l.owner.value.workspace) ==> e.decision == Protect
    ensures JustMade(l, now) && e.path == Item(Workspaces, l.name) ==> e.decision == Protect
    ensures IsCacheKind(e.kind) ==> e.decision == Protect
  {
    var name := if l.owner.Some? then l.owner.value.workspace else l.name;
    assert Guards(l, now, alive) && name in Active(s, now, alive);
    if e.path == Item(Workspaces, name) {
      var src := WorkspaceEntrySource(s, now, alive, budget, collate, name, e);
    }
    if IsCacheKind(e.kind) {
      CacheEntriesAreProtected(s, now, alive, budget, collate, e);
    }
  }

  lemma CacheEntriesAreProtected(
    s: Snapshot, now: int, alive: set<nat>, budget: int, collate: Path -> int, e: Entry)
    requires Active(s, now, alive) != {} && e in Entries(s, now, alive, budget, collate) && IsCacheKind(e.kind)
    ensures e.decision == Protect
  {
    var src := EntrySource(s, now, alive, budget, collate, e);
    match src
    case OfCache(c) =>
      var u := CacheSource(s, now, alive, budget, collate, c);
    case OfRun =>
      ExpiredRunsAreDeleted(Items(s.runs), [], now, e);
    case _ =>
  }

  /** Every workspace has an entry; one that is not a link has its own size and last use. */
  lemma WorkspaceIsReported(
    s: Snapshot, now: int, alive: set<nat>, budget: int, collate: Path -> int, w: WorkspaceItem) returns (e: Entry)
    requires WellFormed(s) && !s.rootLinked && w in Items(s.workspaces)
    ensures e in Plan(s, now, alive, budget, collate).entries && e.path == Item(Workspaces, w.name)
    ensures e.kind == Workspace
    ensures if w.link then e.size == 0 && e.lastUsed == now else e.size == w.size && e.lastUsed == w.mtime
  {
    if Unlocked(w, Active(s, now, alive)) {
      e := UnlockedWorkspace(w, UnlockedIn(s, now, alive), now);
      SourceIsListed(s, now, alive, budget, collate, OfUnlocked(w), e);
    } else {
      e := ProtectedWorkspace(w, now);
      SourceIsListed(s, now, alive, budget, collate, OfLocked(w), e);
    }
  }
}
