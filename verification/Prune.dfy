/** The pruning loop: it scans the artifact directories, pushing report entries, and evicts cache
    entries in place while a running total exceeds the budget. */
module Prune {
  import opened CacheBudget
  import opened Options
  import opened PrunePlan
  import LockPath
  import opened Seqs

  class Pruner {
    var entries: seq<Entry>
    var active: set<string>
    var cache: seq<CacheEntry>
    var cacheBytesAfter: int

    constructor ()
      ensures entries == [] && active == {} && cache == [] && cacheBytesAfter == 0
    {
      entries, active, cache, cacheBytesAfter := [], {}, [], 0;
    }

    method ScanLocks(l: Listing<LockItem>, now: int, alive: set<nat>)
      modifies this
      ensures cache == old(cache) && cacheBytesAfter == old(cacheBytesAfter)
      ensures active == old(active) + ActiveNames(Items(l), now, alive)
      ensures entries == old(entries) + RootEntries(l, Locks, Lock, now)
                         + LockEntries(Items(l), now, alive)
    {
      if l.Linked? {
        entries := entries + [Entry(AreaRoot(Locks), Lock, Protect, 0, now)];
      }
      ghost var start := entries;
      var items := Items(l);
      for n := 0 to |items|
        invariant cache == old(cache) && cacheBytesAfter == old(cacheBytesAfter)
        invariant active == old(active) + ActiveNames(items[..n], now, alive)
        invariant entries == start + LockEntries(items[..n], now, alive)
      {
        var lock := items[n];
        var path := Item(Locks, lock.name);
        if lock.link {
          entries := entries + [Entry(path, Lock, Protect, 0, now)];
        } else if lock.owner.Some? && lock.owner.value.pid in alive {
          active := active + {lock.owner.value.workspace};
          entries := entries + [Entry(path, Lock, Protect, 0, lock.owner.value.startedAt)];
        } else if lock.owner.None? && now - lock.mtime < LockPath.GRACE {
          active := active + {lock.name};
          entries := entries + [Entry(path, Lock, Protect, lock.size, lock.mtime)];
        } else {
          entries := entries + [Entry(path, Lock, Delete, lock.size, lock.mtime)];
        }
        assert items[..n + 1] == items[..n] + [lock];
        LockPush(items[..n], lock, now, alive);
      }
      assert items[..|items|] == items;
    }

    method ScanWorkspaces(l: Listing<WorkspaceItem>, now: int)
      modifies this`entries
      ensures entries == old(entries) + RootEntries(l, Workspaces, Workspace, now)
        + LockedWorkspaces(Items(l), active, now)
        + UnlockedWorkspaces(UnlockedOf(Items(l), active), now)
    {
      if l.Linked? {
        entries := entries + [Entry(AreaRoot(Workspaces), Workspace, Protect, 0, now)];
      }
      ghost var start := entries;
      var items := Items(l);
      var unlocked: seq<WorkspaceItem> := [];
      for n := 0 to |items|
        invariant unlocked == UnlockedOf(items[..n], active)
        invariant entries == start + LockedWorkspaces(items[..n], active, now)
      {
        var w := items[n];
        assert items[..n + 1] == items[..n] + [w];
        WorkspacePush(items[..n], w, active, now);
        if w.link {
          entries := entries + [Entry(Item(Workspaces, w.name), Workspace, Protect, 0, now)];
        } else if w.name in active {
          entries := entries + [Entry(Item(Workspaces, w.name), Workspace, Protect, w.size, w.mtime)];
        } else {
          unlocked := unlocked + [w];
        }
      }
      assert items[..|items|] == items;
      var newestFirst := Sort(unlocked, NewerFirst);
      ghost var middle := entries;
      ghost var f := w => UnlockedWorkspace(w, unlocked, now);
      for n := 0 to |unlocked|
        invariant entries == middle + Map(unlocked[..n], f)
      {
        var w := unlocked[n];
        var retain := |newestFirst| > 0 && w == newestFirst[0]
          && now - w.mtime < FAILED_WORKSPACE_RETENTION;
        entries := entries
          + [Entry(Item(Workspaces, w.name), Workspace, if retain then Keep else Delete, w.size, w.mtime)];
        assert unlocked[..n + 1] == unlocked[..n] + [w];
      }
      assert unlocked[..|unlocked|] == unlocked;
    }

    method ScanCache(l: Listing<CacheItem>, area: Area, kind: Kind, legacy: bool, now: int)
      modifies this`entries, this`cache
      ensures entries == old(entries) + LinkEntries(l, area, kind, now)
      ensures cache == old(cache) + Collect(l, area, kind, legacy)
    {
      if l.Linked? {
        entries := entries + [Entry(AreaRoot(area), kind, Protect, 0, now)];
      }
      ghost var start := entries;
      var items := Items(l);
      for n := 0 to |items|
        invariant entries == start + LinkedItems(items[..n], area, kind, now)
        invariant cache == old(cache) + OwnedItems(items[..n], area, kind, legacy)
      {
        var i := items[n];
        assert items[..n + 1] == items[..n] + [i];
        CachePush(items[..n], i, area, kind, legacy, now);
        if i.link {
          entries := entries + [Entry(Item(area, i.name), kind, Protect, 0, now)];
        } else {
          cache := cache + [CacheEntry(Item(area, i.name), kind, if legacy then Delete else Keep,
            i.size, i.mtime, legacy, None)];
        }
      }
      assert items[..|items|] == items;
    }

    method ScanIndexes(l: Listing<CacheItem>, now: int)
      modifies this`entries, this`cache
      ensures entries == old(entries) + LinkEntries(l, PodsIndexes, PodsCache, now)
      ensures cache == old(cache) + CollectIndexes(l, Paths(old(cache)))
    {
      if l.Linked? {
        entries := entries + [Entry(AreaRoot(PodsIndexes), PodsCache, Protect, 0, now)];
      }
      ghost var start := entries;
      var entryPaths := Paths(cache);
      var items := Items(l);
      for n := 0 to |items|
        invariant entries == start + LinkedItems(items[..n], PodsIndexes, PodsCache, now)
        invariant cache == old(cache) + OwnedIndexes(items[..n], entryPaths)
      {
        var i := items[n];
        assert items[..n + 1] == items[..n] + [i];
        CachePush(items[..n], i, PodsIndexes, PodsCache, false, now);
        IndexPush(items[..n], i, entryPaths);
        var target := Item(PodsIndexes, i.name);
        if i.link {
          entries := entries + [Entry(target, PodsCache, Protect, 0, now)];
        } else {
          var linked: Option<Path> := None;
          if i.key.Some? && Item(PodsEntries, i.key.value) in entryPaths {
            linked := Some(Item(PodsEntries, i.key.value));
          }
          cache := cache + [CacheEntry(target, PodsCache, if linked.None? then Delete else Keep,
            i.size, i.mtime, linked.None?, linked)];
        }
      }
      assert items[..|items|] == items;
    }

    /** Marks a current entry and the indexes that refer to it, and subtracts their bytes. */
    method EvictOne(t: CacheEntry, ghost es: seq<CacheEntry>, ghost gone: set<Path>)
      requires WellLinked(es) && t in es && Evictable(t) && t.path !in gone
      requires forall p :: p in gone ==> exists e :: e in es && Evictable(e) && e.path == p
      requires cache == Final(es, gone) && cacheBytesAfter == Remaining(es, gone)
      modifies this`cache, this`cacheBytesAfter
      ensures cache == Final(es, gone + {t.path}) && cacheBytesAfter == Remaining(es, gone + {t.path})
    {
      var linkedBytes := 0;
      PathIdentifies(es);
      ghost var after := gone + {t.path};
      var n := 0;
      while n < |cache|
        invariant 0 <= n <= |cache| == |es|
        invariant forall i :: 0 <= i < n ==> cache[i] == Decided(es[i], after)
        invariant forall i :: n <= i < |es| ==> cache[i] == Decided(es[i], gone)
        invariant linkedBytes == IndexBytes(es[..n], t.path) && cacheBytesAfter == old(cacheBytesAfter)
      {
        var e := cache[n];
        TakeNext(es, n, t);
        EvictionOf(es[n], t, gone);
        if e.path == t.path {
          cache := cache[n := e.(decision := Delete)];
        } else if e.linked == Some(t.path) {
          cache := cache[n := e.(decision := Delete)];
          linkedBytes := linkedBytes + e.size;
        }
        n := n + 1;
      }
      assert cache == Final(es, after);
      assert es[..|es|] == es;
      EvictingOne(es, gone, t);
      cacheBytesAfter := cacheBytesAfter - (t.size + linkedBytes);
    }

    method Evict(budget: int, collate: Path -> int)
      requires WellLinked(cache) && cacheBytesAfter == TotalBytes(cache)
      modifies this`cache, this`cacheBytesAfter
      ensures cache == Final(old(cache), Evicted(old(cache), collate, budget))
      ensures cacheBytesAfter == Remaining(old(cache), Evicted(old(cache), collate, budget))
    {
      ghost var es := cache;
      cacheBytesAfter := cacheBytesAfter - LegacyBytes(cache);
      BeforeEviction(es);
      var order := Order(cache, collate);
      OrderHasEvictables(es, collate);
      OrderIsDistinct(es, collate);
      ghost var gone: set<Path> := {};
      var k := 0;
      while k < |order| && cacheBytesAfter > budget
        invariant 0 <= k <= |order| && gone == Paths(order[..k])
        invariant cache == Final(es, gone) && cacheBytesAfter == Remaining(es, gone)
        invariant EvictFrom(es, order[k..], gone, budget) == EvictFrom(es, order, {}, budget)
      {
        TakeOne(es, order, k);
        EvictOne(order[k], es, gone);
        gone := gone + {order[k].path};
        k := k + 1;
      }
    }

    /** While a build is active every cache entry is protected; otherwise the budget decides. */
    method DecideCache(budget: int, collate: Path -> int)
      requires WellLinked(cache)
      modifies this`entries, this`cache, this`cacheBytesAfter
      ensures entries == old(entries) + ToEntries(CacheDecisions(old(cache), active, budget, collate))
      ensures cacheBytesAfter == BytesAfter(old(cache), active, budget, collate)
    {
      cacheBytesAfter := TotalBytes(cache);
      if active != {} {
        cache := Map(cache, Protected);
      } else {
        Evict(budget, collate);
      }
      entries := entries + ToEntries(cache);
    }

    method VisitRuns(nodes: seq<RunNode>, dir: seq<string>, now: int)
      modifies this`entries
      ensures entries == old(entries) + ExpiredRuns(nodes, dir, now)
      decreases nodes
    {
      if nodes != [] {
        match nodes[0] {
          case RunLink(_) =>
          case RunDir(name, children) =>
            VisitRuns(children, dir + [name], now);
          case RunOutputFile(name, bulky, mtime, size) =>
            if bulky && now - mtime >= BULKY_RUN_RETENTION {
              entries := entries + [Entry(RunFile(dir + [name]), RunOutput, Delete, size, mtime)];
            }
        }
        VisitRuns(nodes[1..], dir, now);
      }
    }

    /** One planning pass of a fresh pruner over a snapshot. */
    method Run(s: Snapshot, now: int, alive: set<nat>, budget: int, collate: Path -> int)
      returns (r: Report)
      requires entries == [] && active == {} && cache == [] && WellFormed(s)
      modifies this
      ensures r == Plan(s, now, alive, budget, collate)
    {
      if s.rootLinked {
        return Report(0, 0, 0, [Entry(ArtifactsRoot, Workspace, Protect, 0, now)]);
      }
      ScanWork(s, now, alive);
      ScanCaches(s, now);
      var before := TotalBytes(cache);
      CollectedIsWellLinked(s);
      DecideCache(budget, collate);
      VisitRuns(Items(s.runs), [], now);
      r := Report(before, cacheBytesAfter, EntryBytes(entries, IsDeletedEntry), entries);
    }

    method ScanWork(s: Snapshot, now: int, alive: set<nat>)
      requires entries == [] && active == {}
      modifies this
      ensures cache == old(cache) && active == Active(s, now, alive)
      ensures entries == LockPart(s, now, alive) + WorkspacePart(s, active, now)
    {
      ScanLocks(s.locks, now, alive);
      assert entries == LockPart(s, now, alive);
      ScanWorkspaces(s.workspaces, now);
    }

    method ScanCaches(s: Snapshot, now: int)
      requires cache == []
      modifies this`entries, this`cache
      ensures entries == old(entries) + LinkPart(s, now) && cache == Collected(s)
    {
      ghost var e0 := entries;
      ScanCache(s.podsV1, PodsV1, PodsCache, true, now);
      ghost var e1, c1 := entries, cache;
      ScanCache(s.podsV2, PodsV2, PodsCache, true, now);
      ghost var e2, c2 := entries, cache;
      ScanCache(s.podsEntries, PodsEntries, PodsCache, false, now);
      ghost var e3, c3 := entries, cache;
      ScanCache(s.native, NativeEntries, NativeCache, false, now);
      ghost var e4, c4 := entries, cache;
      ScanIndexes(s.podsIndexes, now);
      assert c4 == CollectedEntries(s);
      assert e1 == e0 + LinkEntries(s.podsV1, PodsV1, PodsCache, now);
      JoinParts(e0, LinkEntries(s.podsV1, PodsV1, PodsCache, now),
        LinkEntries(s.podsV2, PodsV2, PodsCache, now),
        LinkEntries(s.podsEntries, PodsEntries, PodsCache, now),
        LinkEntries(s.native, NativeEntries, NativeCache, now),
        LinkEntries(s.podsIndexes, PodsIndexes, PodsCache, now));
    }
  }

  lemma JoinParts(e: seq<Entry>, a: seq<Entry>, b: seq<Entry>, c: seq<Entry>, d: seq<Entry>, f: seq<Entry>)
    ensures e + a + b + c + d + f == e + (a + b + c + d + f)
  {
  }

  /** What marking does to the record of one entry. */
  lemma EvictionOf(e: CacheEntry, t: CacheEntry, gone: set<Path>)
    requires e.path == t.path ==> e == t
    requires Evictable(t)
    ensures Decided(e, gone).path == e.path && Decided(e, gone).linked == e.linked
    ensures Decided(e, gone + {t.path}) ==
            if e.path == t.path || RefersTo(e, t.path) then Decided(e, gone).(decision := Delete)
            else Decided(e, gone)
    ensures e.path == t.path ==> !RefersTo(e, t.path)
  {
  }

  lemma TakeNext(es: seq<CacheEntry>, n: nat, t: CacheEntry)
    requires n < |es|
    ensures es[n] in es
    ensures IndexBytes(es[..n + 1], t.path) ==
            IndexBytes(es[..n], t.path) + if RefersTo(es[n], t.path) then es[n].size else 0
  {
    assert es[..n + 1] == es[..n] + [es[n]];
    BytesPush(es[..n], es[n], e => RefersTo(e, t.path));
  }

  lemma TakeOne(es: seq<CacheEntry>, order: seq<CacheEntry>, k: nat)
    requires k < |order| && forall i, j :: 0 <= i < j < |order| ==> order[i].path != order[j].path
    ensures order[k] in order && order[k].path !in Paths(order[..k])
    ensures Paths(order[..k + 1]) == Paths(order[..k]) + {order[k].path}
    ensures order[k..][1..] == order[k + 1..] && order[k..][0] == order[k]
  {
    assert order[..k + 1] == order[..k] + [order[k]];
  }
}
