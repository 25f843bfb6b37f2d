/** Applying a prune plan and planning again, at the same time and with the same live processes. */
module PruneTwice {
  import opened CacheBudget
  import opened Options
  import opened PrunePlan
  import opened PruneProperties
  import opened Seqs

  function KeepItems<T>(l: Listing<T>, p: T -> bool): Listing<T> {
    if l.Present? then Present(Filter(l.items, p)) else l
  }

  function KeepCache(l: Listing<CacheItem>, area: Area, gone: set<Path>): Listing<CacheItem> {
    KeepItems(l, (i: CacheItem) => Item(area, i.name) !in gone)
  }

  function KeepRuns(ns: seq<RunNode>, dir: seq<string>, gone: set<Path>): seq<RunNode> {
    if ns == [] then [] else
    var first := match ns[0]
      case RunLink(_) => [ns[0]]
      case RunDir(name, children) => [RunDir(name, KeepRuns(children, dir + [name], gone))]
      case RunOutputFile(name, _, _, _) => if RunFile(dir + [name]) in gone then [] else [ns[0]];
    first + KeepRuns(ns[1..], dir, gone)
  }

  /** The snapshot after removing the paths in `gone`. */
  function Without(s: Snapshot, gone: set<Path>): Snapshot {
    Snapshot(
      s.rootLinked,
      KeepItems(s.locks, (l: LockItem) => Item(Locks, l.name) !in gone),
      KeepItems(s.workspaces, (w: WorkspaceItem) => Item(Workspaces, w.name) !in gone),
      KeepCache(s.podsV1, PodsV1, gone), KeepCache(s.podsV2, PodsV2, gone),
      KeepCache(s.podsEntries, PodsEntries, gone), KeepCache(s.native, NativeEntries, gone),
      KeepCache(s.podsIndexes, PodsIndexes, gone),
      if s.runs.Present? then Present(KeepRuns(s.runs.items, [], gone)) else s.runs)
  }

  /** The paths a plan deletes. */
  ghost function Doomed(s: Snapshot, now: int, alive: set<nat>, budget: int, collate: Path -> int): set<Path> {
    DeletedPaths(Plan(s, now, alive, budget, collate).entries)
  }

  lemma DoomedBy(
    s: Snapshot, now: int, alive: set<nat>, budget: int, collate: Path -> int, src: Source, e: Entry)
    requires !s.rootLinked && e.decision == Delete && !src.OfRoot? && !src.OfCacheLink?
    requires Explains(src, e, s, now, alive, budget, collate)
    ensures e.path in Doomed(s, now, alive, budget, collate)
  {
    SourceIsListed(s, now, alive, budget, collate, src, e);
  }

  lemma KeptItems<T(!new)>(l: Listing<T>, p: T -> bool)
    ensures forall x :: x in Items(KeepItems(l, p)) <==> x in Items(l) && p(x)
    ensures Items(KeepItems(l, p)) == Filter(Items(l), p)
  {
    FilterIn(Items(l), p);
  }

  predicate Outside(e: CacheEntry, gone: set<Path>) {
    e.path !in gone
  }

  // ----- Locks and workspaces -----

  lemma GuardStays(
    s: Snapshot, now: int, alive: set<nat>, budget: int, collate: Path -> int, l: LockItem)
    requires WellFormed(s) && l in Items(s.locks) && Guards(l, now, alive)
    ensures Item(Locks, l.name) !in Doomed(s, now, alive, budget, collate)
  {
    if Item(Locks, l.name) in Doomed(s, now, alive, budget, collate) {
      var e :| e in Plan(s, now, alive, budget, collate).entries && e.decision == Delete
        && e.path == Item(Locks, l.name);
      ActiveWorkIsProtected(s, now, alive, budget, collate, l, e);
    }
  }

  lemma ActiveStays(s: Snapshot, now: int, alive: set<nat>, budget: int, collate: Path -> int)
    requires WellFormed(s)
    ensures Active(Without(s, Doomed(s, now, alive, budget, collate)), now, alive) == Active(s, now, alive)
  {
    var gone := Doomed(s, now, alive, budget, collate);
    var p := (l: LockItem) => Item(Locks, l.name) !in gone;
    KeptItems(s.locks, p);
    forall l | l in Items(s.locks) && Guards(l, now, alive)
      ensures l in Items(Without(s, gone).locks)
    {
      GuardStays(s, now, alive, budget, collate, l);
    }
  }

  lemma LocksWithout(s: Snapshot, gone: set<Path>, l: LockItem)
    ensures l in Items(Without(s, gone).locks) <==> l in Items(s.locks) && Item(Locks, l.name) !in gone
  {
    KeptItems(s.locks, (l: LockItem) => Item(Locks, l.name) !in gone);
  }

  lemma LockSurvivorIsNotDeleted(
    s: Snapshot, now: int, alive: set<nat>, budget: int, collate: Path -> int, l: LockItem)
    requires !s.rootLinked && l in Items(s.locks)
    requires Item(Locks, l.name) !in Doomed(s, now, alive, budget, collate)
    ensures LockEntry(l, now, alive).decision != Delete
  {
    if LockEntry(l, now, alive).decision == Delete {
      DoomedBy(s, now, alive, budget, collate, OfLock(l), LockEntry(l, now, alive));
    }
  }

  lemma UnlockedSurvivorIsRetained(
    s: Snapshot, now: int, alive: set<nat>, budget: int, collate: Path -> int, w: WorkspaceItem)
    requires WellFormed(s) && !s.rootLinked
    requires w in UnlockedIn(Without(s, Doomed(s, now, alive, budget, collate)), now, alive)
    ensures w in UnlockedIn(s, now, alive) && Retained(w, UnlockedIn(s, now, alive), now)
  {
    var gone := Doomed(s, now, alive, budget, collate);
    var active := Active(s, now, alive);
    ActiveStays(s, now, alive, budget, collate);
    KeptItems(s.workspaces, (w: WorkspaceItem) => Item(Workspaces, w.name) !in gone);
    FilterIn(Items(Without(s, gone).workspaces), w => Unlocked(w, active));
    FilterIn(Items(s.workspaces), w => Unlocked(w, active));
    if !Retained(w, UnlockedIn(s, now, alive), now) {
      DoomedBy(s, now, alive, budget, collate, OfUnlocked(w),
        UnlockedWorkspace(w, UnlockedIn(s, now, alive), now));
    }
  }

  lemma RetainedStaysRetained(
    s: Snapshot, now: int, alive: set<nat>, budget: int, collate: Path -> int, w: WorkspaceItem)
    requires WellFormed(s) && !s.rootLinked
    requires w in UnlockedIn(Without(s, Doomed(s, now, alive, budget, collate)), now, alive)
    ensures Retained(w, UnlockedIn(Without(s, Doomed(s, now, alive, budget, collate)), now, alive), now)
  {
    var unlocked' := UnlockedIn(Without(s, Doomed(s, now, alive, budget, collate)), now, alive);
    HeadOfSort(unlocked');
    UnlockedSurvivorIsRetained(s, now, alive, budget, collate, w);
    UnlockedSurvivorIsRetained(s, now, alive, budget, collate, Sort(unlocked', NewerFirst)[0]);
  }

  // ----- Caches -----

  lemma DoomedCacheDoesNotSurvive(
    s: Snapshot, now: int, alive: set<nat>, budget: int, collate: Path -> int, e: CacheEntry, d: Entry)
    requires WellFormed(s) && e in Collected(s) && d.path == e.path && d.decision == Delete
    requires d in Entries(s, now, alive, budget, collate)
    ensures Active(s, now, alive) == {} && !Survives(e, Evicted(Collected(s), collate, budget))
  {
    CollectedKind(s, e);
    var src := EntrySource(s, now, alive, budget, collate, d);
    match src {
      case OfCache(c) =>
        CollectedIsWellLinked(s);
        PathIdentifies(Collected(s));
        var u := CacheSource(s, now, alive, budget, collate, c);
      case OfRun =>
        ExpiredRunsAreDeleted(Items(s.runs), [], now, d);
      case _ =>
    }
  }

  /** A collected cache entry is deleted exactly when it does not survive the eviction. */
  lemma CacheDoom(
    s: Snapshot, now: int, alive: set<nat>, budget: int, collate: Path -> int, e: CacheEntry)
    requires WellFormed(s) && !s.rootLinked && e in Collected(s)
    ensures e.path in Doomed(s, now, alive, budget, collate) <==>
            Active(s, now, alive) == {} && !Survives(e, Evicted(Collected(s), collate, budget))
  {
    var es := Collected(s);
    var gone := Evicted(es, collate, budget);
    if e.path in Doomed(s, now, alive, budget, collate) {
      var d :| d in Plan(s, now, alive, budget, collate).entries && d.decision == Delete && d.path == e.path;
      DoomedCacheDoesNotSurvive(s, now, alive, budget, collate, e, d);
    } else if Active(s, now, alive) == {} && !Survives(e, gone) {
      var i :| 0 <= i < |es| && es[i] == e;
      var c := Decided(e, gone);
      assert Final(es, gone)[i] == c;
      DoomedBy(s, now, alive, budget, collate, OfCache(c), ToEntry(c));
    }
  }

  lemma LinkTargetStays(
    s: Snapshot, now: int, alive: set<nat>, budget: int, collate: Path -> int, e: CacheEntry)
    requires WellFormed(s) && !s.rootLinked && e in Collected(s) && e.linked.Some?
    requires e.path !in Doomed(s, now, alive, budget, collate)
    ensures e.linked.value !in Doomed(s, now, alive, budget, collate)
  {
    CollectedIsWellLinked(s);
    var t :| t in Collected(s) && t.path == e.linked.value && Evictable(t);
    CacheDoom(s, now, alive, budget, collate, e);
    CacheDoom(s, now, alive, budget, collate, t);
  }

  lemma CollectAfter(l: Listing<CacheItem>, area: Area, kind: Kind, legacy: bool, gone: set<Path>)
    ensures Collect(KeepCache(l, area, gone), area, kind, legacy) ==
            Filter(Collect(l, area, kind, legacy), e => Outside(e, gone))
  {
    var q := (i: CacheItem) => Item(area, i.name) !in gone;
    var f := (i: CacheItem) => EntryOf(i, area, kind, legacy);
    KeptItems(l, q);
    FilterMapCommutes(Items(l), Owned, q, f, f, e => Outside(e, gone));
  }

  lemma CollectedEntriesAfter(s: Snapshot, gone: set<Path>)
    ensures CollectedEntries(Without(s, gone)) == Filter(CollectedEntries(s), e => Outside(e, gone))
  {
    var p := e => Outside(e, gone);
    var v1 := Collect(s.podsV1, PodsV1, PodsCache, true);
    var v2 := Collect(s.podsV2, PodsV2, PodsCache, true);
    var v3 := Collect(s.podsEntries, PodsEntries, PodsCache, false);
    var native := Collect(s.native, NativeEntries, NativeCache, false);
    CollectAfter(s.podsV1, PodsV1, PodsCache, true, gone);
    CollectAfter(s.podsV2, PodsV2, PodsCache, true, gone);
    CollectAfter(s.podsEntries, PodsEntries, PodsCache, false, gone);
    CollectAfter(s.native, NativeEntries, NativeCache, false, gone);
    FilterConcat(v1, v2, p);
    FilterConcat(v1 + v2, v3, p);
    FilterConcat(v1 + v2 + v3, native, p);
  }

  /** Indexes rescanned after a removal that spares the entries of the indexes it spares. */
  lemma IndexesAfter(l: Listing<CacheItem>, targets: set<Path>, gone: set<Path>)
    requires forall e :: e in CollectIndexes(l, targets) && e.linked.Some? && Outside(e, gone) ==>
               e.linked.value !in gone
    ensures CollectIndexes(KeepCache(l, PodsIndexes, gone), targets - gone) ==
            Filter(CollectIndexes(l, targets), e => Outside(e, gone))
  {
    var q := (i: CacheItem) => Item(PodsIndexes, i.name) !in gone;
    KeptItems(l, q);
    var f, g := i => IndexOf(i, targets), i => IndexOf(i, targets - gone);
    MapIn(Filter(Items(l), Owned), f);
    FilterIn(Items(l), Owned);
    forall i | i in Items(l) && Owned(i) && q(i) ensures g(i) == f(i) {
      assert f(i) in CollectIndexes(l, targets);
    }
    FilterMapCommutes(Items(l), Owned, q, f, g, e => Outside(e, gone));
  }

  lemma TargetsAfter(s: Snapshot, gone: set<Path>)
    ensures Paths(CollectedEntries(Without(s, gone))) == Paths(CollectedEntries(s)) - gone
  {
    CollectedEntriesAfter(s, gone);
    FilterIn(CollectedEntries(s), e => Outside(e, gone));
  }

  /** Scanning after the removal collects what was collected before, less what was removed. */
  lemma CollectedAfter(s: Snapshot, now: int, alive: set<nat>, budget: int, collate: Path -> int)
    requires WellFormed(s) && !s.rootLinked
    ensures var gone := Doomed(s, now, alive, budget, collate);
            Collected(Without(s, gone)) == Filter(Collected(s), e => Outside(e, gone))
  {
    var gone := Doomed(s, now, alive, budget, collate);
    var indexes := CollectIndexes(s.podsIndexes, Paths(CollectedEntries(s)));
    forall e | e in indexes && e.linked.Some? && Outside(e, gone) ensures e.linked.value !in gone {
      LinkTargetStays(s, now, alive, budget, collate, e);
    }
    CollectedEntriesAfter(s, gone);
    TargetsAfter(s, gone);
    IndexesAfter(s.podsIndexes, Paths(CollectedEntries(s)), gone);
    FilterConcat(CollectedEntries(s), indexes, e => Outside(e, gone));
  }

  /** The second plan keeps every cache entry and reports the first plan's final size. */
  lemma CacheAfter(s: Snapshot, now: int, alive: set<nat>, budget: int, collate: Path -> int)
    requires WellFormed(s) && !s.rootLinked
    ensures var s' := Without(s, Doomed(s, now, alive, budget, collate));
            && (forall c :: c in CacheIn(s', now, alive, budget, collate) ==> c.decision != Delete)
            && TotalBytes(Collected(s')) == BytesAfter(Collected(s), Active(s, now, alive), budget, collate)
            && BytesAfter(Collected(s'), Active(s', now, alive), budget, collate) == TotalBytes(Collected(s'))
  {
    var gone := Doomed(s, now, alive, budget, collate);
    var s' := Without(s, gone);
    var es, active := Collected(s), Active(s, now, alive);
    var p := e => Outside(e, gone);
    ActiveStays(s, now, alive, budget, collate);
    CollectedAfter(s, now, alive, budget, collate);
    var evicted := Evicted(es, collate, budget);
    forall e | e in es ensures p(e) <==> active != {} || Survives(e, evicted) {
      CacheDoom(s, now, alive, budget, collate, e);
    }
    if active != {} {
      FilterAll(es, p);
      MapIn(es, Protected);
    } else {
      var survives := (e: CacheEntry) => Survives(e, evicted);
      var all := (e: CacheEntry) => true;
      CollectedIsWellLinked(s);
      FilterAgrees(es, p, survives);
      SurvivorsSurvive(es, collate, budget);
      var rest := Collected(s');
      assert rest == Filter(es, survives);
      BytesOfFilter(es, survives, all);
      BytesAgree(es, e => survives(e) && all(e), survives);
      BytesAgree(rest, e => Survives(e, {}), all);
      forall c | c in CacheIn(s', now, alive, budget, collate) ensures c.decision != Delete {
        var e := MapSource(rest, e => Decided(e, {}), c);
      }
    }
  }

  // ----- Run outputs -----

  lemma {:induction false} ExpiredAfter(
    ns: seq<RunNode>, dir: seq<string>, now: int, gone: set<Path>, e: Entry)
    requires e in ExpiredRuns(KeepRuns(ns, dir, gone), dir, now)
    ensures e in ExpiredRuns(ns, dir, now) && e.path !in gone
    decreases ns
  {
    var rest := KeepRuns(ns[1..], dir, gone);
    var kept := KeepRuns(ns, dir, gone);
    if |kept| > |rest| {
      assert kept[1..] == rest;
      if ns[0].RunDir? && e !in ExpiredRuns(rest, dir, now) {
        ExpiredAfter(ns[0].children, dir + [ns[0].name], now, gone, e);
      } else if e in ExpiredRuns(rest, dir, now) {
        ExpiredAfter(ns[1..], dir, now, gone, e);
      }
    } else {
      assert kept == rest;
      ExpiredAfter(ns[1..], dir, now, gone, e);
    }
  }

  // ----- The main result -----

  /** Once a plan has been carried out, planning again deletes nothing and reclaims nothing. */
  lemma PruningTwiceDeletesNothing(
    s: Snapshot, now: int, alive: set<nat>, budget: int, collate: Path -> int)
    requires WellFormed(s)
    ensures var first := Plan(s, now, alive, budget, collate);
            var again := Plan(Without(s, DeletedPaths(first.entries)), now, alive, budget, collate);
            && (forall e :: e in again.entries ==> e.decision != Delete)
            && again.reclaimed == 0 && again.before == first.after && again.after == first.after
  {
    var gone := Doomed(s, now, alive, budget, collate);
    var s' := Without(s, gone);
    var again := Plan(s', now, alive, budget, collate);
    if !s.rootLinked {
      CacheAfter(s, now, alive, budget, collate);
      forall e | e in again.entries ensures e.decision != Delete {
        NothingIsDeletedAgain(s, now, alive, budget, collate, e);
      }
    }
    EntryBytesZero(again.entries, IsDeletedEntry);
  }

  lemma NothingIsDeletedAgain(
    s: Snapshot, now: int, alive: set<nat>, budget: int, collate: Path -> int, e: Entry)
    requires WellFormed(s) && !s.rootLinked
    requires e in Entries(Without(s, Doomed(s, now, alive, budget, collate)), now, alive, budget, collate)
    ensures e.decision != Delete
  {
    var gone := Doomed(s, now, alive, budget, collate);
    var s' := Without(s, gone);
    var src := EntrySource(s', now, alive, budget, collate, e);
    match src {
      case OfLock(l) =>
        LocksWithout(s, gone, l);
        LockSurvivorIsNotDeleted(s, now, alive, budget, collate, l);
      case OfUnlocked(w) =>
        var active := Active(s', now, alive);
        FilterIn(Items(s'.workspaces), w => Unlocked(w, active));
        RetainedStaysRetained(s, now, alive, budget, collate, w);
      case OfCache(c) =>
        CacheAfter(s, now, alive, budget, collate);
      case OfRun =>
        ExpiredAfter(Items(s.runs), [], now, gone, e);
        ExpiredRunsAreDeleted(Items(s.runs), [], now, e);
        DoomedBy(s, now, alive, budget, collate, OfRun, e);
      case _ =>
    }
  }
}
