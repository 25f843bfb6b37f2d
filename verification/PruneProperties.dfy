/** What the prune plan guarantees: protection of active work, which run outputs go, byte accounting, the
    budget and its order, and references between cache entries. */
module PruneProperties {
  import opened CacheBudget
  import opened Options
  import opened PrunePlan
  import opened Seqs

  predicate IsCacheKind(k: Kind) {
    k == PodsCache || k == NativeCache
  }

  predicate CachePath(p: Path) {
    (p.AreaRoot? || p.Item?) && p.area != Locks && p.area != Workspaces
  }

  /** The unlocked workspaces of a snapshot. */
  function UnlockedIn(s: Snapshot, now: int, alive: set<nat>): seq<WorkspaceItem> {
    UnlockedOf(Items(s.workspaces), Active(s, now, alive))
  }

  /** The collected cache entries of a snapshot with the decisions of its plan. */
  function CacheIn(s: Snapshot, now: int, alive: set<nat>, budget: int, collate: Path -> int): seq<CacheEntry> {
    CacheDecisions(Collected(s), Active(s, now, alive), budget, collate)
  }

  // ----- Where an entry of the report comes from -----

  /** What an entry of the report is about. */
  datatype Source =
    | OfLock(l: LockItem)
    | OfUnlocked(w: WorkspaceItem)
    | OfLocked(v: WorkspaceItem)
    | OfCache(c: CacheEntry)
    | OfRun
    | OfRoot(area: Area)
    | OfCacheLink

  ghost predicate Explains(
    src: Source, e: Entry, s: Snapshot, now: int, alive: set<nat>, budget: int, collate: Path -> int)
  {
    match src
    case OfLock(l) => l in Items(s.locks) && e == LockEntry(l, now, alive)
    case OfUnlocked(w) =>
      && w in Items(s.workspaces) && Unlocked(w, Active(s, now, alive))
      && e == UnlockedWorkspace(w, UnlockedIn(s, now, alive), now)
    case OfLocked(v) =>
      && v in Items(s.workspaces) && !Unlocked(v, Active(s, now, alive)) && e == ProtectedWorkspace(v, now)
    case OfCache(c) => c in CacheIn(s, now, alive, budget, collate) && e == ToEntry(c)
    case OfRun => e in ExpiredRuns(Items(s.runs), [], now)
    case OfRoot(area) =>
      && e.path == AreaRoot(area) && e.decision == Protect
      && ((area == Locks && s.locks.Linked? && e.kind == Lock)
          || (area == Workspaces && s.workspaces.Linked? && e.kind == Workspace))
    case OfCacheLink =>
      e.decision == Protect && IsCacheKind(e.kind) && e.size == 0 && CachePath(e.path)
  }

  lemma MapSource<T(!new), U(!new)>(s: seq<T>, f: T -> U, y: U) returns (x: T)
    requires y in Map(s, f)
    ensures x in s && f(x) == y
  {
    var i :| 0 <= i < |s| && Map(s, f)[i] == y;
    x := s[i];
  }

  lemma LinkSource(l: Listing<CacheItem>, area: Area, kind: Kind, now: int, e: Entry)
    requires e in LinkEntries(l, area, kind, now) && IsCacheKind(kind) && area != Locks && area != Workspaces
    ensures e.decision == Protect && IsCacheKind(e.kind) && e.size == 0 && CachePath(e.path)
  {
    if e in LinkedItems(Items(l), area, kind, now) {
      var i := MapSource(Filter(Items(l), i => !Owned(i)), i => LinkEntry(i, area, kind, now), e);
    }
  }

  lemma LinkPartSource(s: Snapshot, now: int, e: Entry)
    requires e in LinkPart(s, now)
    ensures e.decision == Protect && IsCacheKind(e.kind) && e.size == 0 && CachePath(e.path)
  {
    if e in LinkEntries(s.podsV1, PodsV1, PodsCache, now) {
      LinkSource(s.podsV1, PodsV1, PodsCache, now, e);
    } else if e in LinkEntries(s.podsV2, PodsV2, PodsCache, now) {
      LinkSource(s.podsV2, PodsV2, PodsCache, now, e);
    } else if e in LinkEntries(s.podsEntries, PodsEntries, PodsCache, now) {
      LinkSource(s.podsEntries, PodsEntries, PodsCache, now, e);
    } else if e in LinkEntries(s.native, NativeEntries, NativeCache, now) {
      LinkSource(s.native, NativeEntries, NativeCache, now, e);
    } else {
      LinkSource(s.podsIndexes, PodsIndexes, PodsCache, now, e);
    }
  }

  lemma LockSource(s: Snapshot, now: int, alive: set<nat>, budget: int, collate: Path -> int, e: Entry)
    returns (src: Source)
    requires e in LockPart(s, now, alive)
    ensures Explains(src, e, s, now, alive, budget, collate)
  {
    if e in RootEntries(s.locks, Locks, Lock, now) {
      src := OfRoot(Locks);
    } else {
      var l := MapSource(Items(s.locks), l => LockEntry(l, now, alive), e);
      src := OfLock(l);
    }
  }

  lemma WorkspaceSource(s: Snapshot, now: int, alive: set<nat>, budget: int, collate: Path -> int, e: Entry)
    returns (src: Source)
    requires e in WorkspacePart(s, Active(s, now, alive), now)
    ensures Explains(src, e, s, now, alive, budget, collate)
  {
    var ws, active := Items(s.workspaces), Active(s, now, alive);
    var unlocked := UnlockedOf(ws, active);
    if e in RootEntries(s.workspaces, Workspaces, Workspace, now) {
      src := OfRoot(Workspaces);
    } else if e in LockedWorkspaces(ws, active, now) {
      FilterIn(ws, w => !Unlocked(w, active));
      var v := MapSource(Filter(ws, w => !Unlocked(w, active)), w => ProtectedWorkspace(w, now), e);
      src := OfLocked(v);
    } else {
      FilterIn(ws, w => Unlocked(w, active));
      var w := MapSource(unlocked, w => UnlockedWorkspace(w, unlocked, now), e);
      src := OfUnlocked(w);
    }
  }

  lemma InOneOfFive(e: Entry, a: seq<Entry>, b: seq<Entry>, c: seq<Entry>, d: seq<Entry>, f: seq<Entry>)
    ensures e in a + b + c + d + f <==> e in a || e in b || e in c || e in d || e in f
  {
  }

  /** Every entry of a report is explained by something in the snapshot. */
  lemma EntrySource(s: Snapshot, now: int, alive: set<nat>, budget: int, collate: Path -> int, e: Entry)
    returns (src: Source)
    requires e in Entries(s, now, alive, budget, collate)
    ensures Explains(src, e, s, now, alive, budget, collate)
  {
    var locks, workspaces := LockPart(s, now, alive), WorkspacePart(s, Active(s, now, alive), now);
    var cache := ToEntries(CacheIn(s, now, alive, budget, collate));
    InOneOfFive(e, locks, workspaces, LinkPart(s, now), cache, ExpiredRuns(Items(s.runs), [], now));
    if e in locks {
      src := LockSource(s, now, alive, budget, collate, e);
    } else if e in workspaces {
      src := WorkspaceSource(s, now, alive, budget, collate, e);
    } else if e in LinkPart(s, now) {
      LinkPartSource(s, now, e);
      src := OfCacheLink;
    } else if e in cache {
      var c := MapSource(CacheIn(s, now, alive, budget, collate), ToEntry, e);
      src := OfCache(c);
    } else {
      src := OfRun;
    }
  }

  /** And what the snapshot explains is in the report, cache links apart. */
  lemma SourceIsListed(
    s: Snapshot, now: int, alive: set<nat>, budget: int, collate: Path -> int, src: Source, e: Entry)
    requires Explains(src, e, s, now, alive, budget, collate) && !src.OfRoot? && !src.OfCacheLink?
    ensures e in Entries(s, now, alive, budget, collate)
  {
    var ws, active := Items(s.workspaces), Active(s, now, alive);
    var unlocked := UnlockedOf(ws, active);
    var cache := ToEntries(CacheIn(s, now, alive, budget, collate));
    var locks, workspaces := LockPart(s, now, alive), WorkspacePart(s, active, now);
    match src {
      case OfLock(l) =>
        MapIn(Items(s.locks), l => LockEntry(l, now, alive));
        assert e in LockEntries(Items(s.locks), now, alive);
        assert e in locks;
      case OfUnlocked(w) =>
        FilterIn(ws, w => Unlocked(w, active));
        MapIn(unlocked, w => UnlockedWorkspace(w, unlocked, now));
        assert e in UnlockedWorkspaces(unlocked, now);
        assert e in workspaces;
      case OfLocked(v) =>
        FilterIn(ws, w => !Unlocked(w, active));
        MapIn(Filter(ws, w => !Unlocked(w, active)), w => ProtectedWorkspace(w, now));
        assert e in LockedWorkspaces(ws, active, now);
        assert e in workspaces;
      case OfCache(c) =>
        MapIn(CacheIn(s, now, alive, budget, collate), ToEntry);
        assert e in cache;
      case OfRun =>
    }
    InOneOfFive(e, locks, workspaces, LinkPart(s, now), cache, ExpiredRuns(Items(s.runs), [], now));
  }

  lemma {:induction false} ExpiredRunsAreDeleted(ns: seq<RunNode>, dir: seq<string>, now: int, e: Entry)
    requires e in ExpiredRuns(ns, dir, now)
    ensures e.decision == Delete && e.kind == RunOutput && e.path.RunFile?
    decreases ns
  {
    if e in ExpiredRuns(ns[1..], dir, now) {
      ExpiredRunsAreDeleted(ns[1..], dir, now, e);
    } else if ns[0].RunDir? {
      ExpiredRunsAreDeleted(ns[0].children, dir + [ns[0].name], now, e);
    }
  }

  // ----- Which run outputs are deleted -----

  function NodeName(n: RunNode): string {
    n.name
  }

  /** A way down from one of `ns` through directories, each the parent of the next; a link has no
      children, so none is followed. */
  ghost predicate Descends(ns: seq<RunNode>, trail: seq<RunNode>) {
    && trail != [] && trail[0] in ns
    && forall i :: 0 <= i < |trail| - 1 ==> trail[i].RunDir? && trail[i + 1] in trail[i].children
  }

  /** The way ends at a bulky output at least seven days old, and `e` deletes exactly that file. */
  ghost predicate EndsExpired(trail: seq<RunNode>, dir: seq<string>, now: int, e: Entry)
    requires trail != []
  {
    var n := trail[|trail| - 1];
    && n.RunOutputFile? && n.bulky && now - n.mtime >= 7 * 24 * 60 * 60 * 1_000
    && e == Entry(RunFile(dir + Map(trail, NodeName)), RunOutput, Delete, n.size, n.mtime)
  }

  ghost predicate Expired(ns: seq<RunNode>, dir: seq<string>, now: int, e: Entry) {
    exists trail :: Descends(ns, trail) && EndsExpired(trail, dir, now, e)
  }

  lemma MapOne(n: RunNode)
    ensures Map([n], NodeName) == [n.name]
  {
    assert Map([n], NodeName)[0] == NodeName([n][0]) == n.name;
  }

  lemma StepDown(ns: seq<RunNode>, d: RunNode, trail: seq<RunNode>, dir: seq<string>, now: int, e: Entry)
    requires d in ns && d.RunDir? && Descends(d.children, trail)
    ensures Descends(ns, [d] + trail)
    ensures EndsExpired([d] + trail, dir, now, e) <==> EndsExpired(trail, dir + [d.name], now, e)
  {
    var names := Map(trail, NodeName);
    MapCons(d, trail, NodeName);
    assert dir + ([d.name] + names) == (dir + [d.name]) + names;
  }

  lemma {:induction false} ExpiredRunHasTrail(ns: seq<RunNode>, dir: seq<string>, now: int, e: Entry)
    returns (trail: seq<RunNode>)
    requires e in ExpiredRuns(ns, dir, now)
    ensures Descends(ns, trail) && EndsExpired(trail, dir, now, e)
    decreases ns
  {
    if e in ExpiredRuns(ns[1..], dir, now) {
      trail := ExpiredRunHasTrail(ns[1..], dir, now, e);
    } else if ns[0].RunDir? {
      trail := ExpiredRunHasTrail(ns[0].children, dir + [ns[0].name], now, e);
      StepDown(ns, ns[0], trail, dir, now, e);
      trail := [ns[0]] + trail;
    } else {
      trail := [ns[0]];
      MapOne(ns[0]);
    }
  }

  lemma {:induction false} TrailIsExpiredRun(
    ns: seq<RunNode>, trail: seq<RunNode>, dir: seq<string>, now: int, e: Entry)
    requires Descends(ns, trail) && EndsExpired(trail, dir, now, e)
    ensures e in ExpiredRuns(ns, dir, now)
    decreases ns
  {
    if ns[0] != trail[0] {
      TrailIsExpiredRun(ns[1..], trail, dir, now, e);
    } else if |trail| == 1 {
      MapOne(ns[0]);
      assert trail == [ns[0]];
    } else {
      assert trail == [ns[0]] + trail[1..];
      StepDown(ns, ns[0], trail[1..], dir, now, e);
      TrailIsExpiredRun(ns[0].children, trail[1..], dir + [ns[0].name], now, e);
    }
  }

  /** Deleted among the runs are exactly the bulky outputs at least seven days old that directories lead
      to, at any depth and never through a link. */
  lemma ExpiredRunsAreTheOldBulkyOutputs(ns: seq<RunNode>, dir: seq<string>, now: int, e: Entry)
    ensures e in ExpiredRuns(ns, dir, now) <==> Expired(ns, dir, now, e)
  {
    if e in ExpiredRuns(ns, dir, now) {
      var trail := ExpiredRunHasTrail(ns, dir, now, e);
    }
    if trail :| Descends(ns, trail) && EndsExpired(trail, dir, now, e) {
      TrailIsExpiredRun(ns, trail, dir, now, e);
    }
  }

  /** And they are exactly the run outputs of the report. */
  lemma ReportedRunOutputs(s: Snapshot, now: int, alive: set<nat>, budget: int, collate: Path -> int, e: Entry)
    requires !s.rootLinked && e.kind == RunOutput
    ensures e in Plan(s, now, alive, budget, collate).entries <==> Expired(Items(s.runs), [], now, e)
  {
    ExpiredRunsAreTheOldBulkyOutputs(Items(s.runs), [], now, e);
    if e in Entries(s, now, alive, budget, collate) {
      RunOutputIsExpired(s, now, alive, budget, collate, e);
    }
    if e in ExpiredRuns(Items(s.runs), [], now) {
      SourceIsListed(s, now, alive, budget, collate, OfRun, e);
    }
  }

  lemma OnlyRunsAreRunOutputs(
    src: Source, s: Snapshot, now: int, alive: set<nat>, budget: int, collate: Path -> int, e: Entry)
    requires Explains(src, e, s, now, alive, budget, collate) && !src.OfRun?
    ensures e.kind != RunOutput
  {
    if src.OfCache? {
      var c := CacheSource(s, now, alive, budget, collate, src.c);
    }
  }

  lemma RunOutputIsExpired(s: Snapshot, now: int, alive: set<nat>, budget: int, collate: Path -> int, e: Entry)
    requires e.kind == RunOutput && e in Entries(s, now, alive, budget, collate)
    ensures e in ExpiredRuns(Items(s.runs), [], now)
  {
    var src := EntrySource(s, now, alive, budget, collate, e);
    if !src.OfRun? {
      OnlyRunsAreRunOutputs(src, s, now, alive, budget, collate, e);
    }
  }

  lemma CollectedKind(s: Snapshot, e: CacheEntry)
    requires e in Collected(s)
    ensures IsCacheKind(e.kind) && CachePath(e.path)
  {
  }

  /** A decided cache entry is the collected one but for its decision. */
  lemma CacheSource(s: Snapshot, now: int, alive: set<nat>, budget: int, collate: Path -> int, c: CacheEntry)
    returns (e: CacheEntry)
    requires c in CacheIn(s, now, alive, budget, collate)
    ensures e in Collected(s) && c == e.(decision := c.decision)
    ensures c.decision == if Active(s, now, alive) != {} then Protect
                          else Decided(e, Evicted(Collected(s), collate, budget)).decision
    ensures IsCacheKind(c.kind) && CachePath(c.path)
  {
    var es := Collected(s);
    if Active(s, now, alive) != {} {
      e := MapSource(es, Protected, c);
    } else {
      var gone := Evicted(es, collate, budget);
      e := MapSource(es, e => Decided(e, gone), c);
    }
    CollectedKind(s, e);
  }

  // ----- Protection -----

  /** The workspace of a lock that is live or still being initialised is never deleted, nor the lock,
      nor any cache entry while there is such a lock. */
  lemma ActiveWorkIsProtected(
    s: Snapshot, now: int, alive: set<nat>, budget: int, collate: Path -> int, l: LockItem, e: Entry)
    requires WellFormed(s) && l in Items(s.locks) && Guards(l, now, alive)
    requires e in Plan(s, now, alive, budget, collate).entries && e.decision == Delete
    ensures e.path != Item(Workspaces, GuardedName(l)) && e.path != Item(Locks, l.name)
    ensures !IsCacheKind(e.kind)
  {
    assert GuardedName(l) in Active(s, now, alive);
    var src := EntrySource(s, now, alive, budget, collate, e);
    match src {
      case OfCache(c) =>
        var u := CacheSource(s, now, alive, budget, collate, c);
      case OfRun =>
        ExpiredRunsAreDeleted(Items(s.runs), [], now, e);
      case OfLock(m) =>
        var i :| 0 <= i < |Items(s.locks)| && Items(s.locks)[i] == l;
        var j :| 0 <= j < |Items(s.locks)| && Items(s.locks)[j] == m;
        assert i != j;
      case _ =>
    }
  }

  lemma HeadOfSort(ws: seq<WorkspaceItem>)
    requires ws != []
    ensures var sorted := Sort(ws, NewerFirst);
            sorted != [] && sorted[0] in ws && forall w :: w in ws ==> w.mtime <= sorted[0].mtime
  {
    SortSorts(ws, NewerFirst);
    var sorted := Sort(ws, NewerFirst);
    forall w | w in ws ensures w.mtime <= sorted[0].mtime {
      var i :| 0 <= i < |sorted| && sorted[i] == w;
      assert i > 0 ==> NewerFirst(sorted[0], sorted[i]);
    }
  }

  /** Of the workspaces without a lock one is kept exactly when one is less than 24 hours old; it is a
      newest one, and all others are deleted. */
  lemma OnlyTheNewestFailureIsKept(s: Snapshot, now: int, alive: set<nat>, w: WorkspaceItem, v: WorkspaceItem)
    requires w in UnlockedIn(s, now, alive) && v in UnlockedIn(s, now, alive)
    ensures var unlocked := UnlockedIn(s, now, alive);
            && (Retained(w, unlocked, now) ==>
                  v.mtime <= w.mtime && now - w.mtime < 24 * 60 * 60 * 1_000)
            && (Retained(w, unlocked, now) && Retained(v, unlocked, now) ==> w == v)
            && (now - v.mtime < 24 * 60 * 60 * 1_000 ==>
                  exists u :: u in unlocked && Retained(u, unlocked, now))
  {
    var unlocked := UnlockedIn(s, now, alive);
    HeadOfSort(unlocked);
    var newest := Sort(unlocked, NewerFirst)[0];
    if now - v.mtime < FAILED_WORKSPACE_RETENTION {
      assert newest in unlocked && Retained(newest, unlocked, now);
    }
  }

  /** The report decides about every workspace: linked and locked ones are protected, of the others
      the retained one is kept and the rest deleted. */
  lemma WorkspaceDecision(
    s: Snapshot, now: int, alive: set<nat>, budget: int, collate: Path -> int, w: WorkspaceItem, e: Entry)
    requires WellFormed(s) && !s.rootLinked && w in Items(s.workspaces) && e.path == Item(Workspaces, w.name)
    requires e in Plan(s, now, alive, budget, collate).entries
    ensures e.decision == if w.link || w.name in Active(s, now, alive) then Protect
                          else if Retained(w, UnlockedIn(s, now, alive), now) then Keep else Delete
  {
    var src := WorkspaceEntrySource(s, now, alive, budget, collate, w.name, e);
    if src.OfUnlocked? {
      assert src.w == w;
    } else {
      assert src.v == w;
    }
  }

  /** What is said about a child of the workspace directory comes from a workspace of that name. */
  lemma WorkspaceEntrySource(
    s: Snapshot, now: int, alive: set<nat>, budget: int, collate: Path -> int, name: string, e: Entry)
    returns (src: Source)
    requires e.path == Item(Workspaces, name) && e in Entries(s, now, alive, budget, collate)
    ensures Explains(src, e, s, now, alive, budget, collate)
    ensures (src.OfUnlocked? && src.w.name == name) || (src.OfLocked? && src.v.name == name)
  {
    src := EntrySource(s, now, alive, budget, collate, e);
    match src
    case OfCache(d) =>
      var c := CacheSource(s, now, alive, budget, collate, d);
    case OfRun =>
      ExpiredRunsAreDeleted(Items(s.runs), [], now, e);
    case _ =>
  }

  // ----- Cleaning everything -----

  /** `cleanAll` gives up when a dry run protects a workspace or a lock. */
  ghost predicate CleanAllRefuses(r: Report) {
    exists e :: e in r.entries && e.decision == Protect && (e.kind == Workspace || e.kind == Lock)
  }

  ghost predicate InUse(s: Snapshot, now: int, alive: set<nat>) {
    || s.rootLinked || s.locks.Linked? || s.workspaces.Linked?
    || (exists l :: l in Items(s.locks) && (l.link || Guards(l, now, alive)))
    || (exists w :: w in Items(s.workspaces) && w.link)
  }

  /** It refuses exactly when the artifacts, lock or workspace directory is a link, a lock or
      workspace in them is a link, or some lock is live or still being initialised. */
  lemma CleanAllRefusesExactlyWhenInUse(
    s: Snapshot, now: int, alive: set<nat>, budget: int, collate: Path -> int)
    ensures CleanAllRefuses(Plan(s, now, alive, budget, collate)) <==> InUse(s, now, alive)
  {
    var r := Plan(s, now, alive, budget, collate);
    if s.rootLinked {
      assert r.entries[0] in r.entries;
    } else if InUse(s, now, alive) {
      InUseShows(s, now, alive, budget, collate);
    } else if e :| e in r.entries && e.decision == Protect && (e.kind == Workspace || e.kind == Lock) {
      var src := EntrySource(s, now, alive, budget, collate, e);
      if src.OfCache? {
        var c := CacheSource(s, now, alive, budget, collate, src.c);
      } else if src.OfRun? {
        ExpiredRunsAreDeleted(Items(s.runs), [], now, e);
      }
      assert false;
    }
  }

  lemma InUseShows(s: Snapshot, now: int, alive: set<nat>, budget: int, collate: Path -> int)
    requires InUse(s, now, alive) && !s.rootLinked
    ensures CleanAllRefuses(Plan(s, now, alive, budget, collate))
  {
    var e: Entry;
    if s.locks.Linked? {
      e := Entry(AreaRoot(Locks), Lock, Protect, 0, now);
      RootIsListed(s, now, alive, budget, collate);
    } else if s.workspaces.Linked? {
      e := Entry(AreaRoot(Workspaces), Workspace, Protect, 0, now);
      RootIsListed(s, now, alive, budget, collate);
    } else if l :| l in Items(s.locks) && (l.link || Guards(l, now, alive)) {
      e := LockEntry(l, now, alive);
      SourceIsListed(s, now, alive, budget, collate, OfLock(l), e);
    } else {
      var w :| w in Items(s.workspaces) && w.link;
      e := ProtectedWorkspace(w, now);
      SourceIsListed(s, now, alive, budget, collate, OfLocked(w), e);
    }
    assert e in Plan(s, now, alive, budget, collate).entries;
  }

  lemma RootIsListed(s: Snapshot, now: int, alive: set<nat>, budget: int, collate: Path -> int)
    ensures s.locks.Linked? ==>
              Entry(AreaRoot(Locks), Lock, Protect, 0, now) in Entries(s, now, alive, budget, collate)
    ensures s.workspaces.Linked? ==>
              Entry(AreaRoot(Workspaces), Workspace, Protect, 0, now) in Entries(s, now, alive, budget, collate)
  {
    var locks, workspaces := LockPart(s, now, alive), WorkspacePart(s, Active(s, now, alive), now);
    if s.locks.Linked? {
      InOneOfFive(Entry(AreaRoot(Locks), Lock, Protect, 0, now), locks, workspaces, LinkPart(s, now),
        ToEntries(CacheIn(s, now, alive, budget, collate)), ExpiredRuns(Items(s.runs), [], now));
    }
    if s.workspaces.Linked? {
      InOneOfFive(Entry(AreaRoot(Workspaces), Workspace, Protect, 0, now), locks, workspaces,
        LinkPart(s, now), ToEntries(CacheIn(s, now, alive, budget, collate)),
        ExpiredRuns(Items(s.runs), [], now));
    }
  }

  // ----- Byte accounting -----

  predicate IsCacheEntry(e: Entry) {
    IsCacheKind(e.kind)
  }

  predicate IsKeptCacheEntry(e: Entry) {
    IsCacheKind(e.kind) && e.decision != Delete
  }

  predicate IsDeletedElsewhere(e: Entry) {
    !IsCacheKind(e.kind) && e.decision == Delete
  }

  lemma {:induction false} EntryBytesConcat(a: seq<Entry>, b: seq<Entry>, p: Entry -> bool)
    ensures EntryBytes(a + b, p) == EntryBytes(a, p) + EntryBytes(b, p)
  {
    if a == [] {
      assert a + b == b;
    } else {
      EntryBytesConcat(a[1..], b, p);
      assert (a + b)[1..] == a[1..] + b;
    }
  }

  lemma EntryBytesOfFive(
    a: seq<Entry>, b: seq<Entry>, c: seq<Entry>, d: seq<Entry>, f: seq<Entry>, p: Entry -> bool)
    ensures EntryBytes(a + b + c + d + f, p) ==
            EntryBytes(a, p) + EntryBytes(b, p) + EntryBytes(c, p) + EntryBytes(d, p) + EntryBytes(f, p)
  {
    EntryBytesConcat(a, b, p);
    EntryBytesConcat(a + b, c, p);
    EntryBytesConcat(a + b + c, d, p);
    EntryBytesConcat(a + b + c + d, f, p);
  }

  lemma {:induction false} EntryBytesZero(es: seq<Entry>, p: Entry -> bool)
    requires forall e :: e in es ==> !p(e) || e.size == 0
    ensures EntryBytes(es, p) == 0
  {
    if es != [] {
      EntryBytesZero(es[1..], p);
    }
  }

  lemma {:induction false} EntryBytesSplit(
    es: seq<Entry>, p: Entry -> bool, q: Entry -> bool, r: Entry -> bool)
    requires forall e :: e in es ==> (p(e) <==> q(e) || r(e)) && !(q(e) && r(e))
    ensures EntryBytes(es, p) == EntryBytes(es, q) + EntryBytes(es, r)
  {
    if es != [] {
      EntryBytesSplit(es[1..], p, q, r);
    }
  }

  lemma {:induction false} EntryBytesOfCache(cs: seq<CacheEntry>, p: Entry -> bool, q: CacheEntry -> bool)
    requires forall c :: c in cs ==> p(ToEntry(c)) == q(c)
    ensures EntryBytes(ToEntries(cs), p) == Bytes(cs, q)
  {
    if cs != [] {
      EntryBytesOfCache(cs[1..], p, q);
      assert ToEntries(cs)[1..] == ToEntries(cs[1..]);
    }
  }

  /** Only the cache part of a report has cache bytes. */
  lemma CacheBytesAreInTheCachePart(
    s: Snapshot, now: int, alive: set<nat>, budget: int, collate: Path -> int, p: Entry -> bool)
    requires forall e :: p(e) ==> IsCacheKind(e.kind)
    ensures EntryBytes(Entries(s, now, alive, budget, collate), p) ==
            EntryBytes(ToEntries(CacheIn(s, now, alive, budget, collate)), p)
  {
    var locks, workspaces := LockPart(s, now, alive), WorkspacePart(s, Active(s, now, alive), now);
    var links, runs := LinkPart(s, now), ExpiredRuns(Items(s.runs), [], now);
    EntryBytesOfFive(locks, workspaces, links, ToEntries(CacheIn(s, now, alive, budget, collate)), runs, p);
    LocksHaveNoCacheBytes(s, now, alive, budget, collate, p);
    WorkspacesHaveNoCacheBytes(s, now, alive, budget, collate, p);
    LinksHaveNoCacheBytes(s, now, p);
    RunsHaveNoCacheBytes(s, now, p);
  }

  lemma LinksHaveNoCacheBytes(s: Snapshot, now: int, p: Entry -> bool)
    ensures EntryBytes(LinkPart(s, now), p) == 0
  {
    forall e | e in LinkPart(s, now) ensures e.size == 0 {
      LinkPartSource(s, now, e);
    }
    EntryBytesZero(LinkPart(s, now), p);
  }

  lemma RunsHaveNoCacheBytes(s: Snapshot, now: int, p: Entry -> bool)
    requires forall e :: p(e) ==> IsCacheKind(e.kind)
    ensures EntryBytes(ExpiredRuns(Items(s.runs), [], now), p) == 0
  {
    var runs := ExpiredRuns(Items(s.runs), [], now);
    forall e | e in runs ensures !p(e) {
      ExpiredRunsAreDeleted(Items(s.runs), [], now, e);
    }
    EntryBytesZero(runs, p);
  }

  lemma LocksHaveNoCacheBytes(
    s: Snapshot, now: int, alive: set<nat>, budget: int, collate: Path -> int, p: Entry -> bool)
    requires forall e :: p(e) ==> IsCacheKind(e.kind)
    ensures EntryBytes(LockPart(s, now, alive), p) == 0
  {
    forall e | e in LockPart(s, now, alive) ensures !p(e) {
      var src := LockSource(s, now, alive, budget, collate, e);
    }
    EntryBytesZero(LockPart(s, now, alive), p);
  }

  lemma WorkspacesHaveNoCacheBytes(
    s: Snapshot, now: int, alive: set<nat>, budget: int, collate: Path -> int, p: Entry -> bool)
    requires forall e :: p(e) ==> IsCacheKind(e.kind)
    ensures EntryBytes(WorkspacePart(s, Active(s, now, alive), now), p) == 0
  {
    forall e | e in WorkspacePart(s, Active(s, now, alive), now) ensures !p(e) {
      var src := WorkspaceSource(s, now, alive, budget, collate, e);
    }
    EntryBytesZero(WorkspacePart(s, Active(s, now, alive), now), p);
  }

  lemma CachePartBytes(s: Snapshot, now: int, alive: set<nat>, budget: int, collate: Path -> int)
    ensures var cs := CacheIn(s, now, alive, budget, collate);
            && EntryBytes(ToEntries(cs), IsCacheEntry) == TotalBytes(Collected(s))
            && EntryBytes(ToEntries(cs), IsKeptCacheEntry) ==
               BytesAfter(Collected(s), Active(s, now, alive), budget, collate)
  {
    var es, cs := Collected(s), CacheIn(s, now, alive, budget, collate);
    forall c | c in cs ensures IsCacheKind(c.kind) {
      var e := CacheSource(s, now, alive, budget, collate, c);
    }
    var all, kept := (e: CacheEntry) => true, (e: CacheEntry) => !IsDeleted(e);
    EntryBytesOfCache(cs, IsCacheEntry, all);
    EntryBytesOfCache(cs, IsKeptCacheEntry, kept);
    if Active(s, now, alive) != {} {
      BytesOfMap(es, Protected, all, all);
      BytesOfMap(es, Protected, kept, all);
    } else {
      var gone := Evicted(es, collate, budget);
      BytesOfMap(es, e => Decided(e, gone), all, all);
      FinalBytes(es, gone);
    }
  }

  /** The report's numbers are the sizes of its entries: `before` counts the cache entries, `after`
      those not deleted, and what is reclaimed is the cache decrease plus everything deleted
      elsewhere, each entry counted once. */
  lemma ReportAddsUp(s: Snapshot, now: int, alive: set<nat>, budget: int, collate: Path -> int)
    ensures var r := Plan(s, now, alive, budget, collate);
            && r.before == EntryBytes(r.entries, IsCacheEntry)
            && r.after == EntryBytes(r.entries, IsKeptCacheEntry)
            && r.reclaimed == (r.before - r.after) + EntryBytes(r.entries, IsDeletedElsewhere)
  {
    var r := Plan(s, now, alive, budget, collate);
    var deletedCache := (e: Entry) => IsCacheKind(e.kind) && e.decision == Delete;
    EntryBytesSplit(r.entries, IsCacheEntry, IsKeptCacheEntry, deletedCache);
    EntryBytesSplit(r.entries, IsDeletedEntry, deletedCache, IsDeletedElsewhere);
    if !s.rootLinked {
      CacheBytesAreInTheCachePart(s, now, alive, budget, collate, IsCacheEntry);
      CacheBytesAreInTheCachePart(s, now, alive, budget, collate, IsKeptCacheEntry);
      CachePartBytes(s, now, alive, budget, collate);
    }
  }

  // ----- Budget and references -----

  /** The cache ends within a budget that is not negative exactly when no build is active or it was
      within the budget before. */
  lemma BudgetIsKept(s: Snapshot, now: int, alive: set<nat>, budget: int, collate: Path -> int)
    requires WellFormed(s) && budget >= 0
    ensures var r := Plan(s, now, alive, budget, collate);
            r.after <= budget <==> Active(s, now, alive) == {} || s.rootLinked || r.before <= budget
  {
    CollectedIsWellLinked(s);
    RestFitsBudget(Collected(s), collate, budget);
  }

  /** With no build active, the deleted current entries are the first `k` in least-recently-used
      order, and one eviction fewer would have left the cache above the budget. */
  lemma EvictionIsLeastRecentlyUsed(
    s: Snapshot, now: int, alive: set<nat>, budget: int, collate: Path -> int) returns (k: nat)
    requires WellFormed(s) && Active(s, now, alive) == {}
    ensures var order := Order(Collected(s), collate);
            && k <= |order| && Sorted(order, LeastRecent(collate))
            && (forall e :: e in order <==> e in Collected(s) && Evictable(e))
            && (forall j :: 0 <= j < |order| ==>
                  (order[j].(decision := Delete) in CacheIn(s, now, alive, budget, collate) <==> j < k))
            && (forall j :: 0 <= j < k ==> Remaining(Collected(s), Paths(order[..j])) > budget)
  {
    var es, order := Collected(s), Order(Collected(s), collate);
    CollectedIsWellLinked(s);
    OrderHasEvictables(es, collate);
    OrderIsDistinct(es, collate);
    PathIdentifies(es);
    k := EvictionIsLeastPrefix(es, collate, budget);
    var gone := Evicted(es, collate, budget);
    forall j | 0 <= j < |order|
      ensures order[j].(decision := Delete) in CacheIn(s, now, alive, budget, collate) <==> j < k
    {
      assert order[j] in order;
      assert j < k ==> order[j] in order[..k];
      assert order[j].path in gone <==> j < k;
      var i :| 0 <= i < |es| && es[i] == order[j];
      assert Final(es, gone)[i] == Decided(order[j], gone);
      if order[j].(decision := Delete) in Final(es, gone) {
        var e := MapSource(es, e => Decided(e, gone), order[j].(decision := Delete));
        assert e == order[j];
      }
    }
  }

  /** No index is left without its entry. */
  lemma IndexesKeepTheirEntries(
    s: Snapshot, now: int, alive: set<nat>, budget: int, collate: Path -> int, c: CacheEntry)
    requires WellFormed(s) && c in CacheIn(s, now, alive, budget, collate)
    requires c.decision != Delete && c.linked.Some?
    ensures exists t :: t in CacheIn(s, now, alive, budget, collate) && t.path == c.linked.value
              && t.decision != Delete
  {
    var es := Collected(s);
    CollectedIsWellLinked(s);
    if Active(s, now, alive) != {} {
      var e := MapSource(es, Protected, c);
      var t :| t in es && t.path == e.linked.value;
      MapIn(es, Protected);
      assert Protected(t) in Map(es, Protected);
    } else {
      KeptIndexesHaveEntries(es, Evicted(es, collate, budget), c);
    }
  }
}
