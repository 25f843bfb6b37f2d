/** What a prune of the local artifacts decides about everything below the artifacts directory,
    stated as a function of a directory snapshot. */
module PrunePlan {
  import opened CacheBudget
  import opened Options
  import opened Seqs
  import LockPath

  const FAILED_WORKSPACE_RETENTION: int := 24 * 60 * 60 * 1_000
  const BULKY_RUN_RETENTION: int := 7 * 24 * 60 * 60 * 1_000

  /** A directory that is missing, is itself a symbolic link, or lists its children by name. */
  datatype Listing<T> = Absent | Linked | Present(items: seq<T>)

  datatype LockOwner = LockOwner(pid: nat, workspace: string, startedAt: int)

  datatype LockItem = LockItem(name: string, link: bool, owner: Option<LockOwner>, mtime: int, size: nat)

  datatype WorkspaceItem = WorkspaceItem(name: string, link: bool, mtime: int, size: nat)

  /** `key` is the entry name that a well-formed index file spells out. */
  datatype CacheItem = CacheItem(name: string, link: bool, mtime: int, size: nat, key: Option<string>)

  datatype RunNode =
    | RunLink(name: string)
    | RunOutputFile(name: string, bulky: bool, mtime: int, size: nat)
    | RunDir(name: string, children: seq<RunNode>)

  datatype Snapshot = Snapshot(
    rootLinked: bool,
    locks: Listing<LockItem>, workspaces: Listing<WorkspaceItem>,
    podsV1: Listing<CacheItem>, podsV2: Listing<CacheItem>, podsEntries: Listing<CacheItem>,
    native: Listing<CacheItem>, podsIndexes: Listing<CacheItem>,
    runs: Listing<RunNode>)

  datatype Entry = Entry(path: Path, kind: Kind, decision: Decision, size: nat, lastUsed: int)

  datatype Report = Report(before: nat, after: nat, reclaimed: nat, entries: seq<Entry>)

  function Items<T>(l: Listing<T>): seq<T> {
    if l.Present? then l.items else []
  }

  /** The entry that protects a linked directory from being traversed. */
  function RootEntries<T>(l: Listing<T>, area: Area, kind: Kind, now: int): seq<Entry> {
    if l.Linked? then [Entry(AreaRoot(area), kind, Protect, 0, now)] else []
  }

  // ----- Locks -----

  predicate OwnerAlive(l: LockItem, alive: set<nat>) {
    l.owner.Some? && l.owner.value.pid in alive
  }

  predicate StillInitialising(l: LockItem, now: int) {
    l.owner.None? && now - l.mtime < LockPath.GRACE
  }

  /** The lock keeps a workspace: the one its owner record names, or the one of its own name. */
  predicate Guards(l: LockItem, now: int, alive: set<nat>) {
    !l.link && (OwnerAlive(l, alive) || StillInitialising(l, now))
  }

  function GuardedName(l: LockItem): string {
    if l.owner.Some? then l.owner.value.workspace else l.name
  }

  function ActiveNames(ls: seq<LockItem>, now: int, alive: set<nat>): set<string> {
    set l | l in ls && Guards(l, now, alive) :: GuardedName(l)
  }

  function LockEntry(l: LockItem, now: int, alive: set<nat>): Entry {
    var path := Item(Locks, l.name);
    if l.link then Entry(path, Lock, Protect, 0, now)
    else if OwnerAlive(l, alive) then Entry(path, Lock, Protect, 0, l.owner.value.startedAt)
    else if StillInitialising(l, now) then Entry(path, Lock, Protect, l.size, l.mtime)
    else Entry(path, Lock, Delete, l.size, l.mtime)
  }

  function LockEntries(ls: seq<LockItem>, now: int, alive: set<nat>): seq<Entry> {
    Map(ls, l => LockEntry(l, now, alive))
  }

  function LockPart(s: Snapshot, now: int, alive: set<nat>): seq<Entry> {
    RootEntries(s.locks, Locks, Lock, now) + LockEntries(Items(s.locks), now, alive)
  }

  function Active(s: Snapshot, now: int, alive: set<nat>): set<string> {
    ActiveNames(Items(s.locks), now, alive)
  }

  // ----- Workspaces -----

  predicate Unlocked(w: WorkspaceItem, active: set<string>) {
    !w.link && w.name !in active
  }

  function UnlockedOf(ws: seq<WorkspaceItem>, active: set<string>): seq<WorkspaceItem> {
    Filter(ws, w => Unlocked(w, active))
  }

  predicate NewerFirst(a: WorkspaceItem, b: WorkspaceItem) {
    b.mtime <= a.mtime
  }

  predicate Retained(w: WorkspaceItem, unlocked: seq<WorkspaceItem>, now: int) {
    var newest := Sort(unlocked, NewerFirst);
    newest != [] && w == newest[0] && now - w.mtime < FAILED_WORKSPACE_RETENTION
  }

  function ProtectedWorkspace(w: WorkspaceItem, now: int): Entry {
    Entry(Item(Workspaces, w.name), Workspace, Protect,
      if w.link then 0 else w.size, if w.link then now else w.mtime)
  }

  function UnlockedWorkspace(w: WorkspaceItem, unlocked: seq<WorkspaceItem>, now: int): Entry {
    Entry(Item(Workspaces, w.name), Workspace, if Retained(w, unlocked, now) then Keep else Delete,
      w.size, w.mtime)
  }

  function LockedWorkspaces(ws: seq<WorkspaceItem>, active: set<string>, now: int): seq<Entry> {
    Map(Filter(ws, w => !Unlocked(w, active)), w => ProtectedWorkspace(w, now))
  }

  function UnlockedWorkspaces(unlocked: seq<WorkspaceItem>, now: int): seq<Entry> {
    Map(unlocked, w => UnlockedWorkspace(w, unlocked, now))
  }

  function WorkspacePart(s: Snapshot, active: set<string>, now: int): seq<Entry> {
    var ws := Items(s.workspaces);
    RootEntries(s.workspaces, Workspaces, Workspace, now)
    + LockedWorkspaces(ws, active, now) + UnlockedWorkspaces(UnlockedOf(ws, active), now)
  }

  // ----- Caches -----

  function Owned(i: CacheItem): bool {
    !i.link
  }

  function EntryOf(i: CacheItem, area: Area, kind: Kind, legacy: bool): CacheEntry {
    CacheEntry(Item(area, i.name), kind, if legacy then Delete else Keep, i.size, i.mtime, legacy, None)
  }

  function IndexOf(i: CacheItem, targets: set<Path>): CacheEntry {
    var linked := if i.key.Some? && Item(PodsEntries, i.key.value) in targets
      then Some(Item(PodsEntries, i.key.value)) else None;
    CacheEntry(Item(PodsIndexes, i.name), PodsCache, if linked.None? then Delete else Keep,
      i.size, i.mtime, linked.None?, linked)
  }

  function OwnedItems(items: seq<CacheItem>, area: Area, kind: Kind, legacy: bool): seq<CacheEntry> {
    Map(Filter(items, Owned), i => EntryOf(i, area, kind, legacy))
  }

  function OwnedIndexes(items: seq<CacheItem>, targets: set<Path>): seq<CacheEntry> {
    Map(Filter(items, Owned), i => IndexOf(i, targets))
  }

  function Collect(l: Listing<CacheItem>, area: Area, kind: Kind, legacy: bool): seq<CacheEntry> {
    OwnedItems(Items(l), area, kind, legacy)
  }

  function CollectIndexes(l: Listing<CacheItem>, targets: set<Path>): seq<CacheEntry> {
    OwnedIndexes(Items(l), targets)
  }

  function CollectedEntries(s: Snapshot): seq<CacheEntry> {
    Collect(s.podsV1, PodsV1, PodsCache, true)
    + Collect(s.podsV2, PodsV2, PodsCache, true)
    + Collect(s.podsEntries, PodsEntries, PodsCache, false)
    + Collect(s.native, NativeEntries, NativeCache, false)
  }

  function Collected(s: Snapshot): seq<CacheEntry> {
    CollectedEntries(s) + CollectIndexes(s.podsIndexes, Paths(CollectedEntries(s)))
  }

  function LinkEntry(i: CacheItem, area: Area, kind: Kind, now: int): Entry {
    Entry(Item(area, i.name), kind, Protect, 0, now)
  }

  function LinkedItems(items: seq<CacheItem>, area: Area, kind: Kind, now: int): seq<Entry> {
    Map(Filter(items, i => !Owned(i)), i => LinkEntry(i, area, kind, now))
  }

  /** Entries for a linked cache directory and for links inside one. */
  function LinkEntries(l: Listing<CacheItem>, area: Area, kind: Kind, now: int): seq<Entry> {
    RootEntries(l, area, kind, now) + LinkedItems(Items(l), area, kind, now)
  }

  function LinkPart(s: Snapshot, now: int): seq<Entry> {
    LinkEntries(s.podsV1, PodsV1, PodsCache, now)
    + LinkEntries(s.podsV2, PodsV2, PodsCache, now)
    + LinkEntries(s.podsEntries, PodsEntries, PodsCache, now)
    + LinkEntries(s.native, NativeEntries, NativeCache, now)
    + LinkEntries(s.podsIndexes, PodsIndexes, PodsCache, now)
  }

  function ToEntry(e: CacheEntry): Entry {
    Entry(e.path, e.kind, e.decision, e.size, e.lastUsed)
  }

  function Protected(e: CacheEntry): CacheEntry {
    e.(decision := Protect)
  }

  function CacheDecisions(es: seq<CacheEntry>, active: set<string>, budget: int, collate: Path -> int)
    : seq<CacheEntry>
  {
    if active != {} then Map(es, Protected) else Final(es, Evicted(es, collate, budget))
  }

  function ToEntries(es: seq<CacheEntry>): seq<Entry> {
    Map(es, ToEntry)
  }

  function TotalBytes(es: seq<CacheEntry>): nat {
    Bytes(es, e => true)
  }

  function BytesAfter(es: seq<CacheEntry>, active: set<string>, budget: int, collate: Path -> int): nat {
    if active != {} then TotalBytes(es) else Remaining(es, Evicted(es, collate, budget))
  }

  // ----- Run outputs -----

  predicate ExpiredOutput(n: RunNode, now: int) {
    n.RunOutputFile? && n.bulky && now - n.mtime >= BULKY_RUN_RETENTION
  }

  function ExpiredRuns(ns: seq<RunNode>, dir: seq<string>, now: int): seq<Entry> {
    if ns == [] then [] else
    var first := match ns[0]
      case RunLink(_) => []
      case RunDir(name, children) => ExpiredRuns(children, dir + [name], now)
      case RunOutputFile(name, _, mtime, size) =>
        if ExpiredOutput(ns[0], now)
        then [Entry(RunFile(dir + [name]), RunOutput, Delete, size, mtime)] else [];
    first + ExpiredRuns(ns[1..], dir, now)
  }

  // ----- The plan -----

  function EntryBytes(es: seq<Entry>, p: Entry -> bool): nat {
    if es == [] then 0 else (if p(es[0]) then es[0].size else 0) + EntryBytes(es[1..], p)
  }

  predicate IsDeletedEntry(e: Entry) {
    e.decision == Delete
  }

  function Entries(s: Snapshot, now: int, alive: set<nat>, budget: int, collate: Path -> int): seq<Entry> {
    var active := Active(s, now, alive);
    LockPart(s, now, alive) + WorkspacePart(s, active, now) + LinkPart(s, now)
    + ToEntries(CacheDecisions(Collected(s), active, budget, collate))
    + ExpiredRuns(Items(s.runs), [], now)
  }

  function Plan(s: Snapshot, now: int, alive: set<nat>, budget: int, collate: Path -> int): Report {
    if s.rootLinked then Report(0, 0, 0, [Entry(ArtifactsRoot, Workspace, Protect, 0, now)])
    else
      var es := Collected(s);
      var entries := Entries(s, now, alive, budget, collate);
      Report(TotalBytes(es), BytesAfter(es, Active(s, now, alive), budget, collate),
        EntryBytes(entries, IsDeletedEntry), entries)
  }

  function DeletedPaths(es: seq<Entry>): set<Path> {
    set e | e in es && e.decision == Delete :: e.path
  }

  /** Children of one directory have different names. */
  ghost predicate WellFormed(s: Snapshot) {
    && (forall i, j :: 0 <= i < j < |Items(s.locks)| ==> Items(s.locks)[i].name != Items(s.locks)[j].name)
    && (forall i, j :: 0 <= i < j < |Items(s.workspaces)| ==>
          Items(s.workspaces)[i].name != Items(s.workspaces)[j].name)
    && DistinctNames(Items(s.podsV1)) && DistinctNames(Items(s.podsV2))
    && DistinctNames(Items(s.podsEntries)) && DistinctNames(Items(s.native))
    && DistinctNames(Items(s.podsIndexes))
  }

  ghost predicate DistinctNames(items: seq<CacheItem>) {
    forall i, j :: 0 <= i < j < |items| ==> items[i].name != items[j].name
  }

  // ----- One more item of each scan -----

  lemma LockPush(ls: seq<LockItem>, l: LockItem, now: int, alive: set<nat>)
    ensures LockEntries(ls + [l], now, alive) == LockEntries(ls, now, alive) + [LockEntry(l, now, alive)]
    ensures ActiveNames(ls + [l], now, alive) ==
            ActiveNames(ls, now, alive) + if Guards(l, now, alive) then {GuardedName(l)} else {}
  {
  }

  lemma WorkspacePush(ws: seq<WorkspaceItem>, w: WorkspaceItem, active: set<string>, now: int)
    ensures UnlockedOf(ws + [w], active) ==
            UnlockedOf(ws, active) + if Unlocked(w, active) then [w] else []
    ensures LockedWorkspaces(ws + [w], active, now) ==
            LockedWorkspaces(ws, active, now)
            + if Unlocked(w, active) then [] else [ProtectedWorkspace(w, now)]
  {
    FilterPush(ws, w, w => Unlocked(w, active));
    ScanPush(ws, w, w => !Unlocked(w, active), w => ProtectedWorkspace(w, now));
  }

  lemma CachePush(items: seq<CacheItem>, i: CacheItem, area: Area, kind: Kind, legacy: bool, now: int)
    ensures LinkedItems(items + [i], area, kind, now) ==
            LinkedItems(items, area, kind, now) + if i.link then [LinkEntry(i, area, kind, now)] else []
    ensures OwnedItems(items + [i], area, kind, legacy) ==
            OwnedItems(items, area, kind, legacy) + if i.link then [] else [EntryOf(i, area, kind, legacy)]
  {
    ScanPush(items, i, i => !Owned(i), i => LinkEntry(i, area, kind, now));
    ScanPush(items, i, Owned, i => EntryOf(i, area, kind, legacy));
  }

  lemma IndexPush(items: seq<CacheItem>, i: CacheItem, targets: set<Path>)
    ensures OwnedIndexes(items + [i], targets) ==
            OwnedIndexes(items, targets) + if i.link then [] else [IndexOf(i, targets)]
  {
    ScanPush(items, i, Owned, i => IndexOf(i, targets));
  }

  // ----- What the scan collects is well linked -----

  lemma {:induction false} NamesStayDistinct(items: seq<CacheItem>)
    requires DistinctNames(items)
    ensures DistinctNames(Filter(items, Owned))
  {
    if items != [] {
      NamesStayDistinct(items[1..]);
      FilterIn(items[1..], Owned);
      assert forall i :: i in items[1..] ==> i.name != items[0].name;
    }
  }

  ghost predicate DistinctPaths(es: seq<CacheEntry>) {
    forall i, j :: 0 <= i < j < |es| ==> es[i].path != es[j].path
  }

  predicate InArea(p: Path, area: Area) {
    p.Item? && p.area == area
  }

  lemma CollectedInArea(l: Listing<CacheItem>, area: Area, kind: Kind, legacy: bool)
    requires DistinctNames(Items(l))
    ensures DistinctPaths(Collect(l, area, kind, legacy))
    ensures forall e :: e in Collect(l, area, kind, legacy) ==>
              && InArea(e.path, area) && e.legacy == legacy && e.linked.None?
              && e.decision == if legacy then Delete else Keep
  {
    NamesStayDistinct(Items(l));
  }

  lemma CollectedIndexes(l: Listing<CacheItem>, targets: set<Path>)
    requires DistinctNames(Items(l))
    ensures DistinctPaths(CollectIndexes(l, targets))
    ensures forall e :: e in CollectIndexes(l, targets) ==>
              && InArea(e.path, PodsIndexes) && e.legacy == e.linked.None?
              && e.decision == (if e.legacy then Delete else Keep)
              && (e.linked.Some? ==> e.linked.value in targets && InArea(e.linked.value, PodsEntries))
  {
    NamesStayDistinct(Items(l));
  }

  lemma DistinctConcat(a: seq<CacheEntry>, b: seq<CacheEntry>)
    requires DistinctPaths(a) && DistinctPaths(b)
    requires forall e, u :: e in a && u in b ==> e.path != u.path
    ensures DistinctPaths(a + b)
  {
  }

  lemma CollectedIsWellLinked(s: Snapshot)
    requires WellFormed(s)
    ensures WellLinked(Collected(s))
  {
    var v1 := Collect(s.podsV1, PodsV1, PodsCache, true);
    var v2 := Collect(s.podsV2, PodsV2, PodsCache, true);
    var v3 := Collect(s.podsEntries, PodsEntries, PodsCache, false);
    var native := Collect(s.native, NativeEntries, NativeCache, false);
    var entries := CollectedEntries(s);
    var indexes := CollectIndexes(s.podsIndexes, Paths(entries));
    CollectedInArea(s.podsV1, PodsV1, PodsCache, true);
    CollectedInArea(s.podsV2, PodsV2, PodsCache, true);
    CollectedInArea(s.podsEntries, PodsEntries, PodsCache, false);
    CollectedInArea(s.native, NativeEntries, NativeCache, false);
    CollectedIndexes(s.podsIndexes, Paths(entries));
    DistinctConcat(v1, v2);
    DistinctConcat(v1 + v2, v3);
    DistinctConcat(v1 + v2 + v3, native);
    DistinctConcat(entries, indexes);
    forall e | e in Collected(s) && e.linked.Some?
      ensures !e.legacy && exists t :: t in Collected(s) && t.path == e.linked.value && Evictable(t)
    {
      assert e in indexes;
      var t :| t in entries && t.path == e.linked.value;
      assert t in v3 && t in Collected(s);
    }
  }
}
