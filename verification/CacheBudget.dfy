/** Which cache entries a prune deletes: obsolete ones, and least recently used ones together with
    their indexes until the rest fits the byte budget. */
module CacheBudget {
  import opened Options
  import opened Seqs

  datatype Area = Locks | Workspaces | PodsV1 | PodsV2 | PodsEntries | PodsIndexes | NativeEntries

  datatype Path =
    | ArtifactsRoot
    | AreaRoot(area: Area)
    | Item(area: Area, name: string)
    | RunFile(segments: seq<string>)

  datatype Kind = Workspace | PodsCache | NativeCache | RunOutput | Lock

  datatype Decision = Delete | Keep | Protect

  /** `linked` is the entry an index refers to; an index that refers to none is legacy. */
  datatype CacheEntry = CacheEntry(
    path: Path, kind: Kind, decision: Decision, size: nat, lastUsed: int,
    legacy: bool, linked: Option<Path>)

  /** What a scan collects: one entry a path, obsolete ones marked, links into current entries. */
  ghost predicate WellLinked(es: seq<CacheEntry>) {
    && (forall i, j :: 0 <= i < j < |es| ==> es[i].path != es[j].path)
    && (forall e :: e in es ==> e.decision == if e.legacy then Delete else Keep)
    && (forall e :: e in es && e.linked.Some? ==>
          !e.legacy && exists t :: t in es && t.path == e.linked.value && Evictable(t))
  }

  predicate Evictable(e: CacheEntry) {
    !e.legacy && e.linked.None?
  }

  function Bytes(es: seq<CacheEntry>, p: CacheEntry -> bool): nat {
    if es == [] then 0 else (if p(es[0]) then es[0].size else 0) + Bytes(es[1..], p)
  }

  /** Not deleted once the entries at `gone` are. */
  predicate Survives(e: CacheEntry, gone: set<Path>) {
    !e.legacy && e.path !in gone && (e.linked.Some? ==> e.linked.value !in gone)
  }

  predicate RefersTo(e: CacheEntry, p: Path) {
    e.linked == Some(p)
  }

  function IndexBytes(es: seq<CacheEntry>, p: Path): nat {
    Bytes(es, e => RefersTo(e, p))
  }

  predicate IsDeleted(e: CacheEntry) {
    e.decision == Delete
  }

  predicate IsLegacy(e: CacheEntry) {
    e.legacy
  }

  function LegacyBytes(es: seq<CacheEntry>): nat {
    Bytes(es, IsLegacy)
  }

  function Remaining(es: seq<CacheEntry>, gone: set<Path>): nat {
    Bytes(es, e => Survives(e, gone))
  }

  /** Oldest use first, then path order; `collate` stands for the collation of path names. */
  function LeastRecent(collate: Path -> int): (CacheEntry, CacheEntry) -> bool {
    (a: CacheEntry, b: CacheEntry) =>
      a.lastUsed < b.lastUsed || (a.lastUsed == b.lastUsed && collate(a.path) <= collate(b.path))
  }

  function Order(es: seq<CacheEntry>, collate: Path -> int): seq<CacheEntry> {
    Sort(Filter(es, Evictable), LeastRecent(collate))
  }

  function Paths(es: seq<CacheEntry>): set<Path> {
    set e | e in es :: e.path
  }

  function EvictFrom(es: seq<CacheEntry>, order: seq<CacheEntry>, gone: set<Path>, budget: int): set<Path>
    decreases |order|
  {
    if order == [] || Remaining(es, gone) <= budget then gone
    else EvictFrom(es, order[1..], gone + {order[0].path}, budget)
  }

  function Evicted(es: seq<CacheEntry>, collate: Path -> int, budget: int): set<Path> {
    EvictFrom(es, Order(es, collate), {}, budget)
  }

  function Decided(e: CacheEntry, gone: set<Path>): CacheEntry {
    e.(decision := if Survives(e, gone) then Keep else Delete)
  }

  /** The collected entries with the decisions the budget leads to. */
  function Final(es: seq<CacheEntry>, gone: set<Path>): seq<CacheEntry> {
    Map(es, e => Decided(e, gone))
  }

  // ----- Byte counting -----

  lemma {:induction false} BytesAgree(es: seq<CacheEntry>, p: CacheEntry -> bool, q: CacheEntry -> bool)
    requires forall e :: e in es ==> p(e) == q(e)
    ensures Bytes(es, p) == Bytes(es, q)
  {
    if es != [] {
      BytesAgree(es[1..], p, q);
    }
  }

  lemma {:induction false} BytesSplit(
    es: seq<CacheEntry>, p: CacheEntry -> bool, q: CacheEntry -> bool, r: CacheEntry -> bool)
    requires forall e :: e in es ==> (p(e) <==> q(e) || r(e)) && !(q(e) && r(e))
    ensures Bytes(es, p) == Bytes(es, q) + Bytes(es, r)
  {
    if es != [] {
      BytesSplit(es[1..], p, q, r);
    }
  }

  lemma {:induction false} BytesOfNone(es: seq<CacheEntry>, p: CacheEntry -> bool)
    requires forall e :: e in es ==> !p(e)
    ensures Bytes(es, p) == 0
  {
    if es != [] {
      BytesOfNone(es[1..], p);
    }
  }

  lemma {:induction false} BytesOfOne(es: seq<CacheEntry>, p: CacheEntry -> bool, i: nat)
    requires i < |es| && forall j :: 0 <= j < |es| ==> (p(es[j]) <==> j == i)
    ensures Bytes(es, p) == es[i].size
  {
    if i == 0 {
      BytesOfNone(es[1..], p);
    } else {
      BytesOfOne(es[1..], p, i - 1);
    }
  }

  lemma {:induction false} BytesOfFilter(es: seq<CacheEntry>, p: CacheEntry -> bool, q: CacheEntry -> bool)
    ensures Bytes(Filter(es, p), q) == Bytes(es, e => p(e) && q(e))
  {
    if es != [] {
      BytesOfFilter(es[1..], p, q);
    }
  }

  lemma {:induction false} BytesOfMap(
    es: seq<CacheEntry>, f: CacheEntry -> CacheEntry, p: CacheEntry -> bool, q: CacheEntry -> bool)
    requires forall e :: e in es ==> f(e).size == e.size && p(f(e)) == q(e)
    ensures Bytes(Map(es, f), p) == Bytes(es, q)
  {
    if es != [] {
      BytesOfMap(es[1..], f, p, q);
      assert Map(es, f)[1..] == Map(es[1..], f);
    }
  }

  lemma {:induction false} BytesPush(es: seq<CacheEntry>, e: CacheEntry, p: CacheEntry -> bool)
    ensures Bytes(es + [e], p) == Bytes(es, p) + if p(e) then e.size else 0
  {
    if es != [] {
      BytesPush(es[1..], e, p);
      assert (es + [e])[1..] == es[1..] + [e];
    }
  }

  lemma PathIdentifies(es: seq<CacheEntry>)
    requires WellLinked(es)
    ensures forall e, u :: e in es && u in es && e.path == u.path ==> e == u
  {
    forall e, u | e in es && u in es && e.path == u.path ensures e == u {
      var j :| 0 <= j < |es| && es[j] == e;
      var k :| 0 <= k < |es| && es[k] == u;
    }
  }

  /** Before any eviction, everything but the legacy entries remains. */
  lemma BeforeEviction(es: seq<CacheEntry>)
    requires WellLinked(es)
    ensures Remaining(es, {}) == Bytes(es, e => true) - LegacyBytes(es)
    ensures Final(es, {}) == es
  {
    BytesSplit(es, e => true, e => Survives(e, {}), IsLegacy);
    assert forall e :: e in es ==> Decided(e, {}) == e;
  }

  /** The running total of the loop: evicting one entry takes its own bytes and those of its indexes,
      each counted once, off what remains. */
  lemma EvictingOne(es: seq<CacheEntry>, gone: set<Path>, t: CacheEntry)
    requires WellLinked(es) && t in es && Evictable(t) && t.path !in gone
    requires forall p :: p in gone ==> exists e :: e in es && Evictable(e) && e.path == p
    ensures Remaining(es, gone) ==
            Remaining(es, gone + {t.path}) + t.size + IndexBytes(es, t.path)
  {
    var one := (e: CacheEntry) => e.path == t.path;
    var indexes := (e: CacheEntry) => RefersTo(e, t.path);
    var either := (e: CacheEntry) => e.path == t.path || RefersTo(e, t.path);
    var i :| 0 <= i < |es| && es[i] == t;
    BytesOfOne(es, one, i);
    PathIdentifies(es);
    BytesSplit(es, either, one, indexes);
    BytesSplit(es, e => Survives(e, gone), e => Survives(e, gone + {t.path}), either);
  }

  lemma LeastRecentIsOrder(collate: Path -> int)
    ensures TotalOrder(LeastRecent(collate))
  {
  }

  lemma OrderHasEvictables(es: seq<CacheEntry>, collate: Path -> int)
    ensures Sorted(Order(es, collate), LeastRecent(collate))
    ensures forall e :: e in Order(es, collate) <==> e in es && Evictable(e)
    ensures |Order(es, collate)| == |Filter(es, Evictable)|
  {
    LeastRecentIsOrder(collate);
    FilterIn(es, Evictable);
    SortSorts(Filter(es, Evictable), LeastRecent(collate));
  }

  lemma OrderIsDistinct(es: seq<CacheEntry>, collate: Path -> int)
    requires WellLinked(es)
    ensures var order := Order(es, collate);
            forall i, j :: 0 <= i < j < |order| ==> order[i].path != order[j].path
  {
    FilterDistinct(es, Evictable);
    FilterIn(es, Evictable);
    SortDistinct(Filter(es, Evictable), LeastRecent(collate));
    PathIdentifies(es);
  }

  // ----- The main results about eviction -----

  /** Evicted are the first `k` of the current entries in least-recently-used order, and `k` is the
      least that fits the budget: with fewer evictions the rest is still too big. */
  lemma {:induction false} EvictFromIsLeastPrefix(
    es: seq<CacheEntry>, order: seq<CacheEntry>, n: nat, budget: int) returns (k: nat)
    requires n <= |order|
    requires forall j :: 0 <= j < n ==> Remaining(es, Paths(order[..j])) > budget
    ensures n <= k <= |order|
    ensures EvictFrom(es, order[n..], Paths(order[..n]), budget) == Paths(order[..k])
    ensures forall j :: 0 <= j < k ==> Remaining(es, Paths(order[..j])) > budget
    ensures k < |order| ==> Remaining(es, Paths(order[..k])) <= budget
    decreases |order| - n
  {
    if n == |order| || Remaining(es, Paths(order[..n])) <= budget {
      k := n;
    } else {
      assert order[..n + 1] == order[..n] + [order[n]];
      assert Paths(order[..n + 1]) == Paths(order[..n]) + {order[n].path};
      assert order[n..][1..] == order[n + 1..];
      k := EvictFromIsLeastPrefix(es, order, n + 1, budget);
    }
  }

  lemma EvictionIsLeastPrefix(es: seq<CacheEntry>, collate: Path -> int, budget: int) returns (k: nat)
    ensures var order := Order(es, collate);
            && k <= |order| && Sorted(order, LeastRecent(collate))
            && Evicted(es, collate, budget) == Paths(order[..k])
            && (forall j :: 0 <= j < k ==> Remaining(es, Paths(order[..j])) > budget)
            && (k < |order| ==> Remaining(es, Paths(order[..k])) <= budget)
  {
    OrderHasEvictables(es, collate);
    var order := Order(es, collate);
    assert order[0..] == order && Paths(order[..0]) == {};
    k := EvictFromIsLeastPrefix(es, order, 0, budget);
  }

  /** The rest fits any budget that is not negative; only an empty rest exceeds a negative one. */
  lemma RestFitsBudget(es: seq<CacheEntry>, collate: Path -> int, budget: int)
    requires WellLinked(es)
    ensures var rest := Remaining(es, Evicted(es, collate, budget));
            rest <= budget || (rest == 0 && forall e :: e in es ==> !Survives(e, Evicted(es, collate, budget)))
  {
    var k := EvictionIsLeastPrefix(es, collate, budget);
    var order := Order(es, collate);
    var gone := Evicted(es, collate, budget);
    if k == |order| {
      OrderHasEvictables(es, collate);
      assert order[..k] == order;
      forall e | e in es ensures !Survives(e, gone) {
        if Evictable(e) {
          assert e in order;
        } else if e.linked.Some? {
          var t :| t in es && t.path == e.linked.value && Evictable(t);
          assert t in order;
        }
      }
      BytesOfNone(es, e => Survives(e, gone));
    }
  }

  /** No kept index is left without its entry. */
  lemma KeptIndexesHaveEntries(es: seq<CacheEntry>, gone: set<Path>, e: CacheEntry)
    requires WellLinked(es) && e in Final(es, gone) && e.decision != Delete && e.linked.Some?
    ensures exists t :: t in Final(es, gone) && t.path == e.linked.value && t.decision == Keep
  {
    var i :| 0 <= i < |es| && Final(es, gone)[i] == e;
    var t :| t in es && t.path == es[i].linked.value && Evictable(t);
    var j :| 0 <= j < |es| && es[j] == t;
    assert Final(es, gone)[j] == Decided(t, gone);
  }

  /** The bytes not deleted are the bytes that remain. */
  lemma FinalBytes(es: seq<CacheEntry>, gone: set<Path>)
    ensures Bytes(Final(es, gone), e => !IsDeleted(e)) == Remaining(es, gone)
    ensures Bytes(Final(es, gone), IsDeleted) ==
            Bytes(es, e => true) - Remaining(es, gone)
  {
    var survives := e => Survives(e, gone);
    BytesOfMap(es, e => Decided(e, gone), e => !IsDeleted(e), survives);
    BytesOfMap(es, e => Decided(e, gone), IsDeleted, e => !Survives(e, gone));
    BytesSplit(es, e => true, survives, e => !Survives(e, gone));
  }

  /** Pruning what a prune has left evicts nothing. */
  lemma SurvivorsSurvive(es: seq<CacheEntry>, collate: Path -> int, budget: int)
    requires WellLinked(es)
    ensures var gone := Evicted(es, collate, budget);
            var rest := Filter(es, e => Survives(e, gone));
            && Evicted(rest, collate, budget) == {}
            && forall e :: e in rest ==> Survives(e, {})
  {
    var gone := Evicted(es, collate, budget);
    var p := e => Survives(e, gone);
    var q := e => Survives(e, {});
    var rest := Filter(es, p);
    RestFitsBudget(es, collate, budget);
    FilterIn(es, p);
    BytesOfFilter(es, p, q);
    BytesAgree(es, e => p(e) && q(e), p);
    assert Remaining(rest, {}) == Remaining(es, gone);
    if Remaining(es, gone) > budget {
      assert rest == [];
      OrderHasEvictables(rest, collate);
    }
  }
}
