/** Numbered database migrations: one transaction reads the latest recorded id, records every later
    migration of its loader and runs them. Several runs may overlap. */
module Migrations {
  import opened Options
  import opened Runs
  import opened Seqs

  datatype Migration = Migration(id: nat, name: string)

  datatype Failure = Duplicates | ImportError | SqlFailure | MigrationFailed

  /** An empty `Completed` also stands for the "Locked" outcome, which the migrator reports that way. */
  datatype Result = Completed(ran: seq<Migration>) | Failed(failure: Failure)

  /** What can go wrong in one transaction: migrations that do not import, migrations whose effect
      fails, and a failing insert. */
  datatype Faults = Faults(broken: set<nat>, failing: set<nat>, insert: bool)

  // ----- Loaders -----

  predicate ById(a: Migration, b: Migration) {
    a.id <= b.id
  }

  /** The provided loaders: entries whose key does not parse are dropped, the others sorted by id. */
  function Load(entries: seq<Option<Migration>>): seq<Migration> {
    Sort(Map(Filter(entries, (e: Option<Migration>) => e.Some?), Parsed), ById)
  }

  function Parsed(e: Option<Migration>): Migration {
    if e.Some? then e.value else Migration(0, "")
  }

  function Ids(ms: seq<Migration>): set<nat> {
    set m | m in ms :: m.id
  }

  /** No id twice: the check the migrator makes before anything else. */
  predicate Unique(ms: seq<Migration>) {
    forall i, j :: 0 <= i < j < |ms| ==> ms[i].id != ms[j].id
  }

  predicate Increasing(ms: seq<Migration>) {
    forall i, j :: 0 <= i < j < |ms| ==> ms[i].id < ms[j].id
  }

  /** A provided loader yields exactly the entries that parse, in order of id. */
  lemma LoadedInOrder(entries: seq<Option<Migration>>)
    ensures Sorted(Load(entries), ById)
    ensures forall m :: m in Load(entries) <==> Some(m) in entries
    ensures Unique(Load(entries)) ==> Increasing(Load(entries))
  {
    var some := Filter(entries, (e: Option<Migration>) => e.Some?);
    FilterIn(entries, (e: Option<Migration>) => e.Some?);
    MapIn(some, Parsed);
    SortSorts(Map(some, Parsed), ById);
    forall m ensures m in Load(entries) <==> Some(m) in entries {
      if Some(m) in entries {
        assert Parsed(Some(m)) in Map(some, Parsed);
      }
    }
  }

  // ----- One transaction -----

  lemma {:induction false} LargestExists(ids: set<nat>)
    requires ids != {}
    ensures exists l :: l in ids && forall i :: i in ids ==> i <= l
  {
    var i :| i in ids;
    var rest := ids - {i};
    assert forall j :: j in ids ==> j == i || j in rest;
    if rest == {} {
      assert forall j :: j in ids ==> j <= i;
    } else {
      LargestExists(rest);
      var l :| l in rest && forall j :: j in rest ==> j <= l;
      var largest := if i > l then i else l;
      assert largest in ids;
    }
  }

  /** The largest recorded id, or 0 for an empty table. */
  function Latest(ids: set<nat>): (l: nat)
    ensures forall i :: i in ids ==> i <= l
    ensures if ids == {} then l == 0 else l in ids
  {
    if ids == {} then 0
    else
      LargestExists(ids);
      var l :| l in ids && forall i :: i in ids ==> i <= l;
      l
  }

  function Pending(ms: seq<Migration>, latest: nat): seq<Migration> {
    Filter(ms, (m: Migration) => m.id > latest)
  }

  /** The transaction of a run that read `latest`, against the table at its commit: the rows it adds,
      or the result without any. */
  datatype Verdict = Commit(rows: seq<Migration>) | Rollback(result: Result)

  function Attempt(recorded: set<nat>, loader: seq<Migration>, latest: nat, faults: Faults): Verdict {
    var required := Pending(loader, latest);
    if !Unique(loader) then Rollback(Failed(Duplicates))
    else if Ids(required) * faults.broken != {} then Rollback(Failed(ImportError))
    else if required != [] && faults.insert then Rollback(Failed(SqlFailure))
    else if Ids(required) * recorded != {} then Rollback(Completed([]))
    else if Ids(required) * faults.failing != {} then Rollback(Failed(MigrationFailed))
    else Commit(required)
  }

  function Rows(ms: seq<Migration>): map<nat, string>
    requires Unique(ms)
  {
    map m | m in ms :: m.id := m.name
  }

  // ----- Overlapping runs -----

  datatype Phase = Waiting | Reading(latest: nat) | Done(result: Result)

  /** The committed table and execution history, and the runs: run `r` uses `loaders[r]`. */
  datatype State = State(
    table: map<nat, string>, log: seq<Migration>, loaders: seq<seq<Migration>>, phases: seq<Phase>)

  datatype Step = Read(r: nat) | Finish(r: nat, faults: Faults)

  predicate Enabled(s: State, a: Step) {
    && a.r < |s.phases| == |s.loaders|
    && (if a.Read? then s.phases[a.r].Waiting? else s.phases[a.r].Reading?)
  }

  ghost function Apply(s: State, a: Step): State
    requires Enabled(s, a)
  {
    match a
    case Read(r) => s.(phases := s.phases[r := Reading(Latest(s.table.Keys))])
    case Finish(r, faults) =>
      match Attempt(s.table.Keys, s.loaders[r], s.phases[r].latest, faults)
      case Rollback(result) => s.(phases := s.phases[r := Done(result)])
      case Commit(rows) =>
        PendingIsUnique(s.loaders[r], s.phases[r].latest);
        s.(table := s.table + Rows(rows), log := s.log + rows, phases := s.phases[r := Done(Completed(rows))])
  }

  lemma PendingIn(ms: seq<Migration>, latest: nat)
    ensures forall m :: m in Pending(ms, latest) <==> m in ms && m.id > latest
  {
    FilterIn(ms, (m: Migration) => m.id > latest);
  }

  lemma {:induction false} PendingIsUnique(ms: seq<Migration>, latest: nat)
    requires Unique(ms)
    ensures Unique(Pending(ms, latest))
  {
    if ms != [] {
      PendingIsUnique(ms[1..], latest);
      PendingIn(ms[1..], latest);
      assert forall m :: m in ms[1..] ==> m.id != ms[0].id;
    }
  }

  lemma {:induction false} PendingIsSorted(ms: seq<Migration>, latest: nat)
    requires Sorted(ms, ById)
    ensures Sorted(Pending(ms, latest), ById)
  {
    if ms != [] {
      PendingIsSorted(ms[1..], latest);
      PendingIn(ms[1..], latest);
      assert forall m :: m in ms[1..] ==> ById(ms[0], m);
    }
  }

  lemma {:induction false} NothingPending(ms: seq<Migration>, latest: nat)
    requires forall m :: m in ms ==> m.id <= latest
    ensures Pending(ms, latest) == []
  {
    if ms != [] {
      NothingPending(ms[1..], latest);
    }
  }

  /** Of two loaders one has all migrations of the other: the set of migrations only grows. */
  ghost predicate Growing(loaders: seq<seq<Migration>>) {
    forall i, j :: 0 <= i < |loaders| && 0 <= j < |loaders| ==>
      (forall m :: m in loaders[i] ==> m in loaders[j]) || (forall m :: m in loaders[j] ==> m in loaders[i])
  }

  /** The greatest id of a sorted list; 0 for an empty one, as for an empty table. */
  function Greatest(ms: seq<Migration>): nat {
    if ms == [] then 0 else ms[|ms| - 1].id
  }

  /** The smaller of the greatest ids is an id of both loaders, unless one of them never commits. */
  predicate Aligned(a: seq<Migration>, b: seq<Migration>) {
    Unique(a) && Unique(b) && Greatest(a) > 0 && Greatest(b) > 0 ==>
      var m := Min(Greatest(a), Greatest(b));
      m in Ids(a) && m in Ids(b)
  }

  ghost predicate AllAligned(loaders: seq<seq<Migration>>) {
    forall i, j :: 0 <= i < |loaders| && 0 <= j < |loaders| ==> Aligned(loaders[i], loaders[j])
  }

  ghost predicate AllSorted(loaders: seq<seq<Migration>>) {
    forall r :: 0 <= r < |loaders| ==> Sorted(loaders[r], ById)
  }

  lemma GreatestIsLast(ms: seq<Migration>, m: Migration)
    requires Sorted(ms, ById) && m in ms
    ensures m.id <= Greatest(ms) && ms[|ms| - 1] in ms
  {
    var i :| 0 <= i < |ms| && ms[i] == m;
    assert i < |ms| - 1 ==> ById(ms[i], ms[|ms| - 1]);
  }

  /** Loaders one of which has all migrations of the other are aligned; so a set of migrations that only
      grows never loses the order. */
  lemma NestedAreAligned(a: seq<Migration>, b: seq<Migration>)
    requires Sorted(a, ById) && Sorted(b, ById) && forall m :: m in a ==> m in b
    ensures Aligned(a, b) && Aligned(b, a)
  {
    if a != [] {
      var last := a[|a| - 1];
      assert last in a && last in b;
      GreatestIsLast(b, last);
      assert last.id in Ids(a) && last.id in Ids(b);
    }
  }

  lemma GrowingAreAligned(loaders: seq<seq<Migration>>)
    requires AllSorted(loaders) && Growing(loaders)
    ensures AllAligned(loaders)
  {
    forall i, j | 0 <= i < |loaders| && 0 <= j < |loaders| ensures Aligned(loaders[i], loaders[j]) {
      if forall m :: m in loaders[i] ==> m in loaders[j] {
        NestedAreAligned(loaders[i], loaders[j]);
      } else {
        NestedAreAligned(loaders[j], loaders[i]);
      }
    }
  }

  /** A run that read `latest` can commit nothing any more. */
  ghost predicate Stale(s: State, loader: seq<Migration>, latest: nat) {
    var required := Pending(loader, latest);
    !Unique(loader) || required == [] || Ids(required) * s.table.Keys != {}
  }

  /** The table has its initial rows and exactly one row for every executed migration. */
  ghost predicate Holds(table: map<nat, string>, base: map<nat, string>, log: seq<Migration>) {
    && table.Keys == base.Keys + Ids(log)
    && (forall i :: i in base && i !in Ids(log) ==> table[i] == base[i])
    && (forall m :: m in log ==> table[m.id] == m.name)
  }

  ghost predicate Ordered(s: State) {
    |s.phases| == |s.loaders| && AllSorted(s.loaders) && AllAligned(s.loaders)
  }

  /** The executed migrations increase, above everything recorded at first. */
  ghost predicate History(log: seq<Migration>, first: nat) {
    Increasing(log) && forall m :: m in log ==> m.id > first
  }

  ghost predicate Readings(s: State)
    requires |s.phases| == |s.loaders|
  {
    forall r :: 0 <= r < |s.phases| && s.phases[r].Reading? ==>
      s.phases[r].latest == Latest(s.table.Keys) || Stale(s, s.loaders[r], s.phases[r].latest)
  }

  ghost predicate Inv(s: State, base: map<nat, string>) {
    Ordered(s) && History(s.log, Latest(base.Keys)) && Holds(s.table, base, s.log) && Readings(s)
  }

  lemma RowsAre(ms: seq<Migration>)
    requires Unique(ms)
    ensures Rows(ms).Keys == Ids(ms)
    ensures forall m :: m in ms ==> Rows(ms)[m.id] == m.name
  {
  }

  lemma HoldsMore(table: map<nat, string>, base: map<nat, string>, log: seq<Migration>, rows: seq<Migration>)
    requires Holds(table, base, log) && Unique(rows) && Ids(rows) * table.Keys == {}
    ensures Holds(table + Rows(rows), base, log + rows)
  {
    RowsAre(rows);
    assert Ids(log + rows) == Ids(log) + Ids(rows);
    forall m | m in log + rows ensures (table + Rows(rows))[m.id] == m.name {
      if m in log {
        assert m.id in table.Keys;
        assert m.id in Ids(rows) ==> m.id in Ids(rows) * table.Keys;
      }
    }
  }

  lemma LogGrows(log: seq<Migration>, rows: seq<Migration>, latest: nat)
    requires Increasing(log) && Unique(rows) && Sorted(rows, ById)
    requires forall m :: m in log ==> m.id <= latest
    requires forall m :: m in rows ==> m.id > latest
    ensures Increasing(log + rows)
  {
    forall i, j | 0 <= i < j < |rows| ensures rows[i].id < rows[j].id {
      assert ById(rows[i], rows[j]);
    }
  }

  lemma CommitIs(s: State, r: nat, faults: Faults)
    requires Enabled(s, Finish(r, faults))
    requires Attempt(s.table.Keys, s.loaders[r], s.phases[r].latest, faults).Commit?
    ensures var rows := Pending(s.loaders[r], s.phases[r].latest);
            && Unique(s.loaders[r]) && Unique(rows) && Ids(rows) * s.table.Keys == {}
            && Apply(s, Finish(r, faults)) == s.(
                 table := s.table + Rows(rows), log := s.log + rows,
                 phases := s.phases[r := Done(Completed(rows))])
  {
    PendingIsUnique(s.loaders[r], s.phases[r].latest);
  }

  /** Committing the pending migrations of a run whose reading is current. */
  lemma CommitKeepsHistory(s: State, r: nat, base: map<nat, string>)
    requires Inv(s, base) && r < |s.loaders| && s.phases[r].Reading? && Unique(s.loaders[r])
    requires s.phases[r].latest == Latest(s.table.Keys)
    ensures History(s.log + Pending(s.loaders[r], s.phases[r].latest), Latest(base.Keys))
  {
    var loader, latest := s.loaders[r], s.phases[r].latest;
    PendingIn(loader, latest);
    PendingIsUnique(loader, latest);
    PendingIsSorted(loader, latest);
    forall m | m in s.log ensures m.id <= latest {
      assert m.id in s.table.Keys;
    }
    LogGrows(s.log, Pending(loader, latest), latest);
    LatestGrows(base.Keys, s.table.Keys);
  }

  lemma CommitKeepsInv(s: State, r: nat, faults: Faults, base: map<nat, string>)
    requires Inv(s, base) && Enabled(s, Finish(r, faults))
    requires Attempt(s.table.Keys, s.loaders[r], s.phases[r].latest, faults).Commit?
    requires Pending(s.loaders[r], s.phases[r].latest) != []
    ensures Inv(Apply(s, Finish(r, faults)), base)
  {
    var rows := Pending(s.loaders[r], s.phases[r].latest);
    var t := Apply(s, Finish(r, faults));
    CommitIs(s, r, faults);
    CommitKeepsHistory(s, r, base);
    HoldsMore(s.table, base, s.log, rows);
    RowsAre(rows);
    forall q | 0 <= q < |t.phases| && t.phases[q].Reading?
      ensures Stale(t, t.loaders[q], t.phases[q].latest)
    {
      OthersGoStale(s, t, rows, q, r);
    }
  }

  lemma OthersGoStale(s: State, t: State, rows: seq<Migration>, q: nat, r: nat)
    requires q < |s.loaders| == |s.phases| && r < |s.loaders| && Ordered(s) && Unique(s.loaders[r])
    requires s.phases[q].Reading? && s.phases[r].Reading? && s.phases[r].latest == Latest(s.table.Keys)
    requires s.phases[q].latest == Latest(s.table.Keys) || Stale(s, s.loaders[q], s.phases[q].latest)
    requires rows == Pending(s.loaders[r], s.phases[r].latest) && rows != []
    requires t.table.Keys == s.table.Keys + Ids(rows)
    ensures Stale(t, s.loaders[q], s.phases[q].latest)
  {
    if !Stale(s, s.loaders[q], s.phases[q].latest) {
      SomeRowIsShared(s.loaders[r], s.loaders[q], s.phases[r].latest);
      var shared := Min(Greatest(s.loaders[r]), Greatest(s.loaders[q]));
      assert shared in Ids(Pending(s.loaders[q], s.phases[q].latest)) * t.table.Keys;
    }
  }

  lemma PendingBelowGreatest(ms: seq<Migration>, latest: nat)
    requires Sorted(ms, ById) && Pending(ms, latest) != []
    ensures latest < Greatest(ms) && Greatest(ms) in Ids(Pending(ms, latest))
  {
    PendingIn(ms, latest);
    var m := Pending(ms, latest)[0];
    assert m in Pending(ms, latest);
    GreatestIsLast(ms, m);
    assert ms[|ms| - 1] in Pending(ms, latest);
  }

  lemma PendingIds(ms: seq<Migration>, latest: nat, id: nat)
    ensures id in Ids(Pending(ms, latest)) <==> id in Ids(ms) && id > latest
  {
    PendingIn(ms, latest);
  }

  /** Runs of aligned loaders that read the same latest id have a pending id in common. */
  lemma SomeRowIsShared(a: seq<Migration>, b: seq<Migration>, latest: nat)
    requires Sorted(a, ById) && Sorted(b, ById) && Unique(a) && Unique(b) && Aligned(a, b)
    requires Pending(a, latest) != [] && Pending(b, latest) != []
    ensures Min(Greatest(a), Greatest(b)) in Ids(Pending(a, latest)) * Ids(Pending(b, latest))
  {
    PendingBelowGreatest(a, latest);
    PendingBelowGreatest(b, latest);
    PendingIds(a, latest, Min(Greatest(a), Greatest(b)));
    PendingIds(b, latest, Min(Greatest(a), Greatest(b)));
  }

  /** Two non-empty sets of pending migrations of one sorted list share the list's greatest id. */
  lemma PendingSharesGreatest(ms: seq<Migration>, l1: nat, l2: nat)
    requires Sorted(ms, ById) && Pending(ms, l1) != [] && Pending(ms, l2) != []
    ensures ms[|ms| - 1] in Pending(ms, l1) && ms[|ms| - 1] in Pending(ms, l2)
  {
    PendingIn(ms, l1);
    PendingIn(ms, l2);
    var m1, m2 := Pending(ms, l1)[0], Pending(ms, l2)[0];
    assert m1 in ms && m2 in ms;
  }

  /** Every other step keeps table and history. */
  lemma OtherStepsChangeNothing(s: State, a: Step)
    requires Enabled(s, a)
    requires a.Finish? && Attempt(s.table.Keys, s.loaders[a.r], s.phases[a.r].latest, a.faults).Commit? ==>
               Pending(s.loaders[a.r], s.phases[a.r].latest) == []
    ensures var t := Apply(s, a);
            && t == s.(phases := t.phases) && |t.phases| == |s.phases|
            && (forall q :: 0 <= q < |s.phases| && q != a.r ==> t.phases[q] == s.phases[q])
            && (t.phases[a.r].Reading? ==> t.phases[a.r].latest == Latest(s.table.Keys))
  {
    if a.Finish? && Attempt(s.table.Keys, s.loaders[a.r], s.phases[a.r].latest, a.faults).Commit? {
      CommitIs(s, a.r, a.faults);
      RowsAre([]);
      assert s.table + Rows([]) == s.table;
    }
  }

  lemma StepKeepsInv(s: State, a: Step, base: map<nat, string>)
    requires Inv(s, base) && Enabled(s, a)
    ensures Inv(Apply(s, a), base)
  {
    if a.Finish? && Attempt(s.table.Keys, s.loaders[a.r], s.phases[a.r].latest, a.faults).Commit?
      && Pending(s.loaders[a.r], s.phases[a.r].latest) != [] {
      CommitKeepsInv(s, a.r, a.faults, base);
    } else {
      OtherStepsChangeNothing(s, a);
    }
  }

  /** A run of the whole system. */
  type Trace = Runs.Trace<State, Step>

  ghost function End(tr: Trace): State {
    match tr
    case Start(s) => s
    case Then(past, a) => var s := End(past); if Enabled(s, a) then Apply(s, a) else s
  }

  ghost predicate Valid(tr: Trace, base: map<nat, string>) {
    match tr
    case Start(s) =>
      && s.table == base && s.log == [] && |s.phases| == |s.loaders|
      && (forall r :: 0 <= r < |s.loaders| ==> s.phases[r].Waiting?)
    case Then(past, a) => Valid(past, base) && Enabled(End(past), a)
  }

  /** Whatever the loaders, runs that overlap, read at whatever points, fail and are rolled back never
      commit an id twice, and the table holds its initial rows and exactly the rows of the committed
      migrations. */
  lemma {:induction false} NoMigrationCommitsTwice(tr: Trace, base: map<nat, string>)
    requires Valid(tr, base)
    ensures Unique(End(tr).log) && Ids(End(tr).log) * base.Keys == {}
    ensures Holds(End(tr).table, base, End(tr).log) && |End(tr).phases| == |End(tr).loaders|
  {
    if tr.Then? {
      var s, a := End(tr.past), tr.a;
      NoMigrationCommitsTwice(tr.past, base);
      if a.Finish? && Attempt(s.table.Keys, s.loaders[a.r], s.phases[a.r].latest, a.faults).Commit?
        && Pending(s.loaders[a.r], s.phases[a.r].latest) != [] {
        var rows := Pending(s.loaders[a.r], s.phases[a.r].latest);
        CommitIs(s, a.r, a.faults);
        HoldsMore(s.table, base, s.log, rows);
        UniqueConcat(s.log, rows);
      } else {
        OtherStepsChangeNothing(s, a);
      }
    }
  }

  lemma UniqueConcat(a: seq<Migration>, b: seq<Migration>)
    requires Unique(a) && Unique(b) && Ids(a) * Ids(b) == {}
    ensures Unique(a + b) && Ids(a + b) == Ids(a) + Ids(b)
  {
    forall i, j | 0 <= i < |a| && 0 <= j < |b| ensures a[i].id != b[j].id {
      assert a[i].id in Ids(a) && b[j].id in Ids(b);
      var x := a[i].id;
      assert x in Ids(b) ==> x in Ids(a) * Ids(b);
    }
  }

  /** With sorted and aligned loaders the committed migrations are executed in strictly increasing
      order of id, all above the ids recorded at first. */
  lemma {:induction false} HistoryIsIncreasing(tr: Trace, base: map<nat, string>)
    requires Valid(tr, base) && Ordered(Origin(tr))
    ensures Inv(End(tr), base)
    ensures Increasing(End(tr).log) && forall m :: m in End(tr).log ==> m.id > Latest(base.Keys)
  {
    if tr.Then? {
      HistoryIsIncreasing(tr.past, base);
      StepKeepsInv(End(tr.past), tr.a, base);
    }
  }

  /** When another run has committed since run `r` read the latest id, `r` changes nothing: it
      completes with an empty list, unless it fails before it gets to its effects. */
  lemma OverlappedRunChangesNothing(tr: Trace, base: map<nat, string>, r: nat, faults: Faults)
    requires Valid(tr, base) && Ordered(Origin(tr)) && Enabled(End(tr), Finish(r, faults))
    requires End(tr).phases[r].latest != Latest(End(tr).table.Keys)
    ensures var s, t := End(tr), Apply(End(tr), Finish(r, faults));
            && t.table == s.table && t.log == s.log
            && t.phases[r].Done?
            && EndsAs(t.phases[r].result, s.table.Keys, s.loaders[r], s.phases[r].latest, faults)
            && (t.phases[r].result == Completed([])
                || t.phases[r].result in {Failed(Duplicates), Failed(ImportError), Failed(SqlFailure)})
  {
    HistoryIsIncreasing(tr, base);
    StaleRunChangesNothing(End(tr), r, faults);
  }

  lemma StaleRunChangesNothing(s: State, r: nat, faults: Faults)
    requires Enabled(s, Finish(r, faults)) && Stale(s, s.loaders[r], s.phases[r].latest)
    ensures var t := Apply(s, Finish(r, faults));
            && t.table == s.table && t.log == s.log
            && t.phases[r].Done?
            && EndsAs(t.phases[r].result, s.table.Keys, s.loaders[r], s.phases[r].latest, faults)
            && (t.phases[r].result == Completed([])
                || t.phases[r].result in {Failed(Duplicates), Failed(ImportError), Failed(SqlFailure)})
  {
    FinishEndsAs(s, r, faults);
    PendingMeets(s.loaders[r], s.phases[r].latest, s.table.Keys);
    PendingExists(s.loaders[r], s.phases[r].latest);
    if Attempt(s.table.Keys, s.loaders[r], s.phases[r].latest, faults).Commit? {
      CommitIs(s, r, faults);
      RowsAre([]);
      assert s.table + Rows([]) == s.table;
    }
  }

  /** No reading is ahead of the table. */
  lemma {:induction false} ReadingsAreOld(tr: Trace, base: map<nat, string>, r: nat)
    requires Valid(tr, base)
    ensures var s := End(tr);
            r < |s.phases| && s.phases[r].Reading? ==> s.phases[r].latest <= Latest(s.table.Keys)
  {
    if tr.Then? {
      ReadingsAreOld(tr.past, base, r);
      LatestGrows(End(tr.past).table.Keys, End(tr).table.Keys);
    }
  }

  /** Something in `ids` is pending after `latest`. */
  ghost predicate SomePending(ids: set<nat>, loader: seq<Migration>, latest: nat) {
    exists m :: m in loader && m.id > latest && m.id in ids
  }

  /** In every run of the system, with any loaders: after a run that succeeds with its transaction, a
      migration of its loader is recorded exactly when it was before or its id is above the id read (so
      id 0 never runs); and running the same loader again, whatever fails, runs nothing. */
  lemma RerunRunsNothing(tr: Trace, base: map<nat, string>, r: nat, faults: Faults, faults': Faults)
    requires Valid(tr, base) && Enabled(End(tr), Finish(r, faults))
    requires var s := End(tr); Attempt(s.table.Keys, s.loaders[r], s.phases[r].latest, faults).Commit?
    ensures var s, t := End(tr), Apply(End(tr), Finish(r, faults));
            && (forall m :: m in s.loaders[r] ==>
                  (m.id in t.table <==> m.id in s.table || m.id > s.phases[r].latest))
            && Attempt(t.table.Keys, s.loaders[r], Latest(t.table.Keys), faults') == Commit([])
  {
    ReadingsAreOld(tr, base, r);
    CommittedLoaderIsDone(End(tr), r, faults, faults');
  }

  lemma CommittedLoaderIsDone(s: State, r: nat, faults: Faults, faults': Faults)
    requires Enabled(s, Finish(r, faults)) && s.phases[r].latest <= Latest(s.table.Keys)
    requires Attempt(s.table.Keys, s.loaders[r], s.phases[r].latest, faults).Commit?
    ensures var t := Apply(s, Finish(r, faults));
            && (forall m :: m in s.loaders[r] ==>
                  (m.id in t.table <==> m.id in s.table || m.id > s.phases[r].latest))
            && Attempt(t.table.Keys, s.loaders[r], Latest(t.table.Keys), faults') == Commit([])
  {
    var loader, latest := s.loaders[r], s.phases[r].latest;
    var t := Apply(s, Finish(r, faults));
    var rows := Pending(loader, latest);
    PendingIn(loader, latest);
    CommitIs(s, r, faults);
    RowsAre(rows);
    forall m | m in loader
      ensures m.id in t.table <==> m.id in s.table || m.id > latest
      ensures m.id <= Latest(t.table.Keys)
    {
      if m.id > latest {
        assert m in rows && m.id in t.table.Keys;
      }
    }
    LatestGrows(s.table.Keys, t.table.Keys);
    NothingPending(loader, Latest(t.table.Keys));
    NothingToRun(t.table.Keys, loader, Latest(t.table.Keys), faults');
  }

  lemma NothingToRun(recorded: set<nat>, loader: seq<Migration>, latest: nat, faults: Faults)
    requires Unique(loader) && Pending(loader, latest) == []
    ensures Attempt(recorded, loader, latest, faults) == Commit([])
  {
    assert Ids([]) == {};
  }

  /** A loader whose only migration has id 0 succeeds on an empty table without running or recording
      it. */
  lemma IdZeroIsNotRun(name: string)
    ensures var s := State(map[], [], [[Migration(0, name)]], [Reading(0)]);
            && Valid(Then(Start(s.(phases := [Waiting])), Read(0)), map[])
            && End(Then(Start(s.(phases := [Waiting])), Read(0))) == s
            && Apply(s, Finish(0, NoFaults)) == s.(phases := [Done(Completed([]))])
  {
    var s := State(map[], [], [[Migration(0, name)]], [Reading(0)]);
    NothingPending(s.loaders[0], 0);
    NothingToRun({}, s.loaders[0], 0, NoFaults);
    CommitIs(s, 0, NoFaults);
    RowsAre([]);
  }

  lemma LatestGrows(a: set<nat>, b: set<nat>)
    requires a <= b
    ensures Latest(a) <= Latest(b)
  {
  }

  const NoFaults := Faults({}, {}, false)

  // ----- When the order is lost -----

  /** The opposite of aligned, for loaders that can commit: `b` has nothing at the greatest id of `a`
      but something above it. */
  predicate Overtakes(a: seq<Migration>, b: seq<Migration>) {
    Unique(a) && Unique(b) && 0 < Greatest(a) < Greatest(b) && Greatest(a) !in Ids(b)
  }

  lemma NotAlignedOvertakes(a: seq<Migration>, b: seq<Migration>)
    ensures Aligned(a, b) <==> !Overtakes(a, b) && !Overtakes(b, a)
  {
    assert forall ms: seq<Migration> :: ms != [] ==> ms[|ms| - 1] in ms;
  }

  /** Aligned is what it takes: the pending ids meet whatever latest id both runs have read. */
  lemma AlignedExactlyWhenPendingMeets(a: seq<Migration>, b: seq<Migration>)
    requires Sorted(a, ById) && Sorted(b, ById) && Unique(a) && Unique(b)
    ensures Aligned(a, b) <==>
              forall l: nat :: Pending(a, l) != [] && Pending(b, l) != [] ==>
                Ids(Pending(a, l)) * Ids(Pending(b, l)) != {}
  {
    if Aligned(a, b) {
      forall l: nat | Pending(a, l) != [] && Pending(b, l) != []
        ensures Ids(Pending(a, l)) * Ids(Pending(b, l)) != {}
      {
        SomeRowIsShared(a, b, l);
      }
    } else {
      NotAlignedOvertakes(a, b);
      if Overtakes(a, b) {
        OvertakingPending(a, b);
      } else {
        OvertakingPending(b, a);
      }
    }
  }

  /** Read just below the greatest id of `a`, the pending migrations are above it in `b` only. */
  lemma OvertakingPending(a: seq<Migration>, b: seq<Migration>)
    requires Sorted(a, ById) && Sorted(b, ById) && Overtakes(a, b)
    ensures var l := Greatest(a) - 1;
            && Pending(a, l) != [] && Pending(b, l) != []
            && Ids(Pending(a, l)) * Ids(Pending(b, l)) == {}
            && Pending(a, l)[0].id < Pending(b, l)[0].id
            && l !in Ids(Pending(a, l)) && l !in Ids(Pending(b, l))
  {
    var l := Greatest(a) - 1;
    PendingIn(a, l);
    PendingIn(b, l);
    assert a[|a| - 1] in a && b[|b| - 1] in b;
    assert a[|a| - 1] in Pending(a, l) && b[|b| - 1] in Pending(b, l);
    forall m | m in Pending(a, l) ensures m.id == Greatest(a) {
      GreatestIsLast(a, m);
    }
    forall m | m in Pending(b, l) ensures m.id > Greatest(a) {
      assert m.id in Ids(b);
    }
    assert Pending(a, l)[0] in Pending(a, l) && Pending(b, l)[0] in Pending(b, l);
  }

  /** A table whose latest id is `l`: the empty one for 0. */
  function TableWith(l: nat): map<nat, string> {
    if l == 0 then map[] else map[l := ""]
  }

  lemma LatestOfTable(l: nat)
    ensures Latest(TableWith(l).Keys) == l && TableWith(l).Keys <= {l}
  {
    assert l > 0 ==> TableWith(l).Keys == {l};
  }

  /** All runs still to begin on a table whose latest id is `l`. */
  function Fresh(loaders: seq<seq<Migration>>, l: nat): State {
    State(TableWith(l), [], loaders, seq(|loaders|, _ => Waiting))
  }

  lemma BothHaveRead(loaders: seq<seq<Migration>>, l: nat, q: nat, r: nat) returns (tr: Trace)
    requires q < |loaders| && r < |loaders| && q != r
    ensures Valid(tr, TableWith(l)) && Origin(tr) == Fresh(loaders, l)
    ensures End(tr) == Fresh(loaders, l).(phases := Fresh(loaders, l).phases[q := Reading(l)][r := Reading(l)])
  {
    var s := Fresh(loaders, l);
    LatestOfTable(l);
    tr := Start(s);
    assert |s.phases| == |s.loaders| && s.phases[q] == Waiting && s.phases[r] == Waiting;
    assert Valid(tr, TableWith(l)) && End(tr) == s;
    tr := Then(tr, Read(q));
    assert Valid(tr, TableWith(l)) && Origin(tr) == s;
    assert End(tr) == s.(phases := s.phases[q := Reading(l)]);
    tr := Then(tr, Read(r));
  }

  /** One more run commits. */
  lemma Committed(tr: Trace, base: map<nat, string>, r: nat) returns (tr': Trace)
    requires Valid(tr, base) && Enabled(End(tr), Finish(r, NoFaults)) && Unique(End(tr).loaders[r])
    requires Ids(Pending(End(tr).loaders[r], End(tr).phases[r].latest)) * End(tr).table.Keys == {}
    ensures Valid(tr', base) && Origin(tr') == Origin(tr)
    ensures var s := End(tr);
            var rows := Pending(s.loaders[r], s.phases[r].latest);
            && End(tr').table.Keys == s.table.Keys + Ids(rows) && End(tr').log == s.log + rows
            && End(tr').loaders == s.loaders && End(tr').phases == s.phases[r := Done(Completed(rows))]
  {
    tr' := Then(tr, Finish(r, NoFaults));
    CommitIs(End(tr), r, NoFaults);
    RowsAre(Pending(End(tr).loaders[r], End(tr).phases[r].latest));
  }

  /** Both read before either finishes; the run with the greater id commits first, and nothing keeps the
      other from committing after it. */
  lemma OvertakingLosesOrder(loaders: seq<seq<Migration>>, q: nat, r: nat)
    returns (tr: Trace, base: map<nat, string>)
    requires AllSorted(loaders) && q < |loaders| && r < |loaders| && Overtakes(loaders[q], loaders[r])
    ensures base == TableWith(Greatest(loaders[q]) - 1)
    ensures Valid(tr, base) && Origin(tr).loaders == loaders && !Increasing(End(tr).log)
  {
    var l := Greatest(loaders[q]) - 1;
    var a, b := Pending(loaders[q], l), Pending(loaders[r], l);
    OvertakingPending(loaders[q], loaders[r]);
    base := TableWith(l);
    LatestOfTable(l);
    tr := BothHaveRead(loaders, l, q, r);
    assert Ids(b) * base.Keys == {};
    tr := Committed(tr, base, r);
    assert End(tr).log == b && End(tr).table.Keys == base.Keys + Ids(b);
    assert Ids(a) * (base.Keys + Ids(b)) == {};
    tr := Committed(tr, base, q);
    assert End(tr).log == b + a && (b + a)[0] == b[0] && (b + a)[|b|] == a[0];
  }

  /** Sorted loaders keep the committed history increasing, over every interleaving, initial table and
      pattern of failures, if and only if each two of them are aligned. */
  lemma HistoryIncreasesExactlyWhenAligned(loaders: seq<seq<Migration>>)
    requires AllSorted(loaders)
    ensures (forall tr, base :: Valid(tr, base) && Origin(tr).loaders == loaders ==> Increasing(End(tr).log))
            <==> AllAligned(loaders)
  {
    if AllAligned(loaders) {
      forall tr, base | Valid(tr, base) && Origin(tr).loaders == loaders ensures Increasing(End(tr).log) {
        OriginIsComplete(tr, base);
        HistoryIsIncreasing(tr, base);
      }
    } else {
      var i, j :| 0 <= i < |loaders| && 0 <= j < |loaders| && !Aligned(loaders[i], loaders[j]);
      NotAlignedOvertakes(loaders[i], loaders[j]);
      var q := if Overtakes(loaders[i], loaders[j]) then i else j;
      var r := if q == i then j else i;
      var tr, base := OvertakingLosesOrder(loaders, q, r);
      assert Valid(tr, base) && Origin(tr).loaders == loaders && !Increasing(End(tr).log);
    }
  }

  lemma {:induction false} OriginIsComplete(tr: Trace, base: map<nat, string>)
    requires Valid(tr, base)
    ensures |Origin(tr).phases| == |Origin(tr).loaders|
  {
    if tr.Then? {
      OriginIsComplete(tr.past, base);
    }
  }

  /** A concrete case: two runs with unrelated loaders both commit, the greater id first. */
  lemma DisjointLoadersRunOutOfOrder(a: Migration, b: Migration) returns (tr: Trace, base: map<nat, string>)
    requires 0 < a.id < b.id
    ensures Valid(tr, base) && Origin(tr).loaders == [[a], [b]] && !Increasing(End(tr).log)
    ensures a.id == 1 ==> base == map[]
  {
    assert Greatest([a]) == a.id && Greatest([b]) == b.id && Ids([b]) == {b.id};
    tr, base := OvertakingLosesOrder([[a], [b]], 0, 1);
  }

  // ----- How a transaction ends -----

  /** The result of a run that read `latest`, from the recorded ids, its loader and what goes wrong: each
      failure has its own cause, and a conflict with a recorded id is no failure but an empty completion,
      whatever effects would fail. */
  ghost predicate EndsAs(
    result: Result, recorded: set<nat>, loader: seq<Migration>, latest: nat, faults: Faults)
  {
    var repeated := exists i, j :: 0 <= i < j < |loader| && loader[i].id == loader[j].id;
    var broken := SomePending(faults.broken, loader, latest);
    var refused := faults.insert && exists m :: m in loader && m.id > latest;
    var conflict := SomePending(recorded, loader, latest);
    var failing := SomePending(faults.failing, loader, latest);
    && (result == Failed(Duplicates) <==> repeated)
    && (result == Failed(ImportError) <==> !repeated && broken)
    && (result == Failed(SqlFailure) <==> !repeated && !broken && refused)
    && (result == Failed(MigrationFailed) <==> !repeated && !broken && !refused && !conflict && failing)
    && (!repeated && !broken && !refused && conflict ==> result == Completed([]))
    && (!repeated && !broken && !refused && !conflict && !failing ==>
          result.Completed? && Sublist(result.ran, loader)
          && (forall m :: m in result.ran <==> m in loader && m.id > latest))
  }

  /** In the order of the loader, nothing twice. */
  ghost predicate Sublist(ms: seq<Migration>, loader: seq<Migration>) {
    exists at: seq<nat> :: |at| == |ms| && (forall i, j :: 0 <= i < j < |at| ==> at[i] < at[j])
      && forall i :: 0 <= i < |at| ==> at[i] < |loader| && loader[at[i]] == ms[i]
  }

  lemma {:induction false} PendingIsSublist(ms: seq<Migration>, latest: nat) returns (at: seq<nat>)
    ensures |at| == |Pending(ms, latest)| && forall i, j :: 0 <= i < j < |at| ==> at[i] < at[j]
    ensures forall i :: 0 <= i < |at| ==> at[i] < |ms| && ms[at[i]] == Pending(ms, latest)[i]
  {
    if ms == [] {
      at := [];
    } else {
      var front, last := ms[..|ms| - 1], ms[|ms| - 1];
      assert ms == front + [last];
      at := PendingIsSublist(front, latest);
      FilterPush(front, last, (m: Migration) => m.id > latest);
      if last.id > latest {
        at := at + [|ms| - 1];
      }
    }
  }

  lemma PendingMeets(loader: seq<Migration>, latest: nat, ids: set<nat>)
    ensures Ids(Pending(loader, latest)) * ids != {} <==> SomePending(ids, loader, latest)
  {
    PendingIn(loader, latest);
    if SomePending(ids, loader, latest) {
      var m :| m in loader && m.id > latest && m.id in ids;
      assert m in Pending(loader, latest) && m.id in Ids(Pending(loader, latest)) * ids;
    }
  }

  lemma PendingExists(loader: seq<Migration>, latest: nat)
    ensures Pending(loader, latest) != [] <==> exists m :: m in loader && m.id > latest
  {
    PendingIn(loader, latest);
    if Pending(loader, latest) != [] {
      assert Pending(loader, latest)[0] in Pending(loader, latest);
    }
  }

  lemma AttemptEndsAs(recorded: set<nat>, loader: seq<Migration>, latest: nat, faults: Faults)
    ensures match Attempt(recorded, loader, latest, faults)
            case Rollback(result) => EndsAs(result, recorded, loader, latest, faults)
            case Commit(rows) => EndsAs(Completed(rows), recorded, loader, latest, faults)
  {
    PendingMeets(loader, latest, faults.broken);
    PendingMeets(loader, latest, faults.failing);
    PendingMeets(loader, latest, recorded);
    PendingExists(loader, latest);
    PendingIn(loader, latest);
    var at := PendingIsSublist(loader, latest);
    assert Unique(loader) <==> !(exists i, j :: 0 <= i < j < |loader| && loader[i].id == loader[j].id);
    if Attempt(recorded, loader, latest, faults).Commit? {
      assert Sublist(Pending(loader, latest), loader);
    }
  }

  /** What a finished transaction leaves behind. */
  ghost predicate Leaves(t: State, s: State, result: Result) {
    && (result.Failed? || result.ran == [] ==> t.table == s.table && t.log == s.log)
    && (result.Completed? ==> t.log == s.log + result.ran && t.table.Keys == s.table.Keys + Ids(result.ran))
  }

  lemma CommitLeaves(s: State, r: nat, faults: Faults)
    requires Enabled(s, Finish(r, faults))
    requires Attempt(s.table.Keys, s.loaders[r], s.phases[r].latest, faults).Commit?
    ensures var rows := Pending(s.loaders[r], s.phases[r].latest);
            && Apply(s, Finish(r, faults)).phases[r] == Done(Completed(rows))
            && Leaves(Apply(s, Finish(r, faults)), s, Completed(rows))
  {
    CommitIs(s, r, faults);
    RowsAre(Pending(s.loaders[r], s.phases[r].latest));
    RowsAre([]);
    assert s.table + Rows([]) == s.table;
  }

  lemma RollbackLeaves(s: State, r: nat, faults: Faults)
    requires Enabled(s, Finish(r, faults))
    requires Attempt(s.table.Keys, s.loaders[r], s.phases[r].latest, faults).Rollback?
    ensures var result := Attempt(s.table.Keys, s.loaders[r], s.phases[r].latest, faults).result;
            && Apply(s, Finish(r, faults)).phases[r] == Done(result)
            && Leaves(Apply(s, Finish(r, faults)), s, result)
  {
    assert Ids([]) == {};
  }

  /** Every transaction of the system ends that way, and all that is not a non-empty completion leaves
      table and history alone. */
  lemma FinishEndsAs(s: State, r: nat, faults: Faults)
    requires Enabled(s, Finish(r, faults))
    ensures var t := Apply(s, Finish(r, faults));
            && t.phases[r].Done?
            && EndsAs(t.phases[r].result, s.table.Keys, s.loaders[r], s.phases[r].latest, faults)
            && Leaves(t, s, t.phases[r].result)
  {
    AttemptEndsAs(s.table.Keys, s.loaders[r], s.phases[r].latest, faults);
    if Attempt(s.table.Keys, s.loaders[r], s.phases[r].latest, faults).Commit? {
      CommitLeaves(s, r, faults);
      CommitIs(s, r, faults);
    } else {
      RollbackLeaves(s, r, faults);
    }
  }

  /** A conflict is "Locked": an empty completion, also where the effects would fail. */
  lemma ConflictCompletesEmpty(s: State, r: nat, faults: Faults)
    requires Enabled(s, Finish(r, faults)) && Unique(s.loaders[r]) && !faults.insert
    requires !SomePending(faults.broken, s.loaders[r], s.phases[r].latest)
    requires SomePending(s.table.Keys, s.loaders[r], s.phases[r].latest)
    ensures Apply(s, Finish(r, faults)) == s.(phases := s.phases[r := Done(Completed([]))])
  {
    FinishEndsAs(s, r, faults);
    PendingMeets(s.loaders[r], s.phases[r].latest, s.table.Keys);
  }

  // ----- The migrator -----

  lemma UniquePush(ms: seq<Migration>, m: Migration)
    ensures Ids(ms + [m]) == Ids(ms) + {m.id}
    ensures Unique(ms + [m]) <==> Unique(ms) && m.id !in Ids(ms)
  {
    var longer := ms + [m];
    if Unique(longer) {
      forall i, j | 0 <= i < j < |ms| ensures ms[i].id != ms[j].id {
        assert longer[i].id != longer[j].id;
      }
      forall u | u in ms ensures u.id != m.id {
        var i :| 0 <= i < |ms| && ms[i] == u;
        assert longer[i].id != longer[|ms|].id;
      }
    }
  }

  /** Counting the different ids, as the migrator does, detects duplicates. */
  lemma {:induction false} UniqueByCount(ms: seq<Migration>)
    ensures |Ids(ms)| <= |ms|
    ensures |Ids(ms)| == |ms| <==> Unique(ms)
  {
    if ms != [] {
      var front, last := ms[..|ms| - 1], ms[|ms| - 1];
      assert ms == front + [last];
      UniqueByCount(front);
      UniquePush(front, last);
      if last.id in Ids(front) {
        assert Ids(ms) == Ids(front);
      } else {
        assert |Ids(ms)| == |Ids(front)| + 1;
      }
    }
  }

  class Migrator {
    var table: map<nat, string>
    var executed: seq<Migration>

    constructor (table: map<nat, string>)
      ensures this.table == table && executed == []
    {
      this.table, executed := table, [];
    }

    /** Imports the migrations after `latest`, up to the first that does not import. */
    method Import(loader: seq<Migration>, latest: nat, broken: set<nat>)
      returns (ok: bool, required: seq<Migration>)
      ensures ok <==> Ids(Pending(loader, latest)) * broken == {}
      ensures ok ==> required == Pending(loader, latest)
    {
      PendingIn(loader, latest);
      required := [];
      for i := 0 to |loader|
        invariant required == Pending(loader[..i], latest)
        invariant Ids(required) * broken == {}
      {
        var m := loader[i];
        assert loader[..i + 1] == loader[..i] + [m];
        FilterPush(loader[..i], m, (m: Migration) => m.id > latest);
        if m.id <= latest {
          continue;
        }
        if m.id in broken {
          assert m in Pending(loader, latest) && m.id in Ids(Pending(loader, latest)) * broken;
          return false, [];
        }
        required := required + [m];
      }
      assert loader[..|loader|] == loader;
      ok := true;
    }

    /** Runs the effects in order, up to the first that fails. */
    method Execute(required: seq<Migration>, failing: set<nat>) returns (ok: bool)
      modifies this`executed
      ensures ok <==> Ids(required) * failing == {}
      ensures ok ==> executed == old(executed) + required
    {
      for i := 0 to |required|
        invariant executed == old(executed) + required[..i]
        invariant Ids(required[..i]) * failing == {}
      {
        if required[i].id in failing {
          assert required[i].id in Ids(required) * failing;
          return false;
        }
        executed := executed + [required[i]];
      }
      assert required[..|required|] == required;
      ok := true;
    }

    /** The transaction of a run that has read `latest`; a failure rolls table and history back. */
    method Transact(loader: seq<Migration>, latest: nat, faults: Faults) returns (result: Result)
      modifies this
      ensures match Attempt(old(table.Keys), loader, latest, faults)
              case Rollback(r) => result == r && table == old(table) && executed == old(executed)
              case Commit(rows) =>
                result == Completed(rows) && executed == old(executed) + rows
                && Unique(rows) && table == old(table) + Rows(rows)
      ensures EndsAs(result, old(table.Keys), loader, latest, faults)
      ensures result.Failed? ==> table == old(table) && executed == old(executed)
      ensures result.Completed? ==>
                executed == old(executed) + result.ran && table.Keys == old(table.Keys) + Ids(result.ran)
    {
      AttemptEndsAs(table.Keys, loader, latest, faults);
      RowsAre([]);
      UniqueByCount(loader);
      if |Ids(loader)| != |loader| {
        return Failed(Duplicates);
      }
      PendingIsUnique(loader, latest);
      var imported, required := Import(loader, latest, faults.broken);
      if !imported {
        return Failed(ImportError);
      }
      var savedTable, savedExecuted := table, executed;
      if required != [] {
        if faults.insert {
          return Failed(SqlFailure);
        }
        if exists m :: m in required && m.id in table {
          var m :| m in required && m.id in table;
          assert m.id in Ids(required) * old(table.Keys);
          return Completed([]);
        }
        table := table + Rows(required);
      }
      assert Ids(required) * savedTable.Keys == {};
      assert table == savedTable + Rows(required);
      var ok := Execute(required, faults.failing);
      if !ok {
        table, executed := savedTable, savedExecuted;
        return Failed(MigrationFailed);
      }
      RowsAre(required);
      return Completed(required);
    }

    /** A run that nothing overlaps. */
    method Run(loader: seq<Migration>, faults: Faults) returns (result: Result)
      modifies this
      ensures var pending := Pending(loader, Latest(old(table.Keys)));
              if result.Failed? then table == old(table) && executed == old(executed) else
                result == Completed(pending) && executed == old(executed) + pending
                && Unique(pending) && table == old(table) + Rows(pending)
    {
      var latest := Latest(table.Keys);
      PendingIn(loader, latest);
      if Unique(loader) {
        PendingIsUnique(loader, latest);
      }
      result := Transact(loader, latest, faults);
    }
  }
}
