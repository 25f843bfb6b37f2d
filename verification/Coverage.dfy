/** The API coverage report: entries for every export, their summary per package and its totals. */
module Coverage {
  import opened Options
  import opened Seqs
  import opened CoverageMappings

  datatype Status = Mapped(kind: Kind) | Divergence | Missing

  datatype Entry = Entry(
    package: string, name: string, status: Status, target: Option<string>,
    deprecationReason: Option<string>, atomTarget: Option<string>, reason: Option<string>)

  datatype TypeStatus = MappedType(typeKind: TypeKind) | DivergentType | MissingType

  datatype TypeEntry = TypeEntry(
    package: string, name: string, status: TypeStatus, target: Option<string>, reason: Option<string>)

  /** The exports that the entrypoints of the packages declare. */
  datatype Exports = Exports(values: string -> seq<string>, types: string -> seq<string>)

  // ----- Entries -----

  /** A later mapping of the same key replaces an earlier one. */
  function Lookup(ms: seq<Mapping>, key: string): Option<Mapping> {
    if ms == [] then None
    else if Key(ms[|ms| - 1]) == key then Some(ms[|ms| - 1])
    else Lookup(ms[..|ms| - 1], key)
  }

  function LookupType(ms: seq<TypeMapping>, key: string): Option<TypeMapping> {
    if ms == [] then None
    else if TypeKey(ms[|ms| - 1]) == key then Some(ms[|ms| - 1])
    else LookupType(ms[..|ms| - 1], key)
  }

  function EntryOf(package: string, name: string, ms: seq<Mapping>): Entry {
    match Lookup(ms, MappingKey(package, name))
    case None => Entry(package, name, Missing, None, None, None, None)
    case Some(Divergent(_, _, reason)) => Entry(package, name, Divergence, None, None, None, Some(reason))
    case Some(Target(_, _, kind, target, deprecated, reason, atom)) =>
      Entry(package, name, Mapped(kind), Some(target), if deprecated then reason else None, atom, None)
  }

  function TypeEntryOf(package: string, name: string, ms: seq<TypeMapping>): TypeEntry {
    match LookupType(ms, MappingKey(package, name))
    case None => TypeEntry(package, name, MissingType, None, None)
    case Some(TypeDivergent(_, _, reason)) => TypeEntry(package, name, DivergentType, None, Some(reason))
    case Some(TypeTarget(_, _, kind, target)) => TypeEntry(package, name, MappedType(kind), Some(target), None)
  }

  /** The value entries of one package. */
  function Group(package: string, names: seq<string>, ms: seq<Mapping>): seq<Entry> {
    Map(names, (name: string) => EntryOf(package, name, ms))
  }

  function Entries(packages: seq<string>, exports: Exports, ms: seq<Mapping>): seq<Entry> {
    if packages == [] then []
    else Group(packages[0], exports.values(packages[0]), ms) + Entries(packages[1..], exports, ms)
  }

  function TypeEntries(packages: seq<string>, exports: Exports, ms: seq<TypeMapping>): seq<TypeEntry> {
    if packages == [] then []
    else
      Map(exports.types(packages[0]), (name: string) => TypeEntryOf(packages[0], name, ms))
      + TypeEntries(packages[1..], exports, ms)
  }

  predicate NamesAtom(package: string, name: string, ms: seq<Mapping>) {
    var m := Lookup(ms, MappingKey(package, name));
    m.Some? && HasAtom(m.value)
  }

  /** The exports of a package whose mapping names an atom. */
  function EffectAtoms(package: string, names: seq<string>, ms: seq<Mapping>): nat {
    Count(names, (name: string) => NamesAtom(package, name, ms))
  }

  function AtomsByPackage(packages: seq<string>, exports: Exports, ms: seq<Mapping>): map<string, nat> {
    map p | p in packages :: EffectAtoms(p, exports.values(p), ms)
  }

  function EntryKey(e: Entry): string {
    MappingKey(e.package, e.name)
  }

  /** No mapping without an entry. */
  predicate NoStaleMapping(ms: seq<Mapping>, keys: set<string>) {
    forall m :: m in ms ==> Key(m) in keys
  }

  // ----- Summaries -----

  datatype Grade = Complete | Diverging | Incomplete

  datatype Summary = Summary(
    package: string, expoExports: nat, deprecatedExpoApis: nat, accountedExports: int,
    expoTypes: nat, accountedTypes: int, effectTypes: nat, expoCompatTypes: nat, missingTypes: nat,
    expoApi: nat, effectApi: nat, effectStream: nat, reactHooks: nat, effectAtoms: nat,
    unmigratedHooks: int, intentionalDivergences: nat, missing: nat, grade: Grade)

  predicate IsHookEntry(e: Entry) {
    e.status == Mapped(ExpoCompat) && IsHook(e.name)
  }

  predicate IsListener(name: string) {
    "add" <= name && |name| >= 8 && name[|name| - 8..] == "Listener"
  }

  function WithStatus(status: Status): Entry -> bool {
    (e: Entry) => e.status == status
  }

  function WithTypeStatus(status: TypeStatus): TypeEntry -> bool {
    (t: TypeEntry) => t.status == status
  }

  predicate IsDeprecatedEntry(e: Entry) {
    e.deprecationReason.Some?
  }

  /** Neither a hook nor a listener. */
  predicate IsPlainApi(name: string) {
    !IsHook(name) && !IsListener(name)
  }

  predicate IsPlainEntry(e: Entry) {
    IsPlainApi(e.name)
  }

  function Graded(missing: nat, missingTypes: nat, unmigrated: int, divergences: nat): Grade {
    if missing > 0 || missingTypes > 0 || unmigrated > 0 then Incomplete
    else if divergences > 0 then Diverging
    else Complete
  }

  function SummarizePackage(
    package: string, entries: seq<Entry>, types: seq<TypeEntry>, atoms: nat): Summary
  {
    var missing := Count(entries, WithStatus(Missing));
    var hooks := Count(entries, IsHookEntry);
    var missingTypes := Count(types, WithTypeStatus(MissingType));
    var divergences := Count(entries, WithStatus(Divergence)) + Count(types, WithTypeStatus(DivergentType));
    Summary(package, |entries|, Count(entries, IsDeprecatedEntry), |entries| - missing,
      |types|, |types| - missingTypes, Count(types, WithTypeStatus(MappedType(EffectType))),
      Count(types, WithTypeStatus(MappedType(ExpoCompatType))), missingTypes, Count(entries, IsPlainEntry),
      Count(entries, WithStatus(Mapped(EffectApi))), Count(entries, WithStatus(Mapped(EffectStream))), hooks, atoms,
      hooks - atoms, divergences, missing, Graded(missing, missingTypes, hooks - atoms, divergences))
  }

  /** The packages of the entries, in order of first occurrence. */
  function Packages(entries: seq<Entry>): seq<string> {
    if entries == [] then []
    else
      var before, p := Packages(entries[..|entries| - 1]), entries[|entries| - 1].package;
      if p in before then before else before + [p]
  }

  function EntriesOf(entries: seq<Entry>, package: string): seq<Entry> {
    Filter(entries, (e: Entry) => e.package == package)
  }

  function TypesOf(types: seq<TypeEntry>, package: string): seq<TypeEntry> {
    Filter(types, (t: TypeEntry) => t.package == package)
  }

  function SummaryOf(package: string, entries: seq<Entry>, types: seq<TypeEntry>, atoms: map<string, nat>): Summary {
    SummarizePackage(package, EntriesOf(entries, package), TypesOf(types, package), Get(atoms, package, 0))
  }

  function Summaries(
    packages: seq<string>, entries: seq<Entry>, types: seq<TypeEntry>, atoms: map<string, nat>): seq<Summary>
  {
    if packages == [] then []
    else [SummaryOf(packages[0], entries, types, atoms)] + Summaries(packages[1..], entries, types, atoms)
  }

  function SummaryOrder(collate: (string, string) -> bool): (Summary, Summary) -> bool {
    (a: Summary, b: Summary) => collate(a.package, b.package)
  }

  /** The report's order of packages; `collate` is the order of names. */
  function InOrder(summaries: seq<Summary>, collate: (string, string) -> bool): seq<Summary> {
    Sort(summaries, SummaryOrder(collate))
  }

  lemma {:induction false} SummariesPush(
    packages: seq<string>, p: string, entries: seq<Entry>, types: seq<TypeEntry>, atoms: map<string, nat>)
    ensures Summaries(packages + [p], entries, types, atoms)
         == Summaries(packages, entries, types, atoms) + [SummaryOf(p, entries, types, atoms)]
  {
    if packages == [] {
      assert (packages + [p])[1..] == [];
    } else {
      SummariesPush(packages[1..], p, entries, types, atoms);
      assert (packages + [p])[1..] == packages[1..] + [p];
    }
  }

  lemma EntriesOfPush(entries: seq<Entry>, e: Entry, package: string)
    ensures EntriesOf(entries + [e], package) == EntriesOf(entries, package) + if e.package == package then [e] else []
  {
    FilterPush(entries, e, (e: Entry) => e.package == package);
  }

  lemma TypesOfPush(types: seq<TypeEntry>, t: TypeEntry, package: string)
    ensures TypesOf(types + [t], package) == TypesOf(types, package) + if t.package == package then [t] else []
  {
    FilterPush(types, t, (t: TypeEntry) => t.package == package);
  }

  method GroupTypes(types: seq<TypeEntry>) returns (byPackage: map<string, seq<TypeEntry>>)
    ensures forall p :: Get(byPackage, p, []) == TypesOf(types, p)
  {
    byPackage := map[];
    for i := 0 to |types|
      invariant forall p :: Get(byPackage, p, []) == TypesOf(types[..i], p)
    {
      var t := types[i];
      assert types[..i + 1] == types[..i] + [t];
      ghost var before := byPackage;
      byPackage := byPackage[t.package := Get(byPackage, t.package, []) + [t]];
      forall p ensures Get(byPackage, p, []) == TypesOf(types[..i + 1], p) {
        assert Get(before, p, []) == TypesOf(types[..i], p);
        TypesOfPush(types[..i], t, p);
      }
    }
    assert types[..|types|] == types;
  }

  /** Groups the entries, keeping the packages in order of first occurrence. */
  method GroupEntries(entries: seq<Entry>) returns (packages: seq<string>, byPackage: map<string, seq<Entry>>)
    ensures packages == Packages(entries)
    ensures forall p :: Get(byPackage, p, []) == EntriesOf(entries, p)
  {
    packages, byPackage := [], map[];
    for i := 0 to |entries|
      invariant packages == Packages(entries[..i])
      invariant forall p :: p in byPackage <==> p in packages
      invariant forall p :: Get(byPackage, p, []) == EntriesOf(entries[..i], p)
    {
      var e := entries[i];
      assert entries[..i + 1] == entries[..i] + [e];
      if e.package !in byPackage {
        packages := packages + [e.package];
      }
      ghost var before := byPackage;
      byPackage := byPackage[e.package := Get(byPackage, e.package, []) + [e]];
      forall p ensures Get(byPackage, p, []) == EntriesOf(entries[..i + 1], p) {
        assert Get(before, p, []) == EntriesOf(entries[..i], p);
        EntriesOfPush(entries[..i], e, p);
      }
    }
    assert entries[..|entries|] == entries;
  }

  lemma GroupedSummary(
    p: string, mine: seq<Entry>, mineTypes: seq<TypeEntry>,
    entries: seq<Entry>, types: seq<TypeEntry>, atoms: map<string, nat>)
    requires mine == EntriesOf(entries, p) && mineTypes == TypesOf(types, p)
    ensures SummarizePackage(p, mine, mineTypes, Get(atoms, p, 0)) == SummaryOf(p, entries, types, atoms)
  {
  }

  method Summarize(
    entries: seq<Entry>, types: seq<TypeEntry>, atoms: map<string, nat>, collate: (string, string) -> bool)
    returns (r: seq<Summary>)
    ensures r == InOrder(Summaries(Packages(entries), entries, types, atoms), collate)
  {
    var packages, byPackage := GroupEntries(entries);
    var typesByPackage := GroupTypes(types);
    var summaries: seq<Summary> := [];
    for i := 0 to |packages|
      invariant summaries == Summaries(packages[..i], entries, types, atoms)
    {
      var p := packages[i];
      var mine, mineTypes := Get(byPackage, p, []), Get(typesByPackage, p, []);
      var summary := SummarizePackage(p, mine, mineTypes, Get(atoms, p, 0));
      GroupedSummary(p, mine, mineTypes, entries, types, atoms);
      assert packages[..i + 1] == packages[..i] + [p];
      SummariesPush(packages[..i], p, entries, types, atoms);
      summaries := summaries + [summary];
    }
    assert packages[..|packages|] == packages;
    r := InOrder(summaries, collate);
  }

  // ----- Accounted exports -----

  predicate IsAccounted(e: Entry) {
    e.status != Missing
  }

  lemma {:induction false} LookupFinds(ms: seq<Mapping>, key: string)
    ensures var m := Lookup(ms, key);
            if m.Some? then m.value in ms && Key(m.value) == key else forall x :: x in ms ==> Key(x) != key
  {
    if ms != [] {
      LookupFinds(ms[..|ms| - 1], key);
      assert forall x :: x in ms <==> x in ms[..|ms| - 1] || x == ms[|ms| - 1];
    }
  }

  /** An entry as it stands in the report, and accounted exactly when its key is mapped. */
  ghost predicate IsEntryOf(e: Entry, ms: seq<Mapping>) {
    e == EntryOf(e.package, e.name, ms) && (IsAccounted(e) <==> exists m :: m in ms && Key(m) == EntryKey(e))
  }

  lemma EntryIsAccounted(package: string, name: string, ms: seq<Mapping>)
    ensures IsEntryOf(EntryOf(package, name, ms), ms)
  {
    LookupFinds(ms, MappingKey(package, name));
  }

  lemma {:induction false} EntriesAreAccounted(packages: seq<string>, exports: Exports, ms: seq<Mapping>)
    ensures forall e :: e in Entries(packages, exports, ms) ==> IsEntryOf(e, ms)
  {
    if packages != [] {
      EntriesAreAccounted(packages[1..], exports, ms);
      forall e | e in Group(packages[0], exports.values(packages[0]), ms) ensures IsEntryOf(e, ms) {
        var name :| name in exports.values(packages[0]) && e == EntryOf(packages[0], name, ms);
        EntryIsAccounted(packages[0], name, ms);
      }
    }
  }

  /** With valid mappings and no stale one, the accounted exports are at least as many as the mappings,
      and exactly as many if and only if no accounted export is listed twice. */
  lemma AccountedExportsAreTheMappings(packages: seq<string>, exports: Exports, ms: seq<Mapping>)
    requires ValidMappings(ms)
    requires NoStaleMapping(ms, Elements(Map(Entries(packages, exports, ms), EntryKey)))
    ensures var entries := Entries(packages, exports, ms);
            var accounted := Filter(entries, IsAccounted);
            |accounted| >= |ms| && (|accounted| == |ms| <==> Distinct(Map(accounted, EntryKey)))
  {
    var entries := Entries(packages, exports, ms);
    var accounted := Filter(entries, IsAccounted);
    var keys, mapped := Map(accounted, EntryKey), Map(ms, Key);
    EntriesAreAccounted(packages, exports, ms);
    FilterIn(entries, IsAccounted);
    MapIn(entries, EntryKey);
    MapIn(accounted, EntryKey);
    MapIn(ms, Key);
    forall k ensures k in keys <==> k in mapped {
      if k in keys {
        var e :| e in accounted && EntryKey(e) == k;
        assert IsEntryOf(e, ms);
      }
      if k in mapped {
        var m :| m in ms && Key(m) == k;
        assert k in Elements(Map(entries, EntryKey));
        var e :| e in entries && EntryKey(e) == k;
        assert IsEntryOf(e, ms);
      }
    }
    assert Elements(keys) == Elements(mapped);
    DistinctByCount(keys);
    DistinctByCount(mapped);
  }

  /** Packages and exports as the repository has them: none listed twice, no separator in a name. */
  ghost predicate Named(packages: seq<string>, names: string -> seq<string>) {
    && Distinct(packages)
    && forall p :: p in packages ==>
         '#' !in p && Distinct(names(p)) && forall name :: name in names(p) ==> '#' !in name
  }

  lemma {:induction false} EntryKeysDiffer(packages: seq<string>, exports: Exports, ms: seq<Mapping>)
    requires Named(packages, exports.values)
    ensures Distinct(Map(Entries(packages, exports, ms), EntryKey))
    ensures forall e :: e in Entries(packages, exports, ms) ==>
              e.package in packages && e.name in exports.values(e.package)
  {
    if packages != [] {
      var p, names := packages[0], exports.values(packages[0]);
      var group, rest := Group(p, names, ms), Entries(packages[1..], exports, ms);
      EntryKeysDiffer(packages[1..], exports, ms);
      forall i, j | 0 <= i < j < |names| ensures EntryKey(group[i]) != EntryKey(group[j]) {
        KeysDiffer(p, names[i], p, names[j]);
      }
      forall i, j | 0 <= i < |group| && 0 <= j < |rest| ensures EntryKey(group[i]) != EntryKey(rest[j]) {
        assert rest[j].package in packages[1..];
        KeysDiffer(p, names[i], rest[j].package, rest[j].name);
      }
      assert Map(group + rest, EntryKey) == Map(group, EntryKey) + Map(rest, EntryKey);
    }
  }

  // ----- Totals -----

  function Sum(s: seq<Summary>, f: Summary -> int): int {
    if s == [] then 0 else f(s[0]) + Sum(s[1..], f)
  }

  lemma {:induction false} SumInsert(x: Summary, s: seq<Summary>, leq: (Summary, Summary) -> bool, f: Summary -> int)
    ensures Sum(Insert(x, s, leq), f) == f(x) + Sum(s, f)
  {
    if s != [] && !leq(x, s[0]) {
      SumInsert(x, s[1..], leq, f);
    }
  }

  lemma {:induction false} SumSort(s: seq<Summary>, leq: (Summary, Summary) -> bool, f: Summary -> int)
    ensures Sum(Sort(s, leq), f) == Sum(s, f)
  {
    if s != [] {
      SumSort(s[1..], leq, f);
      SumInsert(s[0], Sort(s[1..], leq), leq, f);
    }
  }

  lemma {:induction false} PackagesAreThoseOfEntries(entries: seq<Entry>)
    ensures Distinct(Packages(entries))
    ensures forall p :: p in Packages(entries) <==> exists e :: e in entries && e.package == p
  {
    if entries != [] {
      var front, last := entries[..|entries| - 1], entries[|entries| - 1];
      PackagesAreThoseOfEntries(front);
      assert forall e :: e in entries <==> e in front || e == last;
    }
  }

  /** Summing up a count of the entries of different packages. */
  lemma {:induction false} SumCounts(
    packages: seq<string>, entries: seq<Entry>, types: seq<TypeEntry>, atoms: map<string, nat>,
    f: Summary -> int, p: Entry -> bool)
    requires Distinct(packages)
    requires forall n :: n in packages ==> f(SummaryOf(n, entries, types, atoms)) == Count(EntriesOf(entries, n), p)
    ensures Sum(Summaries(packages, entries, types, atoms), f)
         == Count(entries, (e: Entry) => p(e) && e.package in packages)
  {
    if packages == [] {
      CountNone(entries, (e: Entry) => p(e) && e.package in packages);
    } else {
      var n, rest := packages[0], packages[1..];
      SumCounts(rest, entries, types, atoms, f, p);
      CountFiltered(entries, (e: Entry) => p(e) && e.package == n, (e: Entry) => e.package == n, p);
      CountSplits(entries, (e: Entry) => p(e) && e.package in packages,
        (e: Entry) => p(e) && e.package == n, (e: Entry) => p(e) && e.package in rest);
    }
  }

  lemma {:induction false} SumTypeCounts(
    packages: seq<string>, entries: seq<Entry>, types: seq<TypeEntry>, atoms: map<string, nat>,
    f: Summary -> int, p: TypeEntry -> bool)
    requires Distinct(packages)
    requires forall n :: n in packages ==> f(SummaryOf(n, entries, types, atoms)) == Count(TypesOf(types, n), p)
    ensures Sum(Summaries(packages, entries, types, atoms), f)
         == Count(types, (t: TypeEntry) => p(t) && t.package in packages)
  {
    if packages == [] {
      CountNone(types, (t: TypeEntry) => p(t) && t.package in packages);
    } else {
      var n, rest := packages[0], packages[1..];
      SumTypeCounts(rest, entries, types, atoms, f, p);
      CountFiltered(types, (t: TypeEntry) => p(t) && t.package == n, (t: TypeEntry) => t.package == n, p);
      CountSplits(types, (t: TypeEntry) => p(t) && t.package in packages,
        (t: TypeEntry) => p(t) && t.package == n, (t: TypeEntry) => p(t) && t.package in rest);
    }
  }

  /** Totals over the report of any count of entries that a summary holds are that count of all. */
  lemma CountsAddUp(
    entries: seq<Entry>, types: seq<TypeEntry>, atoms: map<string, nat>, collate: (string, string) -> bool,
    f: Summary -> int, p: Entry -> bool)
    requires forall n :: f(SummaryOf(n, entries, types, atoms)) == Count(EntriesOf(entries, n), p)
    ensures Sum(InOrder(Summaries(Packages(entries), entries, types, atoms), collate), f) == Count(entries, p)
  {
    var packages := Packages(entries);
    PackagesAreThoseOfEntries(entries);
    SumCounts(packages, entries, types, atoms, f, p);
    SumSort(Summaries(packages, entries, types, atoms), SummaryOrder(collate), f);
    FilterAgrees(entries, p, (e: Entry) => p(e) && e.package in packages);
  }

  /** Exports, accounted exports and hooks add up to those of all entries. */
  lemma ExportTotals(
    entries: seq<Entry>, types: seq<TypeEntry>, atoms: map<string, nat>, collate: (string, string) -> bool)
    ensures var r := InOrder(Summaries(Packages(entries), entries, types, atoms), collate);
            && Sum(r, (s: Summary) => s.expoExports) == |entries|
            && Sum(r, (s: Summary) => s.accountedExports) == Count(entries, IsAccounted)
            && Sum(r, (s: Summary) => s.reactHooks) == Count(entries, IsHookEntry)
  {
    var all := (e: Entry) => true;
    forall n ensures Count(EntriesOf(entries, n), all) == |EntriesOf(entries, n)|
             ensures Count(EntriesOf(entries, n), IsAccounted)
                  == SummaryOf(n, entries, types, atoms).accountedExports {
      CountIsPartial(EntriesOf(entries, n), all);
      CountSplits(EntriesOf(entries, n), all, IsAccounted, WithStatus(Missing));
    }
    CountIsPartial(entries, all);
    CountsAddUp(entries, types, atoms, collate, (s: Summary) => s.expoExports, all);
    CountsAddUp(entries, types, atoms, collate, (s: Summary) => s.accountedExports, IsAccounted);
    CountsAddUp(entries, types, atoms, collate, (s: Summary) => s.reactHooks, IsHookEntry);
  }

  /** Types add up if and only if every package with a type has a value too: the summary leaves a
      package out that exports types only. */
  lemma TypeTotalsMissTypeOnlyPackages(
    entries: seq<Entry>, types: seq<TypeEntry>, atoms: map<string, nat>, collate: (string, string) -> bool)
    ensures var r := InOrder(Summaries(Packages(entries), entries, types, atoms), collate);
            Sum(r, (s: Summary) => s.expoTypes) == |types| <==>
              forall t :: t in types ==> exists e :: e in entries && e.package == t.package
  {
    var packages := Packages(entries);
    var all := (t: TypeEntry) => true;
    var f := (s: Summary) => s.expoTypes;
    PackagesAreThoseOfEntries(entries);
    forall n ensures Count(TypesOf(types, n), all) == |TypesOf(types, n)| {
      CountIsPartial(TypesOf(types, n), all);
    }
    SumTypeCounts(packages, entries, types, atoms, f, all);
    SumSort(Summaries(packages, entries, types, atoms), SummaryOrder(collate), f);
    CountIsPartial(types, (t: TypeEntry) => all(t) && t.package in packages);
  }

  /** A package that exports one type and no value: the report has no summary for it, and its type is in
      no total. */
  lemma TypeOnlyPackageIsLeftOut(p: string, name: string, collate: (string, string) -> bool)
    ensures var exports := Exports(_ => [], _ => [name]);
            var entries, types := Entries([p], exports, []), TypeEntries([p], exports, []);
            && types == [TypeEntry(p, name, MissingType, None, None)]
            && InOrder(Summaries(Packages(entries), entries, types, map[]), collate) == []
  {
    var exports := Exports(_ => [], _ => [name]);
    var rest := [p][1..];
    assert rest == [];
    assert Entries(rest, exports, []) == [] && TypeEntries(rest, exports, []) == [];
    assert Entries([p], exports, []) == [];
    assert exports.types(p) == [name];
    assert TypeEntries([p], exports, []) == [TypeEntryOf(p, name, [])];
  }

  // ----- Hooks -----

  predicate LacksAtom(e: Entry) {
    IsHookEntry(e) && e.atomTarget.None?
  }

  predicate EntryHasAtom(e: Entry) {
    e.atomTarget.Some?
  }

  lemma AtomsAreCounted(package: string, names: seq<string>, ms: seq<Mapping>)
    ensures EffectAtoms(package, names, ms) == Count(Group(package, names, ms), EntryHasAtom)
  {
    CountMap(names, (name: string) => EntryOf(package, name, ms),
      (name: string) => NamesAtom(package, name, ms), EntryHasAtom);
  }

  lemma GroupCounts(q: string, names: seq<string>, ms: seq<Mapping>, package: string, p: Entry -> bool)
    ensures Count(Group(q, names, ms), (e: Entry) => e.package == package && p(e))
         == if q == package then Count(Group(q, names, ms), p) else 0
  {
    var group := Group(q, names, ms);
    assert forall e :: e in group ==> e.package == q;
    if q == package {
      FilterAgrees(group, p, (e: Entry) => e.package == package && p(e));
    } else {
      CountNone(group, (e: Entry) => e.package == package && p(e));
    }
  }

  function Listed(packages: seq<string>, package: string): nat {
    if packages == [] then 0 else (if packages[0] == package then 1 else 0) + Listed(packages[1..], package)
  }

  /** The entries of a package listed several times are there as often. */
  lemma {:induction false} ListedCounts(
    packages: seq<string>, exports: Exports, ms: seq<Mapping>, package: string, p: Entry -> bool)
    ensures Count(Entries(packages, exports, ms), (e: Entry) => e.package == package && p(e))
         == Listed(packages, package) * Count(Group(package, exports.values(package), ms), p)
  {
    if packages != [] {
      var q, rest := packages[0], packages[1..];
      ListedCounts(rest, exports, ms, package, p);
      GroupCounts(q, exports.values(q), ms, package, p);
      CountConcat(Group(q, exports.values(q), ms), Entries(rest, exports, ms),
        (e: Entry) => e.package == package && p(e));
      OneMore(Listed(rest, package), Count(Group(package, exports.values(package), ms), p));
    }
  }

  lemma OneMore(n: nat, c: nat)
    ensures (1 + n) * c == c + n * c
  {
  }

  lemma ListedEntries(packages: seq<string>, exports: Exports, ms: seq<Mapping>, package: string, p: Entry -> bool)
    ensures Count(EntriesOf(Entries(packages, exports, ms), package), p)
         == Listed(packages, package) * Count(Group(package, exports.values(package), ms), p)
  {
    ListedCounts(packages, exports, ms, package, p);
    CountFiltered(Entries(packages, exports, ms), (e: Entry) => e.package == package && p(e),
      (e: Entry) => e.package == package, p);
  }

  /** Validation leaves atoms to hooks, and the key of an export determines its name. */
  lemma AtomsAreHooks(package: string, name: string, ms: seq<Mapping>)
    requires ValidMappings(ms) && '#' !in package && '#' !in name
    requires EntryHasAtom(EntryOf(package, name, ms))
    ensures IsHookEntry(EntryOf(package, name, ms))
  {
    LookupFinds(ms, MappingKey(package, name));
    var m := Lookup(ms, MappingKey(package, name)).value;
    KeysDiffer(package, name, m.package, m.name);
    var i :| 0 <= i < |ms| && ms[i] == m;
    assert GoodMapping(ms[i]);
  }

  lemma HooksSplit(package: string, names: seq<string>, ms: seq<Mapping>)
    requires ValidMappings(ms) && '#' !in package && forall name :: name in names ==> '#' !in name
    ensures var group := Group(package, names, ms);
            Count(group, IsHookEntry) == Count(group, LacksAtom) + EffectAtoms(package, names, ms)
  {
    var group := Group(package, names, ms);
    AtomsAreCounted(package, names, ms);
    forall e | e in group && EntryHasAtom(e) ensures IsHookEntry(e) {
      var name :| name in names && e == EntryOf(package, name, ms);
      AtomsAreHooks(package, name, ms);
    }
    CountSplits(group, IsHookEntry, LacksAtom, EntryHasAtom);
  }

  /** With valid mappings the unmigrated hooks of a package are never fewer than its hooks without an
      atom, so never negative; and they are exactly those if and only if the package is listed once or
      has no atoms. */
  lemma UnmigratedHooksLackAtoms(
    packages: seq<string>, exports: Exports, ms: seq<Mapping>, types: seq<TypeEntry>, p: string)
    requires ValidMappings(ms) && p in packages && '#' !in p
    requires forall name :: name in exports.values(p) ==> '#' !in name
    ensures var entries := Entries(packages, exports, ms);
            var s := SummaryOf(p, entries, types, AtomsByPackage(packages, exports, ms));
            && s.unmigratedHooks >= Count(EntriesOf(entries, p), LacksAtom)
            && (s.unmigratedHooks == Count(EntriesOf(entries, p), LacksAtom) <==>
                  Listed(packages, p) == 1 || s.effectAtoms == 0)
  {
    var group := Group(p, exports.values(p), ms);
    var atoms := EffectAtoms(p, exports.values(p), ms);
    var n := Listed(packages, p);
    ListedEntries(packages, exports, ms, p, IsHookEntry);
    ListedEntries(packages, exports, ms, p, LacksAtom);
    HooksSplit(p, exports.values(p), ms);
    IsListed(packages, p);
    ListedHooks(n, Count(group, IsHookEntry), Count(group, LacksAtom), atoms);
  }

  /** A hook with an atom, in a package that is listed twice: one unmigrated hook is reported although
      none lacks an atom. */
  lemma ListedTwiceLooksUnmigrated(p: string, target: string, atom: string, types: seq<TypeEntry>)
    requires '#' !in p
    ensures var ms := [Target(p, "use", ExpoCompat, target, false, None, Some(atom))];
            var exports := Exports(_ => ["use"], _ => []);
            var entries := Entries([p, p], exports, ms);
            && ValidMappings(ms) && Count(EntriesOf(entries, p), LacksAtom) == 0
            && SummaryOf(p, entries, types, AtomsByPackage([p, p], exports, ms)).unmigratedHooks == 1
  {
    var ms := [Target(p, "use", ExpoCompat, target, false, None, Some(atom))];
    var exports := Exports(_ => ["use"], _ => []);
    var e := EntryOf(p, "use", ms);
    assert e == Entry(p, "use", Mapped(ExpoCompat), Some(target), None, Some(atom), None);
    assert Group(p, ["use"], ms) == [e];
    assert Listed([p, p], p) == 2 by {
      assert [p, p][1..] == [p] && [p][1..] == [];
      assert Listed([p], p) == 1;
    }
    ListedEntries([p, p], exports, ms, p, IsHookEntry);
    ListedEntries([p, p], exports, ms, p, LacksAtom);
    AtomsAreCounted(p, ["use"], ms);
    CountIsPartial([e], IsHookEntry);
    CountIsPartial([e], EntryHasAtom);
    CountNone([e], LacksAtom);
  }

  lemma ListedHooks(n: nat, hooks: nat, lacking: nat, atoms: nat)
    requires n > 0 && hooks == lacking + atoms
    ensures n * hooks - atoms >= n * lacking
    ensures n * hooks - atoms == n * lacking <==> n == 1 || atoms == 0
  {
    assert n * hooks == n * lacking + n * atoms;
    assert n * atoms == atoms + (n - 1) * atoms;
    if n > 1 && atoms > 0 {
      assert (n - 1) * atoms >= 1;
    }
  }

  lemma {:induction false} IsListed(packages: seq<string>, p: string)
    requires p in packages
    ensures Listed(packages, p) > 0
  {
    if packages[0] != p {
      IsListed(packages[1..], p);
    }
  }

  /** For a package listed once: it is graded incomplete if and only if one of its exports or types is
      not mapped or one of its hooks has no atom. */
  lemma IncompleteExactlyWithAGap(
    packages: seq<string>, exports: Exports, ms: seq<Mapping>, types: seq<TypeEntry>, p: string)
    requires ValidMappings(ms) && Listed(packages, p) == 1 && p in packages && '#' !in p
    requires forall name :: name in exports.values(p) ==> '#' !in name
    ensures var entries := Entries(packages, exports, ms);
            SummaryOf(p, entries, types, AtomsByPackage(packages, exports, ms)).grade == Incomplete <==>
              || (exists e :: e in EntriesOf(entries, p) && (e.status == Missing || LacksAtom(e)))
              || (exists t :: t in TypesOf(types, p) && t.status == MissingType)
  {
    var mine := EntriesOf(Entries(packages, exports, ms), p);
    UnmigratedHooksLackAtoms(packages, exports, ms, types, p);
    CountPositive(mine, LacksAtom);
    CountPositive(mine, WithStatus(Missing));
    CountPositive(TypesOf(types, p), WithTypeStatus(MissingType));
  }

  // ----- The whole inspection -----

  datatype Failure = Invalid(problem: Problem) | BadTarget | Stale(key: string) | StaleType(key: string)

  datatype Outcome =
    | Failed(failure: Failure)
    | Report(packages: seq<Summary>, entries: seq<Entry>, typeEntries: seq<TypeEntry>)

  predicate NoStaleTypeMapping(ms: seq<TypeMapping>, keys: set<string>) {
    forall m :: m in ms ==> TypeKey(m) in keys
  }

  function TypeEntryKey(t: TypeEntry): string {
    MappingKey(t.package, t.name)
  }

  function EntryOrder(collate: (string, string) -> bool): (Entry, Entry) -> bool {
    (a: Entry, b: Entry) => collate(EntryKey(a), EntryKey(b))
  }

  function TypeOrder(collate: (string, string) -> bool): (TypeEntry, TypeEntry) -> bool {
    (a: TypeEntry, b: TypeEntry) => collate(TypeEntryKey(a), TypeEntryKey(b))
  }

  function InEntryOrder(entries: seq<Entry>, collate: (string, string) -> bool): seq<Entry> {
    Sort(entries, EntryOrder(collate))
  }

  function InTypeOrder(types: seq<TypeEntry>, collate: (string, string) -> bool): seq<TypeEntry> {
    Sort(types, TypeOrder(collate))
  }

  predicate AllSound(entries: seq<Entry>, sound: Entry -> bool) {
    forall e :: e in entries && e.status.Mapped? ==> sound(e)
  }

  predicate AllTypesSound(types: seq<TypeEntry>, sound: TypeEntry -> bool) {
    forall t :: t in types && t.status.MappedType? ==> sound(t)
  }

  ghost predicate ValidConfig(config: Config, revision: string) {
    config.revision == revision && ValidMappings(config.mappings) && ValidTypes(config.typeMappings)
  }

  /** The exact circumstances under which there is a report. `sound` and `soundType` tell whether the
      entry's target exists and is of the kind it should be. */
  ghost predicate Reports(
    packages: seq<string>, exports: Exports, config: Config, revision: string,
    sound: Entry -> bool, soundType: TypeEntry -> bool)
  {
    var entries := Entries(packages, exports, config.mappings);
    var types := TypeEntries(packages, exports, config.typeMappings);
    && ValidConfig(config, revision)
    && AllSound(entries, sound) && AllTypesSound(types, soundType)
    && NoStaleMapping(config.mappings, Elements(Map(entries, EntryKey)))
    && NoStaleTypeMapping(config.typeMappings, Elements(Map(types, TypeEntryKey)))
  }

  /** The first key of a mapping without an entry. */
  method FindStale(mapped: seq<string>, keys: set<string>) returns (stale: Option<string>)
    ensures stale.None? <==> forall k :: k in mapped ==> k in keys
    ensures stale.Some? ==> exists i :: 0 <= i < |mapped| && stale.value == mapped[i] && mapped[i] !in keys
                                        && forall j :: 0 <= j < i ==> mapped[j] in keys
  {
    for i := 0 to |mapped|
      invariant forall j :: 0 <= j < i ==> mapped[j] in keys
    {
      if mapped[i] !in keys {
        return Some(mapped[i]);
      }
    }
    stale := None;
  }

  method FindStaleMapping(ms: seq<Mapping>, entries: seq<Entry>) returns (stale: Option<string>)
    ensures stale.None? <==> NoStaleMapping(ms, Elements(Map(entries, EntryKey)))
    ensures stale.Some? ==> stale.value in Map(ms, Key) && stale.value !in Elements(Map(entries, EntryKey))
  {
    MapIn(ms, Key);
    stale := FindStale(Map(ms, Key), Elements(Map(entries, EntryKey)));
  }

  method FindStaleTypeMapping(ms: seq<TypeMapping>, types: seq<TypeEntry>) returns (stale: Option<string>)
    ensures stale.None? <==> NoStaleTypeMapping(ms, Elements(Map(types, TypeEntryKey)))
    ensures stale.Some? ==> stale.value in Map(ms, TypeKey) && stale.value !in Elements(Map(types, TypeEntryKey))
  {
    MapIn(ms, TypeKey);
    stale := FindStale(Map(ms, TypeKey), Elements(Map(types, TypeEntryKey)));
  }

  method Inspect(
    packages: seq<string>, exports: Exports, config: Config, revision: string,
    sound: Entry -> bool, soundType: TypeEntry -> bool, collate: (string, string) -> bool)
    returns (r: Outcome)
    ensures r.Report? <==> Reports(packages, exports, config, revision, sound, soundType)
    ensures r.Failed? ==> (r.failure.Invalid? <==> !ValidConfig(config, revision))
    ensures r.Failed? && ValidConfig(config, revision) ==>
              (r.failure.BadTarget? <==>
                !(AllSound(Entries(packages, exports, config.mappings), sound)
                  && AllTypesSound(TypeEntries(packages, exports, config.typeMappings), soundType)))
    ensures r.Failed? && r.failure.Stale? ==>
              r.failure.key !in Elements(Map(Entries(packages, exports, config.mappings), EntryKey))
              && r.failure.key in Map(config.mappings, Key)
    ensures r.Failed? && r.failure.StaleType? ==>
              r.failure.key !in Elements(Map(TypeEntries(packages, exports, config.typeMappings), TypeEntryKey))
              && r.failure.key in Map(config.typeMappings, TypeKey)
    ensures r.Report? ==>
              var entries := Entries(packages, exports, config.mappings);
              var types := TypeEntries(packages, exports, config.typeMappings);
              var atoms := AtomsByPackage(packages, exports, config.mappings);
              && r.packages == InOrder(Summaries(Packages(entries), entries, types, atoms), collate)
              && r.entries == InEntryOrder(entries, collate)
              && r.typeEntries == InTypeOrder(types, collate)
  {
    var problem := Validate(config, revision);
    if problem.Some? {
      return Failed(Invalid(problem.value));
    }
    var entries := Entries(packages, exports, config.mappings);
    var types := TypeEntries(packages, exports, config.typeMappings);
    if !AllSound(entries, sound) || !AllTypesSound(types, soundType) {
      return Failed(BadTarget);
    }
    var stale := FindStaleMapping(config.mappings, entries);
    if stale.Some? {
      return Failed(Stale(stale.value));
    }
    var staleType := FindStaleTypeMapping(config.typeMappings, types);
    if staleType.Some? {
      return Failed(StaleType(staleType.value));
    }
    var summaries := Summarize(entries, types, AtomsByPackage(packages, exports, config.mappings), collate);
    r := Report(summaries, InEntryOrder(entries, collate), InTypeOrder(types, collate));
  }

  /** In any report on well-named packages the accounted exports of all packages together are as many
      as the mappings. */
  lemma ReportAccountsForEveryMapping(
    packages: seq<string>, exports: Exports, config: Config, revision: string,
    sound: Entry -> bool, soundType: TypeEntry -> bool, collate: (string, string) -> bool)
    requires Reports(packages, exports, config, revision, sound, soundType) && Named(packages, exports.values)
    ensures var entries := Entries(packages, exports, config.mappings);
            var types := TypeEntries(packages, exports, config.typeMappings);
            var atoms := AtomsByPackage(packages, exports, config.mappings);
            Sum(InOrder(Summaries(Packages(entries), entries, types, atoms), collate),
              (s: Summary) => s.accountedExports) == |config.mappings|
  {
    var ms := config.mappings;
    var entries := Entries(packages, exports, ms);
    EntryKeysDiffer(packages, exports, ms);
    FilterKeepsKeysDistinct(entries, EntryKey, IsAccounted);
    AccountedExportsAreTheMappings(packages, exports, ms);
    ExportTotals(entries, TypeEntries(packages, exports, config.typeMappings),
      AtomsByPackage(packages, exports, ms), collate);
  }

  lemma OrdersAreTotal(collate: (string, string) -> bool)
    requires TotalOrder(collate)
    ensures TotalOrder(SummaryOrder(collate)) && TotalOrder(EntryOrder(collate)) && TotalOrder(TypeOrder(collate))
  {
    forall a: Summary, b: Summary ensures SummaryOrder(collate)(a, b) == collate(a.package, b.package) {
    }
    forall a: Entry, b: Entry ensures EntryOrder(collate)(a, b) == collate(EntryKey(a), EntryKey(b)) {
    }
    forall a: TypeEntry, b: TypeEntry
      ensures TypeOrder(collate)(a, b) == collate(TypeEntryKey(a), TypeEntryKey(b))
    {
    }
  }

  /** The three lists of a report are in order, with nothing lost or added. */
  lemma ReportIsInOrder(
    summaries: seq<Summary>, entries: seq<Entry>, types: seq<TypeEntry>, collate: (string, string) -> bool)
    requires TotalOrder(collate)
    ensures multiset(InOrder(summaries, collate)) == multiset(summaries)
    ensures multiset(InEntryOrder(entries, collate)) == multiset(entries)
    ensures multiset(InTypeOrder(types, collate)) == multiset(types)
    ensures var r := InOrder(summaries, collate);
            forall i, j :: 0 <= i < j < |r| ==> collate(r[i].package, r[j].package)
    ensures var r := InEntryOrder(entries, collate);
            forall i, j :: 0 <= i < j < |r| ==> collate(EntryKey(r[i]), EntryKey(r[j]))
    ensures var r := InTypeOrder(types, collate);
            forall i, j :: 0 <= i < j < |r| ==> collate(TypeEntryKey(r[i]), TypeEntryKey(r[j]))
  {
    OrdersAreTotal(collate);
    SortSorts(summaries, SummaryOrder(collate));
    SortSorts(entries, EntryOrder(collate));
    SortSorts(types, TypeOrder(collate));
    var r := InOrder(summaries, collate);
    forall i, j | 0 <= i < j < |r| ensures collate(r[i].package, r[j].package) {
      assert SummaryOrder(collate)(r[i], r[j]);
    }
    var es := InEntryOrder(entries, collate);
    forall i, j | 0 <= i < j < |es| ensures collate(EntryKey(es[i]), EntryKey(es[j])) {
      assert EntryOrder(collate)(es[i], es[j]);
    }
    var ts := InTypeOrder(types, collate);
    forall i, j | 0 <= i < j < |ts| ensures collate(TypeEntryKey(ts[i]), TypeEntryKey(ts[j])) {
      assert TypeOrder(collate)(ts[i], ts[j]);
    }
  }
}
