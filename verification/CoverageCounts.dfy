/** What the numbers of a package's summary count, in terms of its exports and of the mapping file. */
module CoverageCounts {
  import opened Coverage
  import opened CoverageMappings
  import opened Options
  import opened Seqs

  datatype Export = Export(package: string, name: string)

  function ExportKey(x: Export): string {
    MappingKey(x.package, x.name)
  }

  function ExportsOf(package: string, names: seq<string>): seq<Export> {
    Map(names, (name: string) => Export(package, name))
  }

  function AllExports(packages: seq<string>, names: string -> seq<string>): seq<Export> {
    if packages == [] then [] else ExportsOf(packages[0], names(packages[0])) + AllExports(packages[1..], names)
  }

  lemma {:induction false} ExportsAreNamed(packages: seq<string>, names: string -> seq<string>)
    ensures forall x :: x in AllExports(packages, names) <==> x.package in packages && x.name in names(x.package)
  {
    if packages != [] {
      var p := packages[0];
      ExportsAreNamed(packages[1..], names);
      MapIn(names(p), (name: string) => Export(p, name));
      assert packages == [p] + packages[1..];
    }
  }

  lemma {:induction false} ExportKeysDiffer(packages: seq<string>, names: string -> seq<string>)
    requires Named(packages, names)
    ensures Distinct(Map(AllExports(packages, names), ExportKey))
  {
    if packages != [] {
      var p, mine := packages[0], names(packages[0]);
      var group, rest := ExportsOf(p, mine), AllExports(packages[1..], names);
      ExportKeysDiffer(packages[1..], names);
      ExportsAreNamed(packages[1..], names);
      forall i, j | 0 <= i < j < |mine| ensures ExportKey(group[i]) != ExportKey(group[j]) {
        KeysDiffer(p, mine[i], p, mine[j]);
      }
      forall i, j | 0 <= i < |group| && 0 <= j < |rest| ensures ExportKey(group[i]) != ExportKey(rest[j]) {
        assert rest[j] in rest && rest[j].package in packages[1..];
        KeysDiffer(p, mine[i], rest[j].package, rest[j].name);
      }
      assert Map(group + rest, ExportKey) == Map(group, ExportKey) + Map(rest, ExportKey);
    }
  }

  // ----- Entries are what is exported -----

  function ToEntry(x: Export, ms: seq<Mapping>): Entry {
    EntryOf(x.package, x.name, ms)
  }

  function ToTypeEntry(x: Export, ms: seq<TypeMapping>): TypeEntry {
    TypeEntryOf(x.package, x.name, ms)
  }

  lemma {:induction false} EntriesOfExports(packages: seq<string>, exports: Exports, ms: seq<Mapping>)
    ensures Entries(packages, exports, ms)
         == Map(AllExports(packages, exports.values), (x: Export) => ToEntry(x, ms))
  {
    if packages != [] {
      var p := packages[0];
      var group := ExportsOf(p, exports.values(p));
      EntriesOfExports(packages[1..], exports, ms);
      MapConcat(group, AllExports(packages[1..], exports.values), (x: Export) => ToEntry(x, ms));
      assert Group(p, exports.values(p), ms) == Map(group, (x: Export) => ToEntry(x, ms));
    }
  }

  lemma {:induction false} TypeEntriesOfExports(packages: seq<string>, exports: Exports, ms: seq<TypeMapping>)
    ensures TypeEntries(packages, exports, ms)
         == Map(AllExports(packages, exports.types), (x: Export) => ToTypeEntry(x, ms))
  {
    if packages != [] {
      var p := packages[0];
      var group := ExportsOf(p, exports.types(p));
      TypeEntriesOfExports(packages[1..], exports, ms);
      MapConcat(group, AllExports(packages[1..], exports.types), (x: Export) => ToTypeEntry(x, ms));
      assert Map(exports.types(p), (name: string) => TypeEntryOf(p, name, ms))
          == Map(group, (x: Export) => ToTypeEntry(x, ms));
    }
  }

  lemma {:induction false} LookupTypeFinds(ms: seq<TypeMapping>, key: string)
    ensures var m := LookupType(ms, key);
            if m.Some? then m.value in ms && TypeKey(m.value) == key else forall x :: x in ms ==> TypeKey(x) != key
  {
    if ms != [] {
      LookupTypeFinds(ms[..|ms| - 1], key);
      assert forall x :: x in ms <==> x in ms[..|ms| - 1] || x == ms[|ms| - 1];
    }
  }

  lemma LookupIs(ms: seq<Mapping>, m: Mapping)
    requires Distinct(Map(ms, Key)) && m in ms
    ensures Lookup(ms, Key(m)) == Some(m)
  {
    LookupFinds(ms, Key(m));
    var l := Lookup(ms, Key(m)).value;
    var i :| 0 <= i < |ms| && ms[i] == m;
    var j :| 0 <= j < |ms| && ms[j] == l;
    assert Map(ms, Key)[i] == Map(ms, Key)[j];
  }

  lemma LookupTypeIs(ms: seq<TypeMapping>, m: TypeMapping)
    requires Distinct(Map(ms, TypeKey)) && m in ms
    ensures LookupType(ms, TypeKey(m)) == Some(m)
  {
    LookupTypeFinds(ms, TypeKey(m));
    var l := LookupType(ms, TypeKey(m)).value;
    var i :| 0 <= i < |ms| && ms[i] == m;
    var j :| 0 <= j < |ms| && ms[j] == l;
    assert Map(ms, TypeKey)[i] == Map(ms, TypeKey)[j];
  }

  // ----- Counting a package's entries by its mappings -----

  /** Every mapping has an export. */
  ghost predicate Covered(ms: seq<Mapping>, packages: seq<string>, exports: Exports) {
    forall m :: m in ms ==> m.package in packages && m.name in exports.values(m.package)
  }

  ghost predicate TypesCovered(ms: seq<TypeMapping>, packages: seq<string>, exports: Exports) {
    forall m :: m in ms ==> m.package in packages && m.name in exports.types(m.package)
  }

  /** A key is an export's key only for that export. */
  lemma KeyIsExported(packages: seq<string>, names: string -> seq<string>, package: string, name: string)
    requires Named(packages, names)
    ensures MappingKey(package, name) in Elements(Map(AllExports(packages, names), ExportKey)) <==>
              package in packages && name in names(package)
  {
    var xs := AllExports(packages, names);
    ExportsAreNamed(packages, names);
    MapIn(xs, ExportKey);
    if x :| x in xs && ExportKey(x) == MappingKey(package, name) {
      KeysDiffer(x.package, x.name, package, name);
    }
    if package in packages && name in names(package) {
      var x := Export(package, name);
      assert x in xs && ExportKey(x) == MappingKey(package, name);
    }
  }

  lemma EntryHasExportKey(x: Export, ms: seq<Mapping>, ts: seq<TypeMapping>)
    ensures EntryKey(ToEntry(x, ms)) == ExportKey(x) && TypeEntryKey(ToTypeEntry(x, ts)) == ExportKey(x)
  {
  }

  lemma EntryKeysAreExportKeys(packages: seq<string>, exports: Exports, ms: seq<Mapping>)
    ensures Map(Entries(packages, exports, ms), EntryKey) == Map(AllExports(packages, exports.values), ExportKey)
  {
    var xs := AllExports(packages, exports.values);
    EntriesOfExports(packages, exports, ms);
    forall i | 0 <= i < |xs| ensures EntryKey(ToEntry(xs[i], ms)) == ExportKey(xs[i]) {
      EntryHasExportKey(xs[i], ms, []);
    }
  }

  lemma TypeEntryKeysAreExportKeys(packages: seq<string>, exports: Exports, ts: seq<TypeMapping>)
    ensures Map(TypeEntries(packages, exports, ts), TypeEntryKey)
         == Map(AllExports(packages, exports.types), ExportKey)
  {
    var xs := AllExports(packages, exports.types);
    TypeEntriesOfExports(packages, exports, ts);
    forall i | 0 <= i < |xs| ensures TypeEntryKey(ToTypeEntry(xs[i], ts)) == ExportKey(xs[i]) {
      EntryHasExportKey(xs[i], [], ts);
    }
  }

  /** The check for stale mappings says just that, where names have no separator. */
  lemma NotStaleIsCovered(ms: seq<Mapping>, packages: seq<string>, exports: Exports)
    requires Named(packages, exports.values)
    ensures NoStaleMapping(ms, Elements(Map(Entries(packages, exports, ms), EntryKey))) <==>
              Covered(ms, packages, exports)
  {
    EntryKeysAreExportKeys(packages, exports, ms);
    forall m | m in ms
      ensures Key(m) in Elements(Map(AllExports(packages, exports.values), ExportKey)) <==>
                m.package in packages && m.name in exports.values(m.package)
    {
      KeyIsExported(packages, exports.values, m.package, m.name);
    }
  }

  lemma NotStaleTypesAreCovered(ms: seq<TypeMapping>, packages: seq<string>, exports: Exports)
    requires Named(packages, exports.types)
    ensures NoStaleTypeMapping(ms, Elements(Map(TypeEntries(packages, exports, ms), TypeEntryKey))) <==>
              TypesCovered(ms, packages, exports)
  {
    TypeEntryKeysAreExportKeys(packages, exports, ms);
    forall m | m in ms
      ensures TypeKey(m) in Elements(Map(AllExports(packages, exports.types), ExportKey)) <==>
                m.package in packages && m.name in exports.types(m.package)
    {
      KeyIsExported(packages, exports.types, m.package, m.name);
    }
  }

  /** The entries of a package that satisfy `p` are as many as its mappings that satisfy `q`. */
  lemma CountedByMappings(
    packages: seq<string>, exports: Exports, ms: seq<Mapping>, package: string, p: Entry -> bool, q: Mapping -> bool)
    requires Named(packages, exports.values) && Distinct(Map(ms, Key)) && Covered(ms, packages, exports)
    requires forall name :: name in exports.values(package) ==>
      (p(EntryOf(package, name, ms)) <==>
        var m := Lookup(ms, MappingKey(package, name)); m.Some? && q(m.value))
    ensures Count(EntriesOf(Entries(packages, exports, ms), package), p)
         == Count(ms, (m: Mapping) => m.package == package && q(m))
  {
    var xs := AllExports(packages, exports.values);
    var entries := Entries(packages, exports, ms);
    var mine := (e: Entry) => e.package == package && p(e);
    var mineX := (x: Export) => x.package == package && p(ToEntry(x, ms));
    CountFiltered(entries, mine, (e: Entry) => e.package == package, p);
    EntriesOfExports(packages, exports, ms);
    CountMap(xs, (x: Export) => ToEntry(x, ms), mineX, mine);
    ExportKeysDiffer(packages, exports.values);
    ExportsAreNamed(packages, exports.values);
    forall x | x in xs && mineX(x)
      ensures exists m :: m in ms && (m.package == package && q(m)) && Key(m) == ExportKey(x)
    {
      LookupFinds(ms, ExportKey(x));
      var m := Lookup(ms, ExportKey(x)).value;
      KeysDiffer(x.package, x.name, m.package, m.name);
    }
    forall m | m in ms && m.package == package && q(m)
      ensures exists x :: x in xs && mineX(x) && ExportKey(x) == Key(m)
    {
      LookupIs(ms, m);
      var x := Export(m.package, m.name);
      assert x in xs && mineX(x);
    }
    CountsMatch(xs, ms, ExportKey, Key, mineX, (m: Mapping) => m.package == package && q(m));
  }

  lemma TypesCountedByMappings(
    packages: seq<string>, exports: Exports, ms: seq<TypeMapping>, package: string,
    p: TypeEntry -> bool, q: TypeMapping -> bool)
    requires Named(packages, exports.types) && Distinct(Map(ms, TypeKey)) && TypesCovered(ms, packages, exports)
    requires forall name ::
      p(TypeEntryOf(package, name, ms)) <==>
        var m := LookupType(ms, MappingKey(package, name)); m.Some? && q(m.value)
    ensures Count(TypesOf(TypeEntries(packages, exports, ms), package), p)
         == Count(ms, (m: TypeMapping) => m.package == package && q(m))
  {
    var xs := AllExports(packages, exports.types);
    var entries := TypeEntries(packages, exports, ms);
    var mine := (e: TypeEntry) => e.package == package && p(e);
    var mineX := (x: Export) => x.package == package && p(ToTypeEntry(x, ms));
    CountFiltered(entries, mine, (e: TypeEntry) => e.package == package, p);
    TypeEntriesOfExports(packages, exports, ms);
    CountMap(xs, (x: Export) => ToTypeEntry(x, ms), mineX, mine);
    ExportKeysDiffer(packages, exports.types);
    ExportsAreNamed(packages, exports.types);
    forall x | x in xs && mineX(x)
      ensures exists m :: m in ms && (m.package == package && q(m)) && TypeKey(m) == ExportKey(x)
    {
      LookupTypeFinds(ms, ExportKey(x));
      var m := LookupType(ms, ExportKey(x)).value;
      KeysDiffer(x.package, x.name, m.package, m.name);
    }
    forall m | m in ms && m.package == package && q(m)
      ensures exists x :: x in xs && mineX(x) && ExportKey(x) == TypeKey(m)
    {
      LookupTypeIs(ms, m);
      var x := Export(m.package, m.name);
      assert x in xs && mineX(x);
    }
    CountsMatch(xs, ms, ExportKey, TypeKey, mineX, (m: TypeMapping) => m.package == package && q(m));
  }

  // ----- The numbers of a summary -----

  /** Of the mappings of a package, those that satisfy `q`. */
  function Mapped(ms: seq<Mapping>, package: string, q: Mapping -> bool): nat {
    Count(ms, (m: Mapping) => m.package == package && q(m))
  }

  function MappedTypes(ms: seq<TypeMapping>, package: string, q: TypeMapping -> bool): nat {
    Count(ms, (m: TypeMapping) => m.package == package && q(m))
  }

  predicate HasKind(m: Mapping, kind: Kind) {
    m.Target? && m.kind == kind
  }

  predicate IsDeprecated(m: Mapping) {
    m.Target? && m.deprecated
  }

  /** What a report presupposes, on well-named packages. */
  ghost predicate Proper(packages: seq<string>, exports: Exports, config: Config) {
    && Named(packages, exports.values) && Named(packages, exports.types)
    && ValidMappings(config.mappings) && ValidTypes(config.typeMappings)
    && Covered(config.mappings, packages, exports) && TypesCovered(config.typeMappings, packages, exports)
  }

  /** And what makes a report on well-named packages presuppose it. */
  lemma ReportIsProper(
    packages: seq<string>, exports: Exports, config: Config, revision: string,
    sound: Entry -> bool, soundType: TypeEntry -> bool)
    requires Reports(packages, exports, config, revision, sound, soundType)
    requires Named(packages, exports.values) && Named(packages, exports.types)
    ensures Proper(packages, exports, config)
  {
    NotStaleIsCovered(config.mappings, packages, exports);
    NotStaleTypesAreCovered(config.typeMappings, packages, exports);
  }

  function SummaryIn(packages: seq<string>, exports: Exports, config: Config, package: string): Summary {
    SummaryOf(package, Entries(packages, exports, config.mappings), TypeEntries(packages, exports, config.typeMappings),
      AtomsByPackage(packages, exports, config.mappings))
  }

  lemma {:induction false} ExportsOfPackage(packages: seq<string>, names: string -> seq<string>, package: string)
    requires Distinct(packages) && package in packages
    ensures Filter(AllExports(packages, names), (x: Export) => x.package == package)
         == ExportsOf(package, names(package))
  {
    var p := packages[0];
    var group, rest := ExportsOf(p, names(p)), AllExports(packages[1..], names);
    var mine := (x: Export) => x.package == package;
    FilterConcat(group, rest, mine);
    if p == package {
      FilterAll(group, mine);
      ExportsAreNamed(packages[1..], names);
      CountNone(rest, mine);
    } else {
      CountNone(group, mine);
      ExportsOfPackage(packages[1..], names, package);
    }
  }

  /** The entries of a package are its exports, in order. */
  lemma EntriesOfPackage(
    packages: seq<string>, exports: Exports, ms: seq<Mapping>, package: string, p: Entry -> bool, q: string -> bool)
    requires Distinct(packages) && package in packages
    requires forall name :: name in exports.values(package) ==> p(EntryOf(package, name, ms)) == q(name)
    ensures |EntriesOf(Entries(packages, exports, ms), package)| == |exports.values(package)|
    ensures Count(EntriesOf(Entries(packages, exports, ms), package), p)
         == Count(exports.values(package), q)
  {
    var xs := AllExports(packages, exports.values);
    var entries := Entries(packages, exports, ms);
    var mine := (e: Entry) => e.package == package;
    var mineX := (x: Export) => x.package == package;
    var both := (e: Entry) => e.package == package && p(e);
    var bothX := (x: Export) => x.package == package && p(ToEntry(x, ms));
    var mineP := (x: Export) => p(ToEntry(x, ms));
    EntriesOfExports(packages, exports, ms);
    ExportsOfPackage(packages, exports.values, package);
    CountMap(xs, (x: Export) => ToEntry(x, ms), mineX, mine);
    CountMap(xs, (x: Export) => ToEntry(x, ms), bothX, both);
    CountFiltered(entries, both, mine, p);
    CountFiltered(xs, bothX, mineX, mineP);
    CountMap(exports.values(package), (name: string) => Export(package, name), q, mineP);
  }

  lemma TypeEntriesOfPackage(packages: seq<string>, exports: Exports, ms: seq<TypeMapping>, package: string)
    requires Distinct(packages) && package in packages
    ensures |TypesOf(TypeEntries(packages, exports, ms), package)| == |exports.types(package)|
  {
    var xs := AllExports(packages, exports.types);
    TypeEntriesOfExports(packages, exports, ms);
    ExportsOfPackage(packages, exports.types, package);
    CountMap(xs, (x: Export) => ToTypeEntry(x, ms), (x: Export) => x.package == package,
      (t: TypeEntry) => t.package == package);
  }

  // Per package: the entries with a status are the mappings that say so.

  lemma CountOfKind(packages: seq<string>, exports: Exports, config: Config, p: string, kind: Kind)
    requires Proper(packages, exports, config)
    ensures Count(EntriesOf(Entries(packages, exports, config.mappings), p), WithStatus(Coverage.Mapped(kind)))
         == Mapped(config.mappings, p, (m: Mapping) => HasKind(m, kind))
  {
    CountedByMappings(packages, exports, config.mappings, p, WithStatus(Coverage.Mapped(kind)),
      (m: Mapping) => HasKind(m, kind));
  }

  lemma CountOfDivergences(packages: seq<string>, exports: Exports, config: Config, p: string)
    requires Proper(packages, exports, config)
    ensures Count(EntriesOf(Entries(packages, exports, config.mappings), p), WithStatus(Divergence))
         == Mapped(config.mappings, p, (m: Mapping) => m.Divergent?)
  {
    CountedByMappings(packages, exports, config.mappings, p, WithStatus(Divergence), (m: Mapping) => m.Divergent?);
  }

  lemma CountOfDeprecations(packages: seq<string>, exports: Exports, config: Config, p: string)
    requires Proper(packages, exports, config)
    ensures Count(EntriesOf(Entries(packages, exports, config.mappings), p), IsDeprecatedEntry)
         == Mapped(config.mappings, p, IsDeprecated)
  {
    var ms := config.mappings;
    forall name ensures IsDeprecatedEntry(EntryOf(p, name, ms)) <==>
        var m := Lookup(ms, MappingKey(p, name)); m.Some? && IsDeprecated(m.value)
    {
      LookupFinds(ms, MappingKey(p, name));
      var m := Lookup(ms, MappingKey(p, name));
      if m.Some? {
        var i :| 0 <= i < |ms| && ms[i] == m.value;
        assert GoodMapping(ms[i]);
      }
    }
    CountedByMappings(packages, exports, ms, p, IsDeprecatedEntry, IsDeprecated);
  }

  lemma CountOfTypes(packages: seq<string>, exports: Exports, config: Config, p: string, kind: TypeKind)
    requires Proper(packages, exports, config)
    ensures Count(TypesOf(TypeEntries(packages, exports, config.typeMappings), p), WithTypeStatus(MappedType(kind)))
         == MappedTypes(config.typeMappings, p, (m: TypeMapping) => m.TypeTarget? && m.typeKind == kind)
  {
    TypesCountedByMappings(packages, exports, config.typeMappings, p, WithTypeStatus(MappedType(kind)),
      (m: TypeMapping) => m.TypeTarget? && m.typeKind == kind);
  }

  lemma CountOfTypeDivergences(packages: seq<string>, exports: Exports, config: Config, p: string)
    requires Proper(packages, exports, config)
    ensures Count(TypesOf(TypeEntries(packages, exports, config.typeMappings), p), WithTypeStatus(DivergentType))
         == MappedTypes(config.typeMappings, p, (m: TypeMapping) => m.TypeDivergent?)
  {
    TypesCountedByMappings(packages, exports, config.typeMappings, p, WithTypeStatus(DivergentType),
      (m: TypeMapping) => m.TypeDivergent?);
  }

  predicate AnyMapping(m: Mapping) {
    true
  }

  predicate AnyTypeMapping(m: TypeMapping) {
    true
  }

  lemma CountOfMissing(packages: seq<string>, exports: Exports, config: Config, p: string)
    requires Proper(packages, exports, config) && p in packages
    ensures var mine := EntriesOf(Entries(packages, exports, config.mappings), p);
            && |mine| == |exports.values(p)|
            && |mine| - Count(mine, WithStatus(Missing)) == Mapped(config.mappings, p, AnyMapping)
  {
    var mine := EntriesOf(Entries(packages, exports, config.mappings), p);
    var all := (e: Entry) => true;
    EntriesOfPackage(packages, exports, config.mappings, p, all, name => true);
    CountedByMappings(packages, exports, config.mappings, p, IsAccounted, AnyMapping);
    CountIsPartial(mine, all);
    CountSplits(mine, all, IsAccounted, WithStatus(Missing));
  }

  lemma CountOfMissingTypes(packages: seq<string>, exports: Exports, config: Config, p: string)
    requires Proper(packages, exports, config) && p in packages
    ensures var mine := TypesOf(TypeEntries(packages, exports, config.typeMappings), p);
            && |mine| == |exports.types(p)|
            && |mine| - Count(mine, WithTypeStatus(MissingType)) == MappedTypes(config.typeMappings, p, AnyTypeMapping)
  {
    var mine := TypesOf(TypeEntries(packages, exports, config.typeMappings), p);
    var all, accounted := (t: TypeEntry) => true, (t: TypeEntry) => t.status != MissingType;
    TypeEntriesOfPackage(packages, exports, config.typeMappings, p);
    TypesCountedByMappings(packages, exports, config.typeMappings, p, accounted, AnyTypeMapping);
    CountIsPartial(mine, all);
    CountSplits(mine, all, accounted, WithTypeStatus(MissingType));
  }

  lemma EntryHasName(package: string, name: string, ms: seq<Mapping>)
    ensures IsPlainEntry(EntryOf(package, name, ms)) == IsPlainApi(name)
  {
  }

  lemma CountOfPlainApis(packages: seq<string>, exports: Exports, config: Config, p: string)
    requires Proper(packages, exports, config) && p in packages
    ensures Count(EntriesOf(Entries(packages, exports, config.mappings), p), IsPlainEntry)
         == Count(exports.values(p), IsPlainApi)
  {
    forall name | name in exports.values(p)
      ensures IsPlainEntry(EntryOf(p, name, config.mappings)) == IsPlainApi(name)
    {
      EntryHasName(p, name, config.mappings);
    }
    EntriesOfPackage(packages, exports, config.mappings, p, IsPlainEntry, IsPlainApi);
  }

  predicate IsHookMapping(m: Mapping) {
    HasKind(m, ExpoCompat) && IsHook(m.name)
  }

  /** Here the name of the mapping counts, which the key of the export determines. */
  lemma CountOfHooks(packages: seq<string>, exports: Exports, config: Config, p: string)
    requires Proper(packages, exports, config) && p in packages
    ensures Count(EntriesOf(Entries(packages, exports, config.mappings), p), IsHookEntry)
         == Mapped(config.mappings, p, IsHookMapping)
  {
    var ms := config.mappings;
    forall name | name in exports.values(p)
      ensures IsHookEntry(EntryOf(p, name, ms)) <==>
                var m := Lookup(ms, MappingKey(p, name)); m.Some? && IsHookMapping(m.value)
    {
      LookupFinds(ms, MappingKey(p, name));
      if Lookup(ms, MappingKey(p, name)).Some? {
        var m := Lookup(ms, MappingKey(p, name)).value;
        KeysDiffer(p, name, m.package, m.name);
      }
    }
    CountedByMappings(packages, exports, ms, p, IsHookEntry, IsHookMapping);
  }

  lemma AtomIsNamed(package: string, name: string, ms: seq<Mapping>)
    ensures EntryHasAtom(EntryOf(package, name, ms)) == NamesAtom(package, name, ms)
  {
  }

  lemma CountOfAtoms(packages: seq<string>, exports: Exports, config: Config, p: string)
    requires Proper(packages, exports, config) && p in packages
    ensures AtomsByPackage(packages, exports, config.mappings)[p] == Mapped(config.mappings, p, HasAtom)
  {
    var ms := config.mappings;
    var named := (name: string) => NamesAtom(p, name, ms);
    forall name ensures EntryHasAtom(EntryOf(p, name, ms)) == named(name) {
      AtomIsNamed(p, name, ms);
    }
    EntriesOfPackage(packages, exports, ms, p, EntryHasAtom, named);
    CountedByMappings(packages, exports, ms, p, EntryHasAtom, HasAtom);
  }

  /** The entry of a mapped export says what the mapping does; any other is missing. */
  lemma EntryOfMapping(ms: seq<Mapping>, m: Mapping)
    requires ValidMappings(ms) && m in ms
    ensures var e := EntryOf(m.package, m.name, ms);
            && e.package == m.package && e.name == m.name
            && (m.Target? ==> e.status == Coverage.Mapped(m.kind) && e.target == Some(m.target) && e.reason == None
                              && e.deprecationReason == m.deprecationReason && e.atomTarget == m.atomTarget)
            && (m.Divergent? ==> e.status == Divergence && e.target == None && e.reason == Some(m.reason)
                                 && e.deprecationReason == None && e.atomTarget == None)
  {
    LookupIs(ms, m);
    var i :| 0 <= i < |ms| && ms[i] == m;
    assert GoodMapping(ms[i]);
  }

  lemma TypeEntryOfMapping(ms: seq<TypeMapping>, m: TypeMapping)
    requires ValidTypes(ms) && m in ms
    ensures var e := TypeEntryOf(m.package, m.name, ms);
            && e.package == m.package && e.name == m.name
            && (m.TypeTarget? ==> e.status == MappedType(m.typeKind) && e.target == Some(m.target) && e.reason == None)
            && (m.TypeDivergent? ==> e.status == DivergentType && e.target == None && e.reason == Some(m.reason))
  {
    LookupTypeIs(ms, m);
  }

  /** The exports and types of a package, and which of them are accounted for: as many as it has
      mappings. */
  lemma SummaryCountsExports(packages: seq<string>, exports: Exports, config: Config, p: string)
    requires Proper(packages, exports, config) && p in packages
    ensures var s := SummaryIn(packages, exports, config, p);
            && s.package == p
            && s.expoExports == |exports.values(p)| && s.expoTypes == |exports.types(p)|
            && s.accountedExports == Mapped(config.mappings, p, AnyMapping)
            && s.missing == s.expoExports - s.accountedExports
            && s.accountedTypes == MappedTypes(config.typeMappings, p, AnyTypeMapping)
            && s.missingTypes == s.expoTypes - s.accountedTypes
            && s.expoApi == Count(exports.values(p), IsPlainApi)
  {
    CountOfMissing(packages, exports, config, p);
    CountOfMissingTypes(packages, exports, config, p);
    CountOfPlainApis(packages, exports, config, p);
  }

  /** The accounted exports and types of a package by what their mappings say. */
  lemma SummaryCountsKinds(packages: seq<string>, exports: Exports, config: Config, p: string)
    requires Proper(packages, exports, config) && p in packages
    ensures var s := SummaryIn(packages, exports, config, p);
            var ms, ts := config.mappings, config.typeMappings;
            && s.effectApi == Mapped(ms, p, (m: Mapping) => HasKind(m, EffectApi))
            && s.effectStream == Mapped(ms, p, (m: Mapping) => HasKind(m, EffectStream))
            && s.reactHooks == Mapped(ms, p, IsHookMapping) && s.effectAtoms == Mapped(ms, p, HasAtom)
            && s.unmigratedHooks == s.reactHooks - s.effectAtoms
            && s.deprecatedExpoApis == Mapped(ms, p, IsDeprecated)
            && s.effectTypes == MappedTypes(ts, p, (m: TypeMapping) => m.TypeTarget? && m.typeKind == EffectType)
            && s.expoCompatTypes
               == MappedTypes(ts, p, (m: TypeMapping) => m.TypeTarget? && m.typeKind == ExpoCompatType)
            && s.intentionalDivergences == Mapped(ms, p, (m: Mapping) => m.Divergent?)
                                           + MappedTypes(ts, p, (m: TypeMapping) => m.TypeDivergent?)
  {
    CountOfKind(packages, exports, config, p, EffectApi);
    CountOfKind(packages, exports, config, p, EffectStream);
    CountOfHooks(packages, exports, config, p);
    CountOfAtoms(packages, exports, config, p);
    CountOfDeprecations(packages, exports, config, p);
    CountOfTypes(packages, exports, config, p, EffectType);
    CountOfTypes(packages, exports, config, p, ExpoCompatType);
    CountOfDivergences(packages, exports, config, p);
    CountOfTypeDivergences(packages, exports, config, p);
  }

  /** The grades of a package: complete means that every export and type is mapped to something and every
      hook has an atom. */
  lemma CompleteMeans(packages: seq<string>, exports: Exports, config: Config, p: string)
    requires Proper(packages, exports, config) && p in packages
    ensures var s := SummaryIn(packages, exports, config, p);
            var mapped := |exports.values(p)| + |exports.types(p)|
              == Mapped(config.mappings, p, AnyMapping) + MappedTypes(config.typeMappings, p, AnyTypeMapping);
            && (s.grade == Complete <==> mapped && s.unmigratedHooks <= 0 && s.intentionalDivergences == 0)
            && (s.grade == Diverging <==> mapped && s.unmigratedHooks <= 0 && s.intentionalDivergences > 0)
  {
    SummaryCountsExports(packages, exports, config, p);
  }
}
