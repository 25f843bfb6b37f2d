/** The export surface of a package entrypoint: a depth-first walk over `export *` edges, which may be
    cyclic, that merges what each visited file exports into one table. */
module Surface {
  import opened Options
  import opened ReExports

  /** One export of one name by one file. */
  datatype Occurrence = Occurrence(file: File, name: string, kind: ExportKind)

  datatype Info = Info(kind: ExportKind, paths: set<File>)

  type Table = map<string, Info>

  function MergeKind(left: Option<ExportKind>, right: ExportKind): ExportKind {
    if left.None? || left.value == right then right
    else if left.value == Default || right == Default then Default
    else if left.value == OpaqueModule || right == OpaqueModule then OpaqueModule
    else ValueAndType
  }

  // ----- Kinds as an order, and merging as its join -----

  function Rank(k: ExportKind): nat {
    match k
    case Type => 0
    case Value => 0
    case ValueAndType => 1
    case OpaqueModule => 2
    case Default => 3
  }

  /** `type` and `value` are below `value-and-type`, which is below the other two. */
  predicate Below(a: ExportKind, b: ExportKind) {
    a == b || Rank(a) < Rank(b)
  }

  predicate IsJoin(k: ExportKind, kinds: set<ExportKind>) {
    && (forall a :: a in kinds ==> Below(a, k))
    && (forall u :: (forall a :: a in kinds ==> Below(a, u)) ==> Below(k, u))
  }

  /** Merging is the least upper bound of two kinds. */
  lemma MergeKindIsJoin(a: ExportKind, b: ExportKind)
    ensures IsJoin(MergeKind(Some(a), b), {a, b})
    ensures MergeKind(Some(a), b) == MergeKind(Some(b), a) && MergeKind(Some(a), a) == a
    ensures MergeKind(Some(Default), b) == Default
    ensures b != Default ==> MergeKind(Some(OpaqueModule), b) == OpaqueModule
    ensures MergeKind(Some(Type), Value) == ValueAndType
    ensures b == Type || b == Value ==> MergeKind(Some(ValueAndType), b) == ValueAndType
  {
    forall u | forall x :: x in {a, b} ==> Below(x, u) ensures Below(MergeKind(Some(a), b), u) {
      assert a in {a, b} && b in {a, b};
      assert Below(a, u) && Below(b, u);
    }
  }

  lemma JoinExtends(k: ExportKind, kinds: set<ExportKind>, b: ExportKind)
    requires IsJoin(k, kinds)
    ensures IsJoin(MergeKind(Some(k), b), kinds + {b})
  {
    var m := MergeKind(Some(k), b);
    forall u | forall a :: a in kinds + {b} ==> Below(a, u) ensures Below(m, u) {
      assert b in kinds + {b};
      assert forall a :: a in kinds ==> a in kinds + {b};
      assert Below(k, u) && Below(b, u);
    }
  }

  lemma JoinIsUnique(j: ExportKind, k: ExportKind, kinds: set<ExportKind>)
    requires IsJoin(j, kinds) && IsJoin(k, kinds)
    ensures j == k
  {
    assert Below(j, k) && Below(k, j);
  }

  // ----- What a file exports itself -----

  ghost function ElementKind(src: Sources, typeOnly: bool, target: Option<File>, e: Element): ExportKind {
    if typeOnly || e.typeOnly then Type
    else if target.None? then ValueAndType
    else
      var found := KindOfExport(src, Key(target.value, e.source));
      if found.Some? then found.value else ValueAndType
  }

  ghost function ElementExports(
    src: Sources, f: File, typeOnly: bool, target: Option<File>, elements: seq<Element>, n: nat)
    : set<Occurrence>
    requires n <= |elements|
  {
    set i | 0 <= i < n ::
      Occurrence(f, elements[i].name, ElementKind(src, typeOnly, target, elements[i]))
  }

  ghost function StatementExports(src: Sources, f: File, st: Statement): set<Occurrence> {
    match st
    case ExportAssignment => {Occurrence(f, "default", Default)}
    case ExportNamespace(name) => {Occurrence(f, name, Value)}
    case ExportNamed(typeOnly, target, elements) =>
      ElementExports(src, f, typeOnly, target, elements, |elements|)
    case ExportStar(_) => {}
    case Variables(exported, default, names) =>
      if !exported then {} else DefaultExport(f, default) + NameExports(f, names, |names|)
    case Declaration(exported, default, form, declared) =>
      if !exported then {} else
        DefaultExport(f, default)
        + if declared.Some? then {Occurrence(f, declared.value, DeclarationKind(form))} else {}
    case Other(exported, default) => if !exported then {} else DefaultExport(f, default)
  }

  function DefaultExport(f: File, default: bool): set<Occurrence> {
    if default then {Occurrence(f, "default", Default)} else {}
  }

  function NameExports(f: File, names: seq<string>, n: nat): set<Occurrence>
    requires n <= |names|
  {
    set i | 0 <= i < n :: Occurrence(f, names[i], Value)
  }

  ghost function ExportsUpTo(src: Sources, f: File, n: nat): set<Occurrence>
    requires f in src && n <= |src[f]|
  {
    set i, o | 0 <= i < n && o in StatementExports(src, f, src[f][i]) :: o
  }

  ghost function FileExports(src: Sources, f: File): set<Occurrence> {
    if f in src then ExportsUpTo(src, f, |src[f]|) else {}
  }

  ghost function Exports(src: Sources, files: set<File>): set<Occurrence> {
    set f, o | f in files && o in FileExports(src, f) :: o
  }

  // ----- What each form of statement lists -----

  /** The kind of a re-exported element: that of the first trail from its source name in the target, and
      `value-and-type` where there is no target or nothing is found in it. */
  ghost predicate ElementHas(
    src: Sources, typeOnly: bool, target: Option<File>, e: Element, k: ExportKind)
  {
    if typeOnly || e.typeOnly then k == Type
    else if target.None? then k == ValueAndType
    else
      var source := Key(target.value, e.source);
      || (exists trail :: FirstTrail(src, source, {}, trail, k))
      || (k == ValueAndType && forall chain, j :: !Chain(src, source, chain, j))
  }

  /** The statement by itself exports `name` with kind `k`. */
  ghost predicate Lists(src: Sources, st: Statement, name: string, k: ExportKind) {
    var isDefault := name == "default" && k == Default;
    match st
    case ExportAssignment => isDefault
    case ExportNamespace(n) => name == n && k == Value
    case ExportNamed(typeOnly, target, elements) =>
      exists e :: e in elements && e.name == name && ElementHas(src, typeOnly, target, e, k)
    case ExportStar(_) => false
    case Variables(exported, default, names) => exported && ((default && isDefault) || (name in names && k == Value))
    case Declaration(exported, default, form, declared) =>
      exported && ((default && isDefault) || (declared == Some(name) && DeclaresAs(form, k)))
    case Other(exported, default) => exported && default && isDefault
  }

  lemma ElementKindIs(src: Sources, typeOnly: bool, target: Option<File>, e: Element, k: ExportKind)
    ensures ElementKind(src, typeOnly, target, e) == k <==> ElementHas(src, typeOnly, target, e, k)
  {
    if target.Some? {
      FirstKindIsFound(src, Key(target.value, e.source), k);
      KindIsFoundExactlyWhenDefined(src, Key(target.value, e.source));
    }
  }

  lemma StatementLists(src: Sources, f: File, st: Statement, o: Occurrence)
    ensures o in StatementExports(src, f, st) <==> o.file == f && Lists(src, st, o.name, o.kind)
  {
    match st
    case ExportNamed(typeOnly, target, elements) =>
      forall e
        ensures ElementKind(src, typeOnly, target, e) == o.kind <==> ElementHas(src, typeOnly, target, e, o.kind)
      {
        ElementKindIs(src, typeOnly, target, e, o.kind);
      }
    case _ =>
  }

  /** Some statement of the file exports `name` with kind `k`. */
  ghost predicate FileLists(src: Sources, f: File, name: string, k: ExportKind) {
    f in src && exists st :: st in src[f] && Lists(src, st, name, k)
  }

  lemma FileExportsAre(src: Sources, f: File, o: Occurrence)
    ensures o in FileExports(src, f) <==> o.file == f && FileLists(src, f, o.name, o.kind)
  {
    if f in src {
      forall st ensures o in StatementExports(src, f, st) <==> o.file == f && Lists(src, st, o.name, o.kind) {
        StatementLists(src, f, st, o);
      }
    }
  }

  // ----- Files reachable through `export *` -----

  predicate IsStar(src: Sources, a: File, i: nat, b: File) {
    a in src && i < |src[a]| && src[a][i] == ExportStar(Some(b))
  }

  ghost predicate StarEdge(src: Sources, a: File, b: File) {
    exists i: nat :: IsStar(src, a, i, b)
  }

  ghost predicate StarPath(src: Sources, path: seq<File>) {
    path != [] && forall i :: 0 <= i < |path| - 1 ==> StarEdge(src, path[i], path[i + 1])
  }

  ghost predicate Reaches(src: Sources, a: File, b: File) {
    exists path :: StarPath(src, path) && path[0] == a && path[|path| - 1] == b
  }

  ghost predicate Reachable(src: Sources, entries: seq<File>, f: File) {
    exists e :: e in entries && Reaches(src, e, f)
  }

  /** All `export *` edges out of `found` lead into `files`. */
  ghost predicate Closed(src: Sources, found: set<File>, files: set<File>) {
    forall a, b :: a in found && StarEdge(src, a, b) ==> b in files
  }

  ghost predicate AllReached(src: Sources, f: File, found: set<File>) {
    forall a :: a in found ==> Reaches(src, f, a)
  }

  /** The first `n` statements of `f` that are `export *` lead into `files`. */
  ghost predicate StarsVisited(src: Sources, f: File, n: nat, files: set<File>) {
    forall j: nat, b :: j < n && IsStar(src, f, j, b) ==> b in files
  }

  lemma ReachesItself(src: Sources, a: File)
    ensures Reaches(src, a, a)
  {
    assert StarPath(src, [a]) && [a][|[a]| - 1] == a;
  }

  lemma ReachesThrough(src: Sources, a: File, b: File, c: File)
    requires StarEdge(src, a, b) && Reaches(src, b, c)
    ensures Reaches(src, a, c)
  {
    var path :| StarPath(src, path) && path[0] == b && path[|path| - 1] == c;
    var longer := [a] + path;
    forall i | 0 <= i < |longer| - 1 ensures StarEdge(src, longer[i], longer[i + 1]) {
      if i > 0 {
        assert StarEdge(src, path[i - 1], path[i - 1 + 1]);
      }
    }
    assert StarPath(src, longer) && longer[|longer| - 1] == c;
  }

  // ----- The meaning of the table -----

  function KindsOf(occs: set<Occurrence>, name: string): set<ExportKind> {
    set o | o in occs && o.name == name :: o.kind
  }

  function FilesOf(occs: set<Occurrence>, name: string): set<File> {
    set o | o in occs && o.name == name :: o.file
  }

  function NamesOf(occs: set<Occurrence>): set<string> {
    set o | o in occs :: o.name
  }

  /** The table lists exactly the names that occur, each with the join of the kinds and the set of the
      files it occurs with. */
  ghost predicate Describes(t: Table, occs: set<Occurrence>) {
    && t.Keys == NamesOf(occs)
    && forall name :: name in t ==>
         IsJoin(t[name].kind, KindsOf(occs, name)) && t[name].paths == FilesOf(occs, name)
  }

  function Added(t: Table, o: Occurrence): Table {
    var current := if o.name in t then Some(t[o.name]) else None;
    t[o.name := Info(
      MergeKind(if current.Some? then Some(current.value.kind) else None, o.kind),
      (if current.Some? then current.value.paths else {}) + {o.file})]
  }

  lemma AddedDescribes(t: Table, occs: set<Occurrence>, o: Occurrence)
    requires Describes(t, occs)
    ensures Describes(Added(t, o), occs + {o})
  {
    var t' := Added(t, o);
    forall name | name in t'
      ensures IsJoin(t'[name].kind, KindsOf(occs + {o}, name))
      ensures t'[name].paths == FilesOf(occs + {o}, name)
    {
      if name != o.name {
        assert KindsOf(occs + {o}, name) == KindsOf(occs, name);
      } else if name in t {
        assert KindsOf(occs + {o}, name) == KindsOf(occs, name) + {o.kind};
        JoinExtends(t[name].kind, KindsOf(occs, name), o.kind);
      } else {
        assert forall u :: u in occs ==> u.name in NamesOf(occs);
        assert KindsOf(occs + {o}, name) == {o.kind};
      }
    }
  }

  /** The declarative surface of some entry files. */
  ghost predicate IsSurface(src: Sources, entries: seq<File>, t: Table) {
    exists files :: AreReachable(src, entries, files) && Describes(t, Exports(src, files))
  }

  ghost predicate AreReachable(src: Sources, entries: seq<File>, files: set<File>) {
    forall f :: f in files <==> Reachable(src, entries, f)
  }

  ghost predicate Supplies(src: Sources, entries: seq<File>, f: File, name: string, k: ExportKind) {
    Reachable(src, entries, f) && FileLists(src, f, name, k)
  }

  ghost predicate IsSupplier(src: Sources, entries: seq<File>, f: File, name: string) {
    exists k :: Supplies(src, entries, f, name, k)
  }

  ghost predicate Bounded(src: Sources, entries: seq<File>, name: string, u: ExportKind) {
    forall f, k :: Supplies(src, entries, f, name, k) ==> Below(k, u)
  }

  /** The table in terms of the statements alone: a file is among the paths of a name if and only if it is
      reachable and one of its statements exports the name, and the kind of the name is the least that all
      those statements' kinds are below. */
  ghost predicate Tabulates(src: Sources, entries: seq<File>, t: Table) {
    && (forall name, f :: (name in t && f in t[name].paths) <==> IsSupplier(src, entries, f, name))
    && (forall name :: name in t ==> t[name].paths != {})
    && forall name :: name in t ==>
         && Bounded(src, entries, name, t[name].kind)
         && forall u :: Bounded(src, entries, name, u) ==> Below(t[name].kind, u)
  }

  lemma SurfaceTabulates(src: Sources, entries: seq<File>, t: Table)
    requires IsSurface(src, entries, t)
    ensures Tabulates(src, entries, t)
  {
    var files :| AreReachable(src, entries, files) && Describes(t, Exports(src, files));
    var occs := Exports(src, files);
    forall o ensures o in occs <==> Supplies(src, entries, o.file, o.name, o.kind) {
      OccursWhenSupplied(src, entries, files, o);
    }
    forall name | name in t ensures t[name].paths != {} {
      var o :| o in occs && o.name == name;
      assert o.file in FilesOf(occs, name);
    }
    forall name, f ensures (name in t && f in t[name].paths) <==> IsSupplier(src, entries, f, name) {
      FilesAreSupplied(src, entries, t, occs, name, f);
    }
    forall name | name in t
      ensures Bounded(src, entries, name, t[name].kind)
      ensures forall u :: Bounded(src, entries, name, u) ==> Below(t[name].kind, u)
    {
      KindsAreSupplied(src, entries, occs, name);
    }
  }

  lemma OccursWhenSupplied(src: Sources, entries: seq<File>, files: set<File>, o: Occurrence)
    requires AreReachable(src, entries, files)
    ensures o in Exports(src, files) <==> Supplies(src, entries, o.file, o.name, o.kind)
  {
    forall f ensures o in FileExports(src, f) <==> o.file == f && FileLists(src, f, o.name, o.kind) {
      FileExportsAre(src, f, o);
    }
  }

  lemma FilesAreSupplied(
    src: Sources, entries: seq<File>, t: Table, occs: set<Occurrence>, name: string, f: File)
    requires Describes(t, occs) && forall o :: o in occs <==> Supplies(src, entries, o.file, o.name, o.kind)
    ensures (name in t && f in t[name].paths) <==> IsSupplier(src, entries, f, name)
  {
    if name in t && f in t[name].paths {
      var o :| o in occs && o.name == name && o.file == f;
      assert Supplies(src, entries, f, name, o.kind);
    }
    if k :| Supplies(src, entries, f, name, k) {
      var o := Occurrence(f, name, k);
      assert o in occs && o.name in NamesOf(occs) && o.file in FilesOf(occs, name);
    }
  }

  lemma KindsAreSupplied(src: Sources, entries: seq<File>, occs: set<Occurrence>, name: string)
    requires forall o :: o in occs <==> Supplies(src, entries, o.file, o.name, o.kind)
    ensures forall u :: Bounded(src, entries, name, u) <==> forall a :: a in KindsOf(occs, name) ==> Below(a, u)
  {
    forall u ensures Bounded(src, entries, name, u) <==> forall a :: a in KindsOf(occs, name) ==> Below(a, u) {
      if forall a :: a in KindsOf(occs, name) ==> Below(a, u) {
        forall f, k | Supplies(src, entries, f, name, k) ensures Below(k, u) {
          var o := Occurrence(f, name, k);
          assert o in occs && k in KindsOf(occs, name);
        }
      }
    }
  }

  /** The surface does not depend on the order or repetition of entry files. */
  lemma SurfaceIsDetermined(src: Sources, e1: seq<File>, e2: seq<File>, t1: Table, t2: Table)
    requires forall f :: f in e1 <==> f in e2
    requires IsSurface(src, e1, t1) && IsSurface(src, e2, t2)
    ensures t1 == t2
  {
    var f1 :| AreReachable(src, e1, f1) && Describes(t1, Exports(src, f1));
    var f2 :| AreReachable(src, e2, f2) && Describes(t2, Exports(src, f2));
    SameFiles(src, e1, e2, f1, f2);
    DescribedOnce(t1, t2, Exports(src, f1));
  }

  lemma SameFiles(src: Sources, e1: seq<File>, e2: seq<File>, f1: set<File>, f2: set<File>)
    requires forall f :: f in e1 <==> f in e2
    requires AreReachable(src, e1, f1) && AreReachable(src, e2, f2)
    ensures f1 == f2
  {
    assert forall f :: f in f1 ==> Reachable(src, e1, f) && Reachable(src, e2, f);
    assert forall f :: f in f2 ==> Reachable(src, e2, f) && Reachable(src, e1, f);
  }

  lemma DescribedOnce(t1: Table, t2: Table, occs: set<Occurrence>)
    requires Describes(t1, occs) && Describes(t2, occs)
    ensures t1 == t2
  {
    forall name | name in t1 ensures t1[name] == t2[name] {
      JoinIsUnique(t1[name].kind, t2[name].kind, KindsOf(occs, name));
    }
  }

  // ----- The walk -----

  class Walker {
    const sources: Sources
    var output: Table
    var visited: set<File>
    var seen: set<Key>
    ghost var occs: set<Occurrence>

    constructor (sources: Sources)
      ensures this.sources == sources && output == map[] && visited == {} && occs == {}
    {
      this.sources := sources;
      output, visited, seen, occs := map[], {}, {}, {};
    }

    ghost predicate Valid()
      reads this`output, this`occs
    {
      Describes(output, occs)
    }

    method Add(name: string, kind: ExportKind, file: File)
      requires Valid()
      modifies this`output, this`occs
      ensures Valid() && occs == old(occs) + {Occurrence(file, name, kind)}
    {
      AddedDescribes(output, occs, Occurrence(file, name, kind));
      var kind' := MergeKind(if name in output then Some(output[name].kind) else None, kind);
      var paths := if name in output then output[name].paths else {};
      output := output[name := Info(kind', paths + {file})];
      occs := occs + {Occurrence(file, name, kind)};
    }

    /** One search, continuing with the keys seen so far. */
    method Search(a: Key, ghost names: set<string>) returns (kind: Option<ExportKind>)
      requires Bounds(sources, names) && a.name in names
      modifies this`seen
      ensures (kind, seen) == KindOf(sources, names, a, old(seen))
      decreases Unseen(sources, names, seen)
    {
      if a in seen {
        return None;
      }
      seen := seen + {a};
      if a.file !in sources {
        return None;
      }
      ghost var start := seen;
      assert a in Unseen(sources, names, old(seen)) && a !in Unseen(sources, names, start);
      var statements := sources[a.file];
      for i := 0 to |statements|
        invariant start <= seen
        invariant KindFrom(sources, names, a, i, seen) == KindFrom(sources, names, a, 0, start)
      {
        match Judge(statements[i], a.name) {
          case Found(k) =>
            return Some(k);
          case Follow(b) =>
            FollowedNameIsBounded(sources, names, a, i);
            kind := Search(b, names);
            return kind;
          case Try(file) =>
            kind := Search(Key(file, a.name), names);
            if kind.Some? {
              return kind;
            }
          case Skip =>
        }
      }
      return None;
    }

    /** A search with a new set of seen keys. */
    method KindOfKey(a: Key) returns (kind: Option<ExportKind>)
      modifies this`seen
      ensures kind == KindOfExport(sources, a)
    {
      seen := {};
      kind := Search(a, SourceNames(sources) + {a.name});
    }

    /** One element of an export list. */
    method AddElement(f: File, typeOnly: bool, target: Option<File>, e: Element)
      requires Valid()
      modifies this`output, this`occs, this`seen
      ensures Valid()
      ensures occs == old(occs) + {Occurrence(f, e.name, ElementKind(sources, typeOnly, target, e))}
    {
      var kind := ValueAndType;
      if typeOnly || e.typeOnly {
        kind := Type;
      } else if target.Some? {
        var found := KindOfKey(Key(target.value, e.source));
        kind := if found.Some? then found.value else ValueAndType;
      }
      Add(e.name, kind, f);
    }

    method AddElements(f: File, typeOnly: bool, target: Option<File>, elements: seq<Element>)
      requires Valid()
      modifies this`output, this`occs, this`seen
      ensures Valid()
      ensures occs == old(occs) + ElementExports(sources, f, typeOnly, target, elements, |elements|)
    {
      for i := 0 to |elements|
        invariant Valid() && occs == old(occs) + ElementExports(sources, f, typeOnly, target, elements, i)
      {
        ElementsNext(sources, f, typeOnly, target, elements, i);
        AddElement(f, typeOnly, target, elements[i]);
      }
    }

    method AddNames(f: File, names: seq<string>)
      requires Valid()
      modifies this`output, this`occs
      ensures Valid() && occs == old(occs) + NameExports(f, names, |names|)
    {
      for i := 0 to |names|
        invariant Valid() && occs == old(occs) + NameExports(f, names, i)
      {
        Add(names[i], Value, f);
      }
    }

    /** The exports a statement makes by itself, `export *` apart. */
    method AddStatement(f: File, st: Statement)
      requires Valid()
      modifies this`output, this`occs, this`seen
      ensures Valid() && occs == old(occs) + StatementExports(sources, f, st)
    {
      match st {
        case ExportAssignment =>
          Add("default", Default, f);
        case ExportNamespace(name) =>
          Add(name, Value, f);
        case ExportNamed(typeOnly, target, elements) =>
          AddElements(f, typeOnly, target, elements);
        case ExportStar(_) =>
        case Variables(exported, default, names) =>
          if exported {
            if default {
              Add("default", Default, f);
            }
            AddNames(f, names);
          }
        case Declaration(exported, default, form, declared) =>
          if exported {
            if default {
              Add("default", Default, f);
            }
            if declared.Some? {
              Add(declared.value, DeclarationKind(form), f);
            }
          }
        case Other(exported, default) =>
          if exported && default {
            Add("default", Default, f);
          }
      }
    }

    /** Visits a file and everything it re-exports wholesale. Files visited meanwhile are reachable
        from it and closed under `export *`; the table grows by exactly what they export. */
    method Visit(f: File)
      requires Valid()
      modifies this
      ensures Valid() && old(visited) <= visited && f in visited
      ensures occs == old(occs) + Exports(sources, visited - old(visited))
      ensures Closed(sources, visited - old(visited), visited)
      ensures AllReached(sources, f, visited - old(visited))
      decreases sources.Keys - visited, 1
    {
      if f in visited {
        return;
      }
      visited := visited + {f};
      ReachesItself(sources, f);
      if f in sources {
        VisitStatements(f);
        ghost var before := old(visited) + {f};
        ExportsSplit(sources, visited - before, {f});
        assert visited - old(visited) == (visited - before) + {f};
      }
    }

    method VisitStatements(f: File)
      requires Valid() && f in sources && f in visited
      modifies this
      ensures Valid() && old(visited) <= visited
      ensures occs == old(occs) + Exports(sources, visited - old(visited)) + FileExports(sources, f)
      ensures Closed(sources, visited - old(visited) + {f}, visited)
      ensures AllReached(sources, f, visited - old(visited))
      decreases sources.Keys - visited, 3
    {
      var statements := sources[f];
      ghost var before := visited;
      for i := 0 to |statements|
        invariant Valid() && before <= visited
        invariant occs == old(occs) + Exports(sources, visited - before) + ExportsUpTo(sources, f, i)
        invariant Closed(sources, visited - before, visited)
        invariant StarsVisited(sources, f, i, visited)
        invariant AllReached(sources, f, visited - before)
      {
        ghost var visited0, occs0 := visited, occs;
        VisitStatement(f, i);
        ExportsGrow(sources, f, i, before, visited0, visited, old(occs), occs0, occs);
        WalkGrows(sources, f, i, before, visited0, visited);
      }
      assert forall b :: StarEdge(sources, f, b) ==> b in visited;
    }

    method VisitStatement(f: File, i: nat)
      requires Valid() && f in sources && i < |sources[f]|
      modifies this
      ensures Valid() && old(visited) <= visited
      ensures occs == old(occs) + Exports(sources, visited - old(visited))
                      + StatementExports(sources, f, sources[f][i])
      ensures forall b :: IsStar(sources, f, i, b) ==> b in visited
      ensures Closed(sources, visited - old(visited), visited)
      ensures AllReached(sources, f, visited - old(visited))
      decreases sources.Keys - visited, 2
    {
      var st := sources[f][i];
      if st.ExportStar? {
        if st.target.Some? {
          Visit(st.target.value);
          ReachesAfterVisit(sources, f, i, st.target.value, visited - old(visited));
        }
      } else {
        AddStatement(f, st);
      }
    }

    /** The surface of the entry files, in whatever order they come. */
    method ExportsOf(entries: seq<File>)
      requires output == map[] && visited == {} && occs == {}
      modifies this
      ensures IsSurface(sources, entries, output) && Tabulates(sources, entries, output)
    {
      for i := 0 to |entries|
        invariant Valid() && occs == Exports(sources, visited)
        invariant forall j :: 0 <= j < i ==> entries[j] in visited
        invariant Closed(sources, visited, visited)
        invariant forall a :: a in visited ==> Reachable(sources, entries, a)
      {
        ghost var visited0 := visited;
        Visit(entries[i]);
        ExportsSplit(sources, visited0, visited - visited0);
        assert visited == visited0 + (visited - visited0);
        forall a | a in visited - visited0 ensures Reachable(sources, entries, a) {
          assert entries[i] in entries && Reaches(sources, entries[i], a);
        }
      }
      forall f | Reachable(sources, entries, f) ensures f in visited {
        ClosedContainsReachable(sources, entries, visited, f);
      }
      assert AreReachable(sources, entries, visited);
      SurfaceTabulates(sources, entries, output);
    }
  }

  lemma ExportsSplit(src: Sources, a: set<File>, b: set<File>)
    ensures Exports(src, a + b) == Exports(src, a) + Exports(src, b)
  {
  }

  lemma ExportsGrow(
    src: Sources, f: File, i: nat, before: set<File>, visited0: set<File>, visited: set<File>,
    base: set<Occurrence>, occs0: set<Occurrence>, occs: set<Occurrence>)
    requires f in src && i < |src[f]| && before <= visited0 <= visited
    requires occs0 == base + Exports(src, visited0 - before) + ExportsUpTo(src, f, i)
    requires occs == occs0 + Exports(src, visited - visited0) + StatementExports(src, f, src[f][i])
    ensures occs == base + Exports(src, visited - before) + ExportsUpTo(src, f, i + 1)
  {
    assert visited - before == (visited0 - before) + (visited - visited0);
    ExportsSplit(src, visited0 - before, visited - visited0);
    ExportsNext(src, f, i);
    Regroup(base, Exports(src, visited0 - before), ExportsUpTo(src, f, i),
      Exports(src, visited - visited0), StatementExports(src, f, src[f][i]));
  }

  lemma ElementsNext(
    src: Sources, f: File, typeOnly: bool, target: Option<File>, elements: seq<Element>, i: nat)
    requires i < |elements|
    ensures ElementExports(src, f, typeOnly, target, elements, i + 1)
         == ElementExports(src, f, typeOnly, target, elements, i)
            + {Occurrence(f, elements[i].name, ElementKind(src, typeOnly, target, elements[i]))}
  {
  }

  lemma ExportsNext(src: Sources, f: File, i: nat)
    requires f in src && i < |src[f]|
    ensures ExportsUpTo(src, f, i + 1) == ExportsUpTo(src, f, i) + StatementExports(src, f, src[f][i])
  {
  }

  lemma Regroup<T>(base: set<T>, a: set<T>, b: set<T>, c: set<T>, d: set<T>)
    ensures (base + a + b) + c + d == base + (a + c) + (b + d)
  {
  }

  lemma WalkGrows(
    src: Sources, f: File, i: nat, before: set<File>, visited0: set<File>, visited: set<File>)
    requires before <= visited0 <= visited
    requires Closed(src, visited0 - before, visited0) && Closed(src, visited - visited0, visited)
    requires AllReached(src, f, visited0 - before) && AllReached(src, f, visited - visited0)
    requires StarsVisited(src, f, i, visited0) && forall b :: IsStar(src, f, i, b) ==> b in visited
    ensures Closed(src, visited - before, visited) && AllReached(src, f, visited - before)
    ensures StarsVisited(src, f, i + 1, visited)
  {
  }

  lemma ReachesAfterVisit(src: Sources, f: File, i: nat, target: File, found: set<File>)
    requires IsStar(src, f, i, target) && AllReached(src, target, found)
    ensures AllReached(src, f, found)
  {
    assert StarEdge(src, f, target);
    forall a | a in found ensures Reaches(src, f, a) {
      ReachesThrough(src, f, target, a);
    }
  }

  lemma ClosedContainsReachable(src: Sources, entries: seq<File>, files: set<File>, f: File)
    requires forall e :: e in entries ==> e in files
    requires Closed(src, files, files)
    requires Reachable(src, entries, f)
    ensures f in files
  {
    var e :| e in entries && Reaches(src, e, f);
    var path :| StarPath(src, path) && path[0] == e && path[|path| - 1] == f;
    ClosedContainsPath(src, files, path, |path| - 1);
  }

  lemma {:induction false} ClosedContainsPath(src: Sources, files: set<File>, path: seq<File>, i: nat)
    requires StarPath(src, path) && i < |path| && path[0] in files
    requires Closed(src, files, files)
    ensures path[i] in files
  {
    if i > 0 {
      ClosedContainsPath(src, files, path, i - 1);
      assert StarEdge(src, path[i - 1], path[i - 1 + 1]);
    }
  }
}
