/** Finding the kind of a re-exported name by following `export` statements through files that may
    re-export each other in cycles. */
module ReExports {
  import opened Options

  type File = string

  datatype ExportKind = Type | Value | ValueAndType | OpaqueModule | Default

  datatype DeclarationForm = FunctionForm | ClassForm | InterfaceForm | TypeAliasForm | EnumForm

  /** `source as name`; `source` is `name` itself where no renaming is written. */
  datatype Element = Element(name: string, source: string, typeOnly: bool)

  /** A statement with its module specifier already resolved to a file, where it has one. */
  datatype Statement =
    | ExportAssignment
    | ExportNamed(typeOnly: bool, target: Option<File>, elements: seq<Element>)
    | ExportNamespace(name: string)
    | ExportStar(target: Option<File>)
    | Variables(exported: bool, default: bool, names: seq<string>)
    | Declaration(exported: bool, default: bool, form: DeclarationForm, declared: Option<string>)
    | Other(exported: bool, default: bool)

  type Sources = map<File, seq<Statement>>

  datatype Key = Key(file: File, name: string)

  function DeclarationKind(form: DeclarationForm): ExportKind {
    if form.InterfaceForm? || form.TypeAliasForm? then Type
    else if form.ClassForm? || form.EnumForm? then ValueAndType
    else Value
  }

  function FindElement(elements: seq<Element>, name: string): Option<Element> {
    if elements == [] then None
    else if elements[0].name == name then Some(elements[0])
    else FindElement(elements[1..], name)
  }

  /** What a statement says about `name`: its kind, that another file decides, that another file
      may know, or nothing. */
  datatype Verdict = Found(kind: ExportKind) | Follow(key: Key) | Try(file: File) | Skip

  function Judge(st: Statement, name: string): Verdict {
    match st
    case Declaration(_, _, form, declared) =>
      if declared == Some(name) then Found(DeclarationKind(form)) else Skip
    case Variables(_, _, names) => if name in names then Found(Value) else Skip
    case ExportStar(target) => if target.Some? then Try(target.value) else Skip
    case ExportNamespace(n) => if n == name then Found(Value) else Skip
    case ExportNamed(typeOnly, target, elements) =>
      var element := FindElement(elements, name);
      if element.None? then Skip
      else if typeOnly || element.value.typeOnly then Found(Type)
      else if target.None? then Found(ValueAndType)
      else Follow(Key(target.value, element.value.source))
    case _ => Skip
  }

  // ----- What the verdict means -----

  /** A declaration of this form has a value at run time. */
  predicate HasValue(form: DeclarationForm) {
    form == FunctionForm || form == ClassForm || form == EnumForm
  }

  /** And a type. */
  predicate HasType(form: DeclarationForm) {
    form != FunctionForm
  }

  predicate DeclaresAs(form: DeclarationForm, k: ExportKind) {
    match k
    case Type => HasType(form) && !HasValue(form)
    case Value => HasValue(form) && !HasType(form)
    case ValueAndType => HasValue(form) && HasType(form)
    case _ => false
  }

  /** Of the elements exported under `name`, the `i`-th is the first. */
  predicate FirstNamed(elements: seq<Element>, name: string, i: nat) {
    i < |elements| && elements[i].name == name && forall j :: 0 <= j < i ==> elements[j].name != name
  }

  lemma {:induction false} FoundIsFirst(elements: seq<Element>, name: string, i: nat)
    requires FirstNamed(elements, name, i)
    ensures FindElement(elements, name) == Some(elements[i])
  {
    if i > 0 {
      assert elements[0].name != name;
      assert forall j :: 0 <= j < i - 1 ==> elements[1..][j] == elements[j + 1];
      FoundIsFirst(elements[1..], name, i - 1);
    }
  }

  lemma {:induction false} FoundHasIndex(elements: seq<Element>, name: string) returns (i: nat)
    requires FindElement(elements, name).Some?
    ensures FirstNamed(elements, name, i)
  {
    if elements[0].name == name {
      i := 0;
    } else {
      var k := FoundHasIndex(elements[1..], name);
      i := k + 1;
      assert forall j :: 1 <= j < i ==> elements[j] == elements[1..][j - 1];
    }
  }

  /** The statement itself gives `name` the kind `k`. */
  ghost predicate Gives(st: Statement, name: string, k: ExportKind) {
    match st
    case Declaration(_, _, form, declared) => declared == Some(name) && DeclaresAs(form, k)
    case Variables(_, _, names) => name in names && k == Value
    case ExportNamespace(n) => n == name && k == Value
    case ExportNamed(typeOnly, target, elements) =>
      exists i: nat :: FirstNamed(elements, name, i)
        && if typeOnly || elements[i].typeOnly then k == Type else target.None? && k == ValueAndType
    case _ => false
  }

  /** The statement re-exports as `name` what another file calls `b.name`. */
  ghost predicate Forwards(st: Statement, name: string, b: Key) {
    st.ExportNamed? && st.target == Some(b.file) && !st.typeOnly
    && exists i: nat :: FirstNamed(st.elements, name, i) && !st.elements[i].typeOnly && st.elements[i].source == b.name
  }

  /** Each verdict says exactly that; in particular a renamed element is looked up by its source name. */
  lemma VerdictMeans(st: Statement, name: string, k: ExportKind, b: Key, f: File)
    ensures Judge(st, name) == Found(k) <==> Gives(st, name, k)
    ensures Judge(st, name) == Follow(b) <==> Forwards(st, name, b)
    ensures Judge(st, name) == Try(f) <==> st == ExportStar(Some(f))
  {
    if st.ExportNamed? {
      forall i: nat | FirstNamed(st.elements, name, i)
        ensures FindElement(st.elements, name) == Some(st.elements[i])
      {
        FoundIsFirst(st.elements, name, i);
      }
      if FindElement(st.elements, name).Some? {
        var i := FoundHasIndex(st.elements, name);
      }
    }
  }

  // ----- The meaning: chains of re-exports -----

  /** Statement `i` is considered when looking for `a.name` in `a.file`: none before it settles it. */
  ghost predicate Considered(src: Sources, a: Key, i: nat) {
    && a.file in src && i < |src[a.file]|
    && forall j :: 0 <= j < i ==>
         var v := Judge(src[a.file][j], a.name); v.Try? || v.Skip?
  }

  ghost predicate HopAt(src: Sources, a: Key, b: Key, i: nat)
    requires Considered(src, a, i)
  {
    var v := Judge(src[a.file][i], a.name);
    (v.Follow? && v.key == b) || (v.Try? && b == Key(v.file, a.name))
  }

  ghost predicate Hop(src: Sources, a: Key, b: Key) {
    exists i: nat :: Considered(src, a, i) && HopAt(src, a, b, i)
  }

  ghost predicate Defines(src: Sources, a: Key, k: ExportKind) {
    exists i: nat :: Considered(src, a, i) && Judge(src[a.file][i], a.name) == Found(k)
  }

  /** A chain of re-exports that starts at `a` and ends at a statement giving `k`. */
  ghost predicate Chain(src: Sources, a: Key, chain: seq<Key>, k: ExportKind) {
    && chain != [] && chain[0] == a
    && (forall i :: 0 <= i < |chain| - 1 ==> Hop(src, chain[i], chain[i + 1]))
    && Defines(src, chain[|chain| - 1], k)
  }

  // ----- The search -----

  /** `names` is any set with every name the search can ask for; it only bounds the search. */
  ghost predicate Bounds(src: Sources, names: set<string>) {
    forall f, st, e :: f in src && st in src[f] && st.ExportNamed? && e in st.elements ==> e.source in names
  }

  ghost function Unseen(src: Sources, names: set<string>, seen: set<Key>): set<Key> {
    (set f, n | f in src && n in names :: Key(f, n)) - seen
  }

  lemma {:induction false} FoundElement(elements: seq<Element>, name: string)
    ensures FindElement(elements, name).Some? ==>
              FindElement(elements, name).value in elements && FindElement(elements, name).value.name == name
  {
    if elements != [] {
      FoundElement(elements[1..], name);
    }
  }

  /** The kind found from `a` on, and the keys seen so far: a shared set that is never cleared. */
  ghost function KindOf(src: Sources, names: set<string>, a: Key, seen: set<Key>)
    : (r: (Option<ExportKind>, set<Key>))
    requires Bounds(src, names) && a.name in names
    ensures seen + {a} <= r.1
    decreases Unseen(src, names, seen), 0, 0
  {
    if a in seen then (None, seen)
    else if a.file !in src then (None, seen + {a})
    else
      assert a in Unseen(src, names, seen) && a !in Unseen(src, names, seen + {a});
      KindFrom(src, names, a, 0, seen + {a})
  }

  ghost function KindFrom(src: Sources, names: set<string>, a: Key, i: nat, seen: set<Key>)
    : (r: (Option<ExportKind>, set<Key>))
    requires Bounds(src, names) && a.name in names && a.file in src && i <= |src[a.file]|
    ensures seen <= r.1
    decreases Unseen(src, names, seen), 1, |src[a.file]| - i
  {
    if i == |src[a.file]| then (None, seen)
    else match Judge(src[a.file][i], a.name)
      case Found(k) => (Some(k), seen)
      case Follow(b) =>
        FollowedNameIsBounded(src, names, a, i);
        KindOf(src, names, b, seen)
      case Try(file) =>
        var r := KindOf(src, names, Key(file, a.name), seen);
        if r.0.Some? then r else
        assert Unseen(src, names, r.1) <= Unseen(src, names, seen);
        KindFrom(src, names, a, i + 1, r.1)
      case Skip => KindFrom(src, names, a, i + 1, seen)
  }

  lemma FollowedNameIsBounded(src: Sources, names: set<string>, a: Key, i: nat)
    requires Bounds(src, names) && a.file in src && i < |src[a.file]|
    requires Judge(src[a.file][i], a.name).Follow?
    ensures Judge(src[a.file][i], a.name).key.name in names
  {
    var st := src[a.file][i];
    FoundElement(st.elements, a.name);
  }

  /** Every name written as the source of a re-export. */
  ghost function SourceNames(src: Sources): set<string> {
    set f, st, e | f in src && st in src[f] && st.ExportNamed? && e in st.elements :: e.source
  }

  ghost function KindOfExport(src: Sources, a: Key): Option<ExportKind> {
    KindOf(src, SourceNames(src) + {a.name}, a, {}).0
  }

  // ----- Soundness -----

  lemma {:induction false} FoundByChain(src: Sources, names: set<string>, a: Key, seen: set<Key>)
    returns (chain: seq<Key>)
    requires Bounds(src, names) && a.name in names && KindOf(src, names, a, seen).0.Some?
    ensures Chain(src, a, chain, KindOf(src, names, a, seen).0.value)
    decreases Unseen(src, names, seen), 0, 0
  {
    assert a in Unseen(src, names, seen) && a !in Unseen(src, names, seen + {a});
    chain := FoundFrom(src, names, a, 0, seen + {a});
  }

  lemma {:induction false} FoundFrom(src: Sources, names: set<string>, a: Key, i: nat, seen: set<Key>)
    returns (chain: seq<Key>)
    requires Bounds(src, names) && a.name in names && a.file in src && i <= |src[a.file]|
    requires i < |src[a.file]| ==> Considered(src, a, i)
    requires KindFrom(src, names, a, i, seen).0.Some?
    ensures Chain(src, a, chain, KindFrom(src, names, a, i, seen).0.value)
    decreases Unseen(src, names, seen), 1, |src[a.file]| - i
  {
    match Judge(src[a.file][i], a.name) {
      case Found(k) =>
        chain := [a];
      case Follow(b) =>
        FollowedNameIsBounded(src, names, a, i);
        var rest := FoundByChain(src, names, b, seen);
        assert HopAt(src, a, b, i);
        chain := [a] + rest;
      case Try(file) =>
        var b := Key(file, a.name);
        var r := KindOf(src, names, b, seen);
        if r.0.Some? {
          var rest := FoundByChain(src, names, b, seen);
          assert HopAt(src, a, b, i);
          chain := [a] + rest;
        } else {
          assert Unseen(src, names, r.1) <= Unseen(src, names, seen);
          chain := FoundFrom(src, names, a, i + 1, r.1);
        }
      case Skip =>
        chain := FoundFrom(src, names, a, i + 1, seen);
    }
  }

  // ----- Completeness -----

  /** Nothing is defined at `a`, and everything one hop away has been seen. */
  ghost predicate Exhausted(src: Sources, a: Key, seen: set<Key>) {
    && (forall k :: !Defines(src, a, k))
    && (forall b :: Hop(src, a, b) ==> b in seen)
  }

  lemma {:induction false} NotFoundExhausts(src: Sources, names: set<string>, a: Key, seen: set<Key>)
    requires Bounds(src, names) && a.name in names && KindOf(src, names, a, seen).0.None?
    ensures var after := KindOf(src, names, a, seen).1;
            forall b :: b in after - seen ==> Exhausted(src, b, after)
    decreases Unseen(src, names, seen), 0, 0
  {
    if a !in seen && a.file in src {
      assert a in Unseen(src, names, seen) && a !in Unseen(src, names, seen + {a});
      NotFoundFrom(src, names, a, 0, seen + {a});
    }
  }

  lemma {:induction false} NotFoundFrom(src: Sources, names: set<string>, a: Key, i: nat, seen: set<Key>)
    requires Bounds(src, names) && a.name in names && a.file in src && i <= |src[a.file]|
    requires i < |src[a.file]| ==> Considered(src, a, i)
    requires forall j: nat, b :: j < i && Considered(src, a, j) && HopAt(src, a, b, j) ==> b in seen
    requires forall j: nat :: j < i && Considered(src, a, j) ==> !Judge(src[a.file][j], a.name).Found?
    requires KindFrom(src, names, a, i, seen).0.None?
    ensures var after := KindFrom(src, names, a, i, seen).1;
            && Exhausted(src, a, after)
            && forall b :: b in after - seen ==> Exhausted(src, b, after)
    decreases Unseen(src, names, seen), 1, |src[a.file]| - i
  {
    var after := KindFrom(src, names, a, i, seen).1;
    if i < |src[a.file]| {
      match Judge(src[a.file][i], a.name) {
        case Found(_) =>
        case Follow(b) =>
          FollowedNameIsBounded(src, names, a, i);
          NotFoundExhausts(src, names, b, seen);
          assert forall j: nat :: j > i ==> !Considered(src, a, j);
        case Try(file) =>
          var r := KindOf(src, names, Key(file, a.name), seen);
          NotFoundExhausts(src, names, Key(file, a.name), seen);
          assert Unseen(src, names, r.1) <= Unseen(src, names, seen);
          NotFoundFrom(src, names, a, i + 1, r.1);
          ExhaustedGrows(src, r.1 - seen, r.1, after);
        case Skip =>
          NotFoundFrom(src, names, a, i + 1, seen);
      }
    }
  }

  lemma ExhaustedGrows(src: Sources, keys: set<Key>, seen: set<Key>, after: set<Key>)
    requires seen <= after && forall b :: b in keys ==> Exhausted(src, b, seen)
    ensures forall b :: b in keys ==> Exhausted(src, b, after)
  {
  }

  /** The search, with its one shared set of seen keys and on every cyclic graph, finds a kind exactly
      when some chain of re-exports from the query ends at a statement that gives one; and the kind
      it finds is given by such a chain. */
  lemma KindIsFoundExactlyWhenDefined(src: Sources, a: Key)
    ensures KindOfExport(src, a).Some? <==> exists chain, k :: Chain(src, a, chain, k)
    ensures KindOfExport(src, a).Some? ==> exists chain :: Chain(src, a, chain, KindOfExport(src, a).value)
  {
    var names := SourceNames(src) + {a.name};
    if KindOfExport(src, a).Some? {
      var chain := FoundByChain(src, names, a, {});
    } else if chain, k :| Chain(src, a, chain, k) {
      NotFoundExhausts(src, names, a, {});
      ChainStaysInside(src, a, chain, k, KindOf(src, names, a, {}).1, |chain| - 1);
      assert false;
    }
  }

  lemma {:induction false} ChainStaysInside(
    src: Sources, a: Key, chain: seq<Key>, k: ExportKind, seen: set<Key>, i: nat)
    requires Chain(src, a, chain, k) && a in seen && i < |chain|
    requires forall b :: b in seen ==> Exhausted(src, b, seen)
    ensures chain[i] in seen
  {
    if i > 0 {
      ChainStaysInside(src, a, chain, k, seen, i - 1);
      assert Hop(src, chain[i - 1], chain[i - 1 + 1]);
    }
  }

  // ----- Which kind is found -----

  /** The positions of the statements that lead from `a` through no key of `past` and none twice to one
      that gives `k`. */
  ghost predicate Trail(src: Sources, a: Key, past: set<Key>, trail: seq<nat>, k: ExportKind)
    decreases |trail|
  {
    && trail != [] && a !in past && Considered(src, a, trail[0])
    && match Judge(src[a.file][trail[0]], a.name)
       case Found(kind) => |trail| == 1 && kind == k
       case Follow(b) => Trail(src, b, past + {a}, trail[1..], k)
       case Try(file) => Trail(src, Key(file, a.name), past + {a}, trail[1..], k)
       case Skip => false
  }

  /** At the first difference, `s` has the earlier statement. */
  predicate NotAfter(s: seq<nat>, t: seq<nat>) {
    s == [] || (t != [] && (s[0] < t[0] || (s[0] == t[0] && NotAfter(s[1..], t[1..]))))
  }

  ghost predicate NoneBefore(src: Sources, a: Key, past: set<Key>, trail: seq<nat>) {
    forall t, k :: Trail(src, a, past, t, k) ==> NotAfter(trail, t)
  }

  /** The trail that comes first in the order of statements. */
  ghost predicate FirstTrail(src: Sources, a: Key, past: set<Key>, trail: seq<nat>, k: ExportKind) {
    Trail(src, a, past, trail, k) && NoneBefore(src, a, past, trail)
  }

  /** No trail leaves keys that have been searched without success. */
  lemma {:induction false} ExhaustedHasNoTrail(
    src: Sources, a: Key, past: set<Key>, seen: set<Key>, trail: seq<nat>, k: ExportKind)
    requires a in seen && forall b :: b in seen - past ==> Exhausted(src, b, seen)
    ensures !Trail(src, a, past, trail, k)
    decreases |trail|
  {
    if trail != [] && a !in past && Considered(src, a, trail[0]) {
      var i := trail[0];
      assert a in seen - past && Exhausted(src, a, seen);
      assert forall kind :: Judge(src[a.file][i], a.name) == Found(kind) ==> Defines(src, a, kind);
      match Judge(src[a.file][i], a.name) {
        case Found(_) =>
        case Follow(b) =>
          assert HopAt(src, a, b, i) && Hop(src, a, b);
          ExhaustedHasNoTrail(src, b, past + {a}, seen, trail[1..], k);
        case Try(file) =>
          var b := Key(file, a.name);
          assert HopAt(src, a, b, i) && Hop(src, a, b);
          ExhaustedHasNoTrail(src, b, past + {a}, seen, trail[1..], k);
        case Skip =>
      }
    }
  }

  /** What a search finds among keys that are on the way to it or have been searched without success. */
  lemma {:induction false} SearchFindsFirst(
    src: Sources, names: set<string>, a: Key, seen: set<Key>, past: set<Key>) returns (trail: seq<nat>)
    requires Bounds(src, names) && a.name in names && KindOf(src, names, a, seen).0.Some?
    requires past <= seen && forall b :: b in seen - past ==> Exhausted(src, b, seen)
    ensures FirstTrail(src, a, past, trail, KindOf(src, names, a, seen).0.value)
    decreases Unseen(src, names, seen), 0, 0
  {
    assert a in Unseen(src, names, seen) && a !in Unseen(src, names, seen + {a});
    ExhaustedGrows(src, seen - past, seen, seen + {a});
    trail := SearchFindsFirstFrom(src, names, a, 0, seen + {a}, past);
  }

  lemma {:induction false} SearchFindsFirstFrom(
    src: Sources, names: set<string>, a: Key, i: nat, seen: set<Key>, past: set<Key>) returns (trail: seq<nat>)
    requires Bounds(src, names) && a.name in names && a.file in src && i <= |src[a.file]|
    requires i < |src[a.file]| ==> Considered(src, a, i)
    requires KindFrom(src, names, a, i, seen).0.Some?
    requires a !in past && past + {a} <= seen
    requires forall b :: b in seen - (past + {a}) ==> Exhausted(src, b, seen)
    requires forall t, k :: Trail(src, a, past, t, k) ==> t[0] >= i
    ensures FirstTrail(src, a, past, trail, KindFrom(src, names, a, i, seen).0.value)
    decreases Unseen(src, names, seen), 1, |src[a.file]| - i
  {
    match Judge(src[a.file][i], a.name) {
      case Found(k) =>
        trail := [i];
      case Follow(b) =>
        FollowedNameIsBounded(src, names, a, i);
        var rest := SearchFindsFirst(src, names, b, seen, past + {a});
        trail := StepLeads(src, a, b, i, past, rest, KindOf(src, names, b, seen).0.value);
      case Try(file) =>
        var b := Key(file, a.name);
        var r := KindOf(src, names, b, seen);
        if r.0.Some? {
          var rest := SearchFindsFirst(src, names, b, seen, past + {a});
          trail := StepLeads(src, a, b, i, past, rest, r.0.value);
        } else {
          assert Unseen(src, names, r.1) <= Unseen(src, names, seen);
          NothingFoundThere(src, names, a, b, i, seen, past);
          trail := SearchFindsFirstFrom(src, names, a, i + 1, r.1, past);
        }
      case Skip =>
        trail := SearchFindsFirstFrom(src, names, a, i + 1, seen, past);
    }
  }

  lemma StepLeads(
    src: Sources, a: Key, b: Key, i: nat, past: set<Key>, rest: seq<nat>, k: ExportKind) returns (trail: seq<nat>)
    requires a !in past && Considered(src, a, i) && HopAt(src, a, b, i) && FirstTrail(src, b, past + {a}, rest, k)
    requires forall t, k' :: Trail(src, a, past, t, k') ==> t[0] >= i
    ensures trail == [i] + rest && FirstTrail(src, a, past, trail, k)
  {
    trail := [i] + rest;
    assert trail[1..] == rest;
    forall t, k' | Trail(src, a, past, t, k') ensures NotAfter(trail, t) {
      if t[0] == i {
        assert Trail(src, b, past + {a}, t[1..], k');
      }
    }
  }

  /** After an unsuccessful search behind statement `i`, no trail starts there and the seen keys are
      searched. */
  lemma NothingFoundThere(
    src: Sources, names: set<string>, a: Key, b: Key, i: nat, seen: set<Key>, past: set<Key>)
    requires Bounds(src, names) && a.name in names && b.name in names && Considered(src, a, i)
    requires Judge(src[a.file][i], a.name) == Try(b.file) && b.name == a.name
    requires KindOf(src, names, b, seen).0.None?
    requires past + {a} <= seen && forall c :: c in seen - (past + {a}) ==> Exhausted(src, c, seen)
    requires forall t, k :: Trail(src, a, past, t, k) ==> t[0] >= i
    ensures var after := KindOf(src, names, b, seen).1;
            forall c :: c in after - (past + {a}) ==> Exhausted(src, c, after)
    ensures forall t, k :: Trail(src, a, past, t, k) ==> t[0] >= i + 1
  {
    var after := KindOf(src, names, b, seen).1;
    NotFoundExhausts(src, names, b, seen);
    ExhaustedGrows(src, seen - (past + {a}), seen, after);
    forall t, k | Trail(src, a, past, t, k) ensures t[0] >= i + 1 {
      if t[0] == i {
        ExhaustedHasNoTrail(src, b, past + {a}, after, t[1..], k);
      }
    }
  }

  lemma {:induction false} NotAfterEachOther(s: seq<nat>, t: seq<nat>)
    requires NotAfter(s, t) && NotAfter(t, s)
    ensures s == t
  {
    if s != [] {
      NotAfterEachOther(s[1..], t[1..]);
      assert s == [s[0]] + s[1..] && t == [t[0]] + t[1..];
    }
  }

  /** A trail determines its kind. */
  lemma {:induction false} TrailGivesOneKind(
    src: Sources, a: Key, past: set<Key>, trail: seq<nat>, j: ExportKind, k: ExportKind)
    requires Trail(src, a, past, trail, j) && Trail(src, a, past, trail, k)
    ensures j == k
    decreases |trail|
  {
    match Judge(src[a.file][trail[0]], a.name)
    case Follow(b) => TrailGivesOneKind(src, b, past + {a}, trail[1..], j, k);
    case Try(file) => TrailGivesOneKind(src, Key(file, a.name), past + {a}, trail[1..], j, k);
    case _ =>
  }

  lemma {:induction false} TrailIsChain(src: Sources, a: Key, past: set<Key>, trail: seq<nat>, k: ExportKind)
    returns (chain: seq<Key>)
    requires Trail(src, a, past, trail, k)
    ensures Chain(src, a, chain, k)
    decreases |trail|
  {
    var i := trail[0];
    match Judge(src[a.file][i], a.name) {
      case Found(_) =>
        chain := [a];
      case Follow(b) =>
        var rest := TrailIsChain(src, b, past + {a}, trail[1..], k);
        assert HopAt(src, a, b, i);
        chain := [a] + rest;
      case Try(file) =>
        var b := Key(file, a.name);
        var rest := TrailIsChain(src, b, past + {a}, trail[1..], k);
        assert HopAt(src, a, b, i);
        chain := [a] + rest;
    }
  }

  /** Where several chains give different kinds, the one found is that of the first chain in the order of
      statements, among those that pass no key twice; sharing the seen keys never hides it. */
  lemma FirstKindIsFound(src: Sources, a: Key, k: ExportKind)
    ensures KindOfExport(src, a) == Some(k) <==> exists trail :: FirstTrail(src, a, {}, trail, k)
  {
    var names := SourceNames(src) + {a.name};
    if trail :| FirstTrail(src, a, {}, trail, k) {
      var chain := TrailIsChain(src, a, {}, trail, k);
      KindIsFoundExactlyWhenDefined(src, a);
      var found := SearchFindsFirst(src, names, a, {}, {});
      NotAfterEachOther(trail, found);
      TrailGivesOneKind(src, a, {}, trail, k, KindOfExport(src, a).value);
    } else if KindOfExport(src, a) == Some(k) {
      var found := SearchFindsFirst(src, names, a, {}, {});
      assert false;
    }
  }
}
