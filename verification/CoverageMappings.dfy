/** The API mapping file and its validation. */
module CoverageMappings {
  import opened Options
  import opened Seqs

  datatype Kind = EffectApi | EffectStream | ExpoCompat

  datatype Mapping =
    | Target(package: string, name: string, kind: Kind, target: string,
             deprecated: bool, deprecationReason: Option<string>, atomTarget: Option<string>)
    | Divergent(package: string, name: string, reason: string)

  datatype TypeKind = EffectType | ExpoCompatType

  datatype TypeMapping =
    | TypeTarget(package: string, name: string, typeKind: TypeKind, target: string)
    | TypeDivergent(package: string, name: string, reason: string)

  datatype Config = Config(revision: string, mappings: seq<Mapping>, typeMappings: seq<TypeMapping>)

  datatype Problem =
    | WrongRevision | Duplicate(key: string) | MissingReason(key: string) | InvalidDeprecation(key: string)
    | MisplacedAtom(key: string) | DuplicateAtom(atom: string)
    | DuplicateType(key: string) | MissingTypeReason(key: string)

  function MappingKey(package: string, name: string): string {
    package + "#" + name
  }

  function Key(m: Mapping): string {
    MappingKey(m.package, m.name)
  }

  function TypeKey(m: TypeMapping): string {
    MappingKey(m.package, m.name)
  }

  /** The key of an export, whose package and name do not contain the separator, is no other's. */
  lemma KeysDiffer(p: string, m: string, q: string, n: string)
    requires '#' !in p && '#' !in m
    ensures MappingKey(p, m) == MappingKey(q, n) <==> p == q && m == n
  {
    var a, b := MappingKey(p, m), MappingKey(q, n);
    assert b[|q|] == '#';
    if |q| < |p| {
      assert a[|q|] == p[|q|];
    } else if |p| < |q| < |a| {
      assert a[|q|] == m[|q| - |p| - 1];
    } else if |p| == |q| {
      assert p == a[..|p|] && q == b[..|p|] && m == a[|p| + 1..] && n == b[|p| + 1..];
    }
  }

  predicate IsSpace(c: char) {
    || c == ' ' || '\t' <= c <= '\r' || c == '\U{00A0}' || c == '\U{1680}' || '\U{2000}' <= c <= '\U{200A}'
    || c == '\U{2028}' || c == '\U{2029}' || c == '\U{202F}' || c == '\U{205F}' || c == '\U{3000}' || c == '\U{FEFF}'
  }

  predicate Blank(s: string) {
    forall i :: 0 <= i < |s| ==> IsSpace(s[i])
  }

  predicate IsHook(name: string) {
    "use" <= name
  }

  predicate GoodDeprecation(deprecated: bool, reason: Option<string>) {
    if deprecated then reason.Some? && !Blank(reason.value) else reason.None?
  }

  predicate HasAtom(m: Mapping) {
    m.Target? && m.atomTarget.Some?
  }

  ghost predicate KeySeen(ms: seq<Mapping>, n: nat, key: string)
    requires n <= |ms|
  {
    exists j :: 0 <= j < n && Key(ms[j]) == key
  }

  ghost predicate AtomSeen(ms: seq<Mapping>, n: nat, atom: string)
    requires n <= |ms|
  {
    exists j :: 0 <= j < n && HasAtom(ms[j]) && ms[j].atomTarget == Some(atom)
  }

  ghost predicate TypeKeySeen(ms: seq<TypeMapping>, n: nat, key: string)
    requires n <= |ms|
  {
    exists j :: 0 <= j < n && TypeKey(ms[j]) == key
  }

  /** What is wrong with a mapping after those before it, checked in this order. */
  ghost function ProblemAt(ms: seq<Mapping>, i: nat): Option<Problem>
    requires i < |ms|
  {
    var m := ms[i];
    if KeySeen(ms, i, Key(m)) then Some(Duplicate(Key(m)))
    else if m.Divergent? then
      if Blank(m.reason) then Some(MissingReason(Key(m))) else None
    else if !GoodDeprecation(m.deprecated, m.deprecationReason) then Some(InvalidDeprecation(Key(m)))
    else if m.atomTarget.None? then None
    else if m.kind != ExpoCompat || !IsHook(m.name) then Some(MisplacedAtom(Key(m)))
    else if AtomSeen(ms, i, m.atomTarget.value) then
      Some(DuplicateAtom(m.atomTarget.value))
    else None
  }

  ghost function TypeProblemAt(ms: seq<TypeMapping>, i: nat): Option<Problem>
    requires i < |ms|
  {
    var m := ms[i];
    if TypeKeySeen(ms, i, TypeKey(m)) then Some(DuplicateType(TypeKey(m)))
    else if m.TypeDivergent? && Blank(m.reason) then Some(MissingTypeReason(TypeKey(m)))
    else None
  }

  ghost predicate First(problem: Option<Problem>, ms: seq<Mapping>) {
    if problem.None? then forall i :: 0 <= i < |ms| ==> ProblemAt(ms, i) == None
    else exists i :: 0 <= i < |ms| && ProblemAt(ms, i) == problem
                     && forall j :: 0 <= j < i ==> ProblemAt(ms, j) == None
  }

  ghost predicate FirstType(problem: Option<Problem>, ms: seq<TypeMapping>) {
    if problem.None? then forall i :: 0 <= i < |ms| ==> TypeProblemAt(ms, i) == None
    else exists i :: 0 <= i < |ms| && TypeProblemAt(ms, i) == problem
                     && forall j :: 0 <= j < i ==> TypeProblemAt(ms, j) == None
  }

  method ValidateMappings(ms: seq<Mapping>) returns (problem: Option<Problem>)
    ensures First(problem, ms)
  {
    var seen: set<string>, atoms: set<string> := {}, {};
    for i := 0 to |ms|
      invariant forall j :: 0 <= j < i ==> ProblemAt(ms, j) == None
      invariant forall k :: k in seen <==> KeySeen(ms, i, k)
      invariant forall a :: a in atoms <==> AtomSeen(ms, i, a)
    {
      ghost var here := ProblemAt(ms, i);
      var m := ms[i];
      var key := Key(m);
      if key in seen {
        return Some(Duplicate(key));
      }
      assert !KeySeen(ms, i, key);
      seen := seen + {key};
      match m
      case Divergent(_, _, reason) =>
        if Blank(reason) {
          return Some(MissingReason(key));
        }
      case Target(_, name, kind, _, deprecated, deprecationReason, atomTarget) =>
        if !GoodDeprecation(deprecated, deprecationReason) {
          return Some(InvalidDeprecation(key));
        }
        if atomTarget.Some? {
          if kind != ExpoCompat || !IsHook(name) {
            return Some(MisplacedAtom(key));
          }
          if atomTarget.value in atoms {
            return Some(DuplicateAtom(atomTarget.value));
          }
          atoms := atoms + {atomTarget.value};
        }
    }
    problem := None;
  }

  method ValidateTypeMappings(ms: seq<TypeMapping>) returns (problem: Option<Problem>)
    ensures FirstType(problem, ms)
  {
    var seen: set<string> := {};
    for i := 0 to |ms|
      invariant forall j :: 0 <= j < i ==> TypeProblemAt(ms, j) == None
      invariant forall k :: k in seen <==> TypeKeySeen(ms, i, k)
    {
      ghost var here := TypeProblemAt(ms, i);
      var m := ms[i];
      var key := TypeKey(m);
      if key in seen {
        return Some(DuplicateType(key));
      }
      assert !TypeKeySeen(ms, i, key);
      seen := seen + {key};
      if m.TypeDivergent? && Blank(m.reason) {
        return Some(MissingTypeReason(key));
      }
    }
    problem := None;
  }

  /** The validation of the whole file: its first problem, if there is one. */
  method Validate(config: Config, revision: string) returns (problem: Option<Problem>)
    ensures config.revision != revision ==> problem == Some(WrongRevision)
    ensures config.revision == revision ==>
              || First(problem, config.mappings)
              || (First(None, config.mappings) && FirstType(problem, config.typeMappings))
    ensures problem.Some? && problem.value != WrongRevision ==>
              IsReal(problem.value, config.mappings, config.typeMappings)
    ensures problem.None? <==>
              config.revision == revision && ValidMappings(config.mappings) && ValidTypes(config.typeMappings)
  {
    ValidWithoutProblem(config.mappings);
    ValidTypesWithoutProblem(config.typeMappings);
    if config.revision != revision {
      return Some(WrongRevision);
    }
    problem := ValidateMappings(config.mappings);
    if problem.None? {
      problem := ValidateTypeMappings(config.typeMappings);
    }
    if problem.Some? {
      ReportedProblemIsReal(config, problem.value);
    }
  }

  // ----- What valid mappings are -----

  predicate GoodMapping(m: Mapping) {
    match m
    case Divergent(_, _, reason) => !Blank(reason)
    case Target(_, name, kind, _, deprecated, reason, atom) =>
      GoodDeprecation(deprecated, reason) && (atom.Some? ==> kind == ExpoCompat && IsHook(name))
  }

  /** No export mapped twice, every mapping well documented, atoms only for Expo-compatible hooks and
      no atom for two of them. */
  ghost predicate ValidMappings(ms: seq<Mapping>) {
    && Distinct(Map(ms, Key)) && (forall i :: 0 <= i < |ms| ==> GoodMapping(ms[i]))
    && forall i, j :: 0 <= i < j < |ms| && HasAtom(ms[i]) && HasAtom(ms[j]) ==> ms[i].atomTarget != ms[j].atomTarget
  }

  ghost predicate ValidTypes(ms: seq<TypeMapping>) {
    Distinct(Map(ms, TypeKey)) && forall i :: 0 <= i < |ms| ==> ms[i].TypeDivergent? ==> !Blank(ms[i].reason)
  }

  /** The mappings pass one by one if and only if they are valid as a whole. */
  lemma ValidWithoutProblem(ms: seq<Mapping>)
    ensures First(None, ms) <==> ValidMappings(ms)
  {
    if First(None, ms) {
      forall i, j | 0 <= i < j < |ms|
        ensures Key(ms[i]) != Key(ms[j])
        ensures HasAtom(ms[i]) && HasAtom(ms[j]) ==> ms[i].atomTarget != ms[j].atomTarget
      {
        assert ProblemAt(ms, j) == None;
      }
      forall i | 0 <= i < |ms| ensures GoodMapping(ms[i]) {
        assert ProblemAt(ms, i) == None;
      }
    }
    if ValidMappings(ms) {
      forall i | 0 <= i < |ms| ensures ProblemAt(ms, i) == None {
        assert GoodMapping(ms[i]);
        forall j | 0 <= j < i ensures Key(ms[j]) != Key(ms[i]) {
          assert Map(ms, Key)[j] != Map(ms, Key)[i];
        }
      }
    }
  }

  /** What a reported problem is about, whatever the order of the checks. */
  ghost predicate IsReal(problem: Problem, ms: seq<Mapping>, ts: seq<TypeMapping>) {
    match problem
    case WrongRevision => false
    case Duplicate(key) => exists i, j :: 0 <= i < j < |ms| && Key(ms[i]) == key == Key(ms[j])
    case MissingReason(key) => exists m :: m in ms && Key(m) == key && m.Divergent? && Blank(m.reason)
    case InvalidDeprecation(key) =>
      exists m :: m in ms && Key(m) == key && m.Target?
        && if m.deprecated then m.deprecationReason == None || Blank(m.deprecationReason.value)
           else m.deprecationReason.Some?
    case MisplacedAtom(key) =>
      exists m :: m in ms && Key(m) == key && HasAtom(m) && (m.kind != ExpoCompat || !("use" <= m.name))
    case DuplicateAtom(atom) =>
      exists i, j :: 0 <= i < j < |ms| && HasAtom(ms[i]) && HasAtom(ms[j])
        && ms[i].atomTarget == Some(atom) == ms[j].atomTarget
    case DuplicateType(key) => exists i, j :: 0 <= i < j < |ts| && TypeKey(ts[i]) == key == TypeKey(ts[j])
    case MissingTypeReason(key) => exists t :: t in ts && TypeKey(t) == key && t.TypeDivergent? && Blank(t.reason)
  }

  lemma ProblemIsReal(ms: seq<Mapping>, i: nat, problem: Problem, ts: seq<TypeMapping>)
    requires i < |ms| && ProblemAt(ms, i) == Some(problem)
    ensures IsReal(problem, ms, ts)
  {
    var m := ms[i];
    assert m in ms;
    if KeySeen(ms, i, Key(m)) {
      var j :| 0 <= j < i && Key(ms[j]) == Key(m);
    } else if problem.DuplicateAtom? {
      var j :| 0 <= j < i && HasAtom(ms[j]) && ms[j].atomTarget == m.atomTarget;
    }
  }

  lemma TypeProblemIsReal(ts: seq<TypeMapping>, i: nat, problem: Problem, ms: seq<Mapping>)
    requires i < |ts| && TypeProblemAt(ts, i) == Some(problem)
    ensures IsReal(problem, ms, ts)
  {
    var t := ts[i];
    assert t in ts;
    if TypeKeySeen(ts, i, TypeKey(t)) {
      var j :| 0 <= j < i && TypeKey(ts[j]) == TypeKey(t);
    }
  }

  lemma ReportedProblemIsReal(config: Config, problem: Problem)
    requires First(Some(problem), config.mappings) || FirstType(Some(problem), config.typeMappings)
    ensures IsReal(problem, config.mappings, config.typeMappings)
  {
    if First(Some(problem), config.mappings) {
      var i :| 0 <= i < |config.mappings| && ProblemAt(config.mappings, i) == Some(problem);
      ProblemIsReal(config.mappings, i, problem, config.typeMappings);
    } else {
      var i :| 0 <= i < |config.typeMappings| && TypeProblemAt(config.typeMappings, i) == Some(problem);
      TypeProblemIsReal(config.typeMappings, i, problem, config.mappings);
    }
  }

  lemma ValidTypesWithoutProblem(ms: seq<TypeMapping>)
    ensures FirstType(None, ms) <==> ValidTypes(ms)
  {
    if FirstType(None, ms) {
      forall i, j | 0 <= i < j < |ms| ensures TypeKey(ms[i]) != TypeKey(ms[j]) {
        assert TypeProblemAt(ms, j) == None;
      }
      forall i | 0 <= i < |ms| ensures ms[i].TypeDivergent? ==> !Blank(ms[i].reason) {
        assert TypeProblemAt(ms, i) == None;
      }
    }
    if ValidTypes(ms) {
      forall i | 0 <= i < |ms| ensures TypeProblemAt(ms, i) == None {
        forall j | 0 <= j < i ensures TypeKey(ms[j]) != TypeKey(ms[i]) {
          assert Map(ms, TypeKey)[j] != Map(ms, TypeKey)[i];
        }
      }
    }
  }
}
