/** The kind of an entrypoint, from a second traversal of its target. */
module Entrypoints {
  import opened Options
  import opened Seqs
  import opened Resolution

  function TargetStrings(value: Json): seq<string> {
    match value
    case Text(text) => [text]
    case List(items) => TargetsOfItems(items)
    case Record(fields) => TargetsOfFields(fields)
    case _ => []
  }

  function TargetsOfItems(items: seq<Json>): seq<string> {
    if items == [] then [] else TargetStrings(items[0]) + TargetsOfItems(items[1..])
  }

  function TargetsOfFields(fields: seq<Field>): seq<string> {
    if fields == [] then [] else TargetStrings(fields[0].value) + TargetsOfFields(fields[1..])
  }

  predicate HasTarget(b: Branch) {
    b.target.Some?
  }

  function TargetOf(b: Branch): string {
    if b.target.Some? then b.target.value else ""
  }

  /** The targets of the branches that have one, in order. */
  function Named(branches: seq<Branch>): seq<string> {
    Map(Filter(branches, HasTarget), TargetOf)
  }

  lemma NamedOne(b: Branch)
    ensures Named([b]) == if b.target.Some? then [b.target.value] else []
  {
    FilterCons(b, [], HasTarget);
    assert [b] + [] == [b];
    assert Map([b], TargetOf) == [TargetOf(b)];
  }

  lemma NamedConcat(a: seq<Branch>, b: seq<Branch>)
    ensures Named(a + b) == Named(a) + Named(b)
  {
    FilterConcat(a, b, HasTarget);
    MapConcat(Filter(a, HasTarget), Filter(b, HasTarget), TargetOf);
  }

  lemma {:induction false} VisitNames(value: Json, conditions: seq<string>, fallback: seq<nat>)
    ensures Named(Visit(value, conditions, fallback)) == TargetStrings(value)
  {
    match value
    case List(items) => ItemsName(items, 0, conditions, fallback);
    case Record(fields) => FieldsName(fields, conditions, fallback);
    case Scalar =>
    case _ => NamedOne(Visit(value, conditions, fallback)[0]);
  }

  lemma {:induction false} ItemsName(items: seq<Json>, index: nat, conditions: seq<string>, fallback: seq<nat>)
    ensures Named(VisitItems(items, index, conditions, fallback)) == TargetsOfItems(items)
  {
    if items != [] {
      VisitNames(items[0], conditions, fallback + [index]);
      ItemsName(items[1..], index + 1, conditions, fallback);
      NamedConcat(Visit(items[0], conditions, fallback + [index]),
        VisitItems(items[1..], index + 1, conditions, fallback));
    }
  }

  lemma {:induction false} FieldsName(fields: seq<Field>, conditions: seq<string>, fallback: seq<nat>)
    ensures Named(VisitFields(fields, conditions, fallback)) == TargetsOfFields(fields)
  {
    if fields != [] {
      VisitNames(fields[0].value, conditions + [fields[0].key], fallback);
      FieldsName(fields[1..], conditions, fallback);
      NamedConcat(Visit(fields[0].value, conditions + [fields[0].key], fallback),
        VisitFields(fields[1..], conditions, fallback));
    }
  }

  /** Both traversals find the same targets in the same order. */
  lemma TargetsAreTheBranchTargets(value: Json)
    ensures TargetStrings(value) == Named(Branches(value))
  {
    VisitNames(value, [], []);
  }

  // ----- Classification -----

  datatype Kind = Metadata | BuildTime | Server | Asset | Runtime

  /** What the subpath and the package name alone say about the kind. */
  datatype Subpath = Subpath(metadata: bool, buildTime: bool, server: bool, assets: bool)

  /** `code` tells targets that name a code file. */
  function Classify(subpath: Subpath, value: Json, code: string -> bool): Kind {
    if subpath.metadata then Metadata
    else if subpath.buildTime then BuildTime
    else if subpath.server then Server
    else
      var targets := TargetStrings(value);
      if subpath.assets || (|targets| > 0 && forall t :: t in targets ==> !code(t)) then Asset
      else Runtime
  }

  lemma NamedIn(branches: seq<Branch>, target: string)
    ensures target in Named(branches) <==> exists b :: b in branches && b.target == Some(target)
  {
    FilterIn(branches, HasTarget);
    MapIn(Filter(branches, HasTarget), TargetOf);
  }

  lemma {:induction false} FirstActiveIsNamed(branches: seq<Branch>, active: set<string>)
    ensures var r := FirstActive(branches, active);
            r.Some? && r.value.Some? ==> r.value.value in Named(branches)
  {
    if branches != [] {
      FirstActiveIsNamed(branches[1..], active);
      NamedConcat([branches[0]], branches[1..]);
      assert branches == [branches[0]] + branches[1..];
      if branches[0].target.Some? {
        NamedIn(branches, branches[0].target.value);
      }
    }
  }

  /** The kind in terms of the branches: by what the subpath says, in this order of precedence, without
      looking at the target; otherwise an entrypoint in an asset directory, or one that has targets none of
      which is code, is an asset. */
  lemma KindByBranches(subpath: Subpath, value: Json, code: string -> bool)
    ensures var kind := Classify(subpath, value, code);
            var plain := !subpath.metadata && !subpath.buildTime && !subpath.server;
            && (kind == Metadata <==> subpath.metadata)
            && (kind == BuildTime <==> subpath.buildTime && !subpath.metadata)
            && (kind == Server <==> subpath.server && !subpath.metadata && !subpath.buildTime)
            && (kind == Asset <==> plain && (subpath.assets || OnlyOtherTargets(value, code)))
            && (kind == Runtime <==> plain && !subpath.assets && !OnlyOtherTargets(value, code))
  {
    var targets := TargetStrings(value);
    TargetsAreTheBranchTargets(value);
    forall t ensures t in targets <==> exists b :: b in Branches(value) && b.target == Some(t) {
      NamedIn(Branches(value), t);
    }
    if |targets| > 0 {
      assert targets[0] in targets;
    }
  }

  /** Some branch has a target, and none has one that is code. */
  ghost predicate OnlyOtherTargets(value: Json, code: string -> bool) {
    && (exists b :: b in Branches(value) && b.target.Some?)
    && forall b :: b in Branches(value) && b.target.Some? ==> !code(b.target.value)
  }

  /** Outside the conventional subpaths, whatever the conditions, an asset never resolves to code. */
  lemma AssetsHaveNoCode(value: Json, code: string -> bool)
    ensures var kind := Classify(Subpath(false, false, false, false), value, code);
            && (kind == Asset <==> OnlyOtherTargets(value, code))
            && (kind == Asset ==> forall active :: var r := Resolve(value, active);
                                    r.Some? && r.value.Some? ==> !code(r.value.value))
  {
    KindByBranches(Subpath(false, false, false, false), value, code);
    forall active | OnlyOtherTargets(value, code)
      ensures var r := Resolve(value, active); r.Some? && r.value.Some? ==> !code(r.value.value)
    {
      FlatteningPreservesResolution(value, active);
      FirstActiveIsNamed(Branches(value), active);
      var r := Resolve(value, active);
      if r.Some? && r.value.Some? {
        NamedIn(Branches(value), r.value.value);
      }
    }
  }

  /** The converse fails: a target no conditions select still makes an entrypoint runtime code. When it
      holds is the subject of `RuntimeCodeIsReachedExactlyWhenUnshadowed`. */
  lemma ShadowedCodeIsNoAsset(image: string, script: string, code: string -> bool, active: set<string>)
    requires code(script) && !code(image)
    ensures var value := Record([Field("default", Text(image)), Field("import", Text(script))]);
            && Resolve(value, active) == Some(Some(image))
            && Classify(Subpath(false, false, false, false), value, code) == Runtime
  {
    var fields := [Field("default", Text(image)), Field("import", Text(script))];
    assert fields[1..] == [Field("import", Text(script))];
    assert Resolve(fields[0].value, active) == Some(Some(image));
    assert ResolveFields(fields, active) == Some(Some(image));
    assert TargetsOfFields(fields[1..]) == [script];
    assert script in TargetStrings(Record(fields));
  }

  /** For these conditions the value resolves to a code file. */
  predicate ResolvesToCode(value: Json, active: set<string>, code: string -> bool) {
    var r := Resolve(value, active);
    r.Some? && r.value.Some? && code(r.value.value)
  }

  predicate IsCode(b: Branch, code: string -> bool) {
    b.target.Some? && code(b.target.value)
  }

  /** Branch `i` names code, and every earlier branch needs a condition that branch `i` does not. */
  ghost predicate Unshadowed(branches: seq<Branch>, i: nat, code: string -> bool)
    requires i < |branches|
  {
    && IsCode(branches[i], code)
    && forall j :: 0 <= j < i ==> !AllActive(branches[j].conditions, Elements(branches[i].conditions))
  }

  ghost predicate HasUnshadowedCode(branches: seq<Branch>, code: string -> bool) {
    exists i :: 0 <= i < |branches| && Unshadowed(branches, i, code)
  }

  /** The first active branch, by its position. */
  lemma {:induction false} FirstActiveAt(branches: seq<Branch>, active: set<string>, i: nat)
    requires i < |branches| && AllActive(branches[i].conditions, active)
    requires forall j :: 0 <= j < i ==> !AllActive(branches[j].conditions, active)
    ensures FirstActive(branches, active) == Some(branches[i].target)
  {
    if i > 0 {
      assert !AllActive(branches[0].conditions, active);
      FirstActiveAt(branches[1..], active, i - 1);
    }
  }

  lemma {:induction false} FirstActiveIndex(branches: seq<Branch>, active: set<string>) returns (i: nat)
    requires FirstActive(branches, active).Some?
    ensures i < |branches| && AllActive(branches[i].conditions, active)
    ensures FirstActive(branches, active) == Some(branches[i].target)
    ensures forall j :: 0 <= j < i ==> !AllActive(branches[j].conditions, active)
  {
    if AllActive(branches[0].conditions, active) {
      i := 0;
    } else {
      var k := FirstActiveIndex(branches[1..], active);
      i := k + 1;
      assert forall j :: 1 <= j < i ==> branches[j] == branches[1..][j - 1];
    }
  }

  /** Fewer active conditions make fewer branches active. */
  lemma ActiveGrows(conditions: seq<string>, fewer: set<string>, more: set<string>)
    requires AllActive(conditions, fewer)
    requires forall c :: c in fewer ==> Active(c, more)
    ensures AllActive(conditions, more)
  {
  }

  /** Some conditions resolve the value to code if and only if some code branch is not shadowed by an
      earlier branch that is active whenever it is; its own conditions then reach it. */
  lemma CodeIsReachedExactlyWhenUnshadowed(value: Json, code: string -> bool)
    ensures (exists active :: ResolvesToCode(value, active, code)) <==> HasUnshadowedCode(Branches(value), code)
  {
    var branches := Branches(value);
    if active :| ResolvesToCode(value, active, code) {
      FlatteningPreservesResolution(value, active);
      var i := FirstActiveIndex(branches, active);
      forall j | 0 <= j < i ensures !AllActive(branches[j].conditions, Elements(branches[i].conditions)) {
        if AllActive(branches[j].conditions, Elements(branches[i].conditions)) {
          ActiveGrows(branches[j].conditions, Elements(branches[i].conditions), active);
        }
      }
      assert Unshadowed(branches, i, code);
    }
    if i :| 0 <= i < |branches| && Unshadowed(branches, i, code) {
      var active := Elements(branches[i].conditions);
      FlatteningPreservesResolution(value, active);
      FirstActiveAt(branches, active, i);
      assert ResolvesToCode(value, active, code);
    }
  }

  /** Outside the conventional subpaths: an entrypoint is classified as runtime and really resolves to
      code for some conditions if and only if it has unshadowed code. */
  lemma RuntimeCodeIsReachedExactlyWhenUnshadowed(value: Json, code: string -> bool)
    ensures var kind := Classify(Subpath(false, false, false, false), value, code);
            (kind == Runtime && exists active :: ResolvesToCode(value, active, code)) <==>
              HasUnshadowedCode(Branches(value), code)
  {
    CodeIsReachedExactlyWhenUnshadowed(value, code);
    AssetsHaveNoCode(value, code);
    if i :| 0 <= i < |Branches(value)| && Unshadowed(Branches(value), i, code) {
      assert Branches(value)[i] in Branches(value);
    }
  }
}
