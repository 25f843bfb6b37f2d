/** Conditional export targets: flattening a nested target into branches. */
module Resolution {
  import opened Options
  import opened Seqs

  /** A target as the manifest gives it. `Scalar` is a number or a boolean, which resolves to nothing. */
  datatype Json = Null | Text(text: string) | List(items: seq<Json>) | Record(fields: seq<Field>) | Scalar

  datatype Field = Field(key: string, value: Json)

  /** A leaf: `None` is the target null, which is an answer too. */
  type Target = Option<string>

  datatype Branch = Branch(
    conditions: seq<string>, fallback: seq<nat>, target: Target, platforms: seq<string>)

  function Platforms(conditions: seq<string>): seq<string> {
    if "browser" in conditions then ["web"]
    else if "react-native" in conditions then ["android", "ios", "macos", "tvos"]
    else if "node" in conditions || "react-server" in conditions || "workerd" in conditions then ["server"]
    else ["android", "ios", "macos", "server", "tvos", "web"]
  }

  function Visit(value: Json, conditions: seq<string>, fallback: seq<nat>): seq<Branch> {
    match value
    case Null => [Branch(conditions, fallback, None, Platforms(conditions))]
    case Text(text) => [Branch(conditions, fallback, Some(text), Platforms(conditions))]
    case List(items) => VisitItems(items, 0, conditions, fallback)
    case Record(fields) => VisitFields(fields, conditions, fallback)
    case Scalar => []
  }

  function VisitItems(items: seq<Json>, index: nat, conditions: seq<string>, fallback: seq<nat>): seq<Branch> {
    if items == [] then []
    else Visit(items[0], conditions, fallback + [index]) + VisitItems(items[1..], index + 1, conditions, fallback)
  }

  function VisitFields(fields: seq<Field>, conditions: seq<string>, fallback: seq<nat>): seq<Branch> {
    if fields == [] then []
    else Visit(fields[0].value, conditions + [fields[0].key], fallback)
         + VisitFields(fields[1..], conditions, fallback)
  }

  function Branches(value: Json): seq<Branch> {
    Visit(value, [], [])
  }

  // ----- Meaning -----

  predicate Active(condition: string, active: set<string>) {
    condition == "default" || condition in active
  }

  predicate AllActive(conditions: seq<string>, active: set<string>) {
    forall c :: c in conditions ==> Active(c, active)
  }

  /** Package target resolution for a set of active conditions: the first item, or the first field
      with an active condition, that resolves to anything. */
  function Resolve(value: Json, active: set<string>): Option<Target> {
    match value
    case Null => Some(None)
    case Text(text) => Some(Some(text))
    case List(items) => ResolveItems(items, active)
    case Record(fields) => ResolveFields(fields, active)
    case Scalar => None
  }

  function ResolveItems(items: seq<Json>, active: set<string>): Option<Target> {
    if items == [] then None
    else
      var first := Resolve(items[0], active);
      if first.Some? then first else ResolveItems(items[1..], active)
  }

  function ResolveFields(fields: seq<Field>, active: set<string>): Option<Target> {
    if fields == [] then None
    else
      var first := if Active(fields[0].key, active) then Resolve(fields[0].value, active) else None;
      if first.Some? then first else ResolveFields(fields[1..], active)
  }

  function FirstActive(branches: seq<Branch>, active: set<string>): Option<Target> {
    if branches == [] then None
    else if AllActive(branches[0].conditions, active) then Some(branches[0].target)
    else FirstActive(branches[1..], active)
  }

  lemma {:induction false} FirstActiveConcat(a: seq<Branch>, b: seq<Branch>, active: set<string>)
    ensures FirstActive(a + b, active)
         == if FirstActive(a, active).Some? then FirstActive(a, active) else FirstActive(b, active)
  {
    if a == [] {
      assert a + b == b;
    } else {
      FirstActiveConcat(a[1..], b, active);
      assert (a + b)[1..] == a[1..] + b;
    }
  }

  function When<T>(condition: bool, value: Option<T>): Option<T> {
    if condition then value else None
  }

  lemma {:induction false} VisitResolves(value: Json, conditions: seq<string>, fallback: seq<nat>, active: set<string>)
    ensures FirstActive(Visit(value, conditions, fallback), active)
         == When(AllActive(conditions, active), Resolve(value, active))
  {
    match value
    case List(items) => ItemsResolve(items, 0, conditions, fallback, active);
    case Record(fields) => FieldsResolve(fields, conditions, fallback, active);
    case _ =>
  }

  lemma {:induction false} ItemsResolve(
    items: seq<Json>, index: nat, conditions: seq<string>, fallback: seq<nat>, active: set<string>)
    ensures FirstActive(VisitItems(items, index, conditions, fallback), active)
         == When(AllActive(conditions, active), ResolveItems(items, active))
  {
    if items != [] {
      VisitResolves(items[0], conditions, fallback + [index], active);
      ItemsResolve(items[1..], index + 1, conditions, fallback, active);
      FirstActiveConcat(Visit(items[0], conditions, fallback + [index]),
        VisitItems(items[1..], index + 1, conditions, fallback), active);
    }
  }

  lemma {:induction false} FieldsResolve(
    fields: seq<Field>, conditions: seq<string>, fallback: seq<nat>, active: set<string>)
    ensures FirstActive(VisitFields(fields, conditions, fallback), active)
         == When(AllActive(conditions, active), ResolveFields(fields, active))
  {
    if fields != [] {
      var inner := conditions + [fields[0].key];
      VisitResolves(fields[0].value, inner, fallback, active);
      FieldsResolve(fields[1..], conditions, fallback, active);
      FirstActiveConcat(Visit(fields[0].value, inner, fallback),
        VisitFields(fields[1..], conditions, fallback), active);
      assert AllActive(inner, active) <==> AllActive(conditions, active) && Active(fields[0].key, active) by {
        assert inner[|conditions|] == fields[0].key;
        assert forall i :: 0 <= i < |conditions| ==> inner[i] == conditions[i];
      }
    }
  }

  /** Flattening preserves meaning: the first branch whose conditions are all active has the target
      the nested value resolves to. */
  lemma FlatteningPreservesResolution(value: Json, active: set<string>)
    ensures FirstActive(Branches(value), active) == Resolve(value, active)
  {
    VisitResolves(value, [], [], active);
  }

  // ----- Platforms -----

  predicate ForServers(conditions: seq<string>) {
    "node" in conditions || "react-server" in conditions || "workerd" in conditions
  }

  /** Which branches a platform is a hint of: a browser condition is for the web alone, one for React Native
      for the native platforms alone, one for servers for servers alone, in this order of precedence, and
      without any of them all are. */
  lemma PlatformHints(conditions: seq<string>, platform: string)
    requires platform in ["android", "ios", "macos", "server", "tvos", "web"]
    ensures platform in Platforms(conditions) <==>
              if platform == "web"
              then "browser" in conditions || ("react-native" !in conditions && !ForServers(conditions))
              else "browser" !in conditions
                   && if platform == "server" then "react-native" !in conditions
                      else "react-native" in conditions || !ForServers(conditions)
    ensures |Platforms(conditions)| > 0 && Distinct(Platforms(conditions))
  {
  }

  // ----- Addresses -----

  /** As any parsed object: no key twice. */
  ghost predicate WellKeyed(value: Json) {
    match value
    case List(items) => forall item :: item in items ==> WellKeyed(item)
    case Record(fields) =>
      && (forall i, j :: 0 <= i < j < |fields| ==> fields[i].key != fields[j].key)
      && (forall f :: f in fields ==> WellKeyed(f.value))
    case _ => true
  }

  /** Follows conditions through the records and indexes through the lists. */
  ghost function Walk(value: Json, conditions: seq<string>, fallback: seq<nat>): Option<Target> {
    match value
    case Null => When(conditions == [] && fallback == [], Some(None))
    case Text(text) => When(conditions == [] && fallback == [], Some(Some(text)))
    case List(items) =>
      if fallback == [] || fallback[0] >= |items| then None
      else Walk(items[fallback[0]], conditions, fallback[1..])
    case Record(fields) =>
      if conditions == [] then None else WalkFields(fields, conditions, fallback)
    case Scalar => None
  }

  ghost function WalkFields(fields: seq<Field>, conditions: seq<string>, fallback: seq<nat>): Option<Target>
    requires conditions != []
  {
    if fields == [] then None
    else if fields[0].key == conditions[0] then Walk(fields[0].value, conditions[1..], fallback)
    else WalkFields(fields[1..], conditions, fallback)
  }

  /** Branch `b` continues the given address by one at which `value` has the branch's target. */
  ghost predicate Ends(value: Json, conditions: seq<string>, fallback: seq<nat>, b: Branch) {
    && conditions <= b.conditions && fallback <= b.fallback
    && Walk(value, b.conditions[|conditions|..], b.fallback[|fallback|..]) == Some(b.target)
    && b.platforms == Platforms(b.conditions)
  }

  lemma {:induction false} VisitReaches(value: Json, conditions: seq<string>, fallback: seq<nat>, b: Branch)
    requires WellKeyed(value)
    ensures b in Visit(value, conditions, fallback) <==> Ends(value, conditions, fallback, b)
  {
    match value
    case List(items) =>
      ItemsReach(items, 0, conditions, fallback, b);
      if fallback <= b.fallback {
        var rest := b.fallback[|fallback|..];
        if rest != [] {
          assert b.fallback[|fallback|] == rest[0];
          assert b.fallback[|fallback| + 1..] == rest[1..];
        }
      }
    case Record(fields) =>
      FieldsReach(fields, conditions, fallback, b);
    case _ =>
      assert Ends(value, conditions, fallback, b) ==>
          b.conditions == conditions && b.fallback == fallback;
  }

  /** The item that the address of `b` selects leads to the target of `b`. */
  ghost predicate ItemEnds(items: seq<Json>, index: nat, conditions: seq<string>, fallback: seq<nat>, b: Branch) {
    && |fallback| < |b.fallback| && index <= b.fallback[|fallback|] < index + |items|
    && Ends(items[b.fallback[|fallback|] - index], conditions, fallback + [b.fallback[|fallback|]], b)
  }

  lemma {:induction false} ItemsReach(
    items: seq<Json>, index: nat, conditions: seq<string>, fallback: seq<nat>, b: Branch)
    requires forall item :: item in items ==> WellKeyed(item)
    ensures b in VisitItems(items, index, conditions, fallback)
       <==> ItemEnds(items, index, conditions, fallback, b)
  {
    if items != [] {
      VisitReaches(items[0], conditions, fallback + [index], b);
      ItemsReach(items[1..], index + 1, conditions, fallback, b);
      if fallback + [index] <= b.fallback {
        assert b.fallback[|fallback|] == (fallback + [index])[|fallback|];
      }
    }
  }

  ghost predicate FieldEnds(fields: seq<Field>, conditions: seq<string>, fallback: seq<nat>, b: Branch) {
    && conditions <= b.conditions && fallback <= b.fallback && |conditions| < |b.conditions|
    && WalkFields(fields, b.conditions[|conditions|..], b.fallback[|fallback|..]) == Some(b.target)
    && b.platforms == Platforms(b.conditions)
  }

  lemma {:induction false} FieldsReach(
    fields: seq<Field>, conditions: seq<string>, fallback: seq<nat>, b: Branch)
    requires forall i, j :: 0 <= i < j < |fields| ==> fields[i].key != fields[j].key
    requires forall f :: f in fields ==> WellKeyed(f.value)
    ensures b in VisitFields(fields, conditions, fallback) <==> FieldEnds(fields, conditions, fallback, b)
  {
    if fields != [] {
      var inner := conditions + [fields[0].key];
      VisitReaches(fields[0].value, inner, fallback, b);
      FieldsReach(fields[1..], conditions, fallback, b);
      if conditions <= b.conditions && |conditions| < |b.conditions| {
        var rest := b.conditions[|conditions|..];
        assert b.conditions[|conditions| + 1..] == rest[1..];
        if rest[0] == fields[0].key {
          assert inner <= b.conditions;
          NoSuchField(fields[1..], rest, b.fallback);
        } else {
          assert !(inner <= b.conditions) by {
            assert inner[|conditions|] == fields[0].key && b.conditions[|conditions|] == rest[0];
          }
        }
      }
    }
  }

  lemma {:induction false} NoSuchField(fields: seq<Field>, conditions: seq<string>, fallback: seq<nat>)
    requires conditions != [] && forall f :: f in fields ==> f.key != conditions[0]
    ensures forall fb :: WalkFields(fields, conditions, fb) == None
  {
    if fields != [] {
      NoSuchField(fields[1..], conditions, fallback);
    }
  }

  predicate SameAddress(a: Branch, b: Branch) {
    a.conditions == b.conditions && a.fallback == b.fallback
  }

  ghost predicate Unambiguous(branches: seq<Branch>) {
    forall i, j :: 0 <= i < j < |branches| ==> !SameAddress(branches[i], branches[j])
  }

  lemma UnambiguousConcat(a: seq<Branch>, b: seq<Branch>)
    requires Unambiguous(a) && Unambiguous(b)
    requires forall x, y :: x in a && y in b ==> !SameAddress(x, y)
    ensures Unambiguous(a + b)
  {
  }

  lemma {:induction false} VisitIsUnambiguous(value: Json, conditions: seq<string>, fallback: seq<nat>)
    requires WellKeyed(value)
    ensures Unambiguous(Visit(value, conditions, fallback))
  {
    match value
    case List(items) => ItemsAreUnambiguous(items, 0, conditions, fallback);
    case Record(fields) => FieldsAreUnambiguous(fields, conditions, fallback);
    case _ =>
  }

  lemma {:induction false} ItemsAreUnambiguous(
    items: seq<Json>, index: nat, conditions: seq<string>, fallback: seq<nat>)
    requires forall item :: item in items ==> WellKeyed(item)
    ensures Unambiguous(VisitItems(items, index, conditions, fallback))
  {
    if items != [] {
      var a := Visit(items[0], conditions, fallback + [index]);
      var b := VisitItems(items[1..], index + 1, conditions, fallback);
      VisitIsUnambiguous(items[0], conditions, fallback + [index]);
      ItemsAreUnambiguous(items[1..], index + 1, conditions, fallback);
      forall x, y | x in a && y in b ensures !SameAddress(x, y) {
        VisitReaches(items[0], conditions, fallback + [index], x);
        ItemsReach(items[1..], index + 1, conditions, fallback, y);
        assert x.fallback[|fallback|] == (fallback + [index])[|fallback|];
      }
      UnambiguousConcat(a, b);
    }
  }

  lemma {:induction false} FieldsAreUnambiguous(
    fields: seq<Field>, conditions: seq<string>, fallback: seq<nat>)
    requires forall i, j :: 0 <= i < j < |fields| ==> fields[i].key != fields[j].key
    requires forall f :: f in fields ==> WellKeyed(f.value)
    ensures Unambiguous(VisitFields(fields, conditions, fallback))
  {
    if fields != [] {
      var inner := conditions + [fields[0].key];
      var a := Visit(fields[0].value, inner, fallback);
      var b := VisitFields(fields[1..], conditions, fallback);
      VisitIsUnambiguous(fields[0].value, inner, fallback);
      FieldsAreUnambiguous(fields[1..], conditions, fallback);
      forall x, y | x in a && y in b ensures !SameAddress(x, y) {
        VisitReaches(fields[0].value, inner, fallback, x);
        FieldsReach(fields[1..], conditions, fallback, y);
        assert x.conditions[|conditions|] == inner[|conditions|];
        if y.conditions[|conditions|] == fields[0].key {
          NoSuchField(fields[1..], y.conditions[|conditions|..], y.fallback);
        }
      }
      UnambiguousConcat(a, b);
    }
  }

  /** The branches are exactly the leaves: a branch is there if and only if walking the value by its
      conditions and fallback indexes ends at its target. No two branches share an address. */
  lemma BranchesAddressLeaves(value: Json, b: Branch)
    requires WellKeyed(value)
    ensures b in Branches(value) <==>
              Walk(value, b.conditions, b.fallback) == Some(b.target) && b.platforms == Platforms(b.conditions)
    ensures Unambiguous(Branches(value))
  {
    VisitReaches(value, [], [], b);
    VisitIsUnambiguous(value, [], []);
    assert b.conditions[0..] == b.conditions && b.fallback[0..] == b.fallback;
  }
}
