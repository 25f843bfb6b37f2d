/** Case ids: the specs that a source registers are matched with its statically known cases by name and
    number of occurrence. */
module CaseNumbering {
  import opened Seqs
  import opened Decimals

  datatype Spec = Spec(id: string, fullName: string)

  const Separator := " > "

  /** Every separator becomes a space. */
  function JasmineName(name: string): string {
    if name == [] then []
    else if Separator <= name then " " + JasmineName(name[|Separator|..])
    else [name[0]] + JasmineName(name[1..])
  }

  function Name(s: Spec): string {
    JasmineName(s.fullName)
  }

  function Numbered(name: string, occurrence: nat): string {
    name + "@" + Decimal(occurrence)
  }

  function DigitsAtEnd(s: string): (n: nat)
    ensures n <= |s|
  {
    if s == [] || !IsDigit(s[|s| - 1]) then 0 else DigitsAtEnd(s[..|s| - 1]) + 1
  }

  predicate HasNumber(s: string) {
    0 < DigitsAtEnd(s) < |s| && s[|s| - DigitsAtEnd(s) - 1] == '@'
  }

  function WithoutNumber(s: string): string {
    if HasNumber(s) then s[..|s| - DigitsAtEnd(s) - 1] else s
  }

  /** What has no number is the first of its name. */
  function NumberOf(s: string): string {
    if HasNumber(s) then s[|s| - DigitsAtEnd(s)..] else "1"
  }

  /** A case id of the source without source and number. */
  function StaticName(sourceId: string, caseId: string): string {
    WithoutNumber(if |caseId| <= |sourceId| + 1 then [] else caseId[|sourceId| + 1..])
  }

  /** What a case is looked up by. */
  function CaseKey(sourceId: string, caseId: string): string {
    JasmineName(StaticName(sourceId, caseId)) + "@" + NumberOf(caseId)
  }

  /** A later case replaces an earlier one with the same key. */
  function StaticCases(sourceId: string, caseIds: seq<string>): map<string, string> {
    if caseIds == [] then map[]
    else
      var last := caseIds[|caseIds| - 1];
      StaticCases(sourceId, caseIds[..|caseIds| - 1])[CaseKey(sourceId, last) := last]
  }

  function NamedIn(specs: seq<Spec>, name: string): nat {
    Count(specs, (s: Spec) => Name(s) == name)
  }

  /** The number of spec `k` among those of its name up to it. */
  function Occurrence(specs: seq<Spec>, k: nat): nat
    requires k < |specs|
  {
    NamedIn(specs[..k], Name(specs[k])) + 1
  }

  function SpecKey(specs: seq<Spec>, k: nat): string
    requires k < |specs|
  {
    Numbered(Name(specs[k]), Occurrence(specs, k))
  }

  /** The case ids given to the specs that were registered in this order. */
  function Matched(cases: map<string, string>, specs: seq<Spec>): map<string, string> {
    if specs == [] then map[]
    else
      var k := |specs| - 1;
      var before, key := Matched(cases, specs[..k]), SpecKey(specs, k);
      if key in cases then before[specs[k].id := cases[key]] else before
  }

  lemma NamedPush(specs: seq<Spec>, s: Spec, name: string)
    ensures NamedIn(specs + [s], name) == NamedIn(specs, name) + if Name(s) == name then 1 else 0
  {
    FilterPush(specs, s, (t: Spec) => Name(t) == name);
  }

  /** The filter that the runner calls once for every spec as it is registered. */
  class SpecFilter {
    const cases: map<string, string>
    var occurrences: map<string, nat>
    var caseIdBySpecId: map<string, string>
    ghost var registered: seq<Spec>

    ghost predicate Valid()
      reads this
    {
      && (forall n :: Get(occurrences, n, 0) == NamedIn(registered, n))
      && caseIdBySpecId == Matched(cases, registered)
    }

    constructor (sourceId: string, caseIds: seq<string>)
      ensures Valid() && registered == [] && cases == StaticCases(sourceId, caseIds)
    {
      cases := StaticCases(sourceId, caseIds);
      occurrences, caseIdBySpecId, registered := map[], map[], [];
    }

    /** Every spec runs, known or not. */
    method Accept(spec: Spec) returns (run: bool)
      requires Valid()
      modifies this
      ensures Valid() && registered == old(registered) + [spec] && run
    {
      var name := Name(spec);
      var occurrence := Get(occurrences, name, 0) + 1;
      forall n ensures NamedIn(registered + [spec], n) == NamedIn(registered, n) + if name == n then 1 else 0 {
        NamedPush(registered, spec, n);
      }
      ghost var longer := registered + [spec];
      assert longer[..|registered|] == registered;
      occurrences := occurrences[name := occurrence];
      var key := Numbered(name, occurrence);
      if key in cases {
        caseIdBySpecId := caseIdBySpecId[spec.id := cases[key]];
      }
      registered := longer;
      run := true;
    }
  }

  /** The reporter: a result gets the case id of its spec, or one discovered at run time. */
  function Discovered(sourceId: string, name: string, occurrence: nat): string {
    sourceId + "#" + Numbered(name, occurrence)
  }

  function ResultId(sourceId: string, matched: map<string, string>, done: seq<Spec>, k: nat): string
    requires k < |done|
  {
    Get(matched, done[k].id, Discovered(sourceId, Name(done[k]), Occurrence(done, k)))
  }

  class Reporter {
    const sourceId: string
    const matched: map<string, string>
    var occurrences: map<string, nat>
    var caseIds: seq<string>
    ghost var done: seq<Spec>

    ghost predicate Valid()
      reads this
    {
      && (forall n :: Get(occurrences, n, 0) == NamedIn(done, n))
      && |caseIds| == |done| && forall k :: 0 <= k < |done| ==> caseIds[k] == ResultId(sourceId, matched, done, k)
    }

    constructor (sourceId: string, matched: map<string, string>)
      ensures Valid() && done == [] && this.sourceId == sourceId && this.matched == matched
    {
      this.sourceId, this.matched := sourceId, matched;
      occurrences, caseIds, done := map[], [], [];
    }

    method SpecDone(spec: Spec)
      requires Valid()
      modifies this
      ensures Valid() && done == old(done) + [spec]
    {
      var name := Name(spec);
      var occurrence := Get(occurrences, name, 0) + 1;
      forall n ensures NamedIn(done + [spec], n) == NamedIn(done, n) + if name == n then 1 else 0 {
        NamedPush(done, spec, n);
      }
      ghost var longer := done + [spec];
      assert longer[..|done|] == done;
      assert forall k :: 0 <= k < |done| ==> longer[..k] == done[..k];
      occurrences := occurrences[name := occurrence];
      caseIds := caseIds + [Get(matched, spec.id, Discovered(sourceId, name, occurrence))];
      done := longer;
    }
  }

  // ----- Keys -----

  lemma {:induction false} AllDigitsAtEnd(s: string, digits: string)
    requires AllDigits(digits)
    ensures DigitsAtEnd(s + "@" + digits) == |digits|
  {
    var t := s + "@" + digits;
    if digits != [] {
      AllDigitsAtEnd(s, digits[..|digits| - 1]);
      assert t[..|t| - 1] == s + "@" + digits[..|digits| - 1];
    }
  }

  lemma NumberedIsInjective(m: string, a: nat, n: string, b: nat)
    ensures Numbered(m, a) == Numbered(n, b) <==> m == n && a == b
  {
    var s, t := Numbered(m, a), Numbered(n, b);
    DecimalRoundTrip(a);
    DecimalRoundTrip(b);
    AllDigitsAtEnd(m, Decimal(a));
    AllDigitsAtEnd(n, Decimal(b));
    if s == t {
      assert Decimal(a) == s[|s| - |Decimal(a)|..] == t[|t| - |Decimal(b)|..] == Decimal(b);
      assert m == s[..|m|] && n == t[..|n|];
    }
  }

  lemma {:induction false} StaticCasesAreKeyed(sourceId: string, caseIds: seq<string>, key: string)
    ensures var cases := StaticCases(sourceId, caseIds);
            && (key in cases <==> exists c :: c in caseIds && CaseKey(sourceId, c) == key)
            && (key in cases ==> cases[key] in caseIds && CaseKey(sourceId, cases[key]) == key)
  {
    if caseIds != [] {
      StaticCasesAreKeyed(sourceId, caseIds[..|caseIds| - 1], key);
      assert forall c :: c in caseIds <==> c in caseIds[..|caseIds| - 1] || c == caseIds[|caseIds| - 1];
    }
  }

  lemma {:induction false} NamedGrows(specs: seq<Spec>, j: nat, k: nat, name: string)
    requires j <= k <= |specs|
    ensures NamedIn(specs[..j], name) <= NamedIn(specs[..k], name)
  {
    if j < k {
      NamedGrows(specs, j, k - 1, name);
      assert specs[..k] == specs[..k - 1] + [specs[k - 1]];
      NamedPush(specs[..k - 1], specs[k - 1], name);
    }
  }

  /** No two specs have name and number in common. */
  lemma SpecKeysDiffer(specs: seq<Spec>, j: nat, k: nat)
    requires j < k < |specs|
    ensures SpecKey(specs, j) != SpecKey(specs, k)
  {
    NumberedIsInjective(Name(specs[j]), Occurrence(specs, j), Name(specs[k]), Occurrence(specs, k));
    if Name(specs[j]) == Name(specs[k]) {
      NamedGrows(specs, j + 1, k, Name(specs[k]));
      assert specs[..j + 1] == specs[..j] + [specs[j]];
      NamedPush(specs[..j], specs[j], Name(specs[k]));
    }
  }

  ghost predicate DifferentIds(specs: seq<Spec>) {
    forall i, j :: 0 <= i < j < |specs| ==> specs[i].id != specs[j].id
  }

  /** Spec `k` is given a case exactly when there is one with its key. */
  lemma {:induction false} MatchedByKey(cases: map<string, string>, specs: seq<Spec>, k: nat)
    requires DifferentIds(specs) && k < |specs|
    ensures var matched := Matched(cases, specs);
            && (specs[k].id in matched <==> SpecKey(specs, k) in cases)
            && (specs[k].id in matched ==> matched[specs[k].id] == cases[SpecKey(specs, k)])
  {
    var front := specs[..|specs| - 1];
    if k < |front| {
      MatchedByKey(cases, front, k);
      assert front[..k] == specs[..k];
    } else {
      OnlyRegisteredAreMatched(cases, front);
    }
  }

  /** Spec `k` has a case, and no later spec of its id has one. */
  ghost predicate LatestMatch(cases: map<string, string>, specs: seq<Spec>, id: string, k: nat) {
    && k < |specs| && specs[k].id == id && SpecKey(specs, k) in cases
    && forall j :: k < j < |specs| && specs[j].id == id ==> SpecKey(specs, j) !in cases
  }

  /** Also where an id is registered again: the latest registration that has a case decides. */
  lemma {:induction false} MatchedIsLatest(cases: map<string, string>, specs: seq<Spec>, id: string, c: string)
    ensures id in Matched(cases, specs) && Matched(cases, specs)[id] == c <==>
              exists k: nat :: LatestMatch(cases, specs, id, k) && cases[SpecKey(specs, k)] == c
  {
    if specs != [] {
      var last := |specs| - 1;
      var front := specs[..last];
      MatchedIsLatest(cases, front, id, c);
      forall k | 0 <= k < last ensures SpecKey(front, k) == SpecKey(specs, k) && front[k] == specs[k] {
        assert front[..k] == specs[..k];
      }
      if specs[last].id == id && SpecKey(specs, last) in cases {
        assert LatestMatch(cases, specs, id, last);
        assert forall k: nat :: LatestMatch(cases, specs, id, k) ==> k == last;
      } else {
        forall k: nat ensures LatestMatch(cases, specs, id, k) <==> LatestMatch(cases, front, id, k) {
          LatestMatchPush(cases, specs, id, k);
        }
      }
    }
  }

  lemma LatestMatchPush(cases: map<string, string>, specs: seq<Spec>, id: string, k: nat)
    requires specs != []
    requires specs[|specs| - 1].id != id || SpecKey(specs, |specs| - 1) !in cases
    ensures LatestMatch(cases, specs, id, k) <==> LatestMatch(cases, specs[..|specs| - 1], id, k)
  {
    var front := specs[..|specs| - 1];
    forall j | 0 <= j < |front| ensures SpecKey(front, j) == SpecKey(specs, j) && front[j] == specs[j] {
      assert front[..j] == specs[..j];
    }
  }

  lemma {:induction false} OnlyRegisteredAreMatched(cases: map<string, string>, specs: seq<Spec>)
    ensures forall id :: id in Matched(cases, specs) ==> exists s :: s in specs && s.id == id
  {
    if specs != [] {
      var front, last := specs[..|specs| - 1], specs[|specs| - 1];
      OnlyRegisteredAreMatched(cases, front);
      assert forall s :: s in specs <==> s in front || s == last;
    }
  }

  lemma NumberedParts(name: string, occurrence: nat)
    ensures WithoutNumber(Numbered(name, occurrence)) == name
    ensures NumberOf(Numbered(name, occurrence)) == Decimal(occurrence)
  {
    var s := Numbered(name, occurrence);
    DecimalRoundTrip(occurrence);
    AllDigitsAtEnd(name, Decimal(occurrence));
    assert s[..|name|] == name && s[|name| + 1..] == Decimal(occurrence);
  }

  /** Digits at the end stay what they are behind a separator. */
  lemma {:induction false} DigitsBehind(source: string, name: string)
    ensures DigitsAtEnd(source + "#" + name) == DigitsAtEnd(name)
    ensures HasNumber(source + "#" + name) <==> HasNumber(name)
  {
    var s := source + "#" + name;
    if name != [] {
      assert s[..|s| - 1] == source + "#" + name[..|name| - 1];
      DigitsBehind(source, name[..|name| - 1]);
    }
  }

  /** A case id that the catalog writes without a number is the first spec of its name, one with a number the
      spec with that number: what it is looked up by. */
  lemma CaseNamesItsSpec(source: string, name: string, occurrence: nat)
    ensures !HasNumber(name) ==> CaseKey(source, source + "#" + name) == Numbered(JasmineName(name), 1)
    ensures CaseKey(source, source + "#" + Numbered(name, occurrence)) == Numbered(JasmineName(name), occurrence)
  {
    DigitsBehind(source, name);
    assert (source + "#" + name)[|source| + 1..] == name;
    var id := source + "#" + Numbered(name, occurrence);
    assert id == Numbered(source + "#" + name, occurrence);
    NumberedParts(source + "#" + name, occurrence);
    NumberedParts(name, occurrence);
    assert |id| > |source| + 1 && id[|source| + 1..] == Numbered(name, occurrence);
  }

  /** Of the cases of a source that look up different specs, the one for name and number is given to the spec
      registered as that number of that name. */
  lemma KnownCaseIsMatched(source: string, caseIds: seq<string>, specs: seq<Spec>, c: string, k: nat)
    requires DifferentIds(specs) && k < |specs| && c in caseIds
    requires forall d :: d in caseIds && CaseKey(source, d) == CaseKey(source, c) ==> d == c
    requires CaseKey(source, c) == Numbered(Name(specs[k]), Occurrence(specs, k))
    ensures var matched := Matched(StaticCases(source, caseIds), specs);
            specs[k].id in matched && matched[specs[k].id] == c
  {
    MatchedByKey(StaticCases(source, caseIds), specs, k);
    StaticCasesAreKeyed(source, caseIds, SpecKey(specs, k));
  }

  /** No case id is given to two specs, whatever names are registered how often and in what order. */
  lemma CasesAreMatchedOnce(sourceId: string, caseIds: seq<string>, specs: seq<Spec>, i: string, j: string)
    requires DifferentIds(specs)
    ensures var matched := Matched(StaticCases(sourceId, caseIds), specs);
            i in matched && j in matched && matched[i] == matched[j] ==> i == j
  {
    var cases := StaticCases(sourceId, caseIds);
    var matched := Matched(cases, specs);
    if i in matched && j in matched && matched[i] == matched[j] {
      OnlyRegisteredAreMatched(cases, specs);
      var a :| 0 <= a < |specs| && specs[a].id == i;
      var b :| 0 <= b < |specs| && specs[b].id == j;
      MatchedByKey(cases, specs, a);
      MatchedByKey(cases, specs, b);
      StaticCasesAreKeyed(sourceId, caseIds, SpecKey(specs, a));
      StaticCasesAreKeyed(sourceId, caseIds, SpecKey(specs, b));
      if a < b {
        SpecKeysDiffer(specs, a, b);
      } else if b < a {
        SpecKeysDiffer(specs, b, a);
      }
    }
  }

  // ----- Results -----

  /** A discovered id, taken as a case id, has the key of its name with the separators replaced again. */
  lemma DiscoveredKey(sourceId: string, name: string, occurrence: nat)
    ensures CaseKey(sourceId, Discovered(sourceId, name, occurrence)) == Numbered(JasmineName(name), occurrence)
  {
    var id := Discovered(sourceId, name, occurrence);
    assert id == Numbered(sourceId + "#" + name, occurrence);
    NumberedParts(sourceId + "#" + name, occurrence);
    NumberedParts(name, occurrence);
    assert |id| > |sourceId| + 1 && id[|sourceId| + 1..] == Numbered(name, occurrence);
  }

  lemma DiscoveredIsInjective(sourceId: string, m: string, a: nat, n: string, b: nat)
    ensures Discovered(sourceId, m, a) == Discovered(sourceId, n, b) <==> m == n && a == b
  {
    var s, t := Discovered(sourceId, m, a), Discovered(sourceId, n, b);
    NumberedIsInjective(m, a, n, b);
    assert s[|sourceId| + 1..] == Numbered(m, a) && t[|sourceId| + 1..] == Numbered(n, b);
  }

  /** The name of spec `k` still has a separator, and without it is the name of spec `j`. */
  predicate Clash(specs: seq<Spec>, j: nat, k: nat)
    requires j < |specs| && k < |specs|
  {
    j != k && Name(specs[j]) == JasmineName(Name(specs[k])) && Occurrence(specs, j) == Occurrence(specs, k)
  }

  ghost predicate NoClash(specs: seq<Spec>) {
    forall j, k :: 0 <= j < |specs| && 0 <= k < |specs| ==> !Clash(specs, j, k)
  }

  /** The case ids of all results, when the specs finish in the order of registration. */
  function ResultIds(sourceId: string, caseIds: seq<string>, specs: seq<Spec>): seq<string> {
    seq(|specs|, k requires 0 <= k < |specs| =>
      ResultId(sourceId, Matched(StaticCases(sourceId, caseIds), specs), specs, k))
  }

  /** What a result id says about its spec: given, it has the spec's key; otherwise it is discovered. */
  lemma ResultIdIs(sourceId: string, caseIds: seq<string>, specs: seq<Spec>, k: nat)
    requires DifferentIds(specs) && k < |specs|
    ensures var id := ResultIds(sourceId, caseIds, specs)[k];
            if SpecKey(specs, k) in StaticCases(sourceId, caseIds)
            then id == StaticCases(sourceId, caseIds)[SpecKey(specs, k)] && CaseKey(sourceId, id) == SpecKey(specs, k)
            else id == Discovered(sourceId, Name(specs[k]), Occurrence(specs, k))
                 && CaseKey(sourceId, id) == Numbered(JasmineName(Name(specs[k])), Occurrence(specs, k))
  {
    MatchedByKey(StaticCases(sourceId, caseIds), specs, k);
    StaticCasesAreKeyed(sourceId, caseIds, SpecKey(specs, k));
    DiscoveredKey(sourceId, Name(specs[k]), Occurrence(specs, k));
  }

  lemma ResultIdsDiffer(sourceId: string, caseIds: seq<string>, specs: seq<Spec>, j: nat, k: nat)
    requires DifferentIds(specs) && j < k < |specs| && NoClash(specs)
    ensures ResultIds(sourceId, caseIds, specs)[j] != ResultIds(sourceId, caseIds, specs)[k]
  {
    ResultIdIs(sourceId, caseIds, specs, j);
    ResultIdIs(sourceId, caseIds, specs, k);
    SpecKeysDiffer(specs, j, k);
    var m, n, a, b := Name(specs[j]), Name(specs[k]), Occurrence(specs, j), Occurrence(specs, k);
    NumberedIsInjective(m, a, n, b);
    DiscoveredIsInjective(sourceId, m, a, n, b);
    NumberedIsInjective(m, a, JasmineName(n), b);
    NumberedIsInjective(n, b, JasmineName(m), a);
    assert !Clash(specs, j, k) && !Clash(specs, k, j);
  }

  lemma OneCase(sourceId: string, id: string)
    ensures StaticCases(sourceId, [id]) == map[CaseKey(sourceId, id) := id]
  {
    assert [id][..0] == [];
  }

  lemma ClashRepeatsAnId(sourceId: string, specs: seq<Spec>, j: nat, k: nat)
    requires DifferentIds(specs) && j < |specs| && k < |specs| && Clash(specs, j, k)
    ensures var ids := ResultIds(sourceId, [Discovered(sourceId, Name(specs[k]), Occurrence(specs, k))], specs);
            ids[j] == ids[k]
  {
    var id := Discovered(sourceId, Name(specs[k]), Occurrence(specs, k));
    DiscoveredKey(sourceId, Name(specs[k]), Occurrence(specs, k));
    OneCase(sourceId, id);
    ResultIdIs(sourceId, [id], specs, j);
    ResultIdIs(sourceId, [id], specs, k);
    if j < k {
      SpecKeysDiffer(specs, j, k);
    } else {
      SpecKeysDiffer(specs, k, j);
    }
  }

  /** For specs that finish in the order of registration: whatever cases are known, no two results have
      the same case id, given or discovered, if and only if no two names clash. */
  lemma ResultIdsAreDistinctExactlyWithoutClash(sourceId: string, specs: seq<Spec>)
    requires DifferentIds(specs)
    ensures (forall caseIds :: Distinct(ResultIds(sourceId, caseIds, specs))) <==> NoClash(specs)
  {
    if NoClash(specs) {
      forall caseIds, j, k | 0 <= j < k < |specs|
        ensures ResultIds(sourceId, caseIds, specs)[j] != ResultIds(sourceId, caseIds, specs)[k]
      {
        ResultIdsDiffer(sourceId, caseIds, specs, j, k);
      }
    } else {
      var j, k :| 0 <= j < |specs| && 0 <= k < |specs| && Clash(specs, j, k);
      var caseIds := [Discovered(sourceId, Name(specs[k]), Occurrence(specs, k))];
      ClashRepeatsAnId(sourceId, specs, j, k);
      assert !Distinct(ResultIds(sourceId, caseIds, specs));
    }
  }

  /** Names that clash: of "a > > b" the first replacement leaves a separator, the second makes it "a b". */
  lemma SomeNamesClash(sourceId: string) returns (specs: seq<Spec>, caseIds: seq<string>)
    ensures specs == [Spec("1", "a b"), Spec("2", "a > > b")] && DifferentIds(specs)
    ensures Clash(specs, 0, 1) && !NoClash(specs)
    ensures !Distinct(ResultIds(sourceId, caseIds, specs))
  {
    specs := [Spec("1", "a b"), Spec("2", "a > > b")];
    caseIds := [Discovered(sourceId, "a > b", 1)];
    NothingToReplace();
    ReplaceOnce();
    ReplaceFirstOfTwo();
    NumberingOfTwo(specs);
    assert Clash(specs, 0, 1);
    ClashRepeatsAnId(sourceId, specs, 0, 1);
    assert !NoClash(specs);
  }

  lemma KeepFirst(c: char, rest: string)
    requires c != ' ' || rest == [] || rest[0] != '>'
    ensures JasmineName([c] + rest) == [c] + JasmineName(rest)
  {
    assert ([c] + rest)[1..] == rest && Separator[0] == ' ' && Separator[1] == '>';
  }

  lemma ReplaceFirst(rest: string)
    ensures JasmineName(Separator + rest) == " " + JasmineName(rest)
  {
    assert (Separator + rest)[|Separator|..] == rest;
  }

  lemma NothingToReplace()
    ensures JasmineName("b") == "b" && JasmineName("a b") == "a b"
  {
    KeepFirst('b', []);
    KeepFirst(' ', "b");
    KeepFirst('a', " b");
  }

  lemma ReplaceOnce()
    ensures JasmineName("a > b") == "a b"
  {
    NothingToReplace();
    ReplaceFirst("b");
    KeepFirst('a', Separator + "b");
    assert ['a'] + (Separator + "b") == "a > b";
  }

  lemma ReplaceFirstOfTwo()
    ensures JasmineName("a > > b") == "a > b"
  {
    NothingToReplace();
    KeepFirst(' ', "b");
    KeepFirst('>', " b");
    ReplaceFirst("> b");
    KeepFirst('a', Separator + "> b");
    assert ['a'] + (Separator + "> b") == "a > > b";
  }

  lemma NumberingOfTwo(specs: seq<Spec>)
    requires |specs| == 2 && Name(specs[0]) != Name(specs[1])
    ensures Occurrence(specs, 0) == 1 && Occurrence(specs, 1) == 1
  {
    assert specs[..0] == [] && specs[..1] == [] + [specs[0]];
    NamedPush([], specs[0], Name(specs[1]));
  }

  predicate Plain(name: string) {
    forall i :: 0 <= i <= |name| ==> !(Separator <= name[i..])
  }

  lemma {:induction false} PlainIsKept(name: string)
    requires Plain(name)
    ensures JasmineName(name) == name
  {
    if name != [] {
      assert name[0..] == name;
      assert forall i :: 0 <= i < |name| ==> name[1..][i..] == name[i + 1..];
      PlainIsKept(name[1..]);
    }
  }

  /** Names without a separator left do not clash. */
  lemma PlainNamesDoNotClash(specs: seq<Spec>)
    requires forall s :: s in specs ==> Plain(Name(s))
    ensures NoClash(specs)
  {
    forall j, k | 0 <= j < |specs| && 0 <= k < |specs| ensures !Clash(specs, j, k) {
      PlainIsKept(Name(specs[k]));
      if j < k {
        SpecKeysDiffer(specs, j, k);
      } else if k < j {
        SpecKeysDiffer(specs, k, j);
      }
    }
  }
}
