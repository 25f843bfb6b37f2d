/** The scoped keep-awake lease: a count per tag in front of native calls that can fail. */
module KeepAwake {
  import opened Options
  import opened Runs
  import opened Seqs
  import opened Decimals

  /** A native call that was made, and whether it succeeded. */
  datatype Call = Call(tag: string, on: bool, ok: bool)

  /** The counts kept for one service, the tags it keeps active and the calls made to it. */
  datatype Lease = Lease(counts: map<string, nat>, active: set<string>, calls: seq<Call>)

  const Idle := Lease(map[], {}, [])

  function Held(l: Lease, tag: string): nat {
    if tag in l.counts then l.counts[tag] else 0
  }

  /** The native side: a failed call changes nothing. */
  function Native(l: Lease, call: Call): Lease {
    l.(calls := l.calls + [call],
       active := if !call.ok then l.active else if call.on then l.active + {call.tag} else l.active - {call.tag})
  }

  /** Acquiring a lease; `ok` says whether an activation succeeds, should one be made. */
  function Acquired(l: Lease, tag: string, ok: bool): Lease {
    var counted := l.counts[tag := Held(l, tag) + 1];
    if Held(l, tag) > 0 then l.(counts := counted)
    else
      var called := Native(l, Call(tag, true, ok));
      if ok then called.(counts := counted) else called
  }

  function Released(l: Lease, tag: string, ok: bool): Lease {
    if Held(l, tag) > 1 then l.(counts := l.counts[tag := Held(l, tag) - 1])
    else
      var called := Native(l, Call(tag, false, ok));
      if ok then called.(counts := l.counts - {tag}) else called
  }

  // ----- Runs -----

  /** The lease state and the tags of the scopes that are open. */
  datatype State = State(lease: Lease, live: multiset<string>)

  datatype Step = Open(tag: string, ok: bool) | Close(tag: string, ok: bool)

  /** Only an open scope closes. A failing release does not keep its scope open. */
  predicate Enabled(s: State, a: Step) {
    a.Close? ==> a.tag in s.live
  }

  function Apply(s: State, a: Step): State {
    match a
    case Open(tag, ok) =>
      State(Acquired(s.lease, tag, ok), if ok || Held(s.lease, tag) > 0 then s.live + multiset{tag} else s.live)
    case Close(tag, ok) => State(Released(s.lease, tag, ok), s.live - multiset{tag})
  }

  /** Any interleaving of scopes. */
  type Trace = Runs.Trace<State, Step>

  const Closed := State(Idle, multiset{})

  function End(tr: Trace): State {
    match tr
    case Start(s) => s
    case Then(past, a) => Apply(End(past), a)
  }

  predicate Valid(tr: Trace) {
    if tr.Start? then tr.init == Closed else Valid(tr.past) && Enabled(End(tr.past), tr.a)
  }

  function CallsOf(calls: seq<Call>, tag: string): seq<Call> {
    Filter(calls, (c: Call) => c.tag == tag)
  }

  function SuccessesOf(calls: seq<Call>, tag: string): seq<Call> {
    Filter(calls, (c: Call) => c.tag == tag && c.ok)
  }

  /** A deactivation of the tag failed. */
  predicate Leaked(l: Lease, tag: string) {
    Call(tag, false, false) in l.calls
  }

  predicate Alternating(calls: seq<Call>) {
    forall i :: 0 <= i < |calls| ==> (calls[i].on <==> i % 2 == 0)
  }

  /** What holds of every tag: the count exceeds the open scopes by one exactly after a failed
      deactivation, and the tag is active exactly while it is counted. */
  ghost predicate Counted(s: State, tag: string) {
    && Held(s.lease, tag) == s.live[tag] + (if Leaked(s.lease, tag) then 1 else 0)
    && (tag in s.lease.counts <==> Held(s.lease, tag) > 0)
    && (tag in s.lease.active <==> Held(s.lease, tag) > 0)
  }

  /** Native calls of a tag that succeed alternate, beginning with an activation, and a failed
      deactivation is the last call of all. */
  ghost predicate Ordered(l: Lease, tag: string) {
    var all, done := CallsOf(l.calls, tag), SuccessesOf(l.calls, tag);
    && Alternating(done) && (tag in l.active <==> |done| % 2 == 1)
    && (Leaked(l, tag) ==> all != [] && all[|all| - 1] == Call(tag, false, false)
                           && Call(tag, false, false) !in all[..|all| - 1])
  }

  lemma CallAppends(l: Lease, call: Call, tag: string)
    ensures CallsOf(Native(l, call).calls, tag) == CallsOf(l.calls, tag) + if call.tag == tag then [call] else []
    ensures SuccessesOf(Native(l, call).calls, tag)
         == SuccessesOf(l.calls, tag) + if call.tag == tag && call.ok then [call] else []
  {
    FilterPush(l.calls, call, (c: Call) => c.tag == tag);
    FilterPush(l.calls, call, (c: Call) => c.tag == tag && c.ok);
  }

  lemma LeakIsAmongCalls(l: Lease, tag: string)
    ensures Leaked(l, tag) <==> Call(tag, false, false) in CallsOf(l.calls, tag)
  {
    FilterIn(l.calls, (c: Call) => c.tag == tag);
  }

  /** A step concerns one tag, and a failing activation changes nothing but the record of calls. */
  lemma StepsAreLocal(s: State, a: Step, tag: string)
    ensures tag != a.tag || (a.Open? && !a.ok && Held(s.lease, tag) == 0) ==>
              var t := Apply(s, a);
              && (tag in t.lease.counts <==> tag in s.lease.counts) && Held(t.lease, tag) == Held(s.lease, tag)
              && (tag in t.lease.active <==> tag in s.lease.active) && t.live[tag] == s.live[tag]
    ensures tag != a.tag ==> CallsOf(Apply(s, a).lease.calls, tag) == CallsOf(s.lease.calls, tag)
    ensures a.Open? && !a.ok && Held(s.lease, a.tag) == 0 ==>
              Apply(s, a) == s.(lease := s.lease.(calls := s.lease.calls + [Call(a.tag, true, false)]))
  {
    CallAppends(s.lease, Call(a.tag, a.Open?, a.ok), tag);
  }

  lemma StepKeepsCounted(s: State, a: Step, tag: string)
    requires Enabled(s, a) && Counted(s, tag)
    requires Leaked(s.lease, tag) && a.Close? && a.tag == tag ==> Held(s.lease, tag) > 1
    ensures Counted(Apply(s, a), tag)
  {
  }

  /** A call that turns an inactive tag on, or an active one off, keeps the order. */
  lemma CallKeepsOrdered(l: Lease, call: Call, tag: string)
    requires Ordered(l, tag)
    requires call.tag == tag ==> !Leaked(l, tag) && (call.on <==> tag !in l.active)
    ensures Ordered(Native(l, call), tag)
  {
    CallAppends(l, call, tag);
    LeakIsAmongCalls(l, tag);
    assert Leaked(Native(l, call), tag) <==> Leaked(l, tag) || call == Call(tag, false, false);
  }

  lemma StepKeepsOrdered(s: State, a: Step, tag: string)
    requires Enabled(s, a) && Counted(s, tag) && Ordered(s.lease, tag)
    ensures Ordered(Apply(s, a).lease, tag)
  {
    var calls := Apply(s, a).lease.calls;
    if calls != s.lease.calls {
      CallKeepsOrdered(s.lease, Call(a.tag, a.Open?, a.ok), tag);
    }
  }

  /** Over every interleaving of scopes and every pattern of native failures, for every tag. */
  lemma {:induction false} LeaseIsKept(tr: Trace, tag: string)
    requires Valid(tr)
    ensures Counted(End(tr), tag) && Ordered(End(tr).lease, tag)
  {
    if tr.Then? {
      LeaseIsKept(tr.past, tag);
      StepKeepsCounted(End(tr.past), tr.a, tag);
      StepKeepsOrdered(End(tr.past), tr.a, tag);
    }
  }

  /** A tag with an open scope is active; one without is inactive exactly when no deactivation of it
      has failed. */
  lemma ActiveExactlyWhileHeld(tr: Trace, tag: string)
    requires Valid(tr)
    ensures tag in End(tr).live ==> tag in End(tr).lease.active
    ensures tag !in End(tr).live ==> (tag in End(tr).lease.active <==> Leaked(End(tr).lease, tag))
  {
    LeaseIsKept(tr, tag);
  }

  /** One scope whose deactivation fails: it has closed, and its tag is still active. */
  lemma OneFailureLeaks(tag: string) returns (tr: Trace)
    ensures tr == Then(Then(Start(Closed), Open(tag, true)), Close(tag, false)) && Valid(tr)
    ensures Leaked(End(tr).lease, tag) && tag !in End(tr).live && tag in End(tr).lease.active
  {
    var held := Then(Start(Closed), Open(tag, true));
    assert End(held).live == multiset{tag} && Held(End(held).lease, tag) == 1;
    tr := Then(held, Close(tag, false));
    assert End(tr).lease.calls == [Call(tag, true, true), Call(tag, false, false)];
    assert End(tr).lease.calls[1] in End(tr).lease.calls;
  }

  predicate Continues(later: Trace, tr: Trace) {
    later == tr || (later.Then? && Continues(later.past, tr))
  }

  lemma LeakEndsCalls(s: State, a: Step, tag: string)
    requires Enabled(s, a) && Counted(s, tag) && Leaked(s.lease, tag)
    ensures Leaked(Apply(s, a).lease, tag)
    ensures CallsOf(Apply(s, a).lease.calls, tag) == CallsOf(s.lease.calls, tag)
  {
    CallAppends(s.lease, Call(a.tag, a.Open?, a.ok), tag);
  }

  /** After a failed deactivation the tag stays active in every continuation and no native call is
      made for it again: closing its scopes later never retries. */
  lemma {:induction false} LeakIsPermanent(tr: Trace, later: Trace, tag: string)
    requires Valid(later) && Continues(later, tr) && Leaked(End(tr).lease, tag)
    ensures Leaked(End(later).lease, tag) && tag in End(later).lease.active
    ensures CallsOf(End(later).lease.calls, tag) == CallsOf(End(tr).lease.calls, tag)
  {
    LeaseIsKept(later, tag);
    if later != tr {
      LeakIsPermanent(tr, later.past, tag);
      LeaseIsKept(later.past, tag);
      LeakEndsCalls(End(later.past), later.a, tag);
    }
  }

  // ----- The service -----

  datatype Outcome = Leased(tag: string) | Unavailable | Failure

  function GeneratedTag(n: nat): string {
    "@better-native/keep-awake/" + Decimal(n)
  }

  /** Leases that name no tag never share one. */
  lemma GeneratedTagsDiffer(m: nat, n: nat)
    ensures GeneratedTag(m) == GeneratedTag(n) <==> m == n
  {
    var prefix := "@better-native/keep-awake/";
    if GeneratedTag(m) == GeneratedTag(n) {
      assert Decimal(m) == GeneratedTag(m)[|prefix|..] == GeneratedTag(n)[|prefix|..] == Decimal(n);
      DecimalIsInjective(m, n);
    }
  }

  class Service {
    var counts: map<string, nat>
    var active: set<string>
    var calls: seq<Call>
    var generated: nat

    constructor ()
      ensures View() == Idle && generated == 0
    {
      counts, active, calls, generated := map[], {}, [], 0;
    }

    function View(): Lease
      reads this
    {
      Lease(counts, active, calls)
    }

    method CallNative(tag: string, on: bool, ok: bool)
      modifies this`active, this`calls
      ensures View() == Native(old(View()), Call(tag, on, ok))
    {
      calls := calls + [Call(tag, on, ok)];
      if ok {
        active := if on then active + {tag} else active - {tag};
      }
    }

    /** Fails exactly when this is the first lease of its tag and the activation fails. */
    method Acquire(tag: string, nativeOk: bool) returns (ok: bool)
      modifies this`counts, this`active, this`calls
      ensures ok <==> nativeOk || Held(old(View()), tag) > 0
      ensures View() == Acquired(old(View()), tag, nativeOk)
    {
      var count := if tag in counts then counts[tag] else 0;
      var next := counts[tag := count + 1];
      if count == 0 {
        CallNative(tag, true, nativeOk);
        if !nativeOk {
          return false;
        }
      }
      counts := next;
      ok := true;
    }

    method Release(tag: string, nativeOk: bool) returns (ok: bool)
      modifies this`counts, this`active, this`calls
      ensures ok <==> nativeOk || Held(old(View()), tag) > 1
      ensures View() == Released(old(View()), tag, nativeOk)
    {
      var count := if tag in counts then counts[tag] else 0;
      if count > 1 {
        counts := counts[tag := count - 1];
        return true;
      }
      var next := counts - {tag};
      CallNative(tag, false, nativeOk);
      if !nativeOk {
        return false;
      }
      counts := next;
      ok := true;
    }

    /** Leases the given tag, or a fresh one; nothing happens where keep-awake is unavailable. */
    method KeepAwake(tag: Option<string>, available: bool, nativeOk: bool) returns (outcome: Outcome)
      modifies this
      ensures !available ==> outcome == Unavailable && View() == old(View()) && generated == old(generated)
      ensures available ==>
                var name := if tag.Some? then tag.value else GeneratedTag(old(generated) + 1);
                && View() == Acquired(old(View()), name, nativeOk)
                && outcome == (if nativeOk || Held(old(View()), name) > 0 then Leased(name) else Failure)
                && generated == old(generated) + if tag.Some? then 0 else 1
    {
      if !available {
        return Unavailable;
      }
      var name;
      if tag.Some? {
        name := tag.value;
      } else {
        generated := generated + 1;
        name := GeneratedTag(generated);
      }
      var ok := Acquire(name, nativeOk);
      outcome := if ok then Leased(name) else Failure;
    }
  }
}
