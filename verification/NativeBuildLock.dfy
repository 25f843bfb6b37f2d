/** The machine-wide native build lock: any number of acquisitions ("contenders") of a lock
    directory, each made of separate file-system steps, with process crashes and a clock. */
module NativeBuildLock {
  import opened LockPath
  import opened Options
  import opened Runs

  /** The next thing a contender will do. */
  datatype Phase =
    | Starting                    // create the lock directory
    | Reading                     // it existed: read the owner record
    | Checking(owner: Owner)      // a record: ask whether its process is alive
    | Statting                    // no record: look at the directory
    | Aging(mtime: int)           // no record, and last touched at `mtime`: work out its age
    | Quarantining                // judged stale: rename whatever is at the path away
    | Initialising(since: int, file: Option<nat>)
        // directory created at `since`, record not complete; its file is open in the directory of `file`
    | Cleaning(since: int)        // writing the record failed: remove the path
    | Holding                     // acquired; later, read the record to release
    | Releasing                   // the record carried its own token: rename the path away
    | Finished

  type State = LockPath.State<Phase>

  datatype Action =
    | Mkdir(c: nat) | ReadOwner(c: nat) | CheckAlive(c: nat) | StatLock(c: nat) | CheckAge(c: nat)
    | Quarantine(c: nat)
    | OpenRecord(c: nat) | WriteOwner(c: nat) | WriteFails(c: nat) | Cleanup(c: nat)
    | CheckRelease(c: nat) | RenameAway(c: nat)
    | Crash(pid: nat) | Tick(millis: nat)

  predicate Enabled(s: State, a: Action) {
    match a
    case Mkdir(c) => Live(s, c) && s.phases[c].Starting?
    case ReadOwner(c) => Live(s, c) && s.phases[c].Reading?
    case CheckAlive(c) => Live(s, c) && s.phases[c].Checking?
    case StatLock(c) => Live(s, c) && s.phases[c].Statting?
    case CheckAge(c) => Live(s, c) && s.phases[c].Aging?
    case Quarantine(c) => Live(s, c) && s.phases[c].Quarantining?
    case OpenRecord(c) => Live(s, c) && s.phases[c].Initialising? && s.phases[c].file.None?
    case WriteOwner(c) => Live(s, c) && s.phases[c].Initialising? && s.phases[c].file.Some?
    case WriteFails(c) => Live(s, c) && s.phases[c].Initialising?
    case Cleanup(c) => Live(s, c) && s.phases[c].Cleaning?
    case CheckRelease(c) => Live(s, c) && s.phases[c].Holding?
    case RenameAway(c) => Live(s, c) && s.phases[c].Releasing?
    case Crash(_) => true
    case Tick(_) => true
  }

  /** One file-system call, clock tick or crash. */
  function Apply(s: State, a: Action): State
    requires Enabled(s, a)
  {
    match a
    case Mkdir(c) =>
      if s.dir.None?
      then Goto(s.(dir := Some(LockDir(c, s.now, None))), c, Initialising(s.now, None))
      else Goto(s, c, Reading)
    case ReadOwner(c) =>
      (match OwnerAt(s.dir)
       case Some(o) => Goto(s, c, Checking(o))
       case None => Goto(s, c, Statting))
    case CheckAlive(c) =>
      Goto(s, c, if s.phases[c].owner.pid !in s.dead then Starting else Quarantining)
    case StatLock(c) =>
      Goto(s, c, if s.dir.Some? then Aging(s.dir.value.mtime) else Quarantining)
    case CheckAge(c) =>
      Goto(s, c, if s.now - s.phases[c].mtime < GRACE then Starting else Quarantining)
    case Quarantine(c) => Goto(s.(dir := None), c, Starting)
    case OpenRecord(c) =>
      var since := s.phases[c].since;
      if s.dir.None? then Goto(s, c, Cleaning(since))
      else
        Goto(s.(dir := Some(RecordOpened(s.dir.value, s.now))), c, Initialising(since, Some(s.dir.value.maker)))
    case WriteOwner(c) =>
      Goto(s.(dir := RecordWritten(s.dir, s.phases[c].file.value, Owner(s.pids[c], c))), c, Holding)
    case WriteFails(c) => Goto(s, c, Cleaning(s.phases[c].since))
    case Cleanup(c) => Goto(s.(dir := None), c, Finished)
    case CheckRelease(c) =>
      var o := OwnerAt(s.dir);
      Goto(s, c, if o.Some? && o.value.token == c then Releasing else Finished)
    case RenameAway(c) => Goto(s.(dir := None), c, Finished)
    case Crash(pid) => s.(dead := s.dead + {pid})
    case Tick(millis) => s.(now := s.now + millis)
  }

  /** Between creating the directory and giving it up. */
  predicate Critical(p: Phase) {
    p.Initialising? || p.Cleaning? || p.Holding? || p.Releasing?
  }

  predicate LiveCritical(s: State, c: nat) {
    Live(s, c) && Critical(s.phases[c])
  }

  ghost predicate MutualExclusion(s: State) {
    forall c: nat, d: nat :: LiveCritical(s, c) && LiveCritical(s, d) ==> c == d
  }

  /** The directory at the path is the one contender `c` created, in the state `c` left it. */
  predicate Owns(s: State, c: nat)
    requires LiveCritical(s, c)
  {
    && s.dir.Some? && s.dir.value.maker == c
    && (match s.phases[c]
        case Initialising(t, file) =>
          s.dir.value.owner.None? && t <= s.dir.value.mtime <= s.now && (file.Some? ==> file.value == c)
        case Cleaning(t) => s.dir.value.owner.None? && t <= s.dir.value.mtime <= s.now
        case _ => s.dir.value.owner == Some(Owner(s.pids[c], c)))
  }

  /** A record naming a live process belongs to a contender that is still inside. */
  predicate NoOrphanRecord(s: State) {
    var o := OwnerAt(s.dir);
    o.Some? && o.value.pid !in s.dead ==>
      && Live(s, o.value.token)
      && s.pids[o.value.token] == o.value.pid
      && (s.phases[o.value.token].Holding? || s.phases[o.value.token].Releasing?)
  }

  ghost predicate Inv(s: State) {
    && |s.pids| == |s.phases|
    && MutualExclusion(s)
    && (forall c: nat :: LiveCritical(s, c) ==> Owns(s, c))
    && NoOrphanRecord(s)
  }

  /** Nobody has started; an earlier run may have left a directory, but no record of a live process. */
  ghost predicate Initial(s: State) {
    && |s.pids| == |s.phases|
    && (forall c: nat :: c < |s.phases| ==> s.phases[c].Starting?)
    && (OwnerAt(s.dir).Some? ==> OwnerAt(s.dir).value.pid in s.dead)
  }

  /** The rename would move away a live contender's directory. */
  ghost predicate Misdirected(s: State, a: Action) {
    a.Quarantine? && s.dir.Some? && exists v: nat :: LiveCritical(s, v)
  }

  /** Contenders' steps interleave in any way. */
  type Trace = Runs.Trace<State, Action>

  function End(tr: Trace): State {
    match tr
    case Start(s) => s
    case Then(past, a) => var s := End(past); if Enabled(s, a) then Apply(s, a) else s
  }

  predicate Valid(tr: Trace) {
    tr.Then? ==> Valid(tr.past) && Enabled(End(tr.past), tr.a)
  }

  /** A run from an initial state none of whose renames hits a live contender's directory. */
  ghost predicate WellAimed(tr: Trace)
    requires Valid(tr)
  {
    match tr
    case Start(s) => Initial(s)
    case Then(past, a) => WellAimed(past) && !Misdirected(End(past), a)
  }

  // ----- Safety of the split protocol -----

  lemma StepKeepsRecords(s: State, a: Action)
    requires Inv(s) && Enabled(s, a)
    ensures NoOrphanRecord(Apply(s, a))
  {
    if a.OpenRecord? || a.WriteOwner? || a.CheckRelease? || a.RenameAway? {
      assert LiveCritical(s, a.c) && Owns(s, a.c);
    }
  }

  lemma StepKeepsExclusion(s: State, a: Action)
    requires Inv(s) && Enabled(s, a) && !Misdirected(s, a)
    ensures MutualExclusion(Apply(s, a)) && |Apply(s, a).pids| == |Apply(s, a).phases|
  {
    var t := Apply(s, a);
    assert forall c: nat :: LiveCritical(t, c) ==>
      LiveCritical(s, c) || (a.Mkdir? && a.c == c && s.dir.None?);
  }

  lemma StepKeepsOwner(s: State, a: Action, c: nat)
    requires Inv(s) && Enabled(s, a) && !Misdirected(s, a) && LiveCritical(Apply(s, a), c)
    ensures Owns(Apply(s, a), c)
  {
    assert a.Quarantine? && LiveCritical(s, c) ==> s.dir.None?;
    assert LiveCritical(s, c) ==> Owns(s, c);
    if !a.Crash? && !a.Tick? {
      assert LiveCritical(s, c) && LiveCritical(s, a.c) ==> c == a.c;
    }
  }

  lemma StepKeepsInv(s: State, a: Action)
    requires Inv(s) && Enabled(s, a) && !Misdirected(s, a)
    ensures Inv(Apply(s, a))
  {
    StepKeepsRecords(s, a);
    StepKeepsExclusion(s, a);
    forall c: nat | LiveCritical(Apply(s, a), c) ensures Owns(Apply(s, a), c) {
      StepKeepsOwner(s, a, c);
    }
  }

  /** Every run whose renames are well aimed ends in mutual exclusion, whatever crashes and delays
      happen, and every live contender inside still owns the directory at the path. */
  lemma {:induction false} WellAimedRunsAreSafe(tr: Trace)
    requires Valid(tr) && WellAimed(tr)
    ensures Inv(End(tr)) && MutualExclusion(End(tr))
  {
    if tr.Then? {
      WellAimedRunsAreSafe(tr.past);
      StepKeepsInv(End(tr.past), tr.a);
    }
  }

  /** What a release decides, in any state whatever: it goes on to move the path if and only if the record
      there carries the releaser's token. Otherwise the releaser is done and the path stays as it is. */
  lemma ReleaseChecksToken(s: State, c: nat)
    requires Enabled(s, CheckRelease(c))
    ensures var t := Apply(s, CheckRelease(c));
            var own := s.dir.Some? && s.dir.value.owner.Some? && s.dir.value.owner.value.token == c;
            && t.dir == s.dir
            && (Enabled(t, RenameAway(c)) <==> own)
            && (own ==> Apply(t, RenameAway(c)).dir == None)
            && (!own ==> t.phases[c].Finished? && forall a :: Enabled(t, a) ==> a.Crash? || a.Tick? || a.c != c)
  {
  }

  /** What was at the path when contender `c` last looked at its record to release. */
  function LastCheck(tr: Trace, c: nat): Option<LockDir> {
    match tr
    case Start(_) => None
    case Then(past, a) => if a == CheckRelease(c) then End(past).dir else LastCheck(past, c)
  }

  /** Over every run, badly aimed removals by others included: whoever is about to move the path in order to
      release has seen its own token there. */
  lemma {:induction false} ReleasingHasSeenItsToken(tr: Trace, c: nat)
    requires Valid(tr) && Initial(Origin(tr)) && Enabled(End(tr), RenameAway(c))
    ensures OwnerAt(LastCheck(tr, c)).Some? && OwnerAt(LastCheck(tr, c)).value.token == c
  {
    if tr.Then? && tr.a != CheckRelease(c) {
      ReleasingHasSeenItsToken(tr.past, c);
    }
  }

  /** In such runs a holder finds its own token when it releases, and the rename that releases it
      moves away a directory carrying that token. */
  lemma ReleaseRemovesOwnLock(tr: Trace, c: nat)
    requires Valid(tr) && WellAimed(tr)
    ensures Enabled(End(tr), RenameAway(c)) ==> OwnerAt(End(tr).dir) == Some(Owner(End(tr).pids[c], c))
    ensures Enabled(End(tr), CheckRelease(c)) ==>
              Apply(End(tr), CheckRelease(c)).phases[c].Releasing?
  {
    WellAimedRunsAreSafe(tr);
    if Enabled(End(tr), RenameAway(c)) || Enabled(End(tr), CheckRelease(c)) {
      assert LiveCritical(End(tr), c);
    }
  }

  /** The exact price of a badly aimed rename: it lets the renamer in beside the victim at its very
      next step, and a well aimed one does not. */
  lemma MisdirectedRenameIsExactlyTheFailure(s: State, c: nat)
    requires Inv(s) && Enabled(s, Quarantine(c))
    ensures var t := Apply(s, Quarantine(c));
            && Enabled(t, Mkdir(c))
            && (Misdirected(s, Quarantine(c)) <==> !MutualExclusion(Apply(t, Mkdir(c))))
  {
    var t := Apply(s, Quarantine(c));
    var u := Apply(t, Mkdir(c));
    assert LiveCritical(u, c);
    if Misdirected(s, Quarantine(c)) {
      var v: nat :| LiveCritical(s, v);
      assert LiveCritical(u, v) && v != c;
    } else {
      StepKeepsInv(s, Quarantine(c));
      StepKeepsInv(t, Mkdir(c));
    }
  }

  // ----- When observing and renaming happen without interruption -----

  /** Every live creator has been initialising for less than the grace period. */
  ghost predicate Timely(s: State) {
    forall c: nat :: LiveCritical(s, c) && (s.phases[c].Initialising? || s.phases[c].Cleaning?) ==>
      s.now - s.phases[c].since < GRACE
  }

  lemma StaleLockHasNoLiveCreator(s: State, c: nat)
    requires Inv(s) && Timely(s) && Stale(s)
    ensures s.dir.Some? ==> !LiveCritical(s, c)
    ensures !Misdirected(s, Quarantine(c))
  {
    forall v: nat | LiveCritical(s, v) ensures s.dir.None? {
      assert Owns(s, v);
    }
  }

  /** The run ends with contender `c` reading, asking for the process or looking at the directory, with no
      step of anyone else and no clock tick in between. */
  predicate Observed(tr: Trace, c: nat) {
    && tr.Then? && tr.past.Then?
    && if tr.a == CheckAge(c)
       then tr.past.a == StatLock(c) && tr.past.past.Then? && tr.past.past.a == ReadOwner(c)
       else tr.past.a == ReadOwner(c) && (tr.a == CheckAlive(c) || tr.a == StatLock(c))
  }

  /** Each rename comes straight after the observation that justified it. */
  predicate Uninterrupted(tr: Trace) {
    tr.Then? ==>
      && Uninterrupted(tr.past)
      && (tr.a.Quarantine? ==> Observed(tr.past, tr.a.c))
  }

  ghost predicate TimelyThroughout(tr: Trace)
    requires Valid(tr)
  {
    Timely(End(tr)) && (tr.Then? ==> TimelyThroughout(tr.past))
  }

  lemma JustObserved(tr: Trace)
    requires Valid(tr) && Uninterrupted(tr) && tr.Then? && tr.a.Quarantine?
    ensures Stale(End(tr.past))
  {
    assert Valid(tr.past.past) && Valid(tr.past.past.past);
    if tr.past.a.CheckAge? {
      assert Valid(tr.past.past.past.past);
      assert OwnerAt(End(tr.past.past.past).dir).None?;
    }
  }

  /** A directory without a record whose creator is gone: renaming it harms nobody. */
  ghost predicate Abandoned(s: State) {
    s.dir.Some? && OwnerAt(s.dir).None? && forall c: nat :: !LiveCritical(s, c)
  }

  /** The verdict that a rename rests on, checked at the rename itself, decides whether it breaks mutual
      exclusion: it does exactly when the directory is there and not stale any more. Only a directory that
      a crashed creator left behind young and without a record may be renamed all the same. */
  lemma VerdictAtRenameDecides(s: State, c: nat)
    requires Inv(s) && Timely(s) && Enabled(s, Quarantine(c))
    ensures Misdirected(s, Quarantine(c)) <==> s.dir.Some? && !Stale(s) && !Abandoned(s)
    ensures Enabled(Apply(s, Quarantine(c)), Mkdir(c))
    ensures !MutualExclusion(Apply(Apply(s, Quarantine(c)), Mkdir(c))) <==>
              s.dir.Some? && !Stale(s) && !Abandoned(s)
  {
    MisdirectedRenameIsExactlyTheFailure(s, c);
    if Stale(s) {
      StaleLockHasNoLiveCreator(s, c);
    } else if OwnerAt(s.dir).Some? {
      assert LiveCritical(s, OwnerAt(s.dir).value.token);
    }
  }

  /** Every rename of the run meets a directory that is still stale, or abandoned. */
  ghost predicate VerdictsHold(tr: Trace)
    requires Valid(tr)
  {
    tr.Then? ==>
      VerdictsHold(tr.past) && (tr.a.Quarantine? ==> Stale(End(tr.past)) || Abandoned(End(tr.past)))
  }

  /** So, with creators that keep to the grace period, the well aimed runs are exactly those in which
      every verdict still holds when it is acted on. */
  lemma {:induction false} WellAimedExactlyWhenVerdictsHold(tr: Trace)
    requires Valid(tr) && Initial(Origin(tr)) && TimelyThroughout(tr)
    ensures WellAimed(tr) <==> VerdictsHold(tr)
  {
    if tr.Then? {
      WellAimedExactlyWhenVerdictsHold(tr.past);
      if WellAimed(tr.past) && tr.a.Quarantine? {
        WellAimedRunsAreSafe(tr.past);
        VerdictAtRenameDecides(End(tr.past), tr.a.c);
      }
    }
  }

  lemma {:induction false} UninterruptedVerdictsHold(tr: Trace)
    requires Valid(tr) && Uninterrupted(tr)
    ensures VerdictsHold(tr)
  {
    if tr.Then? {
      UninterruptedVerdictsHold(tr.past);
      if tr.a.Quarantine? {
        JustObserved(tr);
      }
    }
  }

  /** With "observe, then rename away" as one step and creators that keep to the grace period, no
      rename is misdirected: mutual exclusion holds for any number of contenders, crashes, failed
      writes and clock ticks. */
  lemma UninterruptedRunsAreSafe(tr: Trace)
    requires Valid(tr) && Initial(Origin(tr)) && Uninterrupted(tr) && TimelyThroughout(tr)
    ensures WellAimed(tr) && MutualExclusion(End(tr))
  {
    UninterruptedVerdictsHold(tr);
    WellAimedExactlyWhenVerdictsHold(tr);
    WellAimedRunsAreSafe(tr);
  }

  // ----- With the steps split, the claim is false -----

  /** No process crashes and no time passes. */
  predicate Calm(tr: Trace) {
    tr.Then? ==> Calm(tr.past) && !tr.a.Crash? && !tr.a.Tick?
  }

  lemma Extended(tr: Trace, a: Action) returns (tr': Trace)
    requires Valid(tr) && Enabled(End(tr), a)
    ensures tr' == Then(tr, a) && Valid(tr') && End(tr') == Apply(End(tr), a)
    ensures Origin(tr') == Origin(tr) && (Calm(tr') <==> Calm(tr) && !a.Crash? && !a.Tick?)
  {
    tr' := Then(tr, a);
  }

  /** With the observation split from the rename, mutual exclusion fails although no process crashes
      and no time passes. Contender 1 sees the directory of contender 0, looks for its record after 0
      has released it and judges the empty path stale; contender 2 takes the lock; contender 1
      renames it away and takes it too. */
  lemma SplitObservationBreaksMutualExclusion() returns (tr: Trace)
    ensures Valid(tr) && Initial(Origin(tr)) && Calm(tr) && !WellAimed(tr)
    ensures var s := End(tr);
            && s == Three(Held(1), Finished, Holding, Holding)
            && LiveCritical(s, 1) && LiveCritical(s, 2)
  {
    tr := StaleVerdict();
    tr := Extended(tr, Quarantine(1));
    tr := Extended(tr, Mkdir(1));
    tr := Extended(tr, OpenRecord(1));
    tr := Extended(tr, WriteOwner(1));
    assert LiveCritical(End(tr), 1) && LiveCritical(End(tr), 2);
    if WellAimed(tr) {
      WellAimedRunsAreSafe(tr);
    }
  }

  /** The victim of that run does not take revenge: it finds another token and leaves the path alone. */
  lemma VictimLeavesThePath() returns (tr: Trace)
    ensures Valid(tr) && Initial(Origin(tr)) && tr.Then? && tr.a == CheckRelease(2)
    ensures End(tr) == Three(Held(1), Finished, Holding, Finished)
  {
    tr := SplitObservationBreaksMutualExclusion();
    tr := Extended(tr, CheckRelease(2));
  }

  /** A creator that cannot write its record leaves nothing at the path. */
  lemma FailedWriteFreesThePath(s: State, c: nat)
    requires Enabled(s, WriteFails(c))
    ensures var t := Apply(s, WriteFails(c));
            && t.dir == s.dir && Enabled(t, Cleanup(c))
            && Apply(t, Cleanup(c)).dir == None && Apply(t, Cleanup(c)).phases[c].Finished?
  {
  }

  /** Three contenders in three live processes at time 0. */
  function Three(dir: Option<LockDir>, p0: Phase, p1: Phase, p2: Phase): State {
    LockPath.State(0, dir, {}, [0, 1, 2], [p0, p1, p2])
  }

  function Held(c: nat): Option<LockDir> {
    Some(LockDir(c, 0, Some(Owner(c, c))))
  }

  lemma FirstHolds() returns (tr: Trace)
    ensures Valid(tr) && Initial(Origin(tr)) && Calm(tr)
    ensures End(tr) == Three(Held(0), Holding, Starting, Starting)
  {
    tr := Start(Three(None, Starting, Starting, Starting));
    tr := Extended(tr, Mkdir(0));
    tr := Extended(tr, OpenRecord(0));
    assert End(tr) == Three(Some(LockDir(0, 0, None)), Initialising(0, Some(0)), Starting, Starting);
    tr := Extended(tr, WriteOwner(0));
  }

  /** Contender 1 sees the directory of contender 0, which then releases it. */
  lemma SeenAndReleased() returns (tr: Trace)
    ensures Valid(tr) && Initial(Origin(tr)) && Calm(tr)
    ensures End(tr) == Three(None, Finished, Reading, Starting)
  {
    tr := FirstHolds();
    tr := Extended(tr, Mkdir(1));
    tr := Extended(tr, CheckRelease(0));
    tr := Extended(tr, RenameAway(0));
  }

  lemma StaleVerdict() returns (tr: Trace)
    ensures Valid(tr) && Initial(Origin(tr)) && Calm(tr)
    ensures End(tr) == Three(Held(2), Finished, Quarantining, Holding)
  {
    tr := SeenAndReleased();
    tr := Extended(tr, ReadOwner(1));
    tr := Extended(tr, StatLock(1));
    assert End(tr) == Three(None, Finished, Quarantining, Starting);
    tr := Extended(tr, Mkdir(2));
    tr := Extended(tr, OpenRecord(2));
    tr := Extended(tr, WriteOwner(2));
  }

  // ----- Recovery -----

  ghost predicate Alone(s: State, c: nat) {
    Live(s, c) && forall d: nat :: LiveCritical(s, d) ==> d == c
  }

  /** The step the acquisition loop takes next. */
  function NextAction(s: State, c: nat): Action
    requires Live(s, c)
  {
    match s.phases[c]
    case Starting => Mkdir(c)
    case Reading => ReadOwner(c)
    case Checking(_) => CheckAlive(c)
    case Statting => StatLock(c)
    case Aging(_) => CheckAge(c)
    case Quarantining => Quarantine(c)
    case Initialising(_, file) => if file.None? then OpenRecord(c) else WriteOwner(c)
    case _ => WriteOwner(c)
  }

  /** What a contender that is alone knows of the path at each point of the loop. */
  predicate Trying(s: State, c: nat)
    requires Live(s, c)
  {
    match s.phases[c]
    case Starting => true
    case Reading => s.dir.Some?
    case Checking(o) => OwnerAt(s.dir) == Some(o)
    case Statting => s.dir.Some? && OwnerAt(s.dir).None?
    case Aging(mtime) => s.dir.Some? && OwnerAt(s.dir).None? && s.dir.value.mtime == mtime
    case Quarantining => s.dir.Some? && Stale(s)
    case Initialising(_, _) => s.dir.Some?
    case Holding => s.dir.Some?
    case _ => false
  }

  lemma AloneStep(s: State, c: nat)
    requires Inv(s) && Alone(s, c) && Trying(s, c) && !s.phases[c].Holding?
    ensures Enabled(s, NextAction(s, c))
    ensures var t := Apply(s, NextAction(s, c));
            && Inv(t) && Alone(t, c) && Trying(t, c) && t.now == s.now && t.dead == s.dead
            && (match s.phases[c]
                case Starting =>
                  if s.dir.None? then t.phases[c].Initialising? else t.phases[c].Reading? && t.dir == s.dir
                case Reading =>
                  t.dir == s.dir && (if OwnerAt(s.dir).None? then t.phases[c].Statting? else t.phases[c].Checking?)
                case Checking(_) => t.dir == s.dir && t.phases[c].Quarantining?
                case Statting => t.dir == s.dir && t.phases[c].Aging?
                case Aging(_) =>
                  t.dir == s.dir && (if Young(s.dir, s.now) then t.phases[c].Starting? else t.phases[c].Quarantining?)
                case Quarantining => t.dir.None? && t.phases[c].Starting?
                case Initialising(_, None) => t.phases[c].Initialising? && t.phases[c].file.Some?
                case _ => t.phases[c].Holding?)
  {
    var a := NextAction(s, c);
    assert OwnerAt(s.dir).Some? && OwnerAt(s.dir).value.pid !in s.dead ==>
      LiveCritical(s, OwnerAt(s.dir).value.token);
    StepKeepsInv(s, a);
    assert forall d: nat :: LiveCritical(Apply(s, a), d) ==> LiveCritical(s, d) || d == c;
  }

  lemma AloneTick(s: State, c: nat, millis: nat)
    requires Inv(s) && Alone(s, c) && s.phases[c].Starting?
    ensures Inv(Apply(s, Tick(millis))) && Alone(Apply(s, Tick(millis)), c)
  {
    StepKeepsInv(s, Tick(millis));
    assert forall d: nat :: LiveCritical(Apply(s, Tick(millis)), d) ==> LiveCritical(s, d);
  }

  /** How far the path is from being acquired. */
  function Stage(s: State, c: nat): nat
    requires Live(s, c)
  {
    match s.phases[c]
    case Holding => 0
    case Initialising(_, file) => if file.Some? then 1 else 2
    case _ => if s.dir.None? then 3 else 4
  }

  /** And within one look at the path. */
  function Rank(p: Phase): nat {
    match p
    case Starting => 4
    case Reading => 3
    case Statting => 2
    case Aging(_) => 1
    case Checking(_) => 1
    case _ => 0
  }

  /** Acquisition by a contender that meets no other live one, polling every `poll` milliseconds. A
      lock without a live owner is recovered: one rename at most, and waiting only while the
      directory's age is below the grace period. */
  method AcquireAlone(s0: State, c: nat, poll: nat)
    returns (s: State, ghost tr: Trace, waits: nat, retries: nat)
    requires Inv(s0) && Alone(s0, c) && s0.phases[c].Starting? && poll > 0
    ensures Valid(tr) && Origin(tr) == s0 && End(tr) == s && Inv(s)
    ensures Live(s, c) && s.phases[c].Holding?
    ensures retries == if s0.dir.None? then 0 else 1
    ensures Stale(s0) ==> waits == 0
    ensures waits > 0 ==> s0.now + (waits - 1) * poll - s0.dir.value.mtime < GRACE
  {
    s, tr, waits, retries := s0, Start(s0), 0, 0;
    while !s.phases[c].Holding?
      invariant Valid(tr) && Origin(tr) == s0 && End(tr) == s
      invariant Inv(s) && Alone(s, c) && Trying(s, c)
      invariant s.now == s0.now + waits * poll && s.dead == s0.dead
      invariant if s.dir.None? || LiveCritical(s, c)
                then retries == if s0.dir.None? then 0 else 1
                else retries == 0 && s.dir == s0.dir
      invariant waits > 0 ==> !Stale(s0)
      invariant waits > 0 ==> s0.now + (waits - 1) * poll - s0.dir.value.mtime < GRACE
      decreases Stage(s, c), if Young(s.dir, s.now) then GRACE - (s.now - s.dir.value.mtime) else 0,
                Rank(s.phases[c])
    {
      AloneStep(s, c);
      var a := NextAction(s, c);
      var waiting := a.CheckAge? && Young(s.dir, s.now);
      tr := Extended(tr, a);
      s := Apply(s, a);
      if a.Quarantine? {
        retries := retries + 1;
      }
      if waiting {
        waits := waits + 1;
        AloneTick(s, c, poll);
        tr := Extended(tr, Tick(poll));
        s := Apply(s, Tick(poll));
      }
    }
  }
}
