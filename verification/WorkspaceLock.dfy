/** The fail-fast lock of one build workspace, with every file-system call and every look at another
    process a separate step. Among its contenders are prunes, which scan for stale locks and remove them
    later. */
module WorkspaceLock {
  import opened LockPath
  import opened Options
  import opened Runs

  /** A prune judges ages by the time it started. */
  datatype Role = Acquirer | Pruner(start: int)

  datatype Phase =
    | Starting                               // look whether the lock directory exists, or begin a prune
    | Listing(start: int)                    // prune: list the lock directories
    | Reading(role: Role)                    // it existed: read the owner record
    | Checking(role: Role, owner: Owner, readAt: int)
        // the record read at `readAt`: ask whether its process is alive
    | Statting(role: Role, dead: Option<Owner>, readAt: int)
        // no record at `readAt`, or, in a prune, one of a dead process: look at the directory
    | Aging(role: Role, readAt: int, mtime: int)
        // no record, and the directory was last touched at `mtime`: work out its age
    | Removing(role: Role)                   // judged stale: remove whatever is at the path
    | Creating                               // create the directory
    | Initialising(since: int, file: Option<nat>)
        // directory created at `since`, record not complete; its file is open in the directory of `file`
    | Holding                                // acquired; later, read the record to release
    | Releasing                              // the record carried its own token: remove the path
    | Finished(at: int)                      // released
    | Stopped                                // acquisition refused, or prune over

  type State = LockPath.State<Phase>

  datatype Action =
    | Exists(c: nat) | BeginPrune(c: nat) | List(c: nat)
    | ReadOwner(c: nat) | CheckAlive(c: nat) | StatLock(c: nat) | CheckAge(c: nat) | Remove(c: nat)
    | Mkdir(c: nat) | OpenRecord(c: nat) | WriteOwner(c: nat) | CheckRelease(c: nat) | RemoveOwn(c: nat)
    | Crash(pid: nat) | Exit(pid: nat) | Tick(millis: nat)

  /** In the middle of nothing. */
  predicate Resting(p: Phase) {
    p.Starting? || p.Finished? || p.Stopped?
  }

  predicate AllRest(s: State, pid: nat) {
    forall c :: 0 <= c < |s.phases| == |s.pids| && s.pids[c] == pid ==> Resting(s.phases[c])
  }

  /** A process ends normally only when no acquisition, lease or prune of it is going on. */
  predicate Enabled(s: State, a: Action) {
    match a
    case Exists(c) => Live(s, c) && s.phases[c].Starting?
    case BeginPrune(c) => Live(s, c) && s.phases[c].Starting?
    case List(c) => Live(s, c) && s.phases[c].Listing?
    case ReadOwner(c) => Live(s, c) && s.phases[c].Reading?
    case CheckAlive(c) => Live(s, c) && s.phases[c].Checking?
    case StatLock(c) => Live(s, c) && s.phases[c].Statting?
    case CheckAge(c) => Live(s, c) && s.phases[c].Aging?
    case Remove(c) => Live(s, c) && s.phases[c].Removing?
    case Mkdir(c) => Live(s, c) && s.phases[c].Creating?
    case OpenRecord(c) => Live(s, c) && s.phases[c].Initialising? && s.phases[c].file.None?
    case WriteOwner(c) => Live(s, c) && s.phases[c].Initialising? && s.phases[c].file.Some?
    case CheckRelease(c) => Live(s, c) && s.phases[c].Holding?
    case RemoveOwn(c) => Live(s, c) && s.phases[c].Releasing?
    case Crash(_) => true
    case Exit(pid) => AllRest(s, pid)
    case Tick(_) => true
  }

  /** One file-system call, look at a process or the clock, end of a process, or clock tick. */
  function Apply(s: State, a: Action): State
    requires Enabled(s, a)
  {
    match a
    case Exists(c) => Goto(s, c, if s.dir.Some? then Reading(Acquirer) else Creating)
    case BeginPrune(c) => Goto(s, c, Listing(s.now))
    case List(c) => Goto(s, c, if s.dir.Some? then Reading(Pruner(s.phases[c].start)) else Stopped)
    case ReadOwner(c) =>
      var role := s.phases[c].role;
      (match OwnerAt(s.dir)
       case Some(o) => Goto(s, c, Checking(role, o, s.now))
       case None => Goto(s, c, Statting(role, None, s.now)))
    case CheckAlive(c) =>
      var p := s.phases[c];
      Goto(s, c,
        if p.owner.pid !in s.dead then Stopped
        else if p.role.Acquirer? then Removing(p.role)
        else Statting(p.role, Some(p.owner), p.readAt))
    case StatLock(c) =>
      var p := s.phases[c];
      Goto(s, c,
        if s.dir.None? then Stopped
        else if p.dead.Some? then Removing(p.role)
        else Aging(p.role, p.readAt, s.dir.value.mtime))
    case CheckAge(c) =>
      var p := s.phases[c];
      var now := if p.role.Acquirer? then s.now else p.role.start;
      Goto(s, c, if now - p.mtime < GRACE then Stopped else Removing(p.role))
    case Remove(c) =>
      Goto(s.(dir := None), c, if s.phases[c].role.Acquirer? && s.dir.Some? then Creating else Stopped)
    case Mkdir(c) =>
      if s.dir.None?
      then Goto(s.(dir := Some(LockDir(c, s.now, None))), c, Initialising(s.now, None))
      else Goto(s, c, Stopped)
    case OpenRecord(c) =>
      if s.dir.None? then Goto(s, c, Stopped)
      else
        Goto(s.(dir := Some(RecordOpened(s.dir.value, s.now))), c,
          Initialising(s.phases[c].since, Some(s.dir.value.maker)))
    case WriteOwner(c) =>
      Goto(s.(dir := RecordWritten(s.dir, s.phases[c].file.value, Owner(s.pids[c], c))), c, Holding)
    case CheckRelease(c) =>
      var o := OwnerAt(s.dir);
      Goto(s, c, if o.Some? && o.value.token == c then Releasing else Finished(s.now))
    case RemoveOwn(c) => Goto(s.(dir := None), c, Finished(s.now))
    case Crash(pid) => s.(dead := s.dead + {pid})
    case Exit(pid) => s.(dead := s.dead + {pid})
    case Tick(millis) => s.(now := s.now + millis)
  }

  /** Between creating the directory and removing it. */
  predicate LiveCritical(s: State, c: nat) {
    Live(s, c) && (s.phases[c].Initialising? || s.phases[c].Holding? || s.phases[c].Releasing?)
  }

  ghost predicate MutualExclusion(s: State) {
    forall c: nat, d: nat :: LiveCritical(s, c) && LiveCritical(s, d) ==> c == d
  }

  predicate Owns(s: State, c: nat)
    requires LiveCritical(s, c)
  {
    && s.dir.Some? && s.dir.value.maker == c
    && (match s.phases[c]
        case Initialising(t, file) =>
          s.dir.value.owner.None? && t <= s.dir.value.mtime <= s.now && (file.Some? ==> file.value == c)
        case _ => s.dir.value.owner == Some(Owner(s.pids[c], c)))
  }

  /** A record naming a live process belongs to a contender that is still inside. */
  predicate NoOrphanRecord(s: State) {
    var o := OwnerAt(s.dir);
    o.Some? && o.value.pid !in s.dead ==>
      && Live(s, o.value.token)
      && s.pids[o.value.token] == o.value.pid
      && (s.phases[o.value.token].Holding? || s.phases[o.value.token].Releasing?)
  }

  ghost predicate Inv(s: State) {
    && |s.pids| == |s.phases|
    && MutualExclusion(s)
    && (forall c: nat :: LiveCritical(s, c) ==> Owns(s, c))
    && NoOrphanRecord(s)
  }

  ghost predicate Initial(s: State) {
    && |s.pids| == |s.phases| && s.dir.None? && s.dead == {}
    && (forall c: nat :: c < |s.phases| ==> s.phases[c].Starting?)
  }

  /** Contenders' steps interleave in any way. */
  type Trace = Runs.Trace<State, Action>

  function End(tr: Trace): State {
    match tr
    case Start(s) => s
    case Then(past, a) => var s := End(past); if Enabled(s, a) then Apply(s, a) else s
  }

  ghost predicate Valid(tr: Trace) {
    if tr.Start? then Initial(tr.init) else Valid(tr.past) && Enabled(End(tr.past), tr.a)
  }

  // ----- Acquiring -----

  predicate MovesContender(a: Action, c: nat) {
    !a.Crash? && !a.Exit? && !a.Tick? && a.c == c
  }

  /** The latest step of contender `c` and the state in which it was taken. */
  function LastMove(tr: Trace, c: nat): Option<(State, Action)> {
    match tr
    case Start(_) => None
    case Then(past, a) => if MovesContender(a, c) then Some((End(past), a)) else LastMove(past, c)
  }

  /** Over every run: whoever is about to create the directory has found nothing at the path or has removed
      what it judged stale; it never goes on from a directory that vanished while it looked. */
  lemma {:induction false} CreatorFoundOrMadeRoom(tr: Trace, c: nat)
    requires Valid(tr) && c < |End(tr).phases| && End(tr).phases[c].Creating?
    ensures LastMove(tr, c).Some?
    ensures var (s, a) := LastMove(tr, c).value;
            || (a == Exists(c) && s.dir.None?)
            || (a == Remove(c) && s.dir.Some? && Enabled(s, a) && s.phases[c].role.Acquirer?)
  {
    if tr.Then? && !MovesContender(tr.a, c) {
      CreatorFoundOrMadeRoom(tr.past, c);
    }
  }

  /** How far a contender has come. */
  function Progress(p: Phase): nat {
    match p
    case Starting => 0
    case Listing(_) => 1
    case Reading(_) => 2
    case Checking(_, _, _) => 3
    case Statting(_, _, _) => 4
    case Aging(_, _, _) => 5
    case Removing(_) => 6
    case Creating => 7
    case Initialising(_, file) => if file.None? then 8 else 9
    case Holding => 10
    case Releasing => 11
    case Finished(_) => 12
    case Stopped => 12
  }

  /** Nobody retries: every step of a contender brings it further, so an acquisition that is overtaken
      fails. */
  lemma NobodyRetries(s: State, a: Action, c: nat)
    requires Enabled(s, a) && c < |s.phases|
    ensures var p, q := s.phases[c], Apply(s, a).phases[c];
            if MovesContender(a, c) then Progress(p) < Progress(q) <= 12 else p == q
  {
  }

  /** With nothing at the path, every observer but an acquisition that still has to look stops. */
  lemma NothingToJudge(s: State, a: Action)
    requires Enabled(s, a) && s.dir.None? && (a.List? || a.StatLock? || a.Remove? || a.OpenRecord?)
    ensures Apply(s, a) == s.(phases := s.phases[a.c := Stopped])
  {
  }

  predicate Trying(p: Phase) {
    match p
    case Starting => true
    case Reading(role) => role.Acquirer?
    case Checking(role, _, _) => role.Acquirer?
    case Statting(role, dead, _) => role.Acquirer? && dead.None?
    case Aging(role, _, _) => role.Acquirer?
    case Removing(role) => role.Acquirer?
    case Creating => true
    case Initialising(_, _) => true
    case _ => false
  }

  /** The step an acquisition takes next. */
  function NextAction(p: Phase, c: nat): Action
    requires Trying(p)
  {
    match p
    case Starting => Exists(c)
    case Reading(_) => ReadOwner(c)
    case Checking(_, _, _) => CheckAlive(c)
    case Statting(_, _, _) => StatLock(c)
    case Aging(_, _, _) => CheckAge(c)
    case Removing(_) => Remove(c)
    case Creating => Mkdir(c)
    case Initialising(_, file) => if file.None? then OpenRecord(c) else WriteOwner(c)
  }

  /** At most `n` steps of contender `c` with nobody else in between. */
  function Undisturbed(s: State, c: nat, n: nat): State
    decreases n
  {
    if n == 0 || !Live(s, c) || !Trying(s.phases[c]) then s
    else Undisturbed(Apply(s, NextAction(s.phases[c], c)), c, n - 1)
  }

  /** One step less to go. */
  lemma OneStep(s: State, c: nat, n: nat)
    requires Live(s, c) && Trying(s.phases[c]) && n > 0
    ensures Enabled(s, NextAction(s.phases[c], c))
    ensures Undisturbed(s, c, n) == Undisturbed(Apply(s, NextAction(s.phases[c], c)), c, n - 1)
  {
  }

  lemma Fills(s: State, c: nat, n: nat)
    requires Live(s, c) && s.phases[c] == Initialising(s.now, None) && s.dir == Some(LockDir(c, s.now, None)) && n >= 2
    ensures Undisturbed(s, c, n) == s.(
              dir := Some(LockDir(c, s.now, Some(Owner(s.pids[c], c)))), phases := s.phases[c := Holding])
  {
    OneStep(s, c, n);
    var s1 := Apply(s, OpenRecord(c));
    assert s1.phases[c] == Initialising(s.now, Some(c));
    OneStep(s1, c, n - 1);
    var s2 := Apply(s1, WriteOwner(c));
    assert s2.phases == s.phases[c := Holding];
  }

  lemma MakesAndFills(s: State, c: nat, n: nat)
    requires Live(s, c) && s.phases[c].Creating? && s.dir.None? && n >= 3
    ensures Undisturbed(s, c, n) == s.(
              dir := Some(LockDir(c, s.now, Some(Owner(s.pids[c], c)))), phases := s.phases[c := Holding])
  {
    OneStep(s, c, n);
    var s1 := Apply(s, Mkdir(c));
    Fills(s1, c, n - 1);
    assert s1.phases[c := Holding] == s.phases[c := Holding];
  }

  lemma RemovesAndMakes(s: State, c: nat, n: nat)
    requires Live(s, c) && s.phases[c] == Removing(Acquirer) && s.dir.Some? && n >= 4
    ensures Undisturbed(s, c, n) == s.(
              dir := Some(LockDir(c, s.now, Some(Owner(s.pids[c], c)))), phases := s.phases[c := Holding])
  {
    var t := Apply(s, Remove(c));
    MakesAndFills(t, c, n - 1);
    assert t.phases[c := Holding] == s.phases[c := Holding];
  }

  /** From the verdict on. */
  lemma ActsOnVerdict(s: State, t: State, c: nat, n: nat)
    requires Live(s, c) && s.dir.Some? && n >= 4
    requires t == s.(phases := s.phases[c := if Stale(s) then Removing(Acquirer) else Stopped])
    ensures Undisturbed(t, c, n)
         == if Stale(s)
            then s.(dir := Some(LockDir(c, s.now, Some(Owner(s.pids[c], c)))), phases := s.phases[c := Holding])
            else s.(phases := s.phases[c := Stopped])
  {
    if Stale(s) {
      RemovesAndMakes(t, c, n);
      assert t.phases[c := Holding] == s.phases[c := Holding];
    }
  }

  /** From a look at a directory to the verdict on it. */
  lemma Judges(s: State, c: nat, n: nat)
    requires Live(s, c) && s.phases[c] == Reading(Acquirer) && s.dir.Some? && n >= 7
    ensures Undisturbed(s, c, n)
         == if Stale(s)
            then s.(dir := Some(LockDir(c, s.now, Some(Owner(s.pids[c], c)))), phases := s.phases[c := Holding])
            else s.(phases := s.phases[c := Stopped])
  {
    OneStep(s, c, n);
    var s1 := Apply(s, ReadOwner(c));
    OneStep(s1, c, n - 1);
    if OwnerAt(s.dir).Some? {
      var s2 := Apply(s1, CheckAlive(c));
      assert s2.phases == s.phases[c := if Stale(s) then Removing(Acquirer) else Stopped];
      ActsOnVerdict(s, s2, c, n - 2);
    } else {
      var s2 := Apply(s1, StatLock(c));
      OneStep(s2, c, n - 2);
      var s3 := Apply(s2, CheckAge(c));
      assert s3.phases == s.phases[c := if Stale(s) then Removing(Acquirer) else Stopped];
      ActsOnVerdict(s, s3, c, n - 3);
    }
  }

  /** An undisturbed acquisition comes to hold the lock, its record at the path, if and only if nothing was
      there or what was there is stale; otherwise it is refused at once and the path stays as it is. */
  lemma UndisturbedAcquisition(s: State, c: nat)
    requires Live(s, c) && s.phases[c].Starting?
    ensures Undisturbed(s, c, 8)
         == if s.dir.None? || Stale(s)
            then s.(dir := Some(LockDir(c, s.now, Some(Owner(s.pids[c], c)))), phases := s.phases[c := Holding])
            else s.(phases := s.phases[c := Stopped])
  {
    var t := Apply(s, Exists(c));
    assert t.phases[c := Holding] == s.phases[c := Holding];
    assert t.phases[c := Stopped] == s.phases[c := Stopped];
    if s.dir.None? {
      MakesAndFills(t, c, 7);
    } else {
      Judges(t, c, 7);
    }
  }

  // ----- Releasing -----

  /** What a release decides, in any state whatever: it goes on to remove the path if and only if the record
      there carries the releaser's token. Otherwise the releaser is done and the path stays as it is. */
  lemma ReleaseChecksToken(s: State, c: nat)
    requires Enabled(s, CheckRelease(c))
    ensures var t := Apply(s, CheckRelease(c));
            var own := s.dir.Some? && s.dir.value.owner.Some? && s.dir.value.owner.value.token == c;
            && t.dir == s.dir
            && (Enabled(t, RemoveOwn(c)) <==> own)
            && (own ==> Apply(t, RemoveOwn(c)).dir == None)
            && (!own ==> t.phases[c].Finished?
                         && forall a :: Enabled(t, a) ==> a.Crash? || a.Exit? || a.Tick? || a.c != c)
  {
  }

  /** What was at the path when contender `c` last looked at its record to release. */
  function LastCheck(tr: Trace, c: nat): Option<LockDir> {
    match tr
    case Start(_) => None
    case Then(past, a) => if a == CheckRelease(c) then End(past).dir else LastCheck(past, c)
  }

  /** Over every run, badly aimed removals by others included: whoever is about to remove the path in order to
      release has seen its own token there. */
  lemma {:induction false} ReleasingHasSeenItsToken(tr: Trace, c: nat)
    requires Valid(tr) && Initial(Origin(tr)) && Enabled(End(tr), RemoveOwn(c))
    ensures OwnerAt(LastCheck(tr, c)).Some? && OwnerAt(LastCheck(tr, c)).value.token == c
  {
    if tr.Then? && tr.a != CheckRelease(c) {
      ReleasingHasSeenItsToken(tr.past, c);
    }
  }

  // ----- Safety, crashes included, up to a badly aimed removal -----

  /** The removal of a "stale" lock would remove a live contender's directory. */
  ghost predicate Misdirected(s: State, a: Action) {
    a.Remove? && s.dir.Some? && exists v: nat :: LiveCritical(s, v)
  }

  ghost predicate WellAimed(tr: Trace) {
    tr.Then? ==> WellAimed(tr.past) && !Misdirected(End(tr.past), tr.a)
  }

  lemma StepKeepsRecords(s: State, a: Action)
    requires Inv(s) && Enabled(s, a)
    ensures NoOrphanRecord(Apply(s, a))
  {
    if a.OpenRecord? || a.WriteOwner? || a.CheckRelease? || a.RemoveOwn? {
      assert LiveCritical(s, a.c) && Owns(s, a.c);
    }
  }

  lemma StepKeepsExclusion(s: State, a: Action)
    requires Inv(s) && Enabled(s, a) && !Misdirected(s, a)
    ensures MutualExclusion(Apply(s, a)) && |Apply(s, a).pids| == |Apply(s, a).phases|
  {
    var t := Apply(s, a);
    assert forall c: nat :: LiveCritical(t, c) ==>
      LiveCritical(s, c) || (a.Mkdir? && a.c == c && s.dir.None?);
  }

  lemma StepKeepsOwner(s: State, a: Action, c: nat)
    requires Inv(s) && Enabled(s, a) && !Misdirected(s, a) && LiveCritical(Apply(s, a), c)
    ensures Owns(Apply(s, a), c)
  {
    assert a.Remove? && LiveCritical(s, c) ==> s.dir.None?;
    assert LiveCritical(s, c) ==> Owns(s, c);
    if !a.Crash? && !a.Exit? && !a.Tick? {
      assert LiveCritical(s, c) && LiveCritical(s, a.c) ==> c == a.c;
    }
  }

  lemma StepKeepsInv(s: State, a: Action)
    requires Inv(s) && Enabled(s, a) && !Misdirected(s, a)
    ensures Inv(Apply(s, a))
  {
    StepKeepsRecords(s, a);
    StepKeepsExclusion(s, a);
    forall c: nat | LiveCritical(Apply(s, a), c) ensures Owns(Apply(s, a), c) {
      StepKeepsOwner(s, a, c);
    }
  }

  /** Crashes and prunes included, a run is safe as long as no removal hits a live contender's directory. */
  lemma {:induction false} WellAimedRunsAreSafe(tr: Trace)
    requires Valid(tr) && WellAimed(tr)
    ensures Inv(End(tr)) && MutualExclusion(End(tr))
  {
    if tr.Then? {
      WellAimedRunsAreSafe(tr.past);
      StepKeepsInv(End(tr.past), tr.a);
    }
  }

  /** Someone is inside and nothing at the path tells. */
  ghost predicate Exposed(s: State) {
    s.dir.None? && exists v: nat :: LiveCritical(s, v)
  }

  lemma ExposedLockIsTakenAgain(s: State, c: nat)
    requires Exposed(s) && Enabled(s, Mkdir(c))
    ensures !MutualExclusion(Apply(s, Mkdir(c)))
  {
    var v: nat :| LiveCritical(s, v);
    var t := Apply(s, Mkdir(c));
    assert LiveCritical(t, v) && LiveCritical(t, c) && v != c;
  }

  /** A removal, by an acquisition or a prune, that hits a live contender's directory is exactly what lets
      the next contender in beside it; after one of an acquisition that is the remover itself. */
  lemma MisdirectedRemovalIsExactlyTheFailure(s: State, c: nat)
    requires Inv(s) && Enabled(s, Remove(c)) && s.dir.Some?
    ensures var t := Apply(s, Remove(c));
            && (Misdirected(s, Remove(c)) <==> Exposed(t))
            && (Misdirected(s, Remove(c)) <==> !Inv(t))
            && (s.phases[c].role.Acquirer? ==> Enabled(t, Mkdir(c)))
            && forall d :: Enabled(t, Mkdir(d)) ==>
                 (Misdirected(s, Remove(c)) <==> !MutualExclusion(Apply(t, Mkdir(d))))
  {
    var t := Apply(s, Remove(c));
    forall v: nat ensures LiveCritical(s, v) <==> LiveCritical(t, v) {
    }
    if !Misdirected(s, Remove(c)) {
      StepKeepsInv(s, Remove(c));
    } else {
      var v: nat :| LiveCritical(t, v);
      assert !Owns(t, v);
    }
    forall d | Enabled(t, Mkdir(d))
      ensures Misdirected(s, Remove(c)) <==> !MutualExclusion(Apply(t, Mkdir(d)))
    {
      if Misdirected(s, Remove(c)) {
        ExposedLockIsTakenAgain(t, d);
      } else {
        StepKeepsInv(t, Mkdir(d));
      }
    }
  }

  /** Every live creator has been initialising for less than the grace period. */
  ghost predicate PromptCreators(s: State) {
    forall c: nat :: LiveCritical(s, c) && s.phases[c].Initialising? ==> s.now - s.phases[c].since < GRACE
  }

  /** A directory without a record whose creator is gone: removing it harms nobody. */
  ghost predicate Abandoned(s: State) {
    s.dir.Some? && OwnerAt(s.dir).None? && forall c: nat :: !LiveCritical(s, c)
  }

  lemma StaleLockHasNoLiveCreator(s: State, c: nat)
    requires Inv(s) && PromptCreators(s) && Stale(s)
    ensures !Misdirected(s, Remove(c))
  {
    forall v: nat | LiveCritical(s, v) ensures s.dir.None? {
      assert Owns(s, v);
    }
  }

  /** The verdict that a removal rests on, checked at the removal itself, decides whether it harms: it does
      exactly when the directory is not stale any more. Only a directory that a crashed creator left behind
      young and without a record may be removed all the same. For a prune, whose removals come after its
      whole scan, as for an acquisition. */
  lemma VerdictAtRemovalDecides(s: State, c: nat)
    requires Inv(s) && PromptCreators(s) && Enabled(s, Remove(c)) && s.dir.Some?
    ensures Misdirected(s, Remove(c)) <==> !Stale(s) && !Abandoned(s)
    ensures Exposed(Apply(s, Remove(c))) <==> !Stale(s) && !Abandoned(s)
  {
    MisdirectedRemovalIsExactlyTheFailure(s, c);
    if Stale(s) {
      StaleLockHasNoLiveCreator(s, c);
    } else if OwnerAt(s.dir).Some? {
      assert LiveCritical(s, OwnerAt(s.dir).value.token);
    }
  }

  ghost predicate PromptThroughout(tr: Trace) {
    PromptCreators(End(tr)) && (tr.Then? ==> PromptThroughout(tr.past))
  }

  /** Every removal of the run meets no directory, or one that is still stale, or abandoned. */
  ghost predicate VerdictsHold(tr: Trace) {
    tr.Then? ==>
      VerdictsHold(tr.past) && (tr.a.Remove? ==> Stale(End(tr.past)) || Abandoned(End(tr.past)))
  }

  /** With creators that keep to the grace period, crashes and prunes included, the well aimed runs are
      exactly those in which every verdict still holds when it is acted on. */
  lemma {:induction false} WellAimedExactlyWhenVerdictsHold(tr: Trace)
    requires Valid(tr) && PromptThroughout(tr)
    ensures WellAimed(tr) <==> VerdictsHold(tr)
  {
    if tr.Then? {
      WellAimedExactlyWhenVerdictsHold(tr.past);
      if WellAimed(tr.past) && tr.a.Remove? && End(tr.past).dir.Some? {
        WellAimedRunsAreSafe(tr.past);
        VerdictAtRemovalDecides(End(tr.past), tr.a.c);
      }
    }
  }

  // ----- Crash-free runs under timing bounds -----

  predicate CrashFree(tr: Trace) {
    tr.Then? ==> CrashFree(tr.past) && !tr.a.Crash?
  }

  /** Milliseconds: at most `write` from creating the directory to the complete record, `stat` from an
      acquisition's read that found no record to working out the age, and `ask` from reading a record to
      asking for its process; and at least `linger` from a release to the end of its process. */
  datatype Delays = Delays(write: nat, stat: nat, ask: nat, linger: nat)

  predicate InTime(now: int, p: Phase, d: Delays) {
    match p
    case Initialising(since, _) => now - since <= d.write
    case Statting(role, _, readAt) => role.Acquirer? ==> now - readAt <= d.stat
    case Aging(role, readAt, _) => role.Acquirer? ==> now - readAt <= d.stat
    case Checking(_, _, readAt) => now - readAt <= d.ask
    case _ => true
  }

  predicate Timely(s: State, d: Delays) {
    forall c :: 0 <= c < |s.phases| ==> InTime(s.now, s.phases[c], d)
  }

  predicate Lingers(s: State, a: Action, d: Delays) {
    a.Exit? ==>
      forall c :: 0 <= c < |s.phases| == |s.pids| && s.pids[c] == a.pid && s.phases[c].Finished? ==>
        s.now - s.phases[c].at >= d.linger
  }

  predicate TimelyThroughout(tr: Trace, d: Delays) {
    Timely(End(tr), d) && (tr.Then? ==> TimelyThroughout(tr.past, d) && Lingers(End(tr.past), tr.a, d))
  }

  /** The delays that the protocol can bear. */
  predicate Sufficient(d: Delays) {
    d.write + d.stat < GRACE && d.ask < d.linger
  }

  predicate StartedBy(role: Role, time: int) {
    role.Pruner? ==> role.start <= time
  }

  /** Whoever wrote the record is inside, or has released at `readAt` or later. */
  predicate Recorded(s: State, o: Owner, readAt: int) {
    && o.token < |s.phases| == |s.pids| && s.pids[o.token] == o.pid && o.pid !in s.dead
    && match s.phases[o.token]
       case Holding => true
       case Releasing => true
       case Finished(at) => readAt <= at
       case _ => false
  }

  /** What an observer has seen will not mislead it. */
  predicate Sound(s: State, p: Phase, d: Delays) {
    match p
    case Listing(start) => start <= s.now
    case Reading(role) => StartedBy(role, s.now)
    case Checking(role, o, readAt) => readAt <= s.now && StartedBy(role, readAt) && Recorded(s, o, readAt)
    case Statting(role, dead, readAt) =>
      && dead.None? && readAt <= s.now && StartedBy(role, readAt)
      && (s.dir.Some? ==> readAt - d.write <= s.dir.value.mtime)
    case Aging(role, readAt, mtime) => StartedBy(role, readAt) && readAt - d.write <= mtime
    case Removing(_) => false
    case _ => true
  }

  /** Without crashes every process with something going on is alive, so is that of a record, and a
      directory without one has a live creator. */
  ghost predicate AllAlive(s: State) {
    && (forall c: nat :: c < |s.phases| == |s.pids| && !Resting(s.phases[c]) ==> s.pids[c] !in s.dead)
    && (OwnerAt(s.dir).Some? ==> OwnerAt(s.dir).value.pid !in s.dead)
    && (s.dir.Some? && OwnerAt(s.dir).None? ==>
          exists c: nat :: LiveCritical(s, c) && s.phases[c].Initialising?)
  }

  ghost predicate TimedInv(s: State, d: Delays) {
    Inv(s) && AllAlive(s) && forall c :: 0 <= c < |s.phases| ==> Sound(s, s.phases[c], d)
  }

  lemma NoRemoval(s: State, d: Delays)
    requires TimedInv(s, d)
    ensures forall c :: !Enabled(s, Remove(c))
  {
    forall c | 0 <= c < |s.phases| ensures !s.phases[c].Removing? {
      assert Sound(s, s.phases[c], d);
    }
  }

  lemma StepKeepsAlive(s: State, a: Action, d: Delays)
    requires TimedInv(s, d) && Enabled(s, a) && !a.Crash?
    ensures AllAlive(Apply(s, a))
  {
    var t := Apply(s, a);
    NoRemoval(s, d);
    if s.dir.Some? && OwnerAt(s.dir).None? {
      var v: nat :| LiveCritical(s, v) && s.phases[v].Initialising?;
      if t.dir.Some? && OwnerAt(t.dir).None? {
        assert LiveCritical(t, v);
      }
    }
    if (a.Mkdir? && s.dir.None?) || a.OpenRecord? {
      assert a.OpenRecord? ==> Owns(s, a.c);
      assert LiveCritical(t, a.c);
    }
  }

  /** While the process of a record is being asked for, it does not end. */
  lemma AskedProcessStays(s: State, d: Delays, c: nat)
    requires TimedInv(s, d) && Timely(s, d) && Sufficient(d)
    requires c < |s.phases| && s.phases[c].Checking?
    ensures !Enabled(s, Exit(s.phases[c].owner.pid)) || !Lingers(s, Exit(s.phases[c].owner.pid), d)
  {
    var o, readAt := s.phases[c].owner, s.phases[c].readAt;
    assert Sound(s, s.phases[c], d) && InTime(s.now, s.phases[c], d);
    if s.phases[o.token].Finished? {
      assert s.now - s.phases[o.token].at <= d.ask < d.linger;
    } else {
      assert !Resting(s.phases[o.token]);
    }
  }

  lemma OthersStaySound(s: State, a: Action, d: Delays, c: nat)
    requires TimedInv(s, d) && Enabled(s, a) && !a.Crash? && Timely(s, d) && Lingers(s, a, d) && Sufficient(d)
    requires c < |s.phases| && (a.Exit? || a.Tick? || a.c != c)
    ensures Sound(Apply(s, a), s.phases[c], d)
  {
    NoRemoval(s, d);
    assert Sound(s, s.phases[c], d);
    if a.Exit? && s.phases[c].Checking? {
      AskedProcessStays(s, d, c);
    }
    if a.OpenRecord? || a.WriteOwner? {
      assert LiveCritical(s, a.c) && Owns(s, a.c);
    }
  }

  lemma ActorStaysSound(s: State, a: Action, d: Delays)
    requires TimedInv(s, d) && Enabled(s, a) && !a.Crash? && !a.Exit? && !a.Tick? && Timely(s, d) && Sufficient(d)
    ensures Sound(Apply(s, a), Apply(s, a).phases[a.c], d)
  {
    assert Sound(s, s.phases[a.c], d) && InTime(s.now, s.phases[a.c], d);
    if a.ReadOwner? && s.dir.Some? {
      if OwnerAt(s.dir).None? {
        var v: nat :| LiveCritical(s, v) && s.phases[v].Initialising?;
        assert Owns(s, v) && InTime(s.now, s.phases[v], d);
      } else {
        assert LiveCritical(s, OwnerAt(s.dir).value.token);
      }
    }
  }

  lemma StepKeepsTimedInv(s: State, a: Action, d: Delays)
    requires TimedInv(s, d) && Enabled(s, a) && !a.Crash? && Timely(s, d) && Lingers(s, a, d) && Sufficient(d)
    ensures TimedInv(Apply(s, a), d)
  {
    var t := Apply(s, a);
    NoRemoval(s, d);
    StepKeepsInv(s, a);
    StepKeepsAlive(s, a, d);
    forall c | 0 <= c < |t.phases| ensures Sound(t, t.phases[c], d) {
      if a.Exit? || a.Tick? || a.c != c {
        OthersStaySound(s, a, d, c);
      } else {
        ActorStaysSound(s, a, d);
      }
    }
  }

  /** Under the bounds the stale-removal step is never reached, by an acquisition or a prune, and no two
      contenders are ever between creating the directory and removing it. */
  lemma {:induction false} TimelyRunsAreSafe(tr: Trace, d: Delays)
    requires Valid(tr) && CrashFree(tr) && TimelyThroughout(tr, d) && Sufficient(d)
    ensures TimedInv(End(tr), d)
    ensures MutualExclusion(End(tr)) && forall c :: !Enabled(End(tr), Remove(c))
  {
    if tr.Then? {
      TimelyRunsAreSafe(tr.past, d);
      StepKeepsTimedInv(End(tr.past), tr.a, d);
    }
    NoRemoval(End(tr), d);
  }

  // ----- The bounds are exact -----

  lemma Extended(tr: Trace, a: Action, d: Delays) returns (tr': Trace)
    requires Valid(tr) && Enabled(End(tr), a)
    ensures tr' == Then(tr, a) && Valid(tr') && End(tr') == Apply(End(tr), a)
    ensures CrashFree(tr') <==> CrashFree(tr) && !a.Crash?
    ensures TimelyThroughout(tr', d) <==>
              TimelyThroughout(tr, d) && Timely(End(tr'), d) && Lingers(End(tr), a, d)
  {
    tr' := Then(tr, a);
  }

  function Three(now: int, dir: Option<LockDir>, dead: set<nat>, p0: Phase, p1: Phase, p2: Phase): State {
    LockPath.State(now, dir, dead, [0, 1, 2], [p0, p1, p2])
  }

  /** The complete directory of contender `c`, created at `time`. */
  function Held(c: nat, time: int): Option<LockDir> {
    Some(LockDir(c, time, Some(Owner(c, c))))
  }

  lemma Creates(tr: Trace, c: nat, d: Delays) returns (tr': Trace)
    requires Valid(tr) && TimelyThroughout(tr, d) && Enabled(End(tr), Mkdir(c)) && End(tr).dir.None?
    ensures Valid(tr') && TimelyThroughout(tr', d) && (CrashFree(tr') <==> CrashFree(tr))
    ensures var s := End(tr);
            End(tr') == s.(dir := Some(LockDir(c, s.now, None)),
                           phases := s.phases[c := Initialising(s.now, Some(c))])
  {
    var s := End(tr);
    tr' := Extended(tr, Mkdir(c), d);
    tr' := Extended(tr', OpenRecord(c), d);
    assert End(tr').phases == s.phases[c := Initialising(s.now, Some(c))];
  }

  lemma Acquires(tr: Trace, c: nat, d: Delays) returns (tr': Trace)
    requires Valid(tr) && TimelyThroughout(tr, d) && Enabled(End(tr), Mkdir(c)) && End(tr).dir.None?
    requires End(tr).pids[c] == c
    ensures Valid(tr') && TimelyThroughout(tr', d) && (CrashFree(tr') <==> CrashFree(tr))
    ensures var s := End(tr);
            End(tr') == s.(dir := Held(c, s.now), phases := s.phases[c := Holding])
  {
    var s := End(tr);
    tr' := Creates(tr, c, d);
    tr' := Extended(tr', WriteOwner(c), d);
    assert End(tr').phases == s.phases[c := Holding];
  }

  /** An acquisition meets a record and remembers it. */
  lemma ReadsRecord(tr: Trace, c: nat, d: Delays) returns (tr': Trace)
    requires Valid(tr) && TimelyThroughout(tr, d) && Enabled(End(tr), Exists(c)) && OwnerAt(End(tr).dir).Some?
    ensures Valid(tr') && TimelyThroughout(tr', d) && (CrashFree(tr') <==> CrashFree(tr))
    ensures var s := End(tr);
            End(tr') == s.(phases := s.phases[c := Checking(Acquirer, OwnerAt(s.dir).value, s.now)])
  {
    tr' := Extended(tr, Exists(c), d);
    tr' := Extended(tr', ReadOwner(c), d);
    assert End(tr').phases == End(tr).phases[c := Checking(Acquirer, OwnerAt(End(tr).dir).value, End(tr).now)];
  }

  /** A remover takes the path from a contender inside and comes in beside it. */
  lemma BreaksIn(tr: Trace, c: nat, v: nat, d: Delays) returns (tr': Trace)
    requires Valid(tr) && TimelyThroughout(tr, d) && Enabled(End(tr), Remove(c)) && End(tr).dir.Some?
    requires End(tr).phases[c].role.Acquirer? && LiveCritical(End(tr), v)
    ensures Valid(tr') && TimelyThroughout(tr', d) && (CrashFree(tr') <==> CrashFree(tr))
    ensures !MutualExclusion(End(tr')) && End(tr').dead == End(tr).dead
  {
    tr' := Extended(tr, Remove(c), d);
    assert LiveCritical(End(tr'), v) && c != v;
    tr' := Extended(tr', Mkdir(c), d);
    assert LiveCritical(End(tr'), v) && LiveCritical(End(tr'), c);
  }

  lemma FirstArrives(d: Delays) returns (tr: Trace)
    ensures Valid(tr) && CrashFree(tr) && TimelyThroughout(tr, d)
    ensures End(tr) == Three(0, None, {}, Creating, Starting, Starting)
  {
    tr := Start(Three(0, None, {}, Starting, Starting, Starting));
    tr := Extended(tr, Exists(0), d);
  }

  lemma EarlyRead(d: Delays) returns (tr: Trace)
    ensures Valid(tr) && CrashFree(tr) && TimelyThroughout(tr, d)
    ensures End(tr) == Three(d.write, Some(LockDir(0, 0, None)), {},
                         Initialising(0, Some(0)), Statting(Acquirer, None, d.write), Starting)
  {
    tr := FirstArrives(d);
    tr := Creates(tr, 0, d);
    assert End(tr) == Three(0, Some(LockDir(0, 0, None)), {}, Initialising(0, Some(0)), Starting, Starting);
    tr := Extended(tr, Exists(1), d);
    assert End(tr) == Three(0, Some(LockDir(0, 0, None)), {}, Initialising(0, Some(0)), Reading(Acquirer), Starting);
    tr := Extended(tr, Tick(d.write), d);
    tr := Extended(tr, ReadOwner(1), d);
  }

  lemma SlowRead(d: Delays) returns (tr: Trace)
    ensures Valid(tr) && CrashFree(tr) && TimelyThroughout(tr, d)
    ensures End(tr) == Three(d.write + d.stat, Held(0, 0), {}, Holding, Aging(Acquirer, d.write, 0), Starting)
  {
    tr := EarlyRead(d);
    tr := Extended(tr, StatLock(1), d);
    tr := Extended(tr, WriteOwner(0), d);
    assert End(tr) == Three(d.write, Held(0, 0), {}, Holding, Aging(Acquirer, d.write, 0), Starting);
    tr := Extended(tr, Tick(d.stat), d);
  }

  /** Contender 1 reads no record just before contender 0 completes it, and works the directory's age out
      just when it has reached the grace period. */
  lemma SlowObserverBreaksIn(d: Delays) returns (tr: Trace)
    requires d.write + d.stat >= GRACE
    ensures Valid(tr) && CrashFree(tr) && TimelyThroughout(tr, d)
    ensures !MutualExclusion(End(tr))
  {
    tr := SlowRead(d);
    tr := Extended(tr, CheckAge(1), d);
    assert End(tr) == Three(d.write + d.stat, Held(0, 0), {}, Holding, Removing(Acquirer), Starting);
    tr := BreaksIn(tr, 1, 0, d);
  }

  lemma FirstHolds(d: Delays) returns (tr: Trace)
    ensures Valid(tr) && CrashFree(tr) && TimelyThroughout(tr, d)
    ensures End(tr) == Three(0, Held(0, 0), {}, Holding, Starting, Starting)
  {
    tr := FirstArrives(d);
    tr := Acquires(tr, 0, d);
  }

  /** A holder finds its own record and releases. */
  lemma Releases(tr: Trace, c: nat, d: Delays) returns (tr': Trace)
    requires Valid(tr) && TimelyThroughout(tr, d) && Enabled(End(tr), CheckRelease(c))
    requires OwnerAt(End(tr).dir) == Some(Owner(End(tr).pids[c], c))
    ensures Valid(tr') && TimelyThroughout(tr', d) && (CrashFree(tr') <==> CrashFree(tr))
    ensures End(tr') == End(tr).(dir := None, phases := End(tr).phases[c := Finished(End(tr).now)])
  {
    tr' := Extended(tr, CheckRelease(c), d);
    tr' := Extended(tr', RemoveOwn(c), d);
    assert End(tr').phases == End(tr).phases[c := Finished(End(tr).now)];
  }

  lemma ReadBeforeRelease(d: Delays) returns (tr: Trace)
    ensures Valid(tr) && CrashFree(tr) && TimelyThroughout(tr, d)
    ensures End(tr) == Three(0, None, {}, Finished(0), Checking(Acquirer, Owner(0, 0), 0), Starting)
  {
    tr := FirstHolds(d);
    tr := ReadsRecord(tr, 1, d);
    assert End(tr) == Three(0, Held(0, 0), {}, Holding, Checking(Acquirer, Owner(0, 0), 0), Starting);
    tr := Releases(tr, 0, d);
  }

  /** Contender 1 has read the record of contender 0, which releases and whose process then ends. */
  lemma ReadBeforeExit(d: Delays) returns (tr: Trace)
    requires d.linger <= d.ask
    ensures Valid(tr) && CrashFree(tr) && TimelyThroughout(tr, d)
    ensures End(tr) == Three(d.linger, None, {0}, Finished(0), Checking(Acquirer, Owner(0, 0), 0), Starting)
  {
    tr := ReadBeforeRelease(d);
    tr := Extended(tr, Tick(d.linger), d);
    assert End(tr) == Three(d.linger, None, {}, Finished(0), Checking(Acquirer, Owner(0, 0), 0), Starting);
    tr := Extended(tr, Exit(0), d);
  }

  /** Meanwhile contender 2 has taken the lock. */
  lemma AskTooLate(d: Delays) returns (tr: Trace)
    requires d.linger <= d.ask
    ensures Valid(tr) && CrashFree(tr) && TimelyThroughout(tr, d)
    ensures End(tr) == Three(d.linger, Held(2, d.linger), {0}, Finished(0), Removing(Acquirer), Holding)
  {
    tr := ReadBeforeExit(d);
    var waiting := Checking(Acquirer, Owner(0, 0), 0);
    tr := Extended(tr, Exists(2), d);
    assert End(tr) == Three(d.linger, None, {0}, Finished(0), waiting, Creating);
    tr := Acquires(tr, 2, d);
    assert End(tr) == Three(d.linger, Held(2, d.linger), {0}, Finished(0), waiting, Holding);
    tr := Extended(tr, CheckAlive(1), d);
  }

  /** With no crash, and no passing time where `linger` is 0: a record read before its holder releases and
      exits leads to the removal of the next holder's lock. */
  lemma LateQuestionBreaksIn(d: Delays) returns (tr: Trace)
    requires d.linger <= d.ask
    ensures Valid(tr) && CrashFree(tr) && TimelyThroughout(tr, d)
    ensures !MutualExclusion(End(tr))
  {
    tr := AskTooLate(d);
    tr := BreaksIn(tr, 1, 2, d);
  }

  /** The delays under which every crash-free run is safe are exactly those for which an observer that read
      no record works out the age within the grace period of the directory's creation, and one that read a
      record asks for its process before that can have ended. */
  lemma TimingBoundIsExact(d: Delays)
    ensures (forall tr :: Valid(tr) && CrashFree(tr) && TimelyThroughout(tr, d) ==> MutualExclusion(End(tr)))
            <==> d.write + d.stat < 60_000 && d.ask < d.linger
  {
    if Sufficient(d) {
      forall tr | Valid(tr) && CrashFree(tr) && TimelyThroughout(tr, d) ensures MutualExclusion(End(tr)) {
        TimelyRunsAreSafe(tr, d);
      }
    } else if d.linger <= d.ask {
      var tr := LateQuestionBreaksIn(d);
    } else {
      var tr := SlowObserverBreaksIn(d);
    }
  }

  // ----- Crashes -----

  /** No delay at all, and processes that linger. */
  const Prompt := Delays(0, 0, 0, 1)

  lemma HolderCrashes() returns (tr: Trace)
    ensures Valid(tr) && TimelyThroughout(tr, Prompt)
    ensures End(tr) == Three(0, Held(0, 0), {0}, Holding, Starting, Starting)
  {
    tr := FirstHolds(Prompt);
    tr := Extended(tr, Crash(0), Prompt);
  }

  /** Contender 1 finds the crashed process out. */
  lemma FirstRecoverer() returns (tr: Trace)
    ensures Valid(tr) && TimelyThroughout(tr, Prompt)
    ensures End(tr) == Three(0, Held(0, 0), {0}, Holding, Removing(Acquirer), Starting)
  {
    tr := HolderCrashes();
    tr := ReadsRecord(tr, 1, Prompt);
    assert End(tr) == Three(0, Held(0, 0), {0}, Holding, Checking(Acquirer, Owner(0, 0), 0), Starting);
    tr := Extended(tr, CheckAlive(1), Prompt);
  }

  /** Contender 1 replaces the crashed holder's directory by its own. */
  lemma Recovered(tr: Trace, p: Phase) returns (tr': Trace)
    requires Valid(tr) && TimelyThroughout(tr, Prompt) && InTime(0, p, Prompt)
    requires End(tr) == Three(0, Held(0, 0), {0}, Holding, Removing(Acquirer), p)
    ensures Valid(tr') && TimelyThroughout(tr', Prompt)
    ensures End(tr') == Three(0, Held(1, 0), {0}, Holding, Holding, p)
  {
    tr' := Extended(tr, Remove(1), Prompt);
    assert End(tr') == Three(0, None, {0}, Holding, Creating, p);
    tr' := Acquires(tr', 1, Prompt);
  }

  /** One crash is enough to defeat the lock without any delay: a second recoverer removes the directory
      that the first has just created. */
  lemma OneCrashBreaksMutualExclusion() returns (tr: Trace)
    ensures Sufficient(Prompt)
    ensures Valid(tr) && TimelyThroughout(tr, Prompt) && End(tr).dead == {0}
    ensures !MutualExclusion(End(tr)) && !WellAimed(tr)
  {
    tr := FirstRecoverer();
    tr := ReadsRecord(tr, 2, Prompt);
    tr := Extended(tr, CheckAlive(2), Prompt);
    tr := Recovered(tr, Removing(Acquirer));
    tr := BreaksIn(tr, 2, 1, Prompt);
    if WellAimed(tr) {
      WellAimedRunsAreSafe(tr);
    }
  }

  /** A prune finds the crashed process out, too. */
  lemma PruneVerdict() returns (tr: Trace)
    ensures Valid(tr) && TimelyThroughout(tr, Prompt)
    ensures End(tr) == Three(0, Held(0, 0), {0}, Holding, Removing(Acquirer), Removing(Pruner(0)))
  {
    tr := FirstRecoverer();
    tr := Extended(tr, BeginPrune(2), Prompt);
    tr := Extended(tr, List(2), Prompt);
    tr := Extended(tr, ReadOwner(2), Prompt);
    assert End(tr) == Three(0, Held(0, 0), {0}, Holding, Removing(Acquirer),
                        Checking(Pruner(0), Owner(0, 0), 0));
    tr := Extended(tr, CheckAlive(2), Prompt);
    tr := Extended(tr, StatLock(2), Prompt);
  }

  /** So does a prune that judged the crashed holder's lock stale: its removal, which comes later, takes
      the path from under the recoverer. */
  lemma PruneRemovesLiveLock() returns (tr: Trace)
    ensures Sufficient(Prompt)
    ensures Valid(tr) && TimelyThroughout(tr, Prompt) && End(tr).dead == {0}
    ensures End(tr) == Three(0, None, {0}, Holding, Holding, Stopped) && Exposed(End(tr)) && !WellAimed(tr)
  {
    tr := PruneVerdict();
    tr := Recovered(tr, Removing(Pruner(0)));
    tr := Extended(tr, Remove(2), Prompt);
    assert LiveCritical(End(tr), 1) && !Owns(End(tr), 1);
    assert !Inv(End(tr));
    if WellAimed(tr) {
      WellAimedRunsAreSafe(tr);
    }
  }
}
