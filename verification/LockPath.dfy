/** What the native build lock and the workspace locks have in common: a directory that is the lock,
    holding the record of its owner. */
module LockPath {
  import opened Options

  /** Milliseconds during which a directory without an owner record counts as being initialised. */
  const GRACE: int := 60_000

  datatype Owner = Owner(pid: nat, token: nat)

  /** The directory at the lock path, made by contender `maker`; `owner` is None while no complete record
      can be read. */
  datatype LockDir = LockDir(maker: nat, mtime: int, owner: Option<Owner>)

  /** Contender `c` has token `c`, runs in process `pids[c]` and is about to do `phases[c]`. */
  datatype State<P> = State(now: int, dir: Option<LockDir>, dead: set<nat>, pids: seq<nat>, phases: seq<P>)

  predicate Live<P>(s: State<P>, c: nat) {
    c < |s.phases| == |s.pids| && s.pids[c] !in s.dead
  }

  function Goto<P>(s: State<P>, c: nat, p: P): State<P>
    requires c < |s.phases|
  {
    s.(phases := s.phases[c := p])
  }

  function OwnerAt(dir: Option<LockDir>): Option<Owner> {
    if dir.Some? then dir.value.owner else None
  }

  /** Present and younger than the grace period. */
  predicate Young(dir: Option<LockDir>, now: int) {
    dir.Some? && now - dir.value.mtime < GRACE
  }

  /** What the observing branch checks: a record of a dead process, or no young directory without one. */
  predicate Stale<P>(s: State<P>) {
    match OwnerAt(s.dir)
    case Some(o) => o.pid in s.dead
    case None => !Young(s.dir, s.now)
  }

  /** The directory after its record's file has been opened: a new file touches it, an existing record is
      emptied. */
  function RecordOpened(d: LockDir, now: int): LockDir {
    LockDir(d.maker, if d.owner.Some? then d.mtime else now, None)
  }

  /** What is at the path after a record is completed in the directory of `maker`, which may have been
      moved away meanwhile. */
  function RecordWritten(dir: Option<LockDir>, maker: nat, owner: Owner): Option<LockDir> {
    if dir.Some? && dir.value.maker == maker then Some(dir.value.(owner := Some(owner))) else dir
  }
}
