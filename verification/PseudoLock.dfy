/**
 * The pseudo-lock protocol of `cloud_storage._FileLock`.
 *
 * A file is guarded by a lock file beside it, and the lock file is itself created and removed while
 * it is in use. The protocol is a state machine over a directory (lock path to inode), the flock owner
 * of each inode, the holder of the global guard, and one program counter for each `_FileLock` call.
 * Every action is one system call, so all interleavings of any number of calls are action sequences.
 *
 * `Guards` says whether acquisition and release take the global guard. The code takes it in both.
 */
module PseudoLock {
  import opened Wrappers

  type Call = nat
  type Inode = nat
  type LockPath = string

  datatype Guards = Guards(acquire: bool, release: bool)

  const BOTH_GUARDED := Guards(true, true)

  datatype Phase =
    | Idle
    | Trying(path: LockPath)                  // polling in WaitFor, holding nothing
    | Guarded(path: LockPath)                 // has the global guard, about to open the lock file
    | Opened(path: LockPath, inode: Inode)    // lock file open, not yet locked
    | Refused(path: LockPath)                 // open or flock raised; the guard is not released yet
    | Flocked(path: LockPath, inode: Inode)   // lock file locked; the guard is not released yet
    | Inside(path: LockPath, inode: Inode)    // running the body of the with statement
    | Leaving(path: LockPath, inode: Inode)   // body over, polling for the guard
    | Releasing(path: LockPath, inode: Inode) // has the guard again, lock file still locked
    | Unlocked(path: LockPath)                // lock file unlocked and closed, not yet removed
    | Removed(path: LockPath)                 // removal tried; the guard is not released yet
    | Abandoned(path: LockPath, inode: Inode) // release timed out; the descriptor is still open
    | Dead
  {
    /** The call's descriptor holds the flock of its lock file. */
    predicate HoldsLock() {
      Flocked? || Inside? || Leaving? || Releasing? || Abandoned?
    }

    predicate UnderGuard() {
      Guarded? || Opened? || Refused? || Flocked? || Releasing? || Unlocked? || Removed?
    }

    predicate RefersTo(i: Inode) {
      (Opened? || HoldsLock()) && inode == i
    }
  }

  datatype State = State(
    guard: Option<Call>,
    dir: map<LockPath, Inode>,
    flock: map<Inode, Call>,
    calls: map<Call, Phase>)
  {
    function PhaseOf(c: Call): Phase {
      if c in calls then calls[c] else Idle
    }

    function Goto(c: Call, phase: Phase): State {
      this.(calls := calls[c := phase])
    }

    /** An inode number the file system may hand out: not linked and not open anywhere. */
    predicate Fresh(i: Inode) {
      i !in dir.Values && forall c :: c in calls ==> !calls[c].RefersTo(i)
    }
  }

  const INIT := State(None, map[], map[], map[])

  datatype Action =
    | Begin(c: Call, path: LockPath)
    | TakeGuard(c: Call)
    | Open(c: Call, created: Inode)
    | OpenFails(c: Call)
    | Flock(c: Call)
    | FlockFails(c: Call)
    | DropGuard(c: Call)
    | Leave(c: Call)
    | TakeGuardAgain(c: Call)
    | Unlock(c: Call)
    | Remove(c: Call, ok: bool)
    | TimeOut(c: Call)
    | Collect(c: Call)
    | Die(c: Call)

  predicate Enabled(g: Guards, s: State, a: Action) {
    var phase := s.PhaseOf(a.c);
    match a
    case Begin(_, _) => phase.Idle?
    case TakeGuard(_) => phase.Trying? && (g.acquire ==> s.guard.None?)
    case Open(_, created) => phase.Guarded? && (phase.path in s.dir || s.Fresh(created))
    case OpenFails(_) => phase.Guarded?
    case Flock(_) => phase.Opened? && phase.inode !in s.flock
    case FlockFails(_) => phase.Opened?
    case DropGuard(_) => phase.Flocked? || phase.Refused? || phase.Removed?
    case Leave(_) => phase.Inside?
    case TakeGuardAgain(_) => phase.Leaving? && (g.release ==> s.guard.None?)
    case Unlock(_) => phase.Releasing?
    case Remove(_, _) => phase.Unlocked?
    case TimeOut(_) => phase.Trying? || phase.Leaving?
    case Collect(_) => phase.Abandoned?
    case Die(_) => !phase.Dead?
  }

  function WithoutLocksOf(flock: map<Inode, Call>, c: Call): map<Inode, Call> {
    map i | i in flock && flock[i] != c :: flock[i]
  }

  function ReleaseGuard(guard: Option<Call>, c: Call): Option<Call> {
    if guard == Some(c) then None else guard
  }

  function Apply(g: Guards, s: State, a: Action): State
    requires Enabled(g, s, a)
  {
    var c := a.c;
    var phase := s.PhaseOf(c);
    match a
    case Begin(_, path) => s.Goto(c, Trying(path))
    case TakeGuard(_) =>
      s.(guard := if g.acquire then Some(c) else s.guard).Goto(c, Guarded(phase.path))
    case Open(_, created) =>
      var i := if phase.path in s.dir then s.dir[phase.path] else created;
      s.(dir := s.dir[phase.path := i]).Goto(c, Opened(phase.path, i))
    case OpenFails(_) => s.Goto(c, Refused(phase.path))
    case Flock(_) =>
      s.(flock := s.flock[phase.inode := c]).Goto(c, Flocked(phase.path, phase.inode))
    case FlockFails(_) => s.Goto(c, Refused(phase.path))
    case DropGuard(_) =>
      s.(guard := ReleaseGuard(s.guard, c)).Goto(c,
        if phase.Flocked? then Inside(phase.path, phase.inode)
        else if phase.Refused? then Trying(phase.path)
        else Idle)
    case Leave(_) => s.Goto(c, Leaving(phase.path, phase.inode))
    case TakeGuardAgain(_) =>
      s.(guard := if g.release then Some(c) else s.guard).Goto(c, Releasing(phase.path, phase.inode))
    case Unlock(_) => s.(flock := WithoutLocksOf(s.flock, c)).Goto(c, Unlocked(phase.path))
    case Remove(_, ok) =>
      s.(dir := if ok then s.dir - {phase.path} else s.dir).Goto(c, Removed(phase.path))
    case TimeOut(_) =>
      s.Goto(c, if phase.Trying? then Idle else Abandoned(phase.path, phase.inode))
    case Collect(_) => s.(flock := WithoutLocksOf(s.flock, c)).Goto(c, Idle)
    case Die(_) =>
      s.(guard := ReleaseGuard(s.guard, c), flock := WithoutLocksOf(s.flock, c)).Goto(c, Dead)
  }

  /** `run` is a possible schedule from `s`: each action is enabled when it is taken. */
  predicate Possible(g: Guards, s: State, run: seq<Action>)
    decreases |run|, 0
  {
    |run| == 0 ||
    (var n := |run| - 1;
     Possible(g, s, run[..n]) && Enabled(g, After(g, s, run[..n]), run[n]))
  }

  function After(g: Guards, s: State, run: seq<Action>): State
    requires Possible(g, s, run)
    decreases |run|, 1
  {
    if |run| == 0 then s else
      var n := |run| - 1;
      Apply(g, After(g, s, run[..n]), run[n])
  }

  /** No two calls are in the body for the same path. */
  ghost predicate Exclusive(s: State) {
    forall c, d :: s.PhaseOf(c).Inside? && s.PhaseOf(d).Inside? && s.PhaseOf(c).path == s.PhaseOf(d).path
                   ==> c == d
  }

  // ---------------------------------------------------------------------------------------------
  // Safety of the guarded protocol

  /** The guard is held exactly by the call that is between taking and dropping it. */
  ghost predicate GuardAgrees(s: State) {
    forall c: Call :: s.PhaseOf(c).UnderGuard() <==> s.guard == Some(c)
  }

  ghost predicate HoldersOwn(s: State) {
    forall c: Call :: s.PhaseOf(c).HoldsLock() ==>
      s.PhaseOf(c).inode in s.flock && s.flock[s.PhaseOf(c).inode] == c
  }

  ghost predicate OwnersHold(s: State) {
    forall i :: i in s.flock ==>
      s.PhaseOf(s.flock[i]).HoldsLock() && s.PhaseOf(s.flock[i]).inode == i
  }

  /** Every lock in use is the lock of the file its path names now. */
  ghost predicate LocksAreLinked(s: State) {
    forall c: Call :: s.PhaseOf(c).HoldsLock() || s.PhaseOf(c).Opened? ==>
      s.PhaseOf(c).path in s.dir && s.dir[s.PhaseOf(c).path] == s.PhaseOf(c).inode
  }

  ghost predicate OneLinkEach(s: State) {
    forall p, q :: p in s.dir && q in s.dir && s.dir[p] == s.dir[q] ==> p == q
  }

  /** Between unlocking a file and removing it nobody can lock it. */
  ghost predicate RemovalIsQuiet(s: State) {
    forall c: Call, d: Call :: s.PhaseOf(c).Unlocked? && s.PhaseOf(d).HoldsLock() ==>
      s.PhaseOf(d).path != s.PhaseOf(c).path
  }

  ghost predicate Inv(s: State) {
    && GuardAgrees(s)
    && HoldersOwn(s)
    && OwnersHold(s)
    && LocksAreLinked(s)
    && OneLinkEach(s)
    && RemovalIsQuiet(s)
  }

  lemma {:induction false} GuardStep(s: State, a: Action)
    requires Inv(s) && Enabled(BOTH_GUARDED, s, a)
    ensures GuardAgrees(Apply(BOTH_GUARDED, s, a))
  {
    assert s.PhaseOf(a.c).UnderGuard() <==> s.guard == Some(a.c);
    var t := Apply(BOTH_GUARDED, s, a);
    forall c: Call ensures t.PhaseOf(c).UnderGuard() <==> t.guard == Some(c) {
      assert s.PhaseOf(c).UnderGuard() <==> s.guard == Some(c);
    }
  }

  lemma {:induction false} OwnerStep(s: State, a: Action)
    requires Inv(s) && Enabled(BOTH_GUARDED, s, a)
    ensures HoldersOwn(Apply(BOTH_GUARDED, s, a)) && OwnersHold(Apply(BOTH_GUARDED, s, a))
  {
    HolderStep(s, a);
    var t := Apply(BOTH_GUARDED, s, a);
    forall i | i in t.flock
      ensures t.PhaseOf(t.flock[i]).HoldsLock() && t.PhaseOf(t.flock[i]).inode == i
    {
      assert t.flock[i] != a.c ==> t.PhaseOf(t.flock[i]) == s.PhaseOf(t.flock[i]);
    }
  }

  lemma {:induction false} HolderStep(s: State, a: Action)
    requires Inv(s) && Enabled(BOTH_GUARDED, s, a)
    ensures HoldersOwn(Apply(BOTH_GUARDED, s, a))
  {
    var t := Apply(BOTH_GUARDED, s, a);
    forall c: Call | t.PhaseOf(c).HoldsLock()
      ensures t.PhaseOf(c).inode in t.flock && t.flock[t.PhaseOf(c).inode] == c
    {
      assert c != a.c ==> t.PhaseOf(c) == s.PhaseOf(c);
    }
  }

  lemma {:induction false} LinkStep(s: State, a: Action)
    requires Inv(s) && Enabled(BOTH_GUARDED, s, a)
    ensures LocksAreLinked(Apply(BOTH_GUARDED, s, a)) && OneLinkEach(Apply(BOTH_GUARDED, s, a))
  {
    var t := Apply(BOTH_GUARDED, s, a);
    assert s.PhaseOf(a.c).UnderGuard() <==> s.guard == Some(a.c);
    forall c: Call | t.PhaseOf(c).HoldsLock() || t.PhaseOf(c).Opened?
      ensures t.PhaseOf(c).path in t.dir && t.dir[t.PhaseOf(c).path] == t.PhaseOf(c).inode
    {
      assert s.PhaseOf(c).UnderGuard() <==> s.guard == Some(c);
      assert c != a.c ==> t.PhaseOf(c) == s.PhaseOf(c);
    }
  }

  lemma {:induction false} RemovalStep(s: State, a: Action)
    requires Inv(s) && Enabled(BOTH_GUARDED, s, a)
    ensures RemovalIsQuiet(Apply(BOTH_GUARDED, s, a))
  {
    var t := Apply(BOTH_GUARDED, s, a);
    forall c: Call, d: Call | t.PhaseOf(c).Unlocked? && t.PhaseOf(d).HoldsLock()
      ensures t.PhaseOf(d).path != t.PhaseOf(c).path
    {
      assert s.PhaseOf(c).UnderGuard() <==> s.guard == Some(c);
      assert s.PhaseOf(d).UnderGuard() <==> s.guard == Some(d);
    }
  }

  lemma {:induction false} InvIsKept(s: State, a: Action)
    requires Inv(s) && Enabled(BOTH_GUARDED, s, a)
    ensures Inv(Apply(BOTH_GUARDED, s, a))
  {
    GuardStep(s, a);
    OwnerStep(s, a);
    LinkStep(s, a);
    RemovalStep(s, a);
  }

  lemma {:induction false} InvHolds(s: State, run: seq<Action>)
    requires Inv(s) && Possible(BOTH_GUARDED, s, run)
    ensures Inv(After(BOTH_GUARDED, s, run))
  {
    if |run| > 0 {
      var n := |run| - 1;
      InvHolds(s, run[..n]);
      InvIsKept(After(BOTH_GUARDED, s, run[..n]), run[n]);
    }
  }

  /** Not only the body: at most one call holds the lock of a path at any stage. */
  lemma {:induction false} LockIsExclusive(run: seq<Action>, c: Call, d: Call)
    requires Possible(BOTH_GUARDED, INIT, run)
    requires var s := After(BOTH_GUARDED, INIT, run);
      s.PhaseOf(c).HoldsLock() && s.PhaseOf(d).HoldsLock() && s.PhaseOf(c).path == s.PhaseOf(d).path
    ensures c == d
  {
    InvHolds(INIT, run);
  }

  // ---------------------------------------------------------------------------------------------
  // Both guards are needed

  lemma {:induction false} Then(g: Guards, s: State, run: seq<Action>, a: Action) returns (longer: seq<Action>)
    requires Possible(g, s, run) && Enabled(g, After(g, s, run), a)
    ensures longer == run + [a]
    ensures Possible(g, s, longer) && After(g, s, longer) == Apply(g, After(g, s, run), a)
  {
    longer := run + [a];
    assert longer[..|run|] == run;
  }

  predicate CanEnter(g: Guards, s: State, c: Call, path: LockPath, created: Inode) {
    && s.PhaseOf(c).Idle?
    && (g.acquire ==> s.guard.None?)
    && s.guard != Some(c)
    && (if path in s.dir then s.dir[path] !in s.flock else s.Fresh(created) && created !in s.flock)
  }

  function LockInode(s: State, path: LockPath, created: Inode): Inode {
    if path in s.dir then s.dir[path] else created
  }

  function Entered(s: State, c: Call, path: LockPath, created: Inode): State {
    var i := LockInode(s, path, created);
    State(s.guard, s.dir[path := i], s.flock[i := c], s.calls[c := Inside(path, i)])
  }

  lemma {:induction false} ReachGuard(g: Guards, run: seq<Action>, c: Call, path: LockPath, created: Inode)
    returns (longer: seq<Action>)
    requires Possible(g, INIT, run) && CanEnter(g, After(g, INIT, run), c, path, created)
    ensures run <= longer && Possible(g, INIT, longer)
    ensures var s := After(g, INIT, run);
      After(g, INIT, longer) ==
        s.(guard := if g.acquire then Some(c) else s.guard, calls := s.calls[c := Guarded(path)])
  {
    var s := After(g, INIT, run);
    var begun := Then(g, INIT, run, Begin(c, path));
    longer := Then(g, INIT, begun, TakeGuard(c));
    assert s.calls[c := Trying(path)][c := Guarded(path)] == s.calls[c := Guarded(path)];
  }

  lemma {:induction false} ReachLock(g: Guards, run: seq<Action>, c: Call, path: LockPath, created: Inode)
    returns (longer: seq<Action>)
    requires Possible(g, INIT, run)
    requires var s := After(g, INIT, run);
      && s.PhaseOf(c) == Guarded(path)
      && (path !in s.dir ==> s.Fresh(created))
      && LockInode(s, path, created) !in s.flock
    ensures run <= longer && Possible(g, INIT, longer)
    ensures var s := After(g, INIT, run);
      var i := LockInode(s, path, created);
      After(g, INIT, longer) ==
        State(s.guard, s.dir[path := i], s.flock[i := c], s.calls[c := Flocked(path, i)])
  {
    var s := After(g, INIT, run);
    var i := LockInode(s, path, created);
    var linked := Then(g, INIT, run, Open(c, created));
    longer := Then(g, INIT, linked, Flock(c));
    assert s.calls[c := Opened(path, i)][c := Flocked(path, i)] == s.calls[c := Flocked(path, i)];
  }

  lemma {:induction false} GuardToLock(g: Guards, run: seq<Action>, c: Call, path: LockPath, created: Inode)
    returns (longer: seq<Action>)
    requires Possible(g, INIT, run) && CanEnter(g, After(g, INIT, run), c, path, created)
    ensures run <= longer && Possible(g, INIT, longer)
    ensures var s := After(g, INIT, run);
      var i := LockInode(s, path, created);
      After(g, INIT, longer) == State(if g.acquire then Some(c) else s.guard,
        s.dir[path := i], s.flock[i := c], s.calls[c := Flocked(path, i)])
  {
    var s := After(g, INIT, run);
    var i := LockInode(s, path, created);
    var guarded := ReachGuard(g, run, c, path, created);
    var t := After(g, INIT, guarded);
    assert LockInode(t, path, created) == i;
    assert path !in s.dir ==> t.Fresh(created);
    longer := ReachLock(g, guarded, c, path, created);
    assert t.calls[c := Flocked(path, i)] == s.calls[c := Flocked(path, i)];
  }

  /** Five actions that take an idle call into the body. */
  lemma {:induction false} Enter(g: Guards, run: seq<Action>, c: Call, path: LockPath, created: Inode)
    returns (longer: seq<Action>)
    requires Possible(g, INIT, run) && CanEnter(g, After(g, INIT, run), c, path, created)
    ensures run <= longer && Possible(g, INIT, longer)
    ensures After(g, INIT, longer) == Entered(After(g, INIT, run), c, path, created)
  {
    var s := After(g, INIT, run);
    var i := LockInode(s, path, created);
    var locked := GuardToLock(g, run, c, path, created);
    longer := Then(g, INIT, locked, DropGuard(c));
    assert s.calls[c := Flocked(path, i)][c := Inside(path, i)] == s.calls[c := Inside(path, i)];
  }

  /** A call enters, leaves and unlocks its file, and is about to remove it. */
  lemma {:induction false} RunToUnlocked(g: Guards) returns (run: seq<Action>)
    ensures Possible(g, INIT, run)
    ensures After(g, INIT, run) ==
      State(if g.release then Some(1) else None, map["f" := 0], map[], map[1 := Unlocked("f")])
  {
    run := Enter(g, [], 1, "f", 0);
    assert After(g, INIT, run) == State(None, map["f" := 0], map[0 := 1], map[1 := Inside("f", 0)]);
    run := Then(g, INIT, run, Leave(1));
    run := Then(g, INIT, run, TakeGuardAgain(1));
    run := Then(g, INIT, run, Unlock(1));
    assert After(g, INIT, run).calls == map[1 := Unlocked("f")];
  }

  /** A second call locks that file before the first one removes it. */
  lemma {:induction false} RunToRemoved(g: Guards) returns (run: seq<Action>)
    requires !(g.acquire && g.release)
    ensures Possible(g, INIT, run)
    ensures After(g, INIT, run) == State(None, map[], map[0 := 2], map[1 := Idle, 2 := Inside("f", 0)])
  {
    var unlocked := RunToUnlocked(g);
    var second := Enter(g, unlocked, 2, "f", 0);
    assert After(g, INIT, second).calls == map[1 := Unlocked("f"), 2 := Inside("f", 0)];
    var removed := Then(g, INIT, second, Remove(1, true));
    run := Then(g, INIT, removed, DropGuard(1));
  }

  /**
   * The interleaving described in `_FileLock`: the first call unlocks, the second locks the same file,
   * the first removes it, and the third creates and locks a new one.
   */
  lemma {:induction false} BrokenRun(g: Guards) returns (run: seq<Action>)
    requires !(g.acquire && g.release)
    ensures Possible(g, INIT, run) && !Exclusive(After(g, INIT, run))
  {
    var removed := RunToRemoved(g);
    run := Enter(g, removed, 3, "f", 1);
    assert After(g, INIT, run).PhaseOf(2) == Inside("f", 0);
    assert After(g, INIT, run).PhaseOf(3) == Inside("f", 1);
  }

  /**
   * In every schedule of any number of calls, with crashes, time-outs and failed removals, at most one
   * call is inside the body for a path, and this holds exactly when acquisition and release both take
   * the global guard.
   */
  lemma {:induction false} ExclusiveIffBothGuarded(g: Guards)
    ensures (forall run :: Possible(g, INIT, run) ==> Exclusive(After(g, INIT, run)))
            <==> g.acquire && g.release
  {
    if g.acquire && g.release {
      forall run | Possible(g, INIT, run) ensures Exclusive(After(g, INIT, run)) {
        InvHolds(INIT, run);
      }
    } else {
      var run := BrokenRun(g);
      assert Possible(g, INIT, run);
    }
  }

  /**
   * No crash wedges a lock: whatever the history, once no live call holds the guard or the lock of
   * `path`, an idle call gets in, even if the lock file was left behind.
   */
  lemma {:induction false} NeverWedged(run: seq<Action>, c: Call, path: LockPath, created: Inode)
    requires Possible(BOTH_GUARDED, INIT, run)
    requires var s := After(BOTH_GUARDED, INIT, run);
      && s.PhaseOf(c).Idle? && s.guard.None? && s.Fresh(created)
      && forall d :: s.PhaseOf(d).HoldsLock() ==> s.PhaseOf(d).path != path
    ensures exists longer ::
      && run <= longer && Possible(BOTH_GUARDED, INIT, longer)
      && After(BOTH_GUARDED, INIT, longer).PhaseOf(c).Inside?
      && After(BOTH_GUARDED, INIT, longer).PhaseOf(c).path == path
  {
    InvHolds(INIT, run);
    var longer := Enter(BOTH_GUARDED, run, c, path, created);
  }
}
