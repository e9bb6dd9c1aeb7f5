/**
 * `cloud_storage.GetIfHashChanged`, run by any number of processes under the pseudo lock.
 *
 * Every call has the same arguments, collected in a `Job`, and nobody else writes the local file. The
 * state adds to the lock protocol the local file, the temporary files beside it, the progress of each
 * call's body, and what only observes: the temporary files whose removal raised, how often the local file
 * was replaced and how many calls have returned True.
 *
 * A download writes what it likes to its temporary file as long as it runs, and goes on doing so when the
 * call that started it has died. Once it reports success the file holds the whole object.
 */
module CloudFetch {
  import opened Wrappers
  import P = PseudoLock

  type Content = string
  type Hash = string
  type TempName = nat

  datatype Job = Job(
    path: P.LockPath,
    initial: Option<Content>,
    remote: Content,
    hash: Content -> Hash,
    wanted: Hash)
  {
    predicate Matches(file: Option<Content>) {
      file.Some? && hash(file.value) == wanted
    }
  }

  datatype Progress =
    | Start
    | Fetching                             // the check failed; about to make a temporary file
    | Copying(temp: TempName, again: bool) // downloading to it, for the first or the second time
    | Copied(temp: TempName)               // download complete, file not yet moved into place
    | Failing(temp: TempName)              // something raised; about to remove the temporary file
    | Answer(changed: bool)     // about to leave the body with this result
    | Raised
  {
    predicate HasTemp() {
      Copying? || Copied? || Failing?
    }
  }

  datatype State = State(
    lock: P.State,
    local: Option<Content>,
    temps: map<TempName, Content>,
    body: map<P.Call, Progress>,
    stuck: set<TempName>,
    moves: nat,
    trues: nat)
  {
    function BodyOf(c: P.Call): Progress {
      if c in body then body[c] else Start
    }

    predicate IsInside(c: P.Call) {
      lock.PhaseOf(c).Inside?
    }
  }

  datatype Action =
    | Lock(step: P.Action)
    | Check(c: P.Call)
    | MakeTemp(c: P.Call, created: TempName)
    | Write(c: P.Call, part: Content)
    | Finish(c: P.Call)
    | Retry(c: P.Call)
    | Fail(c: P.Call)
    | CleanUp(c: P.Call, ok: bool)
    | Move(c: P.Call)

  function Init(job: Job): State {
    State(P.INIT, job.initial, map[], map[], {}, 0, 0)
  }

  predicate Enabled(job: Job, s: State, a: Action) {
    match a
    case Lock(step) =>
      && P.Enabled(P.BOTH_GUARDED, s.lock, step)
      && (step.Begin? ==> step.path == job.path)
      && (step.Leave? ==> s.BodyOf(step.c).Answer? || s.BodyOf(step.c).Raised?)
    case Check(c) => s.IsInside(c) && s.BodyOf(c).Start?
    case MakeTemp(c, created) => s.IsInside(c) && s.BodyOf(c).Fetching? && created !in s.temps
    case Write(c, _) => s.BodyOf(c).Copying? && s.BodyOf(c).temp in s.temps
    case Finish(c) => s.IsInside(c) && s.BodyOf(c).Copying?
    case Retry(c) => s.IsInside(c) && s.BodyOf(c).Copying? && !s.BodyOf(c).again
    case Fail(c) => s.IsInside(c) && (s.BodyOf(c).Copying? || s.BodyOf(c).Copied?)
    case CleanUp(c, _) => s.IsInside(c) && s.BodyOf(c).Failing?
    case Move(c) => s.IsInside(c) && s.BodyOf(c).Copied? && s.BodyOf(c).temp in s.temps
  }

  /** The step with which a call that produced a result gets out of `_FileLock` and returns it. */
  predicate Returns(s: State, step: P.Action) {
    step.DropGuard? && s.lock.PhaseOf(step.c).Removed? && s.BodyOf(step.c).Answer?
  }

  function Apply(job: Job, s: State, a: Action): State
    requires Enabled(job, s, a)
  {
    match a
    case Lock(step) =>
      var t := s.(lock := P.Apply(P.BOTH_GUARDED, s.lock, step));
      if step.Begin? then t.(body := s.body[step.c := Start])
      else if Returns(s, step) then
        t.(body := s.body[step.c := Start],
           trues := s.trues + if s.BodyOf(step.c).changed then 1 else 0)
      else t
    case Check(c) =>
      s.(body := s.body[c := if job.Matches(s.local) then Answer(false) else Fetching])
    case MakeTemp(c, created) =>
      s.(temps := s.temps[created := ""], body := s.body[c := Copying(created, false)])
    case Write(c, part) => s.(temps := s.temps[s.BodyOf(c).temp := part])
    case Finish(c) =>
      var temp := s.BodyOf(c).temp;
      s.(temps := s.temps[temp := job.remote], body := s.body[c := Copied(temp)])
    case Retry(c) => s.(body := s.body[c := Copying(s.BodyOf(c).temp, true)])
    case Fail(c) => s.(body := s.body[c := Failing(s.BodyOf(c).temp)])
    case CleanUp(c, ok) =>
      var temp := s.BodyOf(c).temp;
      if ok then s.(temps := s.temps - {temp}, body := s.body[c := Raised])
      else s.(stuck := s.stuck + {temp}, body := s.body[c := Raised])
    case Move(c) =>
      var temp := s.BodyOf(c).temp;
      s.(local := Some(s.temps[temp]), temps := s.temps - {temp}, body := s.body[c := Answer(true)],
         moves := s.moves + 1)
  }

  predicate Possible(job: Job, run: seq<Action>)
    decreases |run|, 0
  {
    |run| == 0 ||
    (var n := |run| - 1;
     Possible(job, run[..n]) && Enabled(job, After(job, run[..n]), run[n]))
  }

  function After(job: Job, run: seq<Action>): State
    requires Possible(job, run)
    decreases |run|, 1
  {
    if |run| == 0 then Init(job) else
      var n := |run| - 1;
      Apply(job, After(job, run[..n]), run[n])
  }

  // ---------------------------------------------------------------------------------------------
  // What every step keeps

  /** Only the job's path is locked, and a body has not begun before its call is inside. */
  ghost predicate CallsAreRegular(job: Job, s: State) {
    forall c: P.Call ::
      && (!s.lock.PhaseOf(c).Idle? && !s.lock.PhaseOf(c).Dead? ==> s.lock.PhaseOf(c).path == job.path)
      && (BeforeBody(s.lock.PhaseOf(c)) ==> s.BodyOf(c).Start?)
  }

  predicate BeforeBody(phase: P.Phase) {
    phase.Trying? || phase.Guarded? || phase.Opened? || phase.Refused? || phase.Flocked?
  }

  predicate HasTempNamed(s: State, c: P.Call, n: TempName) {
    s.BodyOf(c).HasTemp() && s.BodyOf(c).temp == n
  }

  /** Each temporary file, unless its removal raised, belongs to one call, which is inside or has died. */
  ghost predicate TempsAreOwned(s: State) {
    && (forall n :: n in s.temps && n !in s.stuck ==> exists c: P.Call :: HasTempNamed(s, c, n))
    && (forall c: P.Call :: s.BodyOf(c).HasTemp() ==>
          s.BodyOf(c).temp in s.temps && (s.IsInside(c) || s.lock.PhaseOf(c).Dead?))
    && forall c: P.Call, d: P.Call :: s.BodyOf(c).HasTemp() && HasTempNamed(s, d, s.BodyOf(c).temp) ==> c == d
  }

  /** The local file is the old content until it is replaced, and then the whole object. */
  ghost predicate NeverTorn(job: Job, s: State) {
    && s.local == (if s.moves == 0 then job.initial else Some(job.remote))
    && forall c: P.Call :: s.BodyOf(c).Copied? && s.BodyOf(c).temp in s.temps ==>
         s.temps[s.BodyOf(c).temp] == job.remote
  }

  ghost predicate Inv(job: Job, s: State) {
    && P.Inv(s.lock)
    && CallsAreRegular(job, s)
    && TempsAreOwned(s)
    && NeverTorn(job, s)
  }

  /** The object has the hash the callers ask for, or the file had it from the start. */
  predicate Sound(job: Job) {
    job.hash(job.remote) == job.wanted || job.Matches(job.initial)
  }

  predicate WillMove(body: Progress) {
    body.Fetching? || body.Copying? || body.Copied?
  }

  /** A call inside that has decided to download still sees a file that needs replacing. */
  ghost predicate DownloadsAreDue(job: Job, s: State) {
    forall c: P.Call :: s.IsInside(c) && WillMove(s.BodyOf(c)) ==>
      !job.Matches(s.local)
  }

  /** A call with a result in hand leaves a file with the wanted hash. */
  ghost predicate AnswersHold(job: Job, s: State) {
    forall c: P.Call :: s.BodyOf(c).Answer? ==>
      job.Matches(s.local) && (s.BodyOf(c).changed ==> s.moves > 0)
  }

  ghost predicate OneReplacement(job: Job, s: State) {
    && s.moves <= 1
    && (s.moves == 1 ==> job.Matches(s.local))
  }

  /** The one replacement is reported by at most one call. */
  ghost predicate OneReport(s: State) {
    && s.trues <= s.moves
    && forall c: P.Call :: s.BodyOf(c) == Answer(true) ==>
         s.trues == 0 && forall d: P.Call :: s.BodyOf(d) == Answer(true) ==> c == d
  }

  ghost predicate SoundInv(job: Job, s: State) {
    && Inv(job, s)
    && DownloadsAreDue(job, s)
    && AnswersHold(job, s)
    && OneReplacement(job, s)
    && OneReport(s)
  }

  lemma {:induction false} LockStepIsRegular(job: Job, s: State, step: P.Action)
    requires CallsAreRegular(job, s) && Enabled(job, s, Lock(step))
    ensures CallsAreRegular(job, Apply(job, s, Lock(step)))
  {
    var t := Apply(job, s, Lock(step));
    forall c: P.Call
      ensures !t.lock.PhaseOf(c).Idle? && !t.lock.PhaseOf(c).Dead? ==> t.lock.PhaseOf(c).path == job.path
      ensures BeforeBody(t.lock.PhaseOf(c)) ==> t.BodyOf(c).Start?
    {
      assert c != step.c ==> t.lock.PhaseOf(c) == s.lock.PhaseOf(c) && t.BodyOf(c) == s.BodyOf(c);
    }
  }

  /** A step of the lock leaves every body as it is, or puts one back to its start. */
  lemma {:induction false} LockStepLeavesBodies(job: Job, s: State, step: P.Action)
    requires Enabled(job, s, Lock(step))
    ensures var t := Apply(job, s, Lock(step));
      forall c: P.Call :: t.BodyOf(c) == s.BodyOf(c) || t.BodyOf(c) == Start
  {
  }

  lemma {:induction false} LockStepKeepsTempOf(job: Job, s: State, step: P.Action, c: P.Call)
    requires CallsAreRegular(job, s) && TempsAreOwned(s) && Enabled(job, s, Lock(step))
    ensures var t := Apply(job, s, Lock(step));
      && t.BodyOf(c).HasTemp() == s.BodyOf(c).HasTemp()
      && (t.BodyOf(c).HasTemp() ==> t.BodyOf(c) == s.BodyOf(c) && (t.IsInside(c) || t.lock.PhaseOf(c).Dead?))
  {
  }

  lemma {:induction false} LockStepKeepsTemps(job: Job, s: State, step: P.Action)
    requires CallsAreRegular(job, s) && TempsAreOwned(s) && Enabled(job, s, Lock(step))
    ensures TempsAreOwned(Apply(job, s, Lock(step)))
  {
    var t := Apply(job, s, Lock(step));
    assert t.temps == s.temps && t.stuck == s.stuck;
    assert TempsAreOwned(t) by {
      forall c: P.Call
        ensures t.BodyOf(c).HasTemp() == s.BodyOf(c).HasTemp()
        ensures t.BodyOf(c).HasTemp() ==> t.BodyOf(c) == s.BodyOf(c) && (t.IsInside(c) || t.lock.PhaseOf(c).Dead?)
      {
        LockStepKeepsTempOf(job, s, step, c);
      }
      SameTempsAreOwned(s, t);
    }
  }

  lemma {:induction false} SameTempsAreOwned(s: State, t: State)
    requires TempsAreOwned(s) && t.temps == s.temps && t.stuck == s.stuck
    requires forall c: P.Call :: t.BodyOf(c).HasTemp() == s.BodyOf(c).HasTemp()
    requires forall c: P.Call :: t.BodyOf(c).HasTemp() ==>
      t.BodyOf(c) == s.BodyOf(c) && (t.IsInside(c) || t.lock.PhaseOf(c).Dead?)
    ensures TempsAreOwned(t)
  {
    forall n | n in t.temps && n !in t.stuck ensures exists c: P.Call :: HasTempNamed(t, c, n) {
      var c: P.Call :| HasTempNamed(s, c, n);
      assert HasTempNamed(t, c, n);
    }
    forall c: P.Call, d: P.Call | t.BodyOf(c).HasTemp() && HasTempNamed(t, d, t.BodyOf(c).temp) ensures c == d {
      assert HasTempNamed(s, d, s.BodyOf(c).temp);
    }
  }

  /** A body's step leaves the temporary files of other calls where they are. */
  lemma {:induction false} OtherTempsStay(job: Job, s: State, a: Action, c: P.Call)
    requires TempsAreOwned(s) && Enabled(job, s, a) && !a.Lock? && c != a.c
    ensures var t := Apply(job, s, a);
      && t.BodyOf(c) == s.BodyOf(c)
      && (s.BodyOf(c).HasTemp() ==> s.BodyOf(c).temp in t.temps)
  {
    if s.BodyOf(c).HasTemp() && s.BodyOf(a.c).HasTemp() {
      assert s.BodyOf(c).temp == s.BodyOf(a.c).temp ==> HasTempNamed(s, c, s.BodyOf(a.c).temp);
    }
  }

  lemma {:induction false} BodyStepKeepsTemps(job: Job, s: State, a: Action)
    requires TempsAreOwned(s) && Enabled(job, s, a) && !a.Lock?
    ensures TempsAreOwned(Apply(job, s, a))
  {
    var t := Apply(job, s, a);
    forall c: P.Call
      ensures c != a.c ==> t.BodyOf(c) == s.BodyOf(c)
      ensures t.BodyOf(c).HasTemp() ==> t.BodyOf(c).temp in t.temps
    {
      if c != a.c {
        OtherTempsStay(job, s, a, c);
      }
    }
    forall n | n in t.temps && n !in t.stuck ensures exists c: P.Call :: HasTempNamed(t, c, n) {
      if a.MakeTemp? && n == a.created {
        assert HasTempNamed(t, a.c, n);
      } else {
        var c: P.Call :| HasTempNamed(s, c, n);
        assert HasTempNamed(t, c, n);
      }
    }
    forall c: P.Call, d: P.Call | t.BodyOf(c).HasTemp() && HasTempNamed(t, d, t.BodyOf(c).temp) ensures c == d {
      if !a.MakeTemp? || (c != a.c && d != a.c) {
        assert s.BodyOf(c).HasTemp() && HasTempNamed(s, d, s.BodyOf(c).temp);
      }
    }
  }

  /** A step of a body keeps what other bodies have in their temporary files. */
  lemma {:induction false} BodyStepNeverTears(job: Job, s: State, a: Action)
    requires TempsAreOwned(s) && NeverTorn(job, s) && Enabled(job, s, a) && !a.Lock?
    ensures NeverTorn(job, Apply(job, s, a))
  {
    var t := Apply(job, s, a);
    assert forall c: P.Call :: c != a.c ==> t.BodyOf(c) == s.BodyOf(c);
    forall c: P.Call | t.BodyOf(c).Copied? && t.BodyOf(c).temp in t.temps
      ensures t.temps[t.BodyOf(c).temp] == job.remote
    {
      if c != a.c && s.BodyOf(a.c).HasTemp() {
        assert s.BodyOf(c).temp == s.BodyOf(a.c).temp ==> HasTempNamed(s, c, s.BodyOf(a.c).temp);
      }
    }
  }

  lemma {:induction false} LockStepKeepsInv(job: Job, s: State, step: P.Action)
    requires Inv(job, s) && Enabled(job, s, Lock(step))
    ensures Inv(job, Apply(job, s, Lock(step)))
  {
    P.InvIsKept(s.lock, step);
    LockStepIsRegular(job, s, step);
    LockStepKeepsTemps(job, s, step);
    LockStepLeavesBodies(job, s, step);
  }

  lemma {:induction false} BodyStepIsRegular(job: Job, s: State, a: Action)
    requires CallsAreRegular(job, s) && Enabled(job, s, a) && !a.Lock? && TempsAreOwned(s)
    ensures CallsAreRegular(job, Apply(job, s, a)) && Apply(job, s, a).lock == s.lock
  {
  }

  lemma {:induction false} InvIsKept(job: Job, s: State, a: Action)
    requires Inv(job, s) && Enabled(job, s, a)
    ensures Inv(job, Apply(job, s, a))
  {
    if a.Lock? {
      LockStepKeepsInv(job, s, a.step);
    } else {
      BodyStepIsRegular(job, s, a);
      BodyStepKeepsTemps(job, s, a);
      BodyStepNeverTears(job, s, a);
    }
  }

  /** Two calls inside are one call, because both are on the job's path. */
  lemma {:induction false} InsideIsUnique(job: Job, s: State, c: P.Call, d: P.Call)
    requires Inv(job, s) && s.IsInside(c) && s.IsInside(d)
    ensures c == d
  {
    assert s.lock.PhaseOf(c).path == s.lock.PhaseOf(d).path;
  }

  lemma {:induction false} DownloadsStayDue(job: Job, s: State, a: Action)
    requires SoundInv(job, s) && Enabled(job, s, a)
    ensures DownloadsAreDue(job, Apply(job, s, a))
  {
    if a.Lock? {
      LockStepStaysDue(job, s, a.step);
    } else {
      var t := Apply(job, s, a);
      forall c: P.Call | t.IsInside(c) && WillMove(t.BodyOf(c)) ensures !job.Matches(t.local) {
        if !a.Write? {
          InsideIsUnique(job, s, c, a.c);
        }
      }
    }
  }

  lemma {:induction false} LockStepStaysDue(job: Job, s: State, step: P.Action)
    requires SoundInv(job, s) && Enabled(job, s, Lock(step))
    ensures DownloadsAreDue(job, Apply(job, s, Lock(step)))
  {
    var t := Apply(job, s, Lock(step));
    LockStepLeavesBodies(job, s, step);
    forall c: P.Call | t.IsInside(c) && WillMove(t.BodyOf(c)) ensures !job.Matches(t.local) {
      assert BeforeBody(s.lock.PhaseOf(c)) ==> s.BodyOf(c).Start?;
      assert c != step.c ==> t.lock.PhaseOf(c) == s.lock.PhaseOf(c);
    }
  }

  lemma {:induction false} MoveReplacesOnce(job: Job, s: State, c: P.Call)
    requires Sound(job) && SoundInv(job, s) && Enabled(job, s, Move(c))
    ensures OneReplacement(job, Apply(job, s, Move(c))) && AnswersHold(job, Apply(job, s, Move(c)))
  {
    assert s.moves == 0;
    OtherBodiesStay(job, s, Move(c));
  }

  lemma {:induction false} ReplacementStep(job: Job, s: State, a: Action)
    requires Sound(job) && SoundInv(job, s) && Enabled(job, s, a)
    ensures OneReplacement(job, Apply(job, s, a)) && AnswersHold(job, Apply(job, s, a))
  {
    if a.Lock? {
      LockStepLeavesBodies(job, s, a.step);
    } else if a.Move? {
      MoveReplacesOnce(job, s, a.c);
    } else {
      OtherBodiesStay(job, s, a);
    }
  }

  lemma {:induction false} OtherBodiesStay(job: Job, s: State, a: Action)
    requires Enabled(job, s, a) && !a.Lock?
    ensures var t := Apply(job, s, a);
      && t.trues == s.trues
      && (forall c: P.Call :: c != a.c ==> t.BodyOf(c) == s.BodyOf(c))
      && (a.Move? ==> t.moves == s.moves + 1 && t.BodyOf(a.c) == Answer(true))
      && (!a.Move? ==> t.moves == s.moves && t.local == s.local && t.BodyOf(a.c) != Answer(true))
      && (!a.Move? && t.BodyOf(a.c).Answer? ==> job.Matches(s.local))
  {
  }

  lemma {:induction false} ReportLockStep(job: Job, s: State, step: P.Action)
    requires SoundInv(job, s) && Enabled(job, s, Lock(step))
    ensures OneReport(Apply(job, s, Lock(step)))
  {
    var t := Apply(job, s, Lock(step));
    LockStepLeavesBodies(job, s, step);
    assert s.BodyOf(step.c) == Answer(true) ==> s.moves > 0;
    forall c: P.Call | t.BodyOf(c) == Answer(true)
      ensures t.trues == 0 && forall d: P.Call :: t.BodyOf(d) == Answer(true) ==> c == d
    {
      assert s.BodyOf(c) == Answer(true);
    }
  }

  lemma {:induction false} ReportBodyStep(job: Job, s: State, a: Action)
    requires Sound(job) && SoundInv(job, s) && Enabled(job, s, a) && !a.Lock?
    ensures OneReport(Apply(job, s, a))
  {
    OtherBodiesStay(job, s, a);
    if a.Move? {
      assert s.moves == 0;
    }
  }

  lemma {:induction false} SoundInvIsKept(job: Job, s: State, a: Action)
    requires Sound(job) && SoundInv(job, s) && Enabled(job, s, a)
    ensures SoundInv(job, Apply(job, s, a))
  {
    InvIsKept(job, s, a);
    DownloadsStayDue(job, s, a);
    ReplacementStep(job, s, a);
    if a.Lock? {
      ReportLockStep(job, s, a.step);
    } else {
      ReportBodyStep(job, s, a);
    }
  }

  lemma {:induction false} InvHolds(job: Job, run: seq<Action>)
    requires Possible(job, run)
    ensures Inv(job, After(job, run))
    ensures Sound(job) ==> SoundInv(job, After(job, run))
  {
    if |run| > 0 {
      var n := |run| - 1;
      InvHolds(job, run[..n]);
      InvIsKept(job, After(job, run[..n]), run[n]);
      if Sound(job) {
        SoundInvIsKept(job, After(job, run[..n]), run[n]);
      }
    }
  }

  /**
   * At every point of every run the file is its old content or the whole object, whatever the hash and
   * whatever the downloads, those of dead calls among them, have put into the temporary files.
   */
  lemma {:induction false} FileIsNeverTorn(job: Job, run: seq<Action>)
    requires Possible(job, run)
    ensures After(job, run).local == job.initial || After(job, run).local == Some(job.remote)
    ensures After(job, run).moves > 0 ==> After(job, run).local == Some(job.remote)
  {
    InvHolds(job, run);
  }

  /** A temporary file can hold anything at all while it is downloaded. */
  lemma {:induction false} TempsMayBeTorn(job: Job, part: Content) returns (run: seq<Action>)
    requires !job.Matches(job.initial)
    ensures Possible(job, run) && After(job, run).temps == map[0 := part]
  {
    run := AloneToBody(job, [], 0);
    run := Then(job, run, Write(0, part));
  }

  /**
   * Temporary files stay behind only for calls that died and where the removal raised: the others remove or
   * move theirs on their way out.
   */
  lemma {:induction false} LitterIsOfTheDead(job: Job, run: seq<Action>, n: TempName) returns (c: P.Call)
    requires Possible(job, run) && n in After(job, run).temps && n !in After(job, run).stuck
    ensures var s := After(job, run);
      HasTempNamed(s, c, n) && (s.IsInside(c) || s.lock.PhaseOf(c).Dead?)
  {
    InvHolds(job, run);
    c :| HasTempNamed(After(job, run), c, n);
  }

  /** A call that is returning now leaves a file with the wanted hash. */
  ghost predicate ReturnsAreRight(job: Job, s: State) {
    forall step: P.Action :: Enabled(job, s, Lock(step)) && Returns(s, step) ==> job.Matches(s.local)
  }

  // ---------------------------------------------------------------------------------------------
  // A call that runs alone, to show that the condition on the job is needed

  lemma {:induction false} Then(job: Job, run: seq<Action>, a: Action) returns (longer: seq<Action>)
    requires Possible(job, run) && Enabled(job, After(job, run), a)
    ensures longer == run + [a]
    ensures Possible(job, longer) && After(job, longer) == Apply(job, After(job, run), a)
  {
    longer := run + [a];
    assert longer[..|run|] == run;
  }

  /** Nobody holds anything, and call `c` may start. */
  predicate Quiet(s: State, c: P.Call) {
    s.temps == map[] && s.lock.guard.None? && s.lock.dir == map[] && s.lock.flock == map[] && s.lock.PhaseOf(c).Idle?
  }

  /** State `s` with call `c` in the given phase, holding the guard, the file and its lock as told. */
  function With(job: Job, s: State, c: P.Call, guard: bool, file: bool, locked: bool,
                phase: P.Phase, body: Progress): State
  {
    s.(lock := P.State(
         if guard then Some(c) else None,
         if file then map[job.path := 0] else map[],
         if locked then map[0 := c] else map[],
         s.lock.calls[c := phase]),
       body := s.body[c := body])
  }

  lemma {:induction false} AloneToGuard(job: Job, run: seq<Action>, c: P.Call) returns (longer: seq<Action>)
    requires Possible(job, run) && Quiet(After(job, run), c)
    ensures Possible(job, longer)
    ensures After(job, longer) ==
      With(job, After(job, run), c, true, false, false, P.Guarded(job.path), Start)
  {
    var s := After(job, run);
    var begun := Then(job, run, Lock(P.Begin(c, job.path)));
    var t := After(job, begun);
    assert t == s.(lock := s.lock.Goto(c, P.Trying(job.path)), body := s.body[c := Start]);
    longer := Then(job, begun, Lock(P.TakeGuard(c)));
    GuardTaken(job, s, t, After(job, longer), c);
  }

  lemma {:induction false} GuardTaken(job: Job, s: State, t: State, u: State, c: P.Call)
    requires Quiet(s, c)
    requires t == s.(lock := s.lock.Goto(c, P.Trying(job.path)), body := s.body[c := Start])
    requires Enabled(job, t, Lock(P.TakeGuard(c))) && u == Apply(job, t, Lock(P.TakeGuard(c)))
    ensures u == With(job, s, c, true, false, false, P.Guarded(job.path), Start)
  {
    assert s.lock.calls[c := P.Trying(job.path)][c := P.Guarded(job.path)] ==
           s.lock.calls[c := P.Guarded(job.path)];
  }

  lemma {:induction false} AloneToOpen(job: Job, run: seq<Action>, c: P.Call) returns (longer: seq<Action>)
    requires Possible(job, run) && Quiet(After(job, run), c) && P.Inv(After(job, run).lock)
    ensures Possible(job, longer)
    ensures After(job, longer) ==
      With(job, After(job, run), c, true, true, false, P.Opened(job.path, 0), Start)
  {
    var s := After(job, run);
    var guarded := AloneToGuard(job, run, c);
    var t := After(job, guarded);
    forall d | d in t.lock.calls ensures !t.lock.calls[d].RefersTo(0) {
      assert d != c ==> t.lock.calls[d] == s.lock.PhaseOf(d);
    }
    longer := Then(job, guarded, Lock(P.Open(c, 0)));
    assert s.lock.calls[c := P.Guarded(job.path)][c := P.Opened(job.path, 0)] ==
           s.lock.calls[c := P.Opened(job.path, 0)];
    assert map[][job.path := 0] == map[job.path := 0];
  }

  lemma {:induction false} AloneToLock(job: Job, run: seq<Action>, c: P.Call) returns (longer: seq<Action>)
    requires Possible(job, run) && Quiet(After(job, run), c) && P.Inv(After(job, run).lock)
    ensures Possible(job, longer)
    ensures After(job, longer) ==
      With(job, After(job, run), c, true, true, true, P.Flocked(job.path, 0), Start)
  {
    var s := After(job, run);
    var linked := AloneToOpen(job, run, c);
    longer := Then(job, linked, Lock(P.Flock(c)));
    assert s.lock.calls[c := P.Opened(job.path, 0)][c := P.Flocked(job.path, 0)] ==
           s.lock.calls[c := P.Flocked(job.path, 0)];
  }

  lemma {:induction false} AloneToCheck(job: Job, run: seq<Action>, c: P.Call) returns (longer: seq<Action>)
    requires Possible(job, run) && Quiet(After(job, run), c) && P.Inv(After(job, run).lock)
    requires !job.Matches(After(job, run).local)
    ensures Possible(job, longer)
    ensures After(job, longer) ==
      With(job, After(job, run), c, false, true, true, P.Inside(job.path, 0), Fetching)
  {
    var s := After(job, run);
    var inside := AloneToInside(job, run, c);
    longer := Then(job, inside, Check(c));
    assert s.body[c := Start][c := Fetching] == s.body[c := Fetching];
  }

  lemma {:induction false} AloneToInside(job: Job, run: seq<Action>, c: P.Call) returns (longer: seq<Action>)
    requires Possible(job, run) && Quiet(After(job, run), c) && P.Inv(After(job, run).lock)
    ensures Possible(job, longer)
    ensures After(job, longer) ==
      With(job, After(job, run), c, false, true, true, P.Inside(job.path, 0), Start)
  {
    var s := After(job, run);
    var locked := AloneToLock(job, run, c);
    longer := Then(job, locked, Lock(P.DropGuard(c)));
    assert s.lock.calls[c := P.Flocked(job.path, 0)][c := P.Inside(job.path, 0)] ==
           s.lock.calls[c := P.Inside(job.path, 0)];
  }

  lemma {:induction false} AloneToBody(job: Job, run: seq<Action>, c: P.Call) returns (longer: seq<Action>)
    requires Possible(job, run) && Quiet(After(job, run), c) && P.Inv(After(job, run).lock)
    requires !job.Matches(After(job, run).local)
    ensures Possible(job, longer)
    ensures After(job, longer) ==
      With(job, After(job, run).(temps := map[0 := ""]), c, false, true, true, P.Inside(job.path, 0), Copying(0, false))
  {
    var s := After(job, run);
    var checked := AloneToCheck(job, run, c);
    longer := Then(job, checked, MakeTemp(c, 0));
    assert s.body[c := Fetching][c := Copying(0, false)] == s.body[c := Copying(0, false)];
  }

  /** The download gets through, at once or after a server error. */
  lemma {:induction false} AloneToCopy(job: Job, run: seq<Action>, c: P.Call, again: bool)
    returns (longer: seq<Action>)
    requires Possible(job, run) && Quiet(After(job, run), c) && P.Inv(After(job, run).lock)
    requires !job.Matches(After(job, run).local)
    ensures Possible(job, longer)
    ensures var s := After(job, run).(temps := map[0 := job.remote]);
      After(job, longer) == With(job, s, c, false, true, true, P.Inside(job.path, 0), Copied(0))
  {
    var s := After(job, run);
    var copying := AloneToBody(job, run, c);
    if again {
      copying := AloneRetries(job, copying, s.(temps := map[0 := ""]), c);
    }
    longer := Then(job, copying, Finish(c));
    assert s.body[c := Copying(0, again)][c := Copied(0)] == s.body[c := Copied(0)];
  }

  lemma {:induction false} AloneRetries(job: Job, run: seq<Action>, s: State, c: P.Call) returns (longer: seq<Action>)
    requires Possible(job, run)
    requires After(job, run) == With(job, s, c, false, true, true, P.Inside(job.path, 0), Copying(0, false))
    ensures Possible(job, longer)
    ensures After(job, longer) == With(job, s, c, false, true, true, P.Inside(job.path, 0), Copying(0, true))
  {
    longer := Then(job, run, Retry(c));
    assert s.body[c := Copying(0, false)][c := Copying(0, true)] == s.body[c := Copying(0, true)];
  }

  /** State `s` with the whole object moved into place. */
  function Replaced(job: Job, s: State): State {
    s.(local := Some(job.remote), moves := s.moves + 1)
  }

  lemma {:induction false} AloneThroughBody(job: Job, run: seq<Action>, c: P.Call, again: bool)
    returns (longer: seq<Action>)
    requires Possible(job, run) && Quiet(After(job, run), c) && P.Inv(After(job, run).lock)
    requires !job.Matches(After(job, run).local)
    ensures Possible(job, longer)
    ensures After(job, longer) ==
      With(job, Replaced(job, After(job, run)), c, false, true, true, P.Inside(job.path, 0), Answer(true))
  {
    var s := After(job, run);
    var copied := AloneToCopy(job, run, c, again);
    longer := Then(job, copied, Move(c));
    assert map[0 := job.remote] - {0} == map[];
    assert s.body[c := Copied(0)][c := Answer(true)] == s.body[c := Answer(true)];
  }

  /** The body is over, with this result or an exception, and nothing else is going on. */
  ghost predicate IsOver(job: Job, run: seq<Action>, s: State, c: P.Call, body: Progress) {
    && Possible(job, run) && (body.Answer? || body.Raised?)
    && After(job, run) == With(job, s, c, false, true, true, P.Inside(job.path, 0), body)
  }

  lemma {:induction false} OutToLeave(job: Job, run: seq<Action>, s: State, c: P.Call, body: Progress)
    returns (longer: seq<Action>)
    requires IsOver(job, run, s, c, body)
    ensures Possible(job, longer)
    ensures After(job, longer) == With(job, s, c, false, true, true, P.Leaving(job.path, 0), body)
  {
    longer := Then(job, run, Lock(P.Leave(c)));
    assert s.lock.calls[c := P.Inside(job.path, 0)][c := P.Leaving(job.path, 0)] ==
           s.lock.calls[c := P.Leaving(job.path, 0)];
  }

  lemma {:induction false} OutToRelease(job: Job, run: seq<Action>, s: State, c: P.Call, body: Progress)
    returns (longer: seq<Action>)
    requires IsOver(job, run, s, c, body)
    ensures Possible(job, longer)
    ensures After(job, longer) == With(job, s, c, true, true, true, P.Releasing(job.path, 0), body)
  {
    var leaving := OutToLeave(job, run, s, c, body);
    longer := Then(job, leaving, Lock(P.TakeGuardAgain(c)));
    assert s.lock.calls[c := P.Leaving(job.path, 0)][c := P.Releasing(job.path, 0)] ==
           s.lock.calls[c := P.Releasing(job.path, 0)];
  }

  lemma {:induction false} OutToUnlock(job: Job, run: seq<Action>, s: State, c: P.Call, body: Progress)
    returns (longer: seq<Action>)
    requires IsOver(job, run, s, c, body)
    ensures Possible(job, longer)
    ensures After(job, longer) == With(job, s, c, true, true, false, P.Unlocked(job.path), body)
  {
    var releasing := OutToRelease(job, run, s, c, body);
    longer := Then(job, releasing, Lock(P.Unlock(c)));
    assert P.WithoutLocksOf(map[0 := c], c) == map[];
    assert s.lock.calls[c := P.Releasing(job.path, 0)][c := P.Unlocked(job.path)] ==
           s.lock.calls[c := P.Unlocked(job.path)];
  }

  /** The lock file is gone, and the call is about to return or to raise. */
  lemma {:induction false} OutToReturn(job: Job, run: seq<Action>, s: State, c: P.Call, body: Progress)
    returns (longer: seq<Action>)
    requires IsOver(job, run, s, c, body)
    ensures Possible(job, longer)
    ensures After(job, longer) == With(job, s, c, true, false, false, P.Removed(job.path), body)
  {
    var unlocked := OutToUnlock(job, run, s, c, body);
    longer := Then(job, unlocked, Lock(P.Remove(c, true)));
    assert map[job.path := 0] - {job.path} == map[];
    assert s.lock.calls[c := P.Unlocked(job.path)][c := P.Removed(job.path)] ==
           s.lock.calls[c := P.Removed(job.path)];
  }

  /** The call has replaced the file and is about to return True. */
  lemma {:induction false} AloneToReturn(job: Job, run: seq<Action>, c: P.Call, again: bool)
    returns (longer: seq<Action>)
    requires Possible(job, run) && Quiet(After(job, run), c) && P.Inv(After(job, run).lock)
    requires !job.Matches(After(job, run).local)
    ensures Possible(job, longer)
    ensures After(job, longer) ==
      With(job, Replaced(job, After(job, run)), c, true, false, false, P.Removed(job.path), Answer(true))
  {
    var s := After(job, run);
    var moved := AloneThroughBody(job, run, c, again);
    longer := OutToReturn(job, moved, Replaced(job, s), c, Answer(true));
  }

  /** What a call leaves when it is over: nobody holds anything, and there is no lock file and no temporary file. */
  ghost predicate Ends(job: Job, run: seq<Action>, longer: seq<Action>, c: P.Call, local: Option<Content>, moved: nat,
                       trueAgain: nat)
  {
    && Possible(job, run) && Possible(job, longer) && Quiet(After(job, longer), c)
    && After(job, longer).local == local
    && After(job, longer).moves == After(job, run).moves + moved
    && After(job, longer).trues == After(job, run).trues + trueAgain
  }

  /** A call that runs alone and finds another file fetches the object and returns True, also after a server error. */
  lemma {:induction false} Alone(job: Job, run: seq<Action>, c: P.Call, again: bool) returns (longer: seq<Action>)
    requires Possible(job, run) && Quiet(After(job, run), c) && !job.Matches(After(job, run).local)
    ensures Ends(job, run, longer, c, Some(job.remote), 1, 1)
  {
    InvHolds(job, run);
    var ready := AloneToReturn(job, run, c, again);
    assert Returns(After(job, ready), P.DropGuard(c));
    longer := Then(job, ready, Lock(P.DropGuard(c)));
  }

  /** A call that runs alone and finds the file it wants leaves it alone and returns False. */
  lemma {:induction false} AloneUnchanged(job: Job, run: seq<Action>, c: P.Call)
    returns (ready: seq<Action>, longer: seq<Action>)
    requires Possible(job, run) && Quiet(After(job, run), c) && job.Matches(After(job, run).local)
    ensures Possible(job, ready) && longer == ready + [Lock(P.DropGuard(c))]
    ensures After(job, ready).BodyOf(c) == Answer(false) && Returns(After(job, ready), P.DropGuard(c))
    ensures Ends(job, run, longer, c, After(job, run).local, 0, 0)
  {
    InvHolds(job, run);
    var s := After(job, run);
    var inside := AloneToInside(job, run, c);
    var checked := Then(job, inside, Check(c));
    assert s.body[c := Start][c := Answer(false)] == s.body[c := Answer(false)];
    ready := OutToReturn(job, checked, s, c, Answer(false));
    longer := Then(job, ready, Lock(P.DropGuard(c)));
  }

  /** A call that runs alone and whose download raises removes what it downloaded, and leaves the file alone. */
  lemma {:induction false} AloneRaises(job: Job, run: seq<Action>, c: P.Call) returns (longer: seq<Action>)
    requires Possible(job, run) && Quiet(After(job, run), c) && !job.Matches(After(job, run).local)
    ensures Ends(job, run, longer, c, After(job, run).local, 0, 0)
  {
    InvHolds(job, run);
    var s := After(job, run);
    var raised := AloneToRaised(job, run, c);
    var ready := OutToReturn(job, raised, s, c, Raised);
    assert !Returns(After(job, ready), P.DropGuard(c));
    longer := Then(job, ready, Lock(P.DropGuard(c)));
  }

  lemma {:induction false} AloneToRaised(job: Job, run: seq<Action>, c: P.Call) returns (longer: seq<Action>)
    requires Possible(job, run) && Quiet(After(job, run), c) && P.Inv(After(job, run).lock)
    requires !job.Matches(After(job, run).local)
    ensures IsOver(job, longer, After(job, run), c, Raised)
  {
    var s := After(job, run);
    var copying := AloneToBody(job, run, c);
    var failing := Then(job, copying, Fail(c));
    longer := Then(job, failing, CleanUp(c, true));
    assert map[0 := ""] - {0} == map[];
    assert s.body[c := Copying(0, false)][c := Failing(0)][c := Raised] == s.body[c := Raised];
  }

  // ---------------------------------------------------------------------------------------------
  // Main results

  /**
   * At most one of any number of interleaved calls returns True, in every run with crashes, time-outs
   * and failed downloads, exactly when the object has the wanted hash or the file had it already.
   */
  lemma {:induction false} AtMostOneReportIffSound(job: Job)
    ensures (forall run :: Possible(job, run) ==> After(job, run).trues <= 1) <==> Sound(job)
  {
    if Sound(job) {
      forall run | Possible(job, run) ensures After(job, run).trues <= 1 {
        InvHolds(job, run);
      }
    } else {
      var once := Alone(job, [], 0, false);
      var twice := Alone(job, once, 0, false);
      assert Possible(job, twice) && After(job, twice).trues == 2;
    }
  }

  /** Under the same condition, and only then, every call that returns leaves the wanted file. */
  lemma {:induction false} ReturnsAreRightIffSound(job: Job)
    ensures (forall run :: Possible(job, run) ==> ReturnsAreRight(job, After(job, run))) <==> Sound(job)
  {
    if Sound(job) {
      forall run | Possible(job, run) ensures ReturnsAreRight(job, After(job, run)) {
        InvHolds(job, run);
      }
    } else {
      var run := AloneToReturn(job, [], 0, false);
      var s := After(job, run);
      assert Enabled(job, s, Lock(P.DropGuard(0))) && Returns(s, P.DropGuard(0));
    }
  }
}
