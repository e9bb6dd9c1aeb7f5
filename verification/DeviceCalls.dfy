/**
 * Calls of `DeviceUtils.PushChangedFiles` with their retries, runs of such calls, and what a failed attempt
 * means for the next one.
 */
module DeviceCalls {
  import opened DevicePush

  // ---------------------------------------------------------------------------------------------
  // One call: attempts that fail, and then one that works unless the call gives up

  /** A failed attempt: how many tuples it measured, and the state it left. */
  datatype Failure = Failure(measured: nat, after: State)

  /** A call: the attempts that failed, all on the same host files, and did one work in the end? */
  datatype Call = Call(tuples: seq<Tuple>, flag: bool, failures: seq<Failure>, works: bool)

  ghost predicate Fails(md5: Md5, useCache: bool, s: State, c: Call)
    decreases |c.failures|
  {
    c.failures != [] ==>
      && MayFailTo(md5, useCache, s, c.tuples, c.flag, c.failures[0].measured, c.failures[0].after)
      && Fails(md5, useCache, c.failures[0].after, c.(failures := c.failures[1..]))
  }

  function AfterCall(md5: Md5, useCache: bool, s: State, c: Call): State
    decreases |c.failures|
  {
    if c.failures != [] then AfterCall(md5, useCache, c.failures[0].after, c.(failures := c.failures[1..]))
    else if c.works then Succeed(md5, useCache, s, c.tuples, c.flag)
    else s
  }

  function DirtyAfterCall(md5: Md5, useCache: bool, s: State, c: Call, dirty: set<Path>): set<Path>
    decreases |c.failures|
  {
    if c.failures != [] then
      DirtyAfterCall(md5, useCache, c.failures[0].after, c.(failures := c.failures[1..]),
                     Dirtied(md5, useCache, s, c.tuples, c.flag, c.failures[0].measured, dirty))
    else if c.works then Cleaned(c.tuples, dirty)
    else dirty
  }

  /** The call may write or delete the file. */
  predicate InZone(c: Call, p: Path) {
    Wanted(c.tuples, p) || (c.flag && Cleared(c.tuples, p))
  }

  /** What a call that found a harmless state leaves, seen from the device it found. */
  lemma {:induction false} CallIsRight(md5: Md5, useCache: bool, base: Files, s: State, c: Call,
                                       roots: map<Path, bool>, dirty: set<Path>)
    requires Injective(md5) && Fits(c.tuples, roots) && Unnested(roots) && Sound(md5, s, roots, dirty)
    requires AllHarmless(md5, useCache, s, c.tuples, c.flag, dirty) && Fails(md5, useCache, s, c)
    requires OthersStay(base, s.device, c.tuples, c.flag)
    ensures var after := AfterCall(md5, useCache, s, c);
      && Sound(md5, after, roots, DirtyAfterCall(md5, useCache, s, c, dirty))
      && OthersStay(base, after.device, c.tuples, c.flag)
      && (c.works ==> HasTrees(base, after.device, c.tuples, c.flag))
      && (!c.works ==>
            AllHarmless(md5, useCache, after, c.tuples, c.flag, DirtyAfterCall(md5, useCache, s, c, dirty)))
    decreases |c.failures|
  {
    SoundIsReady(md5, useCache, s, c.tuples, c.flag, roots, dirty);
    if c.failures != [] {
      var f := c.failures[0];
      FailureLeavesOthers(md5, useCache, s, c.tuples, c.flag, f.measured, f.after);
      FailureStaysSound(md5, useCache, s, c.tuples, c.flag, roots, dirty, f.measured, f.after);
      FailureStaysHarmless(md5, useCache, s, c.tuples, c.flag, roots, dirty, f.measured, f.after);
      CallIsRight(md5, useCache, base, f.after, c.(failures := c.failures[1..]), roots,
                  Dirtied(md5, useCache, s, c.tuples, c.flag, f.measured, dirty));
    } else if c.works {
      SuccessHasTrees(md5, useCache, s, c.tuples, c.flag);
      SuccessIsSound(md5, useCache, s, c.tuples, c.flag, roots, dirty);
    }
  }

  lemma {:induction false} FailureLeavesOthers(md5: Md5, useCache: bool, s: State, tuples: seq<Tuple>, flag: bool,
                                               n: nat, after: State)
    requires Separate(tuples) && Ready(md5, useCache, s, tuples, flag)
    requires MayFailTo(md5, useCache, s, tuples, flag, n, after)
    ensures OthersStay(s.device, after.device, tuples, flag)
  {
    PlanStaysInside(md5, useCache, s, tuples, flag);
  }

  // ---------------------------------------------------------------------------------------------
  // Runs of calls

  function AfterCalls(md5: Md5, useCache: bool, s: State, calls: seq<Call>): State
    decreases |calls|
  {
    if calls == [] then s
    else AfterCall(md5, useCache, AfterCalls(md5, useCache, s, calls[..|calls| - 1]), calls[|calls| - 1])
  }

  /** The files the cache may be wrong about after the calls. */
  function DirtyAfterCalls(md5: Md5, useCache: bool, s: State, calls: seq<Call>): set<Path>
    decreases |calls|
  {
    if calls == [] then {}
    else
      var before, c := calls[..|calls| - 1], calls[|calls| - 1];
      DirtyAfterCall(md5, useCache, AfterCalls(md5, useCache, s, before), c,
                     DirtyAfterCalls(md5, useCache, s, before))
  }

  /** The call comes upon no harm that earlier calls left when they gave up. */
  predicate MayCall(md5: Md5, useCache: bool, s: State, calls: seq<Call>, c: Call) {
    AllHarmless(md5, useCache, AfterCalls(md5, useCache, s, calls), c.tuples, c.flag,
                DirtyAfterCalls(md5, useCache, s, calls))
  }

  ghost predicate IsRun(md5: Md5, useCache: bool, s: State, calls: seq<Call>, roots: map<Path, bool>)
    decreases |calls|
  {
    calls != [] ==>
      var before, c := calls[..|calls| - 1], calls[|calls| - 1];
      && IsRun(md5, useCache, s, before, roots)
      && Fits(c.tuples, roots)
      && MayCall(md5, useCache, s, before, c)
      && Fails(md5, useCache, AfterCalls(md5, useCache, s, before), c)
  }

  /** In every run the cache is true but for the dirty files. */
  lemma {:induction false} RunsStaySound(md5: Md5, useCache: bool, s: State, calls: seq<Call>, roots: map<Path, bool>)
    requires Injective(md5) && Unnested(roots) && Sound(md5, s, roots, {})
    requires IsRun(md5, useCache, s, calls, roots)
    ensures Sound(md5, AfterCalls(md5, useCache, s, calls), roots, DirtyAfterCalls(md5, useCache, s, calls))
    decreases |calls|
  {
    if calls != [] {
      var before, c := calls[..|calls| - 1], calls[|calls| - 1];
      RunsStaySound(md5, useCache, s, before, roots);
      var mid := AfterCalls(md5, useCache, s, before);
      CallIsRight(md5, useCache, mid.device, mid, c, roots, DirtyAfterCalls(md5, useCache, s, before));
    }
  }

  /**
   * In every run, each call that returns leaves the host's files, and with the flag nothing else, under its
   * roots; and no call changes another file.
   */
  lemma {:induction false} EveryCallHasTrees(md5: Md5, useCache: bool, s: State, calls: seq<Call>, c: Call,
                                             roots: map<Path, bool>)
    requires Injective(md5) && Unnested(roots) && Sound(md5, s, roots, {})
    requires IsRun(md5, useCache, s, calls + [c], roots)
    ensures var before, after := AfterCalls(md5, useCache, s, calls), AfterCalls(md5, useCache, s, calls + [c]);
      && OthersStay(before.device, after.device, c.tuples, c.flag)
      && (c.works ==> HasTrees(before.device, after.device, c.tuples, c.flag))
  {
    assert (calls + [c])[..|calls|] == calls;
    RunsStaySound(md5, useCache, s, calls, roots);
    var mid := AfterCalls(md5, useCache, s, calls);
    CallIsRight(md5, useCache, mid.device, mid, c, roots, DirtyAfterCalls(md5, useCache, s, calls));
  }

  /** After a call gave up, a call with the same host files and flag comes upon no harm. */
  lemma {:induction false} SameCallAgain(md5: Md5, useCache: bool, s: State, calls: seq<Call>, c: Call, again: Call,
                                         roots: map<Path, bool>)
    requires Injective(md5) && Unnested(roots) && Sound(md5, s, roots, {})
    requires IsRun(md5, useCache, s, calls + [c], roots)
    requires !c.works && again.tuples == c.tuples && again.flag == c.flag
    ensures MayCall(md5, useCache, s, calls + [c], again)
  {
    assert (calls + [c])[..|calls|] == calls;
    RunsStaySound(md5, useCache, s, calls, roots);
    var mid := AfterCalls(md5, useCache, s, calls);
    CallIsRight(md5, useCache, mid.device, mid, c, roots, DirtyAfterCalls(md5, useCache, s, calls));
  }

  /** The last call that could write or delete the file returned, or there was none. */
  predicate Settled(calls: seq<Call>, p: Path)
    decreases |calls|
  {
    calls == [] ||
      var before, c := calls[..|calls| - 1], calls[|calls| - 1];
      if InZone(c, p) then c.works else Settled(before, p)
  }

  /** Only files of calls that gave up are dirty, until a later call settles them. */
  lemma {:induction false} SettledIsClean(md5: Md5, useCache: bool, s: State, calls: seq<Call>,
                                          roots: map<Path, bool>, p: Path)
    requires Injective(md5) && Unnested(roots) && Sound(md5, s, roots, {})
    requires IsRun(md5, useCache, s, calls, roots) && Settled(calls, p)
    ensures p !in DirtyAfterCalls(md5, useCache, s, calls)
    decreases |calls|
  {
    if calls != [] {
      var before, c := calls[..|calls| - 1], calls[|calls| - 1];
      RunsStaySound(md5, useCache, s, before, roots);
      var mid, dirty := AfterCalls(md5, useCache, s, before), DirtyAfterCalls(md5, useCache, s, before);
      if !InZone(c, p) {
        SettledIsClean(md5, useCache, s, before, roots, p);
      }
      CallDirtiesZone(md5, useCache, mid, c, roots, dirty, p);
    }
  }

  lemma {:induction false} CallDirtiesZone(md5: Md5, useCache: bool, s: State, c: Call, roots: map<Path, bool>,
                                           dirty: set<Path>, p: Path)
    requires Injective(md5) && Fits(c.tuples, roots) && Unnested(roots) && Sound(md5, s, roots, dirty)
    requires AllHarmless(md5, useCache, s, c.tuples, c.flag, dirty) && Fails(md5, useCache, s, c)
    requires if InZone(c, p) then c.works else p !in dirty
    ensures p !in DirtyAfterCall(md5, useCache, s, c, dirty)
    decreases |c.failures|
  {
    if c.failures != [] {
      var f := c.failures[0];
      SoundIsReady(md5, useCache, s, c.tuples, c.flag, roots, dirty);
      PlanStaysInside(md5, useCache, s, c.tuples, c.flag);
      FailureStaysSound(md5, useCache, s, c.tuples, c.flag, roots, dirty, f.measured, f.after);
      FailureStaysHarmless(md5, useCache, s, c.tuples, c.flag, roots, dirty, f.measured, f.after);
      CallDirtiesZone(md5, useCache, f.after, c.(failures := c.failures[1..]), roots,
                      Dirtied(md5, useCache, s, c.tuples, c.flag, f.measured, dirty), p);
    } else if InZone(c, p) {
      assert exists i :: 0 <= i < |c.tuples| && c.tuples[i].root <= p;
    }
  }

  /** A call comes upon no harm if every file below its roots is settled. */
  lemma {:induction false} SettledIsHarmless(md5: Md5, useCache: bool, s: State, calls: seq<Call>, c: Call,
                                             roots: map<Path, bool>)
    requires Injective(md5) && Unnested(roots) && Sound(md5, s, roots, {})
    requires IsRun(md5, useCache, s, calls, roots)
    requires forall i, p :: 0 <= i < |c.tuples| && c.tuples[i].root <= p ==> Settled(calls, p)
    ensures MayCall(md5, useCache, s, calls, c)
  {
    var dirty := DirtyAfterCalls(md5, useCache, s, calls);
    forall i, p | 0 <= i < |c.tuples| && p in dirty ensures !(c.tuples[i].root <= p) {
      if c.tuples[i].root <= p {
        SettledIsClean(md5, useCache, s, calls, roots, p);
        assert false;
      }
    }
  }

  predicate SameRequests(calls0: seq<Call>, calls1: seq<Call>) {
    && |calls0| == |calls1|
    && forall i :: 0 <= i < |calls0| ==> SameRequest(calls0[i], calls1[i])
  }

  predicate SameRequest(c0: Call, c1: Call) {
    c0.tuples == c1.tuples && c0.flag == c1.flag && c0.works == c1.works
  }

  /**
   * The cache, what it holds, and the attempts that failed make no difference to any file whose last call
   * returned, in particular to no file at all if every call returned.
   */
  lemma {:induction false} CacheMakesNoDifference(md5: Md5, useCache0: bool, useCache1: bool, s0: State, s1: State,
                                                  calls0: seq<Call>, calls1: seq<Call>, roots: map<Path, bool>,
                                                  p: Path)
    requires Injective(md5) && Unnested(roots) && Sound(md5, s0, roots, {}) && Sound(md5, s1, roots, {})
    requires IsRun(md5, useCache0, s0, calls0, roots) && IsRun(md5, useCache1, s1, calls1, roots)
    requires SameRequests(calls0, calls1) && SameAt(s0.device, s1.device, p) && Settled(calls0, p)
    ensures SameAt(AfterCalls(md5, useCache0, s0, calls0).device, AfterCalls(md5, useCache1, s1, calls1).device, p)
    decreases |calls0|
  {
    if calls0 != [] {
      var n, c := |calls0| - 1, calls0[|calls0| - 1];
      var before0, after0 := LastCallIsRight(md5, useCache0, s0, calls0, c, roots);
      var before1, after1 := LastCallIsRight(md5, useCache1, s1, calls1, c, roots);
      if !InZone(c, p) {
        CacheMakesNoDifference(md5, useCache0, useCache1, s0, s1, calls0[..n], calls1[..n], roots, p);
      }
      SameAfterCall(before0, after0, before1, after1, c, p);
    }
  }

  lemma {:induction false} SameAfterCall(before0: Files, after0: Files, before1: Files, after1: Files, c: Call,
                                         p: Path)
    requires OthersStay(before0, after0, c.tuples, c.flag) && OthersStay(before1, after1, c.tuples, c.flag)
    requires c.works ==> HasTrees(before0, after0, c.tuples, c.flag) && HasTrees(before1, after1, c.tuples, c.flag)
    requires if InZone(c, p) then c.works else SameAt(before0, before1, p)
    ensures SameAt(after0, after1, p)
  {
    if InZone(c, p) {
      ZoneIsDetermined(before0, after0, before1, after1, c, p);
    } else {
      assert SameAt(before0, after0, p) && SameAt(before1, after1, p);
    }
  }

  lemma {:induction false} ZoneIsDetermined(before0: Files, after0: Files, before1: Files, after1: Files, c: Call,
                                            p: Path)
    requires HasTrees(before0, after0, c.tuples, c.flag) && HasTrees(before1, after1, c.tuples, c.flag)
    requires InZone(c, p)
    ensures SameAt(after0, after1, p)
  {
    if i :| 0 <= i < |c.tuples| && p in c.tuples[i].Targets() {
      TargetIsThere(after0, c.tuples, i, p);
      TargetIsThere(after1, c.tuples, i, p);
    } else {
      ClearedIsGone(after0, c.tuples, p);
      ClearedIsGone(after1, c.tuples, p);
    }
  }

  lemma {:induction false} TargetIsThere(after: Files, tuples: seq<Tuple>, i: nat, p: Path)
    requires TargetsArrived(after, tuples) && i < |tuples| && p in tuples[i].Targets()
    ensures p in after && after[p] == tuples[i].Targets()[p]
  {
  }

  lemma {:induction false} ClearedIsGone(after: Files, tuples: seq<Tuple>, p: Path)
    requires OthersGone(after, tuples) && Cleared(tuples, p) && !Wanted(tuples, p)
    ensures p !in after
  {
    var i :| 0 <= i < |tuples| && tuples[i].host.HostDir? && tuples[i].root <= p;
    assert p !in tuples[i].Targets();
  }

  /** The last call of a run, as one that made the requests of `c` leaves it. */
  lemma {:induction false} LastCallIsRight(md5: Md5, useCache: bool, s: State, calls: seq<Call>, c: Call,
                                           roots: map<Path, bool>)
    returns (before: Files, after: Files)
    requires Injective(md5) && Unnested(roots) && Sound(md5, s, roots, {})
    requires calls != [] && IsRun(md5, useCache, s, calls, roots)
    requires SameRequest(c, calls[|calls| - 1])
    ensures before == AfterCalls(md5, useCache, s, calls[..|calls| - 1]).device
    ensures after == AfterCalls(md5, useCache, s, calls).device
    ensures OthersStay(before, after, c.tuples, c.flag)
    ensures c.works ==> HasTrees(before, after, c.tuples, c.flag)
    ensures IsRun(md5, useCache, s, calls[..|calls| - 1], roots)
  {
    var n := |calls| - 1;
    var earlier, last := calls[..n], calls[n];
    before, after := AfterCalls(md5, useCache, s, earlier).device, AfterCalls(md5, useCache, s, calls).device;
    assert calls == earlier + [last];
    EveryCallHasTrees(md5, useCache, s, earlier, last, roots);
  }

  // ---------------------------------------------------------------------------------------------
  // Another attempt after a failed one: edited host files, other tuples, another flag

  /** The files a failed attempt from a true cache leaves dirty do not harm the next attempt. */
  ghost predicate NextIsHarmless(md5: Md5, s: State, tuples0: seq<Tuple>, flag0: bool,
                                 tuples1: seq<Tuple>, flag1: bool)
  {
    var plan := Gather(md5, true, s, tuples0, flag0);
    var next := State(s.device, plan.cache);
    forall i, p :: 0 <= i < |tuples1| && Touched(plan, flag0, p) && tuples1[i].root <= p ==>
      (Reuses(true, next, tuples1[i], flag1) ==>
         HarmlessAt(md5, plan.cache[tuples1[i].root].sums, tuples1[i], flag1, p))
  }

  lemma {:induction false} HarmlessNextIsRight(md5: Md5, s: State, tuples0: seq<Tuple>, flag0: bool,
                                               tuples1: seq<Tuple>, flag1: bool, roots: map<Path, bool>, n: nat,
                                               after: State)
    requires Injective(md5) && Fits(tuples0, roots) && Fits(tuples1, roots) && Unnested(roots)
    requires Sound(md5, s, roots, {}) && NextIsHarmless(md5, s, tuples0, flag0, tuples1, flag1)
    requires MayFailTo(md5, true, s, tuples0, flag0, n, after)
    ensures HasTrees(after.device, Succeed(md5, true, after, tuples1, flag1).device, tuples1, flag1)
  {
    var dirty := Dirtied(md5, true, s, tuples0, flag0, n, {});
    FailureStaysSound(md5, true, s, tuples0, flag0, roots, {}, n, after);
    assert tuples0[..|tuples0|] == tuples0;
    SoundIsReady(md5, true, after, tuples1, flag1, roots, dirty);
    SuccessHasTrees(md5, true, after, tuples1, flag1);
  }

  /** A dirty file is thought up to date, and the failed attempt may have removed it. */
  lemma {:induction false} LostFileIsMissed(md5: Md5, after: State, tuples: seq<Tuple>, flag: bool, i: nat, p: Path)
    requires Separate(tuples) && i < |tuples| && p in tuples[i].Targets() && p !in after.device
    requires UpToDate(md5, EntryOf(md5, true, after, tuples[i], flag).sums, p, tuples[i].Targets()[p])
    ensures !TargetsArrived(Succeed(md5, true, after, tuples, flag).device, tuples)
  {
    UpToDateIsNotPushed(md5, true, after, tuples, flag, i, p);
    AbsentStays(md5, true, after, tuples, flag, i, p);
  }

  lemma {:induction false} AbsentStays(md5: Md5, useCache: bool, s: State, tuples: seq<Tuple>, flag: bool, i: nat,
                                       p: Path)
    requires p !in s.device && p !in Gather(md5, useCache, s, tuples, flag).toPush
    requires i < |tuples| && p in tuples[i].Targets()
    ensures !TargetsArrived(Succeed(md5, useCache, s, tuples, flag).device, tuples)
  {
    assert p !in Succeed(md5, useCache, s, tuples, flag).device;
  }

  /** A dirty file is in no entry, so it is not deleted, and the failed attempt may have created it. */
  lemma {:induction false} NewFileIsLeft(md5: Md5, after: State, tuples: seq<Tuple>, flag: bool, i: nat, p: Path)
    requires Separate(tuples) && EntriesInside(md5, true, after, tuples, flag)
    requires i < |tuples| && tuples[i].host.HostDir? && tuples[i].root <= p && p !in tuples[i].Targets()
    requires p !in EntryOf(md5, true, after, tuples[i], flag).sums && p in after.device
    ensures !OthersGone(Succeed(md5, true, after, tuples, flag).device, tuples)
  {
    if p in Gather(md5, true, after, tuples, flag).stale {
      DropOfOwner(md5, true, after, tuples, flag, i, p);
      assert false;
    }
    assert p in Succeed(md5, true, after, tuples, flag).device;
  }

  lemma {:induction false} ChangeOneFile(md5: Md5, s: State, tuples: seq<Tuple>, flag: bool, p: Path, after: State)
    requires Touched(Gather(md5, true, s, tuples, flag), flag, p)
    requires after.device == s.device - {p} || after.device == s.device[p := ""]
    requires after.cache == Gather(md5, true, s, tuples, flag).cache
    ensures MayFailTo(md5, true, s, tuples, flag, |tuples|, after)
  {
    FullFailure(md5, true, s, tuples, flag, after);
  }

  /** What a harmful file is made to be by the failure that shows the harm. */
  lemma {:induction false} HarmBreaksNext(md5: Md5, s: State, tuples0: seq<Tuple>, flag0: bool, tuples1: seq<Tuple>,
                                          flag1: bool, roots: map<Path, bool>, i: nat, p: Path)
    returns (after: State)
    requires Injective(md5) && Fits(tuples0, roots) && Fits(tuples1, roots) && Unnested(roots)
    requires Sound(md5, s, roots, {})
    requires i < |tuples1| && tuples1[i].root <= p && Touched(Gather(md5, true, s, tuples0, flag0), flag0, p)
    requires Reuses(true, State(s.device, Gather(md5, true, s, tuples0, flag0).cache), tuples1[i], flag1)
    requires !HarmlessAt(md5, Gather(md5, true, s, tuples0, flag0).cache[tuples1[i].root].sums, tuples1[i], flag1, p)
    ensures MayFailTo(md5, true, s, tuples0, flag0, |tuples0|, after)
    ensures !HasTrees(after.device, Succeed(md5, true, after, tuples1, flag1).device, tuples1, flag1)
  {
    var cache := Gather(md5, true, s, tuples0, flag0).cache;
    if p in tuples1[i].Targets() {
      after := State(s.device - {p}, cache);
      ChangeOneFile(md5, s, tuples0, flag0, p, after);
      LostFileIsMissed(md5, after, tuples1, flag1, i, p);
    } else {
      after := State(s.device[p := ""], cache);
      ChangeOneFile(md5, s, tuples0, flag0, p, after);
      var dirty := Dirtied(md5, true, s, tuples0, flag0, |tuples0|, {});
      FailureStaysSound(md5, true, s, tuples0, flag0, roots, {}, |tuples0|, after);
      SoundEntriesInside(md5, after, tuples1, flag1, roots, dirty);
      NewFileIsLeft(md5, after, tuples1, flag1, i, p);
    }
  }

  lemma {:induction false} SoundEntriesInside(md5: Md5, s: State, tuples: seq<Tuple>, flag: bool,
                                              roots: map<Path, bool>, dirty: set<Path>)
    requires Fits(tuples, roots) && Sound(md5, s, roots, dirty)
    ensures EntriesInside(md5, true, s, tuples, flag)
  {
  }

  /**
   * With the cache on, the next attempt after a failed one, with host files edited, other tuples or another
   * flag, is right, whatever the failed attempt left, exactly if no file the failed attempt was about to write
   * or delete harms it.
   */
  lemma {:induction false} RerunIsRightIffHarmless(md5: Md5, s: State, tuples0: seq<Tuple>, flag0: bool,
                                                   tuples1: seq<Tuple>, flag1: bool, roots: map<Path, bool>)
    requires Injective(md5) && Fits(tuples0, roots) && Fits(tuples1, roots) && Unnested(roots)
    requires Sound(md5, s, roots, {})
    ensures NextIsHarmless(md5, s, tuples0, flag0, tuples1, flag1) <==>
      forall n, after :: MayFailTo(md5, true, s, tuples0, flag0, n, after) ==>
        HasTrees(after.device, Succeed(md5, true, after, tuples1, flag1).device, tuples1, flag1)
  {
    var plan := Gather(md5, true, s, tuples0, flag0);
    if NextIsHarmless(md5, s, tuples0, flag0, tuples1, flag1) {
      forall n, after | MayFailTo(md5, true, s, tuples0, flag0, n, after)
        ensures HasTrees(after.device, Succeed(md5, true, after, tuples1, flag1).device, tuples1, flag1)
      {
        HarmlessNextIsRight(md5, s, tuples0, flag0, tuples1, flag1, roots, n, after);
      }
    } else {
      var i, p :| 0 <= i < |tuples1| && tuples1[i].root <= p && Touched(plan, flag0, p)
        && Reuses(true, State(s.device, plan.cache), tuples1[i], flag1)
        && !HarmlessAt(md5, plan.cache[tuples1[i].root].sums, tuples1[i], flag1, p);
      var after := HarmBreaksNext(md5, s, tuples0, flag0, tuples1, flag1, roots, i, p);
    }
  }
}
