/**
 * `DeviceUtils.PushChangedFiles`: an incremental push that compares checksums, with a cache of the
 * checksums last seen or written on the device.
 *
 * A device path is the list of its components, so a trailing slash is a last component "". The device
 * is a map from paths to contents; the checksum is an injective parameter. An attempt may fail at any
 * device command and leave anything in the files it was about to write or delete.
 */
module DevicePush {
  type Path = seq<string>
  type Content = string
  type Sum = string
  type Md5 = Content -> Sum
  type Files = map<Path, Content>

  ghost predicate Injective(md5: Md5) {
    forall a, b :: md5(a) == md5(b) ==> a == b
  }

  /** What stands at the host path: one file, or a directory with the files below it by relative path. */
  datatype Host = HostFile(content: Content) | HostDir(files: Files)

  datatype Tuple = Tuple(host: Host, root: Path)
  {
    /** The device files this tuple asks for. */
    function Targets(): (r: Files)
      ensures forall p :: p in r ==> root <= p
    {
      match host
      case HostFile(content) => map[root := content]
      case HostDir(files) =>
        map p | p in (set rel | rel in files :: root + rel) :: files[p[|root|..]]
    }

    function IgnoreOthers(trackStale: bool): bool {
      !trackStale && host.HostDir?
    }
  }

  /** What a tuple asks for: the file at the root, or each file of the directory below the root. */
  lemma {:induction false} TargetsAre(t: Tuple)
    ensures t.host.HostFile? ==> t.Targets() == map[t.root := t.host.content]
    ensures t.host.HostDir? ==>
      && (forall rel :: rel in t.host.files ==>
            t.root + rel in t.Targets() && t.Targets()[t.root + rel] == t.host.files[rel])
      && forall p :: p in t.Targets() ==> exists rel :: rel in t.host.files && p == t.root + rel
  {
    if t.host.HostDir? {
      forall rel | rel in t.host.files
        ensures t.root + rel in t.Targets() && t.Targets()[t.root + rel] == t.host.files[rel]
      {
        assert (t.root + rel)[|t.root|..] == rel;
      }
    }
  }

  /** A cache entry for a root: were other files ignored, and the checksums by device path. */
  datatype Entry = Entry(ignoreOthers: bool, sums: map<Path, Sum>)

  datatype State = State(device: Files, cache: map<Path, Entry>)

  /** The device files whose checksums are computed: those of the host's files, or all below the root. */
  predicate Measured(t: Tuple, ignore: bool, p: Path) {
    if ignore then exists q :: q in t.Targets() && q <= p else t.root <= p
  }

  function DeviceSums(md5: Md5, device: Files, t: Tuple, ignore: bool): map<Path, Sum> {
    map p | p in device && Measured(t, ignore, p) :: md5(device[p])
  }

  /** Are the device checksums of the tuple taken from the cache? */
  predicate Reuses(useCache: bool, s: State, t: Tuple, flag: bool) {
    useCache && t.root in s.cache && s.cache[t.root].ignoreOthers == t.IgnoreOthers(flag)
  }

  /** The entry the device checksums of a tuple are taken from: the cached one, or one computed now. */
  function EntryOf(md5: Md5, useCache: bool, s: State, t: Tuple, flag: bool): Entry {
    var ignore := t.IgnoreOthers(flag);
    if Reuses(useCache, s, t, flag) then s.cache[t.root]
    else Entry(ignore, DeviceSums(md5, s.device, t, ignore))
  }

  function Measure(md5: Md5, useCache: bool, s: State, t: Tuple, flag: bool): State {
    s.(cache := s.cache[t.root := EntryOf(md5, useCache, s, t, flag)])
  }

  predicate UpToDate(md5: Md5, sums: map<Path, Sum>, p: Path, content: Content) {
    p in sums && sums[p] == md5(content)
  }

  function ToPush(md5: Md5, sums: map<Path, Sum>, t: Tuple): Files {
    map p | p in t.Targets() && !UpToDate(md5, sums, p, t.Targets()[p]) :: t.Targets()[p]
  }

  function Stale(sums: map<Path, Sum>, t: Tuple): set<Path> {
    if t.host.HostDir? then sums.Keys - t.Targets().Keys else {}
  }

  /** What the loop over the tuples collects: the cache, the files to push and the files to delete. */
  datatype Plan = Plan(cache: map<Path, Entry>, toPush: Files, stale: set<Path>)

  function Gather(md5: Md5, useCache: bool, s: State, tuples: seq<Tuple>, flag: bool): Plan
    decreases |tuples|
  {
    if tuples == [] then Plan(s.cache, map[], {})
    else
      var t, sums := tuples[0], EntryOf(md5, useCache, s, tuples[0], flag).sums;
      var rest := Gather(md5, useCache, Measure(md5, useCache, s, t, flag), tuples[1..], flag);
      Plan(rest.cache, ToPush(md5, sums, t) + rest.toPush, Stale(sums, t) + rest.stale)
  }

  /**
   * The entry committed after a push. For a single file the path relative to the host path is empty, so
   * its key is the root with a trailing slash, which is never looked up.
   */
  function Committed(md5: Md5, t: Tuple, flag: bool): Entry {
    match t.host
    case HostFile(content) => Entry(false, map[t.root + [""] := md5(content)])
    case HostDir(_) => Entry(!flag, map p | p in t.Targets() :: md5(t.Targets()[p]))
  }

  function CommitAll(md5: Md5, cache: map<Path, Entry>, tuples: seq<Tuple>, flag: bool): map<Path, Entry>
    decreases |tuples|
  {
    if tuples == [] then cache
    else CommitAll(md5, cache[tuples[0].root := Committed(md5, tuples[0], flag)], tuples[1..], flag)
  }

  /** An attempt in which every device command works. */
  function Succeed(md5: Md5, useCache: bool, s: State, tuples: seq<Tuple>, flag: bool): State {
    var plan := Gather(md5, useCache, s, tuples, flag);
    var kept := if flag then s.device - plan.stale else s.device;
    State(kept + plan.toPush, CommitAll(md5, plan.cache, tuples, flag))
  }

  predicate SameAt(a: Files, b: Files, p: Path) {
    (p in a <==> p in b) && (p in a ==> a[p] == b[p])
  }

  /** The two devices differ at most in the files the plan is about to push or delete. */
  ghost predicate DiffersByPlan(plan: Plan, flag: bool, before: Files, after: Files) {
    forall p :: p !in plan.toPush && !(flag && p in plan.stale) ==> SameAt(before, after, p)
  }

  /**
   * `after` is a state in which a failed attempt may leave things, if `n` tuples were measured: short of
   * all of them nothing was written, and with all of them the files to push or delete can be anything.
   */
  ghost predicate MayFailTo(md5: Md5, useCache: bool, s: State, tuples: seq<Tuple>, flag: bool, n: nat, after: State) {
    && n <= |tuples|
    && after.cache == Gather(md5, useCache, s, tuples[..n], flag).cache
    && (n < |tuples| ==> after.device == s.device)
    && DiffersByPlan(Gather(md5, useCache, s, tuples, flag), flag, s.device, after.device)
  }

  /** A failure after all tuples were measured. */
  lemma {:induction false} FullFailure(md5: Md5, useCache: bool, s: State, tuples: seq<Tuple>, flag: bool,
                                       after: State)
    requires after.cache == Gather(md5, useCache, s, tuples, flag).cache
    requires DiffersByPlan(Gather(md5, useCache, s, tuples, flag), flag, s.device, after.device)
    ensures MayFailTo(md5, useCache, s, tuples, flag, |tuples|, after)
  {
    assert tuples[..|tuples|] == tuples;
  }

  // ---------------------------------------------------------------------------------------------
  // What is asked of the tuples, and what the cache means

  predicate Separate(tuples: seq<Tuple>) {
    forall i, j :: 0 <= i < |tuples| && 0 <= j < |tuples| && i != j ==> !(tuples[i].root <= tuples[j].root)
  }

  /** Roots do not nest, over a whole run, and a root is always a file or always a directory. */
  predicate Fits(tuples: seq<Tuple>, roots: map<Path, bool>) {
    && Separate(tuples)
    && forall i :: 0 <= i < |tuples| ==> tuples[i].root in roots && roots[tuples[i].root] == tuples[i].host.HostDir?
  }

  predicate Unnested(roots: map<Path, bool>) {
    forall a, b :: a in roots && b in roots && a != b ==> !(a <= b)
  }

  /** What an entry says of the device is true, except perhaps of the files in `dirty`. */
  predicate SoundEntry(md5: Md5, device: Files, root: Path, isDir: bool, e: Entry, dirty: set<Path>) {
    if !isDir then root in e.sums && root !in dirty ==> root in device && md5(device[root]) == e.sums[root]
    else
      && (forall p :: p in e.sums ==> root <= p && (p !in dirty ==> p in device && md5(device[p]) == e.sums[p]))
      && (!e.ignoreOthers ==> forall p :: p in device && root <= p && p !in dirty ==> p in e.sums)
  }

  predicate Sound(md5: Md5, s: State, roots: map<Path, bool>, dirty: set<Path>) {
    && s.cache.Keys <= roots.Keys
    && forall r :: r in s.cache ==> SoundEntry(md5, s.device, r, roots[r], s.cache[r], dirty)
  }

  predicate Wanted(tuples: seq<Tuple>, p: Path) {
    exists i :: 0 <= i < |tuples| && p in tuples[i].Targets()
  }

  predicate Cleared(tuples: seq<Tuple>, p: Path) {
    exists i :: 0 <= i < |tuples| && tuples[i].host.HostDir? && tuples[i].root <= p
  }

  /** The device has the trees of the tuples and is otherwise as before. */
  ghost predicate HasTrees(before: Files, after: Files, tuples: seq<Tuple>, flag: bool) {
    TargetsArrived(after, tuples) && (flag ==> OthersGone(after, tuples)) && OthersStay(before, after, tuples, flag)
  }

  ghost predicate TargetsArrived(after: Files, tuples: seq<Tuple>) {
    forall i, p :: 0 <= i < |tuples| && p in tuples[i].Targets() ==> p in after && after[p] == tuples[i].Targets()[p]
  }

  ghost predicate OthersGone(after: Files, tuples: seq<Tuple>) {
    forall i, p :: 0 <= i < |tuples| && tuples[i].host.HostDir? && p in after && tuples[i].root <= p ==>
      p in tuples[i].Targets()
  }

  ghost predicate OthersStay(before: Files, after: Files, tuples: seq<Tuple>, flag: bool) {
    forall p :: !Wanted(tuples, p) && !(flag && Cleared(tuples, p)) ==> SameAt(before, after, p)
  }

  /** What is asked for determines the device. */
  lemma {:induction false} TreesAreUnique(before: Files, after0: Files, after1: Files, tuples: seq<Tuple>, flag: bool)
    requires HasTrees(before, after0, tuples, flag) && HasTrees(before, after1, tuples, flag)
    ensures after0 == after1
  {
    forall p ensures p in after0.Keys <==> p in after1.Keys {
      SameFile(before, after0, after1, tuples, flag, p);
    }
    forall p | p in after0 && p in after1 ensures after0[p] == after1[p] {
      SameFile(before, after0, after1, tuples, flag, p);
    }
    assert after0.Keys == after1.Keys;
  }

  lemma {:induction false} SameFile(before: Files, after0: Files, after1: Files, tuples: seq<Tuple>, flag: bool,
                                    p: Path)
    requires HasTrees(before, after0, tuples, flag) && HasTrees(before, after1, tuples, flag)
    ensures SameAt(after0, after1, p)
  {
    if Wanted(tuples, p) {
      var i :| 0 <= i < |tuples| && p in tuples[i].Targets();
    } else if flag && Cleared(tuples, p) {
      var i :| 0 <= i < |tuples| && tuples[i].host.HostDir? && tuples[i].root <= p;
      assert p !in tuples[i].Targets();
    }
  }

  // ---------------------------------------------------------------------------------------------
  // A batch, one path at a time

  /** Two tuples whose roots both stand above a path are the same tuple. */
  lemma {:induction false} OwnerIsUnique(tuples: seq<Tuple>, i: nat, j: nat, p: Path)
    requires Separate(tuples) && i < |tuples| && j < |tuples| && tuples[i].root <= p && tuples[j].root <= p
    ensures i == j
  {
    PrefixesNest(tuples[i].root, tuples[j].root, p);
  }

  lemma {:induction false} PrefixesNest(a: Path, b: Path, p: Path)
    requires a <= p && b <= p
    ensures a <= b || b <= a
  {
    if |a| <= |b| {
      assert a == b[..|a|];
    } else {
      assert b == a[..|b|];
    }
  }

  /** With separate roots, measuring one tuple does not change the entry of another. */
  lemma {:induction false} TailEntries(md5: Md5, useCache: bool, s: State, tuples: seq<Tuple>, flag: bool)
    requires Separate(tuples) && tuples != []
    ensures Separate(tuples[1..])
    ensures forall i :: 0 <= i < |tuples[1..]| ==> tuples[1..][i].root != tuples[0].root
    ensures forall i :: 0 <= i < |tuples[1..]| ==>
      EntryOf(md5, useCache, Measure(md5, useCache, s, tuples[0], flag), tuples[1..][i], flag)
        == EntryOf(md5, useCache, s, tuples[1..][i], flag)
  {
    var rest := tuples[1..];
    assert forall i :: 0 <= i < |rest| ==> rest[i] == tuples[i + 1];
  }

  ghost predicate Pushes(md5: Md5, useCache: bool, s: State, t: Tuple, flag: bool, p: Path) {
    p in ToPush(md5, EntryOf(md5, useCache, s, t, flag).sums, t)
  }

  ghost predicate Drops(md5: Md5, useCache: bool, s: State, t: Tuple, flag: bool, p: Path) {
    p in Stale(EntryOf(md5, useCache, s, t, flag).sums, t)
  }

  lemma {:induction false} PushedBy(md5: Md5, useCache: bool, s: State, tuples: seq<Tuple>, flag: bool, p: Path)
    requires Separate(tuples)
    ensures p in Gather(md5, useCache, s, tuples, flag).toPush <==>
      exists i :: 0 <= i < |tuples| && Pushes(md5, useCache, s, tuples[i], flag, p)
    decreases |tuples|
  {
    if tuples != [] {
      var rest, s1 := tuples[1..], Measure(md5, useCache, s, tuples[0], flag);
      assert forall i :: 0 <= i < |rest| ==> rest[i] == tuples[i + 1];
      TailEntries(md5, useCache, s, tuples, flag);
      PushedBy(md5, useCache, s1, rest, flag, p);
      if i :| 0 < i < |tuples| && Pushes(md5, useCache, s, tuples[i], flag, p) {
        assert Pushes(md5, useCache, s1, rest[i - 1], flag, p);
      }
      if i :| 0 <= i < |rest| && Pushes(md5, useCache, s1, rest[i], flag, p) {
        assert Pushes(md5, useCache, s, tuples[i + 1], flag, p);
      }
    }
  }

  lemma {:induction false} PushedByOne(md5: Md5, useCache: bool, s: State, tuples: seq<Tuple>, flag: bool, p: Path)
    returns (i: nat)
    requires Separate(tuples) && p in Gather(md5, useCache, s, tuples, flag).toPush
    ensures i < |tuples| && p in tuples[i].Targets() && tuples[i].root <= p
  {
    PushedBy(md5, useCache, s, tuples, flag, p);
    i :| 0 <= i < |tuples| && Pushes(md5, useCache, s, tuples[i], flag, p);
  }

  /** A file is pushed with the content of the tuple that wants it. */
  lemma {:induction false} PushedContent(md5: Md5, useCache: bool, s: State, tuples: seq<Tuple>, flag: bool, i: nat,
                                         p: Path)
    requires Separate(tuples) && i < |tuples| && p in tuples[i].Targets()
    requires p in Gather(md5, useCache, s, tuples, flag).toPush
    ensures Gather(md5, useCache, s, tuples, flag).toPush[p] == tuples[i].Targets()[p]
    decreases |tuples|
  {
    var rest, s1 := tuples[1..], Measure(md5, useCache, s, tuples[0], flag);
    TailEntries(md5, useCache, s, tuples, flag);
    var pushed0, pushed1 := ToPush(md5, EntryOf(md5, useCache, s, tuples[0], flag).sums, tuples[0]),
                            Gather(md5, useCache, s1, rest, flag).toPush;
    assert Gather(md5, useCache, s, tuples, flag).toPush == pushed0 + pushed1;
    if p in pushed1 {
      var j := PushedByOne(md5, useCache, s1, rest, flag, p);
      assert rest[j] == tuples[j + 1];
      OwnerIsUnique(tuples, i, j + 1, p);
      PushedContent(md5, useCache, s1, rest, flag, j, p);
    } else {
      OwnerIsUnique(tuples, i, 0, p);
    }
  }

  lemma {:induction false} StaleBy(md5: Md5, useCache: bool, s: State, tuples: seq<Tuple>, flag: bool, p: Path)
    requires Separate(tuples)
    ensures p in Gather(md5, useCache, s, tuples, flag).stale <==>
      exists i :: 0 <= i < |tuples| && Drops(md5, useCache, s, tuples[i], flag, p)
    decreases |tuples|
  {
    if tuples != [] {
      var rest, s1 := tuples[1..], Measure(md5, useCache, s, tuples[0], flag);
      assert forall i :: 0 <= i < |rest| ==> rest[i] == tuples[i + 1];
      TailEntries(md5, useCache, s, tuples, flag);
      StaleBy(md5, useCache, s1, rest, flag, p);
      if i :| 0 < i < |tuples| && Drops(md5, useCache, s, tuples[i], flag, p) {
        assert Drops(md5, useCache, s1, rest[i - 1], flag, p);
      }
      if i :| 0 <= i < |rest| && Drops(md5, useCache, s1, rest[i], flag, p) {
        assert Drops(md5, useCache, s, tuples[i + 1], flag, p);
      }
    }
  }

  /** The cache after measuring: the entries used, and otherwise the old ones. */
  lemma {:induction false} MeasuredBy(md5: Md5, useCache: bool, s: State, tuples: seq<Tuple>, flag: bool, r: Path)
    requires Separate(tuples)
    ensures var cache := Gather(md5, useCache, s, tuples, flag).cache;
      && (forall i :: 0 <= i < |tuples| && tuples[i].root == r ==>
            r in cache && cache[r] == EntryOf(md5, useCache, s, tuples[i], flag))
      && ((forall i :: 0 <= i < |tuples| ==> tuples[i].root != r) ==>
            (r in cache <==> r in s.cache) && (r in cache ==> cache[r] == s.cache[r]))
    decreases |tuples|
  {
    if tuples != [] {
      var rest, s1 := tuples[1..], Measure(md5, useCache, s, tuples[0], flag);
      assert forall i :: 0 < i < |tuples| ==> tuples[i] == rest[i - 1];
      TailEntries(md5, useCache, s, tuples, flag);
      MeasuredBy(md5, useCache, s1, rest, flag, r);
      assert forall i :: 0 <= i < |rest| ==> rest[i] == tuples[i + 1];
    }
  }

  lemma {:induction false} CommittedBy(md5: Md5, cache: map<Path, Entry>, tuples: seq<Tuple>, flag: bool, r: Path)
    requires Separate(tuples)
    ensures var after := CommitAll(md5, cache, tuples, flag);
      && (forall i :: 0 <= i < |tuples| && tuples[i].root == r ==>
            r in after && after[r] == Committed(md5, tuples[i], flag))
      && ((forall i :: 0 <= i < |tuples| ==> tuples[i].root != r) ==>
            (r in after <==> r in cache) && (r in after ==> after[r] == cache[r]))
    decreases |tuples|
  {
    if tuples != [] {
      var rest := tuples[1..];
      assert forall i :: 0 < i < |tuples| ==> tuples[i] == rest[i - 1];
      assert forall i :: 0 <= i < |rest| ==> rest[i] == tuples[i + 1];
      CommittedBy(md5, cache[tuples[0].root := Committed(md5, tuples[0], flag)], rest, flag, r);
    }
  }

  // ---------------------------------------------------------------------------------------------
  // Entries that lead to the right plan

  /** Pushing and deleting by this entry brings the device to the tuple's tree. */
  ghost predicate PlanIsRight(md5: Md5, device: Files, t: Tuple, flag: bool, e: Entry) {
    && e.ignoreOthers == t.IgnoreOthers(flag)
    && (forall p :: p in t.Targets() && UpToDate(md5, e.sums, p, t.Targets()[p]) ==>
          p in device && device[p] == t.Targets()[p])
    && (t.host.HostDir? ==> forall p :: p in e.sums ==> t.root <= p)
    && (flag && t.host.HostDir? ==> forall p :: p in device && t.root <= p ==> p in t.Targets() || p in e.sums)
  }

  ghost predicate Ready(md5: Md5, useCache: bool, s: State, tuples: seq<Tuple>, flag: bool) {
    forall i :: 0 <= i < |tuples| ==>
      PlanIsRight(md5, s.device, tuples[i], flag, EntryOf(md5, useCache, s, tuples[i], flag))
  }

  /** No dirty file is taken for up to date or missed as stale because of a cached entry. */
  predicate Harmless(md5: Md5, useCache: bool, s: State, t: Tuple, flag: bool, dirty: set<Path>) {
    Reuses(useCache, s, t, flag) ==>
      forall p :: p in dirty && t.root <= p ==> HarmlessAt(md5, s.cache[t.root].sums, t, flag, p)
  }

  predicate HarmlessAt(md5: Md5, sums: map<Path, Sum>, t: Tuple, flag: bool, p: Path) {
    if p in t.Targets() then !UpToDate(md5, sums, p, t.Targets()[p])
    else flag && t.host.HostDir? ==> p in sums
  }

  predicate AllHarmless(md5: Md5, useCache: bool, s: State, tuples: seq<Tuple>, flag: bool, dirty: set<Path>) {
    forall i :: 0 <= i < |tuples| ==> Harmless(md5, useCache, s, tuples[i], flag, dirty)
  }

  lemma {:induction false} SoundPlanIsRight(md5: Md5, useCache: bool, s: State, t: Tuple, flag: bool,
                                            dirty: set<Path>)
    requires Injective(md5) && Harmless(md5, useCache, s, t, flag, dirty)
    requires t.root in s.cache ==> SoundEntry(md5, s.device, t.root, t.host.HostDir?, s.cache[t.root], dirty)
    ensures PlanIsRight(md5, s.device, t, flag, EntryOf(md5, useCache, s, t, flag))
  {
    if !Reuses(useCache, s, t, flag) {
      ComputedIsSound(md5, s.device, t, flag);
    }
  }

  lemma {:induction false} ComputedIsSound(md5: Md5, device: Files, t: Tuple, flag: bool)
    ensures var ignore := t.IgnoreOthers(flag);
      SoundEntry(md5, device, t.root, t.host.HostDir?, Entry(ignore, DeviceSums(md5, device, t, ignore)), {})
  {
  }

  lemma {:induction false} SoundIsReady(md5: Md5, useCache: bool, s: State, tuples: seq<Tuple>, flag: bool,
                                        roots: map<Path, bool>, dirty: set<Path>)
    requires Injective(md5) && Fits(tuples, roots) && Sound(md5, s, roots, dirty)
    requires AllHarmless(md5, useCache, s, tuples, flag, dirty)
    ensures Ready(md5, useCache, s, tuples, flag)
  {
    forall i | 0 <= i < |tuples|
      ensures PlanIsRight(md5, s.device, tuples[i], flag, EntryOf(md5, useCache, s, tuples[i], flag))
    {
      SoundPlanIsRight(md5, useCache, s, tuples[i], flag, dirty);
    }
  }

  /** An attempt that works brings the device to the trees of the tuples and touches nothing else. */
  lemma {:induction false} SuccessHasTrees(md5: Md5, useCache: bool, s: State, tuples: seq<Tuple>, flag: bool)
    requires Separate(tuples) && Ready(md5, useCache, s, tuples, flag)
    ensures HasTrees(s.device, Succeed(md5, useCache, s, tuples, flag).device, tuples, flag)
  {
    var after := Succeed(md5, useCache, s, tuples, flag).device;
    assert TargetsArrived(after, tuples) by {
      forall i, p | 0 <= i < |tuples| && p in tuples[i].Targets()
        ensures p in after && after[p] == tuples[i].Targets()[p]
      {
        TargetArrives(md5, useCache, s, tuples, flag, i, p);
      }
    }
    assert flag ==> OthersGone(after, tuples) by {
      forall i, p | flag && 0 <= i < |tuples| && tuples[i].host.HostDir? && p in after && tuples[i].root <= p
        ensures p in tuples[i].Targets()
      {
        OthersGo(md5, useCache, s, tuples, flag, i, p);
      }
    }
    SuccessLeavesOthers(md5, useCache, s, tuples, flag);
  }

  lemma {:induction false} SuccessLeavesOthers(md5: Md5, useCache: bool, s: State, tuples: seq<Tuple>, flag: bool)
    requires Separate(tuples) && Ready(md5, useCache, s, tuples, flag)
    ensures OthersStay(s.device, Succeed(md5, useCache, s, tuples, flag).device, tuples, flag)
  {
    PlanStaysInside(md5, useCache, s, tuples, flag);
  }

  lemma {:induction false} TargetArrives(md5: Md5, useCache: bool, s: State, tuples: seq<Tuple>, flag: bool, i: nat,
                                         p: Path)
    requires Separate(tuples) && Ready(md5, useCache, s, tuples, flag) && i < |tuples| && p in tuples[i].Targets()
    ensures var after := Succeed(md5, useCache, s, tuples, flag).device;
      p in after && after[p] == tuples[i].Targets()[p]
  {
    PushedBy(md5, useCache, s, tuples, flag, p);
    if !Pushes(md5, useCache, s, tuples[i], flag, p) {
      assert UpToDate(md5, EntryOf(md5, useCache, s, tuples[i], flag).sums, p, tuples[i].Targets()[p]);
      TargetIsNotStale(md5, useCache, s, tuples, flag, i, p);
    }
    if p in Gather(md5, useCache, s, tuples, flag).toPush {
      PushedContent(md5, useCache, s, tuples, flag, i, p);
    }
  }

  lemma {:induction false} TargetIsNotStale(md5: Md5, useCache: bool, s: State, tuples: seq<Tuple>, flag: bool,
                                            i: nat, p: Path)
    requires Separate(tuples) && Ready(md5, useCache, s, tuples, flag) && i < |tuples| && p in tuples[i].Targets()
    ensures p !in Gather(md5, useCache, s, tuples, flag).stale
  {
    StaleBy(md5, useCache, s, tuples, flag, p);
    forall j | 0 <= j < |tuples| ensures !Drops(md5, useCache, s, tuples[j], flag, p) {
      if tuples[j].root <= p {
        OwnerIsUnique(tuples, i, j, p);
      }
    }
  }

  lemma {:induction false} OthersGo(md5: Md5, useCache: bool, s: State, tuples: seq<Tuple>, flag: bool, i: nat,
                                    p: Path)
    requires flag && Separate(tuples) && Ready(md5, useCache, s, tuples, flag)
    requires i < |tuples| && tuples[i].host.HostDir? && tuples[i].root <= p
    requires p in Succeed(md5, useCache, s, tuples, flag).device
    ensures p in tuples[i].Targets()
  {
    PushedBy(md5, useCache, s, tuples, flag, p);
    StaleBy(md5, useCache, s, tuples, flag, p);
    if j :| 0 <= j < |tuples| && Pushes(md5, useCache, s, tuples[j], flag, p) {
      OwnerIsUnique(tuples, i, j, p);
    } else {
      assert !Drops(md5, useCache, s, tuples[i], flag, p);
    }
  }

  /** The files an attempt may push or delete are wanted, or to be cleared. */
  lemma {:induction false} PlanStaysInside(md5: Md5, useCache: bool, s: State, tuples: seq<Tuple>, flag: bool)
    requires Separate(tuples) && Ready(md5, useCache, s, tuples, flag)
    ensures var plan := Gather(md5, useCache, s, tuples, flag);
      && (forall p :: p in plan.toPush ==> Wanted(tuples, p))
      && (forall p :: p in plan.stale ==> Cleared(tuples, p))
  {
    var plan := Gather(md5, useCache, s, tuples, flag);
    forall p | p in plan.toPush ensures Wanted(tuples, p) {
      PushedBy(md5, useCache, s, tuples, flag, p);
      var i :| 0 <= i < |tuples| && Pushes(md5, useCache, s, tuples[i], flag, p);
      assert p in tuples[i].Targets();
    }
    forall p | p in plan.stale ensures Cleared(tuples, p) {
      StaleBy(md5, useCache, s, tuples, flag, p);
      var i :| 0 <= i < |tuples| && Drops(md5, useCache, s, tuples[i], flag, p);
      assert tuples[i].host.HostDir? && tuples[i].root <= p;
    }
  }

  // ---------------------------------------------------------------------------------------------
  // An attempt that fails

  lemma {:induction false} UpToDateIsNotPushed(md5: Md5, useCache: bool, s: State, tuples: seq<Tuple>, flag: bool,
                                               i: nat, p: Path)
    requires Separate(tuples) && i < |tuples| && p in tuples[i].Targets()
    requires !Pushes(md5, useCache, s, tuples[i], flag, p)
    ensures p !in Gather(md5, useCache, s, tuples, flag).toPush
  {
    PushedBy(md5, useCache, s, tuples, flag, p);
    forall j | 0 <= j < |tuples| ensures !Pushes(md5, useCache, s, tuples[j], flag, p) {
      if tuples[j].root <= p {
        OwnerIsUnique(tuples, i, j, p);
      }
    }
  }

  /** Below a root, only the tuple of that root has files to push or delete. */
  lemma {:induction false} PushOfOwner(md5: Md5, useCache: bool, s: State, tuples: seq<Tuple>, flag: bool, i: nat,
                                       p: Path)
    requires Separate(tuples) && i < |tuples| && tuples[i].root <= p
    requires p in Gather(md5, useCache, s, tuples, flag).toPush
    ensures Pushes(md5, useCache, s, tuples[i], flag, p)
  {
    PushedBy(md5, useCache, s, tuples, flag, p);
    var j :| 0 <= j < |tuples| && Pushes(md5, useCache, s, tuples[j], flag, p);
    OwnerIsUnique(tuples, i, j, p);
  }

  /** The entries used name only files below their roots. */
  ghost predicate EntriesInside(md5: Md5, useCache: bool, s: State, tuples: seq<Tuple>, flag: bool) {
    forall i, p :: 0 <= i < |tuples| && Drops(md5, useCache, s, tuples[i], flag, p) ==> tuples[i].root <= p
  }

  lemma {:induction false} DropOfOwner(md5: Md5, useCache: bool, s: State, tuples: seq<Tuple>, flag: bool, i: nat,
                                       p: Path)
    requires Separate(tuples) && EntriesInside(md5, useCache, s, tuples, flag)
    requires i < |tuples| && tuples[i].root <= p
    requires p in Gather(md5, useCache, s, tuples, flag).stale
    ensures Drops(md5, useCache, s, tuples[i], flag, p)
  {
    StaleBy(md5, useCache, s, tuples, flag, p);
    var j :| 0 <= j < |tuples| && Drops(md5, useCache, s, tuples[j], flag, p);
    OwnerIsUnique(tuples, i, j, p);
  }

  /** The path is below the root of a tuple that was measured anew. */
  predicate Remeasured(useCache: bool, s: State, tuples: seq<Tuple>, flag: bool, n: nat, p: Path) {
    exists i :: 0 <= i < |tuples| && i < n && tuples[i].root <= p && !Reuses(useCache, s, tuples[i], flag)
  }

  predicate Touched(plan: Plan, flag: bool, p: Path) {
    p in plan.toPush || (flag && p in plan.stale)
  }

  /** The files the cache may be wrong about after an attempt that failed with `n` tuples measured. */
  function Dirtied(md5: Md5, useCache: bool, s: State, tuples: seq<Tuple>, flag: bool, n: nat,
                   dirty: set<Path>): (r: set<Path>)
    ensures forall p :: p in r <==>
      || (p in dirty && !Remeasured(useCache, s, tuples, flag, n, p))
      || (n >= |tuples| && Touched(Gather(md5, useCache, s, tuples, flag), flag, p))
  {
    var plan := Gather(md5, useCache, s, tuples, flag);
    var kept := set p | p in dirty && !Remeasured(useCache, s, tuples, flag, n, p);
    if n < |tuples| then kept else kept + plan.toPush.Keys + if flag then plan.stale else {}
  }

  lemma {:induction false} EntryOutlives(md5: Md5, before: Files, after: Files, root: Path, isDir: bool, e: Entry,
                                         dirty: set<Path>, dirty1: set<Path>)
    requires SoundEntry(md5, before, root, isDir, e, dirty)
    requires forall p :: root <= p && p !in dirty1 ==> p !in dirty && SameAt(before, after, p)
    ensures SoundEntry(md5, after, root, isDir, e, dirty1)
  {
  }

  predicate IsRootOf(tuples: seq<Tuple>, r: Path) {
    exists i :: 0 <= i < |tuples| && tuples[i].root == r
  }

  lemma {:induction false} ForeignFileStays(before: Files, after: Files, tuples: seq<Tuple>, flag: bool,
                                            roots: map<Path, bool>, r: Path, p: Path)
    requires Fits(tuples, roots) && Unnested(roots) && r in roots && !IsRootOf(tuples, r) && r <= p
    requires OthersStay(before, after, tuples, flag)
    ensures SameAt(before, after, p)
  {
    forall i | 0 <= i < |tuples| ensures !(tuples[i].root <= p) {
      if tuples[i].root <= p {
        PrefixesNest(tuples[i].root, r, p);
      }
    }
    assert !Wanted(tuples, p) && !Cleared(tuples, p);
  }

  lemma {:induction false} ForeignIsNotBelow(tuples: seq<Tuple>, roots: map<Path, bool>, i: nat, r: Path, p: Path)
    requires Fits(tuples, roots) && Unnested(roots) && r in roots && r <= p && i < |tuples| && tuples[i].root != r
    ensures !(tuples[i].root <= p)
  {
    if tuples[i].root <= p {
      PrefixesNest(tuples[i].root, r, p);
    }
  }

  /** What a failed attempt found of a file below the root of an entry it kept. */
  lemma {:induction false} KeptEntryStaysSound(md5: Md5, useCache: bool, s: State, tuples: seq<Tuple>, flag: bool,
                                               roots: map<Path, bool>, dirty: set<Path>, n: nat, after: State,
                                               r: Path)
    requires Fits(tuples, roots) && Unnested(roots) && Sound(md5, s, roots, dirty)
    requires MayFailTo(md5, useCache, s, tuples, flag, n, after) && r in s.cache
    requires forall i :: 0 <= i < n && tuples[i].root == r ==> Reuses(useCache, s, tuples[i], flag)
    ensures SoundEntry(md5, after.device, r, roots[r], s.cache[r], Dirtied(md5, useCache, s, tuples, flag, n, dirty))
  {
    var dirty1 := Dirtied(md5, useCache, s, tuples, flag, n, dirty);
    forall p | r <= p && p !in dirty1 ensures p !in dirty && SameAt(s.device, after.device, p) {
      if i :| 0 <= i < |tuples| && i < n && tuples[i].root <= p && !Reuses(useCache, s, tuples[i], flag) {
        ForeignIsNotBelow(tuples, roots, i, r, p);
        assert false;
      }
      assert !Remeasured(useCache, s, tuples, flag, n, p);
    }
    EntryOutlives(md5, s.device, after.device, r, roots[r], s.cache[r], dirty, dirty1);
  }

  lemma {:induction false} NewEntryIsSound(md5: Md5, useCache: bool, s: State, tuples: seq<Tuple>, flag: bool,
                                           dirty: set<Path>, n: nat, after: State, i: nat)
    requires MayFailTo(md5, useCache, s, tuples, flag, n, after) && i < n
    requires !Reuses(useCache, s, tuples[i], flag)
    ensures SoundEntry(md5, after.device, tuples[i].root, tuples[i].host.HostDir?,
                       EntryOf(md5, useCache, s, tuples[i], flag),
                       Dirtied(md5, useCache, s, tuples, flag, n, dirty))
  {
    var t := tuples[i];
    ComputedIsSound(md5, s.device, t, flag);
    EntryOutlives(md5, s.device, after.device, t.root, t.host.HostDir?, EntryOf(md5, useCache, s, t, flag), {},
                  Dirtied(md5, useCache, s, tuples, flag, n, dirty));
  }

  /** The entry in the cache after a failure with `n` tuples measured. */
  lemma {:induction false} EntryAfterFailure(md5: Md5, useCache: bool, s: State, tuples: seq<Tuple>, flag: bool,
                                             n: nat, after: State, r: Path)
    requires Separate(tuples) && MayFailTo(md5, useCache, s, tuples, flag, n, after)
    ensures forall i :: 0 <= i < n && tuples[i].root == r ==>
      r in after.cache && after.cache[r] == EntryOf(md5, useCache, s, tuples[i], flag)
    ensures (forall i :: 0 <= i < n ==> tuples[i].root != r) ==>
      (r in after.cache <==> r in s.cache) && (r in after.cache ==> after.cache[r] == s.cache[r])
  {
    var seen := tuples[..n];
    MeasuredBy(md5, useCache, s, seen, flag, r);
    assert forall i :: 0 <= i < n ==> seen[i] == tuples[i];
  }

  /** After a failed attempt the cache is true but for the dirty files. */
  lemma {:induction false} FailureStaysSound(md5: Md5, useCache: bool, s: State, tuples: seq<Tuple>, flag: bool,
                                             roots: map<Path, bool>, dirty: set<Path>, n: nat, after: State)
    requires Fits(tuples, roots) && Unnested(roots) && Sound(md5, s, roots, dirty)
    requires MayFailTo(md5, useCache, s, tuples, flag, n, after)
    ensures Sound(md5, after, roots, Dirtied(md5, useCache, s, tuples, flag, n, dirty))
  {
    var dirty1 := Dirtied(md5, useCache, s, tuples, flag, n, dirty);
    forall r | r in after.cache
      ensures r in roots && SoundEntry(md5, after.device, r, roots[r], after.cache[r], dirty1)
    {
      EntryAfterFailure(md5, useCache, s, tuples, flag, n, after, r);
      if i :| 0 <= i < n && tuples[i].root == r && !Reuses(useCache, s, tuples[i], flag) {
        NewEntryIsSound(md5, useCache, s, tuples, flag, dirty, n, after, i);
      } else {
        KeptEntryStaysSound(md5, useCache, s, tuples, flag, roots, dirty, n, after, r);
      }
    }
  }

  /** After a failed attempt no dirty file harms an attempt with the same tuples and flag. */
  lemma {:induction false} FailureStaysHarmless(md5: Md5, useCache: bool, s: State, tuples: seq<Tuple>, flag: bool,
                                                roots: map<Path, bool>, dirty: set<Path>, n: nat, after: State)
    requires Injective(md5) && Fits(tuples, roots) && Sound(md5, s, roots, dirty)
    requires AllHarmless(md5, useCache, s, tuples, flag, dirty)
    requires MayFailTo(md5, useCache, s, tuples, flag, n, after)
    ensures AllHarmless(md5, useCache, after, tuples, flag, Dirtied(md5, useCache, s, tuples, flag, n, dirty))
  {
    SoundIsReady(md5, useCache, s, tuples, flag, roots, dirty);
    forall i | 0 <= i < |tuples|
      ensures Harmless(md5, useCache, after, tuples[i], flag, Dirtied(md5, useCache, s, tuples, flag, n, dirty))
    {
      HarmlessAfterFailure(md5, useCache, s, tuples, flag, dirty, n, after, i);
    }
  }

  lemma {:induction false} HarmlessAfterFailure(md5: Md5, useCache: bool, s: State, tuples: seq<Tuple>, flag: bool,
                                                dirty: set<Path>, n: nat, after: State, i: nat)
    requires Separate(tuples) && Ready(md5, useCache, s, tuples, flag) && i < |tuples|
    requires Harmless(md5, useCache, s, tuples[i], flag, dirty)
    requires MayFailTo(md5, useCache, s, tuples, flag, n, after)
    ensures Harmless(md5, useCache, after, tuples[i], flag, Dirtied(md5, useCache, s, tuples, flag, n, dirty))
  {
    var t, plan := tuples[i], Gather(md5, useCache, s, tuples, flag);
    EntryAfterFailure(md5, useCache, s, tuples, flag, n, after, t.root);
    if Reuses(useCache, after, t, flag) {
      var sums := after.cache[t.root].sums;
      assert sums == if i < n then EntryOf(md5, useCache, s, t, flag).sums else s.cache[t.root].sums;
      forall p | p in Dirtied(md5, useCache, s, tuples, flag, n, dirty) && t.root <= p
        ensures HarmlessAt(md5, sums, t, flag, p)
      {
        if n == |tuples| && Touched(plan, flag, p) {
          TouchIsHarmless(md5, useCache, s, tuples, flag, i, p);
        } else {
          assert p in dirty && Reuses(useCache, s, t, flag);
        }
      }
    }
  }

  lemma {:induction false} TouchIsHarmless(md5: Md5, useCache: bool, s: State, tuples: seq<Tuple>, flag: bool, i: nat,
                                           p: Path)
    requires Separate(tuples) && Ready(md5, useCache, s, tuples, flag) && i < |tuples| && tuples[i].root <= p
    requires Touched(Gather(md5, useCache, s, tuples, flag), flag, p)
    ensures HarmlessAt(md5, EntryOf(md5, useCache, s, tuples[i], flag).sums, tuples[i], flag, p)
  {
    assert EntriesInside(md5, useCache, s, tuples, flag);
    if p in Gather(md5, useCache, s, tuples, flag).toPush {
      PushOfOwner(md5, useCache, s, tuples, flag, i, p);
    } else {
      DropOfOwner(md5, useCache, s, tuples, flag, i, p);
    }
  }

  // ---------------------------------------------------------------------------------------------
  // An attempt that works

  function Cleaned(tuples: seq<Tuple>, dirty: set<Path>): set<Path> {
    set p | p in dirty && forall i :: 0 <= i < |tuples| ==> !(tuples[i].root <= p)
  }

  /** After an attempt that works, the committed cache is true of the device under the roots named. */
  lemma {:induction false} SuccessIsSound(md5: Md5, useCache: bool, s: State, tuples: seq<Tuple>, flag: bool,
                                          roots: map<Path, bool>, dirty: set<Path>)
    requires Injective(md5) && Fits(tuples, roots) && Unnested(roots) && Sound(md5, s, roots, dirty)
    requires Ready(md5, useCache, s, tuples, flag)
    ensures Sound(md5, Succeed(md5, useCache, s, tuples, flag), roots, Cleaned(tuples, dirty))
  {
    var after := Succeed(md5, useCache, s, tuples, flag);
    SuccessHasTrees(md5, useCache, s, tuples, flag);
    forall r | r in after.cache
      ensures r in roots && SoundEntry(md5, after.device, r, roots[r], after.cache[r], Cleaned(tuples, dirty))
    {
      CommittedBy(md5, Gather(md5, useCache, s, tuples, flag).cache, tuples, flag, r);
      MeasuredBy(md5, useCache, s, tuples, flag, r);
      if i :| 0 <= i < |tuples| && tuples[i].root == r {
        CommittedIsSound(md5, s.device, after.device, tuples, flag, i);
        EntryOutlives(md5, after.device, after.device, r, roots[r], after.cache[r], {}, Cleaned(tuples, dirty));
      } else {
        assert !IsRootOf(tuples, r);
        ForeignEntryStaysSound(md5, s.device, after.device, tuples, flag, roots, r, after.cache[r], dirty);
      }
    }
  }

  lemma {:induction false} CommittedIsSound(md5: Md5, before: Files, after: Files, tuples: seq<Tuple>, flag: bool,
                                            i: nat)
    requires i < |tuples| && HasTrees(before, after, tuples, flag)
    ensures SoundEntry(md5, after, tuples[i].root, tuples[i].host.HostDir?, Committed(md5, tuples[i], flag), {})
  {
  }

  /** Entries of roots the call does not name stay as true as they were. */
  lemma {:induction false} ForeignEntryStaysSound(md5: Md5, before: Files, after: Files, tuples: seq<Tuple>,
                                                  flag: bool, roots: map<Path, bool>, r: Path, e: Entry,
                                                  dirty: set<Path>)
    requires Fits(tuples, roots) && Unnested(roots) && r in roots && !IsRootOf(tuples, r)
    requires OthersStay(before, after, tuples, flag) && SoundEntry(md5, before, r, roots[r], e, dirty)
    ensures SoundEntry(md5, after, r, roots[r], e, Cleaned(tuples, dirty))
  {
    forall p | r <= p && p !in Cleaned(tuples, dirty) ensures p !in dirty && SameAt(before, after, p) {
      ForeignFileStays(before, after, tuples, flag, roots, r, p);
      forall i | 0 <= i < |tuples| ensures !(tuples[i].root <= p) {
        ForeignIsNotBelow(tuples, roots, i, r, p);
      }
    }
    EntryOutlives(md5, before, after, r, roots[r], e, dirty, Cleaned(tuples, dirty));
  }

  // ---------------------------------------------------------------------------------------------
  // What the cache saves

  /** The entry committed for a single file never saves a push. */
  lemma {:induction false} FileEntryNeverHits(md5: Md5, useCache: bool, s: State, tuples: seq<Tuple>, flag: bool,
                                              flag1: bool, i: nat)
    requires Separate(tuples) && i < |tuples| && tuples[i].host.HostFile?
    ensures Pushes(md5, true, Succeed(md5, useCache, s, tuples, flag), tuples[i], flag1, tuples[i].root)
  {
    var t, after := tuples[i], Succeed(md5, useCache, s, tuples, flag);
    CommittedBy(md5, Gather(md5, useCache, s, tuples, flag).cache, tuples, flag, t.root);
    var e := Committed(md5, t, flag);
    assert after.cache[t.root] == e && EntryOf(md5, true, after, t, flag1) == e;
    assert t.root !in e.sums;
  }

  /** The entry committed for a directory is used by the next call, which then finds nothing to push or delete. */
  lemma {:induction false} DirectoryEntryHits(md5: Md5, useCache: bool, s: State, tuples: seq<Tuple>, flag: bool,
                                              i: nat, device: Files, p: Path)
    requires Separate(tuples) && i < |tuples| && tuples[i].host.HostDir?
    ensures var again := State(device, Succeed(md5, useCache, s, tuples, flag).cache);
      !Pushes(md5, true, again, tuples[i], flag, p) && !Drops(md5, true, again, tuples[i], flag, p)
  {
    var t, again := tuples[i], State(device, Succeed(md5, useCache, s, tuples, flag).cache);
    CommittedBy(md5, Gather(md5, useCache, s, tuples, flag).cache, tuples, flag, t.root);
    var e := Committed(md5, t, flag);
    assert again.cache[t.root] == e && EntryOf(md5, true, again, t, flag) == e;
  }

  /** Without the cache that push is saved: the device has the file already. */
  lemma {:induction false} UncachedFileHits(md5: Md5, s: State, tuples: seq<Tuple>, flag: bool, flag1: bool, i: nat)
    requires Injective(md5) && Separate(tuples) && i < |tuples| && tuples[i].host.HostFile?
    ensures !Pushes(md5, false, Succeed(md5, false, s, tuples, flag), tuples[i], flag1, tuples[i].root)
  {
    UncachedIsReady(md5, s, tuples, flag);
    var t, after := tuples[i], Succeed(md5, false, s, tuples, flag);
    TargetArrives(md5, false, s, tuples, flag, i, t.root);
    FileIsMeasured(md5, after, t, flag1);
  }

  /**
   * With the cache off an attempt pushes just the files of its tuples that the device lacks or has otherwise,
   * and with the flag deletes just those below its directory roots that the host lacks.
   */
  lemma {:induction false} UncachedPlanIsExact(md5: Md5, s: State, tuples: seq<Tuple>, flag: bool, i: nat, p: Path)
    requires Injective(md5) && Separate(tuples) && i < |tuples| && tuples[i].root <= p
    ensures var t, plan := tuples[i], Gather(md5, false, s, tuples, flag);
      && (p in plan.toPush <==> p in t.Targets() && !(p in s.device && s.device[p] == t.Targets()[p]))
      && (flag ==> (p in plan.stale <==> t.host.HostDir? && p in s.device && p !in t.Targets()))
  {
    UncachedIsReady(md5, s, tuples, flag);
    assert EntriesInside(md5, false, s, tuples, flag);
    PushedBy(md5, false, s, tuples, flag, p);
    StaleBy(md5, false, s, tuples, flag, p);
    if p in Gather(md5, false, s, tuples, flag).toPush {
      PushOfOwner(md5, false, s, tuples, flag, i, p);
    }
    if p in Gather(md5, false, s, tuples, flag).stale {
      DropOfOwner(md5, false, s, tuples, flag, i, p);
    }
    TargetIsMeasured(md5, s.device, tuples[i], flag, p);
  }

  lemma {:induction false} TargetIsMeasured(md5: Md5, device: Files, t: Tuple, flag: bool, p: Path)
    requires Injective(md5) && t.root <= p
    ensures var sums := DeviceSums(md5, device, t, t.IgnoreOthers(flag));
      && (p in t.Targets() ==> (UpToDate(md5, sums, p, t.Targets()[p]) <==> p in device && device[p] == t.Targets()[p]))
      && (flag ==> (p in sums <==> p in device))
  {
  }

  lemma {:induction false} FileIsMeasured(md5: Md5, s: State, t: Tuple, flag: bool)
    requires t.host.HostFile? && t.root in s.device && s.device[t.root] == t.host.content
    ensures !Pushes(md5, false, s, t, flag, t.root)
  {
    assert UpToDate(md5, EntryOf(md5, false, s, t, flag).sums, t.root, t.host.content);
  }

  lemma {:induction false} ComputedPlanIsRight(md5: Md5, device: Files, t: Tuple, flag: bool)
    requires Injective(md5)
    ensures PlanIsRight(md5, device, t, flag,
                        Entry(t.IgnoreOthers(flag), DeviceSums(md5, device, t, t.IgnoreOthers(flag))))
  {
    SoundPlanIsRight(md5, false, State(device, map[]), t, flag, {});
  }

  /** With the cache off, an attempt that works is right from any state at all. */
  lemma {:induction false} UncachedIsAlwaysRight(md5: Md5, s: State, tuples: seq<Tuple>, flag: bool)
    requires Injective(md5) && Separate(tuples)
    ensures HasTrees(s.device, Succeed(md5, false, s, tuples, flag).device, tuples, flag)
  {
    UncachedIsReady(md5, s, tuples, flag);
    SuccessHasTrees(md5, false, s, tuples, flag);
  }

  lemma {:induction false} UncachedIsReady(md5: Md5, s: State, tuples: seq<Tuple>, flag: bool)
    requires Injective(md5)
    ensures Ready(md5, false, s, tuples, flag)
  {
    forall i | 0 <= i < |tuples|
      ensures PlanIsRight(md5, s.device, tuples[i], flag, EntryOf(md5, false, s, tuples[i], flag))
    {
      ComputedPlanIsRight(md5, s.device, tuples[i], flag);
    }
  }

  // ---------------------------------------------------------------------------------------------
  // The object

  /** What the device does to an attempt: at most one command fails, and leaves `left` in the files it was to write. */
  datatype Fault = NoFault | MeasureFault(at: nat) | RmFault(left: Files) | PushFault(left: Files)

  /** The attempt comes to the command that fails: a measurement, a removal of something or a push of something. */
  predicate IsMet(fault: Fault, plan: Plan, count: nat, flag: bool) {
    match fault
    case NoFault => false
    case MeasureFault(at) => at < count
    case RmFault(_) => flag && plan.stale != {}
    case PushFault(_) => plan.toPush != map[]
  }

  /** A failing command spoils no files but its own, and those after it are not run. */
  ghost predicate StoppedBy(fault: Fault, plan: Plan, flag: bool, before: Files, after: Files) {
    match fault
    case NoFault => false
    case MeasureFault(_) => after == before
    case RmFault(_) => forall p :: p !in plan.stale ==> SameAt(before, after, p)
    case PushFault(_) =>
      forall p :: p !in plan.toPush ==> SameAt(if flag then before - plan.stale else before, after, p)
  }

  /** One more tuple at the end of the loop. */
  function Extend(md5: Md5, useCache: bool, device: Files, plan: Plan, t: Tuple, flag: bool): Plan {
    var s := State(device, plan.cache);
    var sums := EntryOf(md5, useCache, s, t, flag).sums;
    Plan(Measure(md5, useCache, s, t, flag).cache, plan.toPush + ToPush(md5, sums, t), plan.stale + Stale(sums, t))
  }

  lemma {:induction false} GatherSnoc(md5: Md5, useCache: bool, s: State, tuples: seq<Tuple>, t: Tuple, flag: bool)
    ensures Gather(md5, useCache, s, tuples + [t], flag)
         == Extend(md5, useCache, s.device, Gather(md5, useCache, s, tuples, flag), t, flag)
    decreases |tuples|
  {
    if tuples == [] {
      assert ([t])[1..] == [];
    } else {
      var s1, sums0 := Measure(md5, useCache, s, tuples[0], flag), EntryOf(md5, useCache, s, tuples[0], flag).sums;
      var rest := Gather(md5, useCache, s1, tuples[1..], flag);
      assert (tuples + [t])[0] == tuples[0] && (tuples + [t])[1..] == tuples[1..] + [t];
      GatherSnoc(md5, useCache, s1, tuples[1..], t, flag);
      var sums := EntryOf(md5, useCache, State(s.device, rest.cache), t, flag).sums;
      MergeAssociates(ToPush(md5, sums0, tuples[0]), rest.toPush, ToPush(md5, sums, t));
      UnionAssociates(Stale(sums0, tuples[0]), rest.stale, Stale(sums, t));
    }
  }

  lemma {:induction false} GatherPrefix(md5: Md5, useCache: bool, s: State, tuples: seq<Tuple>, i: nat, flag: bool)
    requires i < |tuples|
    ensures Gather(md5, useCache, s, tuples[..i + 1], flag)
         == Extend(md5, useCache, s.device, Gather(md5, useCache, s, tuples[..i], flag), tuples[i], flag)
  {
    GatherSnoc(md5, useCache, s, tuples[..i], tuples[i], flag);
    assert tuples[..i] + [tuples[i]] == tuples[..i + 1];
  }

  lemma {:induction false} MergeAssociates(a: Files, b: Files, c: Files)
    ensures a + (b + c) == (a + b) + c
  {
  }

  lemma {:induction false} UnionAssociates(a: set<Path>, b: set<Path>, c: set<Path>)
    ensures a + (b + c) == (a + b) + c
  {
  }

  lemma {:induction false} MeasureFaultFails(md5: Md5, useCache: bool, s: State, tuples: seq<Tuple>, flag: bool,
                                             n: nat, after: State)
    requires n < |tuples| && after == State(s.device, Gather(md5, useCache, s, tuples[..n], flag).cache)
    ensures MayFailTo(md5, useCache, s, tuples, flag, n, after)
  {
  }

  /** A failing `rm` or push leaves a state in which a failed attempt may leave things. */
  lemma {:induction false} StoppedMayFail(md5: Md5, useCache: bool, s: State, tuples: seq<Tuple>, flag: bool,
                                          plan: Plan, fault: Fault, after: State)
    requires plan == Gather(md5, useCache, s, tuples, flag) && after.cache == plan.cache
    requires IsMet(fault, plan, 0, flag) && StoppedBy(fault, plan, flag, s.device, after.device)
    ensures MayFailTo(md5, useCache, s, tuples, flag, |tuples|, after)
  {
    FullFailure(md5, useCache, s, tuples, flag, after);
  }

  function Scribbled(device: Files, touched: set<Path>, left: Files): Files {
    (device - touched) + (map p | p in left && p in touched :: left[p])
  }

  lemma {:induction false} CommitStep(md5: Md5, cache: map<Path, Entry>, tuples: seq<Tuple>, i: nat, flag: bool)
    requires i < |tuples|
    ensures CommitAll(md5, cache, tuples[i..], flag)
         == CommitAll(md5, cache[tuples[i].root := Committed(md5, tuples[i], flag)], tuples[i + 1..], flag)
  {
    assert tuples[i..][1..] == tuples[i + 1..];
  }

  predicate AreCommits(md5: Md5, commits: seq<Entry>, tuples: seq<Tuple>, flag: bool) {
    && |commits| <= |tuples|
    && forall k :: 0 <= k < |commits| ==> commits[k] == Committed(md5, tuples[k], flag)
  }

  /** The loop over the host checksums: a device checksum is taken out as its file is met, and the rest is stale. */
  method Compare(md5: Md5, sums: map<Path, Sum>, t: Tuple) returns (toPush: Files, toDelete: set<Path>)
    ensures toPush == ToPush(md5, sums, t)
    ensures toDelete == Stale(sums, t)
  {
    toPush, toDelete := map[], {};
    var wanted := t.Targets();
    var left, others := wanted.Keys, sums.Keys;
    while left != {}
      invariant left <= wanted.Keys
      invariant toPush == map p | p in wanted && p !in left && !UpToDate(md5, sums, p, wanted[p]) :: wanted[p]
      invariant others == sums.Keys - (wanted.Keys - left)
    {
      var p :| p in left;
      if !UpToDate(md5, sums, p, wanted[p]) {
        toPush := toPush[p := wanted[p]];
      }
      others, left := others - {p}, left - {p};
    }
    if t.host.HostDir? {
      toDelete := others;
    }
  }

  class DeviceUtils {
    const md5: Md5
    const enableDeviceFilesCache: bool
    var device: Files
    var devicePathChecksums: map<Path, Entry>

    constructor (md5: Md5, enableDeviceFilesCache: bool, device: Files)
      ensures this.md5 == md5 && this.enableDeviceFilesCache == enableDeviceFilesCache
      ensures Now() == State(device, map[])
    {
      this.md5, this.enableDeviceFilesCache, this.device := md5, enableDeviceFilesCache, device;
      devicePathChecksums := map[];
    }

    function Now(): State
      reads this
    {
      State(device, devicePathChecksums)
    }

    method GetChangedAndStaleFiles(t: Tuple, trackStale: bool)
      returns (toPush: Files, toDelete: set<Path>, commit: Entry)
      modifies this`devicePathChecksums
      ensures Now() == Measure(md5, enableDeviceFilesCache, old(Now()), t, trackStale)
      ensures toPush == ToPush(md5, EntryOf(md5, enableDeviceFilesCache, old(Now()), t, trackStale).sums, t)
      ensures toDelete == Stale(EntryOf(md5, enableDeviceFilesCache, old(Now()), t, trackStale).sums, t)
      ensures commit == Committed(md5, t, trackStale)
    {
      var ignore := t.IgnoreOthers(trackStale);
      var sums;
      if enableDeviceFilesCache && t.root in devicePathChecksums && devicePathChecksums[t.root].ignoreOthers == ignore {
        sums := devicePathChecksums[t.root].sums;
      } else {
        sums := DeviceSums(md5, device, t, ignore);
        devicePathChecksums := devicePathChecksums[t.root := Entry(ignore, sums)];
      }
      ghost var e := EntryOf(md5, enableDeviceFilesCache, old(Now()), t, trackStale);
      assert sums == e.sums && devicePathChecksums == old(devicePathChecksums)[t.root := e];
      toPush, toDelete := Compare(md5, sums, t);
      commit := Committed(md5, t, trackStale);
    }

    method PushChangedFiles(tuples: seq<Tuple>, deleteDeviceStale: bool, fault: Fault) returns (ok: bool)
      modifies this
      ensures var plan := Gather(md5, enableDeviceFilesCache, old(Now()), tuples, deleteDeviceStale);
        && (ok <==> !IsMet(fault, plan, |tuples|, deleteDeviceStale))
        && (!ok ==> StoppedBy(fault, plan, deleteDeviceStale, old(device), device))
      ensures ok ==> Now() == Succeed(md5, enableDeviceFilesCache, old(Now()), tuples, deleteDeviceStale)
      ensures !ok ==>
        var n := if fault.MeasureFault? then fault.at else |tuples|;
        MayFailTo(md5, enableDeviceFilesCache, old(Now()), tuples, deleteDeviceStale, n, Now())
    {
      ghost var s0 := Now();
      var changed, stale, commits;
      ok, changed, stale, commits := Collect(s0, tuples, deleteDeviceStale, fault);
      if !ok {
        MeasureFaultFails(md5, enableDeviceFilesCache, s0, tuples, deleteDeviceStale, fault.at, Now());
        return;
      }
      ghost var plan := Plan(devicePathChecksums, changed, stale);
      ok := RunCommands(plan, changed, stale, deleteDeviceStale, fault);
      if !ok {
        StoppedMayFail(md5, enableDeviceFilesCache, s0, tuples, deleteDeviceStale, plan, fault, Now());
        return;
      }
      Commit(tuples, deleteDeviceStale, commits);
    }

    method RunCommands(ghost plan: Plan, changed: Files, stale: set<Path>, deleteDeviceStale: bool, fault: Fault)
      returns (ok: bool)
      requires plan.toPush == changed && plan.stale == stale
      modifies this`device
      ensures ok <==> !IsMet(fault, plan, 0, deleteDeviceStale)
      ensures ok ==> device == (if deleteDeviceStale then old(device) - stale else old(device)) + changed
      ensures !ok ==> StoppedBy(fault, plan, deleteDeviceStale, old(device), device)
    {
      if deleteDeviceStale {
        ok := RemoveFiles(stale, fault);
        if !ok {
          return;
        }
      }
      ok := PushFilesImpl(changed, fault);
    }

    method RemoveFiles(stale: set<Path>, fault: Fault) returns (ok: bool)
      modifies this`device
      ensures ok <==> !(fault.RmFault? && stale != {})
      ensures device == if ok then old(device) - stale else Scribbled(old(device), stale, fault.left)
    {
      if stale != {} {
        if fault.RmFault? {
          device := Scribbled(device, stale, fault.left);
          return false;
        }
        device := device - stale;
      }
      return true;
    }

    method PushFilesImpl(files: Files, fault: Fault) returns (ok: bool)
      modifies this`device
      ensures ok <==> !(fault.PushFault? && files != map[])
      ensures device == if ok then old(device) + files else Scribbled(old(device), files.Keys, fault.left)
    {
      if files != map[] {
        if fault.PushFault? {
          device := Scribbled(device, files.Keys, fault.left);
          return false;
        }
        device := device + files;
      }
      return true;
    }

    /** The loop over the tuples, which a failing checksum command leaves. */
    method Collect(ghost s0: State, tuples: seq<Tuple>, deleteDeviceStale: bool, fault: Fault)
      returns (ok: bool, changed: Files, stale: set<Path>, commits: seq<Entry>)
      requires s0 == Now()
      modifies this`devicePathChecksums
      ensures AreCommits(md5, commits, tuples, deleteDeviceStale)
      ensures ok ==> |commits| == |tuples|
      ensures ok ==>
        Plan(devicePathChecksums, changed, stale) == Gather(md5, enableDeviceFilesCache, s0, tuples, deleteDeviceStale)
      ensures ok <==> !(fault.MeasureFault? && fault.at < |tuples|)
      ensures !ok ==>
        devicePathChecksums == Gather(md5, enableDeviceFilesCache, s0, tuples[..fault.at], deleteDeviceStale).cache
    {
      changed, stale, commits := map[], {}, [];
      for i := 0 to |tuples|
        invariant |commits| == i && AreCommits(md5, commits, tuples, deleteDeviceStale)
        invariant !(fault.MeasureFault? && fault.at < i)
        invariant Plan(devicePathChecksums, changed, stale)
               == Gather(md5, enableDeviceFilesCache, s0, tuples[..i], deleteDeviceStale)
      {
        if fault.MeasureFault? && fault.at == i {
          return false, changed, stale, commits;
        }
        var commit;
        changed, stale, commit := CollectOne(s0, tuples, i, deleteDeviceStale, changed, stale);
        commits := commits + [commit];
      }
      assert tuples[..|tuples|] == tuples;
      ok := true;
    }

    /** One turn of that loop. */
    method CollectOne(ghost s0: State, tuples: seq<Tuple>, i: nat, deleteDeviceStale: bool,
                      changed0: Files, stale0: set<Path>)
      returns (changed: Files, stale: set<Path>, commit: Entry)
      requires i < |tuples| && device == s0.device
      requires Plan(devicePathChecksums, changed0, stale0)
            == Gather(md5, enableDeviceFilesCache, s0, tuples[..i], deleteDeviceStale)
      modifies this`devicePathChecksums
      ensures Plan(devicePathChecksums, changed, stale)
           == Gather(md5, enableDeviceFilesCache, s0, tuples[..i + 1], deleteDeviceStale)
      ensures commit == Committed(md5, tuples[i], deleteDeviceStale)
    {
      GatherPrefix(md5, enableDeviceFilesCache, s0, tuples, i, deleteDeviceStale);
      var toPush, toDelete;
      toPush, toDelete, commit := GetChangedAndStaleFiles(tuples[i], deleteDeviceStale);
      changed, stale := changed0 + toPush, stale0 + toDelete;
    }

    method Commit(tuples: seq<Tuple>, deleteDeviceStale: bool, commits: seq<Entry>)
      requires |commits| == |tuples| && AreCommits(md5, commits, tuples, deleteDeviceStale)
      modifies this`devicePathChecksums
      ensures devicePathChecksums == CommitAll(md5, old(devicePathChecksums), tuples, deleteDeviceStale)
    {
      for i := 0 to |tuples|
        invariant CommitAll(md5, devicePathChecksums, tuples[i..], deleteDeviceStale)
               == CommitAll(md5, old(devicePathChecksums), tuples, deleteDeviceStale)
      {
        CommitStep(md5, devicePathChecksums, tuples, i, deleteDeviceStale);
        devicePathChecksums := devicePathChecksums[tuples[i].root := commits[i]];
      }
    }
  }
}
