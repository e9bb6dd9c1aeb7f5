/**
 * `DeviceUtils` and the APKs of a package: the cached path list and the cached set of checksums, and the
 * install and uninstall calls that use and update them.
 *
 * An APK carries its split name; the device keeps at most one APK per package and split name. The checksum
 * is an injective parameter. Every device command may raise; a failed install or uninstall leaves any
 * installation behind.
 */
module ApkCache {
  import opened Wrappers

  type Package = string
  type Path = string
  type Sum = string

  datatype Apk = Apk(split: string, bytes: string)

  type Md5 = Apk -> Sum
  type Installation = map<Path, Apk>

  ghost predicate Injective(md5: Md5) {
    forall a, b :: md5(a) == md5(b) ==> a == b
  }

  datatype State = State(
    device: map<Package, Installation>,
    paths: map<Package, set<Path>>,
    sums: map<Package, set<Sum>>,
    toVerify: set<Package>)
  {
    function On(p: Package): Installation {
      if p in device then device[p] else map[]
    }
  }

  function SetOf(apks: seq<Apk>): (r: set<Apk>)
    ensures forall a :: a in r <==> a in apks
    ensures r == {} <==> apks == []
  {
    assert apks != [] ==> apks[0] in set a | a in apks;
    set a | a in apks
  }

  function SumsOf(md5: Md5, apks: set<Apk>): set<Sum> {
    set a | a in apks :: md5(a)
  }

  /** Which of the commands of a path query raise. */
  datatype Query = Query(existsRaises: bool, pmRaises: bool)

  datatype Outcome = Works(left: Installation) | Raises(left: Installation)

  /** One attempt to uninstall; a call retries until one works. */
  datatype Attempt = Attempt(query: Query, uninstall: Outcome)

  /** What the device does during one call: which commands raise, and what install and uninstall leave. */
  datatype Env = Env(query: Query, hostMd5Raises: bool, deviceMd5Raises: bool, uninstalls: seq<Attempt>,
                     install: Outcome, finishRaises: bool)

  predicate OnePerSplit(i: Installation) {
    forall p, q :: p in i && q in i && i[p].split == i[q].split ==> p == q
  }

  // ---------------------------------------------------------------------------------------------
  // The operations

  /** `_GetApplicationPathsInternal`; no result is an exception. */
  function GetPaths(s: State, pkg: Package, q: Query): (State, Option<set<Path>>) {
    if pkg in s.paths && pkg !in s.toVerify then (s, Some(s.paths[pkg]))
    else if pkg in s.paths then
      var marked := s.(toVerify := s.toVerify - {pkg});
      if s.paths[pkg] == {} then (marked, Some({}))
      else if q.existsRaises then (marked, None)
      else if s.paths[pkg] <= s.On(pkg).Keys then (marked, Some(s.paths[pkg]))
      else AskDevice(marked.(sums := s.sums - {pkg}), pkg, q)
    else AskDevice(s, pkg, q)
  }

  function AskDevice(s: State, pkg: Package, q: Query): (State, Option<set<Path>>) {
    if q.pmRaises then (s, None)
    else (s.(paths := s.paths[pkg := s.On(pkg).Keys]), Some(s.On(pkg).Keys))
  }

  function Forget(s: State, pkg: Package): State {
    s.(paths := s.paths - {pkg}, sums := s.sums - {pkg})
  }

  /** What a failed command leaves. */
  function Wreck(s: State, pkg: Package, left: Installation): State {
    if OnePerSplit(left) then s.(device := s.device[pkg := left]) else s
  }

  function TryUninstall(s: State, pkg: Package, a: Attempt): (State, bool) {
    var (s1, paths) := GetPaths(s, pkg, a.query);
    if paths.None? then (s1, false)
    else if paths.value == {} then (s1, true)
    else if a.uninstall.Raises? then (Forget(Wreck(s1, pkg, a.uninstall.left), pkg), false)
    else (s1.(device := s1.device[pkg := map[]], paths := s1.paths[pkg := {}], sums := s1.sums[pkg := {}]), true)
  }

  /** `Uninstall` with its retries. */
  function Uninstall(s: State, pkg: Package, attempts: seq<Attempt>): (State, bool)
    decreases |attempts|
  {
    if attempts == [] then (s, false)
    else
      var (s1, ok) := TryUninstall(s, pkg, attempts[0]);
      if ok then (s1, true) else Uninstall(s1, pkg, attempts[1..])
  }

  /** An install: the package, its base and selected splits, and the options. */
  datatype Request = Request(pkg: Package, apks: seq<Apk>, split: bool, reinstall: bool)
  {
    predicate Valid() {
      apks != [] && (!split ==> |apks| == 1)
    }

    function Wanted(): set<Apk> {
      SetOf(apks)
    }
  }

  function Kept(before: Installation, added: set<Apk>): set<Apk> {
    set p | p in before && (forall a :: a in added ==> a.split != before[p].split) :: before[p]
  }

  /** `left` is what a working install makes of `before`; without `reinstall` the package must not be there. */
  predicate Installs(before: Installation, added: set<Apk>, partial: bool, reinstall: bool, left: Installation) {
    && OnePerSplit(left)
    && (!reinstall ==> before == map[])
    && left.Values == added + if partial then Kept(before, added) else {}
  }

  datatype Result = Result(state: State, ok: bool, usedAdb: bool)

  function ToStale(md5: Md5, apks: seq<Apk>, onDevice: set<Sum>): seq<Apk> {
    if apks == [] then []
    else
      var n := |apks| - 1;
      ToStale(md5, apks[..n], onDevice) + if md5(apks[n]) in onDevice then [] else [apks[n]]
  }

  /** `_ComputeDeviceChecksumsForApks`, after the paths are known. */
  function DeviceSums(md5: Md5, s: State, pkg: Package, paths: set<Path>): set<Sum> {
    if pkg in s.sums then s.sums[pkg]
    else SumsOf(md5, set p | p in paths && p in s.On(pkg) :: s.On(pkg)[p])
  }

  /** The checksums of host and device are computed side by side, and both sides end before an error is raised. */
  function Compared(md5: Md5, s: State, pkg: Package, paths: set<Path>, env: Env): State {
    if env.deviceMd5Raises && pkg !in s.sums then s else s.(sums := s.sums[pkg := DeviceSums(md5, s, pkg, paths)])
  }

  function Install(md5: Md5, s: State, r: Request, env: Env): Result {
    var (s1, found) := GetPaths(s, r.pkg, env.query);
    if found.None? then Result(s1, false, false)
    else
      var n := |found.value|;
      if n == 0 || (n > 1 && !r.split) || (n == 1 && r.split) then Finish(s1, r, r.apks, None, env)
      else if env.hostMd5Raises then Replace(Compared(md5, s1, r.pkg, found.value, env), r, r.apks, None, env)
      else if env.deviceMd5Raises && r.pkg !in s1.sums then Result(s1, false, false)
      else InstallChanged(md5, s1, r, found.value, env)
  }

  /** The branch that compares checksums. */
  function InstallChanged(md5: Md5, s: State, r: Request, paths: set<Path>, env: Env): Result {
    var onDevice := DeviceSums(md5, s, r.pkg, paths);
    var s1 := s.(sums := s.sums[r.pkg := onDevice]);
    Replace(s1, r, ToStale(md5, r.apks, onDevice), Some(SumsOf(md5, r.Wanted())), env)
  }

  /** Without `reinstall`, what is there is uninstalled before anything is installed. */
  function Replace(s: State, r: Request, toInstall: seq<Apk>, hostSums: Option<set<Sum>>, env: Env): Result {
    if toInstall != [] && !r.reinstall then
      var (s1, gone) := Uninstall(s, r.pkg, env.uninstalls);
      if gone then Finish(s1, r, r.apks, hostSums, env).(usedAdb := true) else Result(s1, false, true)
    else Finish(s, r, toInstall, hostSums, env)
  }

  function Finish(s: State, r: Request, toInstall: seq<Apk>, hostSums: Option<set<Sum>>, env: Env): Result {
    if toInstall == [] then
      if env.finishRaises then Result(s, false, false) else Result(Remember(s, r.pkg, hostSums), true, false)
    else
      var s1 := Forget(s, r.pkg);
      var added := SetOf(toInstall);
      var partial := r.split && |toInstall| < |r.apks|;
      if env.install.Works? && Installs(s.On(r.pkg), added, partial, r.reinstall, env.install.left) then
        var s2 := s1.(device := s1.device[r.pkg := env.install.left]);
        if env.finishRaises then Result(s2, false, true) else Result(Remember(s2, r.pkg, hostSums), true, true)
      else Result(Wreck(s1, r.pkg, env.install.left), false, true)
  }

  function Remember(s: State, pkg: Package, hostSums: Option<set<Sum>>): State {
    if hostSums.Some? then s.(sums := s.sums[pkg := hostSums.value]) else s
  }

  // ---------------------------------------------------------------------------------------------
  // What the cache means

  /** A cached path list is exact, and cached checksums are of APKs on the device, with none only if there is none. */
  predicate SoundAt(md5: Md5, s: State, pkg: Package) {
    && OnePerSplit(s.On(pkg))
    && (pkg in s.paths ==> s.paths[pkg] == s.On(pkg).Keys)
    && (pkg in s.sums ==> s.sums[pkg] <= SumsOf(md5, s.On(pkg).Values))
    && (pkg in s.sums && s.On(pkg) != map[] ==> s.sums[pkg] != {})
  }

  ghost predicate Sound(md5: Md5, s: State) {
    forall pkg :: SoundAt(md5, s, pkg)
  }

  /** Nothing of a package changes. */
  predicate SameFor(before: State, after: State, q: Package) {
    && before.On(q) == after.On(q)
    && (q in before.paths <==> q in after.paths) && (q in after.paths ==> after.paths[q] == before.paths[q])
    && (q in before.sums <==> q in after.sums) && (q in after.sums ==> after.sums[q] == before.sums[q])
    && (q in before.toVerify <==> q in after.toVerify)
  }

  lemma {:induction false} GetPathsIsExact(md5: Md5, s: State, pkg: Package, q: Query)
    requires SoundAt(md5, s, pkg)
    ensures var (after, found) := GetPaths(s, pkg, q);
      && after.device == s.device && SoundAt(md5, after, pkg)
      && (found.Some? ==> found.value == s.On(pkg).Keys && pkg in after.paths)
  {
  }

  lemma {:induction false} AttemptRemoves(md5: Md5, s: State, pkg: Package, a: Attempt)
    requires SoundAt(md5, s, pkg)
    ensures var (after, ok) := TryUninstall(s, pkg, a);
      SoundAt(md5, after, pkg) && (ok ==> after.On(pkg) == map[])
  {
    GetPathsIsExact(md5, s, pkg, a.query);
  }

  /** However many attempts it takes, an uninstall keeps the cache true; one that returns has removed the package. */
  lemma {:induction false} UninstallRemoves(md5: Md5, s: State, pkg: Package, attempts: seq<Attempt>)
    requires SoundAt(md5, s, pkg)
    ensures var (after, ok) := Uninstall(s, pkg, attempts);
      SoundAt(md5, after, pkg) && (ok ==> after.On(pkg) == map[])
    decreases |attempts|
  {
    if attempts != [] {
      AttemptRemoves(md5, s, pkg, attempts[0]);
      UninstallRemoves(md5, TryUninstall(s, pkg, attempts[0]).0, pkg, attempts[1..]);
    }
  }

  /** From a true cache, an attempt returns exactly if its commands work; then the cache holds that nothing is there. */
  lemma {:induction false} AttemptReturnsIff(md5: Md5, s: State, pkg: Package, a: Attempt)
    requires SoundAt(md5, s, pkg)
    ensures var (after, ok) := TryUninstall(s, pkg, a);
      && (ok <==> !QueryRaises(s, pkg, a.query) && (s.On(pkg) == map[] || a.uninstall.Works?))
      && (ok ==> pkg in after.paths && after.paths[pkg] == {})
      && (ok && s.On(pkg) != map[] ==> pkg in after.sums && after.sums[pkg] == {})
  {
    QueryRaisesIff(md5, s, pkg, a.query);
    GetPathsIsExact(md5, s, pkg, a.query);
  }

  /** An attempt whose commands all work. */
  predicate Goes(a: Attempt) {
    !a.query.existsRaises && !a.query.pmRaises && a.uninstall.Works?
  }

  /** An uninstall returns if the commands of some attempt work, and leaves an empty list in the cache if it returns. */
  lemma {:induction false} UninstallReturns(md5: Md5, s: State, pkg: Package, attempts: seq<Attempt>)
    requires SoundAt(md5, s, pkg)
    ensures (exists i :: 0 <= i < |attempts| && Goes(attempts[i])) ==> Uninstall(s, pkg, attempts).1
    ensures attempts == [] ==> !Uninstall(s, pkg, attempts).1
    ensures Uninstall(s, pkg, attempts).1 ==>
      var after := Uninstall(s, pkg, attempts).0; pkg in after.paths && after.paths[pkg] == {}
    decreases |attempts|
  {
    if attempts != [] {
      AttemptReturnsIff(md5, s, pkg, attempts[0]);
      AttemptRemoves(md5, s, pkg, attempts[0]);
      UninstallReturns(md5, TryUninstall(s, pkg, attempts[0]).0, pkg, attempts[1..]);
      if i :| 0 < i < |attempts| && Goes(attempts[i]) {
        assert attempts[1..][i - 1] == attempts[i];
      }
    }
  }

  lemma {:induction false} StaleAre(md5: Md5, apks: seq<Apk>, onDevice: set<Sum>, a: Apk)
    ensures a in ToStale(md5, apks, onDevice) <==> a in apks && md5(a) !in onDevice
    ensures |ToStale(md5, apks, onDevice)| <= |apks|
  {
    if apks != [] {
      StaleAre(md5, apks[..|apks| - 1], onDevice, a);
      assert apks == apks[..|apks| - 1] + [apks[|apks| - 1]];
    }
  }

  lemma {:induction false} AllStale(md5: Md5, apks: seq<Apk>, onDevice: set<Sum>)
    requires |ToStale(md5, apks, onDevice)| == |apks|
    ensures ToStale(md5, apks, onDevice) == apks
  {
    if apks != [] {
      var init := apks[..|apks| - 1];
      assert |ToStale(md5, init, onDevice)| <= |init| by {
        StaleAre(md5, init, onDevice, apks[0]);
      }
      AllStale(md5, init, onDevice);
    }
  }

  /** No two different selected APKs have one split name. */
  predicate NoClash(apks: seq<Apk>) {
    forall a, b :: a in apks && b in apks && a.split == b.split ==> a == b
  }

  /** A selected APK is to be installed, or stands on the device already. */
  ghost predicate Covered(s: State, r: Request, toInstall: seq<Apk>) {
    && (forall a :: a in toInstall ==> a in r.apks)
    && (forall a :: a in r.apks ==> a in toInstall || a in s.On(r.pkg).Values)
    && (|toInstall| >= |r.apks| ==> forall a :: a in r.apks ==> a in toInstall)
  }

  lemma {:induction false} FinishIsRight(md5: Md5, s: State, r: Request, toInstall: seq<Apk>,
                                         hostSums: Option<set<Sum>>, env: Env)
    requires r.Valid() && SoundAt(md5, s, r.pkg) && NoClash(r.apks) && Covered(s, r, toInstall)
    requires hostSums.Some? ==> hostSums.value == SumsOf(md5, r.Wanted())
    ensures IsRight(md5, s, r, Finish(s, r, toInstall, hostSums, env))
  {
    var end := Finish(s, r, toInstall, hostSums, env);
    assert r.apks[0] in r.Wanted() && md5(r.apks[0]) in SumsOf(md5, r.Wanted());
    if end.ok {
      forall a | a in r.apks ensures a in end.state.On(r.pkg).Values {
        if toInstall == [] {
        } else {
          InstalledIsThere(s, r, toInstall, env.install.left, a);
        }
      }
    }
  }

  lemma {:induction false} InstalledIsThere(s: State, r: Request, toInstall: seq<Apk>, left: Installation, a: Apk)
    requires r.Valid() && NoClash(r.apks) && Covered(s, r, toInstall) && toInstall != [] && a in r.apks
    requires Installs(s.On(r.pkg), SetOf(toInstall), r.split && |toInstall| < |r.apks|, r.reinstall, left)
    ensures a in left.Values
  {
    var added := SetOf(toInstall);
    if a !in toInstall {
      var p :| p in s.On(r.pkg) && s.On(r.pkg)[p] == a;
      assert a in Kept(s.On(r.pkg), added);
      assert |toInstall| < |r.apks|;
      assert r.split;
    }
  }

  /** An install keeps the cache true, and when it returns all selected APKs are on the device. */
  lemma {:induction false} InstallIsRight(md5: Md5, s: State, r: Request, env: Env)
    requires Injective(md5) && r.Valid() && NoClash(r.apks) && SoundAt(md5, s, r.pkg)
    ensures IsRight(md5, s, r, Install(md5, s, r, env))
  {
    GetPathsIsExact(md5, s, r.pkg, env.query);
    var (s1, found) := GetPaths(s, r.pkg, env.query);
    if found.Some? {
      FinishIsRight(md5, s1, r, r.apks, None, env);
      DeviceSumsAreThere(md5, s1, r.pkg, found.value);
      ReplaceIsRight(md5, Compared(md5, s1, r.pkg, found.value, env), r, r.apks, None, env);
      ChangedIsRight(md5, s1, r, found.value, env);
    }
  }

  ghost predicate IsRight(md5: Md5, s: State, r: Request, end: Result) {
    && SoundAt(md5, end.state, r.pkg)
    && (end.ok ==> r.Wanted() <= end.state.On(r.pkg).Values)
    && (!end.usedAdb ==> end.state.device == s.device)
  }

  lemma {:induction false} ChangedIsRight(md5: Md5, s: State, r: Request, paths: set<Path>, env: Env)
    requires Injective(md5) && r.Valid() && NoClash(r.apks) && SoundAt(md5, s, r.pkg) && paths == s.On(r.pkg).Keys
    ensures IsRight(md5, s, r, InstallChanged(md5, s, r, paths, env))
  {
    var onDevice := DeviceSums(md5, s, r.pkg, paths);
    DeviceSumsAreThere(md5, s, r.pkg, paths);
    var s1 := s.(sums := s.sums[r.pkg := onDevice]);
    StaleCovers(md5, s1, r, onDevice);
    ReplaceIsRight(md5, s1, r, ToStale(md5, r.apks, onDevice), Some(SumsOf(md5, r.Wanted())), env);
  }

  lemma {:induction false} ReplaceIsRight(md5: Md5, s: State, r: Request, toInstall: seq<Apk>,
                                          hostSums: Option<set<Sum>>, env: Env)
    requires r.Valid() && SoundAt(md5, s, r.pkg) && NoClash(r.apks) && Covered(s, r, toInstall)
    requires hostSums.Some? ==> hostSums.value == SumsOf(md5, r.Wanted())
    ensures IsRight(md5, s, r, Replace(s, r, toInstall, hostSums, env))
  {
    if toInstall != [] && !r.reinstall {
      UninstallRemoves(md5, s, r.pkg, env.uninstalls);
      FinishIsRight(md5, Uninstall(s, r.pkg, env.uninstalls).0, r, r.apks, hostSums, env);
    } else {
      FinishIsRight(md5, s, r, toInstall, hostSums, env);
    }
  }

  lemma {:induction false} DeviceSumsAreThere(md5: Md5, s: State, pkg: Package, paths: set<Path>)
    requires SoundAt(md5, s, pkg) && paths == s.On(pkg).Keys
    ensures DeviceSums(md5, s, pkg, paths) <= SumsOf(md5, s.On(pkg).Values)
    ensures s.On(pkg) != map[] ==> DeviceSums(md5, s, pkg, paths) != {}
  {
    if p :| p in s.On(pkg) {
      assert pkg !in s.sums ==> md5(s.On(pkg)[p]) in DeviceSums(md5, s, pkg, paths);
    }
  }

  lemma {:induction false} StaleCovers(md5: Md5, s: State, r: Request, onDevice: set<Sum>)
    requires Injective(md5) && onDevice <= SumsOf(md5, s.On(r.pkg).Values)
    ensures Covered(s, r, ToStale(md5, r.apks, onDevice))
  {
    StaleIsCovered(md5, s, r, onDevice);
  }

  lemma {:induction false} StaleIsCovered(md5: Md5, s: State, r: Request, onDevice: set<Sum>)
    requires forall a :: a in r.apks && md5(a) in onDevice ==> a in s.On(r.pkg).Values
    ensures Covered(s, r, ToStale(md5, r.apks, onDevice))
  {
    var stale := ToStale(md5, r.apks, onDevice);
    forall a ensures a in stale <==> a in r.apks && md5(a) !in onDevice {
      StaleAre(md5, r.apks, onDevice, a);
    }
    if |stale| >= |r.apks| {
      StaleAre(md5, r.apks, onDevice, Apk("", ""));
      AllStale(md5, r.apks, onDevice);
    }
  }

  /** Installing without a device command happens only when everything was there; the device is not touched. */
  lemma {:induction false} SkipMeansThere(md5: Md5, s: State, r: Request, env: Env)
    requires Injective(md5) && r.Valid() && SoundAt(md5, s, r.pkg)
    requires !Install(md5, s, r, env).usedAdb
    ensures Install(md5, s, r, env).state.device == s.device
    ensures Install(md5, s, r, env).ok ==> r.Wanted() <= s.On(r.pkg).Values
  {
    GetPathsIsExact(md5, s, r.pkg, env.query);
    var (s1, found) := GetPaths(s, r.pkg, env.query);
    if Install(md5, s, r, env).ok {
      var onDevice := DeviceSums(md5, s1, r.pkg, found.value);
      DeviceSumsAreThere(md5, s1, r.pkg, found.value);
      NothingStaleIff(md5, r.apks, onDevice);
      forall a | a in r.Wanted() ensures a in s.On(r.pkg).Values {
        assert md5(a) in SumsOf(md5, s.On(r.pkg).Values);
      }
    }
  }

  /** Whether or not names clash, all selected APKs are there after an install that returns exactly if they do not. */
  lemma {:induction false} AllThereIffNoClash(md5: Md5, s: State, r: Request, env: Env)
    requires Injective(md5) && r.Valid() && SoundAt(md5, s, r.pkg) && Install(md5, s, r, env).ok
    ensures r.Wanted() <= Install(md5, s, r, env).state.On(r.pkg).Values <==> NoClash(r.apks)
  {
    var end := Install(md5, s, r, env);
    if NoClash(r.apks) {
      InstallIsRight(md5, s, r, env);
    } else if r.Wanted() <= end.state.On(r.pkg).Values {
      InstallKeepsSplits(md5, s, r, env);
      OneNameOneApk(end.state.On(r.pkg), r);
    }
  }

  lemma {:induction false} OneNameOneApk(i: Installation, r: Request)
    requires OnePerSplit(i) && r.Wanted() <= i.Values
    ensures NoClash(r.apks)
  {
    forall a, b | a in r.apks && b in r.apks && a.split == b.split ensures a == b {
      assert a in r.Wanted() && b in r.Wanted();
      var p :| p in i && i[p] == a;
      var q :| q in i && i[q] == b;
    }
  }

  lemma {:induction false} InstallKeepsSplits(md5: Md5, s: State, r: Request, env: Env)
    requires OnePerSplit(s.On(r.pkg))
    ensures OnePerSplit(Install(md5, s, r, env).state.On(r.pkg))
  {
    var (s1, found) := GetPaths(s, r.pkg, env.query);
    assert s1.device == s.device;
    if found.Some? {
      FinishKeepsSplits(s1, r, r.apks, None, env);
      ReplaceKeepsSplits(Compared(md5, s1, r.pkg, found.value, env), r, r.apks, None, env);
      var onDevice := DeviceSums(md5, s1, r.pkg, found.value);
      var s2 := s1.(sums := s1.sums[r.pkg := onDevice]);
      ReplaceKeepsSplits(s2, r, ToStale(md5, r.apks, onDevice), Some(SumsOf(md5, r.Wanted())), env);
    }
  }

  lemma {:induction false} FinishKeepsSplits(s: State, r: Request, toInstall: seq<Apk>, hostSums: Option<set<Sum>>,
                                             env: Env)
    requires OnePerSplit(s.On(r.pkg))
    ensures OnePerSplit(Finish(s, r, toInstall, hostSums, env).state.On(r.pkg))
  {
  }

  lemma {:induction false} ReplaceKeepsSplits(s: State, r: Request, toInstall: seq<Apk>, hostSums: Option<set<Sum>>,
                                              env: Env)
    requires OnePerSplit(s.On(r.pkg))
    ensures OnePerSplit(Replace(s, r, toInstall, hostSums, env).state.On(r.pkg))
  {
    FinishKeepsSplits(s, r, toInstall, hostSums, env);
    UninstallKeepsSplits(s, r.pkg, env.uninstalls);
    FinishKeepsSplits(Uninstall(s, r.pkg, env.uninstalls).0, r, r.apks, hostSums, env);
  }

  lemma {:induction false} UninstallKeepsSplits(s: State, pkg: Package, attempts: seq<Attempt>)
    requires OnePerSplit(s.On(pkg))
    ensures OnePerSplit(Uninstall(s, pkg, attempts).0.On(pkg))
    decreases |attempts|
  {
    if attempts != [] {
      AttemptKeepsSplits(s, pkg, attempts[0]);
      UninstallKeepsSplits(TryUninstall(s, pkg, attempts[0]).0, pkg, attempts[1..]);
    }
  }

  lemma {:induction false} AttemptKeepsSplits(s: State, pkg: Package, a: Attempt)
    requires OnePerSplit(s.On(pkg))
    ensures OnePerSplit(TryUninstall(s, pkg, a).0.On(pkg))
  {
    assert GetPaths(s, pkg, a.query).0.device == s.device;
  }

  /** What the cache holds after an install that returns. */
  ghost predicate CacheAfter(md5: Md5, r: Request, end: Result) {
    && (r.pkg in end.state.sums ==> end.state.sums[r.pkg] == SumsOf(md5, r.Wanted()))
    && (r.pkg in end.state.paths ==> end.state.paths[r.pkg] == end.state.On(r.pkg).Keys)
  }

  lemma {:induction false} ReturnedCache(md5: Md5, s: State, r: Request, env: Env)
    requires SoundAt(md5, s, r.pkg) && r.Valid() && Install(md5, s, r, env).ok
    ensures CacheAfter(md5, r, Install(md5, s, r, env))
  {
    GetPathsIsExact(md5, s, r.pkg, env.query);
    var (s1, found) := GetPaths(s, r.pkg, env.query);
    FinishedCache(md5, s1, r, r.apks, None, env);
    ReplacedCache(md5, Compared(md5, s1, r.pkg, found.value, env), r, r.apks, None, env);
    var onDevice := DeviceSums(md5, s1, r.pkg, found.value);
    var s2 := s1.(sums := s1.sums[r.pkg := onDevice]);
    ReplacedCache(md5, s2, r, ToStale(md5, r.apks, onDevice), Some(SumsOf(md5, r.Wanted())), env);
  }

  lemma {:induction false} FinishedCache(md5: Md5, s: State, r: Request, toInstall: seq<Apk>,
                                         hostSums: Option<set<Sum>>, env: Env)
    requires r.pkg in s.paths ==> s.paths[r.pkg] == s.On(r.pkg).Keys
    requires if hostSums.None? then toInstall != [] else hostSums.value == SumsOf(md5, r.Wanted())
    ensures var end := Finish(s, r, toInstall, hostSums, env); end.ok ==> CacheAfter(md5, r, end)
  {
  }

  lemma {:induction false} ReplacedCache(md5: Md5, s: State, r: Request, toInstall: seq<Apk>,
                                         hostSums: Option<set<Sum>>, env: Env)
    requires r.Valid() && (r.pkg in s.paths ==> s.paths[r.pkg] == s.On(r.pkg).Keys)
    requires if hostSums.None? then toInstall != [] else hostSums.value == SumsOf(md5, r.Wanted())
    ensures var end := Replace(s, r, toInstall, hostSums, env); end.ok ==> CacheAfter(md5, r, end)
  {
    FinishedCache(md5, s, r, toInstall, hostSums, env);
    UninstalledPaths(s, r.pkg, env.uninstalls);
    FinishedCache(md5, Uninstall(s, r.pkg, env.uninstalls).0, r, r.apks, hostSums, env);
  }

  lemma {:induction false} UninstalledPaths(s: State, pkg: Package, attempts: seq<Attempt>)
    requires pkg in s.paths ==> s.paths[pkg] == s.On(pkg).Keys
    ensures var s1 := Uninstall(s, pkg, attempts).0; pkg in s1.paths ==> s1.paths[pkg] == s1.On(pkg).Keys
    decreases |attempts|
  {
    if attempts != [] {
      UninstalledPaths(TryUninstall(s, pkg, attempts[0]).0, pkg, attempts[1..]);
    }
  }

  /** What an install leaves in the cache before it remembers checksums is true. */
  lemma {:induction false} UnrememberedIsSound(md5: Md5, s: State, r: Request, env: Env)
    requires Injective(md5) && r.Valid() && SoundAt(md5, s, r.pkg)
    ensures var end := Install(md5, s, r, env);
      !end.ok || r.pkg !in end.state.sums ==> SoundAt(md5, end.state, r.pkg)
  {
    GetPathsIsExact(md5, s, r.pkg, env.query);
    var (s1, found) := GetPaths(s, r.pkg, env.query);
    if found.Some? {
      var s2, onDevice := Compared(md5, s1, r.pkg, found.value, env), DeviceSums(md5, s1, r.pkg, found.value);
      DeviceSumsAreThere(md5, s1, r.pkg, found.value);
      UnfinishedIsSound(md5, s1, r, r.apks, None, env);
      UnreplacedIsSound(md5, s2, r, r.apks, None, env);
      UnreplacedIsSound(md5, s2, r, ToStale(md5, r.apks, onDevice), Some(SumsOf(md5, r.Wanted())), env);
    }
  }

  lemma {:induction false} UnfinishedIsSound(md5: Md5, s: State, r: Request, toInstall: seq<Apk>,
                                             hostSums: Option<set<Sum>>, env: Env)
    requires SoundAt(md5, s, r.pkg)
    ensures var end := Finish(s, r, toInstall, hostSums, env);
      !end.ok || r.pkg !in end.state.sums ==> SoundAt(md5, end.state, r.pkg)
  {
  }

  lemma {:induction false} UnreplacedIsSound(md5: Md5, s: State, r: Request, toInstall: seq<Apk>,
                                             hostSums: Option<set<Sum>>, env: Env)
    requires SoundAt(md5, s, r.pkg)
    ensures var end := Replace(s, r, toInstall, hostSums, env);
      !end.ok || r.pkg !in end.state.sums ==> SoundAt(md5, end.state, r.pkg)
  {
    UnfinishedIsSound(md5, s, r, toInstall, hostSums, env);
    UninstallRemoves(md5, s, r.pkg, env.uninstalls);
    UnfinishedIsSound(md5, Uninstall(s, r.pkg, env.uninstalls).0, r, r.apks, hostSums, env);
  }

  /**
   * An install leaves a true cache exactly if no split names clash, or it did not return, or it remembered no
   * checksums.
   */
  lemma {:induction false} CacheStaysTrueIff(md5: Md5, s: State, r: Request, env: Env)
    requires Injective(md5) && r.Valid() && SoundAt(md5, s, r.pkg)
    ensures SoundAt(md5, Install(md5, s, r, env).state, r.pkg) <==> !RemembersClash(md5, s, r, env)
  {
    var end := Install(md5, s, r, env);
    var s1 := end.state;
    InstallKeepsSplits(md5, s, r, env);
    if NoClash(r.apks) {
      InstallIsRight(md5, s, r, env);
    } else if !RemembersClash(md5, s, r, env) {
      UnrememberedIsSound(md5, s, r, env);
    } else if SoundAt(md5, s1, r.pkg) {
      ReturnedCache(md5, s, r, env);
      forall a | a in r.Wanted() ensures a in s1.On(r.pkg).Values {
        assert md5(a) in SumsOf(md5, s1.On(r.pkg).Values);
      }
      OneNameOneApk(s1.On(r.pkg), r);
    }
  }

  /** The install returns and remembers the checksums of two APKs of which the device keeps at most one. */
  predicate RemembersClash(md5: Md5, s: State, r: Request, env: Env) {
    var end := Install(md5, s, r, env);
    end.ok && r.pkg in end.state.sums && !NoClash(r.apks)
  }

  // ---------------------------------------------------------------------------------------------
  // What an install does, from a true cache

  /** The checksums of what is installed are compared with those of the selection. */
  predicate Compares(s: State, r: Request) {
    if r.split then |s.On(r.pkg).Keys| > 1 else |s.On(r.pkg).Keys| == 1
  }

  function KnownSums(md5: Md5, s: State, pkg: Package): set<Sum> {
    if pkg in s.sums then s.sums[pkg] else SumsOf(md5, s.On(pkg).Values)
  }

  /** The selected APKs that are pushed: those not known to be there, or all when what is there goes first. */
  function Pushed(md5: Md5, s: State, r: Request, env: Env): set<Apk> {
    var unknown := Unknown(md5, r.apks, KnownSums(md5, s, r.pkg));
    if !Compares(s, r) || env.hostMd5Raises || (unknown != {} && !r.reinstall) then r.Wanted() else unknown
  }

  /** What is there when the install command runs. */
  function Standing(md5: Md5, s: State, r: Request, env: Env): Installation {
    if Compares(s, r) && !r.reinstall && Pushed(md5, s, r, env) != {} then map[] else s.On(r.pkg)
  }

  /** Does finding out what is there raise, from a true cache? */
  predicate QueryRaises(s: State, pkg: Package, q: Query) {
    if pkg in s.paths then pkg in s.toVerify && s.paths[pkg] != {} && q.existsRaises else q.pmRaises
  }

  function Unknown(md5: Md5, apks: seq<Apk>, known: set<Sum>): set<Apk> {
    set a | a in apks && md5(a) !in known
  }

  lemma {:induction false} StaleAreUnknown(md5: Md5, apks: seq<Apk>, known: set<Sum>)
    ensures SetOf(ToStale(md5, apks, known)) == Unknown(md5, apks, known)
    ensures |ToStale(md5, apks, known)| < |apks| <==> Unknown(md5, apks, known) != SetOf(apks)
    ensures Unknown(md5, apks, known) == SetOf(apks) ==> ToStale(md5, apks, known) == apks
  {
    forall a ensures a in ToStale(md5, apks, known) <==> a in apks && md5(a) !in known {
      StaleAre(md5, apks, known, a);
    }
    StaleAre(md5, apks, known, Apk("", ""));
    if |ToStale(md5, apks, known)| == |apks| {
      AllStale(md5, apks, known);
    }
    if Unknown(md5, apks, known) == SetOf(apks) {
      assert forall a :: a in apks ==> a in Unknown(md5, apks, known);
      NoneKnown(md5, apks, known);
    }
  }

  lemma {:induction false} NoneKnown(md5: Md5, apks: seq<Apk>, onDevice: set<Sum>)
    requires forall a :: a in apks ==> md5(a) !in onDevice
    ensures ToStale(md5, apks, onDevice) == apks
    decreases |apks|
  {
    if apks != [] {
      var n := |apks| - 1;
      NoneKnown(md5, apks[..n], onDevice);
      assert apks == apks[..n] + [apks[n]];
    }
  }

  lemma {:induction false} QueryRaisesIff(md5: Md5, s: State, pkg: Package, q: Query)
    requires SoundAt(md5, s, pkg)
    ensures var (after, found) := GetPaths(s, pkg, q);
      && (found.None? <==> QueryRaises(s, pkg, q))
      && after.sums == s.sums && after.device == s.device
  {
  }

  /** From a true cache the checksums used are the known ones. */
  lemma {:induction false} UsedSumsAreKnown(md5: Md5, s: State, pkg: Package, q: Query)
    requires SoundAt(md5, s, pkg) && !QueryRaises(s, pkg, q)
    ensures var (s1, found) := GetPaths(s, pkg, q);
      found.Some? && DeviceSums(md5, s1, pkg, found.value) == KnownSums(md5, s, pkg)
  {
    GetPathsIsExact(md5, s, pkg, q);
    QueryRaisesIff(md5, s, pkg, q);
    var i := s.On(pkg);
    assert (set p | p in i.Keys && p in i :: i[p]) == i.Values;
  }

  /** The uninstall that comes before an install, if there is one, returns. */
  predicate UninstallsIfNeeded(md5: Md5, s: State, r: Request, env: Env) {
    Compares(s, r) && !r.reinstall && Pushed(md5, s, r, env) != {} ==>
      var (s1, found) := GetPaths(s, r.pkg, env.query);
      Uninstall(Compared(md5, s1, r.pkg, s.On(r.pkg).Keys, env), r.pkg, env.uninstalls).1
  }

  /** The commands that the install comes to work. */
  predicate CommandsWork(md5: Md5, s: State, r: Request, env: Env) {
    && !QueryRaises(s, r.pkg, env.query)
    && !(Compares(s, r) && !env.hostMd5Raises && env.deviceMd5Raises && r.pkg !in s.sums)
    && UninstallsIfNeeded(md5, s, r, env)
    && (Pushed(md5, s, r, env) != {} ==>
          && env.install.Works?
          && Installs(Standing(md5, s, r, env), Pushed(md5, s, r, env), Pushed(md5, s, r, env) != r.Wanted(),
                      r.reinstall, env.install.left))
    && !env.finishRaises
  }

  /** Earlier APKs whose split name is not among the pushed ones. */
  function Others(before: set<Apk>, pushed: set<Apk>): set<Apk> {
    set b | b in before && forall a :: a in pushed ==> a.split != b.split
  }

  /** What an install that pushes these APKs comes to, where `standing` is there when its command runs. */
  ghost predicate EndsWith(r: Request, standing: Installation, pushed: set<Apk>, env: Env, remembers: bool, md5: Md5,
                           end: Result)
  {
    && (end.ok <==>
          && !env.finishRaises
          && (pushed != {} ==>
                && env.install.Works?
                && Installs(standing, pushed, pushed != r.Wanted(), r.reinstall, env.install.left)))
    && (end.ok ==>
          && end.state.On(r.pkg) == (if pushed == {} then standing else env.install.left)
          && (r.pkg in end.state.sums <==> remembers)
          && (remembers ==> end.state.sums[r.pkg] == SumsOf(md5, r.Wanted()))
          && (pushed != {} ==> r.pkg !in end.state.paths))
  }

  lemma {:induction false} FinishEnds(md5: Md5, s: State, r: Request, toInstall: seq<Apk>, hostSums: Option<set<Sum>>,
                                      env: Env)
    requires toInstall != [] ==> ((r.split && |toInstall| < |r.apks|) <==> SetOf(toInstall) != r.Wanted())
    requires if hostSums.None? then toInstall != [] else hostSums.value == SumsOf(md5, r.Wanted())
    ensures var end := Finish(s, r, toInstall, hostSums, env);
      EndsWith(r, s.On(r.pkg), SetOf(toInstall), env, hostSums.Some?, md5, end) && (end.usedAdb <==> toInstall != [])
  {
  }

  /** The states between which an install goes on after it knows what to push. */
  lemma {:induction false} ReplaceEnds(md5: Md5, s: State, r: Request, toInstall: seq<Apk>,
                                       hostSums: Option<set<Sum>>, env: Env)
    requires r.Valid() && SoundAt(md5, s, r.pkg)
    requires toInstall != [] ==> ((r.split && |toInstall| < |r.apks|) <==> SetOf(toInstall) != r.Wanted())
    requires if hostSums.None? then toInstall != [] else hostSums.value == SumsOf(md5, r.Wanted())
    ensures var end, first := Replace(s, r, toInstall, hostSums, env), toInstall != [] && !r.reinstall;
      && (first && !Uninstall(s, r.pkg, env.uninstalls).1 ==> !end.ok)
      && (first && Uninstall(s, r.pkg, env.uninstalls).1 ==>
            EndsWith(r, map[], r.Wanted(), env, hostSums.Some?, md5, end))
      && (!first ==> EndsWith(r, s.On(r.pkg), SetOf(toInstall), env, hostSums.Some?, md5, end))
      && (end.ok ==> (end.usedAdb <==> toInstall != []))
  {
    if toInstall != [] && !r.reinstall {
      UninstallRemoves(md5, s, r.pkg, env.uninstalls);
      FinishEnds(md5, Uninstall(s, r.pkg, env.uninstalls).0, r, r.apks, hostSums, env);
    } else {
      FinishEnds(md5, s, r, toInstall, hostSums, env);
    }
  }

  lemma {:induction false} InstallEnds(md5: Md5, s: State, r: Request, env: Env)
    requires Injective(md5) && r.Valid() && SoundAt(md5, s, r.pkg)
    ensures var end, pushed := Install(md5, s, r, env), Pushed(md5, s, r, env);
      && (end.ok <==> CommandsWork(md5, s, r, env))
      && (end.ok ==>
            && EndsWith(r, Standing(md5, s, r, env), pushed, env, Compares(s, r) && !env.hostMd5Raises, md5, end)
            && (end.usedAdb <==> pushed != {}))
  {
    QueryRaisesIff(md5, s, r.pkg, env.query);
    GetPathsIsExact(md5, s, r.pkg, env.query);
    if !QueryRaises(s, r.pkg, env.query) {
      var (s1, found) := GetPaths(s, r.pkg, env.query);
      UsedSumsAreKnown(md5, s, r.pkg, env.query);
      if !Compares(s, r) {
        FinishEnds(md5, s1, r, r.apks, None, env);
      } else {
        ComparingEnds(md5, s, r, env);
      }
    }
  }

  lemma {:induction false} ComparingEnds(md5: Md5, s: State, r: Request, env: Env)
    requires Injective(md5) && r.Valid() && SoundAt(md5, s, r.pkg)
    requires !QueryRaises(s, r.pkg, env.query) && Compares(s, r)
    ensures var end, pushed := Install(md5, s, r, env), Pushed(md5, s, r, env);
      && (end.ok <==> CommandsWork(md5, s, r, env))
      && (end.ok ==>
            && EndsWith(r, Standing(md5, s, r, env), pushed, env, !env.hostMd5Raises, md5, end)
            && (end.usedAdb <==> pushed != {}))
  {
    if env.hostMd5Raises {
      UncomparedEnds(md5, s, r, env);
    } else {
      ComparedEnds(md5, s, r, env);
    }
  }

  lemma {:induction false} UncomparedEnds(md5: Md5, s: State, r: Request, env: Env)
    requires Injective(md5) && r.Valid() && SoundAt(md5, s, r.pkg)
    requires !QueryRaises(s, r.pkg, env.query) && Compares(s, r)
    requires env.hostMd5Raises
    ensures var end, pushed := Install(md5, s, r, env), Pushed(md5, s, r, env);
      && (end.ok <==> CommandsWork(md5, s, r, env))
      && (end.ok ==>
            && EndsWith(r, Standing(md5, s, r, env), pushed, env, !env.hostMd5Raises, md5, end)
            && (end.usedAdb <==> pushed != {}))
  {
    ComparingReplaces(md5, s, r, env);
    var s2 := Compared(md5, GetPaths(s, r.pkg, env.query).0, r.pkg, s.On(r.pkg).Keys, env);
    ReplaceEnds(md5, s2, r, r.apks, None, env);
  }

  /** What is pushed, and what stands there then, when checksums are compared. */
  lemma {:induction false} ComparedPushes(md5: Md5, s: State, r: Request, env: Env)
    requires r.Valid() && Compares(s, r) && !env.hostMd5Raises
    ensures var stale := ToStale(md5, r.apks, KnownSums(md5, s, r.pkg));
      var first := stale != [] && !r.reinstall;
      && Pushed(md5, s, r, env) == (if first then r.Wanted() else SetOf(stale))
      && Standing(md5, s, r, env) == (if first then map[] else s.On(r.pkg))
      && (Pushed(md5, s, r, env) == {} <==> stale == [])
      && (stale != [] ==> ((r.split && |stale| < |r.apks|) <==> SetOf(stale) != r.Wanted()))
  {
    StaleAreUnknown(md5, r.apks, KnownSums(md5, s, r.pkg));
    assert SetOf(r.apks) != {};
  }

  lemma {:induction false} ComparedEnds(md5: Md5, s: State, r: Request, env: Env)
    requires Injective(md5) && r.Valid() && SoundAt(md5, s, r.pkg)
    requires !QueryRaises(s, r.pkg, env.query) && Compares(s, r) && !env.hostMd5Raises
    ensures var end, pushed := Install(md5, s, r, env), Pushed(md5, s, r, env);
      && (end.ok <==> CommandsWork(md5, s, r, env))
      && (end.ok ==>
            && EndsWith(r, Standing(md5, s, r, env), pushed, env, !env.hostMd5Raises, md5, end)
            && (end.usedAdb <==> pushed != {}))
  {
    ComparingReplaces(md5, s, r, env);
    if !(env.deviceMd5Raises && r.pkg !in s.sums) {
      var s2 := Compared(md5, GetPaths(s, r.pkg, env.query).0, r.pkg, s.On(r.pkg).Keys, env);
      ComparedEndsFrom(md5, s, r, env, s2);
    }
  }

  lemma {:induction false} ComparedEndsFrom(md5: Md5, s: State, r: Request, env: Env, s2: State)
    requires Injective(md5) && r.Valid() && SoundAt(md5, s, r.pkg)
    requires !QueryRaises(s, r.pkg, env.query) && Compares(s, r) && !env.hostMd5Raises
    requires !(env.deviceMd5Raises && r.pkg !in s.sums)
    requires s2 == Compared(md5, GetPaths(s, r.pkg, env.query).0, r.pkg, s.On(r.pkg).Keys, env)
    requires s2.device == s.device && SoundAt(md5, s2, r.pkg)
    requires Install(md5, s, r, env) ==
      Replace(s2, r, ToStale(md5, r.apks, KnownSums(md5, s, r.pkg)), Some(SumsOf(md5, r.Wanted())), env)
    ensures var end, pushed := Install(md5, s, r, env), Pushed(md5, s, r, env);
      && (end.ok <==> CommandsWork(md5, s, r, env))
      && (end.ok ==>
            && EndsWith(r, Standing(md5, s, r, env), pushed, env, !env.hostMd5Raises, md5, end)
            && (end.usedAdb <==> pushed != {}))
  {
    var stale := ToStale(md5, r.apks, KnownSums(md5, s, r.pkg));
    ComparedPushes(md5, s, r, env);
    ReplaceEnds(md5, s2, r, stale, Some(SumsOf(md5, r.Wanted())), env);
    assert s2.On(r.pkg) == s.On(r.pkg);
  }

  /** The branch of an install in which checksums are compared. */
  lemma {:induction false} ComparingReplaces(md5: Md5, s: State, r: Request, env: Env)
    requires Injective(md5) && r.Valid() && SoundAt(md5, s, r.pkg)
    requires !QueryRaises(s, r.pkg, env.query) && Compares(s, r)
    ensures var s2 := Compared(md5, GetPaths(s, r.pkg, env.query).0, r.pkg, s.On(r.pkg).Keys, env);
      && s2.device == s.device && SoundAt(md5, s2, r.pkg)
      && Install(md5, s, r, env) ==
           if env.hostMd5Raises then Replace(s2, r, r.apks, None, env)
           else if env.deviceMd5Raises && r.pkg !in s.sums then Result(s2, false, false)
           else Replace(s2, r, ToStale(md5, r.apks, KnownSums(md5, s, r.pkg)), Some(SumsOf(md5, r.Wanted())), env)
  {
    QueryRaisesIff(md5, s, r.pkg, env.query);
    GetPathsIsExact(md5, s, r.pkg, env.query);
    UsedSumsAreKnown(md5, s, r.pkg, env.query);
    DeviceSumsAreThere(md5, GetPaths(s, r.pkg, env.query).0, r.pkg, s.On(r.pkg).Keys);
  }

  /** From a true cache, an install returns exactly if the commands it comes to work. */
  lemma {:induction false} InstallReturnsIff(md5: Md5, s: State, r: Request, env: Env)
    requires Injective(md5) && r.Valid() && SoundAt(md5, s, r.pkg)
    ensures Install(md5, s, r, env).ok <==> CommandsWork(md5, s, r, env)
  {
    InstallEnds(md5, s, r, env);
  }

  lemma {:induction false} KeptAreOthers(i: Installation, pushed: set<Apk>)
    ensures Kept(i, pushed) == Others(i.Values, pushed)
    ensures Others(i.Values, {}) == i.Values
  {
    forall b | b in Others(i.Values, pushed) ensures b in Kept(i, pushed) {
      var p :| p in i && i[p] == b;
    }
  }

  lemma {:induction false} LeftValues(md5: Md5, s: State, r: Request, env: Env, remembers: bool, end: Result)
    requires r.Valid() && end.ok
    requires EndsWith(r, Standing(md5, s, r, env), Pushed(md5, s, r, env), env, remembers, md5, end)
    ensures var pushed, before := Pushed(md5, s, r, env), s.On(r.pkg).Values;
      && end.state.On(r.pkg).Values == pushed + (if pushed == r.Wanted() then {} else Others(before, pushed))
      && (r.pkg in end.state.paths ==> pushed == {})
  {
    KeptAreOthers(s.On(r.pkg), Pushed(md5, s, r, env));
    assert r.apks[0] in r.Wanted();
  }

  /**
   * After an install from a true cache that returns, the package has the pushed APKs and, if these are only some
   * of the selection, the earlier ones whose split name is not among them; if none was pushed, what it had. A
   * command was used exactly if some were pushed, and checksums are remembered exactly if they were compared.
   */
  lemma {:induction false} InstallLeaves(md5: Md5, s: State, r: Request, env: Env)
    requires Injective(md5) && r.Valid() && SoundAt(md5, s, r.pkg) && Install(md5, s, r, env).ok
    ensures var end, pushed, before := Install(md5, s, r, env), Pushed(md5, s, r, env), s.On(r.pkg).Values;
      && (end.usedAdb <==> pushed != {})
      && end.state.On(r.pkg).Values == pushed + (if pushed == r.Wanted() then {} else Others(before, pushed))
      && (NoClash(r.apks) ==> r.Wanted() <= end.state.On(r.pkg).Values)
      && (r.pkg in end.state.sums <==> Compares(s, r) && !env.hostMd5Raises)
      && (r.pkg in end.state.sums ==> end.state.sums[r.pkg] == SumsOf(md5, r.Wanted()))
      && (r.pkg in end.state.paths ==> pushed == {})
  {
    InstallEnds(md5, s, r, env);
    LeftValues(md5, s, r, env, Compares(s, r) && !env.hostMd5Raises, Install(md5, s, r, env));
    if NoClash(r.apks) {
      InstallIsRight(md5, s, r, env);
    }
  }

  predicate Faultless(env: Env) {
    !env.query.existsRaises && !env.query.pmRaises && !env.hostMd5Raises && !env.deviceMd5Raises && !env.finishRaises
  }

  lemma {:induction false} NothingStaleIff(md5: Md5, apks: seq<Apk>, onDevice: set<Sum>)
    ensures ToStale(md5, apks, onDevice) == [] <==> forall a :: a in apks ==> md5(a) in onDevice
  {
    var stale := ToStale(md5, apks, onDevice);
    forall a ensures a in stale <==> a in apks && md5(a) !in onDevice {
      StaleAre(md5, apks, onDevice, a);
    }
    if stale != [] {
      assert stale[0] in stale;
    }
  }

  /**
   * When all selected APKs are there already and nothing raises, an install is a no-op exactly when: for a
   * single APK, it is the only one of its package; for splits, the package has several, and the cached
   * checksums, if there are any, have all the selected ones.
   */
  lemma {:induction false} InstalledIsNoopIff(md5: Md5, s: State, r: Request, env: Env)
    requires Injective(md5) && r.Valid() && NoClash(r.apks) && SoundAt(md5, s, r.pkg) && Faultless(env)
    requires r.Wanted() <= s.On(r.pkg).Values
    ensures var end := Install(md5, s, r, env);
      && (!end.usedAdb ==> end.ok && end.state.device == s.device)
      && (!end.usedAdb <==>
            if r.split then |s.On(r.pkg).Keys| > 1 && (r.pkg in s.sums ==> SumsOf(md5, r.Wanted()) <= s.sums[r.pkg])
            else |s.On(r.pkg).Keys| == 1)
  {
    InstallIsRight(md5, s, r, env);
    GetPathsIsExact(md5, s, r.pkg, env.query);
    SkipsIff(md5, s, r, env);
    var s1, paths := GetPaths(s, r.pkg, env.query).0, s.On(r.pkg).Keys;
    var onDevice := DeviceSums(md5, s1, r.pkg, paths);
    NothingStaleIff(md5, r.apks, onDevice);
    DeviceSumsAreThere(md5, s1, r.pkg, paths);
    assert r.apks[0] in r.Wanted();
    if !r.split && |paths| == 1 {
      OnlyOne(md5, s1, r, onDevice);
    }
    if r.pkg !in s.sums {
      AllSums(md5, s1, r, paths);
    }
    assert (forall a :: a in r.apks ==> md5(a) in onDevice) <==> SumsOf(md5, r.Wanted()) <= onDevice;
  }

  lemma {:induction false} SkipsIff(md5: Md5, s: State, r: Request, env: Env)
    requires r.Valid() && SoundAt(md5, s, r.pkg) && Faultless(env)
    ensures var s1, n := GetPaths(s, r.pkg, env.query).0, |s.On(r.pkg).Keys|;
      && (!Install(md5, s, r, env).usedAdb <==>
            && (if r.split then n > 1 else n == 1)
            && ToStale(md5, r.apks, DeviceSums(md5, s1, r.pkg, s.On(r.pkg).Keys)) == [])
      && (!Install(md5, s, r, env).usedAdb ==> Install(md5, s, r, env).ok)
  {
    GetPathsIsExact(md5, s, r.pkg, env.query);
  }

  lemma {:induction false} OnlyOne(md5: Md5, s: State, r: Request, onDevice: set<Sum>)
    requires r.Valid() && !r.split && |s.On(r.pkg).Keys| == 1 && r.Wanted() <= s.On(r.pkg).Values
    requires onDevice <= SumsOf(md5, s.On(r.pkg).Values) && onDevice != {}
    ensures forall a :: a in r.apks ==> md5(a) in onDevice
  {
    var i, a := s.On(r.pkg), r.apks[0];
    assert a in r.Wanted();
    var p :| p in i && i[p] == a;
    assert i.Keys == {p} by {
      assert |i.Keys - {p}| == 0;
    }
    var x :| x in onDevice;
    assert x == md5(a);
  }

  lemma {:induction false} AllSums(md5: Md5, s: State, r: Request, paths: set<Path>)
    requires r.pkg !in s.sums && paths == s.On(r.pkg).Keys && r.Wanted() <= s.On(r.pkg).Values
    ensures SumsOf(md5, r.Wanted()) <= DeviceSums(md5, s, r.pkg, paths)
  {
    forall a | a in r.Wanted() ensures md5(a) in DeviceSums(md5, s, r.pkg, paths) {
      var p :| p in s.On(r.pkg) && s.On(r.pkg)[p] == a;
    }
  }

  /**
   * An install that found a selection there caches only that selection's checksums, so a selection with
   * one split more is installed again although it is there too.
   */
  lemma {:induction false} SmallerSelectionForgets(md5: Md5, s: State, r: Request, more: Request, env: Env, a: Apk)
    requires Injective(md5) && r.Valid() && NoClash(r.apks) && SoundAt(md5, s, r.pkg)
    requires r.split && !Install(md5, s, r, env).usedAdb && Install(md5, s, r, env).ok
    requires more.Valid() && NoClash(more.apks) && more.split && more.pkg == r.pkg && Faultless(env)
    requires more.Wanted() <= s.On(r.pkg).Values && a in more.apks && a !in r.apks
    ensures var s1 := Install(md5, s, r, env).state;
      && more.Wanted() <= s1.On(r.pkg).Values
      && Install(md5, s1, more, env).usedAdb
  {
    SkipMeansThere(md5, s, r, env);
    InstallIsRight(md5, s, r, env);
    InstalledIsNoopIff(md5, s, r, env);
    SkipRemembers(md5, s, r, env);
    var s1 := Install(md5, s, r, env).state;
    InstalledIsNoopIff(md5, s1, more, env);
    assert a in more.Wanted() && md5(a) in SumsOf(md5, more.Wanted());
  }

  lemma {:induction false} SkipRemembers(md5: Md5, s: State, r: Request, env: Env)
    requires r.Valid() && Faultless(env)
    requires Install(md5, s, r, env).ok && !Install(md5, s, r, env).usedAdb
    ensures var s1 := Install(md5, s, r, env).state;
      r.pkg in s1.sums && s1.sums[r.pkg] == SumsOf(md5, r.Wanted())
  {
  }

  // ---------------------------------------------------------------------------------------------
  // Runs

  datatype Op = DoInstall(r: Request) | DoUninstall(pkg: Package) | DoQuery(pkg: Package)

  function Step(md5: Md5, s: State, op: Op, env: Env): State {
    match op
    case DoInstall(r) => Install(md5, s, r, env).state
    case DoUninstall(pkg) => Uninstall(s, pkg, env.uninstalls).0
    case DoQuery(pkg) => GetPaths(s, pkg, env.query).0
  }

  predicate Fair(md5: Md5, s: State, op: Op, env: Env) {
    op.DoInstall? ==> op.r.Valid() && !RemembersClash(md5, s, op.r, env)
  }

  predicate ValidRun(run: seq<(Op, Env)>) {
    forall i :: 0 <= i < |run| && run[i].0.DoInstall? ==> run[i].0.r.Valid()
  }

  /** No install of the run remembers the checksums of APKs whose split names clash. */
  predicate FairRun(md5: Md5, s: State, run: seq<(Op, Env)>)
    decreases |run|
  {
    run == [] || (Fair(md5, s, run[0].0, run[0].1) && FairRun(md5, Step(md5, s, run[0].0, run[0].1), run[1..]))
  }

  ghost predicate AlwaysSound(md5: Md5, s: State, run: seq<(Op, Env)>)
    decreases |run|
  {
    Sound(md5, s) && (run == [] || AlwaysSound(md5, Step(md5, s, run[0].0, run[0].1), run[1..]))
  }

  lemma {:induction false} FinishLeavesOthers(s: State, r: Request, toInstall: seq<Apk>, hostSums: Option<set<Sum>>,
                                              env: Env, q: Package)
    requires q != r.pkg
    ensures SameFor(s, Finish(s, r, toInstall, hostSums, env).state, q)
  {
  }

  lemma {:induction false} GetPathsLeavesOthers(s: State, pkg: Package, query: Query, q: Package)
    requires q != pkg
    ensures SameFor(s, GetPaths(s, pkg, query).0, q)
  {
  }

  lemma {:induction false} AttemptLeavesOthers(s: State, pkg: Package, a: Attempt, q: Package)
    requires q != pkg
    ensures SameFor(s, TryUninstall(s, pkg, a).0, q)
  {
    GetPathsLeavesOthers(s, pkg, a.query, q);
  }

  lemma {:induction false} UninstallLeavesOthers(s: State, pkg: Package, attempts: seq<Attempt>, q: Package)
    requires q != pkg
    ensures SameFor(s, Uninstall(s, pkg, attempts).0, q)
    decreases |attempts|
  {
    if attempts != [] {
      AttemptLeavesOthers(s, pkg, attempts[0], q);
      UninstallLeavesOthers(TryUninstall(s, pkg, attempts[0]).0, pkg, attempts[1..], q);
    }
  }

  lemma {:induction false} ReplaceLeavesOthers(s: State, r: Request, toInstall: seq<Apk>, hostSums: Option<set<Sum>>,
                                               env: Env, q: Package)
    requires q != r.pkg
    ensures SameFor(s, Replace(s, r, toInstall, hostSums, env).state, q)
  {
    FinishLeavesOthers(s, r, toInstall, hostSums, env, q);
    UninstallLeavesOthers(s, r.pkg, env.uninstalls, q);
    FinishLeavesOthers(Uninstall(s, r.pkg, env.uninstalls).0, r, r.apks, hostSums, env, q);
  }

  lemma {:induction false} InstallLeavesOthers(md5: Md5, s: State, r: Request, env: Env, q: Package)
    requires q != r.pkg
    ensures SameFor(s, Install(md5, s, r, env).state, q)
  {
    GetPathsLeavesOthers(s, r.pkg, env.query, q);
    var (s1, found) := GetPaths(s, r.pkg, env.query);
    if found.Some? {
      FinishLeavesOthers(s1, r, r.apks, None, env, q);
      ReplaceLeavesOthers(Compared(md5, s1, r.pkg, found.value, env), r, r.apks, None, env, q);
      var onDevice := DeviceSums(md5, s1, r.pkg, found.value);
      var s2 := s1.(sums := s1.sums[r.pkg := onDevice]);
      ReplaceLeavesOthers(s2, r, ToStale(md5, r.apks, onDevice), Some(SumsOf(md5, r.Wanted())), env, q);
    }
  }

  lemma {:induction false} StepKeepsSound(md5: Md5, s: State, op: Op, env: Env, q: Package)
    requires Injective(md5) && SoundAt(md5, s, q) && Fair(md5, s, op, env)
    ensures SoundAt(md5, Step(md5, s, op, env), q)
  {
    match op {
      case DoInstall(r) =>
        if q == r.pkg {
          CacheStaysTrueIff(md5, s, r, env);
        } else {
          InstallLeavesOthers(md5, s, r, env, q);
        }
      case DoUninstall(pkg) =>
        if q == pkg {
          UninstallRemoves(md5, s, pkg, env.uninstalls);
        } else {
          UninstallLeavesOthers(s, pkg, env.uninstalls, q);
        }
      case DoQuery(pkg) =>
        if q == pkg {
          GetPathsIsExact(md5, s, pkg, env.query);
        } else {
          GetPathsLeavesOthers(s, pkg, env.query, q);
        }
    }
  }

  lemma {:induction false} StepIsSoundIff(md5: Md5, s: State, op: Op, env: Env)
    requires Injective(md5) && Sound(md5, s) && (op.DoInstall? ==> op.r.Valid())
    ensures Sound(md5, Step(md5, s, op, env)) <==> Fair(md5, s, op, env)
  {
    if Fair(md5, s, op, env) {
      forall q ensures SoundAt(md5, Step(md5, s, op, env), q) {
        StepKeepsSound(md5, s, op, env, q);
      }
    } else {
      CacheStaysTrueIff(md5, s, op.r, env);
    }
  }

  /**
   * Over every run, cached lists are exact and cached checksums are on the device at every point, exactly if no
   * install remembers the checksums of APKs whose split names clash.
   */
  lemma {:induction false} CacheIsSoundIff(md5: Md5, s: State, run: seq<(Op, Env)>)
    requires Injective(md5) && Sound(md5, s) && ValidRun(run)
    ensures AlwaysSound(md5, s, run) <==> FairRun(md5, s, run)
    decreases |run|
  {
    if run != [] {
      StepIsSoundIff(md5, s, run[0].0, run[0].1);
      if Fair(md5, s, run[0].0, run[0].1) {
        CacheIsSoundIff(md5, Step(md5, s, run[0].0, run[0].1), run[1..]);
      }
    }
  }

  // ---------------------------------------------------------------------------------------------
  // Lists that were loaded, and may not be what the device has

  /** A loaded list that is still to be verified, with a path the device does not have. */
  predicate IsOutdated(s: State, pkg: Package) {
    pkg in s.paths && pkg in s.toVerify && !(s.paths[pkg] <= s.On(pkg).Keys)
  }

  function AfterQueries(s: State, pkg: Package, queries: seq<Query>): State {
    if queries == [] then s
    else GetPaths(AfterQueries(s, pkg, queries[..|queries| - 1]), pkg, queries[|queries| - 1]).0
  }

  lemma {:induction false} FirstQueryDecides(s: State, pkg: Package, queries: seq<Query>)
    requires IsOutdated(s, pkg) && queries != []
    ensures var after := AfterQueries(s, pkg, queries);
      && after.device == s.device && pkg !in after.toVerify && pkg in after.paths
      && after.paths[pkg] ==
           if queries[0].existsRaises || queries[0].pmRaises then s.paths[pkg] else s.On(pkg).Keys
    decreases |queries|
  {
    var n := |queries| - 1;
    if n == 0 {
      assert AfterQueries(s, pkg, queries[..0]) == s;
    } else {
      FirstQueryDecides(s, pkg, queries[..n]);
    }
  }

  /**
   * The mark goes before the list is checked. So every later query of an outdated list returns it, unasked,
   * exactly if the first query raised, in the existence check or in the query that should replace the list.
   */
  lemma {:induction false} CaughtListComesBack(s: State, pkg: Package, queries: seq<Query>, last: Query)
    requires IsOutdated(s, pkg) && queries != []
    ensures GetPaths(AfterQueries(s, pkg, queries), pkg, last).1 == Some(s.paths[pkg])
      <==> queries[0].existsRaises || queries[0].pmRaises
    ensures s.paths[pkg] != AfterQueries(s, pkg, queries).On(pkg).Keys
  {
    FirstQueryDecides(s, pkg, queries);
  }

  /** A loaded list that passes for verified, or is replaced, is exact unless the device has more than it lists. */
  lemma {:induction false} VerifiedIsExactIff(s: State, pkg: Package, q: Query)
    requires pkg in s.paths && pkg in s.toVerify && GetPaths(s, pkg, q).1.Some?
    ensures GetPaths(s, pkg, q).1 == Some(s.On(pkg).Keys) <==> !(s.paths[pkg] < s.On(pkg).Keys)
  {
    var listed, there := s.paths[pkg], s.On(pkg).Keys;
    assert listed < there <==> listed <= there && listed != there;
  }

  // ---------------------------------------------------------------------------------------------
  // Installing with a cache that may not be true of the device

  /** The checksums claim a selected APK that is not there, and do not lead to an uninstall. */
  predicate ClaimsMissing(md5: Md5, s: State, r: Request, sums: set<Sum>) {
    && (exists a :: a in r.apks && md5(a) in sums && a !in s.On(r.pkg).Values)
    && (r.reinstall || forall a :: a in r.apks ==> md5(a) in sums)
  }

  /** Cached checksums are used, and they claim what is missing. */
  predicate Misleads(md5: Md5, s: State, r: Request) {
    var (s1, found) := GetPaths(s, r.pkg, Query(false, false));
    && (if r.split then |found.value| > 1 else |found.value| == 1)
    && r.pkg in s1.sums && ClaimsMissing(md5, s, r, s1.sums[r.pkg])
  }

  lemma {:induction false} FoundIsFaultless(s: State, pkg: Package, q: Query)
    requires GetPaths(s, pkg, q).1.Some?
    ensures GetPaths(s, pkg, q) == GetPaths(s, pkg, Query(false, false))
    ensures GetPaths(s, pkg, q).0.device == s.device
  {
  }

  lemma {:induction false} FullInstallIsThere(s: State, r: Request, hostSums: Option<set<Sum>>, env: Env)
    requires r.Valid() && Finish(s, r, r.apks, hostSums, env).ok
    ensures r.Wanted() <= Finish(s, r, r.apks, hostSums, env).state.On(r.pkg).Values
  {
  }

  lemma {:induction false} StaleInstallIsThere(md5: Md5, s: State, r: Request, onDevice: set<Sum>,
                                               hostSums: Option<set<Sum>>, env: Env)
    requires r.Valid() && NoClash(r.apks) && Finish(s, r, ToStale(md5, r.apks, onDevice), hostSums, env).ok
    requires forall a :: a in r.apks && md5(a) in onDevice ==> a in s.On(r.pkg).Values
    ensures r.Wanted() <= Finish(s, r, ToStale(md5, r.apks, onDevice), hostSums, env).state.On(r.pkg).Values
  {
    var stale := ToStale(md5, r.apks, onDevice);
    var end := Finish(s, r, stale, hostSums, env);
    StaleIsCovered(md5, s, r, onDevice);
    forall a | a in r.Wanted() ensures a in end.state.On(r.pkg).Values {
      if stale != [] {
        InstalledIsThere(s, r, stale, env.install.left, a);
      }
    }
  }

  /** If the checksums lead to a wrong install on some device, they mislead. */
  lemma {:induction false} UnmisledIsThere(md5: Md5, s: State, r: Request, env: Env)
    requires Injective(md5) && r.Valid() && NoClash(r.apks) && !Misleads(md5, s, r) && Install(md5, s, r, env).ok
    ensures r.Wanted() <= Install(md5, s, r, env).state.On(r.pkg).Values
  {
    var (s1, found) := GetPaths(s, r.pkg, env.query);
    FoundIsFaultless(s, r.pkg, env.query);
    var n := |found.value|;
    if n == 0 || (n > 1 && !r.split) || (n == 1 && r.split) {
      FullInstallIsThere(s1, r, None, env);
    } else if env.hostMd5Raises {
      ReplacedIsThere(Compared(md5, s1, r.pkg, found.value, env), r, r.apks, None, env);
    } else {
      var onDevice := DeviceSums(md5, s1, r.pkg, found.value);
      var s2, hostSums := s1.(sums := s1.sums[r.pkg := onDevice]), Some(SumsOf(md5, r.Wanted()));
      var stale := ToStale(md5, r.apks, onDevice);
      NothingStaleIff(md5, r.apks, onDevice);
      if stale != [] && !r.reinstall {
        ReplacedIsThere(s2, r, stale, hostSums, env);
      } else {
        assert forall a :: a in r.apks && md5(a) in onDevice ==> a in s2.On(r.pkg).Values;
        StaleInstallIsThere(md5, s2, r, onDevice, hostSums, env);
      }
    }
  }

  lemma {:induction false} ReplacedIsThere(s: State, r: Request, toInstall: seq<Apk>, hostSums: Option<set<Sum>>,
                                           env: Env)
    requires r.Valid() && toInstall != [] && (r.reinstall ==> toInstall == r.apks)
    requires Replace(s, r, toInstall, hostSums, env).ok
    ensures r.Wanted() <= Replace(s, r, toInstall, hostSums, env).state.On(r.pkg).Values
  {
    if r.reinstall {
      FullInstallIsThere(s, r, hostSums, env);
    } else {
      FullInstallIsThere(Uninstall(s, r.pkg, env.uninstalls).0, r, hostSums, env);
    }
  }

  /** An installation with these APKs, each at a path of its own. */
  function Holding(apks: set<Apk>): (i: Installation)
    requires forall a, b :: a in apks && b in apks && a.split == b.split ==> a == b
    ensures OnePerSplit(i) && i.Values == apks
  {
    var i := map a | a in apks :: a.split := a;
    assert forall a :: a in apks ==> i[a.split] == a;
    i
  }

  /** An install in which nothing raises and the cached checksums are used. */
  lemma {:induction false} CachedSumsAreUsed(md5: Md5, s: State, r: Request, env: Env)
    requires Faultless(env)
    requires var (s1, found) := GetPaths(s, r.pkg, Query(false, false));
      && found.Some? && (if r.split then |found.value| > 1 else |found.value| == 1) && r.pkg in s1.sums
    ensures var s1 := GetPaths(s, r.pkg, Query(false, false)).0;
      && s1.device == s.device
      && Install(md5, s, r, env) ==
           Replace(s1, r, ToStale(md5, r.apks, s1.sums[r.pkg]), Some(SumsOf(md5, r.Wanted())), env)
  {
    var (s1, found) := GetPaths(s, r.pkg, Query(false, false));
    assert env.query == Query(false, false);
    assert s1.(sums := s1.sums[r.pkg := s1.sums[r.pkg]]) == s1;
  }

  /** What a device may do on which misleading checksums leave a selected APK missing. */
  lemma {:induction false} MisledInstall(md5: Md5, s: State, r: Request) returns (env: Env)
    requires Injective(md5) && r.Valid() && NoClash(r.apks) && OnePerSplit(s.On(r.pkg)) && Misleads(md5, s, r)
    ensures var end := Install(md5, s, r, env);
      end.ok && !(r.Wanted() <= end.state.On(r.pkg).Values)
  {
    var s1 := GetPaths(s, r.pkg, Query(false, false)).0;
    var onDevice, installed := s1.sums[r.pkg], s.On(r.pkg);
    var stale := ToStale(md5, r.apks, onDevice);
    var a :| a in r.apks && md5(a) in onDevice && a !in installed.Values;
    NothingStaleIff(md5, r.apks, onDevice);
    var added := SetOf(stale);
    var left := LeftByPartial(md5, s, r, onDevice, a);
    env := Env(Query(false, false), false, false, [], Works(left), false);
    CachedSumsAreUsed(md5, s, r, env);
    assert a in r.Wanted();
  }

  /** What a working partial install may leave, and it lacks an APK that is claimed and not there. */
  lemma {:induction false} LeftByPartial(md5: Md5, s: State, r: Request, onDevice: set<Sum>, a: Apk)
    returns (left: Installation)
    requires r.Valid() && NoClash(r.apks) && OnePerSplit(s.On(r.pkg))
    requires a in r.apks && md5(a) in onDevice && a !in s.On(r.pkg).Values
    ensures var stale := ToStale(md5, r.apks, onDevice);
      var added := SetOf(stale);
      && a !in left.Values
      && (stale != [] ==> Installs(s.On(r.pkg), added, r.split && |stale| < |r.apks|, true, left))
  {
    var stale := ToStale(md5, r.apks, onDevice);
    var added := SetOf(stale);
    forall b ensures b in stale <==> b in r.apks && md5(b) !in onDevice {
      StaleAre(md5, r.apks, onDevice, b);
    }
    left := Holding(added + Kept(s.On(r.pkg), added));
    if stale != [] {
      SomeIsClaimed(md5, r, onDevice, a);
    }
  }

  lemma {:induction false} SomeIsClaimed(md5: Md5, r: Request, onDevice: set<Sum>, a: Apk)
    requires r.Valid() && a in r.apks && md5(a) in onDevice && ToStale(md5, r.apks, onDevice) != []
    ensures r.split && |ToStale(md5, r.apks, onDevice)| < |r.apks|
  {
    StaleAre(md5, r.apks, onDevice, a);
    if |ToStale(md5, r.apks, onDevice)| == |r.apks| {
      AllStale(md5, r.apks, onDevice);
    }
  }

  /**
   * From any cache, true of the device or not, whatever the device does, an install that returns leaves all
   * selected APKs there, exactly if the cached checksums do not mislead.
   */
  lemma {:induction false} AllThereIffNotMisled(md5: Md5, s: State, r: Request)
    requires Injective(md5) && r.Valid() && NoClash(r.apks) && OnePerSplit(s.On(r.pkg))
    ensures !Misleads(md5, s, r) <==>
      forall env :: Install(md5, s, r, env).ok ==> r.Wanted() <= Install(md5, s, r, env).state.On(r.pkg).Values
  {
    if Misleads(md5, s, r) {
      var env := MisledInstall(md5, s, r);
    } else {
      forall env | Install(md5, s, r, env).ok ensures r.Wanted() <= Install(md5, s, r, env).state.On(r.pkg).Values {
        UnmisledIsThere(md5, s, r, env);
      }
    }
  }

  /**
   * A cache that was just loaded misleads only where the loaded paths are all still there: then its checksums,
   * however old, are used.
   */
  lemma {:induction false} LoadedMisleadsIff(md5: Md5, s: State, r: Request)
    requires r.pkg in s.paths && r.pkg in s.toVerify
    ensures var listed := s.paths[r.pkg];
      Misleads(md5, s, r) <==>
        && listed <= s.On(r.pkg).Keys && (if r.split then |listed| > 1 else |listed| == 1)
        && r.pkg in s.sums && ClaimsMissing(md5, s, r, s.sums[r.pkg])
  {
  }

  // ---------------------------------------------------------------------------------------------
  // The object

  method NotOnDevice(md5: Md5, apks: seq<Apk>, onDevice: set<Sum>) returns (stale: seq<Apk>)
    ensures stale == ToStale(md5, apks, onDevice)
  {
    stale := [];
    for i := 0 to |apks|
      invariant stale == ToStale(md5, apks[..i], onDevice)
    {
      assert apks[..i + 1][..i] == apks[..i];
      if md5(apks[i]) !in onDevice {
        stale := stale + [apks[i]];
      }
    }
    assert apks[..|apks|] == apks;
  }

  class DeviceUtils {
    const md5: Md5
    var device: map<Package, Installation>
    var packageApkPaths: map<Package, set<Path>>
    var packageApkChecksums: map<Package, set<Sum>>
    var packageApkPathsToVerify: set<Package>

    constructor (md5: Md5, device: map<Package, Installation>)
      ensures this.md5 == md5 && Now() == State(device, map[], map[], {})
    {
      this.md5, this.device := md5, device;
      packageApkPaths, packageApkChecksums, packageApkPathsToVerify := map[], map[], {};
    }

    function Now(): State
      reads this
    {
      State(device, packageApkPaths, packageApkChecksums, packageApkPathsToVerify)
    }

    function On(pkg: Package): Installation
      reads this
    {
      if pkg in device then device[pkg] else map[]
    }

    /** No result is an exception. */
    method GetApplicationPathsInternal(pkg: Package, q: Query) returns (paths: Option<set<Path>>)
      modifies this`packageApkPaths, this`packageApkChecksums, this`packageApkPathsToVerify
      ensures (Now(), paths) == GetPaths(old(Now()), pkg, q)
    {
      if pkg in packageApkPaths {
        var cached := Some(packageApkPaths[pkg]);
        if pkg in packageApkPathsToVerify {
          packageApkPathsToVerify := packageApkPathsToVerify - {pkg};
          if cached.value != {} {
            if q.existsRaises {
              return None;
            }
            if !(cached.value <= On(pkg).Keys) {
              cached := None;
              packageApkChecksums := packageApkChecksums - {pkg};
            }
          }
        }
        if cached.Some? {
          return cached;
        }
      }
      if q.pmRaises {
        return None;
      }
      packageApkPaths := packageApkPaths[pkg := On(pkg).Keys];
      return Some(On(pkg).Keys);
    }

    method Wrecked(pkg: Package, left: Installation)
      modifies this`device
      ensures Now() == Wreck(old(Now()), pkg, left)
    {
      if OnePerSplit(left) {
        device := device[pkg := left];
      }
    }

    method TryUninstallPackage(pkg: Package, a: Attempt) returns (ok: bool)
      modifies this
      ensures (Now(), ok) == TryUninstall(old(Now()), pkg, a)
    {
      var installed := GetApplicationPathsInternal(pkg, a.query);
      if installed.None? {
        return false;
      }
      if installed.value == {} {
        return true;
      }
      if a.uninstall.Raises? {
        Wrecked(pkg, a.uninstall.left);
        packageApkPaths, packageApkChecksums := packageApkPaths - {pkg}, packageApkChecksums - {pkg};
        return false;
      }
      device := device[pkg := map[]];
      packageApkPaths, packageApkChecksums := packageApkPaths[pkg := {}], packageApkChecksums[pkg := {}];
      return true;
    }

    /** The call with its retries. */
    method UninstallPackage(pkg: Package, attempts: seq<Attempt>) returns (ok: bool)
      modifies this
      ensures (Now(), ok) == Uninstall(old(Now()), pkg, attempts)
    {
      ghost var end := Uninstall(Now(), pkg, attempts);
      assert attempts[0..] == attempts;
      for i := 0 to |attempts|
        invariant end == Uninstall(Now(), pkg, attempts[i..])
      {
        assert attempts[i..][0] == attempts[i] && attempts[i..][1..] == attempts[i + 1..];
        ok := TryUninstallPackage(pkg, attempts[i]);
        if ok {
          return;
        }
      }
      return false;
    }

    /** Both sides end before an error is raised; no result is that error, the host's first. */
    method ComputeStaleApks(r: Request, paths: set<Path>, env: Env)
      returns (stale: Option<seq<Apk>>, hostSums: Option<set<Sum>>)
      modifies this`packageApkChecksums
      ensures Now() == Compared(md5, old(Now()), r.pkg, paths, env)
      ensures stale.Some? <==>
        !env.hostMd5Raises && !(env.deviceMd5Raises && r.pkg !in old(packageApkChecksums))
      ensures stale.Some? ==> stale.value == ToStale(md5, r.apks, DeviceSums(md5, old(Now()), r.pkg, paths))
      ensures hostSums == if stale.Some? then Some(SumsOf(md5, r.Wanted())) else None
    {
      stale, hostSums := None, None;
      var onDevice := DeviceSums(md5, Now(), r.pkg, paths);
      var deviceRaises := env.deviceMd5Raises && r.pkg !in packageApkChecksums;
      if !deviceRaises {
        packageApkChecksums := packageApkChecksums[r.pkg := onDevice];
      }
      if !env.hostMd5Raises && !deviceRaises {
        var list := NotOnDevice(md5, r.apks, onDevice);
        stale, hostSums := Some(list), Some(SumsOf(md5, r.Wanted()));
      }
    }

    method InstallInternal(r: Request, env: Env) returns (ok: bool, usedAdb: bool)
      modifies this
      ensures Result(Now(), ok, usedAdb) == Install(md5, old(Now()), r, env)
    {
      var found := GetApplicationPathsInternal(r.pkg, env.query);
      if found.None? {
        return false, false;
      }
      var n := |found.value|;
      var toInstall, hostSums := r.apks, None;
      usedAdb := false;
      if !(n == 0 || (n > 1 && !r.split) || (n == 1 && r.split)) {
        var stale;
        stale, hostSums := ComputeStaleApks(r, found.value, env);
        if stale.None? && !env.hostMd5Raises {
          return false, false;
        }
        if stale.Some? {
          toInstall := stale.value;
        }
        if toInstall != [] && !r.reinstall {
          usedAdb := true;
          ok := UninstallPackage(r.pkg, env.uninstalls);
          if !ok {
            return;
          }
          toInstall := r.apks;
        }
      }
      var used;
      ok, used := InstallApks(r, toInstall, hostSums, env);
      usedAdb := usedAdb || used;
    }

    method InstallApks(r: Request, toInstall: seq<Apk>, hostSums: Option<set<Sum>>, env: Env)
      returns (ok: bool, usedAdb: bool)
      modifies this
      ensures Result(Now(), ok, usedAdb) == Finish(old(Now()), r, toInstall, hostSums, env)
    {
      usedAdb := toInstall != [];
      if usedAdb {
        packageApkPaths, packageApkChecksums := packageApkPaths - {r.pkg}, packageApkChecksums - {r.pkg};
        var partial := r.split && |toInstall| < |r.apks|;
        var added := SetOf(toInstall);
        if !(env.install.Works? && Installs(On(r.pkg), added, partial, r.reinstall, env.install.left)) {
          Wrecked(r.pkg, env.install.left);
          return false, true;
        }
        device := device[r.pkg := env.install.left];
      }
      if env.finishRaises {
        return false, usedAdb;
      }
      if hostSums.Some? {
        packageApkChecksums := packageApkChecksums[r.pkg := hostSums.value];
      }
      ok := true;
    }
  }
}
