/**
 * The check of `HTMLModule.Load` that a file which uses `tr.exportTo` depends on the base module. It reads the
 * memoised set while modules are being loaded, so on cycles it can miss the base module.
 */
module BaseChecks {
  import opened ModuleGraph
  import opened ModuleLoader
  import opened CyclicMemos

  /** The file needs the base module, and has it among its dependencies. */
  ghost predicate IsSupported(files: Files, m: Name) {
    m in files && !files[m].isScript && files[m].usesExport ==> DependsOn(ImportGraph(files), m, BASE_MODULE)
  }

  /** Every file that is reached and needs the base module depends on it. */
  ghost predicate ExportsAreSupported(files: Files, n: Name) {
    forall m :: Reaches(ImportGraph(files), n, m) ==> IsSupported(files, m)
  }

  // ---------------------------------------------------------------------------------------------
  // What a load that goes through shows

  ghost predicate NewAreSupported(files: Files, s: Loaded, after: Loaded) {
    forall m :: m in after.deps && m !in s.deps ==> IsSupported(files, m)
  }

  lemma {:induction false} LoadSupports(files: Files, s: Loaded, n: Name)
    requires Valid(files, s) && Within(s.deps, s.memo) && Load(files, s, n).1
    ensures var after := Load(files, s, n).0; Within(after.deps, after.memo) && NewAreSupported(files, s, after)
    decreases files.Keys - s.deps.Keys, 0
  {
    if n !in s.deps {
      PushStaysWithin(s, n);
      if !files[n].isScript {
        LoadUnfolds(files, s, n);
        ImportsSupport(files, Registered(s, n), n, files[n].imports);
        var s1 := LoadImports(files, Registered(s, n), n, files[n].imports).0;
        FillStaysWithin(s1.deps, s1.memo, n);
        LoadedPathsAreImportPaths(files, s1, n, BASE_MODULE);
        assert files[n].usesExport ==> BASE_MODULE in Fill(s1.deps, s1.memo, n)[n];
      }
    }
  }

  lemma {:induction false} ImportsSupport(files: Files, s: Loaded, n: Name, todo: seq<Name>)
    requires Valid(files, s) && n in s.deps && forall i :: 0 <= i < |todo| ==> todo[i] in ImportGraph(files)[n]
    requires Within(s.deps, s.memo) && LoadImports(files, s, n, todo).1
    ensures var after := LoadImports(files, s, n, todo).0;
      Within(after.deps, after.memo) && NewAreSupported(files, s, after)
    decreases files.Keys - s.deps.Keys, |todo|
  {
    if todo != [] {
      LoadSupports(files, s, todo[0]);
      ImportUnfolds(files, s, n, todo);
      var s1 := Load(files, s, todo[0]).0;
      var s2, rest := Appended(s1, n, todo[0]), todo[1..];
      MoreEdges(s1.deps, s2.deps, s1.memo);
      ImportsSupport(files, s2, n, rest);
    }
  }

  /** Whatever the cycles, after a load that goes through all imports exist and all exports are supported. */
  lemma {:induction false} LoadNeeds(files: Files, n: Name)
    requires Load(files, EMPTY, n).1
    ensures n in files && ImportsExist(files, n) && ExportsAreSupported(files, n)
  {
    LoadsExactlyReached(files, n);
    LoadSupports(files, EMPTY, n);
    var s, g := Load(files, EMPTY, n).0, ImportGraph(files);
    ReachedImportsExist(files, s, n);
  }

  lemma {:induction false} ReachedImportsExist(files: Files, s: Loaded, n: Name)
    requires Valid(files, s) && Closed(s.deps) && n in s.deps
    requires forall m :: m in s.deps <==> Reaches(ImportGraph(files), n, m)
    requires forall m :: m in s.deps ==> s.deps[m] == ImportGraph(files)[m]
    ensures n in files && ImportsExist(files, n)
  {
    forall m, k | Reaches(ImportGraph(files), n, m) && 0 <= k < |ImportGraph(files)[m]|
      ensures ImportGraph(files)[m][k] in files
    {
      assert s.deps[m][k] in s.deps;
    }
  }

  // ---------------------------------------------------------------------------------------------
  // Without cycles that is enough

  ghost predicate IsReady(files: Files, n: Name) {
    && n in files && NoneEmptyBelow(files, n) && ImportsExist(files, n) && ExportsAreSupported(files, n)
    && AcyclicFrom(ImportGraph(files), n)
  }

  lemma {:induction false} ImportIsReady(files: Files, n: Name, d: Name)
    requires IsReady(files, n) && d in ImportGraph(files)[n]
    ensures IsReady(files, d)
  {
    var g := ImportGraph(files);
    ReachesItself(g, n);
    var k :| 0 <= k < |g[n]| && g[n][k] == d;
    EdgesStayBelow(g, n, d);
  }

  /** What loading a module that is not in the table comes to, whether or not it raises. */
  lemma {:induction false} LoadIs(files: Files, s: Loaded, n: Name)
    requires Valid(files, s) && n !in s.deps && n in files && !files[n].isScript
    ensures Valid(files, Registered(s, n))
    ensures files.Keys - Registered(s, n).deps.Keys < files.Keys - s.deps.Keys
    ensures var (s1, ok) := LoadImports(files, Registered(s, n), n, files[n].imports);
      Load(files, s, n).1 <==> ok && (files[n].usesExport ==> BASE_MODULE in Fill(s1.deps, s1.memo, n)[n])
  {
    assert n in files.Keys - s.deps.Keys && n !in files.Keys - Registered(s, n).deps.Keys;
  }

  lemma {:induction false} ReadyGoesThrough(files: Files, s: Loaded, n: Name)
    requires Valid(files, s) && IsReady(files, n) && SettledSoFar(files, s, n)
    ensures Load(files, s, n).1
    decreases files.Keys - s.deps.Keys, 0
  {
    ReachesItself(ImportGraph(files), n);
    if n !in s.deps && !files[n].isScript {
      LoadIs(files, s, n);
      RegisteredIsSettledBeside(files, s, n);
      ReadyImportsGoThrough(files, Registered(s, n), n, 0);
      assert files[n].imports[0..] == files[n].imports;
      BaseIsFound(files, Registered(s, n), n);
    }
  }

  /** When the imports are loaded and settled, the memo shows the base module if it is a dependency. */
  lemma {:induction false} BaseIsFound(files: Files, s: Loaded, n: Name)
    requires Valid(files, s) && n in s.deps && s.deps[n] == [] && s.memo[n] == {} && !files[n].isScript
    requires AcyclicFrom(ImportGraph(files), n) && IsSupported(files, n)
    requires LoadImports(files, s, n, files[n].imports).1
    requires var s1 := LoadImports(files, s, n, files[n].imports).0;
      forall k :: 0 <= k < |files[n].imports| ==> SettledBelow(files, s1, files[n].imports[k])
    ensures var s1 := LoadImports(files, s, n, files[n].imports).0;
      files[n].usesExport ==> BASE_MODULE in Fill(s1.deps, s1.memo, n)[n]
  {
    var s1 := LoadImports(files, s, n, files[n].imports).0;
    ReadyToFill(files, s, n);
    FillKeepsSettled(files, s1, n);
    if files[n].usesExport {
      DependencyIsThere(files, n, BASE_MODULE);
    }
  }

  lemma {:induction false} DependencyIsThere(files: Files, n: Name, m: Name)
    requires DependsOn(ImportGraph(files), n, m)
    ensures m in Dependencies(ImportGraph(files), n)
  {
    DependsOnReaches(ImportGraph(files), n, m);
  }

  lemma {:induction false} ReadyImportsGoThrough(files: Files, s: Loaded, n: Name, i: nat)
    requires Valid(files, s) && n in s.deps && !files[n].isScript && i <= |files[n].imports|
    requires IsReady(files, n) && SettledBeside(files, s, n)
    requires forall k :: 0 <= k < i ==> SettledBelow(files, s, files[n].imports[k])
    ensures var (after, ok) := LoadImports(files, s, n, files[n].imports[i..]);
      ok && forall k :: 0 <= k < |files[n].imports| ==> SettledBelow(files, after, files[n].imports[k])
    decreases files.Keys - s.deps.Keys, |files[n].imports| - i
  {
    var imports := files[n].imports;
    if i < |imports| {
      var d := imports[i];
      ReachesItself(ImportGraph(files), n);
      EdgesStayBelow(ImportGraph(files), n, d);
      ImportIsReady(files, n, d);
      ReadyGoesThrough(files, s, d);
      ImportStep(files, s, n, imports, i);
      LoadSettles(files, s, d);
      OneImportSettles(files, s, n, i);
      var s2 := Appended(Load(files, s, d).0, n, d);
      ReadyImportsGoThrough(files, s2, n, i + 1);
    }
  }

  /**
   * When no file that is reached is empty and no cycle is reached, loading goes through exactly if every import
   * of a file that is reached exists, and every such file that needs the base module depends on it.
   */
  lemma {:induction false} AcyclicLoadGoesThroughIff(files: Files, n: Name)
    requires n in files && NoneEmptyBelow(files, n) && AcyclicFrom(ImportGraph(files), n)
    ensures Load(files, EMPTY, n).1 <==> ImportsExist(files, n) && ExportsAreSupported(files, n)
  {
    if Load(files, EMPTY, n).1 {
      LoadNeeds(files, n);
    }
    if ImportsExist(files, n) && ExportsAreSupported(files, n) {
      ReadyGoesThrough(files, EMPTY, n);
    }
  }

  // ---------------------------------------------------------------------------------------------
  // With cycles it is not

  /**
   * Two files that import each other, the second with nothing else and in need of the base module: loading the
   * first raises, whatever it imports besides, the base module included.
   */
  lemma {:induction false} CycleHidesBase(files: Files, a: Name, b: Name, rest: seq<Name>)
    requires a in files && b in files && a != b && a != BASE_MODULE && !files[a].empty
    requires BASE_MODULE in rest ==> BASE_MODULE in files
    requires files[a].imports == [b] + rest && !files[a].isScript && files[b] == File(false, [a], false, true)
    ensures !Load(files, EMPTY, a).1
    ensures BASE_MODULE in rest ==> DependsOn(ImportGraph(files), b, BASE_MODULE)
  {
    LoadIs(files, EMPTY, a);
    SecondFails(files, Registered(EMPTY, a), a, b);
    ImportStep(files, Registered(EMPTY, a), a, files[a].imports, 0);
    assert files[a].imports[0..] == files[a].imports && files[a].imports[0] == b;
    if BASE_MODULE in rest {
      BaseBehindCycle(ImportGraph(files), a, b, rest);
    }
  }

  lemma {:induction false} BaseBehindCycle(g: Graph, a: Name, b: Name, rest: seq<Name>)
    requires a in g && b in g && g[a] == [b] + rest && g[b] == [a] && BASE_MODULE in rest && BASE_MODULE in g
    ensures DependsOn(g, b, BASE_MODULE)
  {
    var k :| 0 <= k < |rest| && rest[k] == BASE_MODULE;
    assert g[a][k + 1] == BASE_MODULE;
    assert IsPath(g, [b, a, BASE_MODULE]);
  }

  lemma {:induction false} SecondFails(files: Files, s: Loaded, a: Name, b: Name)
    requires Valid(files, s) && s == Loaded(map[a := []], map[a := {}]) && a in files && b in files && a != b
    requires a != BASE_MODULE && !files[a].empty && files[b] == File(false, [a], false, true)
    ensures !Load(files, s, b).1
  {
    LoadIs(files, s, b);
    OneImport(files, Registered(s, b), b, a);
    var s1 := Appended(Registered(s, b), b, a);
    assert s1.deps[b] == [a] && s1.deps[a] == [];
    FillOfOne(s1.deps, s1.memo, a, b);
  }

  /** Importing one module that is in the table already. */
  lemma {:induction false} OneImport(files: Files, s: Loaded, n: Name, d: Name)
    requires Valid(files, s) && n in s.deps && d in s.deps && !files[d].empty && ImportGraph(files)[n] == [d]
    ensures Valid(files, Appended(s, n, d)) && LoadImports(files, s, n, [d]) == (Appended(s, n, d), true)
  {
    assert [d][0..] == [d] && [d][1..] == [];
    ImportStep(files, s, n, [d], 0);
  }

  lemma {:induction false} FillOfOne(deps: Graph, memo: Memo, a: Name, b: Name)
    requires Memoised(deps, memo) && a in deps && b in deps && a != b
    requires deps[a] == [] && deps[b] == [a] && memo[a] == {} && memo[b] == {}
    ensures Fill(deps, memo, b)[b] == {a}
  {
    var started := memo[b := AsSet([a])];
    assert [a][0] in AsSet([a]) && AsSet([a]) == {a} && [a][1..] == [];
    assert b in Unset(deps, memo) && b !in Unset(deps, started);
    assert Fill(deps, started, a) == started;
    var next := started[b := started[b] + started[a]];
    assert FillFrom(deps, started, b, [a]) == FillFrom(deps, next, b, []);
  }
}
