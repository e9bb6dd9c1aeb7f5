/**
 * The resource loader: `ResourceLoader.LoadModule` with its table of loaded modules, `Module.Load`, and the
 * memoised `all_dependent_modules_recursive`. Its sets on graphs with cycles are in `CyclicMemos.dfy`.
 */
module ModuleLoader {
  import opened Wrappers
  import opened ModuleGraph
  import LoadSequence

  /** A module's file: a script has no imports; `empty` and `usesExport` describe its contents. */
  datatype File = File(isScript: bool, imports: seq<Name>, empty: bool, usesExport: bool)

  type Files = map<Name, File>

  const BASE_MODULE := "tracing.base.base"

  function ImportGraph(files: Files): Graph {
    map n | n in files :: if files[n].isScript then [] else files[n].imports
  }

  /** No file that is reached is empty. */
  ghost predicate NoneEmptyBelow(files: Files, n: Name) {
    forall m :: Reaches(ImportGraph(files), n, m) ==> !files[m].empty
  }

  /** No file that is reached is empty or needs the base module. */
  ghost predicate FaultlessBelow(files: Files, n: Name) {
    NoneEmptyBelow(files, n) && forall m :: Reaches(ImportGraph(files), n, m) ==> !files[m].usesExport
  }

  /** Every import of a file that is reached exists. */
  ghost predicate ImportsExist(files: Files, n: Name) {
    forall m, k :: Reaches(ImportGraph(files), n, m) && 0 <= k < |ImportGraph(files)[m]| ==>
      ImportGraph(files)[m][k] in files
  }

  lemma {:induction false} DependenciesAreEdgesAndBeyond(g: Graph, n: Name, x: Name)
    requires n in g && forall k :: 0 <= k < |g[n]| ==> g[n][k] in g
    ensures x in Dependencies(g, n) <==>
      exists k :: 0 <= k < |g[n]| && (x == g[n][k] || x in Dependencies(g, g[n][k]))
  {
    if x in Dependencies(g, n) {
      DependsOnEdge(g, n, x);
      var b :| b in g[n] && Reaches(g, b, x);
      ReachesSplit(g, b, x);
      var k :| 0 <= k < |g[n]| && g[n][k] == b;
    }
    if k :| 0 <= k < |g[n]| && (x == g[n][k] || x in Dependencies(g, g[n][k])) {
      if x == g[n][k] {
        ReachesItself(g, x);
      } else {
        DependsOnReaches(g, g[n][k], x);
      }
      EdgeThenPath(g, n, g[n][k], x);
    }
  }

  /** What is reached from a dependency of `n` is reached from `n`, and is not `n` when `n` is on no cycle. */
  lemma {:induction false} EdgesStayBelow(g: Graph, n: Name, d: Name)
    requires n in g && d in g[n]
    ensures forall m :: Reaches(g, d, m) ==> Reaches(g, n, m)
    ensures !DependsOn(g, n, n) ==> !Reaches(g, d, n)
    ensures AcyclicFrom(g, n) ==> AcyclicFrom(g, d)
  {
    forall m | Reaches(g, d, m) ensures Reaches(g, n, m) && DependsOn(g, n, m) {
      EdgeThenPath(g, n, d, m);
    }
  }

  // ---------------------------------------------------------------------------------------------
  // The memoised set of all dependencies

  /** The memo field of each module; {} stands for a memo that is unset or empty. */
  type Memo = map<Name, set<Name>>

  ghost predicate Memoised(deps: Graph, memo: Memo) {
    Closed(deps) && memo.Keys == deps.Keys
  }

  ghost function Unset(deps: Graph, memo: Memo): set<Name> {
    set m | m in memo && m in deps && memo[m] == {} && deps[m] != []
  }

  function AsSet(s: seq<Name>): set<Name> {
    set x | x in s
  }

  /** The memos after `n.all_dependent_modules_recursive` has been read. */
  function Fill(deps: Graph, memo: Memo, n: Name): (r: Memo)
    requires Memoised(deps, memo) && n in deps
    ensures Memoised(deps, r) && Unset(deps, r) <= Unset(deps, memo)
    ensures forall m :: m in memo && memo[m] != {} ==> r[m] != {}
    decreases Unset(deps, memo), 0
  {
    if memo[n] != {} || deps[n] == [] then memo
    else
      var started := memo[n := AsSet(deps[n])];
      assert deps[n][0] in started[n];
      assert n in Unset(deps, memo) && n !in Unset(deps, started);
      FillFrom(deps, started, n, deps[n])
  }

  function FillFrom(deps: Graph, memo: Memo, n: Name, todo: seq<Name>): (r: Memo)
    requires Memoised(deps, memo) && n in deps && memo[n] != {}
    requires forall i :: 0 <= i < |todo| ==> todo[i] in deps
    ensures Memoised(deps, r) && Unset(deps, r) <= Unset(deps, memo)
    ensures forall m :: m in memo && memo[m] != {} ==> r[m] != {}
    decreases Unset(deps, memo), |todo|
  {
    if todo == [] then memo
    else
      var below := Fill(deps, memo, todo[0]);
      assert n !in Unset(deps, memo);
      FillFrom(deps, below[n := below[n] + below[todo[0]]], n, todo[1..])
  }

  lemma {:induction false} FillStep(deps: Graph, memo: Memo, n: Name, todo: seq<Name>, i: nat)
    requires Memoised(deps, memo) && n in deps && memo[n] != {} && i < |todo|
    requires forall j :: 0 <= j < |todo| ==> todo[j] in deps
    ensures n !in Unset(deps, memo)
    ensures var below := Fill(deps, memo, todo[i]);
      FillFrom(deps, memo, n, todo[i..]) == FillFrom(deps, below[n := below[n] + below[todo[i]]], n, todo[i + 1..])
  {
    assert todo[i..][0] == todo[i] && todo[i..][1..] == todo[i + 1..];
  }

  /** Reading a memo writes only the memos of modules reached from there. */
  lemma {:induction false} FillStaysBelow(deps: Graph, memo: Memo, n: Name, m: Name)
    requires Memoised(deps, memo) && n in deps && m in deps && !Reaches(deps, n, m)
    ensures Fill(deps, memo, n)[m] == memo[m]
    decreases Unset(deps, memo), 0
  {
    ReachesItself(deps, n);
    if memo[n] == {} && deps[n] != [] {
      var started := memo[n := AsSet(deps[n])];
      assert deps[n][0] in started[n];
      assert n in Unset(deps, memo) && n !in Unset(deps, started);
      FillFromStaysBelow(deps, started, n, deps[n], m);
    }
  }

  lemma {:induction false} FillFromStaysBelow(deps: Graph, memo: Memo, n: Name, todo: seq<Name>, m: Name)
    requires Memoised(deps, memo) && n in deps && memo[n] != {} && m in deps && !Reaches(deps, n, m)
    requires forall i :: 0 <= i < |todo| ==> todo[i] in deps[n]
    ensures FillFrom(deps, memo, n, todo)[m] == memo[m]
    decreases Unset(deps, memo), |todo|
  {
    ReachesItself(deps, n);
    if todo != [] {
      EdgesStayBelow(deps, n, todo[0]);
      FillStaysBelow(deps, memo, todo[0], m);
      var below := Fill(deps, memo, todo[0]);
      assert n !in Unset(deps, memo);
      FillFromStaysBelow(deps, below[n := below[n] + below[todo[0]]], n, todo[1..], m);
    }
  }

  /** A memo that is set is the set of all dependencies. */
  ghost predicate RightAt(deps: Graph, memo: Memo, m: Name) {
    m in memo && (memo[m] == {} || memo[m] == Dependencies(deps, m))
  }

  ghost predicate RightBelow(deps: Graph, memo: Memo, n: Name) {
    forall m :: Reaches(deps, n, m) ==> RightAt(deps, memo, m)
  }

  /** The part of the dependencies of `n` that the first `i` of its dependent modules account for. */
  ghost predicate Accounts(deps: Graph, n: Name, i: nat, found: set<Name>)
    requires n in deps && i <= |deps[n]|
  {
    forall x :: x in found <==>
      x in deps[n] || exists k :: 0 <= k < i && x in Dependencies(deps, deps[n][k])
  }

  /** Without cycles, reading the memo of `n` gives all its dependencies and keeps the memos below it right. */
  lemma {:induction false} FillIsRight(deps: Graph, memo: Memo, n: Name)
    requires Memoised(deps, memo) && n in deps && AcyclicFrom(deps, n) && RightBelow(deps, memo, n)
    ensures Fill(deps, memo, n)[n] == Dependencies(deps, n) && RightBelow(deps, Fill(deps, memo, n), n)
    decreases Unset(deps, memo), 0
  {
    ReachesItself(deps, n);
    if deps[n] == [] {
      NoDependencies(deps, n);
    } else if memo[n] == {} {
      var started := memo[n := AsSet(deps[n])];
      assert deps[n][0] in started[n];
      assert n in Unset(deps, memo) && n !in Unset(deps, started);
      FillFromIsRight(deps, started, n, 0);
      assert deps[n][0..] == deps[n];
      AllAccounted(deps, n, FillFrom(deps, started, n, deps[n])[n]);
    }
  }

  lemma {:induction false} NoDependencies(deps: Graph, n: Name)
    requires n in deps && deps[n] == []
    ensures Dependencies(deps, n) == {}
  {
    forall x ensures x !in Dependencies(deps, n) {
      DependenciesAreEdgesAndBeyond(deps, n, x);
    }
  }

  lemma {:induction false} AllAccounted(deps: Graph, n: Name, found: set<Name>)
    requires Closed(deps) && n in deps && Accounts(deps, n, |deps[n]|, found)
    ensures found == Dependencies(deps, n)
  {
    forall x ensures x in found <==> x in Dependencies(deps, n) {
      DependenciesAreEdgesAndBeyond(deps, n, x);
    }
  }

  ghost predicate RightStrictlyBelow(deps: Graph, memo: Memo, n: Name) {
    forall m :: m != n && Reaches(deps, n, m) ==> RightAt(deps, memo, m)
  }

  lemma {:induction false} FillFromIsRight(deps: Graph, memo: Memo, n: Name, i: nat)
    requires Memoised(deps, memo) && n in deps && AcyclicFrom(deps, n) && i <= |deps[n]|
    requires memo[n] != {} && RightStrictlyBelow(deps, memo, n) && Accounts(deps, n, i, memo[n])
    ensures var r := FillFrom(deps, memo, n, deps[n][i..]);
      RightStrictlyBelow(deps, r, n) && Accounts(deps, n, |deps[n]|, r[n])
    decreases Unset(deps, memo), |deps[n]| - i
  {
    if i < |deps[n]| {
      var d := deps[n][i];
      assert deps[n][i..][1..] == deps[n][i + 1..];
      EdgesStayBelow(deps, n, d);
      FillIsRight(deps, memo, d);
      var below := Fill(deps, memo, d);
      assert below[n] == memo[n] by {
        FillStaysBelow(deps, memo, d, n);
      }
      var next := below[n := below[n] + below[d]];
      assert n !in Unset(deps, memo);
      forall m | m != n && Reaches(deps, n, m) ensures RightAt(deps, next, m) {
        ReachesSplit(deps, n, m);
        if !Reaches(deps, d, m) {
          FillStaysBelow(deps, memo, d, m);
        }
      }
      FillFromIsRight(deps, next, n, i + 1);
    }
  }

  // ---------------------------------------------------------------------------------------------
  // Loading

  /** The loaded modules with their dependent modules so far, and their memos. */
  datatype Loaded = Loaded(deps: Graph, memo: Memo)

  ghost predicate Valid(files: Files, s: Loaded) {
    && Memoised(s.deps, s.memo)
    && s.deps.Keys <= files.Keys
    && forall m, k :: m in s.deps && 0 <= k < |s.deps[m]| ==> s.deps[m][k] in ImportGraph(files)[m]
  }

  /** `LoadModule`; the flag is false when it raises. */
  function Load(files: Files, s: Loaded, n: Name): (r: (Loaded, bool))
    requires Valid(files, s)
    ensures Valid(files, r.0) && s.deps.Keys <= r.0.deps.Keys
    ensures r.1 ==> n in r.0.deps
    decreases files.Keys - s.deps.Keys, 0
  {
    if n in s.deps then (s, !files[n].empty)
    else if n !in files then (s, false)
    else
      var registered := Loaded(s.deps[n := []], s.memo[n := {}]);
      if files[n].isScript then (registered, true)
      else
        assert n in files.Keys - s.deps.Keys && n !in files.Keys - registered.deps.Keys;
        var (s1, ok) := LoadImports(files, registered, n, files[n].imports);
        if !ok then (s1, false)
        else
          var memo := Fill(s1.deps, s1.memo, n);
          (Loaded(s1.deps, memo), files[n].usesExport ==> BASE_MODULE in memo[n])
  }

  function LoadImports(files: Files, s: Loaded, n: Name, todo: seq<Name>): (r: (Loaded, bool))
    requires Valid(files, s) && n in s.deps && forall i :: 0 <= i < |todo| ==> todo[i] in ImportGraph(files)[n]
    ensures Valid(files, r.0) && s.deps.Keys <= r.0.deps.Keys
    decreases files.Keys - s.deps.Keys, |todo|
  {
    if todo == [] then (s, true)
    else
      var (s1, ok) := Load(files, s, todo[0]);
      if !ok then (s1, false)
      else
        AppendedIsValid(files, s1, n, todo[0]);
        LoadImports(files, Appended(s1, n, todo[0]), n, todo[1..])
  }

  lemma {:induction false} ImportStep(files: Files, s: Loaded, n: Name, todo: seq<Name>, i: nat)
    requires Valid(files, s) && n in s.deps && i < |todo|
    requires forall j :: 0 <= j < |todo| ==> todo[j] in ImportGraph(files)[n]
    ensures var (s1, ok) := Load(files, s, todo[i]);
      && (!ok ==> LoadImports(files, s, n, todo[i..]) == (s1, false))
      && (ok ==>
            && todo[i] in s1.deps && Valid(files, Appended(s1, n, todo[i]))
            && LoadImports(files, s, n, todo[i..]) == LoadImports(files, Appended(s1, n, todo[i]), n, todo[i + 1..]))
  {
    assert todo[i..][0] == todo[i] && todo[i..][1..] == todo[i + 1..];
    var (s1, ok) := Load(files, s, todo[i]);
    if ok {
      AppendedIsValid(files, s1, n, todo[i]);
    }
  }

  function Appended(s: Loaded, n: Name, d: Name): Loaded
    requires n in s.deps
  {
    s.(deps := s.deps[n := s.deps[n] + [d]])
  }

  lemma {:induction false} AppendedIsValid(files: Files, s: Loaded, n: Name, d: Name)
    requires Valid(files, s) && n in s.deps && d in s.deps && d in ImportGraph(files)[n]
    ensures Valid(files, Appended(s, n, d)) && Appended(s, n, d).deps.Keys == s.deps.Keys
  {
  }

  /** What a load of a module that is not in the table is made of. */
  lemma {:induction false} LoadUnfolds(files: Files, s: Loaded, n: Name)
    requires Valid(files, s) && n !in s.deps && n in files && !files[n].isScript && Load(files, s, n).1
    ensures var registered := Loaded(s.deps[n := []], s.memo[n := {}]);
      && Valid(files, registered) && registered.deps[n] == []
      && files.Keys - registered.deps.Keys < files.Keys - s.deps.Keys
      && LoadImports(files, registered, n, files[n].imports).1
      && var s1 := LoadImports(files, registered, n, files[n].imports).0;
         Load(files, s, n).0 == s1.(memo := Fill(s1.deps, s1.memo, n))
  {
    var registered := Loaded(s.deps[n := []], s.memo[n := {}]);
    assert n in files.Keys - s.deps.Keys && n !in files.Keys - registered.deps.Keys;
  }

  /** What loading a list of imports is made of. */
  lemma {:induction false} ImportUnfolds(files: Files, s: Loaded, n: Name, todo: seq<Name>)
    requires Valid(files, s) && n in s.deps && forall i :: 0 <= i < |todo| ==> todo[i] in ImportGraph(files)[n]
    requires todo != [] && LoadImports(files, s, n, todo).1
    ensures var s1 := Load(files, s, todo[0]).0;
      && Load(files, s, todo[0]).1 && todo[0] in s1.deps && n in s1.deps
      && Valid(files, Appended(s1, n, todo[0]))
      && files.Keys - Appended(s1, n, todo[0]).deps.Keys <= files.Keys - s.deps.Keys
      && (forall i :: 0 <= i < |todo[1..]| ==> todo[1..][i] in ImportGraph(files)[n])
      && LoadImports(files, s, n, todo) == LoadImports(files, Appended(s1, n, todo[0]), n, todo[1..])
  {
    AppendedIsValid(files, Load(files, s, todo[0]).0, n, todo[0]);
  }

  lemma {:induction false} CompleteStays(files: Files, s: Loaded, after: Loaded, m: Name)
    requires Complete(files, s, m) && s.deps.Keys <= after.deps.Keys && after.deps[m] == s.deps[m]
    ensures Complete(files, after, m)
  {
  }

  /** Module `m` is completely loaded: its dependent modules are its imports, and they are loaded too. */
  predicate Complete(files: Files, s: Loaded, m: Name) {
    && m in s.deps && m in files
    && s.deps[m] == ImportGraph(files)[m]
    && forall k :: 0 <= k < |s.deps[m]| ==> s.deps[m][k] in s.deps
  }

  /** Loading touches no module that is already in the table. */
  lemma {:induction false} LoadKeepsLoaded(files: Files, s: Loaded, n: Name, m: Name)
    requires Valid(files, s) && m in s.deps
    ensures Load(files, s, n).0.deps[m] == s.deps[m]
    decreases files.Keys - s.deps.Keys, 0
  {
    if n !in s.deps && n in files && !files[n].isScript {
      var registered := Loaded(s.deps[n := []], s.memo[n := {}]);
      assert n in files.Keys - s.deps.Keys && n !in files.Keys - registered.deps.Keys;
      ImportsKeepOthers(files, registered, n, files[n].imports, m);
    }
  }

  /** Loading imports touches no other module that is in the table. */
  lemma {:induction false} ImportsKeepOthers(files: Files, s: Loaded, n: Name, todo: seq<Name>, m: Name)
    requires Valid(files, s) && n in s.deps && forall i :: 0 <= i < |todo| ==> todo[i] in ImportGraph(files)[n]
    requires m in s.deps && m != n
    ensures LoadImports(files, s, n, todo).0.deps[m] == s.deps[m]
    decreases files.Keys - s.deps.Keys, |todo|
  {
    if todo != [] {
      LoadKeepsLoaded(files, s, todo[0], m);
      var (s1, ok) := Load(files, s, todo[0]);
      if ok {
        AppendedIsValid(files, s1, n, todo[0]);
        ImportsKeepOthers(files, Appended(s1, n, todo[0]), n, todo[1..], m);
      }
    }
  }

  /** Loading imports appends them to the importing module, in order. */
  lemma {:induction false} ImportsAreAppended(files: Files, s: Loaded, n: Name, todo: seq<Name>)
    requires Valid(files, s) && n in s.deps && forall i :: 0 <= i < |todo| ==> todo[i] in ImportGraph(files)[n]
    requires LoadImports(files, s, n, todo).1
    ensures LoadImports(files, s, n, todo).0.deps[n] == s.deps[n] + todo
    decreases |todo|
  {
    if todo == [] {
      assert s.deps[n] + [] == s.deps[n];
    } else {
      LoadKeepsLoaded(files, s, todo[0], n);
      ImportUnfolds(files, s, n, todo);
      var s2, rest := Appended(Load(files, s, todo[0]).0, n, todo[0]), todo[1..];
      ImportsAreAppended(files, s2, n, rest);
      OneThenRest(s.deps[n], todo);
    }
  }

  lemma {:induction false} OneThenRest(before: seq<Name>, todo: seq<Name>)
    requires todo != []
    ensures before + [todo[0]] + todo[1..] == before + todo
  {
    assert todo == [todo[0]] + todo[1..];
  }

  /** What loading `n` adds: complete modules that `n` reaches. */
  ghost predicate AddsReached(files: Files, s: Loaded, after: Loaded, n: Name) {
    forall m :: m in after.deps && m !in s.deps ==> Complete(files, after, m) && Reaches(ImportGraph(files), n, m)
  }

  lemma {:induction false} LoadAddsReached(files: Files, s: Loaded, n: Name)
    requires Valid(files, s) && Load(files, s, n).1
    ensures AddsReached(files, s, Load(files, s, n).0, n)
    decreases files.Keys - s.deps.Keys, 0
  {
    if n !in s.deps {
      var g := ImportGraph(files);
      ReachesItself(g, n);
      var registered := Loaded(s.deps[n := []], s.memo[n := {}]);
      if !files[n].isScript {
        LoadUnfolds(files, s, n);
        ImportsAddReached(files, registered, n, files[n].imports);
        var s1 := LoadImports(files, registered, n, files[n].imports).0;
        ImportsAreAppended(files, registered, n, files[n].imports);
        assert s1.deps[n] == [] + files[n].imports == files[n].imports;
        forall m | m in s1.deps && m !in s.deps ensures Complete(files, s1, m) && Reaches(g, n, m) {
          assert m == n || m !in registered.deps;
        }
      }
    }
  }

  lemma {:induction false} ImportsAddReached(files: Files, s: Loaded, n: Name, todo: seq<Name>)
    requires Valid(files, s) && n in s.deps && forall i :: 0 <= i < |todo| ==> todo[i] in ImportGraph(files)[n]
    requires LoadImports(files, s, n, todo).1
    ensures AddsReached(files, s, LoadImports(files, s, n, todo).0, n)
    decreases files.Keys - s.deps.Keys, |todo|
  {
    if todo != [] {
      var s1 := Load(files, s, todo[0]).0;
      LoadAddsReached(files, s, todo[0]);
      EdgesStayBelow(ImportGraph(files), n, todo[0]);
      AppendedIsValid(files, s1, n, todo[0]);
      var s2 := Appended(s1, n, todo[0]);
      ImportsAddReached(files, s2, n, todo[1..]);
      var s3 := LoadImports(files, s2, n, todo[1..]).0;
      forall m | m in s3.deps && m !in s.deps
        ensures Complete(files, s3, m) && Reaches(ImportGraph(files), n, m)
      {
        if m in s1.deps {
          if m != n {
            ImportsKeepOthers(files, s2, n, todo[1..], m);
          }
          CompleteStays(files, s1, s3, m);
        }
      }
    }
  }

  const EMPTY := Loaded(map[], map[])

  /**
   * A load into an empty table that returns has built one module for each name that is reached, each
   * with its imports as dependent modules. This includes graphs with cycles.
   */
  lemma {:induction false} LoadsExactlyReached(files: Files, n: Name)
    requires Load(files, EMPTY, n).1
    ensures var s := Load(files, EMPTY, n).0;
      && (forall m :: m in s.deps <==> Reaches(ImportGraph(files), n, m))
      && (forall m :: m in s.deps ==> s.deps[m] == ImportGraph(files)[m])
      && Closed(s.deps)
  {
    var g := ImportGraph(files);
    LoadAddsReached(files, EMPTY, n);
    var s := Load(files, EMPTY, n).0;
    assert forall m :: m in s.deps ==> Complete(files, s, m);
    forall m | Reaches(g, n, m) ensures m in s.deps {
      var p :| IsPath(g, p) && p[0] == n && p[|p| - 1] == m;
      ClosedSetHoldsPaths(g, s.deps.Keys, p);
    }
  }

  lemma {:induction false} LoadGoesThrough(files: Files, s: Loaded, n: Name)
    requires Valid(files, s) && n in files && FaultlessBelow(files, n) && ImportsExist(files, n)
    ensures Load(files, s, n).1
    decreases files.Keys - s.deps.Keys, 0
  {
    ReachesItself(ImportGraph(files), n);
    if n !in s.deps && !files[n].isScript {
      var registered := Loaded(s.deps[n := []], s.memo[n := {}]);
      assert n in files.Keys - s.deps.Keys && n !in files.Keys - registered.deps.Keys;
      ImportsGoThrough(files, registered, n, files[n].imports);
    }
  }

  lemma {:induction false} ImportsGoThrough(files: Files, s: Loaded, n: Name, todo: seq<Name>)
    requires Valid(files, s) && n in s.deps && FaultlessBelow(files, n) && ImportsExist(files, n)
    requires forall i :: 0 <= i < |todo| ==> todo[i] in ImportGraph(files)[n]
    ensures LoadImports(files, s, n, todo).1
    decreases files.Keys - s.deps.Keys, |todo|
  {
    if todo != [] {
      ImportIsFaultless(files, n, todo[0]);
      LoadGoesThrough(files, s, todo[0]);
      var s1, rest := Load(files, s, todo[0]).0, todo[1..];
      AppendedIsValid(files, s1, n, todo[0]);
      assert forall i :: 0 <= i < |rest| ==> rest[i] == todo[i + 1];
      ImportsGoThrough(files, Appended(s1, n, todo[0]), n, rest);
    }
  }

  lemma {:induction false} ImportIsFaultless(files: Files, n: Name, d: Name)
    requires n in files && d in ImportGraph(files)[n] && FaultlessBelow(files, n) && ImportsExist(files, n)
    ensures d in files && FaultlessBelow(files, d) && ImportsExist(files, d)
  {
    var g := ImportGraph(files);
    ReachesItself(g, n);
    var k :| 0 <= k < |g[n]| && g[n][k] == d;
    EdgesStayBelow(g, n, d);
  }

  /**
   * When no file that is reached is empty or needs the base module, loading goes through, whatever the
   * cycles, exactly if every import of a file that is reached exists.
   */
  lemma {:induction false} LoadGoesThroughIff(files: Files, n: Name)
    requires n in files && FaultlessBelow(files, n)
    ensures Load(files, EMPTY, n).1 <==> ImportsExist(files, n)
  {
    var g := ImportGraph(files);
    if Load(files, EMPTY, n).1 {
      LoadsExactlyReached(files, n);
      var s := Load(files, EMPTY, n).0;
      forall m, k | Reaches(g, n, m) && 0 <= k < |g[m]| ensures g[m][k] in files {
        assert m in s.deps && s.deps[m] == g[m];
        assert s.deps[m][k] in s.deps;
      }
    }
    if ImportsExist(files, n) {
      LoadGoesThrough(files, EMPTY, n);
    }
  }

  // ---------------------------------------------------------------------------------------------
  // The memos after loading

  /** Dependent modules recorded so far are imports, so what they reach the imports reach. */
  lemma {:induction false} LoadedPathsAreImportPaths(files: Files, s: Loaded, a: Name, b: Name)
    requires Valid(files, s)
    ensures Reaches(s.deps, a, b) ==> Reaches(ImportGraph(files), a, b)
    ensures DependsOn(s.deps, a, b) ==> DependsOn(ImportGraph(files), a, b)
  {
    var g := ImportGraph(files);
    assert forall p :: IsPath(s.deps, p) ==> IsPath(g, p) by {
      forall p | IsPath(s.deps, p) ensures IsPath(g, p) {
        forall i | 0 <= i < |p| - 1 ensures p[i + 1] in g[p[i]] {
          var k :| 0 <= k < |s.deps[p[i]]| && s.deps[p[i]][k] == p[i + 1];
        }
      }
    }
  }

  ghost predicate CompleteBelow(files: Files, s: Loaded, n: Name) {
    forall m :: Reaches(ImportGraph(files), n, m) ==> Complete(files, s, m)
  }

  lemma {:induction false} CompletePathsAgree(files: Files, s: Loaded, n: Name, m: Name)
    requires Valid(files, s) && CompleteBelow(files, s, n)
    ensures Reaches(s.deps, n, m) <==> Reaches(ImportGraph(files), n, m)
    ensures DependsOn(s.deps, n, m) <==> DependsOn(ImportGraph(files), n, m)
  {
    var g := ImportGraph(files);
    LoadedPathsAreImportPaths(files, s, n, m);
    forall p | IsPath(g, p) && p[0] == n ensures IsPath(s.deps, p) {
      forall i | 0 <= i < |p| ensures Complete(files, s, p[i]) {
        assert IsPath(g, p[..i + 1]);
        assert Reaches(g, n, p[i]);
      }
    }
  }

  lemma {:induction false} CompleteDependenciesAgree(files: Files, s: Loaded, n: Name)
    requires Valid(files, s) && CompleteBelow(files, s, n)
    ensures Dependencies(s.deps, n) == Dependencies(ImportGraph(files), n)
  {
    var g := ImportGraph(files);
    forall m ensures m in Dependencies(s.deps, n) <==> m in Dependencies(g, n) {
      CompletePathsAgree(files, s, n, m);
      if DependsOn(g, n, m) {
        DependsOnReaches(g, n, m);
      }
    }
  }

  /** Loading `n` leaves the memos of modules that `n` does not reach. */
  lemma {:induction false} LoadLeavesMemos(files: Files, s: Loaded, n: Name, m: Name)
    requires Valid(files, s) && m in s.deps && !Reaches(ImportGraph(files), n, m)
    ensures Load(files, s, n).0.memo[m] == s.memo[m]
    decreases files.Keys - s.deps.Keys, 0
  {
    if n !in s.deps && n in files && !files[n].isScript {
      ReachesItself(ImportGraph(files), n);
      var registered := Loaded(s.deps[n := []], s.memo[n := {}]);
      assert n in files.Keys - s.deps.Keys && n !in files.Keys - registered.deps.Keys;
      forall i | 0 <= i < |files[n].imports| ensures !Reaches(ImportGraph(files), files[n].imports[i], m) {
        EdgesStayBelow(ImportGraph(files), n, files[n].imports[i]);
      }
      ImportsLeaveMemos(files, registered, n, files[n].imports, m);
      var s1 := LoadImports(files, registered, n, files[n].imports).0;
      LoadedPathsAreImportPaths(files, s1, n, m);
      FillStaysBelow(s1.deps, s1.memo, n, m);
    }
  }

  lemma {:induction false} ImportsLeaveMemos(files: Files, s: Loaded, n: Name, todo: seq<Name>, m: Name)
    requires Valid(files, s) && n in s.deps && forall i :: 0 <= i < |todo| ==> todo[i] in ImportGraph(files)[n]
    requires m in s.deps && forall i :: 0 <= i < |todo| ==> !Reaches(ImportGraph(files), todo[i], m)
    ensures LoadImports(files, s, n, todo).0.memo[m] == s.memo[m]
    decreases files.Keys - s.deps.Keys, |todo|
  {
    if todo != [] {
      LoadLeavesMemos(files, s, todo[0], m);
      var (s1, ok) := Load(files, s, todo[0]);
      if ok {
        AppendedIsValid(files, s1, n, todo[0]);
        ImportsLeaveMemos(files, Appended(s1, n, todo[0]), n, todo[1..], m);
      }
    }
  }

  ghost predicate SettledAt(files: Files, s: Loaded, m: Name) {
    Complete(files, s, m) && RightAt(ImportGraph(files), s.memo, m)
  }

  /** The modules `n` reaches that are in the table already are complete, with right memos. */
  ghost predicate SettledSoFar(files: Files, s: Loaded, n: Name) {
    forall m :: Reaches(ImportGraph(files), n, m) && m in s.deps ==> SettledAt(files, s, m)
  }

  ghost predicate SettledBelow(files: Files, s: Loaded, n: Name) {
    forall m :: Reaches(ImportGraph(files), n, m) ==> SettledAt(files, s, m)
  }

  /** A complete module has everything it reaches in the table. */
  lemma {:induction false} SettledAllTheWay(files: Files, s: Loaded, n: Name)
    requires Valid(files, s) && n in s.deps && SettledSoFar(files, s, n)
    ensures SettledBelow(files, s, n)
  {
    var g := ImportGraph(files);
    ReachesItself(g, n);
    var all := set m | m in s.deps && Reaches(g, n, m);
    forall m, k | m in all && m in g && 0 <= k < |g[m]| ensures g[m][k] in all {
      assert SettledAt(files, s, m);
      PathThenEdge(g, n, m, g[m][k]);
    }
    forall m | Reaches(g, n, m) ensures SettledAt(files, s, m) {
      var p :| IsPath(g, p) && p[0] == n && p[|p| - 1] == m;
      ClosedSetHoldsPaths(g, all, p);
    }
  }

  lemma {:induction false} SettledIsComplete(files: Files, s: Loaded, n: Name)
    requires SettledBelow(files, s, n)
    ensures CompleteBelow(files, s, n)
  {
    forall m | Reaches(ImportGraph(files), n, m) ensures Complete(files, s, m) {
      assert SettledAt(files, s, m);
    }
  }

  lemma {:induction false} BelowTheBelow(files: Files, s: Loaded, n: Name, m: Name)
    requires SettledBelow(files, s, n) && Reaches(ImportGraph(files), n, m)
    ensures SettledBelow(files, s, m)
  {
    forall x | Reaches(ImportGraph(files), m, x) ensures SettledAt(files, s, x) {
      ReachesTransitive(ImportGraph(files), n, m, x);
    }
  }

  /** The dependencies recorded in the table are those of the import graph, and so the memos agree too. */
  lemma {:induction false} SettledIsRight(files: Files, s: Loaded, n: Name)
    requires Valid(files, s) && SettledBelow(files, s, n) && AcyclicFrom(ImportGraph(files), n)
    ensures RightBelow(s.deps, s.memo, n) && AcyclicFrom(s.deps, n)
    ensures Dependencies(s.deps, n) == Dependencies(ImportGraph(files), n)
  {
    SettledIsComplete(files, s, n);
    CompleteDependenciesAgree(files, s, n);
    forall m | Reaches(s.deps, n, m) ensures !DependsOn(s.deps, m, m) {
      LoadedPathsAreImportPaths(files, s, n, m);
      LoadedPathsAreImportPaths(files, s, m, m);
    }
    forall m | Reaches(s.deps, n, m) ensures RightAt(s.deps, s.memo, m) {
      LoadedPathsAreImportPaths(files, s, n, m);
      BelowTheBelow(files, s, n, m);
      SettledIsComplete(files, s, m);
      CompleteDependenciesAgree(files, s, m);
      assert SettledAt(files, s, m);
    }
  }

  /** Reading the memo of a settled module leaves what it reaches settled. */
  lemma {:induction false} FillKeepsSettled(files: Files, s: Loaded, n: Name)
    requires Valid(files, s) && n in s.deps && SettledBelow(files, s, n) && AcyclicFrom(ImportGraph(files), n)
    ensures SettledBelow(files, s.(memo := Fill(s.deps, s.memo, n)), n)
    ensures Fill(s.deps, s.memo, n)[n] == Dependencies(ImportGraph(files), n)
  {
    SettledIsRight(files, s, n);
    FillIsRight(s.deps, s.memo, n);
    var after := s.(memo := Fill(s.deps, s.memo, n));
    SettledIsComplete(files, s, n);
    forall m | Reaches(ImportGraph(files), n, m) ensures SettledAt(files, after, m) {
      CompletePathsAgree(files, s, n, m);
      BelowTheBelow(files, s, n, m);
      SettledIsComplete(files, s, m);
      CompleteDependenciesAgree(files, s, m);
      assert RightAt(s.deps, after.memo, m);
      assert Complete(files, s, m) && Complete(files, after, m);
    }
  }

  lemma {:induction false} LoadSettles(files: Files, s: Loaded, n: Name)
    requires Valid(files, s) && AcyclicFrom(ImportGraph(files), n) && SettledSoFar(files, s, n)
    requires Load(files, s, n).1
    ensures SettledBelow(files, Load(files, s, n).0, n)
    decreases files.Keys - s.deps.Keys, 0
  {
    var g := ImportGraph(files);
    if n in s.deps {
      SettledAllTheWay(files, s, n);
    } else {
      var registered := Loaded(s.deps[n := []], s.memo[n := {}]);
      if files[n].isScript {
        forall m | Reaches(g, n, m) ensures SettledAt(files, registered, m) {
          ScriptReachesItself(g, n, m);
        }
      } else {
        LoadUnfolds(files, s, n);
        RegisteredIsSettledBeside(files, s, n);
        ImportsSettle(files, registered, n, 0);
        assert files[n].imports[0..] == files[n].imports;
        ReadyToFill(files, registered, n);
        FillKeepsSettled(files, LoadImports(files, registered, n, files[n].imports).0, n);
      }
    }
  }

  lemma {:induction false} RegisteredIsSettledBeside(files: Files, s: Loaded, n: Name)
    requires Valid(files, s) && n !in s.deps && SettledSoFar(files, s, n)
    ensures SettledBeside(files, Loaded(s.deps[n := []], s.memo[n := {}]), n)
  {
    var registered := Loaded(s.deps[n := []], s.memo[n := {}]);
    forall m | m != n && Reaches(ImportGraph(files), n, m) && m in registered.deps
      ensures SettledAt(files, registered, m)
    {
      assert SettledAt(files, s, m);
      assert Complete(files, s, m);
    }
  }

  /** When the imports of a registered module are loaded and settled, everything is ready to fill its memo. */
  lemma {:induction false} ReadyToFill(files: Files, s: Loaded, n: Name)
    requires Valid(files, s) && n in s.deps && s.deps[n] == [] && s.memo[n] == {} && !files[n].isScript
    requires AcyclicFrom(ImportGraph(files), n) && LoadImports(files, s, n, files[n].imports).1
    requires var s1 := LoadImports(files, s, n, files[n].imports).0;
      forall k :: 0 <= k < |files[n].imports| ==> SettledBelow(files, s1, files[n].imports[k])
    ensures SettledBelow(files, LoadImports(files, s, n, files[n].imports).0, n)
  {
    var g, imports := ImportGraph(files), files[n].imports;
    ReachesItself(g, n);
    ImportsAreAppended(files, s, n, imports);
    assert [] + imports == imports;
    forall i | 0 <= i < |imports| ensures !Reaches(g, imports[i], n) {
      EdgesStayBelow(g, n, imports[i]);
    }
    ImportsLeaveMemos(files, s, n, imports, n);
    ImportsSettled(files, LoadImports(files, s, n, imports).0, n);
  }

  lemma {:induction false} ScriptReachesItself(g: Graph, n: Name, m: Name)
    requires n in g && g[n] == [] && Reaches(g, n, m)
    ensures m == n
  {
    ReachesSplit(g, n, m);
    if m != n {
      DependsOnEdge(g, n, m);
    }
  }

  lemma {:induction false} ImportsSettled(files: Files, s: Loaded, n: Name)
    requires Valid(files, s) && n in s.deps && s.deps[n] == ImportGraph(files)[n] && s.memo[n] == {}
    requires forall k :: 0 <= k < |s.deps[n]| ==> SettledBelow(files, s, s.deps[n][k])
    ensures SettledBelow(files, s, n)
  {
    var g := ImportGraph(files);
    forall m | Reaches(g, n, m) ensures SettledAt(files, s, m) {
      ReachesSplit(g, n, m);
      if m != n {
        DependsOnEdge(g, n, m);
        var b :| b in g[n] && Reaches(g, b, m);
        var k :| 0 <= k < |s.deps[n]| && s.deps[n][k] == b;
      }
    }
  }

  /** Everything `n` reaches that is in the table already, except `n` itself, is settled. */
  ghost predicate SettledBeside(files: Files, s: Loaded, n: Name) {
    forall m :: m != n && Reaches(ImportGraph(files), n, m) && m in s.deps ==> SettledAt(files, s, m)
  }

  lemma {:induction false} ImportsSettle(files: Files, s: Loaded, n: Name, i: nat)
    requires Valid(files, s) && n in s.deps && !files[n].isScript && i <= |files[n].imports|
    requires AcyclicFrom(ImportGraph(files), n) && SettledBeside(files, s, n)
    requires forall k :: 0 <= k < i ==> SettledBelow(files, s, files[n].imports[k])
    requires LoadImports(files, s, n, files[n].imports[i..]).1
    ensures var after := LoadImports(files, s, n, files[n].imports[i..]).0;
      && SettledBeside(files, after, n)
      && forall k :: 0 <= k < |files[n].imports| ==> SettledBelow(files, after, files[n].imports[k])
    decreases files.Keys - s.deps.Keys, |files[n].imports| - i
  {
    var g, imports := ImportGraph(files), files[n].imports;
    if i < |imports| {
      var d := imports[i];
      assert imports[i..][1..] == imports[i + 1..];
      EdgesStayBelow(g, n, d);
      LoadSettles(files, s, d);
      var s1 := Load(files, s, d).0;
      AppendedIsValid(files, s1, n, d);
      OneImportSettles(files, s, n, i);
      ImportsSettle(files, Appended(s1, n, d), n, i + 1);
    }
  }

  /** One round of the import loop: settled modules stay settled, and those of the new import are settled. */
  lemma {:induction false} OneImportSettles(files: Files, s: Loaded, n: Name, i: nat)
    requires Valid(files, s) && n in s.deps && !files[n].isScript && i < |files[n].imports|
    requires AcyclicFrom(ImportGraph(files), n) && SettledBeside(files, s, n)
    requires forall k :: 0 <= k < i ==> SettledBelow(files, s, files[n].imports[k])
    requires Load(files, s, files[n].imports[i]).1
    requires SettledBelow(files, Load(files, s, files[n].imports[i]).0, files[n].imports[i])
    ensures var after := Appended(Load(files, s, files[n].imports[i]).0, n, files[n].imports[i]);
      && SettledBeside(files, after, n)
      && forall k :: 0 <= k <= i ==> SettledBelow(files, after, files[n].imports[k])
  {
    var g, d := ImportGraph(files), files[n].imports[i];
    var s1 := Load(files, s, d).0;
    var after := Appended(s1, n, d);
    EdgesStayBelow(g, n, d);
    forall m | m != n && Reaches(g, n, m) && m in after.deps ensures SettledAt(files, after, m) {
      if !Reaches(g, d, m) {
        LoadAddsReached(files, s, d);
        assert SettledAt(files, s, m);
        LoadKeepsLoaded(files, s, d, m);
        LoadLeavesMemos(files, s, d, m);
        CompleteStays(files, s, s1, m);
      }
      assert SettledAt(files, s1, m);
      CompleteStays(files, s1, after, m);
    }
    forall k | 0 <= k <= i ensures SettledBelow(files, after, files[n].imports[k]) {
      var b := files[n].imports[k];
      EdgesStayBelow(g, n, b);
      forall m | Reaches(g, b, m) ensures SettledAt(files, after, m) {
        if k == i {
          assert SettledAt(files, s1, m);
        } else {
          assert SettledAt(files, s, m);
        }
      }
    }
  }

  /**
   * When the module loaded reaches no cycle, reading the memoised set of any module that was loaded gives
   * exactly the modules it depends on.
   */
  lemma {:induction false} MemosAreRight(files: Files, n: Name, m: Name)
    requires AcyclicFrom(ImportGraph(files), n) && Load(files, EMPTY, n).1
    requires Reaches(ImportGraph(files), n, m)
    ensures var s := Load(files, EMPTY, n).0;
      m in s.deps && Fill(s.deps, s.memo, m)[m] == Dependencies(ImportGraph(files), m)
  {
    LoadSettles(files, EMPTY, n);
    LoadsExactlyReached(files, n);
    var s := Load(files, EMPTY, n).0;
    BelowTheBelow(files, s, n, m);
    FillKeepsSettled(files, s, m);
  }

  // ---------------------------------------------------------------------------------------------
  // The loader as the code has it: tables that the recursion updates in place

  class ResourceLoader {
    const files: Files
    var dependentModules: Graph
    var memo: Memo

    function View(): Loaded
      reads this
    {
      Loaded(dependentModules, memo)
    }

    constructor (files: Files)
      ensures this.files == files && View() == EMPTY
    {
      this.files, dependentModules, memo := files, map[], map[];
    }

    method AllDependentModulesRecursive(n: Name) returns (r: set<Name>)
      requires Memoised(dependentModules, memo) && n in dependentModules
      modifies `memo
      ensures memo == Fill(dependentModules, old(memo), n) && r == memo[n]
      decreases Unset(dependentModules, memo), 0
    {
      var deps := dependentModules[n];
      if memo[n] == {} && deps != [] {
        ghost var before := memo;
        memo := memo[n := AsSet(deps)];
        assert deps[0] in memo[n];
        assert n in Unset(dependentModules, before) && n !in Unset(dependentModules, memo);
        AddBelow(n, deps);
      }
      r := memo[n];
    }

    /** The loop over the direct dependencies. */
    method AddBelow(n: Name, deps: seq<Name>)
      requires Memoised(dependentModules, memo) && n in dependentModules && memo[n] != {}
      requires forall i :: 0 <= i < |deps| ==> deps[i] in dependentModules
      modifies `memo
      ensures memo == FillFrom(dependentModules, old(memo), n, deps)
      decreases Unset(dependentModules, memo), 1
    {
      ghost var filled := FillFrom(dependentModules, memo, n, deps);
      assert deps[0..] == deps;
      for i := 0 to |deps|
        invariant Memoised(dependentModules, memo) && memo[n] != {}
        invariant Unset(dependentModules, memo) <= Unset(dependentModules, old(memo))
        invariant filled == FillFrom(dependentModules, memo, n, deps[i..])
      {
        FillStep(dependentModules, memo, n, deps, i);
        var below := AllDependentModulesRecursive(deps[i]);
        memo := memo[n := memo[n] + below];
      }
    }

    method LoadModule(n: Name) returns (ok: bool)
      requires Valid(files, View())
      modifies this
      ensures (View(), ok) == Load(files, old(View()), n)
      decreases files.Keys - dependentModules.Keys, 0
    {
      if n in dependentModules {
        return !files[n].empty;
      }
      if n !in files {
        return false;
      }
      ghost var before := View();
      dependentModules, memo := dependentModules[n := []], memo[n := {}];
      if files[n].isScript {
        return true;
      }
      assert n in files.Keys - before.deps.Keys && n !in files.Keys - dependentModules.Keys;
      ok := LoadDependencies(n, files[n].imports);
      if ok {
        var reachable := AllDependentModulesRecursive(n);
        ok := files[n].usesExport ==> BASE_MODULE in reachable;
      }
    }

    /** The loop over the imports: each is loaded and appended, unless one raises. */
    method LoadDependencies(n: Name, imports: seq<Name>) returns (ok: bool)
      requires Valid(files, View()) && n in dependentModules
      requires forall j :: 0 <= j < |imports| ==> imports[j] in ImportGraph(files)[n]
      modifies this
      ensures (View(), ok) == LoadImports(files, old(View()), n, imports)
      decreases files.Keys - dependentModules.Keys, 1
    {
      ghost var s0 := View();
      ghost var all := LoadImports(files, s0, n, imports);
      assert imports[0..] == imports;
      for i := 0 to |imports|
        invariant Valid(files, View()) && n in dependentModules && s0.deps.Keys <= dependentModules.Keys
        invariant all == LoadImports(files, View(), n, imports[i..])
      {
        ImportStep(files, View(), n, imports, i);
        ok := LoadModule(imports[i]);
        if !ok {
          return false;
        }
        dependentModules := dependentModules[n := dependentModules[n] + [imports[i]]];
      }
      ok := true;
    }
  }

  // ---------------------------------------------------------------------------------------------
  // Loading by name and sequencing what was loaded

  function LoadNames(files: Files, s: Loaded, names: seq<Name>): (r: (Loaded, bool))
    requires Valid(files, s)
    ensures Valid(files, r.0)
    decreases |names|
  {
    if names == [] then (s, true)
    else
      var (s1, ok) := Load(files, s, names[0]);
      if !ok then (s1, false) else LoadNames(files, s1, names[1..])
  }

  /** Every module in the table is complete, and the table holds the names. */
  ghost predicate LoadedFor(files: Files, s: Loaded, names: seq<Name>) {
    && (forall m :: m in s.deps ==> Complete(files, s, m))
    && forall k :: 0 <= k < |names| ==> names[k] in s.deps
  }

  lemma {:induction false} LoadCompletes(files: Files, s: Loaded, n: Name)
    requires Valid(files, s) && Load(files, s, n).1
    requires forall m :: m in s.deps ==> Complete(files, s, m)
    ensures var s1 := Load(files, s, n).0;
      && n in s1.deps && s.deps.Keys <= s1.deps.Keys
      && forall m :: m in s1.deps ==> Complete(files, s1, m)
  {
    var s1 := Load(files, s, n).0;
    LoadAddsReached(files, s, n);
    forall m | m in s1.deps ensures Complete(files, s1, m) {
      if m in s.deps {
        LoadKeepsLoaded(files, s, n, m);
        CompleteStays(files, s, s1, m);
      }
    }
  }

  lemma {:induction false} LoadedForOneMore(files: Files, s: Loaded, names: seq<Name>)
    requires names != [] && LoadedFor(files, s, names[1..]) && names[0] in s.deps
    ensures LoadedFor(files, s, names)
  {
    assert names == [names[0]] + names[1..];
  }

  /** Loading names one after the other leaves only complete modules, among them the named ones. */
  lemma {:induction false} LoadNamesCompletes(files: Files, s: Loaded, names: seq<Name>)
    requires Valid(files, s) && (forall m :: m in s.deps ==> Complete(files, s, m))
    requires LoadNames(files, s, names).1
    ensures LoadedFor(files, LoadNames(files, s, names).0, names)
    ensures s.deps.Keys <= LoadNames(files, s, names).0.deps.Keys
    decreases |names|
  {
    if names != [] {
      var s1 := Load(files, s, names[0]).0;
      LoadCompletes(files, s, names[0]);
      LoadNamesCompletes(files, s1, names[1..]);
      LoadedForOneMore(files, LoadNames(files, s1, names[1..]).0, names);
    }
  }

  lemma {:induction false} NamesGoThrough(files: Files, s: Loaded, names: seq<Name>)
    requires Valid(files, s)
    requires forall i :: 0 <= i < |names| ==>
      names[i] in files && FaultlessBelow(files, names[i]) && ImportsExist(files, names[i])
    ensures LoadNames(files, s, names).1
    decreases |names|
  {
    if names != [] {
      LoadGoesThrough(files, s, names[0]);
      assert forall i :: 0 < i < |names| ==> names[i] == names[1..][i - 1];
      NamesGoThrough(files, Load(files, s, names[0]).0, names[1..]);
    }
  }

  /** Faultless files are loaded by name exactly if every import of a file reached from the names exists. */
  lemma {:induction false} NamesGoThroughIff(files: Files, names: seq<Name>)
    requires forall i :: 0 <= i < |names| ==> names[i] in files && FaultlessBelow(files, names[i])
    ensures LoadNames(files, EMPTY, names).1 <==> forall i :: 0 <= i < |names| ==> ImportsExist(files, names[i])
  {
    if LoadNames(files, EMPTY, names).1 {
      LoadNamesCompletes(files, EMPTY, names);
      var s := LoadNames(files, EMPTY, names).0;
      forall i | 0 <= i < |names| ensures ImportsExist(files, names[i]) {
        TableHoldsReached(files, s, names[i]);
        CompleteImportsExist(files, s, names[i]);
      }
    }
    if forall i :: 0 <= i < |names| ==> ImportsExist(files, names[i]) {
      NamesGoThrough(files, EMPTY, names);
    }
  }

  lemma {:induction false} CompleteImportsExist(files: Files, s: Loaded, n: Name)
    requires Valid(files, s) && CompleteBelow(files, s, n)
    ensures ImportsExist(files, n)
  {
    forall m, k | Reaches(ImportGraph(files), n, m) && 0 <= k < |ImportGraph(files)[m]|
      ensures ImportGraph(files)[m][k] in files
    {
      assert Complete(files, s, m) && s.deps[m][k] in s.deps;
    }
  }

  method CalcLoadSequenceForModuleNames(files: Files, names: seq<Name>) returns (r: Option<seq<Name>>)
    ensures r ==
      if LoadNames(files, EMPTY, names).1 then LoadSequence.VisitRoots(ImportedBy(files, names), names, []) else None
    ensures r.Some? ==>
      && NoDuplicates(r.value)
      && LoadSequence.DependenciesFirst(ImportGraph(files), r.value)
      && forall m :: m in r.value <==> LoadSequence.ReachedFrom(ImportGraph(files), names, m)
  {
    var loader := new ResourceLoader(files);
    assert names[0..] == names;
    var i := 0;
    while i < |names|
      invariant 0 <= i <= |names| && Valid(files, loader.View())
      invariant LoadNames(files, EMPTY, names) == LoadNames(files, loader.View(), names[i..])
    {
      assert names[i..][1..] == names[i + 1..];
      var ok := loader.LoadModule(names[i]);
      if !ok {
        return None;
      }
      i := i + 1;
    }
    LoadNamesCompletes(files, EMPTY, names);
    r := LoadSequence.CalcLoadSequenceForModules(loader.dependentModules, names);
    if r.Some? {
      TableOrderIsRight(files, loader.View(), names);
      forall m ensures m in r.value <==> LoadSequence.ReachedFrom(ImportGraph(files), names, m) {
        TableMembersAreRight(files, loader.View(), names, m);
      }
    }
  }

  /** The graph of the modules that loading the names leaves in the table. */
  ghost function ImportedBy(files: Files, names: seq<Name>): Graph
    requires LoadNames(files, EMPTY, names).1
    ensures Closed(ImportedBy(files, names)) && forall k :: 0 <= k < |names| ==> names[k] in ImportedBy(files, names)
  {
    LoadNamesCompletes(files, EMPTY, names);
    LoadNames(files, EMPTY, names).0.deps
  }

  lemma {:induction false} ReachesAgrees(files: Files, s: Loaded, n: Name, m: Name)
    requires Valid(files, s) && n in s.deps && forall x :: x in s.deps ==> Complete(files, s, x)
    ensures Reaches(s.deps, n, m) <==> Reaches(ImportGraph(files), n, m)
  {
    TableHoldsReached(files, s, n);
    CompletePathsAgree(files, s, n, m);
  }

  lemma {:induction false} TableMembersAreRight(files: Files, s: Loaded, names: seq<Name>, m: Name)
    requires Valid(files, s) && LoadedFor(files, s, names)
    requires LoadSequence.VisitRoots(s.deps, names, []).Some?
    ensures m in LoadSequence.VisitRoots(s.deps, names, []).value <==>
            LoadSequence.ReachedFrom(ImportGraph(files), names, m)
  {
    LoadSequence.SequenceIsRight(s.deps, names);
    if LoadSequence.ReachedFrom(ImportGraph(files), names, m) {
      var k :| 0 <= k < |names| && Reaches(ImportGraph(files), names[k], m);
      ReachesAgrees(files, s, names[k], m);
    }
    if LoadSequence.ReachedFrom(s.deps, names, m) {
      var k :| 0 <= k < |names| && Reaches(s.deps, names[k], m);
      ReachesAgrees(files, s, names[k], m);
    }
  }

  lemma {:induction false} TableOrderIsRight(files: Files, s: Loaded, names: seq<Name>)
    requires Valid(files, s) && LoadedFor(files, s, names)
    requires LoadSequence.VisitRoots(s.deps, names, []).Some?
    ensures var r := LoadSequence.VisitRoots(s.deps, names, []).value;
      NoDuplicates(r) && LoadSequence.DependenciesFirst(ImportGraph(files), r)
  {
    LoadSequence.RootsAreSound(s.deps, names, []);
    var r := LoadSequence.VisitRoots(s.deps, names, []).value;
    var g := ImportGraph(files);
    forall i, k | 0 <= i < |r| && r[i] in g && 0 <= k < |g[r[i]]| ensures g[r[i]][k] in r[..i] {
      assert Complete(files, s, r[i]);
    }
  }

  lemma {:induction false} TableHoldsReached(files: Files, s: Loaded, n: Name)
    requires Valid(files, s) && n in s.deps && forall m :: m in s.deps ==> Complete(files, s, m)
    ensures CompleteBelow(files, s, n)
  {
    forall m | Reaches(ImportGraph(files), n, m) ensures Complete(files, s, m) {
      var p :| IsPath(ImportGraph(files), p) && p[0] == n && p[|p| - 1] == m;
      ClosedSetHoldsPaths(ImportGraph(files), s.deps.Keys, p);
    }
  }
}
