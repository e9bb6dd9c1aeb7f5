/**
 * The memoised dependency sets on import graphs with cycles. While a module is being loaded, the modules
 * that are waiting for it form a stack. Of the modules on a cycle the first to finish stands on top of
 * those it waits for, so its memo is computed when none of them leads back to it, and is never renewed.
 */
module CyclicMemos {
  import opened ModuleGraph
  import opened ModuleLoader

  /** No file that is reached imports itself. */
  ghost predicate NoSelfImports(files: Files, n: Name) {
    forall m :: Reaches(ImportGraph(files), n, m) ==> m !in ImportGraph(files)[m]
  }

  // ---------------------------------------------------------------------------------------------
  // Memos while they are filled

  /** A memo that is set stays as it is when others are read. */
  lemma {:induction false} FillKeepsSet(deps: Graph, memo: Memo, n: Name, m: Name)
    requires Memoised(deps, memo) && n in deps && m in memo && memo[m] != {}
    ensures Fill(deps, memo, n)[m] == memo[m]
    decreases Unset(deps, memo), 0
  {
    if memo[n] == {} && deps[n] != [] {
      var started := memo[n := AsSet(deps[n])];
      assert deps[n][0] in started[n];
      assert n in Unset(deps, memo) && n !in Unset(deps, started);
      FillFromKeepsSet(deps, started, n, deps[n], m);
    }
  }

  lemma {:induction false} FillFromKeepsSet(deps: Graph, memo: Memo, n: Name, todo: seq<Name>, m: Name)
    requires Memoised(deps, memo) && n in deps && memo[n] != {} && m in memo && memo[m] != {} && m != n
    requires forall i :: 0 <= i < |todo| ==> todo[i] in deps
    ensures FillFrom(deps, memo, n, todo)[m] == memo[m]
    decreases Unset(deps, memo), |todo|
  {
    if todo != [] {
      FillKeepsSet(deps, memo, todo[0], m);
      var below := Fill(deps, memo, todo[0]);
      assert n !in Unset(deps, memo);
      FillFromKeepsSet(deps, below[n := below[n] + below[todo[0]]], n, todo[1..], m);
    }
  }

  lemma {:induction false} FillSets(deps: Graph, memo: Memo, n: Name)
    requires Memoised(deps, memo) && n in deps && deps[n] != []
    ensures Fill(deps, memo, n)[n] != {}
  {
    if memo[n] == {} {
      assert deps[n][0] in AsSet(deps[n]);
    }
  }

  /** No memo has more than the dependencies recorded so far. */
  ghost predicate Within(deps: Graph, memo: Memo) {
    forall m :: m in memo ==> memo[m] <= Dependencies(deps, m)
  }

  lemma {:induction false} FillStaysWithin(deps: Graph, memo: Memo, n: Name)
    requires Memoised(deps, memo) && n in deps && Within(deps, memo)
    ensures Within(deps, Fill(deps, memo, n))
    decreases Unset(deps, memo), 0
  {
    if memo[n] == {} && deps[n] != [] {
      var started := memo[n := AsSet(deps[n])];
      assert deps[n][0] in started[n];
      assert n in Unset(deps, memo) && n !in Unset(deps, started);
      forall d | d in started[n] ensures d in Dependencies(deps, n) {
        EdgeIsDependency(deps, n, d);
      }
      FillFromStaysWithin(deps, started, n, deps[n]);
    }
  }

  lemma {:induction false} EdgeIsDependency(deps: Graph, n: Name, d: Name)
    requires Closed(deps) && n in deps && d in deps[n]
    ensures d in Dependencies(deps, n) && Dependencies(deps, d) <= Dependencies(deps, n)
  {
    var k :| 0 <= k < |deps[n]| && deps[n][k] == d;
    ReachesItself(deps, d);
    EdgeThenPath(deps, n, d, d);
    forall x | x in Dependencies(deps, d) ensures x in Dependencies(deps, n) {
      DependsOnReaches(deps, d, x);
      EdgeThenPath(deps, n, d, x);
    }
  }

  lemma {:induction false} FillFromStaysWithin(deps: Graph, memo: Memo, n: Name, todo: seq<Name>)
    requires Memoised(deps, memo) && n in deps && memo[n] != {} && Within(deps, memo)
    requires forall i :: 0 <= i < |todo| ==> todo[i] in deps[n]
    ensures Within(deps, FillFrom(deps, memo, n, todo))
    decreases Unset(deps, memo), |todo|
  {
    if todo != [] {
      EdgeIsDependency(deps, n, todo[0]);
      FillStaysWithin(deps, memo, todo[0]);
      var below := Fill(deps, memo, todo[0]);
      assert n !in Unset(deps, memo);
      FillFromStaysWithin(deps, below[n := below[n] + below[todo[0]]], n, todo[1..]);
    }
  }

  ghost predicate HasEdgesOf(more: Graph, deps: Graph) {
    forall x, y :: x in deps && y in deps[x] ==> x in more && y in more[x]
  }

  lemma {:induction false} MoreEdges(deps: Graph, more: Graph, memo: Memo)
    requires deps.Keys <= more.Keys && HasEdgesOf(more, deps) && Within(deps, memo)
    ensures Within(more, memo)
  {
    forall m, x | m in memo && x in Dependencies(deps, m) ensures x in Dependencies(more, m) {
      var p :| IsPath(deps, p) && |p| > 1 && p[0] == m && p[|p| - 1] == x;
      assert IsPath(more, p);
    }
  }

  // ---------------------------------------------------------------------------------------------
  // The stack of modules that are being loaded

  /** A module on a cycle whose memo is set without the module itself. */
  ghost predicate Broken(files: Files, s: Loaded) {
    exists b :: b in s.memo && s.memo[b] != {} && b !in s.memo[b] && DependsOn(ImportGraph(files), b, b)
  }

  ghost predicate FinishedOffCycles(files: Files, s: Loaded, stack: seq<Name>) {
    forall m :: m in s.deps && m !in stack ==> !DependsOn(ImportGraph(files), m, m)
  }

  /** An import of a waiting module that is recorded and is waiting too was waiting before it. */
  ghost predicate LeadsDown(s: Loaded, stack: seq<Name>) {
    && (forall i :: 0 <= i < |stack| ==> stack[i] in s.deps)
    && (forall i, j :: 0 <= i < j < |stack| ==> stack[i] != stack[j])
    && forall i, j :: 0 <= i < |stack| && 0 <= j < |stack| && stack[j] in s.deps[stack[i]] ==> j < i
  }

  ghost predicate Waiting(files: Files, s: Loaded, stack: seq<Name>) {
    LeadsDown(s, stack) && Within(s.deps, s.memo) && (Broken(files, s) || FinishedOffCycles(files, s, stack))
  }

  lemma {:induction false} PathsLeadDown(s: Loaded, stack: seq<Name>, p: seq<Name>, a: nat) returns (b: nat)
    requires LeadsDown(s, stack) && IsPath(s.deps, p) && a < |stack| && stack[a] == p[0]
    requires forall i :: 0 <= i < |p| ==> p[i] in stack
    ensures b <= a < |stack| && stack[b] == p[|p| - 1] && (|p| > 1 ==> b < a)
    decreases |p|
  {
    if |p| == 1 {
      b := a;
    } else {
      var c :| 0 <= c < |stack| && stack[c] == p[1];
      assert stack[c] in s.deps[stack[a]];
      assert IsPath(s.deps, p[1..]);
      b := PathsLeadDown(s, stack, p[1..], c);
    }
  }

  /** Every module on a cycle through `n` is on a cycle. */
  lemma {:induction false} CycleNodes(g: Graph, n: Name, p: seq<Name>, i: nat)
    requires IsPath(g, p) && |p| > 1 && p[0] == n == p[|p| - 1] && i < |p|
    ensures DependsOn(g, p[i], p[i])
  {
    assert IsPath(g, p[..i + 1]) && IsPath(g, p[i..]);
    assert Reaches(g, n, p[i]) && Reaches(g, p[i], n) && DependsOn(g, n, n) && Reaches(g, n, n);
    ReachesTransitive(g, n, n, p[i]);
    ReachesTransitive(g, p[i], n, p[i]);
  }

  /** The recorded imports do not lead from the top of the stack back to it, if what is finished is on no cycle. */
  lemma {:induction false} NoWayBack(files: Files, s: Loaded, stack: seq<Name>)
    requires Valid(files, s) && stack != [] && LeadsDown(s, stack) && FinishedOffCycles(files, s, stack)
    ensures var n := stack[|stack| - 1]; !DependsOn(s.deps, n, n)
  {
    var n := stack[|stack| - 1];
    if DependsOn(s.deps, n, n) {
      var p :| IsPath(s.deps, p) && |p| > 1 && p[0] == n && p[|p| - 1] == n;
      forall i | 0 <= i < |p| ensures p[i] in stack {
        CycleNodes(s.deps, n, p, i);
        LoadedPathsAreImportPaths(files, s, p[i], p[i]);
      }
      var b := PathsLeadDown(s, stack, p, |stack| - 1);
      assert false;
    }
  }

  lemma {:induction false} InTheMiddle(stack: seq<Name>, n: Name, m: Name)
    ensures m in stack + [n] <==> m in stack || m == n
  {
    assert (stack + [n])[|stack|] == n;
  }

  function Registered(s: Loaded, n: Name): Loaded {
    Loaded(s.deps[n := []], s.memo[n := {}])
  }

  lemma {:induction false} PushLeadsDown(files: Files, s: Loaded, n: Name, stack: seq<Name>)
    requires Valid(files, s) && n !in s.deps && LeadsDown(s, stack)
    ensures LeadsDown(Registered(s, n), stack + [n])
  {
    assert forall m, k :: m in s.deps && 0 <= k < |s.deps[m]| ==> s.deps[m][k] != n;
  }

  lemma {:induction false} PushKeepsCycles(files: Files, s: Loaded, n: Name, stack: seq<Name>)
    requires Valid(files, s) && n !in s.deps && (Broken(files, s) || FinishedOffCycles(files, s, stack))
    ensures Broken(files, Registered(s, n)) || FinishedOffCycles(files, Registered(s, n), stack + [n])
  {
    if Broken(files, s) {
      var b :| b in s.memo && s.memo[b] != {} && b !in s.memo[b] && DependsOn(ImportGraph(files), b, b);
      assert Registered(s, n).memo[b] == s.memo[b];
    } else {
      forall m | m in Registered(s, n).deps && m !in stack + [n] ensures !DependsOn(ImportGraph(files), m, m) {
        InTheMiddle(stack, n, m);
      }
    }
  }

  /** Pushing a module that is registered without imports. */
  lemma {:induction false} PushKeepsWaiting(files: Files, s: Loaded, n: Name, stack: seq<Name>)
    requires Valid(files, s) && n in files && n !in s.deps && Waiting(files, s, stack)
    ensures Waiting(files, Registered(s, n), stack + [n])
  {
    PushLeadsDown(files, s, n, stack);
    PushKeepsCycles(files, s, n, stack);
    PushStaysWithin(s, n);
  }

  lemma {:induction false} PushStaysWithin(s: Loaded, n: Name)
    requires n !in s.deps && Within(s.deps, s.memo)
    ensures Within(Registered(s, n).deps, Registered(s, n).memo)
  {
    MoreEdges(s.deps, Registered(s, n).deps, s.memo);
  }

  /** Appending an import to the module on top. */
  lemma {:induction false} AppendKeepsWaiting(files: Files, s: Loaded, n: Name, d: Name, stack: seq<Name>)
    requires n in s.deps && d in s.deps && d != n && Waiting(files, s, stack + [n])
    ensures Waiting(files, Appended(s, n, d), stack + [n])
  {
    var after := Appended(s, n, d);
    MoreEdges(s.deps, after.deps, s.memo);
    assert (stack + [n])[|stack|] == n;
  }

  /** Popping the module on top, when all its imports are recorded and its memo has been read. */
  lemma {:induction false} PopKeepsWaiting(files: Files, s: Loaded, n: Name, stack: seq<Name>)
    requires Valid(files, s) && Waiting(files, s, stack + [n]) && n in s.deps && s.deps[n] == ImportGraph(files)[n]
    ensures Waiting(files, s.(memo := Fill(s.deps, s.memo, n)), stack)
  {
    var g, after := ImportGraph(files), s.(memo := Fill(s.deps, s.memo, n));
    FillStaysWithin(s.deps, s.memo, n);
    assert LeadsDown(after, stack) by {
      assert forall i :: 0 <= i < |stack| ==> (stack + [n])[i] == stack[i];
    }
    if b :| b in s.memo && s.memo[b] != {} && b !in s.memo[b] && DependsOn(g, b, b) {
      FillKeepsSet(s.deps, s.memo, n, b);
      assert Broken(files, after);
    } else if DependsOn(g, n, n) {
      assert (stack + [n])[|stack + [n]| - 1] == n;
      NoWayBack(files, s, stack + [n]);
      DependsOnEdge(g, n, n);
      FillSets(s.deps, s.memo, n);
      assert n !in after.memo[n];
      assert Broken(files, after);
    } else {
      forall m | m in after.deps && m !in stack ensures !DependsOn(g, m, m) {
        assert m == n || m !in stack + [n];
      }
    }
  }

  lemma {:induction false} LoadKeepsWaiting(files: Files, s: Loaded, n: Name, stack: seq<Name>)
    requires Valid(files, s) && NoSelfImports(files, n) && Waiting(files, s, stack) && Load(files, s, n).1
    ensures Waiting(files, Load(files, s, n).0, stack)
    decreases files.Keys - s.deps.Keys, 0
  {
    if n !in s.deps {
      var registered := Loaded(s.deps[n := []], s.memo[n := {}]);
      PushKeepsWaiting(files, s, n, stack);
      if files[n].isScript {
        PopScript(files, registered, n, stack);
      } else {
        LoadUnfolds(files, s, n);
        ImportsKeepWaiting(files, registered, n, files[n].imports, stack);
        AfterImports(files, registered, n, stack);
      }
    }
  }

  lemma {:induction false} PopScript(files: Files, s: Loaded, n: Name, stack: seq<Name>)
    requires Valid(files, s) && n in s.deps && s.deps[n] == ImportGraph(files)[n] == []
    requires Waiting(files, s, stack + [n])
    ensures Waiting(files, s, stack)
  {
    PopKeepsWaiting(files, s, n, stack);
    assert s.(memo := Fill(s.deps, s.memo, n)) == s;
  }

  lemma {:induction false} AfterImports(files: Files, s: Loaded, n: Name, stack: seq<Name>)
    requires Valid(files, s) && n in s.deps && s.deps[n] == [] && !files[n].isScript
    requires LoadImports(files, s, n, files[n].imports).1
    requires Waiting(files, LoadImports(files, s, n, files[n].imports).0, stack + [n])
    ensures var s1 := LoadImports(files, s, n, files[n].imports).0;
      Waiting(files, s1.(memo := Fill(s1.deps, s1.memo, n)), stack)
  {
    var s1 := LoadImports(files, s, n, files[n].imports).0;
    ImportsAreAppended(files, s, n, files[n].imports);
    assert [] + files[n].imports == files[n].imports;
    PopKeepsWaiting(files, s1, n, stack);
  }

  lemma {:induction false} ImportsKeepWaiting(files: Files, s: Loaded, n: Name, todo: seq<Name>, stack: seq<Name>)
    requires Valid(files, s) && n in s.deps && forall i :: 0 <= i < |todo| ==> todo[i] in ImportGraph(files)[n]
    requires NoSelfImports(files, n) && Waiting(files, s, stack + [n]) && LoadImports(files, s, n, todo).1
    ensures Waiting(files, LoadImports(files, s, n, todo).0, stack + [n])
    decreases files.Keys - s.deps.Keys, |todo|
  {
    if todo != [] {
      var s1 := Load(files, s, todo[0]).0;
      ReachesItself(ImportGraph(files), n);
      EdgesStayBelow(ImportGraph(files), n, todo[0]);
      LoadKeepsWaiting(files, s, todo[0], stack + [n]);
      ImportUnfolds(files, s, n, todo);
      AppendKeepsWaiting(files, s1, n, todo[0], stack);
      var s2, rest := Appended(s1, n, todo[0]), todo[1..];
      ImportsKeepWaiting(files, s2, n, rest, stack);
    }
  }

  // ---------------------------------------------------------------------------------------------
  // The memos after a load

  /** When a cycle is reached, some module on a cycle is for good without itself in its set. */
  lemma {:induction false} CyclicMemoIsIncomplete(files: Files, n: Name) returns (b: Name)
    requires NoSelfImports(files, n) && Load(files, EMPTY, n).1 && !AcyclicFrom(ImportGraph(files), n)
    ensures Reaches(ImportGraph(files), n, b) && DependsOn(ImportGraph(files), b, b)
    ensures var s := Load(files, EMPTY, n).0;
      b in s.deps && b !in Fill(s.deps, s.memo, b)[b]
  {
    LoadKeepsWaiting(files, EMPTY, n, []);
    LoadsExactlyReached(files, n);
    var s := Load(files, EMPTY, n).0;
    assert !FinishedOffCycles(files, s, []);
    b :| b in s.memo && s.memo[b] != {} && b !in s.memo[b] && DependsOn(ImportGraph(files), b, b);
    FillKeepsSet(s.deps, s.memo, b, b);
  }

  /** Every loaded module's set, whenever it is read, is the set of its dependencies. */
  ghost predicate AllMemosRight(files: Files, n: Name)
    requires Load(files, EMPTY, n).1
  {
    var s := Load(files, EMPTY, n).0;
    forall m :: m in s.deps ==> Fill(s.deps, s.memo, m)[m] == Dependencies(ImportGraph(files), m)
  }

  /**
   * When no file that is reached imports itself, the memoised sets are right exactly if the module loaded reaches
   * no cycle.
   */
  lemma {:induction false} MemosAreRightIffAcyclic(files: Files, n: Name)
    requires NoSelfImports(files, n) && Load(files, EMPTY, n).1
    ensures AllMemosRight(files, n) <==> AcyclicFrom(ImportGraph(files), n)
  {
    LoadsExactlyReached(files, n);
    var s, g := Load(files, EMPTY, n).0, ImportGraph(files);
    if AcyclicFrom(g, n) {
      forall m | m in s.deps ensures Fill(s.deps, s.memo, m)[m] == Dependencies(g, m) {
        MemosAreRight(files, n, m);
      }
    } else {
      var b := CyclicMemoIsIncomplete(files, n);
      DependsOnReaches(g, b, b);
      ReachesSplit(g, b, b);
      assert b in Dependencies(g, b);
    }
  }

  /** A file that imports only itself is on a cycle, and yet has its dependencies in its memo. */
  lemma {:induction false} SelfImportAlone(files: Files, n: Name)
    requires n in files && files[n] == File(false, [n], false, false)
    ensures Load(files, EMPTY, n) == (Loaded(map[n := [n]], map[n := {n}]), true)
    ensures DependsOn(ImportGraph(files), n, n) && Dependencies(ImportGraph(files), n) == {n}
  {
    SelfLoad(files, n);
    OnlyItself(ImportGraph(files), n);
  }

  lemma {:induction false} OnlyItself(g: Graph, n: Name)
    requires n in g && g[n] == [n]
    ensures DependsOn(g, n, n) && Dependencies(g, n) == {n}
  {
    assert IsPath(g, [n, n]);
    forall x | DependsOn(g, n, x) ensures x == n {
      var p :| IsPath(g, p) && |p| > 1 && p[0] == n && p[|p| - 1] == x;
      ClosedSetHoldsPaths(g, {n}, p);
    }
  }

  lemma {:induction false} SelfLoad(files: Files, n: Name)
    requires n in files && files[n] == File(false, [n], false, false)
    ensures Load(files, EMPTY, n) == (Loaded(map[n := [n]], map[n := {n}]), true)
  {
    var registered := Loaded(map[n := []], map[n := {}]);
    assert EMPTY.deps[n := []] == registered.deps && EMPTY.memo[n := {}] == registered.memo;
    SelfImports(files, n);
    SelfFill(n);
  }

  lemma {:induction false} SelfImports(files: Files, n: Name)
    requires n in files && files[n] == File(false, [n], false, false)
    ensures var registered := Loaded(map[n := []], map[n := {}]);
      && Valid(files, registered) && ImportGraph(files)[n] == [n]
      && LoadImports(files, registered, n, [n]) == (Loaded(map[n := [n]], map[n := {}]), true)
  {
    var registered, s1 := Loaded(map[n := []], map[n := {}]), Loaded(map[n := [n]], map[n := {}]);
    assert registered.deps[n := [n]] == s1.deps && registered.deps[n] + [n] == [n];
    assert Appended(registered, n, n) == s1;
    assert [n][0..] == [n] && [n][1..] == [];
    ImportStep(files, registered, n, [n], 0);
  }

  lemma {:induction false} SelfFill(n: Name)
    ensures Fill(map[n := [n]], map[n := {}], n) == map[n := {n}]
  {
    var deps: Graph, memo: Memo, started: Memo := map[n := [n]], map[n := {}], map[n := {n}];
    assert [n][0] in AsSet([n]) && AsSet([n]) == {n} && [n][1..] == [];
    assert memo[n := AsSet([n])] == started && started[n] == {n};
    assert n in Unset(deps, memo) && n !in Unset(deps, started);
    assert Fill(deps, started, n) == started;
    var next := started[n := started[n] + started[n]];
    assert started[n] + started[n] == {n} && next == started;
    assert FillFrom(deps, started, n, [n]) == FillFrom(deps, next, n, []);
  }

  // ---------------------------------------------------------------------------------------------
  // A file on a cycle with another that imports itself first

  /** What a load comes to when the imports load. */
  lemma {:induction false} LoadGives(files: Files, s: Loaded, n: Name, s1: Loaded)
    requires Valid(files, s) && n !in s.deps && n in files && !files[n].isScript && !files[n].usesExport
    requires Valid(files, Registered(s, n)) && LoadImports(files, Registered(s, n), n, files[n].imports) == (s1, true)
    requires Memoised(s1.deps, s1.memo) && n in s1.deps
    ensures Load(files, s, n) == (Loaded(s1.deps, Fill(s1.deps, s1.memo, n)), true)
  {
    assert n in files.Keys - s.deps.Keys && n !in files.Keys - Registered(s, n).deps.Keys;
  }

  /** Importing a module that is in the table already, and then the rest. */
  lemma {:induction false} ImportLoaded(files: Files, s: Loaded, n: Name, todo: seq<Name>)
    requires Valid(files, s) && n in s.deps && forall i :: 0 <= i < |todo| ==> todo[i] in ImportGraph(files)[n]
    requires todo != [] && todo[0] in s.deps && !files[todo[0]].empty
    ensures Valid(files, Appended(s, n, todo[0]))
    ensures LoadImports(files, s, n, todo) == LoadImports(files, Appended(s, n, todo[0]), n, todo[1..])
  {
    AppendedIsValid(files, s, n, todo[0]);
  }

  lemma {:induction false} FillOfTwo(deps: Graph, memo: Memo, n: Name, d: Name)
    requires Memoised(deps, memo) && n in deps && d in deps && n != d && memo[n] == {}
    requires (deps[n] == [n, d] && deps[d] == [] && memo[d] == {}) || (deps[n] == [d] && memo[d] == {n, d})
    ensures Fill(deps, memo, n) == memo[n := {n, d}]
  {
    var started := memo[n := AsSet(deps[n])];
    assert deps[n][0] in AsSet(deps[n]);
    assert n in Unset(deps, memo) && n !in Unset(deps, started);
    var end := memo[n := {n, d}];
    if deps[n] == [n, d] {
      assert AsSet([n, d]) == {n, d} && started == end && [n, d][1..] == [d] && [d][1..] == [];
      FillThrough(deps, end, n, [n, d]);
      assert end[n] + end[n] == {n, d} && end[n := {n, d}] == end;
      FillThrough(deps, end, n, [d]);
      assert d != n ==> end[n] + end[d] == {n, d};
    } else {
      assert AsSet([d]) == {d} && [d][1..] == [];
      FillThrough(deps, started, n, [d]);
      assert d != n ==> started[n] + started[d] == {n, d};
    }
  }

  /** A step over a module whose memo is read without change, and is within that of `n`, or all that is missing. */
  lemma {:induction false} FillThrough(deps: Graph, memo: Memo, n: Name, todo: seq<Name>)
    requires Memoised(deps, memo) && n in deps && memo[n] != {} && todo != []
    requires forall i :: 0 <= i < |todo| ==> todo[i] in deps
    requires memo[todo[0]] != {} || deps[todo[0]] == []
    ensures FillFrom(deps, memo, n, todo) == FillFrom(deps, memo[n := memo[n] + memo[todo[0]]], n, todo[1..])
  {
    assert n !in Unset(deps, memo);
  }

  ghost predicate AreTangled(files: Files, a: Name, b: Name) {
    && a in files && b in files && a != b
    && files[a] == File(false, [b], false, false) && files[b] == File(false, [b, a], false, false)
  }

  lemma {:induction false} ImportSecond(files: Files, s: Loaded, a: Name, b: Name)
    requires AreTangled(files, a, b) && Valid(files, s) && s.deps == map[a := [], b := []]
    ensures LoadImports(files, s, b, [b, a]) == (Loaded(map[a := [], b := [b, a]], s.memo), true)
  {
    var s1 := Appended(s, b, b);
    assert [] + [b] == [b] && [b] + [a] == [b, a] && [b, a][1..] == [a] && [a][1..] == [];
    assert s1.deps == map[a := [], b := [b]];
    assert Appended(s1, b, a).deps == map[a := [], b := [b, a]];
    ImportLoaded(files, s, b, [b, a]);
    ImportLoaded(files, s1, b, [a]);
  }

  lemma {:induction false} FillSecond(files: Files, s: Loaded, a: Name, b: Name)
    requires Valid(files, s) && s == Loaded(map[a := [], b := [b, a]], map[a := {}, b := {}]) && a != b
    ensures Fill(s.deps, s.memo, b) == map[a := {}, b := {a, b}]
  {
    FillOfTwo(s.deps, s.memo, b, a);
    assert {b, a} == {a, b};
    assert s.memo[b := {b, a}] == map[a := {}, b := {a, b}];
  }

  /** Loading the second while the first is being loaded. */
  lemma {:induction false} LoadSecond(files: Files, s: Loaded, a: Name, b: Name)
    requires AreTangled(files, a, b) && Valid(files, s) && s == Loaded(map[a := []], map[a := {}])
    ensures Load(files, s, b) == (Loaded(map[a := [], b := [b, a]], map[a := {}, b := {a, b}]), true)
  {
    var s1 := Registered(s, b);
    assert s1.deps == map[a := [], b := []] && s1.memo == map[a := {}, b := {}];
    ImportSecond(files, s1, a, b);
    var s2 := LoadImports(files, s1, b, [b, a]).0;
    FillSecond(files, s2, a, b);
    LoadGives(files, s, b, s2);
  }

  /** Importing a module that is not in the table, and nothing else. */
  lemma {:induction false} ImportNew(files: Files, s: Loaded, n: Name, d: Name, s1: Loaded)
    requires Valid(files, s) && n in s.deps && ImportGraph(files)[n] == [d]
    requires Load(files, s, d) == (s1, true) && n in s1.deps
    ensures Valid(files, Appended(s1, n, d)) && LoadImports(files, s, n, [d]) == (Appended(s1, n, d), true)
  {
    AppendedIsValid(files, s1, n, d);
    assert [d][1..] == [];
  }

  lemma {:induction false} ImportFirst(files: Files, s: Loaded, a: Name, b: Name)
    requires AreTangled(files, a, b) && Valid(files, s) && s == Loaded(map[a := []], map[a := {}])
    ensures LoadImports(files, s, a, [b]) == (Loaded(map[a := [b], b := [b, a]], map[a := {}, b := {a, b}]), true)
  {
    LoadSecond(files, s, a, b);
    var s1 := Loaded(map[a := [], b := [b, a]], map[a := {}, b := {a, b}]);
    ImportNew(files, s, a, b, s1);
    assert [] + [b] == [b];
    assert Appended(s1, a, b).deps == map[a := [b], b := [b, a]];
  }

  lemma {:induction false} LoadTangled(files: Files, a: Name, b: Name)
    requires AreTangled(files, a, b)
    ensures Load(files, EMPTY, a) == (Loaded(map[a := [b], b := [b, a]], map[a := {a, b}, b := {a, b}]), true)
  {
    var s := Registered(EMPTY, a);
    assert s.deps == map[a := []] && s.memo == map[a := {}];
    ImportFirst(files, s, a, b);
    var s1 := LoadImports(files, s, a, [b]).0;
    FillFirst(files, s1, a, b);
    LoadGives(files, EMPTY, a, s1);
  }

  lemma {:induction false} FillFirst(files: Files, s: Loaded, a: Name, b: Name)
    requires Valid(files, s) && s == Loaded(map[a := [b], b := [b, a]], map[a := {}, b := {a, b}]) && a != b
    ensures Fill(s.deps, s.memo, a) == map[a := {a, b}, b := {a, b}]
  {
    FillOfTwo(s.deps, s.memo, a, b);
    assert s.memo[a := {a, b}] == map[a := {a, b}, b := {a, b}];
  }

  lemma {:induction false} TangledDependencies(g: Graph, a: Name, b: Name, n: Name)
    requires a in g && b in g && a != b && g[a] == [b] && g[b] == [b, a] && n in {a, b}
    ensures Dependencies(g, n) == {a, b}
  {
    assert g[b][0] == b && g[b][1] == a && g[a][0] == b;
    assert IsPath(g, [a, b, a]) && IsPath(g, [a, b]) && IsPath(g, [b, a]) && IsPath(g, [b, b]);
    assert DependsOn(g, n, a) && DependsOn(g, n, b);
    forall x | DependsOn(g, n, x) ensures x in {a, b} {
      var p :| IsPath(g, p) && |p| > 1 && p[0] == n && p[|p| - 1] == x;
      ClosedSetHoldsPaths(g, {a, b}, p);
    }
  }

  /** The sets are right on a cycle when the module that finishes first imports itself. */
  lemma {:induction false} SelfImportMends(files: Files, a: Name, b: Name)
    requires AreTangled(files, a, b)
    ensures Load(files, EMPTY, a).1 && AllMemosRight(files, a) && !AcyclicFrom(ImportGraph(files), a)
  {
    var g := ImportGraph(files);
    LoadTangled(files, a, b);
    TangledDependencies(g, a, b, a);
    TangledDependencies(g, a, b, b);
    ReachesItself(g, a);
    assert a in Dependencies(g, a);
  }
}
