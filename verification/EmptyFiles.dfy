/**
 * The assertion of `ResourceLoader.LoadModule` that a module which is loaded already has contents: an empty file
 * can be loaded, but not named twice.
 */
module EmptyFiles {
  import opened ModuleGraph
  import opened ModuleLoader

  /** The `k`-th dependent module recorded for `m` is `e`. */
  predicate Records(deps: Graph, m: Name, k: nat, e: Name) {
    m in deps && k < |deps[m]| && deps[m][k] == e
  }

  ghost predicate NoNewRecords(deps: Graph, after: Graph, e: Name) {
    forall m, k: nat :: Records(after, m, k, e) ==> Records(deps, m, k, e)
  }

  ghost predicate RecordedOnce(deps: Graph, e: Name) {
    forall m, k: nat, m1, k1: nat :: Records(deps, m, k, e) && Records(deps, m1, k1, e) ==> m == m1 && k == k1
  }

  /** Once an empty file is in the table, no load that goes through names it. */
  lemma {:induction false} LoadNamesNoEmpty(files: Files, s: Loaded, n: Name, e: Name)
    requires Valid(files, s) && e in s.deps && files[e].empty && Load(files, s, n).1
    ensures n != e && NoNewRecords(s.deps, Load(files, s, n).0.deps, e)
    decreases files.Keys - s.deps.Keys, 0
  {
    if n !in s.deps && !files[n].isScript {
      LoadUnfolds(files, s, n);
      var registered := Loaded(s.deps[n := []], s.memo[n := {}]);
      ImportsNameNoEmpty(files, registered, n, files[n].imports, e);
      NoNewInRegistered(s, n, LoadImports(files, registered, n, files[n].imports).0.deps, e);
    }
  }

  lemma {:induction false} NoNewInRegistered(s: Loaded, n: Name, after: Graph, e: Name)
    requires n !in s.deps && NoNewRecords(s.deps[n := []], after, e)
    ensures NoNewRecords(s.deps, after, e)
  {
    forall m, k: nat | Records(after, m, k, e) ensures Records(s.deps, m, k, e) {
      assert Records(s.deps[n := []], m, k, e);
    }
  }

  lemma {:induction false} ImportsNameNoEmpty(files: Files, s: Loaded, n: Name, todo: seq<Name>, e: Name)
    requires Valid(files, s) && n in s.deps && forall i :: 0 <= i < |todo| ==> todo[i] in ImportGraph(files)[n]
    requires e in s.deps && files[e].empty && LoadImports(files, s, n, todo).1
    ensures NoNewRecords(s.deps, LoadImports(files, s, n, todo).0.deps, e)
    decreases files.Keys - s.deps.Keys, |todo|
  {
    if todo != [] {
      LoadNamesNoEmpty(files, s, todo[0], e);
      ImportUnfolds(files, s, n, todo);
      var s1 := Load(files, s, todo[0]).0;
      var s2 := Appended(s1, n, todo[0]);
      AppendsNoRecord(s1, n, todo[0], e);
      ImportsNameNoEmpty(files, s2, n, todo[1..], e);
    }
  }

  lemma {:induction false} AppendsNoRecord(s: Loaded, n: Name, d: Name, e: Name)
    requires n in s.deps && d != e
    ensures NoNewRecords(s.deps, Appended(s, n, d).deps, e)
  {
  }

  lemma {:induction false} AppendsOneRecord(s: Loaded, n: Name, e: Name)
    requires n in s.deps && forall m, k: nat :: !Records(s.deps, m, k, e)
    ensures RecordedOnce(Appended(s, n, e).deps, e)
  {
    forall m, k: nat | Records(Appended(s, n, e).deps, m, k, e) ensures m == n && k == |s.deps[n]| {
      assert !Records(s.deps, m, k, e);
    }
  }

  lemma {:induction false} FewerRecords(deps: Graph, after: Graph, e: Name)
    requires RecordedOnce(deps, e) && NoNewRecords(deps, after, e)
    ensures RecordedOnce(after, e)
  {
  }

  /** A load of an empty file that goes through has registered it, and nothing it loads names it. */
  lemma {:induction false} EmptyIsNotNamedBelow(files: Files, s: Loaded, e: Name)
    requires Valid(files, s) && Load(files, s, e).1 && e in files && files[e].empty
    ensures forall m, k: nat :: !Records(Load(files, s, e).0.deps, m, k, e)
  {
    assert e !in s.deps;
    var registered := Loaded(s.deps[e := []], s.memo[e := {}]);
    assert forall m, k: nat :: Records(registered.deps, m, k, e) ==> Records(s.deps, m, k, e);
    if !files[e].isScript {
      LoadUnfolds(files, s, e);
      ImportsNameNoEmpty(files, registered, e, files[e].imports, e);
    }
  }

  lemma {:induction false} LoadRecordsOnce(files: Files, s: Loaded, n: Name, e: Name)
    requires Valid(files, s) && e in files && files[e].empty && RecordedOnce(s.deps, e) && Load(files, s, n).1
    ensures RecordedOnce(Load(files, s, n).0.deps, e)
    decreases files.Keys - s.deps.Keys, 0
  {
    if n !in s.deps {
      var registered := Loaded(s.deps[n := []], s.memo[n := {}]);
      FewerRecords(s.deps, registered.deps, e);
      if !files[n].isScript {
        LoadUnfolds(files, s, n);
        ImportsRecordOnce(files, registered, n, files[n].imports, e);
      }
    }
  }

  lemma {:induction false} ImportsRecordOnce(files: Files, s: Loaded, n: Name, todo: seq<Name>, e: Name)
    requires Valid(files, s) && n in s.deps && forall i :: 0 <= i < |todo| ==> todo[i] in ImportGraph(files)[n]
    requires e in files && files[e].empty && RecordedOnce(s.deps, e) && LoadImports(files, s, n, todo).1
    ensures RecordedOnce(LoadImports(files, s, n, todo).0.deps, e)
    decreases files.Keys - s.deps.Keys, |todo|
  {
    if todo != [] {
      ImportUnfolds(files, s, n, todo);
      var s1 := Load(files, s, todo[0]).0;
      LoadRecordsOnce(files, s, todo[0], e);
      if todo[0] == e {
        EmptyIsNotNamedBelow(files, s, e);
        AppendsOneRecord(s1, n, e);
      } else {
        AppendsNoRecord(s1, n, todo[0], e);
        FewerRecords(s1.deps, Appended(s1, n, todo[0]).deps, e);
      }
      ImportsRecordOnce(files, Appended(s1, n, todo[0]), n, todo[1..], e);
    }
  }

  /**
   * After a load that goes through, an empty file that is reached is named by at most one import of the files
   * reached, and by none if it is the one that was loaded.
   */
  lemma {:induction false} EmptyIsNamedOnce(files: Files, n: Name, e: Name)
    requires Load(files, EMPTY, n).1 && e in files && files[e].empty
    ensures forall m, k: nat, m1, k1: nat ::
      (Reaches(ImportGraph(files), n, m) && Records(ImportGraph(files), m, k, e)
        && Reaches(ImportGraph(files), n, m1) && Records(ImportGraph(files), m1, k1, e))
      ==> m == m1 && k == k1 && n != e
  {
    var g, s := ImportGraph(files), Load(files, EMPTY, n).0;
    LoadsExactlyReached(files, n);
    LoadRecordsOnce(files, EMPTY, n, e);
    if n == e {
      EmptyIsNotNamedBelow(files, EMPTY, e);
    }
    forall m, k: nat, m1, k1: nat |
      Reaches(g, n, m) && Records(g, m, k, e) && Reaches(g, n, m1) && Records(g, m1, k1, e)
      ensures m == m1 && k == k1 && n != e
    {
      assert Records(s.deps, m, k, e) && Records(s.deps, m1, k1, e);
    }
  }

  /** A load that raised leaves the module in the table, so that another load takes it, unless it is empty. */
  lemma {:induction false} RaisedLoadIsTaken(files: Files, s: Loaded, n: Name)
    requires Valid(files, s) && n in files && !Load(files, s, n).1
    ensures var after := Load(files, s, n).0;
      n in after.deps && Load(files, after, n) == (after, !files[n].empty)
  {
  }
}
