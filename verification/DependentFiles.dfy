/** `Module.GetAllDependentFilenamesRecursive`: the files of a module and of all it depends on. */
module DependentFiles {
  import opened ModuleGraph

  type Filename = string

  /** A style sheet's own file, and the images it refers to. */
  datatype StyleSheet = StyleSheet(filename: Filename, images: seq<Filename>)
  {
    function Files(): seq<Filename> {
      [filename] + images
    }
  }

  /** The files of one module. Only an HTML module has inline style sheets, each given by its images. */
  datatype Resources = Resources(
    filename: Filename,
    rawScripts: seq<Filename>,
    styleSheets: seq<StyleSheet>,
    inlineStyleSheets: seq<seq<Filename>>)
  {
    function Files(includeRawScripts: bool): seq<Filename> {
      [filename] + (if includeRawScripts then rawScripts else []) + SheetFiles(styleSheets) + Flat(inlineStyleSheets)
    }
  }

  function SheetFiles(sheets: seq<StyleSheet>): seq<Filename> {
    if sheets == [] then [] else SheetFiles(sheets[..|sheets| - 1]) + sheets[|sheets| - 1].Files()
  }

  function Flat(lists: seq<seq<Filename>>): seq<Filename> {
    if lists == [] then [] else Flat(lists[..|lists| - 1]) + lists[|lists| - 1]
  }

  type ResourceTable = map<Name, Resources>

  /** The files of the modules, one module after the other. */
  function FilesOf(r: ResourceTable, modules: seq<Name>, includeRawScripts: bool): seq<Filename>
    requires forall m :: m in modules ==> m in r
  {
    if modules == [] then []
    else
      var n := |modules| - 1;
      FilesOf(r, modules[..n], includeRawScripts) + r[modules[n]].Files(includeRawScripts)
  }

  /** Where a name stands first. */
  function Position(order: seq<Name>, x: Name): (i: nat)
    requires x in order
    ensures i < |order| && order[i] == x
  {
    if order[0] == x then 0 else Position(order[1..], x) + 1
  }

  lemma {:induction false} PositionIs(order: seq<Name>, i: nat)
    requires NoDuplicates(order) && i < |order|
    ensures Position(order, order[i]) == i
  {
  }

  lemma {:induction false} PositionStays(order: seq<Name>, more: seq<Name>, x: Name)
    requires order <= more && NoDuplicates(more) && x in order
    ensures x in more && Position(more, x) == Position(order, x)
  {
    assert more[Position(order, x)] == x;
  }

  ghost predicate FromEarlier(g: Graph, m: Name, i: nat, x: Name)
    requires m in g && i <= |g[m]|
  {
    exists k :: 0 <= k < i && Reaches(g, g[m][k], x)
  }

  /** The `i`-th dependency of `m` comes before `x`, unless `x` comes before `m` or is reached from an earlier one. */
  ghost predicate Precedes(g: Graph, order: seq<Name>, m: Name, i: nat, x: Name)
    requires m in g && i < |g[m]|
  {
    m in order && g[m][i] in order && x in order ==>
      || Position(order, g[m][i]) <= Position(order, x) || Position(order, x) <= Position(order, m)
      || FromEarlier(g, m, i, x)
  }

  /** The first `hi` dependencies of `m` come in the order they are listed. */
  ghost predicate InOrderUpTo(g: Graph, order: seq<Name>, m: Name, hi: nat)
    requires m in g && hi <= |g[m]|
  {
    forall i, j :: 0 <= i < hi && i < j < |g[m]| ==> Precedes(g, order, m, i, g[m][j])
  }

  ghost predicate InOrder(g: Graph, order: seq<Name>, m: Name) {
    m in g && InOrderUpTo(g, order, m, |g[m]|)
  }

  /** A longer tour does not change the order of dependencies that were visited. */
  lemma {:induction false} OrderStays(g: Graph, order: seq<Name>, more: seq<Name>, m: Name, hi: nat)
    requires m in g && hi <= |g[m]| && order <= more && NoDuplicates(more) && m in order
    requires forall k :: 0 <= k < hi ==> g[m][k] in order
    requires InOrderUpTo(g, order, m, hi)
    ensures InOrderUpTo(g, more, m, hi)
  {
    forall i, j | 0 <= i < hi && i < j < |g[m]| ensures Precedes(g, more, m, i, g[m][j]) {
      assert Precedes(g, order, m, i, g[m][j]);
      PrecedesStays(g, order, more, m, i, g[m][j]);
    }
  }

  lemma {:induction false} PrecedesStays(g: Graph, order: seq<Name>, more: seq<Name>, m: Name, i: nat, x: Name)
    requires m in g && i < |g[m]| && order <= more && NoDuplicates(more) && m in order && g[m][i] in order
    requires Precedes(g, order, m, i, x)
    ensures Precedes(g, more, m, i, x)
  {
    PositionStays(order, more, m);
    PositionStays(order, more, g[m][i]);
    if x in order {
      PositionStays(order, more, x);
    } else if x in more {
      LaterPosition(order, more, x);
    }
  }

  lemma {:induction false} LaterPosition(order: seq<Name>, more: seq<Name>, x: Name)
    requires order <= more && x in more && x !in order
    ensures Position(more, x) >= |order|
  {
  }

  /** One more dependency, which was visited before or is visited now. */
  lemma {:induction false} NextInOrder(g: Graph, n: Name, i: nat, start: seq<Name>, order: seq<Name>, more: seq<Name>)
    requires n in g && i < |g[n]| && start + [n] <= order <= more && NoDuplicates(more)
    requires if g[n][i] in order then more == order else order + [g[n][i]] <= more
    requires forall m :: m in order && m !in start + [n] ==> FromEarlier(g, n, i, m)
    requires InOrderUpTo(g, order, n, i) && forall k :: 0 <= k < i ==> g[n][k] in order
    ensures InOrderUpTo(g, more, n, i + 1)
  {
    assert order[|start|] == n && more[|start|] == n;
    OrderStays(g, order, more, n, i);
    forall k, j | 0 <= k < i + 1 && k < j < |g[n]| ensures Precedes(g, more, n, k, g[n][j]) {
      if k == i {
        NewPrecedes(g, n, i, start, order, more, g[n][j]);
      }
    }
  }

  lemma {:induction false} NewPrecedes(g: Graph, n: Name, i: nat, start: seq<Name>, order: seq<Name>, more: seq<Name>,
                                       x: Name)
    requires n in g && i < |g[n]| && start + [n] <= order <= more && NoDuplicates(more)
    requires if g[n][i] in order then more == order else order + [g[n][i]] <= more
    requires forall m :: m in order && m !in start + [n] ==> FromEarlier(g, n, i, m)
    ensures Precedes(g, more, n, i, x)
  {
    assert more[|start|] == n;
    PositionIs(more, |start|);
    if x in more && x !in order && g[n][i] in more {
      LaterPosition(order, more, x);
      if g[n][i] !in order {
        assert more[|order|] == g[n][i];
        PositionIs(more, |order|);
      }
    } else if x in order {
      PositionStays(order, more, x);
      if x in start + [n] {
        PositionStays(start + [n], more, x);
      }
    }
  }

  /** What was visited since `before` was reached from the first `i` dependencies of `n`, and stands in order. */
  ghost predicate Below(g: Graph, n: Name, i: nat, before: set<Name>, visited: set<Name>, order: seq<Name>)
    requires n in g && i <= |g[n]|
  {
    forall m :: m in visited - before ==> FromEarlier(g, n, i, m) && InOrder(g, order, m)
  }

  lemma {:induction false} BelowNext(g: Graph, n: Name, i: nat, before: set<Name>, at: set<Name>, seen: seq<Name>,
                                     visited: set<Name>, order: seq<Name>)
    requires n in g && i < |g[n]| && Below(g, n, i, before, at, seen)
    requires seen <= order && NoDuplicates(order) && (forall m :: m in at <==> m in seen)
    requires forall m, k :: m in at - before && m in g && 0 <= k < |g[m]| ==> g[m][k] in at
    requires forall m :: m in visited - at ==> Reaches(g, g[n][i], m) && InOrder(g, order, m)
    ensures Below(g, n, i + 1, before, visited, order)
  {
    forall m | m in visited - before ensures FromEarlier(g, n, i + 1, m) && InOrder(g, order, m) {
      if m in at {
        assert m in at - before;
        assert FromEarlier(g, n, i, m) && InOrder(g, seen, m);
        OrderStays(g, seen, order, m, |g[m]|);
      } else {
        assert Reaches(g, g[n][i], m);
      }
    }
  }

  /** When all dependencies of `n` are visited, what holds of them holds of all visited from `n` on. */
  lemma {:induction false} AllBelow(g: Graph, n: Name, before: set<Name>, visited: set<Name>, order: seq<Name>)
    requires n in g && Below(g, n, |g[n]|, before + {n}, visited, order) && InOrderUpTo(g, order, n, |g[n]|)
    requires forall m, k :: m in visited - (before + {n}) && m in g && 0 <= k < |g[m]| ==> g[m][k] in visited
    requires forall k :: 0 <= k < |g[n]| ==> g[n][k] in visited
    ensures forall m :: m in visited - before ==> Reaches(g, n, m) && InOrder(g, order, m)
    ensures forall m, k :: m in visited - before && m in g && 0 <= k < |g[m]| ==> g[m][k] in visited
  {
    ReachesItself(g, n);
    forall m | m in visited - before ensures Reaches(g, n, m) && InOrder(g, order, m) {
      if m != n {
        assert m in visited - (before + {n});
        var k :| 0 <= k < |g[n]| && Reaches(g, g[n][k], m);
        EdgeThenPath(g, n, g[n][k], m);
      }
    }
    forall m, k | m in visited - before && m in g && 0 <= k < |g[m]| ensures g[m][k] in visited {
      assert m == n || m in visited - (before + {n});
    }
  }

  lemma {:induction false} VisitedGrow(before: set<Name>, seen: seq<Name>, after: set<Name>, order: seq<Name>,
                                       d: Name)
    requires seen + [d] <= order
    requires (forall m :: m in before <==> m in seen) && forall m :: m in after <==> m in order
    ensures before <= after && d in after && seen <= order
  {
    assert order[|seen|] == d;
    assert seen == order[..|seen|];
    forall m | m in before ensures m in after {
      var i :| 0 <= i < |seen| && seen[i] == m;
      assert order[i] == m;
    }
  }

  /** The two lists that the nested function of the code appends to, and the modules in the order of their visits. */
  class Collector {
    const g: Graph
    const resources: ResourceTable
    const includeRawScripts: bool
    var dependentFilenames: seq<Filename>
    var visitedModules: set<Name>
    ghost var order: seq<Name>

    ghost predicate Valid()
      reads this
    {
      && Closed(g) && g.Keys <= resources.Keys && NoDuplicates(order)
      && visitedModules <= g.Keys
      && (forall m :: m in visitedModules <==> m in order)
      && dependentFilenames == FilesOf(resources, order, includeRawScripts)
    }

    constructor (g: Graph, resources: ResourceTable, includeRawScripts: bool)
      requires Closed(g) && g.Keys <= resources.Keys
      ensures this.g == g && this.resources == resources && this.includeRawScripts == includeRawScripts
      ensures Valid() && order == [] && visitedModules == {}
    {
      this.g, this.resources, this.includeRawScripts := g, resources, includeRawScripts;
      dependentFilenames, visitedModules, order := [], {}, [];
    }

    /** Modules visited since `before` have all their dependencies visited. */
    ghost predicate Explored(before: set<Name>, current: set<Name>) {
      forall m, k :: m in current - before && m in g && 0 <= k < |g[m]| ==> g[m][k] in current
    }

    method AppendDirectlyDependentFilenamesTo(n: Name)
      requires n in resources
      modifies this`dependentFilenames
      ensures dependentFilenames == old(dependentFilenames) + resources[n].Files(includeRawScripts)
    {
      var r := resources[n];
      dependentFilenames := dependentFilenames + [r.filename];
      if includeRawScripts {
        dependentFilenames := dependentFilenames + r.rawScripts;
      }
      AppendSheets(r.styleSheets);
      AppendInlineSheets(r.inlineStyleSheets);
    }

    method AppendSheets(sheets: seq<StyleSheet>)
      modifies this`dependentFilenames
      ensures dependentFilenames == old(dependentFilenames) + SheetFiles(sheets)
    {
      for i := 0 to |sheets|
        invariant dependentFilenames == old(dependentFilenames) + SheetFiles(sheets[..i])
      {
        assert sheets[..i + 1][..i] == sheets[..i];
        dependentFilenames := dependentFilenames + sheets[i].Files();
      }
      assert sheets[..|sheets|] == sheets;
    }

    method AppendInlineSheets(inlines: seq<seq<Filename>>)
      modifies this`dependentFilenames
      ensures dependentFilenames == old(dependentFilenames) + Flat(inlines)
    {
      for i := 0 to |inlines|
        invariant dependentFilenames == old(dependentFilenames) + Flat(inlines[..i])
      {
        assert inlines[..i + 1][..i] == inlines[..i];
        dependentFilenames := dependentFilenames + inlines[i];
      }
      assert inlines[..|inlines|] == inlines;
    }

    method Visit(n: Name)
      requires Valid() && n in g && n !in visitedModules
      modifies this
      ensures Valid() && order == old(order) + [n] && visitedModules == old(visitedModules) + {n}
    {
      AppendDirectlyDependentFilenamesTo(n);
      visitedModules, order := visitedModules + {n}, order + [n];
      assert order[..|order| - 1] == old(order);
    }

    method Get(n: Name)
      requires Valid() && n in g && n !in visitedModules
      modifies this
      ensures Valid() && old(order) + [n] <= order
      ensures forall m :: m in visitedModules - old(visitedModules) ==> Reaches(g, n, m)
      ensures Explored(old(visitedModules), visitedModules)
      ensures forall m :: m in visitedModules - old(visitedModules) ==> InOrder(g, order, m)
      decreases g.Keys - visitedModules, 0
    {
      ghost var start, unvisited := order, g.Keys - visitedModules;
      Visit(n);
      assert n in unvisited && n !in g.Keys - visitedModules;
      ghost var before := visitedModules;
      var deps := g[n];
      var i := 0;
      while i < |deps|
        invariant 0 <= i <= |deps| && Valid() && start + [n] <= order
        invariant before <= visitedModules && g.Keys - visitedModules < unvisited
        invariant forall k :: 0 <= k < i ==> deps[k] in visitedModules
        invariant before == (set m | m in start + [n]) && Explored(before, visitedModules)
        invariant Below(g, n, i, before, visitedModules, order) && InOrderUpTo(g, order, n, i)
      {
        GetNext(n, i, before, start);
        i := i + 1;
      }
      AllBelow(g, n, old(visitedModules), visitedModules, order);
    }

    /** One turn of that loop. */
    method GetNext(n: Name, i: nat, ghost before: set<Name>, ghost start: seq<Name>)
      requires Valid() && n in g && i < |g[n]| && start + [n] <= order && before <= visitedModules
      requires before == set m | m in start + [n]
      requires forall k :: 0 <= k < i ==> g[n][k] in visitedModules
      requires Explored(before, visitedModules)
      requires Below(g, n, i, before, visitedModules, order) && InOrderUpTo(g, order, n, i)
      modifies this
      ensures Valid() && start + [n] <= order && old(visitedModules) <= visitedModules
      ensures g[n][i] in visitedModules && Explored(before, visitedModules)
      ensures Below(g, n, i + 1, before, visitedModules, order) && InOrderUpTo(g, order, n, i + 1)
      decreases g.Keys - visitedModules, 1
    {
      ghost var at, seen := visitedModules, order;
      var d := g[n][i];
      if d !in visitedModules {
        Get(d);
        VisitedGrow(at, seen, visitedModules, order, d);
      }
      BelowNext(g, n, i, before, at, seen, visitedModules, order);
      NextInOrder(g, n, i, start, seen, order);
    }
  }

  // ---------------------------------------------------------------------------------------------
  // What is listed

  predicate IsFileOfSheet(sheet: StyleSheet, x: Filename) {
    x == sheet.filename || x in sheet.images
  }

  /** The name is one of a module's files: its own, a raw script if asked for, a style sheet or an image. */
  predicate IsFileOf(r: Resources, includeRawScripts: bool, x: Filename) {
    || x == r.filename
    || (includeRawScripts && x in r.rawScripts)
    || (exists i :: 0 <= i < |r.styleSheets| && IsFileOfSheet(r.styleSheets[i], x))
    || (exists i :: 0 <= i < |r.inlineStyleSheets| && x in r.inlineStyleSheets[i])
  }

  function Occurrences(s: seq<Filename>, x: Filename): nat {
    multiset(s)[x]
  }

  function TimesInSheets(sheets: seq<StyleSheet>, x: Filename): nat {
    if sheets == [] then 0
    else
      var n := |sheets| - 1;
      TimesInSheets(sheets[..n], x) + (if sheets[n].filename == x then 1 else 0) + Occurrences(sheets[n].images, x)
  }

  function TimesInLists(lists: seq<seq<Filename>>, x: Filename): nat {
    if lists == [] then 0 else TimesInLists(lists[..|lists| - 1], x) + Occurrences(lists[|lists| - 1], x)
  }

  /** How often a module names a file. */
  function TimesNamed(r: Resources, includeRawScripts: bool, x: Filename): nat {
    (if r.filename == x then 1 else 0) + (if includeRawScripts then Occurrences(r.rawScripts, x) else 0)
      + TimesInSheets(r.styleSheets, x) + TimesInLists(r.inlineStyleSheets, x)
  }

  function TimesOver(r: ResourceTable, modules: seq<Name>, includeRawScripts: bool, x: Filename): nat
    requires forall m :: m in modules ==> m in r
  {
    if modules == [] then 0
    else
      var n := |modules| - 1;
      TimesOver(r, modules[..n], includeRawScripts, x) + TimesNamed(r[modules[n]], includeRawScripts, x)
  }

  lemma {:induction false} OccurrencesAdd(a: seq<Filename>, b: seq<Filename>, x: Filename)
    ensures Occurrences(a + b, x) == Occurrences(a, x) + Occurrences(b, x)
    ensures Occurrences([x], x) == 1
    ensures Occurrences(a, x) > 0 <==> x in a
  {
  }

  lemma {:induction false} SheetIsCounted(sheet: StyleSheet, x: Filename)
    ensures Occurrences(sheet.Files(), x) ==
      (if sheet.filename == x then 1 else 0) + Occurrences(sheet.images, x)
    ensures Occurrences(sheet.Files(), x) > 0 <==> IsFileOfSheet(sheet, x)
  {
    OccurrencesAdd([sheet.filename], sheet.images, x);
    OccurrencesAdd(sheet.images, [], x);
  }

  lemma {:induction false} SheetsAreCounted(sheets: seq<StyleSheet>, x: Filename)
    ensures Occurrences(SheetFiles(sheets), x) == TimesInSheets(sheets, x)
    decreases |sheets|
  {
    if sheets != [] {
      var n := |sheets| - 1;
      SheetsAreCounted(sheets[..n], x);
      OccurrencesAdd(SheetFiles(sheets[..n]), sheets[n].Files(), x);
      SheetIsCounted(sheets[n], x);
    }
  }

  lemma {:induction false} SheetsHave(sheets: seq<StyleSheet>, x: Filename)
    ensures TimesInSheets(sheets, x) > 0 <==> exists i :: 0 <= i < |sheets| && IsFileOfSheet(sheets[i], x)
    decreases |sheets|
  {
    if sheets != [] {
      var n := |sheets| - 1;
      var init := sheets[..n];
      SheetsHave(init, x);
      SheetIsCounted(sheets[n], x);
      if i :| 0 <= i < n && IsFileOfSheet(sheets[i], x) {
        assert IsFileOfSheet(init[i], x);
      }
      if i :| 0 <= i < |init| && IsFileOfSheet(init[i], x) {
        assert IsFileOfSheet(sheets[i], x);
      }
    }
  }

  lemma {:induction false} ListsAreCounted(lists: seq<seq<Filename>>, x: Filename)
    ensures Occurrences(Flat(lists), x) == TimesInLists(lists, x)
    decreases |lists|
  {
    if lists != [] {
      var n := |lists| - 1;
      ListsAreCounted(lists[..n], x);
      OccurrencesAdd(Flat(lists[..n]), lists[n], x);
    }
  }

  lemma {:induction false} ListsHave(lists: seq<seq<Filename>>, x: Filename)
    ensures TimesInLists(lists, x) > 0 <==> exists i :: 0 <= i < |lists| && x in lists[i]
    decreases |lists|
  {
    if lists != [] {
      var n := |lists| - 1;
      var init := lists[..n];
      ListsHave(init, x);
      OccurrencesAdd(lists[n], [], x);
      if i :| 0 <= i < n && x in lists[i] {
        assert x in init[i];
      }
      if i :| 0 <= i < |init| && x in init[i] {
        assert x in lists[i];
      }
    }
  }

  lemma {:induction false} FilesAreNamed(r: Resources, includeRawScripts: bool, x: Filename)
    ensures Occurrences(r.Files(includeRawScripts), x) == TimesNamed(r, includeRawScripts, x)
    ensures TimesNamed(r, includeRawScripts, x) > 0 <==> IsFileOf(r, includeRawScripts, x)
  {
    var raw := if includeRawScripts then r.rawScripts else [];
    OccurrencesAdd([r.filename] + raw + SheetFiles(r.styleSheets), Flat(r.inlineStyleSheets), x);
    OccurrencesAdd([r.filename] + raw, SheetFiles(r.styleSheets), x);
    OccurrencesAdd([r.filename], raw, x);
    OccurrencesAdd(raw, [], x);
    SheetsAreCounted(r.styleSheets, x);
    SheetsHave(r.styleSheets, x);
    ListsAreCounted(r.inlineStyleSheets, x);
    ListsHave(r.inlineStyleSheets, x);
  }

  /** Each name is listed as often as the modules name it, and none else. */
  lemma {:induction false} AllAreCounted(r: ResourceTable, modules: seq<Name>, includeRawScripts: bool, x: Filename)
    requires forall m :: m in modules ==> m in r
    ensures Occurrences(FilesOf(r, modules, includeRawScripts), x) == TimesOver(r, modules, includeRawScripts, x)
    decreases |modules|
  {
    if modules != [] {
      var n := |modules| - 1;
      AllAreCounted(r, modules[..n], includeRawScripts, x);
      FilesAreNamed(r[modules[n]], includeRawScripts, x);
      OccurrencesAdd(FilesOf(r, modules[..n], includeRawScripts), r[modules[n]].Files(includeRawScripts), x);
    }
  }

  lemma {:induction false} AllAreNamed(r: ResourceTable, modules: seq<Name>, includeRawScripts: bool, x: Filename)
    requires forall m :: m in modules ==> m in r
    ensures TimesOver(r, modules, includeRawScripts, x) > 0 <==>
      exists m :: m in modules && IsFileOf(r[m], includeRawScripts, x)
    decreases |modules|
  {
    if modules != [] {
      var n := |modules| - 1;
      var last := modules[n];
      AllAreNamed(r, modules[..n], includeRawScripts, x);
      FilesAreNamed(r[last], includeRawScripts, x);
      assert forall m :: m in modules <==> m in modules[..n] || m == last by {
        assert modules == modules[..n] + [last];
      }
      if m :| m in modules && IsFileOf(r[m], includeRawScripts, x) {
        assert m in modules[..n] || m == last;
      }
    }
  }

  /** Each module reached from `n`, once, `n` first, depth first and in the order of the dependencies. */
  ghost predicate IsTour(g: Graph, n: Name, order: seq<Name>) {
    && NoDuplicates(order) && order != [] && order[0] == n
    && (forall m :: m in order <==> Reaches(g, n, m))
    && forall m :: m in order ==> InOrder(g, order, m)
  }

  /** Every name occurs as often as the modules of the tour name it. */
  ghost predicate ListsTour(r: ResourceTable, includeRawScripts: bool, filenames: seq<Filename>, order: seq<Name>) {
    && (forall m :: m in order ==> m in r)
    && forall x :: Occurrences(filenames, x) == TimesOver(r, order, includeRawScripts, x)
  }

  /**
   * The result starts with the module's own file and lists just the files of the reached modules, each as often
   * as they name it, whatever cycles the graph has.
   */
  method GetAllDependentFilenamesRecursive(g: Graph, resources: ResourceTable, n: Name, includeRawScripts: bool)
    returns (filenames: seq<Filename>)
    requires Closed(g) && g.Keys <= resources.Keys && n in g
    ensures filenames != [] && filenames[0] == resources[n].filename
    ensures forall x :: x in filenames <==>
      exists m :: Reaches(g, n, m) && m in resources && IsFileOf(resources[m], includeRawScripts, x)
    ensures exists order :: IsTour(g, n, order) && ListsTour(resources, includeRawScripts, filenames, order)
  {
    var collector := new Collector(g, resources, includeRawScripts);
    collector.Get(n);
    filenames := collector.dependentFilenames;
    ghost var order := collector.order;
    forall m | Reaches(g, n, m) ensures m in order {
      var p :| IsPath(g, p) && p[0] == n && p[|p| - 1] == m;
      assert order[0] == n;
      ClosedSetHoldsPaths(g, collector.visitedModules, p);
    }
    FirstIsFirst(resources, order, includeRawScripts);
    TourIsListed(g, resources, n, order, includeRawScripts);
  }

  lemma {:induction false} TourIsListed(g: Graph, r: ResourceTable, n: Name, order: seq<Name>,
                                        includeRawScripts: bool)
    requires IsTour(g, n, order) && forall m :: m in order ==> m in r
    ensures ListsTour(r, includeRawScripts, FilesOf(r, order, includeRawScripts), order)
    ensures forall x :: x in FilesOf(r, order, includeRawScripts) <==>
      exists m :: Reaches(g, n, m) && m in r && IsFileOf(r[m], includeRawScripts, x)
  {
    var filenames := FilesOf(r, order, includeRawScripts);
    forall x ensures Occurrences(filenames, x) == TimesOver(r, order, includeRawScripts, x) {
      AllAreCounted(r, order, includeRawScripts, x);
    }
    forall x
      ensures x in filenames <==> exists m :: Reaches(g, n, m) && m in r && IsFileOf(r[m], includeRawScripts, x)
    {
      AllAreNamed(r, order, includeRawScripts, x);
      OccurrencesAdd(filenames, [], x);
      if m :| m in order && IsFileOf(r[m], includeRawScripts, x) {
        assert Reaches(g, n, m) && m in r && IsFileOf(r[m], includeRawScripts, x);
      }
      if m :| Reaches(g, n, m) && m in r && IsFileOf(r[m], includeRawScripts, x) {
        assert m in order && IsFileOf(r[m], includeRawScripts, x);
      }
    }
  }

  lemma {:induction false} FirstIsFirst(r: ResourceTable, modules: seq<Name>, includeRawScripts: bool)
    requires modules != [] && forall m :: m in modules ==> m in r
    ensures var files := FilesOf(r, modules, includeRawScripts);
      files != [] && files[0] == r[modules[0]].filename
    decreases |modules|
  {
    var n := |modules| - 1;
    if n > 0 {
      FirstIsFirst(r, modules[..n], includeRawScripts);
    } else {
      assert modules[..0] == [];
    }
  }
}
