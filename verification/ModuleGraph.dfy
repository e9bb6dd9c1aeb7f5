/** The graph of modules by name: paths, reachability and cycles. */
module ModuleGraph {
  type Name = string

  /** The dependent modules of each module, in the order they are listed. */
  type Graph = map<Name, seq<Name>>

  predicate Closed(g: Graph) {
    forall n, i :: n in g && 0 <= i < |g[n]| ==> g[n][i] in g
  }

  predicate NoDuplicates(s: seq<Name>) {
    forall i, j :: 0 <= i < j < |s| ==> s[i] != s[j]
  }

  /** A chain of modules, each depending on the next. It has `|p| - 1` edges. */
  predicate IsPath(g: Graph, p: seq<Name>) {
    && |p| > 0
    && (forall i :: 0 <= i < |p| ==> p[i] in g)
    && (forall i :: 0 <= i < |p| - 1 ==> p[i + 1] in g[p[i]])
  }

  ghost predicate Reaches(g: Graph, a: Name, b: Name) {
    exists p :: IsPath(g, p) && p[0] == a && p[|p| - 1] == b
  }

  /** `b` can be reached from `a` by at least one edge. */
  ghost predicate DependsOn(g: Graph, a: Name, b: Name) {
    exists p :: IsPath(g, p) && |p| > 1 && p[0] == a && p[|p| - 1] == b
  }

  ghost function Dependencies(g: Graph, a: Name): set<Name> {
    set b | b in g && DependsOn(g, a, b)
  }

  /** No cycle is reached from `n`. */
  ghost predicate AcyclicFrom(g: Graph, n: Name) {
    forall m :: Reaches(g, n, m) ==> !DependsOn(g, m, m)
  }

  lemma {:induction false} ReachesItself(g: Graph, n: Name)
    requires n in g
    ensures Reaches(g, n, n)
  {
    assert IsPath(g, [n]);
  }

  lemma {:induction false} EdgeThenPath(g: Graph, a: Name, b: Name, c: Name)
    requires a in g && b in g[a] && Reaches(g, b, c)
    ensures DependsOn(g, a, c) && Reaches(g, a, c)
  {
    var p :| IsPath(g, p) && p[0] == b && p[|p| - 1] == c;
    assert IsPath(g, [a] + p);
  }

  lemma {:induction false} DependsOnEdge(g: Graph, a: Name, c: Name)
    requires DependsOn(g, a, c)
    ensures a in g && exists b :: b in g[a] && Reaches(g, b, c)
  {
    var p :| IsPath(g, p) && |p| > 1 && p[0] == a && p[|p| - 1] == c;
    assert IsPath(g, p[1..]) && p[1] in g[a];
  }

  lemma {:induction false} ReachesSplit(g: Graph, a: Name, c: Name)
    requires Reaches(g, a, c)
    ensures a in g && c in g && (a == c || DependsOn(g, a, c))
  {
    var p :| IsPath(g, p) && p[0] == a && p[|p| - 1] == c;
  }

  lemma {:induction false} ReachesTransitive(g: Graph, a: Name, b: Name, c: Name)
    requires Reaches(g, a, b) && Reaches(g, b, c)
    ensures Reaches(g, a, c)
    ensures DependsOn(g, a, b) || DependsOn(g, b, c) ==> DependsOn(g, a, c)
  {
    var p :| IsPath(g, p) && p[0] == a && p[|p| - 1] == b && (DependsOn(g, a, b) ==> |p| > 1);
    var q :| IsPath(g, q) && q[0] == b && q[|q| - 1] == c && (DependsOn(g, b, c) ==> |q| > 1);
    var r := p + q[1..];
    assert forall i :: 0 <= i < |r| ==> r[i] == if i < |p| then p[i] else q[i - |p| + 1];
    assert IsPath(g, r);
  }

  lemma {:induction false} PathThenEdge(g: Graph, a: Name, b: Name, c: Name)
    requires Reaches(g, a, b) && c in g && c in g[b]
    ensures Reaches(g, a, c)
  {
    var p :| IsPath(g, p) && p[0] == a && p[|p| - 1] == b;
    assert IsPath(g, p + [c]);
  }

  lemma {:induction false} DependsOnReaches(g: Graph, a: Name, b: Name)
    requires DependsOn(g, a, b)
    ensures Reaches(g, a, b)
  {
  }

  /** A set closed under dependencies contains everything that is reached from inside it. */
  lemma {:induction false} ClosedSetHoldsPaths(g: Graph, s: set<Name>, p: seq<Name>)
    requires forall n, i :: n in s && n in g && 0 <= i < |g[n]| ==> g[n][i] in s
    requires IsPath(g, p) && p[0] in s
    ensures p[|p| - 1] in s
    decreases |p|
  {
    if |p| > 1 {
      assert IsPath(g, p[1..]);
      ClosedSetHoldsPaths(g, s, p[1..]);
    }
  }
}
