/**
 * The load sequence of a set of modules: `Module.ComputeLoadSequenceRecursive` and its driver
 * `Project.CalcLoadSequenceForModules`. Modules are named; names are unique in a loader.
 */
module LoadSequence {
  import opened Wrappers
  import opened ModuleGraph

  const MAX_DEPTH := 32

  // ---------------------------------------------------------------------------------------------
  // The specification: the sequence as a value, None when the depth guard raises

  function Visit(g: Graph, n: Name, depth: nat, done: seq<Name>): Option<seq<Name>>
    requires Closed(g) && n in g
    decreases if depth > MAX_DEPTH then 0 else MAX_DEPTH + 1 - depth, 1, 0
  {
    if depth > MAX_DEPTH then None
    else
      match VisitDeps(g, g[n], depth, done)
      case None => None
      case Some(s) => Some(if n in s then s else s + [n])
  }

  function VisitDeps(g: Graph, deps: seq<Name>, depth: nat, done: seq<Name>): Option<seq<Name>>
    requires Closed(g) && depth <= MAX_DEPTH && forall i :: 0 <= i < |deps| ==> deps[i] in g
    decreases MAX_DEPTH + 1 - depth, 0, |deps|
  {
    if deps == [] then Some(done)
    else if deps[0] in done then VisitDeps(g, deps[1..], depth, done)
    else
      match Visit(g, deps[0], depth + 1, done)
      case None => None
      case Some(s) => VisitDeps(g, deps[1..], depth, s)
  }

  function VisitRoots(g: Graph, roots: seq<Name>, done: seq<Name>): Option<seq<Name>>
    requires Closed(g) && forall i :: 0 <= i < |roots| ==> roots[i] in g
    decreases |roots|
  {
    if roots == [] then Some(done)
    else
      match Visit(g, roots[0], 0, done)
      case None => None
      case Some(s) => VisitRoots(g, roots[1..], s)
  }

  // ---------------------------------------------------------------------------------------------
  // The code: two accumulators shared by the whole recursion

  class Sequencer {
    var loadSequence: seq<Name>
    var alreadyLoadedSet: set<Name>

    ghost predicate Valid()
      reads this
    {
      forall n :: n in alreadyLoadedSet <==> n in loadSequence
    }

    constructor ()
      ensures Valid() && loadSequence == []
    {
      loadSequence, alreadyLoadedSet := [], {};
    }

    method ComputeLoadSequenceRecursive(g: Graph, n: Name, depth: nat) returns (raised: bool)
      requires Valid() && Closed(g) && n in g
      modifies this
      ensures raised == Visit(g, n, depth, old(loadSequence)).None?
      ensures !raised ==> Valid() && Visit(g, n, depth, old(loadSequence)) == Some(loadSequence)
      decreases if depth > MAX_DEPTH then 0 else MAX_DEPTH + 1 - depth
    {
      if depth > MAX_DEPTH {
        return true;
      }
      var deps := g[n];
      assert deps[0..] == deps;
      var i := 0;
      while i < |deps|
        invariant 0 <= i <= |deps| && Valid()
        invariant VisitDeps(g, deps, depth, old(loadSequence)) == VisitDeps(g, deps[i..], depth, loadSequence)
      {
        assert deps[i..][1..] == deps[i + 1..];
        if deps[i] !in alreadyLoadedSet {
          var deepRaised := ComputeLoadSequenceRecursive(g, deps[i], depth + 1);
          if deepRaised {
            return true;
          }
        }
        i := i + 1;
      }
      if n !in alreadyLoadedSet {
        alreadyLoadedSet := alreadyLoadedSet + {n};
        loadSequence := loadSequence + [n];
      }
      raised := false;
    }
  }

  method CalcLoadSequenceForModules(g: Graph, roots: seq<Name>) returns (r: Option<seq<Name>>)
    requires Closed(g) && forall i :: 0 <= i < |roots| ==> roots[i] in g
    ensures r == VisitRoots(g, roots, [])
  {
    var sequencer := new Sequencer();
    assert roots[0..] == roots;
    var i := 0;
    while i < |roots|
      invariant 0 <= i <= |roots| && sequencer.Valid()
      invariant VisitRoots(g, roots, []) == VisitRoots(g, roots[i..], sequencer.loadSequence)
    {
      assert roots[i..][1..] == roots[i + 1..];
      var raised := sequencer.ComputeLoadSequenceRecursive(g, roots[i], 0);
      if raised {
        return None;
      }
      i := i + 1;
    }
    r := Some(sequencer.loadSequence);
  }

  // ---------------------------------------------------------------------------------------------
  // What a sequence is worth

  /** Each module stands after all its dependencies. */
  predicate DependenciesFirst(g: Graph, s: seq<Name>) {
    forall i, k :: 0 <= i < |s| && s[i] in g && 0 <= k < |g[s[i]]| ==> g[s[i]][k] in s[..i]
  }

  predicate Loadable(g: Graph, s: seq<Name>) {
    NoDuplicates(s) && DependenciesFirst(g, s) && forall i :: 0 <= i < |s| ==> s[i] in g
  }

  lemma {:induction false} AppendKeepsLoadable(g: Graph, s: seq<Name>, n: Name)
    requires Loadable(g, s) && n in g && n !in s && forall k :: 0 <= k < |g[n]| ==> g[n][k] in s
    ensures Loadable(g, s + [n])
  {
    var t := s + [n];
    forall i, k | 0 <= i < |t| && t[i] in g && 0 <= k < |g[t[i]]| ensures g[t[i]][k] in t[..i] {
      assert t[..i] == s[..i];
      assert s[..|s|] == s;
    }
  }

  lemma {:induction false} VisitIsSound(g: Graph, n: Name, depth: nat, done: seq<Name>)
    requires Closed(g) && n in g && Loadable(g, done) && Visit(g, n, depth, done).Some?
    ensures var s := Visit(g, n, depth, done).value;
      && Loadable(g, s) && done <= s && n in s
      && forall m :: m in s ==> m in done || Reaches(g, n, m)
    decreases if depth > MAX_DEPTH then 0 else MAX_DEPTH + 1 - depth, 1, 0
  {
    VisitDepsIsSound(g, n, g[n], depth, done);
    ReachesItself(g, n);
    var s := VisitDeps(g, g[n], depth, done).value;
    if n !in s {
      AppendKeepsLoadable(g, s, n);
    }
  }

  lemma {:induction false} VisitDepsIsSound(g: Graph, n: Name, deps: seq<Name>, depth: nat, done: seq<Name>)
    requires Closed(g) && n in g && depth <= MAX_DEPTH && Loadable(g, done)
    requires forall i :: 0 <= i < |deps| ==> deps[i] in g[n] && deps[i] in g
    requires VisitDeps(g, deps, depth, done).Some?
    ensures var s := VisitDeps(g, deps, depth, done).value;
      && Loadable(g, s) && done <= s
      && (forall i :: 0 <= i < |deps| ==> deps[i] in s)
      && forall m :: m in s ==> m in done || Reaches(g, n, m)
    decreases MAX_DEPTH + 1 - depth, 0, |deps|
  {
    if deps != [] {
      var rest := deps[1..];
      assert forall i :: 0 <= i < |rest| ==> rest[i] == deps[i + 1];
      var s := if deps[0] in done then done else Visit(g, deps[0], depth + 1, done).value;
      if deps[0] !in done {
        VisitIsSound(g, deps[0], depth + 1, done);
        ReachedByEdge(g, n, deps[0], done, s);
      }
      assert VisitDeps(g, deps, depth, done) == VisitDeps(g, rest, depth, s);
      VisitDepsIsSound(g, n, rest, depth, s);
      AllIn(deps, VisitDeps(g, rest, depth, s).value);
    }
  }

  lemma {:induction false} AllIn(deps: seq<Name>, s: seq<Name>)
    requires deps != [] && deps[0] in s && forall i :: 0 <= i < |deps[1..]| ==> deps[1..][i] in s
    ensures forall i :: 0 <= i < |deps| ==> deps[i] in s
  {
    forall i | 0 <= i < |deps| ensures deps[i] in s {
      if i > 0 {
        assert deps[1..][i - 1] == deps[i];
      }
    }
  }

  lemma {:induction false} ReachedByEdge(g: Graph, n: Name, d: Name, done: seq<Name>, s: seq<Name>)
    requires n in g && d in g[n] && forall m :: m in s ==> m in done || Reaches(g, d, m)
    ensures forall m :: m in s ==> m in done || Reaches(g, n, m)
  {
    forall m | m in s && m !in done ensures Reaches(g, n, m) {
      EdgeThenPath(g, n, d, m);
    }
  }

  ghost predicate ReachedFrom(g: Graph, roots: seq<Name>, m: Name) {
    exists i :: 0 <= i < |roots| && Reaches(g, roots[i], m)
  }

  lemma {:induction false} RootsAreSound(g: Graph, roots: seq<Name>, done: seq<Name>)
    requires Closed(g) && forall i :: 0 <= i < |roots| ==> roots[i] in g
    requires Loadable(g, done) && VisitRoots(g, roots, done).Some?
    ensures var s := VisitRoots(g, roots, done).value;
      && Loadable(g, s) && done <= s
      && (forall i :: 0 <= i < |roots| ==> roots[i] in s)
      && forall m :: m in s ==> m in done || ReachedFrom(g, roots, m)
    decreases |roots|
  {
    if roots != [] {
      VisitIsSound(g, roots[0], 0, done);
      var s := Visit(g, roots[0], 0, done).value;
      assert forall i :: 0 < i < |roots| ==> roots[i] == roots[1..][i - 1];
      RootsAreSound(g, roots[1..], s);
      forall m | m in VisitRoots(g, roots[1..], s).value && m !in done ensures ReachedFrom(g, roots, m) {
        ReachedFromMore(g, roots, m);
      }
    }
  }

  lemma {:induction false} ReachedFromMore(g: Graph, roots: seq<Name>, m: Name)
    requires roots != [] && (Reaches(g, roots[0], m) || ReachedFrom(g, roots[1..], m))
    ensures ReachedFrom(g, roots, m)
  {
    if !Reaches(g, roots[0], m) {
      var i :| 0 <= i < |roots[1..]| && Reaches(g, roots[1..][i], m);
      assert Reaches(g, roots[i + 1], m);
    }
  }

  lemma {:induction false} LoadableHoldsReached(g: Graph, s: seq<Name>, a: Name, b: Name)
    requires Loadable(g, s) && a in s && Reaches(g, a, b)
    ensures b in s
  {
    var p :| IsPath(g, p) && p[0] == a && p[|p| - 1] == b;
    var all := set n | n in s;
    forall n, k | n in all && n in g && 0 <= k < |g[n]| ensures g[n][k] in all {
      var i :| 0 <= i < |s| && s[i] == n;
      assert g[s[i]][k] in s[..i];
    }
    ClosedSetHoldsPaths(g, all, p);
  }

  /**
   * A sequence that is returned has no duplicates, holds exactly the modules reached from the roots,
   * and puts each module after all its dependencies.
   */
  lemma {:induction false} SequenceIsRight(g: Graph, roots: seq<Name>)
    requires Closed(g) && forall i :: 0 <= i < |roots| ==> roots[i] in g
    requires VisitRoots(g, roots, []).Some?
    ensures var s := VisitRoots(g, roots, []).value;
      && NoDuplicates(s) && DependenciesFirst(g, s)
      && forall m :: m in s <==> ReachedFrom(g, roots, m)
  {
    RootsAreSound(g, roots, []);
    var s := VisitRoots(g, roots, []).value;
    forall m | ReachedFrom(g, roots, m) ensures m in s {
      var i :| 0 <= i < |roots| && Reaches(g, roots[i], m);
      LoadableHoldsReached(g, s, roots[i], m);
    }
  }

  // ---------------------------------------------------------------------------------------------
  // The order of a sequence

  /** What is not in `t`, in order. */
  function NotIn(u: seq<Name>, t: seq<Name>): seq<Name> {
    if u == [] then []
    else
      var n := |u| - 1;
      NotIn(u[..n], t) + if u[n] in t then [] else [u[n]]
  }

  lemma {:induction false} NotInHas(u: seq<Name>, t: seq<Name>)
    ensures forall m :: m in NotIn(u, t) <==> m in u && m !in t
  {
    if u != [] {
      var n := |u| - 1;
      NotInHas(u[..n], t);
      assert u == u[..n] + [u[n]];
    }
  }

  lemma {:induction false} NotInMore(u: seq<Name>, more: seq<Name>, t: seq<Name>)
    requires u <= more && forall i :: |u| <= i < |more| ==> more[i] in t
    ensures NotIn(more, t) == NotIn(u, t)
    decreases |more|
  {
    if |u| < |more| {
      NotInMore(u, more[..|more| - 1], t);
    } else {
      assert more == u;
    }
  }

  /** The accumulated sequence when `t` was loaded before, and `u` would have been accumulated without it. */
  function Behind(t: seq<Name>, u: seq<Name>): seq<Name> {
    t + NotIn(u, t)
  }

  lemma {:induction false} BehindHas(t: seq<Name>, u: seq<Name>, n: Name)
    ensures n in Behind(t, u) <==> n in t || n in u
    ensures Behind(t, u + [n]) == if n in t then Behind(t, u) else Behind(t, u) + [n]
  {
    NotInHas(u, t);
    assert (u + [n])[..|u|] == u;
  }

  /** What a visit adds that was loaded before. */
  lemma {:induction false} VisitAddsLoaded(g: Graph, n: Name, depth: nat, t: seq<Name>, u: seq<Name>)
    requires Closed(g) && n in g && Loadable(g, t) && Loadable(g, u) && n in t && Visit(g, n, depth, u).Some?
    ensures Behind(t, Visit(g, n, depth, u).value) == Behind(t, u)
  {
    VisitIsSound(g, n, depth, u);
    var s := Visit(g, n, depth, u).value;
    forall i | |u| <= i < |s| ensures s[i] in t {
      LoadableHoldsReached(g, t, n, s[i]);
    }
    NotInMore(u, s, t);
  }

  lemma {:induction false} VisitBehind(g: Graph, n: Name, depth: nat, t: seq<Name>, u: seq<Name>)
    requires Closed(g) && n in g && Loadable(g, t) && Loadable(g, u) && Visit(g, n, depth, u).Some?
    ensures Visit(g, n, depth, Behind(t, u)) == Some(Behind(t, Visit(g, n, depth, u).value))
    decreases if depth > MAX_DEPTH then 0 else MAX_DEPTH + 1 - depth, 1, 0, 0
  {
    VisitDepsBehind(g, n, g[n], depth, t, u);
    var s := VisitDeps(g, g[n], depth, u).value;
    BehindHas(t, s, n);
  }

  lemma {:induction false} VisitDepsBehind(g: Graph, n: Name, deps: seq<Name>, depth: nat, t: seq<Name>, u: seq<Name>)
    requires Closed(g) && n in g && depth <= MAX_DEPTH && Loadable(g, t) && Loadable(g, u)
    requires forall i :: 0 <= i < |deps| ==> deps[i] in g[n] && deps[i] in g
    requires VisitDeps(g, deps, depth, u).Some?
    ensures VisitDeps(g, deps, depth, Behind(t, u)) == Some(Behind(t, VisitDeps(g, deps, depth, u).value))
    decreases MAX_DEPTH + 1 - depth, 0, |deps|, 1
  {
    if deps != [] {
      if deps[0] in u {
        AlreadyThere(g, n, deps, depth, t, u);
      } else if deps[0] in t {
        LoadedBefore(g, n, deps, depth, t, u);
      } else {
        LoadedNow(g, n, deps, depth, t, u);
      }
    }
  }

  lemma {:induction false} AlreadyThere(g: Graph, n: Name, deps: seq<Name>, depth: nat, t: seq<Name>, u: seq<Name>)
    requires Closed(g) && n in g && depth <= MAX_DEPTH && Loadable(g, t) && Loadable(g, u)
    requires forall i :: 0 <= i < |deps| ==> deps[i] in g[n] && deps[i] in g
    requires VisitDeps(g, deps, depth, u).Some?
    requires deps != [] && deps[0] in u
    ensures VisitDeps(g, deps, depth, Behind(t, u)) == Some(Behind(t, VisitDeps(g, deps, depth, u).value))
    decreases MAX_DEPTH + 1 - depth, 0, |deps|, 0
  {
    TailOfDeps(g, n, deps);
    BehindHas(t, u, deps[0]);
    SameNext(g, deps, depth, u, u);
    SameNext(g, deps, depth, Behind(t, u), Behind(t, u));
    VisitDepsBehind(g, n, deps[1..], depth, t, u);
  }

  lemma {:induction false} LoadedBefore(g: Graph, n: Name, deps: seq<Name>, depth: nat, t: seq<Name>, u: seq<Name>)
    requires Closed(g) && n in g && depth <= MAX_DEPTH && Loadable(g, t) && Loadable(g, u)
    requires forall i :: 0 <= i < |deps| ==> deps[i] in g[n] && deps[i] in g
    requires VisitDeps(g, deps, depth, u).Some?
    requires deps != [] && deps[0] in t && deps[0] !in u
    ensures VisitDeps(g, deps, depth, Behind(t, u)) == Some(Behind(t, VisitDeps(g, deps, depth, u).value))
    decreases MAX_DEPTH + 1 - depth, 0, |deps|, 0
  {
    TailOfDeps(g, n, deps);
    BehindHas(t, u, deps[0]);
    var s := NextAfter(g, deps, depth, u);
    VisitAddsLoaded(g, deps[0], depth + 1, t, u);
    SameNext(g, deps, depth, Behind(t, u), Behind(t, u));
    VisitDepsBehind(g, n, deps[1..], depth, t, s);
  }

  lemma {:induction false} LoadedNow(g: Graph, n: Name, deps: seq<Name>, depth: nat, t: seq<Name>, u: seq<Name>)
    requires Closed(g) && n in g && depth <= MAX_DEPTH && Loadable(g, t) && Loadable(g, u)
    requires forall i :: 0 <= i < |deps| ==> deps[i] in g[n] && deps[i] in g
    requires VisitDeps(g, deps, depth, u).Some?
    requires deps != [] && deps[0] !in t && deps[0] !in u
    ensures VisitDeps(g, deps, depth, Behind(t, u)) == Some(Behind(t, VisitDeps(g, deps, depth, u).value))
    decreases MAX_DEPTH + 1 - depth, 0, |deps|, 0
  {
    TailOfDeps(g, n, deps);
    BehindHas(t, u, deps[0]);
    var s := NextAfter(g, deps, depth, u);
    VisitBehind(g, deps[0], depth + 1, t, u);
    SameNext(g, deps, depth, Behind(t, u), Behind(t, s));
    VisitDepsBehind(g, n, deps[1..], depth, t, s);
  }

  lemma {:induction false} TailOfDeps(g: Graph, n: Name, deps: seq<Name>)
    requires n in g && deps != [] && forall i :: 0 <= i < |deps| ==> deps[i] in g[n] && deps[i] in g
    ensures forall i :: 0 <= i < |deps[1..]| ==> deps[1..][i] in g[n] && deps[1..][i] in g
  {
    assert forall i :: 0 <= i < |deps[1..]| ==> deps[1..][i] == deps[i + 1];
  }

  /** The sequence after the first of the dependencies, which is not loaded. */
  lemma {:induction false} NextAfter(g: Graph, deps: seq<Name>, depth: nat, done: seq<Name>) returns (next: seq<Name>)
    requires Closed(g) && depth <= MAX_DEPTH && deps != [] && forall i :: 0 <= i < |deps| ==> deps[i] in g
    requires Loadable(g, done) && deps[0] !in done && VisitDeps(g, deps, depth, done).Some?
    ensures Visit(g, deps[0], depth + 1, done) == Some(next) && Loadable(g, next)
    ensures VisitDeps(g, deps, depth, done) == VisitDeps(g, deps[1..], depth, next)
  {
    SomeNext(g, deps, depth, done);
    next := Visit(g, deps[0], depth + 1, done).value;
    VisitIsSound(g, deps[0], depth + 1, done);
    SameNext(g, deps, depth, done, next);
  }

  lemma {:induction false} SomeNext(g: Graph, deps: seq<Name>, depth: nat, done: seq<Name>)
    requires Closed(g) && depth <= MAX_DEPTH && deps != [] && forall i :: 0 <= i < |deps| ==> deps[i] in g
    requires deps[0] !in done && VisitDeps(g, deps, depth, done).Some?
    ensures Visit(g, deps[0], depth + 1, done).Some?
  {
  }

  /** The loop over dependencies after its first turn. */
  lemma {:induction false} SameNext(g: Graph, deps: seq<Name>, depth: nat, done: seq<Name>, next: seq<Name>)
    requires Closed(g) && depth <= MAX_DEPTH && deps != [] && forall i :: 0 <= i < |deps| ==> deps[i] in g
    requires if deps[0] in done then next == done else Visit(g, deps[0], depth + 1, done) == Some(next)
    ensures VisitDeps(g, deps, depth, done) == VisitDeps(g, deps[1..], depth, next)
  {
  }

  lemma {:induction false} OneRootMore(g: Graph, roots: seq<Name>, r: Name, done: seq<Name>)
    requires Closed(g) && r in g && forall i :: 0 <= i < |roots| ==> roots[i] in g
    ensures VisitRoots(g, roots + [r], done) ==
      if VisitRoots(g, roots, done).None? then None else Visit(g, r, 0, VisitRoots(g, roots, done).value)
    decreases |roots|
  {
    if roots == [] {
      assert [r][1..] == [];
    } else {
      assert (roots + [r])[1..] == roots[1..] + [r];
      if Visit(g, roots[0], 0, done).Some? {
        OneRootMore(g, roots[1..], r, Visit(g, roots[0], 0, done).value);
      }
    }
  }

  /** One more root appends its own sequence, without what is loaded already. */
  lemma {:induction false} LastRootIsAppended(g: Graph, roots: seq<Name>, r: Name)
    requires Closed(g) && r in g && forall i :: 0 <= i < |roots| ==> roots[i] in g
    requires VisitRoots(g, roots, []).Some? && VisitRoots(g, [r], []).Some?
    ensures VisitRoots(g, roots + [r], []) ==
      Some(VisitRoots(g, roots, []).value + NotIn(VisitRoots(g, [r], []).value, VisitRoots(g, roots, []).value))
  {
    OneRootMore(g, roots, r, []);
    OneRootMore(g, [], r, []);
    assert [] + [r] == [r];
    RootsAreSound(g, roots, []);
    var t := VisitRoots(g, roots, []).value;
    VisitBehind(g, r, 0, t, []);
    assert Behind(t, []) == t;
  }

  /** A shallower visit that gets through the same modules ends the same. */
  lemma {:induction false} ShallowerVisit(g: Graph, n: Name, depth: nat, less: nat, done: seq<Name>)
    requires Closed(g) && n in g && less <= depth && Visit(g, n, depth, done).Some?
    ensures Visit(g, n, less, done) == Visit(g, n, depth, done)
    decreases if depth > MAX_DEPTH then 0 else MAX_DEPTH + 1 - depth, 1, 0
  {
    ShallowerDeps(g, g[n], depth, less, done);
  }

  lemma {:induction false} ShallowerDeps(g: Graph, deps: seq<Name>, depth: nat, less: nat, done: seq<Name>)
    requires Closed(g) && less <= depth <= MAX_DEPTH && forall i :: 0 <= i < |deps| ==> deps[i] in g
    requires VisitDeps(g, deps, depth, done).Some?
    ensures VisitDeps(g, deps, less, done) == VisitDeps(g, deps, depth, done)
    decreases MAX_DEPTH + 1 - depth, 0, |deps|
  {
    if deps != [] {
      var rest := deps[1..];
      assert forall i :: 0 <= i < |rest| ==> rest[i] == deps[i + 1];
      if deps[0] in done {
        ShallowerDeps(g, rest, depth, less, done);
      } else {
        ShallowerVisit(g, deps[0], depth + 1, less + 1, done);
        ShallowerDeps(g, rest, depth, less, Visit(g, deps[0], depth + 1, done).value);
      }
    }
  }

  /** Visiting what is loaded changes nothing. */
  lemma {:induction false} VisitLoaded(g: Graph, n: Name, depth: nat, done: seq<Name>)
    requires Closed(g) && n in g && depth <= MAX_DEPTH && Loadable(g, done) && n in done
    ensures Visit(g, n, depth, done) == Some(done)
  {
    var i :| 0 <= i < |done| && done[i] == n;
    forall k | 0 <= k < |g[n]| ensures g[n][k] in done {
      assert g[done[i]][k] in done[..i];
    }
    VisitLoadedDeps(g, g[n], depth, done);
  }

  lemma {:induction false} VisitLoadedDeps(g: Graph, deps: seq<Name>, depth: nat, done: seq<Name>)
    requires Closed(g) && depth <= MAX_DEPTH && forall i :: 0 <= i < |deps| ==> deps[i] in g && deps[i] in done
    ensures VisitDeps(g, deps, depth, done) == Some(done)
    decreases |deps|
  {
    if deps != [] {
      VisitLoadedDeps(g, deps[1..], depth, done);
    }
  }

  /** The dependencies of a module are visited as roots would be. */
  lemma {:induction false} DepsAreRoots(g: Graph, n: Name, deps: seq<Name>, done: seq<Name>)
    requires Closed(g) && n in g && Loadable(g, done)
    requires forall i :: 0 <= i < |deps| ==> deps[i] in g[n] && deps[i] in g
    requires VisitDeps(g, deps, 0, done).Some?
    ensures VisitRoots(g, deps, done) == VisitDeps(g, deps, 0, done)
    decreases |deps|
  {
    if deps != [] {
      var rest := deps[1..];
      assert forall i :: 0 <= i < |rest| ==> rest[i] == deps[i + 1];
      if deps[0] in done {
        VisitLoaded(g, deps[0], 0, done);
        DepsAreRoots(g, n, rest, done);
      } else {
        ShallowerVisit(g, deps[0], 1, 0, done);
        VisitIsSound(g, deps[0], 1, done);
        DepsAreRoots(g, n, rest, Visit(g, deps[0], 1, done).value);
      }
    }
  }

  /** The sequence of one root is that of its dependencies, in the order they are listed, and then itself. */
  lemma {:induction false} OneRootIsLast(g: Graph, n: Name)
    requires Closed(g) && n in g && VisitRoots(g, [n], []).Some?
    ensures VisitRoots(g, g[n], []).Some?
    ensures VisitRoots(g, [n], []).value == VisitRoots(g, g[n], []).value + [n]
  {
    OneRootMore(g, [], n, []);
    assert [] + [n] == [n];
    DepsAreRoots(g, n, g[n], []);
    RootsAreSound(g, g[n], []);
    var s := VisitRoots(g, g[n], []).value;
    if n in s {
      var i :| 0 <= i < |g[n]| && Reaches(g, g[n][i], n);
      EdgeThenPath(g, n, g[n][i], n);
      ReachesItself(g, n);
      assert ReachedFrom(g, [n], n) by {
        assert Reaches(g, [n][0], n);
      }
      CycleRaises(g, [n], n);
      assert false;
    }
  }

  // ---------------------------------------------------------------------------------------------
  // The depth guard

  /** In a loadable sequence each edge goes to an earlier position. */
  lemma {:induction false} PathsGoBack(g: Graph, s: seq<Name>, p: seq<Name>, i: nat) returns (j: nat)
    requires Loadable(g, s) && IsPath(g, p) && i < |s| && s[i] == p[0]
    ensures j <= i && s[j] == p[|p| - 1] && (|p| > 1 ==> j < i)
    decreases |p|
  {
    if |p| == 1 {
      j := i;
    } else {
      assert p[1] in g[p[0]];
      var k :| 0 <= k < |g[s[i]]| && g[s[i]][k] == p[1];
      assert p[1] in s[..i];
      var h :| 0 <= h < i && s[..i][h] == p[1];
      assert IsPath(g, p[1..]);
      j := PathsGoBack(g, s, p[1..], h);
    }
  }

  /** A cycle that any root reaches always raises. */
  lemma {:induction false} CycleRaises(g: Graph, roots: seq<Name>, n: Name)
    requires Closed(g) && forall i :: 0 <= i < |roots| ==> roots[i] in g
    requires ReachedFrom(g, roots, n) && DependsOn(g, n, n)
    ensures VisitRoots(g, roots, []).None?
  {
    if VisitRoots(g, roots, []).Some? {
      SequenceIsRight(g, roots);
      RootsAreSound(g, roots, []);
      var s := VisitRoots(g, roots, []).value;
      var i :| 0 <= i < |s| && s[i] == n;
      var p :| IsPath(g, p) && |p| > 1 && p[0] == n && p[|p| - 1] == n;
      var j := PathsGoBack(g, s, p, i);
      assert false;
    }
  }

  /** No chain from `n` has more than `edges` edges. */
  ghost predicate ChainsWithin(g: Graph, n: Name, edges: int) {
    forall p :: IsPath(g, p) && p[0] == n ==> |p| - 1 <= edges
  }

  lemma {:induction false} ShortChainsPass(g: Graph, n: Name, depth: nat, done: seq<Name>)
    requires Closed(g) && n in g && ChainsWithin(g, n, MAX_DEPTH - depth)
    ensures Visit(g, n, depth, done).Some?
    decreases if depth > MAX_DEPTH then 0 else MAX_DEPTH + 1 - depth, 1, 0
  {
    assert IsPath(g, [n]);
    forall i | 0 <= i < |g[n]| ensures ChainsWithin(g, g[n][i], MAX_DEPTH - depth - 1) {
      forall p | IsPath(g, p) && p[0] == g[n][i] ensures |p| - 1 <= MAX_DEPTH - depth - 1 {
        assert IsPath(g, [n] + p);
      }
    }
    ShortChainsPassDeps(g, g[n], depth, done);
  }

  lemma {:induction false} ShortChainsPassDeps(g: Graph, deps: seq<Name>, depth: nat, done: seq<Name>)
    requires Closed(g) && depth <= MAX_DEPTH
    requires forall i :: 0 <= i < |deps| ==> deps[i] in g && ChainsWithin(g, deps[i], MAX_DEPTH - depth - 1)
    ensures VisitDeps(g, deps, depth, done).Some?
    decreases MAX_DEPTH + 1 - depth, 0, |deps|
  {
    if deps != [] {
      assert forall i :: 0 < i < |deps| ==> deps[i] == deps[1..][i - 1];
      if deps[0] in done {
        ShortChainsPassDeps(g, deps[1..], depth, done);
      } else {
        ShortChainsPass(g, deps[0], depth + 1, done);
        ShortChainsPassDeps(g, deps[1..], depth, Visit(g, deps[0], depth + 1, done).value);
      }
    }
  }

  /** A graph whose chains from every root have at most 32 edges never raises. */
  lemma {:induction false} ShortChainsNeverRaise(g: Graph, roots: seq<Name>, done: seq<Name>)
    requires Closed(g)
    requires forall i :: 0 <= i < |roots| ==> roots[i] in g && ChainsWithin(g, roots[i], 32)
    ensures VisitRoots(g, roots, done).Some?
    decreases |roots|
  {
    if roots != [] {
      ShortChainsPass(g, roots[0], 0, done);
      assert forall i :: 0 < i < |roots| ==> roots[i] == roots[1..][i - 1];
      ShortChainsNeverRaise(g, roots[1..], Visit(g, roots[0], 0, done).value);
    }
  }

  /** A single chain of distinct modules that ends in one without dependencies. */
  predicate IsChain(g: Graph, p: seq<Name>) {
    && IsPath(g, p) && NoDuplicates(p)
    && (forall i :: 0 <= i < |p| - 1 ==> g[p[i]] == [p[i + 1]])
    && g[p[|p| - 1]] == []
  }

  /** The bound is sharp: a chain without any loop passes exactly when it has at most 32 edges. */
  lemma {:induction false} ChainPassesIff(g: Graph, p: seq<Name>, depth: nat)
    requires Closed(g) && IsChain(g, p)
    ensures Visit(g, p[0], depth, []).Some? <==> depth + |p| - 1 <= 32
    decreases |p|
  {
    if |p| > 1 && depth <= MAX_DEPTH {
      assert IsChain(g, p[1..]);
      ChainPassesIff(g, p[1..], depth + 1);
      var deps := g[p[0]];
      assert deps[0] == p[1] && deps[1..] == [];
      match Visit(g, p[1], depth + 1, [])
      case None =>
      case Some(s) =>
        assert VisitDeps(g, deps, depth, []) == VisitDeps(g, deps[1..], depth, s);
    }
  }
}
