/**
 * `FakeFS._FakeWalk`: the stand-in for `os.walk` over a table of file names, with a double-ended queue of
 * directories still to visit.
 *
 * A normalised absolute path is the list of its components, so "/" is the empty list, and a name lies below
 * a directory when the directory is a proper prefix of it.
 */
module FakeWalk {
  type Path = seq<string>

  /** What is yielded: a directory, the sorted names of the directories in it, and the names of its files. */
  datatype Entry = Entry(dir: Path, dirs: seq<string>, files: seq<string>)

  /** The order of strings in Python. */
  predicate Before(a: string, b: string) {
    b != [] && (a == [] || a[0] < b[0] || (a[0] == b[0] && Before(a[1..], b[1..])))
  }

  predicate Ascending(names: seq<string>) {
    forall i, j :: 0 <= i < j < |names| ==> Before(names[i], names[j])
  }

  lemma {:induction false} BeforeIsTotal(a: string, b: string)
    ensures a == b || Before(a, b) || Before(b, a)
  {
    if a != [] && b != [] && a[0] == b[0] {
      BeforeIsTotal(a[1..], b[1..]);
      assert a == [a[0]] + a[1..] && b == [b[0]] + b[1..];
    }
  }

  lemma {:induction false} BeforeIsTransitive(a: string, b: string, c: string)
    requires Before(a, b) && Before(b, c)
    ensures Before(a, c)
  {
    if a != [] && a[0] == b[0] == c[0] {
      BeforeIsTransitive(a[1..], b[1..], c[1..]);
    }
  }

  function Inserted(names: seq<string>, x: string): seq<string> {
    if names == [] || Before(x, names[0]) then [x] + names else [names[0]] + Inserted(names[1..], x)
  }

  lemma {:induction false} InsertedIsSorted(names: seq<string>, x: string)
    requires Ascending(names) && x !in names
    ensures Ascending(Inserted(names, x))
    ensures forall y :: y in Inserted(names, x) <==> y in names || y == x
  {
    if names != [] {
      assert names == [names[0]] + names[1..];
      if Before(x, names[0]) {
        forall j | 0 < j < |names| ensures Before(x, names[j]) {
          BeforeIsTransitive(x, names[0], names[j]);
        }
      } else {
        InsertedIsSorted(names[1..], x);
        BeforeIsTotal(x, names[0]);
        forall y | y in Inserted(names[1..], x) ensures Before(names[0], y) {
          if y != x {
            var i :| 0 <= i < |names[1..]| && names[1..][i] == y;
            assert names[i + 1] == y;
          }
        }
      }
    }
  }

  /** `sorted`. */
  method Sorted(names: set<string>) returns (sorted: seq<string>)
    ensures IsSorted(sorted, names)
  {
    sorted := [];
    var left := names;
    while left != {}
      invariant left <= names && IsSorted(sorted, names - left)
    {
      var x :| x in left;
      InsertedIsSorted(sorted, x);
      sorted, left := Inserted(sorted, x), left - {x};
    }
  }

  ghost predicate IsSorted(sorted: seq<string>, names: set<string>) {
    Ascending(sorted) && forall x :: x in sorted <==> x in names
  }

  function Parent(p: Path): Path
    requires p != []
  {
    p[..|p| - 1]
  }

  /** The names of the files that lie in a directory itself, in the order of the table. */
  function FilesIn(all: seq<Path>, d: Path): seq<string> {
    if all == [] then []
    else
      var f := all[|all| - 1];
      FilesIn(all[..|all| - 1], d) + if d < f && |f| == |d| + 1 then [f[|d|]] else []
  }

  predicate IsDeep(f: Path, d: Path) {
    d < f && |f| > |d| + 1
  }

  function DirsIn(all: seq<Path>, d: Path): set<string> {
    set i | 0 <= i < |all| && IsDeep(all[i], d) :: all[i][|d|]
  }

  /** What the inner loop puts at the front of the queue: one directory for each file further down, last first. */
  function ToVisit(all: seq<Path>, d: Path): seq<Path> {
    if all == [] then []
    else
      var f := all[|all| - 1];
      (if IsDeep(f, d) then [d + [f[|d|]]] else []) + ToVisit(all[..|all| - 1], d)
  }

  predicate LeadsToFile(all: seq<Path>, d: Path) {
    exists i :: 0 <= i < |all| && d < all[i]
  }

  /** The directories a walk should visit. */
  predicate IsWalked(all: seq<Path>, top: Path, d: Path) {
    d == top || (top <= d && LeadsToFile(all, d))
  }

  lemma {:induction false} ToVisitAre(all: seq<Path>, d: Path, x: Path)
    ensures x in ToVisit(all, d) <==> exists i :: 0 <= i < |all| && IsDeep(all[i], d) && x == d + [all[i][|d|]]
  {
    if all != [] {
      var init := all[..|all| - 1];
      ToVisitAre(init, d, x);
      assert forall i :: 0 <= i < |init| ==> init[i] == all[i];
    }
  }

  /** The directories to visit next are the children that lead to a file. */
  lemma {:induction false} ChildrenAreVisited(all: seq<Path>, d: Path, x: Path)
    ensures x in ToVisit(all, d) <==> x != [] && Parent(x) == d && LeadsToFile(all, x)
  {
    ToVisitAre(all, d, x);
    if x in ToVisit(all, d) {
      var i :| 0 <= i < |all| && IsDeep(all[i], d) && x == d + [all[i][|d|]];
      assert x < all[i];
    }
    if x != [] && Parent(x) == d && LeadsToFile(all, x) {
      var i :| 0 <= i < |all| && x < all[i];
      assert d == all[i][..|d|] && IsDeep(all[i], d) && x == d + [all[i][|d|]];
    }
  }

  // ---------------------------------------------------------------------------------------------
  // What a walk is

  ghost predicate NoRepeats(walk: seq<Entry>) {
    forall i, j :: 0 <= i < j < |walk| ==> walk[i].dir != walk[j].dir
  }

  ghost predicate ParentsFirst(walk: seq<Entry>, top: Path) {
    forall i :: 0 <= i < |walk| && walk[i].dir != top ==>
      walk[i].dir != [] && exists j :: 0 <= j < i && walk[j].dir == Parent(walk[i].dir)
  }

  /** Between a directory and one below it, only directories below it are yielded. */
  ghost predicate SubtreesTogether(walk: seq<Entry>) {
    forall i, j, k :: 0 <= i < j < k < |walk| && walk[i].dir <= walk[k].dir ==> walk[i].dir <= walk[j].dir
  }

  ghost predicate Lists(all: seq<Path>, walk: seq<Entry>) {
    forall i :: 0 <= i < |walk| ==>
      IsSorted(walk[i].dirs, DirsIn(all, walk[i].dir)) && walk[i].files == FilesIn(all, walk[i].dir)
  }

  /** Two directories in the same one, of which the first has a file in the table after all files of the other. */
  ghost predicate GoesFirst(all: seq<Path>, x: Path, y: Path) {
    && x != [] && y != [] && x != y && Parent(x) == Parent(y)
    && exists i: nat :: IsAfter(all, i, x, y)
  }

  predicate IsAfter(all: seq<Path>, i: nat, x: Path, y: Path) {
    i < |all| && x < all[i] && forall k :: i <= k < |all| ==> !(y < all[k])
  }

  ghost predicate Yielded(walk: seq<Entry>, n: nat, x: Path) {
    exists i :: 0 <= i < n && i < |walk| && walk[i].dir == x
  }

  /** The directories in one directory are yielded in the reverse order of their last files. */
  ghost predicate SiblingsInOrder(all: seq<Path>, top: Path, walk: seq<Entry>) {
    forall j, x :: 0 <= j < |walk| && walk[j].dir != top && GoesFirst(all, x, walk[j].dir) ==> Yielded(walk, j, x)
  }

  ghost predicate IsWalk(all: seq<Path>, top: Path, walk: seq<Entry>) {
    && (forall d :: IsWalked(all, top, d) <==> exists i :: 0 <= i < |walk| && walk[i].dir == d)
    && NoRepeats(walk) && ParentsFirst(walk, top) && SubtreesTogether(walk) && Lists(all, walk)
    && SiblingsInOrder(all, top, walk)
  }

  // ---------------------------------------------------------------------------------------------
  // The queue

  function Visited(walk: seq<Entry>): set<Path> {
    set i | 0 <= i < |walk| :: walk[i].dir
  }

  /** All that can ever be visited. */
  function Universe(all: seq<Path>, top: Path): set<Path> {
    {top} + set i, n | 0 <= i < |all| && 0 <= n <= |all[i]| :: all[i][..n]
  }

  /** Directories in the queue or yielded should be walked, and their parents are yielded. */
  ghost predicate QueueIsRight(all: seq<Path>, top: Path, walk: seq<Entry>, pending: seq<Path>) {
    forall x :: x in pending ==>
      IsWalked(all, top, x) && (x != top ==> x != [] && Parent(x) in Visited(walk))
  }

  ghost predicate WalkIsRight(all: seq<Path>, top: Path, walk: seq<Entry>) {
    && (forall i :: 0 <= i < |walk| ==> IsWalked(all, top, walk[i].dir))
    && NoRepeats(walk) && ParentsFirst(walk, top) && SubtreesTogether(walk) && Lists(all, walk)
  }

  /** The children of what is yielded are yielded or in the queue. */
  ghost predicate NothingLost(all: seq<Path>, top: Path, walk: seq<Entry>, pending: seq<Path>) {
    && (top in pending || top in Visited(walk))
    && forall d, x :: d in Visited(walk) && x in ToVisit(all, d) ==> x in pending || x in Visited(walk)
  }

  ghost predicate Fresh(walk: seq<Entry>, x: Path) {
    x !in Visited(walk)
  }

  /** A subtree that is still open lies at the front of the queue. */
  ghost predicate OpenInFront(walk: seq<Entry>, pending: seq<Path>) {
    forall i, a, b ::
      (0 <= i < |walk| && 0 <= a < b < |pending| && Fresh(walk, pending[a]) && Fresh(walk, pending[b])
        && walk[i].dir <= pending[b])
      ==> walk[i].dir <= pending[a]
  }

  /** A subtree that was left is not in the queue. */
  ghost predicate LeftIsDone(walk: seq<Entry>, pending: seq<Path>) {
    forall i, j, b ::
      (0 <= i < j < |walk| && 0 <= b < |pending| && Fresh(walk, pending[b]) && walk[i].dir <= pending[b])
      ==> walk[i].dir <= walk[j].dir
  }

  ghost predicate StandsBefore(pending: seq<Path>, b: nat, x: Path) {
    exists a :: 0 <= a < b && a < |pending| && pending[a] == x
  }

  /** A directory that is to go before one in the queue is yielded or stands before it. */
  ghost predicate QueueInOrder(all: seq<Path>, top: Path, walk: seq<Entry>, pending: seq<Path>) {
    forall b, x ::
      (0 <= b < |pending| && Fresh(walk, pending[b]) && pending[b] != top && GoesFirst(all, x, pending[b]))
      ==> x in Visited(walk) || StandsBefore(pending, b, x)
  }

  method FakeWalkDirs(all: seq<Path>, d: Path, pending: seq<Path>)
    returns (dirs: set<string>, files: seq<string>, queue: seq<Path>)
    ensures dirs == DirsIn(all, d) && files == FilesIn(all, d) && queue == ToVisit(all, d) + pending
  {
    dirs, files := {}, [];
    ghost var pushed := [];
    queue := pending;
    for i := 0 to |all|
      invariant dirs == DirsIn(all[..i], d)
      invariant files == FilesIn(all[..i], d)
      invariant pushed == ToVisit(all[..i], d) && queue == pushed + pending
    {
      var filename := all[i];
      assert all[..i + 1][..i] == all[..i] && all[..i + 1][i] == filename;
      DirsGrow(all[..i + 1], d);
      if d < filename {
        var relative := filename[|d|..];
        if |relative| == 1 {
          files := files + [relative[0]];
        } else {
          dirs := dirs + {relative[0]};
          queue := [d + [relative[0]]] + queue;
          pushed := [d + [relative[0]]] + pushed;
        }
      }
    }
    assert all[..|all|] == all;
  }

  lemma {:induction false} DirsGrow(all: seq<Path>, d: Path)
    requires all != []
    ensures var f := all[|all| - 1];
      DirsIn(all, d) == DirsIn(all[..|all| - 1], d) + if IsDeep(f, d) then {f[|d|]} else {}
  {
    var n := |all| - 1;
    var init := all[..n];
    forall name
      ensures name in DirsIn(all, d) <==> name in DirsIn(init, d) || (IsDeep(all[n], d) && name == all[n][|d|])
    {
      if name in DirsIn(all, d) {
        var i :| 0 <= i < |all| && IsDeep(all[i], d) && name == all[i][|d|];
        assert i < n ==> init[i] == all[i];
      }
      if name in DirsIn(init, d) {
        var i :| 0 <= i < n && IsDeep(init[i], d) && name == init[i][|d|];
        assert all[i] == init[i];
      }
      if IsDeep(all[n], d) {
        assert all[n][|d|] in DirsIn(all, d);
      }
    }
  }

  /** What holds before every turn of the loop. */
  ghost predicate Inv(all: seq<Path>, top: Path, walk: seq<Entry>, pending: seq<Path>) {
    && QueueIsRight(all, top, walk, pending) && WalkIsRight(all, top, walk)
    && NothingLost(all, top, walk, pending) && OpenInFront(walk, pending) && LeftIsDone(walk, pending)
    && QueueInOrder(all, top, walk, pending) && SiblingsInOrder(all, top, walk)
  }

  method FakeWalk(all: seq<Path>, top: Path) returns (walk: seq<Entry>)
    ensures IsWalk(all, top, walk)
  {
    var pending, visited := [top], {};
    walk := [];
    while pending != []
      invariant visited == Visited(walk) && visited <= Universe(all, top)
      invariant Inv(all, top, walk, pending)
      decreases Universe(all, top) - visited, |pending|
    {
      var prefix := pending[0];
      if prefix in visited {
        SkipKeepsInv(all, top, walk, pending);
        pending := pending[1..];
      } else {
        WalkedIsInUniverse(all, top, prefix);
        ghost var before := walk;
        var dirs, files, queue := FakeWalkDirs(all, prefix, pending[1..]);
        var sorted := Sorted(dirs);
        walk := walk + [Entry(prefix, sorted, files)];
        VisitKeepsInv(all, top, before, pending, sorted);
        VisitedGrows(before, walk[|before|]);
        visited, pending := visited + {prefix}, queue;
      }
    }
    EmptyQueueIsDone(all, top, walk);
  }

  lemma {:induction false} WalkedIsInUniverse(all: seq<Path>, top: Path, d: Path)
    requires IsWalked(all, top, d)
    ensures d in Universe(all, top)
  {
    if d != top {
      var i :| 0 <= i < |all| && d < all[i];
      assert all[i][..|d|] == d;
    }
  }

  lemma {:induction false} VisitedGrows(walk: seq<Entry>, e: Entry)
    ensures Visited(walk + [e]) == Visited(walk) + {e.dir}
  {
    var after := walk + [e];
    forall d ensures d in Visited(after) <==> d in Visited(walk) || d == e.dir {
      if d in Visited(walk) {
        var i :| 0 <= i < |walk| && walk[i].dir == d;
        assert after[i].dir == d;
      }
      assert after[|walk|].dir == e.dir;
    }
  }

  lemma {:induction false} SkipKeepsInv(all: seq<Path>, top: Path, walk: seq<Entry>, pending: seq<Path>)
    requires Inv(all, top, walk, pending) && pending != [] && pending[0] in Visited(walk)
    ensures Inv(all, top, walk, pending[1..])
  {
    assert pending == [pending[0]] + pending[1..];
    assert QueueIsRight(all, top, walk, pending[1..]);
    SkipKeepsOrder(walk, pending);
    SkipKeepsQueueOrder(all, top, walk, pending);
  }

  lemma {:induction false} SkipKeepsQueueOrder(all: seq<Path>, top: Path, walk: seq<Entry>, pending: seq<Path>)
    requires QueueInOrder(all, top, walk, pending) && pending != [] && pending[0] in Visited(walk)
    ensures QueueInOrder(all, top, walk, pending[1..])
  {
    var rest := pending[1..];
    forall b, x | 0 <= b < |rest| && Fresh(walk, rest[b]) && rest[b] != top && GoesFirst(all, x, rest[b])
      ensures x in Visited(walk) || StandsBefore(rest, b, x)
    {
      assert rest[b] == pending[b + 1];
      if x !in Visited(walk) {
        var a :| 0 <= a < b + 1 && a < |pending| && pending[a] == x;
        assert rest[a - 1] == x;
      }
    }
  }

  lemma {:induction false} SkipKeepsOrder(walk: seq<Entry>, pending: seq<Path>)
    requires OpenInFront(walk, pending) && LeftIsDone(walk, pending) && pending != []
    ensures OpenInFront(walk, pending[1..]) && LeftIsDone(walk, pending[1..])
  {
    var rest := pending[1..];
    forall i, a, b | 0 <= i < |walk| && 0 <= a < b < |rest| && Fresh(walk, rest[a]) && Fresh(walk, rest[b])
                     && walk[i].dir <= rest[b]
      ensures walk[i].dir <= rest[a]
    {
      assert rest[a] == pending[a + 1] && rest[b] == pending[b + 1];
    }
    forall i, j, b | 0 <= i < j < |walk| && 0 <= b < |rest| && Fresh(walk, rest[b]) && walk[i].dir <= rest[b]
      ensures walk[i].dir <= walk[j].dir
    {
      assert rest[b] == pending[b + 1];
    }
  }

  lemma {:induction false} AncestorsAreVisited(top: Path, walk: seq<Entry>, d: Path, p: Path)
    requires ParentsFirst(walk, top) && d in Visited(walk) && top <= p <= d
    ensures p in Visited(walk)
    decreases |d|
  {
    if p == d {
    } else {
      var i :| 0 <= i < |walk| && walk[i].dir == d;
      AncestorsAreVisited(top, walk, Parent(d), p);
    }
  }

  /** What is in the queue and not visited lies below no directory that is about to be visited, but itself. */
  lemma {:induction false} NotBelowFresh(all: seq<Path>, top: Path, walk: seq<Entry>, pending: seq<Path>, p: Path,
                                         x: Path)
    requires QueueIsRight(all, top, walk, pending) && ParentsFirst(walk, top)
    requires p in pending && p !in Visited(walk) && x in pending && x != p
    ensures !(p <= x)
  {
    if p <= x {
      AncestorsAreVisited(top, walk, Parent(x), p);
    }
  }

  ghost predicate IsVisit(all: seq<Path>, walk: seq<Entry>, pending: seq<Path>, after: seq<Entry>, queue: seq<Path>) {
    && pending != [] && pending[0] !in Visited(walk)
    && |after| == |walk| + 1 && after == walk + [after[|walk|]]
    && after[|walk|].dir == pending[0] && IsSorted(after[|walk|].dirs, DirsIn(all, pending[0]))
    && after[|walk|].files == FilesIn(all, pending[0])
    && queue == ToVisit(all, pending[0]) + pending[1..]
  }

  lemma {:induction false} VisitKeepsInv(all: seq<Path>, top: Path, walk: seq<Entry>, pending: seq<Path>,
                                         dirs: seq<string>)
    requires Inv(all, top, walk, pending) && pending != [] && pending[0] !in Visited(walk)
    requires IsSorted(dirs, DirsIn(all, pending[0]))
    ensures var p := pending[0];
      Inv(all, top, walk + [Entry(p, dirs, FilesIn(all, p))], ToVisit(all, p) + pending[1..])
  {
    var p := pending[0];
    var after, queue := walk + [Entry(p, dirs, FilesIn(all, p))], ToVisit(all, p) + pending[1..];
    VisitedGrows(walk, after[|walk|]);
    VisitKeepsQueue(all, top, walk, pending, after, queue);
    VisitKeepsWalk(all, top, walk, pending, after, queue);
    VisitLosesNothing(all, top, walk, pending, after, queue);
    VisitKeepsOpen(all, top, walk, pending, after, queue);
    VisitKeepsLeft(all, top, walk, pending, after, queue);
    VisitKeepsQueueOrder(all, top, walk, pending, after, queue);
    VisitKeepsSiblings(all, top, walk, pending, after);
  }

  /** Of the children of a directory, those that are to go first stand first in what is pushed. */
  lemma {:induction false} PushedInOrder(all: seq<Path>, d: Path, b: nat, x: Path)
    requires b < |ToVisit(all, d)| && GoesFirst(all, x, ToVisit(all, d)[b]) && Parent(x) == d
    ensures StandsBefore(ToVisit(all, d), b, x)
    decreases |all|
  {
    var n := |all| - 1;
    var f, init, y := all[n], all[..n], ToVisit(all, d)[b];
    var i: nat :| IsAfter(all, i, x, y);
    ChildIsDeep(f, d, x);
    if IsDeep(f, d) && d + [f[|d|]] == x {
      assert ToVisit(all, d)[0] == x;
    } else {
      assert i < n;
      assert IsAfter(init, i, x, y) by {
        assert forall k :: 0 <= k < n ==> init[k] == all[k];
      }
      ChildIsDeep(f, d, y);
      var shift := if IsDeep(f, d) then 1 else 0;
      assert ToVisit(all, d)[shift..] == ToVisit(init, d);
      assert b >= shift;
      PushedInOrder(init, d, b - shift, x);
      var a :| 0 <= a < b - shift && a < |ToVisit(init, d)| && ToVisit(init, d)[a] == x;
      assert ToVisit(all, d)[a + shift] == x;
    }
  }

  lemma {:induction false} ChildIsDeep(f: Path, d: Path, x: Path)
    requires x != [] && Parent(x) == d
    ensures x < f <==> IsDeep(f, d) && d + [f[|d|]] == x
  {
    assert x == d + [x[|d|]];
    if x < f {
      assert d == x[..|d|] == f[..|d|];
      assert f[|d|] == x[|d|];
    }
    if IsDeep(f, d) && d + [f[|d|]] == x {
      assert f[..|x|] == f[..|d|] + [f[|d|]];
    }
  }

  lemma {:induction false} VisitKeepsQueueOrder(all: seq<Path>, top: Path, walk: seq<Entry>, pending: seq<Path>,
                                                after: seq<Entry>, queue: seq<Path>)
    requires QueueInOrder(all, top, walk, pending) && IsVisit(all, walk, pending, after, queue)
    ensures QueueInOrder(all, top, after, queue)
  {
    VisitedGrows(walk, after[|walk|]);
    forall b, x | 0 <= b < |queue| && Fresh(after, queue[b]) && queue[b] != top && GoesFirst(all, x, queue[b])
      ensures x in Visited(after) || StandsBefore(queue, b, x)
    {
      QueueOrderAt(all, top, walk, pending, after, queue, b, x);
    }
  }

  lemma {:induction false} QueueOrderAt(all: seq<Path>, top: Path, walk: seq<Entry>, pending: seq<Path>,
                                        after: seq<Entry>, queue: seq<Path>, b: nat, x: Path)
    requires QueueInOrder(all, top, walk, pending) && IsVisit(all, walk, pending, after, queue)
    requires Visited(after) == Visited(walk) + {pending[0]}
    requires b < |queue| && queue[b] !in Visited(after) && queue[b] != top && GoesFirst(all, x, queue[b])
    ensures x in Visited(after) || StandsBefore(queue, b, x)
  {
    var p := pending[0];
    var pushed := ToVisit(all, p);
    var n := |pushed|;
    if b < n {
      assert queue[b] == pushed[b] && pushed[b] in pushed;
      ChildrenAreVisited(all, p, pushed[b]);
      PushedInOrder(all, p, b, x);
      var a :| 0 <= a < b && a < n && pushed[a] == x;
      assert queue[a] == x;
    } else {
      assert queue[b] == pending[b - n + 1];
      assert Fresh(walk, pending[b - n + 1]);
      if x !in Visited(walk) && x != p {
        var a :| 0 <= a < b - n + 1 && a < |pending| && pending[a] == x;
        assert queue[a - 1 + n] == x;
      }
    }
  }

  lemma {:induction false} VisitKeepsSiblings(all: seq<Path>, top: Path, walk: seq<Entry>, pending: seq<Path>,
                                              after: seq<Entry>)
    requires QueueInOrder(all, top, walk, pending) && SiblingsInOrder(all, top, walk)
    requires pending != [] && pending[0] !in Visited(walk)
    requires |after| == |walk| + 1 && after[..|walk|] == walk && after[|walk|].dir == pending[0]
    ensures SiblingsInOrder(all, top, after)
  {
    assert forall j :: 0 <= j < |walk| ==> after[j] == after[..|walk|][j] == walk[j];
    forall j, x | 0 <= j < |after| && after[j].dir != top && GoesFirst(all, x, after[j].dir)
      ensures Yielded(after, j, x)
    {
      if j < |walk| {
        assert Yielded(walk, j, x);
        var i :| 0 <= i < j && i < |walk| && walk[i].dir == x;
        assert after[i].dir == x;
      } else {
        assert Fresh(walk, pending[0]);
        assert !StandsBefore(pending, 0, x);
        var i :| 0 <= i < |walk| && walk[i].dir == x;
        assert after[i].dir == x;
      }
    }
  }

  lemma {:induction false} VisitKeepsQueue(all: seq<Path>, top: Path, walk: seq<Entry>, pending: seq<Path>,
                                           after: seq<Entry>, queue: seq<Path>)
    requires QueueIsRight(all, top, walk, pending) && IsVisit(all, walk, pending, after, queue)
    ensures QueueIsRight(all, top, after, queue)
  {
    var p := pending[0];
    VisitedGrows(walk, after[|walk|]);
    forall x | x in queue ensures IsWalked(all, top, x) && (x != top ==> x != [] && Parent(x) in Visited(after)) {
      if x in ToVisit(all, p) {
        ChildrenAreVisited(all, p, x);
        assert p in pending && top == p[..|top|] == x[..|top|];
      } else {
        assert x in pending;
      }
    }
  }

  lemma {:induction false} VisitKeepsWalk(all: seq<Path>, top: Path, walk: seq<Entry>, pending: seq<Path>,
                                          after: seq<Entry>, queue: seq<Path>)
    requires WalkIsRight(all, top, walk) && QueueIsRight(all, top, walk, pending) && LeftIsDone(walk, pending)
    requires IsVisit(all, walk, pending, after, queue)
    ensures WalkIsRight(all, top, after)
  {
    assert pending[0] in pending;
    NewEntryIsRight(all, top, walk, after[|walk|]);
    ParentComesFirst(walk, after, top, pending[0]);
    SubtreeIsOpen(walk, after, pending);
  }

  lemma {:induction false} NewEntryIsRight(all: seq<Path>, top: Path, walk: seq<Entry>, e: Entry)
    requires forall i :: 0 <= i < |walk| ==> IsWalked(all, top, walk[i].dir)
    requires NoRepeats(walk) && Lists(all, walk) && IsWalked(all, top, e.dir) && e.dir !in Visited(walk)
    requires IsSorted(e.dirs, DirsIn(all, e.dir)) && e.files == FilesIn(all, e.dir)
    ensures var after := walk + [e];
      (forall i :: 0 <= i < |after| ==> IsWalked(all, top, after[i].dir)) && NoRepeats(after) && Lists(all, after)
  {
    assert forall i :: 0 <= i < |walk| ==> walk[i].dir in Visited(walk);
  }

  lemma {:induction false} ParentComesFirst(walk: seq<Entry>, after: seq<Entry>, top: Path, p: Path)
    requires ParentsFirst(walk, top) && |after| == |walk| + 1 && after[..|walk|] == walk && after[|walk|].dir == p
    requires p != top ==> p != [] && Parent(p) in Visited(walk)
    ensures ParentsFirst(after, top)
  {
    assert forall j :: 0 <= j < |walk| ==> after[j] == after[..|walk|][j] == walk[j];
    forall i | 0 <= i < |after| && after[i].dir != top
      ensures after[i].dir != [] && exists j :: 0 <= j < i && after[j].dir == Parent(after[i].dir)
    {
      if i < |walk| {
        var j :| 0 <= j < i && walk[j].dir == Parent(walk[i].dir);
        assert after[j].dir == walk[j].dir;
      } else {
        var j :| 0 <= j < |walk| && walk[j].dir == Parent(p);
        assert after[j].dir == walk[j].dir;
      }
    }
  }

  lemma {:induction false} SubtreeIsOpen(walk: seq<Entry>, after: seq<Entry>, pending: seq<Path>)
    requires SubtreesTogether(walk) && LeftIsDone(walk, pending) && pending != [] && Fresh(walk, pending[0])
    requires |after| == |walk| + 1 && after[..|walk|] == walk && after[|walk|].dir == pending[0]
    ensures SubtreesTogether(after)
  {
    assert forall j :: 0 <= j < |walk| ==> after[j] == after[..|walk|][j] == walk[j];
  }

  lemma {:induction false} VisitLosesNothing(all: seq<Path>, top: Path, walk: seq<Entry>, pending: seq<Path>,
                                             after: seq<Entry>, queue: seq<Path>)
    requires Inv(all, top, walk, pending) && IsVisit(all, walk, pending, after, queue)
    ensures NothingLost(all, top, after, queue)
  {
    VisitedGrows(walk, after[|walk|]);
    assert pending == [pending[0]] + pending[1..];
  }

  /** A directory yielded before that stands above a fresh child of `p` stands above `p`. */
  lemma {:induction false} AboveChild(all: seq<Path>, walk: seq<Entry>, p: Path, i: nat, x: Path)
    requires i < |walk| && x in ToVisit(all, p) && Fresh(walk, x) && walk[i].dir <= x
    ensures walk[i].dir <= p <= x
  {
    ChildrenAreVisited(all, p, x);
    assert walk[i].dir in Visited(walk);
    var d := walk[i].dir;
    assert d != x;
    assert d == x[..|d|] == p[..|d|];
  }

  lemma {:induction false} VisitKeepsOpen(all: seq<Path>, top: Path, walk: seq<Entry>, pending: seq<Path>,
                                          after: seq<Entry>, queue: seq<Path>)
    requires Inv(all, top, walk, pending) && IsVisit(all, walk, pending, after, queue)
    ensures OpenInFront(after, queue)
  {
    forall i, a, b | 0 <= i < |after| && 0 <= a < b < |queue| && Fresh(after, queue[a]) && Fresh(after, queue[b])
                     && after[i].dir <= queue[b]
      ensures after[i].dir <= queue[a]
    {
      VisitedGrows(walk, after[|walk|]);
      QueueAbove(all, walk, pending, after, queue, i, b);
      QueueBefore(all, top, walk, pending, after, queue, i, a, b);
    }
  }

  lemma {:induction false} QueueBefore(all: seq<Path>, top: Path, walk: seq<Entry>, pending: seq<Path>,
                                       after: seq<Entry>, queue: seq<Path>, i: nat, a: nat, b: nat)
    requires QueueIsRight(all, top, walk, pending) && ParentsFirst(walk, top) && OpenInFront(walk, pending)
    requires IsVisit(all, walk, pending, after, queue)
    requires i < |after| && a < b < |queue| && queue[a] !in Visited(walk) && queue[b] !in Visited(walk)
    requires queue[b] != pending[0] && after[i].dir <= queue[b] && after[i].dir <= pending[0]
    ensures after[i].dir <= queue[a]
  {
    var n := |ToVisit(all, pending[0])|;
    if a < n {
      assert queue[a] == ToVisit(all, pending[0])[a];
      AboveParent(all, after[i].dir, pending[0], queue[a]);
    } else {
      assert queue[a] == pending[a - n + 1] && queue[b] == pending[b - n + 1];
      if i == |walk| {
        NotBelowFresh(all, top, walk, pending, pending[0], queue[b]);
        assert false;
      }
      assert Fresh(walk, pending[a - n + 1]) && Fresh(walk, pending[b - n + 1]);
    }
  }

  lemma {:induction false} AboveParent(all: seq<Path>, d: Path, p: Path, x: Path)
    requires d <= p && x in ToVisit(all, p)
    ensures d <= x
  {
    ChildrenAreVisited(all, p, x);
    assert d == p[..|d|] == x[..|d|];
  }

  /** Whatever stands above something fresh in the new queue stands above the directory visited. */
  lemma {:induction false} QueueAbove(all: seq<Path>, walk: seq<Entry>, pending: seq<Path>, after: seq<Entry>,
                                      queue: seq<Path>, i: nat, b: nat)
    requires OpenInFront(walk, pending) && IsVisit(all, walk, pending, after, queue)
    requires i < |after| && b < |queue| && queue[b] !in Visited(walk) && after[i].dir <= queue[b]
    ensures after[i].dir <= pending[0]
  {
    var p, n := pending[0], |ToVisit(all, pending[0])|;
    if i < |walk| {
      if b < n {
        AboveChild(all, walk, p, i, queue[b]);
      } else {
        assert queue[b] == pending[b - n + 1];
      }
    }
  }

  lemma {:induction false} VisitKeepsLeft(all: seq<Path>, top: Path, walk: seq<Entry>, pending: seq<Path>,
                                          after: seq<Entry>, queue: seq<Path>)
    requires Inv(all, top, walk, pending) && IsVisit(all, walk, pending, after, queue)
    ensures LeftIsDone(after, queue)
  {
    VisitedGrows(walk, after[|walk|]);
    forall i, j, b | 0 <= i < j < |after| && 0 <= b < |queue| && Fresh(after, queue[b]) && after[i].dir <= queue[b]
      ensures after[i].dir <= after[j].dir
    {
      QueueAbove(all, walk, pending, after, queue, i, b);
    }
  }

  lemma {:induction false} EmptyQueueIsDone(all: seq<Path>, top: Path, walk: seq<Entry>)
    requires Inv(all, top, walk, [])
    ensures IsWalk(all, top, walk)
  {
    forall d | IsWalked(all, top, d) ensures exists i :: 0 <= i < |walk| && walk[i].dir == d {
      WalkedIsVisited(all, top, walk, d);
    }
  }

  lemma {:induction false} WalkedIsVisited(all: seq<Path>, top: Path, walk: seq<Entry>, d: Path)
    requires Inv(all, top, walk, []) && IsWalked(all, top, d)
    ensures d in Visited(walk)
    decreases |d|
  {
    if d != top {
      var i :| 0 <= i < |all| && d < all[i];
      assert top <= Parent(d) < all[i];
      WalkedIsVisited(all, top, walk, Parent(d));
      ChildrenAreVisited(all, Parent(d), d);
    }
  }

  // ---------------------------------------------------------------------------------------------
  // Files

  /** A name is listed in a directory as often as the file stands in the table. */
  lemma {:induction false} FilesAreCounted(all: seq<Path>, d: Path, name: string)
    ensures multiset(FilesIn(all, d))[name] == multiset(all)[d + [name]]
    decreases |all|
  {
    if all != [] {
      var n := |all| - 1;
      var f := all[n];
      FilesAreCounted(all[..n], d, name);
      OneMore(all, d + [name]);
      if d < f && |f| == |d| + 1 {
        assert f == d + [f[|d|]];
        OneMore(FilesIn(all, d), name);
      } else {
        assert f != d + [name];
      }
    }
  }

  lemma {:induction false} OneMore<T>(s: seq<T>, x: T)
    requires s != []
    ensures multiset(s)[x] == multiset(s[..|s| - 1])[x] + if s[|s| - 1] == x then 1 else 0
  {
    assert s == s[..|s| - 1] + [s[|s| - 1]];
  }

  /** How often a walk lists a file: only the entry of its own directory can. */
  function TimesListed(walk: seq<Entry>, f: Path): nat
    requires f != []
  {
    if walk == [] then 0
    else
      var e := walk[|walk| - 1];
      TimesListed(walk[..|walk| - 1], f) + if e.dir == Parent(f) then multiset(e.files)[f[|f| - 1]] else 0
  }

  /** Each file below the top is listed once in a walk. */
  lemma {:induction false} EachFileOnce(all: seq<Path>, top: Path, walk: seq<Entry>, f: Path)
    requires IsWalk(all, top, walk) && f in all && top < f
    requires Distinct(all)
    ensures TimesListed(walk, f) == 1
  {
    var i := OwnEntry(all, top, walk, f);
    OnceInOwner(all, walk, i, f);
  }

  predicate Distinct(all: seq<Path>) {
    forall i, j :: 0 <= i < j < |all| ==> all[i] != all[j]
  }

  lemma {:induction false} OnceInOwner(all: seq<Path>, walk: seq<Entry>, i: nat, f: Path)
    requires NoRepeats(walk) && Distinct(all) && f in all && f != []
    requires i < |walk| && walk[i].dir == Parent(f) && walk[i].files == FilesIn(all, Parent(f))
    ensures TimesListed(walk, f) == 1
  {
    ListedByOwner(walk, i, f);
    FilesAreCounted(all, Parent(f), f[|f| - 1]);
    assert Parent(f) + [f[|f| - 1]] == f;
    CountOfDistinct(all, f);
  }

  lemma {:induction false} ListedByOwner(walk: seq<Entry>, i: nat, f: Path)
    requires NoRepeats(walk) && f != [] && i < |walk| && walk[i].dir == Parent(f)
    ensures TimesListed(walk, f) == multiset(walk[i].files)[f[|f| - 1]]
    decreases |walk|
  {
    var init := walk[..|walk| - 1];
    if i < |init| {
      ListedByOwner(init, i, f);
    } else {
      NotListed(init, f);
    }
  }

  lemma {:induction false} NotListed(walk: seq<Entry>, f: Path)
    requires f != [] && forall i :: 0 <= i < |walk| ==> walk[i].dir != Parent(f)
    ensures TimesListed(walk, f) == 0
    decreases |walk|
  {
    if walk != [] {
      NotListed(walk[..|walk| - 1], f);
    }
  }

  lemma {:induction false} OwnEntry(all: seq<Path>, top: Path, walk: seq<Entry>, f: Path) returns (i: nat)
    requires IsWalk(all, top, walk) && f in all && top < f
    ensures i < |walk| && walk[i].dir == Parent(f) && walk[i].files == FilesIn(all, Parent(f))
  {
    assert Parent(f) < f && top <= Parent(f);
    assert IsWalked(all, top, Parent(f));
    i :| 0 <= i < |walk| && walk[i].dir == Parent(f);
  }

  lemma {:induction false} CountOfDistinct(all: seq<Path>, f: Path)
    requires Distinct(all)
    ensures multiset(all)[f] == if f in all then 1 else 0
    decreases |all|
  {
    if all != [] {
      var n := |all| - 1;
      assert all == all[..n] + [all[n]];
      CountOfDistinct(all[..n], f);
    }
  }
}
