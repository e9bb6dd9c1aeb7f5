/**
 * The upload transaction of the dependency manager as functions over values: what one
 * `CloudStorageUploader` does to the cloud, and what a batch of them does forwards and back.
 * The classes in `UpdateConfig.dfy` are proved against these functions.
 */
module CloudUpload {
  type Content = string

  datatype Address = Address(bucket: string, path: string)

  type Objects = map<Address, Content>

  /** What one cloud command does: it works, raises without effect, or raises and leaves a torn object. */
  datatype Fault = Works | RaisesClean | RaisesTorn(garbage: Content)

  /** The cloud, and how the commands still to come will behave; when none is listed they work. */
  datatype Cloud = Cloud(objects: Objects, faults: seq<Fault>)
  {
    function Next(): Fault {
      if faults == [] then Works else faults[0]
    }

    function Rest(): Cloud {
      if faults == [] then this else this.(faults := faults[1..])
    }

    /** A write to `to`, as `Copy` and `Insert` do it. */
    function Put(to: Address, content: Content): Cloud {
      match Next()
      case Works => Rest().(objects := objects[to := content])
      case RaisesClean => Rest()
      case RaisesTorn(garbage) => Rest().(objects := objects[to := garbage])
    }
  }

  /** From here on every command works. */
  predicate Reliable(c: Cloud) {
    forall f :: f in c.faults ==> f.Works?
  }

  /** How an upload ends. `TornInsert` is a cloud error that left a torn object with no backup of it. */
  datatype Ending = Done | Conflict | CloudError | TornInsert(at: Address)

  const BACKUP_PATH_EXTENSION := "old"

  function Old(a: Address): Address {
    a.(path := a.path + "." + BACKUP_PATH_EXTENSION)
  }

  /** The fields of a `CloudStorageUploader`; `content` is what its local file holds. */
  datatype Item = Item(at: Address, content: Content, backup: Address, updated: bool, backedUp: bool)
  {
    predicate Fresh() {
      !updated && !backedUp && backup == Old(at)
    }
  }

  function Insert(c: Cloud, item: Item): (Cloud, Item, Ending) {
    var after := c.Put(item.at, item.content);
    match c.Next()
    case Works => (after, item.(updated := true), Done)
    case RaisesClean => (after, item, CloudError)
    case RaisesTorn(_) => (after, item, if item.backedUp then CloudError else TornInsert(item.at))
  }

  function Upload(c: Cloud, item: Item, force: bool): (Cloud, Item, Ending) {
    if !c.Next().Works? then (c.Rest(), item, CloudError)
    else if item.at !in c.objects then Insert(c.Rest(), item)
    else if !force then (c.Rest(), item, Conflict)
    else
      var copied := c.Rest().Put(item.backup, c.objects[item.at]);
      if !c.Rest().Next().Works? then (copied, item, CloudError)
      else Insert(copied, item.(backedUp := true))
  }

  /**
   * `Rollback`; the flag is false when a cloud command raised. A backup path that has been reset is
   * formatted into the command as the text None.
   */
  function Rollback(c: Cloud, item: Item): (Cloud, Item, bool) {
    if item.backedUp then
      if item.backup !in c.objects then (c.Rest(), item, false)
      else
        var after := c.Put(item.at, c.objects[item.backup]);
        if c.Next().Works?
        then (after, item.(updated := false, backup := item.at.(path := "None")), true)
        else (after, item, false)
    else if item.updated then
      if c.Next().Works? && item.at in c.objects
      then (c.Rest().(objects := c.objects - {item.at}), item.(updated := false), true)
      else (c.Rest(), item, false)
    else (c, item, true)
  }

  /** The forward loop: stops at the first upload that raises. */
  function UploadAll(c: Cloud, items: seq<Item>, force: bool): (r: (Cloud, seq<Item>, Ending))
    ensures |r.1| == |items|
    decreases |items|
  {
    if items == [] then (c, [], Done)
    else
      var (c1, item, ending) := Upload(c, items[0], force);
      if ending != Done then (c1, [item] + items[1..], ending)
      else
        var (c2, rest, last) := UploadAll(c1, items[1..], force);
        (c2, [item] + rest, last)
  }

  /** The backward loop, last item first: stops at the first rollback that raises. */
  function RollbackAll(c: Cloud, items: seq<Item>): (r: (Cloud, seq<Item>, bool))
    ensures |r.1| == |items|
    decreases |items|
  {
    if items == [] then (c, [], true)
    else
      var (c1, rest, ok) := RollbackAll(c, items[1..]);
      if !ok then (c1, [items[0]] + rest, false)
      else
        var (c2, item, ok2) := Rollback(c1, items[0]);
        (c2, [item] + rest, ok2)
  }

  // ---------------------------------------------------------------------------------------------
  // Conditions on a batch

  predicate AllFresh(items: seq<Item>) {
    forall i :: 0 <= i < |items| ==> items[i].Fresh()
  }

  predicate NoneBackedUp(items: seq<Item>) {
    forall i :: 0 <= i < |items| ==> !items[i].backedUp
  }

  predicate Distinct(items: seq<Item>) {
    forall i, j :: 0 <= i < j < |items| ==> items[i].at != items[j].at
  }

  predicate IsLocation(items: seq<Item>, a: Address) {
    exists i :: 0 <= i < |items| && items[i].at == a
  }

  predicate IsBackup(items: seq<Item>, a: Address) {
    exists i :: 0 <= i < |items| && Old(items[i].at) == a
  }

  predicate SameAt(o: Objects, p: Objects, a: Address) {
    (a in o <==> a in p) && (a in o ==> o[a] == p[a])
  }

  lemma {:induction false} OldIsInjective(a: Address, b: Address)
    requires Old(a) == Old(b)
    ensures a == b
  {
    assert a.path == Old(a).path[..|Old(a).path| - 4];
    assert b.path == Old(b).path[..|Old(b).path| - 4];
  }

  lemma {:induction false} OldIsLonger(a: Address)
    ensures |Old(a).path| == |a.path| + 4 && Old(a) != a
  {
  }

  lemma {:induction false} RollbackOfFresh(c: Cloud, items: seq<Item>)
    requires forall i :: 0 <= i < |items| ==> !items[i].updated && !items[i].backedUp
    ensures RollbackAll(c, items) == (c, items, true)
    decreases |items|
  {
    if items != [] {
      RollbackOfFresh(c, items[1..]);
      assert items == [items[0]] + items[1..];
    }
  }

  /** The command after the next `k` works. */
  predicate WorksAt(c: Cloud, k: nat) {
    k < |c.faults| ==> c.faults[k].Works?
  }

  /**
   * An upload goes through exactly if its commands work and its location is free or force is given. It meets a
   * conflict exactly if it finds its location taken without force.
   */
  lemma {:induction false} UploadEndsIff(c: Cloud, item: Item, force: bool)
    ensures var (c1, item1, ending) := Upload(c, item, force);
      && (ending == Done <==>
            && WorksAt(c, 0) && WorksAt(c, 1)
            && (item.at in c.objects ==> force && WorksAt(c, 2)))
      && (ending == Conflict <==> WorksAt(c, 0) && item.at in c.objects && !force)
      && (ending.TornInsert? ==> item.at !in c.objects || item.backedUp)
      && (!WorksAt(c, 0) ==> c1.objects == c.objects && item1 == item)
  {
    assert c.faults != [] ==> forall k :: 0 <= k < |c.faults| - 1 ==> c.faults[1..][k] == c.faults[k + 1];
    assert |c.faults| > 1 ==> forall k :: 0 <= k < |c.faults| - 2 ==> c.faults[1..][1..][k] == c.faults[k + 2];
  }

  lemma {:induction false} UploadStaysReliable(c: Cloud, item: Item, force: bool)
    requires Reliable(c)
    ensures Reliable(Upload(c, item, force).0)
  {
  }

  /** With commands that work, a batch ends well or in a conflict, and with force it ends well. */
  lemma {:induction false} ReliableEnds(c: Cloud, items: seq<Item>, force: bool)
    requires Reliable(c)
    ensures var ending := UploadAll(c, items, force).2;
      ending == Done || (!force && ending == Conflict)
    decreases |items|
  {
    if items != [] {
      UploadEndsIff(c, items[0], force);
      UploadStaysReliable(c, items[0], force);
      var (c1, _, ending) := Upload(c, items[0], force);
      if ending == Done {
        ReliableEnds(c1, items[1..], force);
      }
    }
  }

  // ---------------------------------------------------------------------------------------------
  // Without force

  /** One plain upload either changes nothing or adds an object where there was none. */
  lemma {:induction false} PlainUpload(c: Cloud, item: Item)
    requires !item.backedUp
    ensures var (c1, item1, ending) := Upload(c, item, false);
      && item1 == (if ending == Done then item.(updated := true) else item)
      && (if ending == Done || ending.TornInsert?
          then item.at !in c.objects && item.at in c1.objects && c1.objects == c.objects[item.at := c1.objects[item.at]]
          else c1.objects == c.objects)
      && (ending == Done ==> c1.objects[item.at] == item.content)
      && (ending.TornInsert? ==> ending.at == item.at)
  {
  }

  /** What is left of a plain batch: the cloud as it was, and at most one torn object. */
  predicate OnlyTornAdded(before: Objects, after: Objects, ending: Ending) {
    if ending.TornInsert?
    then ending.at !in before && ending.at in after && after - {ending.at} == before
    else after == before
  }

  lemma {:induction false} DeleteUndoesInsert(before: Objects, a: Address, content: Content, after: Objects,
                                              ending: Ending)
    requires a !in before && OnlyTornAdded(before[a := content], after, ending)
    ensures a in after && OnlyTornAdded(before, after - {a}, ending)
  {
    var inserted := before[a := content];
    if ending.TornInsert? {
      assert a in after - {ending.at};
      forall k | k in before ensures k in after - {a} - {ending.at} && (after - {a} - {ending.at})[k] == before[k] {
        assert k in inserted && (after - {ending.at})[k] == inserted[k];
      }
      forall k | k in after - {a} - {ending.at} ensures k in before {
        assert k in after - {ending.at};
      }
      assert after - {a} - {ending.at} == before;
    } else {
      assert after - {a} == before;
    }
  }

  /**
   * For any list of fresh jobs, duplicate locations included, rolling back what was uploaded restores
   * the cloud exactly, except that a torn insert leaves its one object behind.
   */
  lemma {:induction false} PlainUndo(c: Cloud, items: seq<Item>)
    requires AllFresh(items)
    requires Reliable(UploadAll(c, items, false).0)
    ensures var (c1, items1, ending) := UploadAll(c, items, false);
      var (c2, _, ok) := RollbackAll(c1, items1);
      ok && Reliable(c2) && OnlyTornAdded(c.objects, c2.objects, ending)
    decreases |items|
  {
    if items != [] {
      var (c1, item, ending) := Upload(c, items[0], false);
      PlainUpload(c, items[0]);
      if ending == Done {
        var (c2, rest, last) := UploadAll(c1, items[1..], false);
        PlainUndo(c1, items[1..]);
        assert ([item] + rest)[1..] == rest;
        var (c3, _, _) := RollbackAll(c2, rest);
        DeleteUndoesInsert(c.objects, item.at, item.content, c3.objects, last);
      } else {
        assert ([item] + items[1..])[1..] == items[1..];
        RollbackOfFresh(c1, items[1..]);
        if ending.TornInsert? {
          assert c1.objects - {ending.at} == c.objects;
        }
      }
    }
  }

  /** A plain batch that goes through changes no object that was there, and puts every job's file up. */
  lemma {:induction false} PlainSuccess(c: Cloud, items: seq<Item>)
    requires NoneBackedUp(items) && UploadAll(c, items, false).2 == Done
    ensures var after := UploadAll(c, items, false).0.objects;
      && (forall a :: a in c.objects ==> a in after && after[a] == c.objects[a])
      && (forall a :: a in after ==> a in c.objects || IsLocation(items, a))
      && (forall i :: 0 <= i < |items| ==>
            items[i].at !in c.objects && items[i].at in after && after[items[i].at] == items[i].content)
      && Distinct(items)
    decreases |items|
  {
    if items != [] {
      var (c1, item, _) := Upload(c, items[0], false);
      PlainUpload(c, items[0]);
      PlainSuccess(c1, items[1..]);
      var after := UploadAll(c, items, false).0.objects;
      assert after == UploadAll(c1, items[1..], false).0.objects;
      forall i | 0 <= i < |items|
        ensures items[i].at !in c.objects && items[i].at in after && after[items[i].at] == items[i].content
      {
        if i > 0 {
          assert items[i] == items[1..][i - 1];
        }
      }
      forall a | a in after ensures a in c.objects || IsLocation(items, a) {
        if a !in c1.objects {
          assert IsLocation(items[1..], a);
          var i :| 0 <= i < |items[1..]| && items[1..][i].at == a;
          assert items[i + 1].at == a;
        } else if a !in c.objects {
          assert items[0].at == a;
        }
      }
      forall i, j | 0 <= i < j < |items| ensures items[i].at != items[j].at {
        assert items[j] == items[1..][j - 1];
        if i > 0 {
          assert items[i] == items[1..][i - 1];
        }
      }
    }
  }

  /** With commands that work, a plain batch goes through exactly when no location is taken or repeated. */
  lemma {:induction false} PlainSucceedsIff(c: Cloud, items: seq<Item>)
    requires NoneBackedUp(items) && Reliable(c)
    ensures UploadAll(c, items, false).2 == Done
            <==> Distinct(items) && forall i :: 0 <= i < |items| ==> items[i].at !in c.objects
    decreases |items|
  {
    if UploadAll(c, items, false).2 == Done {
      PlainSuccess(c, items);
    }
    if items != [] && Distinct(items) && (forall i :: 0 <= i < |items| ==> items[i].at !in c.objects) {
      var (c1, item, _) := Upload(c, items[0], false);
      forall i | 0 <= i < |items[1..]| ensures items[1..][i].at !in c1.objects {
        assert items[1..][i] == items[i + 1];
      }
      PlainSucceedsIff(c1, items[1..]);
    }
  }

  // ---------------------------------------------------------------------------------------------
  // With force

  /** One forced upload of a fresh item touches only its location and its backup. */
  lemma {:induction false} ForcedUpload(c: Cloud, item: Item)
    requires item.Fresh()
    ensures var (c1, item1, ending) := Upload(c, item, true);
      && item1.at == item.at && item1.backup == item.backup && item1.content == item.content
      && (forall a :: a != item.at && a != item.backup ==> SameAt(c.objects, c1.objects, a))
      && (forall a :: a in c.objects ==> a in c1.objects)
      && (item1.updated <==> ending == Done)
      && (item1.backedUp ==> item.at in c.objects && item.backup in c1.objects
                             && c1.objects[item.backup] == c.objects[item.at])
      && (!item1.backedUp && ending != Done && !ending.TornInsert? ==> SameAt(c.objects, c1.objects, item.at))
      && (!item1.backedUp && (ending == Done || ending.TornInsert?) ==> item.at !in c.objects)
      && (ending == Done ==> item.at in c1.objects && c1.objects[item.at] == item.content
                             && (item1.backedUp <==> item.at in c.objects))
      && (ending.TornInsert? ==> !item1.backedUp && ending.at == item.at)
  {
    OldIsLonger(item.at);
  }

  lemma {:induction false} ForwardKeepsObjects(c: Cloud, items: seq<Item>)
    requires AllFresh(items)
    ensures forall a :: a in c.objects ==> a in UploadAll(c, items, true).0.objects
    ensures var ending := UploadAll(c, items, true).2; ending.TornInsert? ==> ending.at !in c.objects
    decreases |items|
  {
    if items != [] {
      ForcedUpload(c, items[0]);
      var (c1, _, ending) := Upload(c, items[0], true);
      if ending == Done {
        ForwardKeepsObjects(c1, items[1..]);
      }
    }
  }

  /**
   * The addresses whose content a forced batch and its rollback may lose. Each job overwrites its backup;
   * its location comes back from there, unless a later job has harmed the backup in the meantime.
   */
  function Harmed(items: seq<Item>): set<Address>
    decreases |items|
  {
    if items == [] then {}
    else
      var at, later := items[0].at, Harmed(items[1..]);
      (later - {at}) + {Old(at)} + if Old(at) in later then {at} else {}
  }

  /** What is promised at address `a` after a forced batch has been rolled back. */
  ghost predicate RestoredAt(before: Objects, after: Objects, items: seq<Item>, ending: Ending, a: Address) {
    && (a !in Harmed(items) && ending != TornInsert(a) ==> SameAt(before, after, a))
    && (a in before ==> a in after)
  }

  /** Undoing the head of a batch, once the rest has been undone from `middle` to `undone`. */
  lemma {:induction false} UndoHead(before: Cloud, items: seq<Item>, undone: Cloud, last: Ending)
    requires items != [] && AllFresh(items) && Reliable(undone)
    requires Upload(before, items[0], true).2 == Done
    requires last.TornInsert? ==> last.at !in Upload(before, items[0], true).0.objects
    requires var middle := Upload(before, items[0], true).0;
      forall a :: RestoredAt(middle.objects, undone.objects, items[1..], last, a)
    ensures var (after, _, ok) := Rollback(undone, Upload(before, items[0], true).1);
      ok && Reliable(after) && forall a :: RestoredAt(before.objects, after.objects, items, last, a)
  {
    var (middle, item, _) := Upload(before, items[0], true);
    ForcedUpload(before, items[0]);
    OldIsLonger(item.at);
    assert RestoredAt(middle.objects, undone.objects, items[1..], last, item.at);
    assert RestoredAt(middle.objects, undone.objects, items[1..], last, item.backup);
    var after := Rollback(undone, item).0;
    forall a ensures RestoredAt(before.objects, after.objects, items, last, a) {
      assert RestoredAt(middle.objects, undone.objects, items[1..], last, a);
    }
  }

  /**
   * For any list of fresh jobs, undoing a forced batch that stopped anywhere always goes through and gives
   * every address its old content, except the harmed ones and a torn object that had no backup.
   */
  lemma {:induction false} ForcedUndo(c: Cloud, items: seq<Item>)
    requires AllFresh(items)
    requires Reliable(UploadAll(c, items, true).0)
    ensures var (c1, items1, ending) := UploadAll(c, items, true);
      var (c2, _, ok) := RollbackAll(c1, items1);
      ok && Reliable(c2) && forall a :: RestoredAt(c.objects, c2.objects, items, ending, a)
    decreases |items|
  {
    if items != [] {
      var (c1, item, ending) := Upload(c, items[0], true);
      ForcedUpload(c, items[0]);
      if ending == Done {
        var (c2, rest, last) := UploadAll(c1, items[1..], true);
        assert AllFresh(items[1..]);
        ForcedUndo(c1, items[1..]);
        ForwardKeepsObjects(c1, items[1..]);
        assert ([item] + rest)[1..] == rest;
        UndoHead(c, items, RollbackAll(c2, rest).0, last);
      } else {
        assert ([item] + items[1..])[1..] == items[1..];
        RollbackOfFresh(c1, items[1..]);
      }
    }
  }

  lemma {:induction false} TailLocation(items: seq<Item>, a: Address)
    requires items != []
    ensures IsLocation(items, a) <==> items[0].at == a || IsLocation(items[1..], a)
    ensures IsBackup(items, a) <==> Old(items[0].at) == a || IsBackup(items[1..], a)
  {
    var tail := items[1..];
    assert forall i :: 0 <= i < |tail| ==> tail[i] == items[i + 1];
    if i :| 0 < i < |items| && items[i].at == a {
      assert tail[i - 1].at == a;
    }
    if i :| 0 < i < |items| && Old(items[i].at) == a {
      assert Old(tail[i - 1].at) == a;
    }
  }

  /** For distinct locations only backups are harmed: the undo order makes overlaps harmless. */
  lemma {:induction false} DistinctHarmsBackups(items: seq<Item>, a: Address)
    requires Distinct(items) && a in Harmed(items)
    ensures IsBackup(items, a)
    decreases |items|
  {
    var at, tail := items[0].at, items[1..];
    assert forall i :: 0 <= i < |tail| ==> tail[i] == items[i + 1];
    TailLocation(items, a);
    if Old(at) in Harmed(tail) {
      DistinctHarmsBackups(tail, Old(at));
      var i :| 0 <= i < |tail| && Old(tail[i].at) == Old(at);
      OldIsInjective(tail[i].at, at);
      assert false;
    }
    if a in Harmed(tail) {
      DistinctHarmsBackups(tail, a);
    }
  }

  /**
   * A rollback that went through cannot be repeated for what was backed up: the backup path is gone and the flag
   * still set, so a second one copies whatever stands at the path "None" of the bucket, or raises.
   */
  lemma {:induction false} SecondRollback(c: Cloud, item: Item)
    requires c.faults == [] && item.backedUp && Rollback(c, item).2
    ensures var (c1, item1, _) := Rollback(c, item);
      var none := Address(item.at.bucket, "None");
      && item1 == item.(updated := false, backup := none)
      && (Rollback(c1, item1).2 <==> none in c1.objects)
      && (Rollback(c1, item1).2 ==> Rollback(c1, item1).0.objects == c1.objects[item.at := c1.objects[none]])
  {
  }

  // ---------------------------------------------------------------------------------------------
  // Which batches can always be undone

  /** No job's location is the backup address of a job. */
  predicate NoOverlap(items: seq<Item>) {
    forall i :: 0 <= i < |items| ==> !IsBackup(items, items[i].at)
  }

  /** Every interrupted forced run of the batch, on any cloud, is undone but for backups and a torn object. */
  ghost predicate Restores(items: seq<Item>) {
    forall c: Cloud :: Reliable(UploadAll(c, items, true).0) ==> UndoneFrom(c, items)
  }

  ghost predicate UndoneFrom(c: Cloud, items: seq<Item>) {
    var (c1, items1, ending) := UploadAll(c, items, true);
    var (c2, _, ok) := RollbackAll(c1, items1);
    ok && forall a :: !IsBackup(items, a) && ending != TornInsert(a) ==> SameAt(c.objects, c2.objects, a)
  }

  /** `b` is the address `a` without one or more of its backup extensions. */
  predicate Above(b: Address, a: Address)
    decreases |a.path| - |b.path|
  {
    |b.path| < |a.path| && (Old(b) == a || Above(Old(b), a))
  }

  lemma {:induction false} AboveOld(b: Address, h: Address)
    requires Above(b, Old(h))
    ensures b == h || Above(b, h)
    decreases |h.path| - |b.path|
  {
    OldIsLonger(b);
    OldIsLonger(h);
    if Old(b) == Old(h) {
      OldIsInjective(b, h);
    } else {
      AboveOld(Old(b), h);
    }
  }

  lemma {:induction false} OldIsBelow(h: Address, a: Address)
    ensures Above(h, Old(h)) && (Above(Old(h), a) ==> Above(h, a))
  {
    OldIsLonger(h);
  }

  /** The content is a job's, or comes from an address that `a` is a backup of. */
  predicate Displaced(o: Objects, items: seq<Item>, a: Address, x: Content) {
    || (exists i :: 0 <= i < |items| && items[i].content == x)
    || (exists b :: b in o && Above(b, a) && o[b] == x)
  }

  /** One forced upload, without faults, to a location that is taken. */
  lemma {:induction false} UploadMovesDown(c: Cloud, item: Item)
    requires c.faults == [] && item.Fresh() && item.at in c.objects
    ensures Upload(c, item, true) ==
      (Cloud(c.objects[Old(item.at) := c.objects[item.at]][item.at := item.content], []),
       item.(updated := true, backedUp := true), Done)
  {
  }

  lemma {:induction false} DisplacedEarlier(o: Objects, items: seq<Item>, a: Address, x: Content)
    requires items != [] && items[0].at in o
    requires Displaced(o[Old(items[0].at) := o[items[0].at]][items[0].at := items[0].content], items[1..], a, x)
    ensures Displaced(o, items, a, x)
  {
    var h, tail := items[0].at, items[1..];
    if i :| 0 <= i < |tail| && tail[i].content == x {
      assert items[i + 1].content == x;
    } else {
      var o1 := o[Old(h) := o[h]][h := items[0].content];
      var b :| b in o1 && Above(b, a) && o1[b] == x;
      OldIsBelow(h, a);
    }
  }

  lemma {:induction false} DisplacedIntoLocation(o: Objects, items: seq<Item>, x: Content)
    requires items != [] && items[0].at in o
    requires var h := items[0].at;
      Displaced(o[Old(h) := o[h]][h := items[0].content], items[1..], Old(h), x)
    ensures Displaced(o, items, items[0].at, x)
  {
    var h, tail := items[0].at, items[1..];
    if i :| 0 <= i < |tail| && tail[i].content == x {
      assert items[i + 1].content == x;
    } else {
      var o1 := o[Old(h) := o[h]][h := items[0].content];
      var b :| b in o1 && Above(b, Old(h)) && o1[b] == x;
      AboveOld(b, h);
    }
  }

  /** Where all locations are taken and all commands work, each harmed address ends with a content from elsewhere. */
  lemma {:induction false} HarmIsDone(c: Cloud, items: seq<Item>)
    requires c.faults == [] && AllFresh(items)
    requires forall i :: 0 <= i < |items| ==> items[i].at in c.objects
    ensures var (c1, items1, ending) := UploadAll(c, items, true);
      && ending == Done && c1.faults == []
      && var c2 := RollbackAll(c1, items1).0;
         forall a :: a in Harmed(items) ==> a in c2.objects && Displaced(c.objects, items, a, c2.objects[a])
    decreases |items|
  {
    if items != [] {
      var h, tail := items[0].at, items[1..];
      assert forall i :: 0 <= i < |tail| ==> tail[i] == items[i + 1];
      UploadMovesDown(c, items[0]);
      var (c1, item, _) := Upload(c, items[0], true);
      HarmIsDone(c1, tail);
      var (c2, rest, _) := UploadAll(c1, tail, true);
      assert ([item] + rest)[1..] == rest;
      ForcedUndo(c1, tail);
      var undone := RollbackAll(c2, rest).0;
      assert RestoredAt(c1.objects, undone.objects, tail, Done, Old(h));
      var after := Rollback(undone, item).0;
      forall a | a in Harmed(items) ensures a in after.objects && Displaced(c.objects, items, a, after.objects[a]) {
        HarmIsDoneAt(c.objects, items, undone.objects, after.objects, a);
      }
    }
  }

  lemma {:induction false} HarmIsDoneAt(o: Objects, items: seq<Item>, undone: Objects, after: Objects, a: Address)
    requires items != [] && items[0].at in o && a in Harmed(items)
    requires var h := items[0].at;
      var o1 := o[Old(h) := o[h]][h := items[0].content];
      && (forall b :: b in Harmed(items[1..]) ==> b in undone && Displaced(o1, items[1..], b, undone[b]))
      && Old(h) in undone && (Old(h) !in Harmed(items[1..]) ==> undone[Old(h)] == o[h])
      && after == undone[h := undone[Old(h)]]
    ensures a in after && Displaced(o, items, a, after[a])
  {
    var h := items[0].at;
    OldIsLonger(h);
    OldIsBelow(h, a);
    if a == h {
      DisplacedIntoLocation(o, items, undone[Old(h)]);
    } else if a in Harmed(items[1..]) {
      DisplacedEarlier(o, items, a, undone[a]);
    }
  }

  lemma {:induction false} HarmedIsUsed(items: seq<Item>, a: Address)
    requires a in Harmed(items)
    ensures IsLocation(items, a) || IsBackup(items, a)
    decreases |items|
  {
    TailLocation(items, a);
    if a in Harmed(items[1..]) {
      HarmedIsUsed(items[1..], a);
    }
  }

  function LongerThanAll(items: seq<Item>): (x: Content)
    ensures forall i :: 0 <= i < |items| ==> |items[i].content| < |x|
  {
    if items == [] then "x"
    else
      var y := LongerThanAll(items[1..]);
      assert forall i :: 0 < i < |items| ==> items[i] == items[1..][i - 1];
      items[0].content + y
  }

  /** A cloud in which each location holds a content of its own. */
  function Telling(items: seq<Item>): (c: Cloud)
    ensures c.faults == []
    ensures forall i :: 0 <= i < |items| ==> items[i].at in c.objects
    ensures forall a :: a in c.objects ==> c.objects[a] == LongerThanAll(items) + a.path
  {
    var locations := set i | 0 <= i < |items| :: items[i].at;
    Cloud(map a | a in locations :: LongerThanAll(items) + a.path, [])
  }

  lemma {:induction false} HarmTells(items: seq<Item>, a: Address, x: Content)
    requires Displaced(Telling(items).objects, items, a, x)
    ensures x != LongerThanAll(items) + a.path
  {
    if i :| 0 <= i < |items| && items[i].content == x {
      assert |x| < |LongerThanAll(items)|;
    } else {
      var b :| b in Telling(items).objects && Above(b, a) && Telling(items).objects[b] == x;
      assert |x| == |LongerThanAll(items)| + |b.path|;
    }
  }

  lemma {:induction false} HarmedLocationBreaks(items: seq<Item>, at: Address)
    requires AllFresh(items) && at in Harmed(items) && !IsBackup(items, at)
    ensures !Restores(items)
  {
    var c := Telling(items);
    var (c1, items1, ending) := UploadAll(c, items, true);
    HarmIsDone(c, items);
    HarmedIsUsed(items, at);
    var i :| 0 <= i < |items| && items[i].at == at;
    var c2 := RollbackAll(c1, items1).0;
    HarmTells(items, at, c2.objects[at]);
    assert !SameAt(c.objects, c2.objects, at);
    assert !UndoneFrom(c, items);
  }

  /** A batch can always be undone, whatever overlaps, exactly if it harms nothing but its backup addresses. */
  lemma {:induction false} RestoresIffHarmless(items: seq<Item>)
    requires AllFresh(items)
    ensures Restores(items) <==> forall a :: a in Harmed(items) ==> IsBackup(items, a)
  {
    if forall a :: a in Harmed(items) ==> IsBackup(items, a) {
      forall c: Cloud | Reliable(UploadAll(c, items, true).0) ensures UndoneFrom(c, items) {
        ForcedUndo(c, items);
        var (c1, items1, ending) := UploadAll(c, items, true);
        var c2 := RollbackAll(c1, items1).0;
        forall a | !IsBackup(items, a) && ending != TornInsert(a) ensures SameAt(c.objects, c2.objects, a) {
          assert RestoredAt(c.objects, c2.objects, items, ending, a);
        }
      }
    } else {
      var at :| at in Harmed(items) && !IsBackup(items, at);
      HarmedLocationBreaks(items, at);
    }
  }

  lemma {:induction false} BackupsAreHarmed(items: seq<Item>, at: Address)
    requires NoOverlap(items) && IsLocation(items, at)
    ensures Old(at) in Harmed(items)
    decreases |items|
  {
    TailLocation(items, at);
    TailOverlap(items);
    assert items[0].at != Old(at) by {
      var i :| 0 <= i < |items| && items[i].at == at;
      assert !IsBackup(items, items[0].at);
    }
    if items[0].at != at {
      BackupsAreHarmed(items[1..], at);
    }
  }

  lemma {:induction false} TailOverlap(items: seq<Item>)
    requires items != [] && NoOverlap(items)
    ensures NoOverlap(items[1..])
  {
    forall i | 0 <= i < |items[1..]| ensures !IsBackup(items[1..], items[1..][i].at) {
      TailLocation(items, items[i + 1].at);
      assert !IsBackup(items, items[i + 1].at);
    }
  }

  lemma {:induction false} RepeatIsHarmed(items: seq<Item>, i: nat, j: nat)
    requires NoOverlap(items) && i < j < |items| && items[i].at == items[j].at
    ensures items[i].at in Harmed(items)
    decreases |items|
  {
    var at, tail := items[i].at, items[1..];
    TailOverlap(items);
    assert tail[j - 1].at == at;
    if items[0].at == at {
      BackupsAreHarmed(tail, at);
    } else {
      RepeatIsHarmed(tail, i - 1, j - 1);
    }
  }

  /** Among batches whose backups overlap no location, those with distinct locations are just the safe ones. */
  lemma {:induction false} RestoresIffDistinct(items: seq<Item>)
    requires AllFresh(items) && NoOverlap(items)
    ensures Restores(items) <==> Distinct(items)
  {
    RestoresIffHarmless(items);
    if Distinct(items) {
      forall a | a in Harmed(items) ensures IsBackup(items, a) {
        DistinctHarmsBackups(items, a);
      }
    } else {
      var i, j :| 0 <= i < j < |items| && items[i].at == items[j].at;
      RepeatIsHarmed(items, i, j);
      assert !IsBackup(items, items[i].at);
    }
  }

  // ---------------------------------------------------------------------------------------------
  // A forced batch that goes through

  /** None of these jobs uploads or backs up to the address. */
  predicate Avoid(items: seq<Item>, lo: nat, hi: nat, a: Address)
    requires lo <= hi <= |items|
  {
    forall j :: lo <= j < hi ==> items[j].at != a && Old(items[j].at) != a
  }

  lemma {:induction false} AvoidTail(items: seq<Item>, lo: nat, hi: nat, a: Address)
    requires 0 < lo <= hi <= |items| && Avoid(items, lo, hi, a)
    ensures Avoid(items[1..], lo - 1, hi - 1, a)
  {
    assert forall j :: 0 <= j < |items| - 1 ==> items[1..][j] == items[j + 1];
  }

  /** An address that no job uses keeps its object. */
  lemma {:induction false} AvoidedStays(c: Cloud, items: seq<Item>, a: Address)
    requires AllFresh(items) && UploadAll(c, items, true).2 == Done && Avoid(items, 0, |items|, a)
    ensures SameAt(c.objects, UploadAll(c, items, true).0.objects, a)
    decreases |items|
  {
    if items != [] {
      ForcedUpload(c, items[0]);
      AvoidTail(items, 1, |items|, a);
      AvoidedStays(Upload(c, items[0], true).0, items[1..], a);
    }
  }

  /** The file of a job stays at its location if no later job uses that address. */
  lemma {:induction false} FileArrives(c: Cloud, items: seq<Item>, i: nat)
    requires AllFresh(items) && UploadAll(c, items, true).2 == Done && i < |items|
    requires Avoid(items, i + 1, |items|, items[i].at)
    ensures var after := UploadAll(c, items, true).0.objects;
      items[i].at in after && after[items[i].at] == items[i].content
    decreases |items|
  {
    var c1, tail := Upload(c, items[0], true).0, items[1..];
    ForcedUpload(c, items[0]);
    AvoidTail(items, i + 1, |items|, items[i].at);
    if i == 0 {
      AvoidedStays(c1, tail, items[0].at);
    } else {
      assert tail[i - 1] == items[i];
      FileArrives(c1, tail, i - 1);
    }
  }

  /** What a location held is in its backup, if no earlier job used the location and no later one the backup. */
  lemma {:induction false} BackupArrives(c: Cloud, items: seq<Item>, i: nat)
    requires AllFresh(items) && UploadAll(c, items, true).2 == Done && i < |items| && items[i].at in c.objects
    requires Avoid(items, 0, i, items[i].at) && Avoid(items, i + 1, |items|, Old(items[i].at))
    ensures var after := UploadAll(c, items, true).0.objects;
      Old(items[i].at) in after && after[Old(items[i].at)] == c.objects[items[i].at]
    decreases |items|
  {
    var c1, tail := Upload(c, items[0], true).0, items[1..];
    ForcedUpload(c, items[0]);
    OldIsLonger(items[i].at);
    AvoidTail(items, i + 1, |items|, Old(items[i].at));
    if i == 0 {
      AvoidedStays(c1, tail, Old(items[0].at));
    } else {
      assert tail[i - 1] == items[i] && items[0].at != items[i].at && Old(items[0].at) != items[i].at;
      AvoidTail(items, 1, i, items[i].at);
      BackupArrives(c1, tail, i - 1);
    }
  }

  /**
   * A forced batch of any fresh jobs that goes through leaves every address alone that no job uses, each new file
   * at its location unless a later job uses that address, and what a location held in its backup unless an
   * earlier job used the location or a later one uses the backup.
   */
  lemma {:induction false} ForcedSuccess(c: Cloud, items: seq<Item>)
    requires AllFresh(items) && UploadAll(c, items, true).2 == Done
    ensures var after := UploadAll(c, items, true).0.objects;
      && (forall a :: Avoid(items, 0, |items|, a) ==> SameAt(c.objects, after, a))
      && (forall i :: 0 <= i < |items| && Avoid(items, i + 1, |items|, items[i].at) ==>
            items[i].at in after && after[items[i].at] == items[i].content)
      && (forall i :: 0 <= i < |items| && items[i].at in c.objects
                      && Avoid(items, 0, i, items[i].at) && Avoid(items, i + 1, |items|, Old(items[i].at)) ==>
            Old(items[i].at) in after && after[Old(items[i].at)] == c.objects[items[i].at])
  {
    var after := UploadAll(c, items, true).0.objects;
    forall a | Avoid(items, 0, |items|, a) ensures SameAt(c.objects, after, a) {
      AvoidedStays(c, items, a);
    }
    forall i | 0 <= i < |items| && Avoid(items, i + 1, |items|, items[i].at)
      ensures items[i].at in after && after[items[i].at] == items[i].content
    {
      FileArrives(c, items, i);
    }
    forall i | 0 <= i < |items| && items[i].at in c.objects
               && Avoid(items, 0, i, items[i].at) && Avoid(items, i + 1, |items|, Old(items[i].at))
      ensures Old(items[i].at) in after && after[Old(items[i].at)] == c.objects[items[i].at]
    {
      BackupArrives(c, items, i);
    }
  }

  /** At distinct locations without overlap that is every new file and every backup. */
  lemma {:induction false} DistinctSuccess(c: Cloud, items: seq<Item>)
    requires AllFresh(items) && Distinct(items) && NoOverlap(items)
    requires UploadAll(c, items, true).2 == Done
    ensures var after := UploadAll(c, items, true).0.objects;
      && (forall i :: 0 <= i < |items| ==>
            && items[i].at in after && after[items[i].at] == items[i].content
            && (items[i].at in c.objects ==>
                  Old(items[i].at) in after && after[Old(items[i].at)] == c.objects[items[i].at]))
      && (forall a :: !IsLocation(items, a) && !IsBackup(items, a) ==> SameAt(c.objects, after, a))
  {
    var after := UploadAll(c, items, true).0.objects;
    forall i | 0 <= i < |items|
      ensures items[i].at in after && after[items[i].at] == items[i].content
      ensures items[i].at in c.objects ==>
        Old(items[i].at) in after && after[Old(items[i].at)] == c.objects[items[i].at]
    {
      OthersAvoid(items, i);
      FileArrives(c, items, i);
      if items[i].at in c.objects {
        BackupArrives(c, items, i);
      }
    }
    forall a | !IsLocation(items, a) && !IsBackup(items, a) ensures SameAt(c.objects, after, a) {
      assert Avoid(items, 0, |items|, a);
      AvoidedStays(c, items, a);
    }
  }

  lemma {:induction false} OthersAvoid(items: seq<Item>, i: nat)
    requires Distinct(items) && NoOverlap(items) && i < |items|
    ensures Avoid(items, 0, i, items[i].at) && Avoid(items, i + 1, |items|, items[i].at)
    ensures Avoid(items, i + 1, |items|, Old(items[i].at))
  {
    var at := items[i].at;
    forall j | 0 <= j < |items| && j != i
      ensures items[j].at != at && Old(items[j].at) != at && items[j].at != Old(at) && Old(items[j].at) != Old(at)
    {
      assert !IsBackup(items, items[i].at) && !IsBackup(items, items[j].at);
      if Old(items[j].at) == Old(at) {
        OldIsInjective(items[j].at, at);
      }
    }
  }
}
