/**
 * `cloud_storage.GetIfChanged`: the `.fetchts` time stamp that lets a call skip hashing the file.
 *
 * A call runs alone, because it holds the file's pseudo lock, but its process may die after any of its
 * writes. The hash is the parameter `hash`; the outcome of the download, the clock reading and the death
 * are parameters of each call.
 */
module FetchStamp {
  import opened Wrappers

  type Content = string
  type Hash = string
  type Time = int

  /** The `.sha1` file: the hash it holds and when it was last modified. */
  datatype HashFile = HashFile(hash: Hash, mtime: Time)

  /** The `.fetchts` file: opened for writing, and so empty, or with a time in it. */
  datatype Stamp = Empty | At(time: Time)

  /** The files one call looks at: the binary, its `.sha1` and its `.fetchts`. */
  datatype Disk = Disk(file: Option<Content>, sha1: Option<HashFile>, stamp: Option<Stamp>)

  datatype Result = Unchanged | Changed | StampRaised | DownloadRaised | WrongObject | Died

  /** What the download does: it raises, or it moves this object into place. */
  type Download = Option<Content>

  /** The write after which the process dies, if the call comes to it. */
  datatype Death = Never | OnOpen | OnStamp | OnMove

  predicate Current(hash: Content -> Hash, d: Disk) {
    d.file.Some? && d.sha1.Some? && hash(d.file.value) == d.sha1.value.hash
  }

  /** The test that lets a call return without hashing. */
  predicate Shortcut(d: Disk) {
    d.sha1.Some? && d.file.Some? && d.stamp.Some? && d.stamp.value.At? && d.stamp.value.time > d.sha1.value.mtime
  }

  /** The stamp is read, and there is no number in it. */
  predicate Wedged(d: Disk) {
    d.file.Some? && d.stamp == Some(Empty)
  }

  function Call(hash: Content -> Hash, d: Disk, now: Time, download: Download, death: Death): (Disk, Result) {
    if d.sha1.None? || Shortcut(d) then (d, Unchanged)
    else if Wedged(d) then (d, StampRaised)
    else if death.OnOpen? then (d.(stamp := Some(Empty)), Died)
    else
      var stamped := d.(stamp := Some(At(now)));
      if death.OnStamp? then (stamped, Died)
      else if Current(hash, d) then (stamped, Unchanged)
      else if download.None? then (stamped, DownloadRaised)
      else
        var moved := stamped.(file := download);
        if death.OnMove? then (moved, Died)
        else if Current(hash, moved) then (moved, Changed)
        else (moved.(stamp := None), WrongObject)
  }

  /** The same call without time stamps: it hashes the file each time. */
  function Reference(hash: Content -> Hash, file: Option<Content>, sha1: Option<HashFile>, download: Download,
                     death: Death): (Option<Content>, Result)
  {
    if sha1.None? || Current(hash, Disk(file, sha1, None)) then (file, Unchanged)
    else if death.OnOpen? || death.OnStamp? then (file, Died)
    else if download.None? then (file, DownloadRaised)
    else if death.OnMove? then (download, Died)
    else if Current(hash, Disk(download, sha1, None)) then (download, Changed)
    else (download, WrongObject)
  }

  class LocalCopy {
    var file: Option<Content>
    var sha1: Option<HashFile>
    var stamp: Option<Stamp>

    function Contents(): Disk
      reads this
    {
      Disk(file, sha1, stamp)
    }

    method GetIfChanged(hash: Content -> Hash, now: Time, download: Download, death: Death) returns (r: Result)
      modifies this
      ensures (Contents(), r) == Call(hash, old(Contents()), now, download, death)
      ensures sha1 == old(sha1)
    {
      if sha1.None? {
        return Unchanged;
      }
      var expected := sha1.value.hash;
      if stamp.Some? && file.Some? {
        if stamp.value.Empty? {
          return StampRaised;
        }
        if stamp.value.time > sha1.value.mtime {
          return Unchanged;
        }
      }
      stamp := Some(Empty);
      if death.OnOpen? {
        return Died;
      }
      stamp := Some(At(now));
      if death.OnStamp? {
        return Died;
      }
      if file.Some? && hash(file.value) == expected {
        return Unchanged;
      }
      if download.None? {
        return DownloadRaised;
      }
      file := download;
      if death.OnMove? {
        return Died;
      }
      if hash(file.value) != expected {
        stamp := None;
        return WrongObject;
      }
      return Changed;
    }
  }

  // ---------------------------------------------------------------------------------------------
  // One call

  /** When the shortcut fires the file has the hash in `.sha1`, and no empty stamp will be read. */
  predicate Healthy(hash: Content -> Hash, d: Disk) {
    (Shortcut(d) ==> Current(hash, d)) && !Wedged(d)
  }

  /** The disk is healthy exactly if the next call does on it what a call that hashes does. */
  lemma {:induction false} HealthyIffNextCallIsRight(hash: Content -> Hash, d: Disk)
    requires d.sha1.Some?
    ensures Healthy(hash, d) <==>
      forall now, download :: var (after, r) := Call(hash, d, now, download, Never);
        (after.file, r) == Reference(hash, d.file, d.sha1, download, Never)
  {
    var (after, r) := Call(hash, d, 0, None, Never);
    assert Healthy(hash, d) || (after.file, r) != Reference(hash, d.file, d.sha1, None, Never);
  }

  /**
   * What a call that does not die does on a healthy disk: nothing without a `.sha1` file; nothing to a file that
   * has its hash; otherwise it fetches, and says whether the object moved into place has the hash. A call that
   * hashes or fetches leaves a stamp of its time, unless the object is wrong.
   */
  lemma {:induction false} HealthyCallIs(hash: Content -> Hash, d: Disk, now: Time, download: Download)
    requires Healthy(hash, d)
    ensures var (after, r) := Call(hash, d, now, download, Never);
      && after.sha1 == d.sha1
      && (d.sha1.None? ==> after == d && r == Unchanged)
      && (d.sha1.Some? ==>
            var wanted := d.sha1.value.hash;
            var good := d.file.Some? && hash(d.file.value) == wanted;
            && (r == Unchanged <==> good)
            && (r == DownloadRaised <==> !good && download.None?)
            && (r == Changed <==> !good && download.Some? && hash(download.value) == wanted)
            && (r == WrongObject <==> !good && download.Some? && hash(download.value) != wanted)
            && after.file == (if good || download.None? then d.file else download)
            && (|| after.stamp == Some(At(now))
                || (r == WrongObject && after.stamp == None) || (r == Unchanged && after == d)))
  {
  }

  /** An old file, or a wrong object, is left under a new stamp. */
  predicate LosesUpdate(hash: Content -> Hash, d: Disk, now: Time, download: Download, death: Death) {
    && d.sha1.Some? && !Shortcut(d) && !Wedged(d) && !Current(hash, d) && now > d.sha1.value.mtime
    && match death
       case OnOpen => false
       case OnStamp => d.file.Some?
       case OnMove =>
         if download.None? then d.file.Some? else hash(download.value) != d.sha1.value.hash
       case Never => d.file.Some? && download.None?
  }

  /** The stamp is left empty beside a file. */
  predicate TearsStamp(d: Disk, death: Death) {
    d.sha1.Some? && !Shortcut(d) && d.file.Some? && death.OnOpen?
  }

  /**
   * A call keeps the disk healthy in all but these cases. It loses an update: the clock reads past the time
   * of the `.sha1` file, and either an old file is there and the download raises or the process dies before
   * its move, or the wrong object is moved and the process dies before it removes the stamp. Or it tears the
   * stamp: a file is there and the process dies with the stamp just opened.
   */
  lemma {:induction false} CallStaysHealthyIff(hash: Content -> Hash, d: Disk, now: Time, download: Download,
                                               death: Death)
    requires Healthy(hash, d)
    ensures Healthy(hash, Call(hash, d, now, download, death).0)
            <==> !LosesUpdate(hash, d, now, download, death) && !TearsStamp(d, death)
  {
  }

  // ---------------------------------------------------------------------------------------------
  // Whole runs

  /** Between calls the `.sha1` file may be written or removed; nothing else changes the disk. */
  datatype Event =
    | Edit(at: Time, content: Option<Hash>)
    | Fetch(at: Time, download: Download, death: Death)

  function Edited(at: Time, content: Option<Hash>): Option<HashFile> {
    if content.None? then None else Some(HashFile(content.value, at))
  }

  function After(hash: Content -> Hash, d: Disk, e: Event): Disk {
    match e
    case Edit(at, content) => d.(sha1 := Edited(at, content))
    case Fetch(at, download, death) => Call(hash, d, at, download, death).0
  }

  datatype Outcome = Outcome(file: Option<Content>, results: seq<Result>)

  function Run(hash: Content -> Hash, d: Disk, events: seq<Event>): Outcome
    decreases |events|
  {
    if events == [] then Outcome(d.file, [])
    else
      var rest := Run(hash, After(hash, d, events[0]), events[1..]);
      match events[0]
      case Edit(_, _) => rest
      case Fetch(at, download, death) =>
        rest.(results := [Call(hash, d, at, download, death).1] + rest.results)
  }

  function ReferenceRun(hash: Content -> Hash, file: Option<Content>, sha1: Option<HashFile>, events: seq<Event>)
    : Outcome
    decreases |events|
  {
    if events == [] then Outcome(file, [])
    else
      match events[0]
      case Edit(at, content) => ReferenceRun(hash, file, Edited(at, content), events[1..])
      case Fetch(at, download, death) =>
        var (after, result) := Reference(hash, file, sha1, download, death);
        var rest := ReferenceRun(hash, after, sha1, events[1..]);
        Outcome(rest.file, [result] + rest.results)
  }

  /** The clock never runs backwards from `clock` on. */
  predicate Timely(clock: Time, events: seq<Event>)
    decreases |events|
  {
    events == [] || (clock <= events[0].at && Timely(events[0].at, events[1..]))
  }

  predicate StampedBy(d: Disk, clock: Time) {
    d.stamp.Some? && d.stamp.value.At? ==> d.stamp.value.time <= clock
  }

  /** No call of the run loses an update or tears the stamp. */
  predicate Unbroken(hash: Content -> Hash, d: Disk, events: seq<Event>)
    decreases |events|
  {
    events == [] ||
    (&& (events[0].Fetch? ==>
          && !LosesUpdate(hash, d, events[0].at, events[0].download, events[0].death)
          && !TearsStamp(d, events[0].death))
     && Unbroken(hash, After(hash, d, events[0]), events[1..]))
  }

  predicate AlwaysHealthy(hash: Content -> Hash, d: Disk, events: seq<Event>)
    decreases |events|
  {
    Healthy(hash, d) && (events == [] || AlwaysHealthy(hash, After(hash, d, events[0]), events[1..]))
  }

  /** The disk is healthy at every point of a run exactly if no call loses an update or tears the stamp. */
  lemma {:induction false} AlwaysHealthyIff(hash: Content -> Hash, d: Disk, clock: Time, events: seq<Event>)
    requires Timely(clock, events) && Healthy(hash, d) && StampedBy(d, clock)
    ensures AlwaysHealthy(hash, d, events) <==> Unbroken(hash, d, events)
    decreases |events|
  {
    if events != [] {
      var after := After(hash, d, events[0]);
      if events[0].Fetch? {
        CallStaysHealthyIff(hash, d, events[0].at, events[0].download, events[0].death);
      }
      if Healthy(hash, after) {
        AlwaysHealthyIff(hash, after, events[0].at, events[1..]);
      }
    }
  }

  /** The same results, but for calls that died. */
  predicate Agree(results: seq<Result>, reference: seq<Result>) {
    && |results| == |reference|
    && forall i :: 0 <= i < |results| ==> results[i] == reference[i] || results[i] == Died
  }

  /**
   * Over every run with a clock that does not go back and no lost update or torn stamp, each call that
   * returns or raises does what a call that hashes the file does, and the file ends the same.
   */
  lemma {:induction false} StampsRefineHashing(hash: Content -> Hash, d: Disk, clock: Time, events: seq<Event>)
    requires Timely(clock, events) && Unbroken(hash, d, events)
    requires Healthy(hash, d) && StampedBy(d, clock)
    ensures var stamped, hashed := Run(hash, d, events), ReferenceRun(hash, d.file, d.sha1, events);
      stamped.file == hashed.file && Agree(stamped.results, hashed.results)
    decreases |events|
  {
    if events != [] {
      var after := After(hash, d, events[0]);
      if events[0].Fetch? {
        CallStaysHealthyIff(hash, d, events[0].at, events[0].download, events[0].death);
      }
      StampsRefineHashing(hash, after, events[0].at, events[1..]);
    }
  }

  predicate OnlyFetches(events: seq<Event>) {
    forall i :: 0 <= i < |events| ==> events[i].Fetch?
  }

  predicate All(results: seq<Result>, r: Result) {
    forall i :: 0 <= i < |results| ==> results[i] == r
  }

  /** After a lost update every call answers that nothing changed, until the `.sha1` file is written again. */
  lemma {:induction false} LostUpdateIsNeverRetried(hash: Content -> Hash, d: Disk, now: Time, download: Download,
                                                    death: Death, events: seq<Event>)
    requires LosesUpdate(hash, d, now, download, death) && OnlyFetches(events)
    ensures var after := Call(hash, d, now, download, death).0;
      && !Current(hash, after)
      && Run(hash, after, events).file == after.file
      && All(Run(hash, after, events).results, Unchanged)
  {
    ShortcutLasts(hash, Call(hash, d, now, download, death).0, events);
  }

  lemma {:induction false} ShortcutLasts(hash: Content -> Hash, d: Disk, events: seq<Event>)
    requires Shortcut(d) && OnlyFetches(events)
    ensures Run(hash, d, events).file == d.file && All(Run(hash, d, events).results, Unchanged)
    decreases |events|
  {
    if events != [] {
      ShortcutLasts(hash, d, events[1..]);
    }
  }

  /** After a torn stamp the file is never changed again, whatever becomes of the `.sha1` file. */
  lemma {:induction false} TornStampIsForGood(hash: Content -> Hash, d: Disk, now: Time, download: Download,
                                              death: Death, events: seq<Event>)
    requires TearsStamp(d, death) && !Wedged(d)
    ensures var after := Call(hash, d, now, download, death).0;
      && Run(hash, after, events).file == d.file
      && forall r :: r in Run(hash, after, events).results ==> r == StampRaised || r == Unchanged
  {
    WedgeLasts(hash, Call(hash, d, now, download, death).0, events);
  }

  lemma {:induction false} WedgeLasts(hash: Content -> Hash, d: Disk, events: seq<Event>)
    requires Wedged(d)
    ensures Run(hash, d, events).file == d.file
    ensures forall r :: r in Run(hash, d, events).results ==> r == StampRaised || r == Unchanged
    decreases |events|
  {
    if events != [] {
      WedgeLasts(hash, After(hash, d, events[0]), events[1..]);
    }
  }
}
