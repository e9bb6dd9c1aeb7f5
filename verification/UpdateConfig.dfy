/**
 * `BaseConfig` and `CloudStorageUploader`: a writable config collects update jobs and executes them as
 * one transaction against the cloud. The classes are proved against functions over values; the main
 * result is that the config file on disk never names an object that is not in the cloud.
 */
module UpdateConfig {
  import opened Wrappers
  import U = CloudUpload

  type Hash = string

  const CLOUD_STORAGE_HASH := "cloud_storage_hash"
  const VERSION_IN_CS := "version_in_cs"

  /** One dependency of the config: its cloud fields and, for each platform, a dictionary of fields. */
  datatype Dependency = Dependency(
    bucket: Option<string>,
    baseFolder: Option<string>,
    fileInfo: map<string, map<string, string>>)

  type ConfigData = map<string, Dependency>

  /** A missing value and the empty string are both false in Python. */
  predicate Truthy(s: Option<string>) {
    s.Some? && s.value != ""
  }

  function CloudStorageRemotePath(dependency: string, hash: Hash, baseFolder: Option<string>): string {
    var file := dependency + "_" + hash;
    if Truthy(baseFolder) then baseFolder.value + "/" + file else file
  }

  predicate HasPlatform(data: ConfigData, dependency: string, platform: string) {
    dependency in data && platform in data[dependency].fileInfo && data[dependency].fileInfo[platform] != map[]
  }

  function SetPlatformData(data: ConfigData, dependency: string, platform: string, field: string, value: string)
    : ConfigData
    requires HasPlatform(data, dependency, platform)
  {
    var d := data[dependency];
    data[dependency := d.(fileInfo := d.fileInfo[platform := d.fileInfo[platform][field := value]])]
  }

  datatype Config = Config(data: ConfigData, onDisk: ConfigData, writable: bool, pending: seq<U.Item>)

  datatype Result = Updated | NotDirty | ReadWriteError | ValueError | UpdateFailed | RollbackFailed | Added

  /** `ExecuteUpdateJobs`; `writeWorks` says whether writing the config file succeeds. */
  function Execute(c: U.Cloud, s: Config, force: bool, writeWorks: bool): (U.Cloud, Config, Result) {
    if !s.writable then (c, s, ReadWriteError)
    else if s.data == s.onDisk then (c, s, NotDirty)
    else if s.pending == [] then (c, s, Updated)
    else
      var (c1, items, ending) := U.UploadAll(c, s.pending, force);
      if ending == U.Done && writeWorks then (c1, s.(onDisk := s.data, pending := []), Updated)
      else
        var (c2, undone, ok) := U.RollbackAll(c1, items);
        (c2, s.(pending := undone), if ok then UpdateFailed else RollbackFailed)
  }

  datatype Job = Job(dependency: string, platform: string, content: U.Content, version: Option<string>)

  function ChangedData(hash: U.Content -> Hash, data: ConfigData, job: Job): ConfigData
    requires HasPlatform(data, job.dependency, job.platform)
  {
    var versioned := if Truthy(job.version)
                     then SetPlatformData(data, job.dependency, job.platform, VERSION_IN_CS, job.version.value)
                     else data;
    SetPlatformData(versioned, job.dependency, job.platform, CLOUD_STORAGE_HASH, hash(job.content))
  }

  function JobAddress(hash: U.Content -> Hash, d: Dependency, job: Job): U.Address
    requires d.bucket.Some?
  {
    U.Address(d.bucket.value, CloudStorageRemotePath(job.dependency, hash(job.content), d.baseFolder))
  }

  function FreshItem(at: U.Address, content: U.Content): U.Item {
    U.Item(at, content, U.Old(at), false, false)
  }

  /**
   * `AddCloudStorageDependencyUpdateJob` up to the point where it may execute the job. The data is
   * changed before the uploader is built, so a missing bucket raises with the change already made.
   */
  function AddJob(hash: U.Content -> Hash, s: Config, job: Job, executeJob: bool): (Config, Result) {
    if !s.writable || (executeJob && s.data != s.onDisk) then (s, ReadWriteError)
    else if !HasPlatform(s.data, job.dependency, job.platform) then (s, ValueError)
    else
      var changed := s.(data := ChangedData(hash, s.data, job));
      var d := s.data[job.dependency];
      if !Truthy(d.bucket) then (changed, ValueError)
      else (changed.(pending := s.pending + [FreshItem(JobAddress(hash, d, job), job.content)]), Added)
  }

  /** The data differs from what it was in what the job sets, and in nothing else. */
  ghost predicate OnlyJobIsSet(hash: U.Content -> Hash, before: ConfigData, after: ConfigData, job: Job) {
    && after.Keys == before.Keys && job.dependency in before
    && (forall d :: d in before && d != job.dependency ==> after[d] == before[d])
    && var old0, new0 := before[job.dependency], after[job.dependency];
       && new0.bucket == old0.bucket && new0.baseFolder == old0.baseFolder
       && new0.fileInfo.Keys == old0.fileInfo.Keys && job.platform in old0.fileInfo
       && (forall p :: p in old0.fileInfo && p != job.platform ==> new0.fileInfo[p] == old0.fileInfo[p])
       && FieldsAreSet(hash, old0.fileInfo[job.platform], new0.fileInfo[job.platform], job)
  }

  ghost predicate FieldsAreSet(hash: U.Content -> Hash, before: map<string, string>, after: map<string, string>,
                               job: Job)
  {
    && CLOUD_STORAGE_HASH in after && after[CLOUD_STORAGE_HASH] == hash(job.content)
    && (Truthy(job.version) ==> VERSION_IN_CS in after && after[VERSION_IN_CS] == job.version.value)
    && forall k :: k != CLOUD_STORAGE_HASH && !(k == VERSION_IN_CS && Truthy(job.version)) ==>
         (k in after <==> k in before) && (k in after ==> after[k] == before[k])
  }

  lemma {:induction false} JobSetsOnlyItsFields(hash: U.Content -> Hash, data: ConfigData, job: Job)
    requires HasPlatform(data, job.dependency, job.platform)
    ensures OnlyJobIsSet(hash, data, ChangedData(hash, data, job), job)
  {
  }

  /** A job may be added: the config is writable, and clean if the job is to be executed. */
  predicate MayAdd(s: Config, executeJob: bool) {
    s.writable && (executeJob ==> s.data == s.onDisk)
  }

  /** The item is a new upload of the job's file, to its dependency's bucket and folder, named by its hash. */
  predicate IsJobItem(hash: U.Content -> Hash, d: Dependency, job: Job, item: U.Item) {
    && d.bucket == Some(item.at.bucket) && item.content == job.content && item.Fresh()
    && item.at.path == (if d.baseFolder.Some? && d.baseFolder.value != "" then d.baseFolder.value + "/" else "")
                         + job.dependency + "_" + hash(job.content)
  }

  /**
   * What adding a job comes to: the errors leave the config alone, but for a missing bucket, at which the data
   * has been changed already.
   */
  lemma {:induction false} AddJobIs(hash: U.Content -> Hash, s: Config, job: Job, executeJob: bool)
    ensures var (s1, r) := AddJob(hash, s, job, executeJob);
      var known := MayAdd(s, executeJob) && HasPlatform(s.data, job.dependency, job.platform);
      && s1.onDisk == s.onDisk && s1.writable == s.writable
      && (r == ReadWriteError <==> !MayAdd(s, executeJob))
      && (r == Added <==> known && Truthy(s.data[job.dependency].bucket))
      && (r == ReadWriteError || r == Added || r == ValueError)
      && (known ==> OnlyJobIsSet(hash, s.data, s1.data, job))
      && (!known ==> s1 == s)
      && (r != Added ==> s1.pending == s.pending)
      && (r == Added ==>
            && |s1.pending| == |s.pending| + 1 && s1.pending[..|s.pending|] == s.pending
            && IsJobItem(hash, s.data[job.dependency], job, s1.pending[|s.pending|]))
  {
    if MayAdd(s, executeJob) && HasPlatform(s.data, job.dependency, job.platform) {
      JobSetsOnlyItsFields(hash, s.data, job);
      var d := s.data[job.dependency];
      if Truthy(d.bucket) {
        JobPathIs(hash, d, job);
      }
    }
  }

  lemma {:induction false} JobPathIs(hash: U.Content -> Hash, d: Dependency, job: Job)
    requires d.bucket.Some?
    ensures JobAddress(hash, d, job).path ==
      (if d.baseFolder.Some? && d.baseFolder.value != "" then d.baseFolder.value + "/" else "")
        + job.dependency + "_" + hash(job.content)
  {
    if Truthy(d.baseFolder) {
      var folder := d.baseFolder.value + "/";
      assert folder + (job.dependency + "_" + hash(job.content)) == folder + job.dependency + "_" + hash(job.content);
    } else {
      assert "" + job.dependency == job.dependency;
    }
  }

  // ---------------------------------------------------------------------------------------------
  // The classes

  class CloudStore {
    var objects: U.Objects
    var faults: seq<U.Fault>

    function View(): U.Cloud
      reads this
    {
      U.Cloud(objects, faults)
    }

    /** The behaviour of the next command. */
    method NextFault() returns (f: U.Fault)
      modifies `faults
      ensures f == old(View()).Next() && View() == old(View()).Rest()
    {
      f := U.Works;
      if faults != [] {
        f, faults := faults[0], faults[1..];
      }
    }

    method Exists(a: U.Address) returns (raised: bool, found: bool)
      modifies this
      ensures View() == old(View()).Rest()
      ensures raised == !old(View()).Next().Works?
      ensures !raised ==> found == (a in old(objects))
    {
      var f := NextFault();
      raised, found := !f.Works?, a in objects;
    }

    /** The write that both `Copy` and `Insert` end in. */
    method Write(to: U.Address, content: U.Content) returns (f: U.Fault)
      modifies this
      ensures View() == old(View()).Put(to, content) && f == old(View()).Next()
    {
      f := NextFault();
      match f
      case Works => objects := objects[to := content];
      case RaisesClean =>
      case RaisesTorn(garbage) => objects := objects[to := garbage];
    }

    method Copy(from: U.Address, to: U.Address) returns (ok: bool)
      modifies this
      ensures View() == if from in old(objects) then old(View()).Put(to, old(objects)[from]) else old(View()).Rest()
      ensures ok == (from in old(objects) && old(View()).Next().Works?)
    {
      if from in objects {
        var f := Write(to, objects[from]);
        ok := f.Works?;
      } else {
        var f := NextFault();
        ok := false;
      }
    }

    method Delete(a: U.Address) returns (ok: bool)
      modifies this
      ensures ok == (old(View()).Next().Works? && a in old(objects))
      ensures View() == if ok then old(View()).Rest().(objects := old(objects) - {a}) else old(View()).Rest()
    {
      var f := NextFault();
      ok := f.Works? && a in objects;
      if ok {
        objects := objects - {a};
      }
    }
  }

  class CloudStorageUploader {
    const bucket: string
    const remotePath: string
    const content: U.Content
    var backupPath: string
    var updated: bool
    var backedUp: bool

    function View(): U.Item
      reads this
    {
      U.Item(U.Address(bucket, remotePath), content, U.Address(bucket, backupPath), updated, backedUp)
    }

    constructor (bucket: string, remotePath: string, content: U.Content)
      requires bucket != "" && remotePath != ""
      ensures View() == FreshItem(U.Address(bucket, remotePath), content)
    {
      this.bucket, this.remotePath, this.content := bucket, remotePath, content;
      backupPath := remotePath + "." + U.BACKUP_PATH_EXTENSION;
      updated, backedUp := false, false;
    }

    method Upload(cloud: CloudStore, force: bool) returns (ending: U.Ending)
      modifies `updated, `backedUp, cloud
      ensures (cloud.View(), View(), ending) == U.Upload(old(cloud.View()), old(View()), force)
    {
      var at := U.Address(bucket, remotePath);
      var raised, found := cloud.Exists(at);
      if raised {
        return U.CloudError;
      }
      if found {
        if !force {
          return U.Conflict;
        }
        var copied := cloud.Copy(at, U.Address(bucket, backupPath));
        if !copied {
          return U.CloudError;
        }
        backedUp := true;
      }
      var f := cloud.Write(at, content);
      match f
      case Works =>
        updated := true;
        return U.Done;
      case RaisesClean =>
        return U.CloudError;
      case RaisesTorn(_) =>
        return if backedUp then U.CloudError else U.TornInsert(at);
    }

    method Rollback(cloud: CloudStore) returns (changed: bool, ok: bool)
      modifies this, cloud
      ensures (cloud.View(), View(), ok) == U.Rollback(old(cloud.View()), old(View()))
      ensures ok ==> changed == (old(backedUp) || old(updated))
    {
      changed, ok := false, true;
      var at := U.Address(bucket, remotePath);
      if backedUp {
        ok := cloud.Copy(U.Address(bucket, backupPath), at);
        if !ok {
          return;
        }
        changed := true;
        backupPath := "None";
      } else if updated {
        ok := cloud.Delete(at);
        if !ok {
          return;
        }
        changed := true;
      }
      updated := false;
    }
  }

  /** A rollback that stops in the tail of the batch leaves everything before it untouched. */
  lemma {:induction false} RollbackStops(c: U.Cloud, items: seq<U.Item>, k: nat)
    requires k <= |items| && !U.RollbackAll(c, items[k..]).2
    ensures var (c1, rest, _) := U.RollbackAll(c, items[k..]);
      U.RollbackAll(c, items) == (c1, items[..k] + rest, false)
    decreases k
  {
    if k > 0 {
      assert items[1..][k - 1..] == items[k..];
      RollbackStops(c, items[1..], k - 1);
      var rest := U.RollbackAll(c, items[k..]).1;
      assert items[..k] + rest == [items[0]] + (items[1..][..k - 1] + rest);
    } else {
      assert items[0..] == items;
      assert items[..0] + U.RollbackAll(c, items).1 == U.RollbackAll(c, items).1;
    }
  }

  lemma {:induction false} RollbackEnds(start: U.Cloud, items: seq<U.Item>, i: nat)
    requires i <= |items| && (U.RollbackAll(start, items[i..]).2 ==> i == 0)
    ensures var (c, rest, ok) := U.RollbackAll(start, items[i..]);
      U.RollbackAll(start, items) == (c, items[..i] + rest, ok)
  {
    if i == 0 {
      var rest := U.RollbackAll(start, items).1;
      assert items[0..] == items && items[..0] + rest == rest;
    } else {
      RollbackStops(start, items, i);
    }
  }

  lemma {:induction false} RollbackStep(start: U.Cloud, items: seq<U.Item>, i: nat, c: U.Cloud, rest: seq<U.Item>,
                                        c1: U.Cloud, item: U.Item, ok: bool)
    requires i < |items| && U.RollbackAll(start, items[i + 1..]) == (c, rest, true)
    requires (c1, item, ok) == U.Rollback(c, items[i])
    ensures U.RollbackAll(start, items[i..]) == (c1, [item] + rest, ok)
  {
    assert items[i..][1..] == items[i + 1..];
  }

  /** The end of a forward loop that has treated `done` and stands before `todo`. */
  function Resume(c: U.Cloud, done: seq<U.Item>, todo: seq<U.Item>, ending: U.Ending, force: bool)
    : (U.Cloud, seq<U.Item>, U.Ending)
  {
    if ending != U.Done then (c, done + todo, ending)
    else
      var (c1, rest, last) := U.UploadAll(c, todo, force);
      (c1, done + rest, last)
  }

  lemma {:induction false} ResumeStarts(c: U.Cloud, items: seq<U.Item>, force: bool)
    ensures Resume(c, [], items[0..], U.Done, force) == U.UploadAll(c, items, force)
    ensures [] + items[0..] == items
  {
    var rest := U.UploadAll(c, items, force).1;
    assert items[0..] == items && [] + rest == rest;
  }

  lemma {:induction false} ResumeStep(c: U.Cloud, done: seq<U.Item>, items: seq<U.Item>, i: nat, force: bool,
                                      c1: U.Cloud, item: U.Item, ending: U.Ending)
    requires i < |items| && (c1, item, ending) == U.Upload(c, items[i], force)
    ensures Resume(c, done, items[i..], U.Done, force) == Resume(c1, done + [item], items[i + 1..], ending, force)
  {
    assert items[i..][1..] == items[i + 1..] && items[i..][0] == items[i];
    if ending != U.Done {
      assert done + ([item] + items[i + 1..]) == done + [item] + items[i + 1..];
    } else {
      var rest := U.UploadAll(c1, items[i + 1..], force).1;
      assert done + ([item] + rest) == done + [item] + rest;
    }
  }

  lemma {:induction false} ResumeEnds(c: U.Cloud, done: seq<U.Item>, todo: seq<U.Item>, ending: U.Ending, force: bool)
    requires todo == [] || ending != U.Done
    ensures Resume(c, done, todo, ending, force) == (c, done + todo, ending)
  {
  }

  lemma {:induction false} ReplaceLast(items: seq<U.Item>, done: seq<U.Item>, i: nat, item: U.Item)
    requires i < |items|
    ensures (items[..i + 1] + done)[i := item] == items[..i] + ([item] + done)
  {
  }

  lemma {:induction false} ReplaceNext(done: seq<U.Item>, items: seq<U.Item>, i: nat, item: U.Item)
    requires i == |done| < |items|
    ensures (done + items[i..])[i := item] == (done + [item]) + items[i + 1..]
  {
  }

  class BaseConfig {
    var configData: ConfigData
    var onDisk: ConfigData
    const writable: bool
    var pendingUploads: seq<CloudStorageUploader>

    ghost predicate Valid()
      reads this
    {
      forall i, j :: 0 <= i < j < |pendingUploads| ==> pendingUploads[i] != pendingUploads[j]
    }

    function Items(): (r: seq<U.Item>)
      reads this, pendingUploads
      ensures |r| == |pendingUploads|
    {
      seq(|pendingUploads|, i requires 0 <= i < |pendingUploads| reads this, pendingUploads =>
        pendingUploads[i].View())
    }

    function View(): Config
      reads this, pendingUploads
    {
      Config(configData, onDisk, writable, Items())
    }

    constructor (data: ConfigData, writable: bool)
      ensures Valid() && View() == Config(data, data, writable, [])
    {
      configData, onDisk, this.writable, pendingUploads := data, data, writable, [];
    }

    method UploadPending(cloud: CloudStore, force: bool) returns (ending: U.Ending)
      requires Valid()
      modifies cloud, pendingUploads
      ensures (cloud.View(), Items(), ending) == U.UploadAll(old(cloud.View()), old(Items()), force)
    {
      ghost var items, done: seq<U.Item> := Items(), [];
      ghost var all := U.UploadAll(cloud.View(), items, force);
      ending := U.Done;
      var i := 0;
      ResumeStarts(cloud.View(), items, force);
      while i < |pendingUploads| && ending == U.Done
        invariant i == |done| <= |pendingUploads| == |items|
        invariant Items() == done + items[i..]
        invariant Resume(cloud.View(), done, items[i..], ending, force) == all
        decreases |pendingUploads| - i
      {
        ending, done := UploadNext(i, cloud, force, done, items);
        i := i + 1;
      }
      ResumeEnds(cloud.View(), done, items[i..], ending, force);
    }

    /** One turn of that loop. */
    method UploadNext(i: nat, cloud: CloudStore, force: bool, ghost done: seq<U.Item>, ghost items: seq<U.Item>)
      returns (ending: U.Ending, ghost done1: seq<U.Item>)
      requires Valid() && i == |done| < |pendingUploads| == |items| && Items() == done + items[i..]
      modifies cloud, pendingUploads[i]
      ensures |done1| == i + 1 && Items() == done1 + items[i + 1..]
      ensures Resume(cloud.View(), done1, items[i + 1..], ending, force)
           == Resume(old(cloud.View()), done, items[i..], U.Done, force)
    {
      ghost var before := cloud.View();
      assert Items()[i] == items[i];
      ghost var item;
      ending, item := UploadAt(i, cloud, force);
      ResumeStep(before, done, items, i, force, cloud.View(), item, ending);
      ReplaceNext(done, items, i, item);
      done1 := done + [item];
    }

    /** Uploads one uploader; the items of the others stay as they are. */
    method UploadAt(i: nat, cloud: CloudStore, force: bool) returns (ending: U.Ending, ghost item: U.Item)
      requires Valid() && i < |pendingUploads|
      modifies cloud, pendingUploads[i]
      ensures (cloud.View(), item, ending) == U.Upload(old(cloud.View()), old(Items())[i], force)
      ensures Items() == old(Items())[i := item]
    {
      ghost var before := Items();
      assert pendingUploads[i].View() == before[i];
      ending := pendingUploads[i].Upload(cloud, force);
      item := pendingUploads[i].View();
      assert Items() == before[i := item];
    }

    /** Rolls back one uploader; the items of the others stay as they are. */
    method RollbackAt(i: nat, cloud: CloudStore) returns (ok: bool, ghost item: U.Item)
      requires Valid() && i < |pendingUploads|
      modifies cloud, pendingUploads[i]
      ensures (cloud.View(), item, ok) == U.Rollback(old(cloud.View()), old(Items())[i])
      ensures Items() == old(Items())[i := item]
    {
      ghost var before := Items();
      assert pendingUploads[i].View() == before[i];
      var changed;
      changed, ok := pendingUploads[i].Rollback(cloud);
      item := pendingUploads[i].View();
      assert Items() == before[i := item];
    }

    method RollbackPending(cloud: CloudStore) returns (ok: bool)
      requires Valid()
      modifies cloud, pendingUploads
      ensures (cloud.View(), Items(), ok) == U.RollbackAll(old(cloud.View()), old(Items()))
    {
      ghost var start := cloud.View();
      ghost var items := Items();
      ghost var done: seq<U.Item> := [];
      ok := true;
      var i := |pendingUploads|;
      assert items[i..] == [] && items == items[..i] + [];
      while i > 0 && ok
        invariant 0 <= i <= |pendingUploads|
        invariant Items() == items[..i] + done
        invariant U.RollbackAll(start, items[i..]) == (cloud.View(), done, ok)
        decreases i
      {
        i := i - 1;
        ghost var c := cloud.View();
        assert Items()[i] == items[i];
        ghost var item;
        ok, item := RollbackAt(i, cloud);
        RollbackStep(start, items, i, c, done, cloud.View(), item, ok);
        ReplaceLast(items, done, i, item);
        done := [item] + done;
      }
      RollbackEnds(start, items, i);
    }

    method ExecuteUpdateJobs(cloud: CloudStore, force: bool, writeWorks: bool) returns (r: Result)
      requires Valid()
      modifies `onDisk, `pendingUploads, cloud, pendingUploads
      ensures Valid()
      ensures (cloud.View(), View(), r) == Execute(old(cloud.View()), old(View()), force, writeWorks)
    {
      if !writable {
        return ReadWriteError;
      }
      if configData == onDisk {
        return NotDirty;
      }
      if pendingUploads == [] {
        assert Items() == [];
        return Updated;
      }
      var ending := UploadPending(cloud, force);
      if ending == U.Done && writeWorks {
        onDisk := configData;
        pendingUploads := [];
        assert Items() == [];
        return Updated;
      }
      var ok := RollbackPending(cloud);
      return if ok then UpdateFailed else RollbackFailed;
    }

    method AddCloudStorageDependencyUpdateJob(
        hash: U.Content -> Hash, job: Job, executeJob: bool, cloud: CloudStore, writeWorks: bool)
      returns (r: Result)
      requires Valid()
      modifies this, cloud, pendingUploads
      ensures Valid()
      ensures var (added, result) := AddJob(hash, old(View()), job, executeJob);
        if result == Added && executeJob
        then (cloud.View(), View(), r) == Execute(old(cloud.View()), added, false, writeWorks)
        else cloud.View() == old(cloud.View()) && (View(), r) == (added, result)
      ensures
        if MayAdd(old(View()), executeJob) && HasPlatform(old(configData), job.dependency, job.platform)
        then OnlyJobIsSet(hash, old(configData), configData, job)
        else configData == old(configData)
    {
      if !writable || (executeJob && configData != onDisk) {
        return ReadWriteError;
      }
      if !HasPlatform(configData, job.dependency, job.platform) {
        return ValueError;
      }
      ghost var items := Items();
      var d := configData[job.dependency];
      JobSetsOnlyItsFields(hash, configData, job);
      configData := ChangedData(hash, configData, job);
      if !Truthy(d.bucket) {
        assert Items() == items;
        return ValueError;
      }
      var remotePath := CloudStorageRemotePath(job.dependency, hash(job.content), d.baseFolder);
      var uploader := new CloudStorageUploader(d.bucket.value, remotePath, job.content);
      pendingUploads := pendingUploads + [uploader];
      assert Items() == items + [uploader.View()];
      r := Added;
      if executeJob {
        r := ExecuteUpdateJobs(cloud, false, writeWorks);
      }
    }
  }

  // ---------------------------------------------------------------------------------------------
  // One execution

  /** No execution changes the data; the file is written exactly by an update of something pending. */
  lemma {:induction false} ExecuteWrites(c: U.Cloud, s: Config, force: bool, writeWorks: bool)
    ensures var (c1, s1, r) := Execute(c, s, force, writeWorks);
      && s1.data == s.data && s1.writable == s.writable
      && (r == ReadWriteError <==> !s.writable)
      && (r == NotDirty <==> s.writable && s.data == s.onDisk)
      && (r == ReadWriteError || r == NotDirty || s.pending == [] ==> c1 == c && s1 == s)
      && (r == Updated && s.pending != [] ==> s1.onDisk == s.data && s1.pending == [])
      && (r != Updated ==> s1.onDisk == s.onDisk && SameJobs(s.pending, s1.pending))
  {
    var (c1, items, _) := U.UploadAll(c, s.pending, force);
    UploadKeepsJobs(c, s.pending, force);
    RollbackKeepsJobs(c1, items);
  }

  /**
   * With upload commands that work, executing something pending on a dirty config updates it exactly if the file
   * can be written and, without force, no location is taken or repeated.
   */
  lemma {:induction false} UpdatesIff(c: U.Cloud, s: Config, force: bool, writeWorks: bool)
    requires U.Reliable(c) && U.NoneBackedUp(s.pending) && s.writable && s.data != s.onDisk && s.pending != []
    ensures Execute(c, s, force, writeWorks).2 == Updated <==>
      && writeWorks
      && (!force ==> U.Distinct(s.pending) && forall i :: 0 <= i < |s.pending| ==> s.pending[i].at !in c.objects)
  {
    U.ReliableEnds(c, s.pending, force);
    if !force {
      U.PlainSucceedsIff(c, s.pending);
    }
  }

  /**
   * Without force, a failed execution whose rollback commands work leaves the config file as it was and
   * the cloud as it was, but for one object if an insert was torn.
   */
  lemma {:induction false} PlainFailureRestores(c: U.Cloud, s: Config, writeWorks: bool)
    requires U.AllFresh(s.pending) && U.Reliable(U.UploadAll(c, s.pending, false).0)
    requires Execute(c, s, false, writeWorks).2 !in {Updated, NotDirty, ReadWriteError}
    ensures var (c1, s1, r) := Execute(c, s, false, writeWorks);
      && r == UpdateFailed
      && s1.onDisk == s.onDisk && s1.data == s.data
      && U.OnlyTornAdded(c.objects, c1.objects, U.UploadAll(c, s.pending, false).2)
  {
    U.PlainUndo(c, s.pending);
  }

  /**
   * With force, each address but the harmed ones and a torn object has its old content. At distinct
   * locations only backup addresses are harmed.
   */
  lemma {:induction false} ForcedFailureRestores(c: U.Cloud, s: Config, writeWorks: bool)
    requires U.AllFresh(s.pending) && U.Reliable(U.UploadAll(c, s.pending, true).0)
    requires Execute(c, s, true, writeWorks).2 !in {Updated, NotDirty, ReadWriteError}
    ensures var (c1, s1, r) := Execute(c, s, true, writeWorks);
      && r == UpdateFailed
      && s1.onDisk == s.onDisk && s1.data == s.data
      && forall a :: a !in U.Harmed(s.pending) && U.UploadAll(c, s.pending, true).2 != U.TornInsert(a) ==>
           U.SameAt(c.objects, c1.objects, a)
    ensures U.Distinct(s.pending) ==> forall a :: a in U.Harmed(s.pending) ==> U.IsBackup(s.pending, a)
  {
    U.ForcedUndo(c, s.pending);
    var (c1, _, _) := Execute(c, s, true, writeWorks);
    var ending := U.UploadAll(c, s.pending, true).2;
    forall a | a !in U.Harmed(s.pending) && ending != U.TornInsert(a) ensures U.SameAt(c.objects, c1.objects, a) {
      assert U.RestoredAt(c.objects, c1.objects, s.pending, ending, a);
    }
    forall a | U.Distinct(s.pending) && a in U.Harmed(s.pending) ensures U.IsBackup(s.pending, a) {
      U.DistinctHarmsBackups(s.pending, a);
    }
  }

  /**
   * A dirty config that reports an update has nothing pending; its file has been written exactly when
   * something was pending. With nothing pending the code reports success and leaves the config dirty.
   */
  lemma {:induction false} UpdatedIsCleanIffPending(c: U.Cloud, s: Config, force: bool, writeWorks: bool)
    requires Execute(c, s, force, writeWorks).2 == Updated
    ensures var (c1, s1, _) := Execute(c, s, force, writeWorks);
      && s1.pending == []
      && (s1.data == s1.onDisk <==> s.pending != [])
      && (s.pending != [] ==> forall again :: Execute(c1, s1, force, again) == (c1, s1, NotDirty))
  {
  }

  /** A plain execution that went through changed no object that was there and put every job's file up. */
  lemma {:induction false} PlainUpdateOnlyAdds(c: U.Cloud, s: Config, writeWorks: bool)
    requires U.AllFresh(s.pending) && Execute(c, s, false, writeWorks).2 == Updated
    ensures var (c1, _, _) := Execute(c, s, false, writeWorks);
      && (forall a :: a in c.objects ==> a in c1.objects && c1.objects[a] == c.objects[a])
      && (forall a :: a in c1.objects ==> a in c.objects || U.IsLocation(s.pending, a))
      && (forall i :: 0 <= i < |s.pending| ==>
            s.pending[i].at in c1.objects && c1.objects[s.pending[i].at] == s.pending[i].content)
  {
    if s.pending != [] {
      U.PlainSuccess(c, s.pending);
    }
  }

  // ---------------------------------------------------------------------------------------------
  // Every run: the config file never names a missing object

  datatype Reference = Reference(at: U.Address, hash: Hash)

  /** The object that the config names for a dependency on a platform, if it names one. */
  function NamedObject(data: ConfigData, dependency: string, platform: string): Option<Reference> {
    if dependency in data && Truthy(data[dependency].bucket) && platform in data[dependency].fileInfo
       && CLOUD_STORAGE_HASH in data[dependency].fileInfo[platform]
    then
      var d := data[dependency];
      var h := d.fileInfo[platform][CLOUD_STORAGE_HASH];
      Some(Reference(U.Address(d.bucket.value, CloudStorageRemotePath(dependency, h, d.baseFolder)), h))
    else None
  }

  predicate Stored(hash: U.Content -> Hash, o: U.Objects, r: Reference) {
    r.at in o && hash(o[r.at]) == r.hash
  }

  predicate Promised(hash: U.Content -> Hash, items: seq<U.Item>, r: Reference) {
    exists i :: 0 <= i < |items| && items[i].at == r.at && hash(items[i].content) == r.hash
  }

  /** Every object the config names is in the cloud and has the hash it is named with. */
  ghost predicate Published(hash: U.Content -> Hash, o: U.Objects, data: ConfigData) {
    forall d, p :: NamedObject(data, d, p).Some? ==> Stored(hash, o, NamedObject(data, d, p).value)
  }

  ghost predicate Covered(hash: U.Content -> Hash, o: U.Objects, data: ConfigData, items: seq<U.Item>) {
    forall d, p :: NamedObject(data, d, p).Some? ==>
      Stored(hash, o, NamedObject(data, d, p).value) || Promised(hash, items, NamedObject(data, d, p).value)
  }

  /** What an uploader still claims to have put up is there, and the file on disk does not name it yet. */
  ghost predicate ClaimsHold(o: U.Objects, onDisk: ConfigData, items: seq<U.Item>) {
    && U.NoneBackedUp(items)
    && (forall i :: 0 <= i < |items| && items[i].updated ==>
          && items[i].at in o && o[items[i].at] == items[i].content
          && forall d, p :: NamedObject(onDisk, d, p).Some? ==> NamedObject(onDisk, d, p).value.at != items[i].at)
    && (forall i, j :: 0 <= i < j < |items| && items[i].updated && items[j].updated ==> items[i].at != items[j].at)
  }

  ghost predicate Inv(hash: U.Content -> Hash, o: U.Objects, onDisk: ConfigData, data: ConfigData, items: seq<U.Item>) {
    Published(hash, o, onDisk) && Covered(hash, o, data, items) && ClaimsHold(o, onDisk, items)
  }

  /** Changing only the flags of an item keeps what is promised. */
  lemma {:induction false} PromisesStay(hash: U.Content -> Hash, items: seq<U.Item>, k: nat, item: U.Item,
                                        r: Reference)
    requires k < |items| && item.at == items[k].at && item.content == items[k].content
    ensures Promised(hash, items, r) ==> Promised(hash, items[k := item], r)
  {
    if Promised(hash, items, r) {
      var i :| 0 <= i < |items| && items[i].at == r.at && hash(items[i].content) == r.hash;
      assert items[k := item][i].at == r.at && items[k := item][i].content == items[i].content;
    }
  }

  lemma {:induction false} UploadKeepsInv(hash: U.Content -> Hash, c: U.Cloud, onDisk: ConfigData, data: ConfigData,
                                          items: seq<U.Item>, k: nat)
    requires k < |items| && Inv(hash, c.objects, onDisk, data, items)
    ensures var (c1, item, _) := U.Upload(c, items[k], false);
      Inv(hash, c1.objects, onDisk, data, items[k := item])
  {
    var (c1, item, _) := U.Upload(c, items[k], false);
    U.PlainUpload(c, items[k]);
    forall d, p | NamedObject(data, d, p).Some?
      ensures Stored(hash, c1.objects, NamedObject(data, d, p).value)
              || Promised(hash, items[k := item], NamedObject(data, d, p).value)
    {
      PromisesStay(hash, items, k, item, NamedObject(data, d, p).value);
    }
    forall d, p | NamedObject(onDisk, d, p).Some?
      ensures Stored(hash, c1.objects, NamedObject(onDisk, d, p).value)
      ensures item.updated ==> NamedObject(onDisk, d, p).value.at != item.at
    {
      assert Stored(hash, c.objects, NamedObject(onDisk, d, p).value);
    }
  }

  lemma {:induction false} RollbackKeepsInv(hash: U.Content -> Hash, c: U.Cloud, onDisk: ConfigData, data: ConfigData,
                                            items: seq<U.Item>, k: nat)
    requires k < |items| && Inv(hash, c.objects, onDisk, data, items)
    ensures var (c1, item, _) := U.Rollback(c, items[k]);
      Inv(hash, c1.objects, onDisk, data, items[k := item])
  {
    var (c1, item, _) := U.Rollback(c, items[k]);
    forall d, p | NamedObject(data, d, p).Some?
      ensures Stored(hash, c1.objects, NamedObject(data, d, p).value)
              || Promised(hash, items[k := item], NamedObject(data, d, p).value)
    {
      var r := NamedObject(data, d, p).value;
      if Stored(hash, c.objects, r) && r.at == items[k].at && items[k].updated {
        assert Promised(hash, items, r);
      }
      PromisesStay(hash, items, k, item, r);
    }
    forall d, p | NamedObject(onDisk, d, p).Some?
      ensures Stored(hash, c1.objects, NamedObject(onDisk, d, p).value)
    {
      assert Stored(hash, c.objects, NamedObject(onDisk, d, p).value);
    }
  }

  lemma {:induction false} ReplaceInMiddle(items: seq<U.Item>, k: nat, item: U.Item, rest: seq<U.Item>)
    requires k < |items|
    ensures items[k..][0] == items[k] && items[k..][1..] == items[k + 1..] == items[k := item][k + 1..]
    ensures items[k := item][..k + 1] + rest == items[..k] + ([item] + rest)
  {
  }

  lemma {:induction false} UploadAllKeepsInv(hash: U.Content -> Hash, c: U.Cloud, onDisk: ConfigData,
                                             data: ConfigData, items: seq<U.Item>, k: nat)
    requires k <= |items| && Inv(hash, c.objects, onDisk, data, items)
    ensures var (c1, rest, _) := U.UploadAll(c, items[k..], false);
      Inv(hash, c1.objects, onDisk, data, items[..k] + rest)
    decreases |items| - k
  {
    if k == |items| {
      assert items[..k] + [] == items;
    } else {
      var (c1, item, ending) := U.Upload(c, items[k], false);
      UploadKeepsInv(hash, c, onDisk, data, items, k);
      if ending == U.Done {
        UploadAllKeepsInv(hash, c1, onDisk, data, items[k := item], k + 1);
        ReplaceInMiddle(items, k, item, U.UploadAll(c1, items[k + 1..], false).1);
      } else {
        ReplaceInMiddle(items, k, item, items[k + 1..]);
        assert items[k := item][..k + 1] + items[k := item][k + 1..] == items[k := item];
      }
    }
  }

  lemma {:induction false} RollbackAllKeepsInv(hash: U.Content -> Hash, c: U.Cloud, onDisk: ConfigData,
                                               data: ConfigData, items: seq<U.Item>, k: nat)
    requires k <= |items| && Inv(hash, c.objects, onDisk, data, items)
    ensures var (c1, rest, _) := U.RollbackAll(c, items[k..]);
      Inv(hash, c1.objects, onDisk, data, items[..k] + rest)
    decreases |items| - k
  {
    if k == |items| {
      assert items[..k] + [] == items;
    } else {
      RollbackAllKeepsInv(hash, c, onDisk, data, items, k + 1);
      var (c1, rest, ok) := U.RollbackAll(c, items[k + 1..]);
      ReplaceInMiddle(items, k, items[k], rest);
      assert items[k := items[k]] == items;
      if ok {
        RollbackKeepsInv(hash, c1, onDisk, data, items[..k + 1] + rest, k);
        ReplaceLast(items, rest, k, U.Rollback(c1, items[k]).1);
      }
    }
  }

  predicate Ends(path: string, end: string) {
    |end| <= |path| && path[|path| - |end|..] == end
  }

  predicate AddressesFit(hash: U.Content -> Hash, items: seq<U.Item>) {
    forall i :: 0 <= i < |items| ==> Ends(items[i].at.path, hash(items[i].content))
  }

  ghost predicate StateInv(hash: U.Content -> Hash, c: U.Cloud, s: Config) {
    && Published(hash, c.objects, s.onDisk)
    && Covered(hash, c.objects, s.data, s.pending)
    && (U.NoneBackedUp(s.pending) ==> ClaimsHold(c.objects, s.onDisk, s.pending))
    && AddressesFit(hash, s.pending)
  }

  /** A loop changes only the flags and the backup paths of its items. */
  predicate SameJobs(items: seq<U.Item>, items1: seq<U.Item>) {
    && |items| == |items1|
    && forall i :: 0 <= i < |items| ==> items[i].at == items1[i].at && items[i].content == items1[i].content
  }

  lemma {:induction false} UploadKeepsJobs(c: U.Cloud, items: seq<U.Item>, force: bool)
    ensures SameJobs(items, U.UploadAll(c, items, force).1)
    decreases |items|
  {
    if items != [] {
      var (c1, item, ending) := U.Upload(c, items[0], force);
      UploadKeepsJobs(c1, items[1..], force);
      assert forall i :: 0 < i < |items| ==> items[i] == items[1..][i - 1];
    }
  }

  lemma {:induction false} RollbackKeepsJobs(c: U.Cloud, items: seq<U.Item>)
    ensures var (_, items1, ok) := U.RollbackAll(c, items);
      SameJobs(items, items1) && (ok ==> forall i :: 0 <= i < |items1| ==> !items1[i].updated)
    decreases |items|
  {
    if items != [] {
      RollbackKeepsJobs(c, items[1..]);
      assert forall i :: 0 < i < |items| ==> items[i] == items[1..][i - 1];
    }
  }

  lemma {:induction false} SameJobsPromise(hash: U.Content -> Hash, items: seq<U.Item>, items1: seq<U.Item>,
                                           r: Reference)
    requires SameJobs(items, items1) && Promised(hash, items, r)
    ensures Promised(hash, items1, r)
  {
    var i :| 0 <= i < |items| && items[i].at == r.at && hash(items[i].content) == r.hash;
    assert items1[i].at == r.at && items1[i].content == items[i].content;
  }

  lemma {:induction false} PlainSuccessPublishes(hash: U.Content -> Hash, c: U.Cloud, s: Config)
    requires StateInv(hash, c, s) && U.NoneBackedUp(s.pending)
    requires U.UploadAll(c, s.pending, false).2 == U.Done
    ensures Published(hash, U.UploadAll(c, s.pending, false).0.objects, s.data)
  {
    U.PlainSuccess(c, s.pending);
    forall d, p | NamedObject(s.data, d, p).Some?
      ensures Stored(hash, U.UploadAll(c, s.pending, false).0.objects, NamedObject(s.data, d, p).value)
    {
      assert Stored(hash, c.objects, NamedObject(s.data, d, p).value)
             || Promised(hash, s.pending, NamedObject(s.data, d, p).value);
    }
  }

  lemma {:induction false} BothLoopsKeepInv(hash: U.Content -> Hash, c: U.Cloud, onDisk: ConfigData, data: ConfigData,
                                            items: seq<U.Item>)
    requires Inv(hash, c.objects, onDisk, data, items)
    ensures var (c1, items1, _) := U.UploadAll(c, items, false);
      var (c2, undone, _) := U.RollbackAll(c1, items1);
      Inv(hash, c2.objects, onDisk, data, undone) && SameJobs(items, undone)
  {
    var (c1, items1, _) := U.UploadAll(c, items, false);
    var undone := U.RollbackAll(c1, items1).1;
    UploadAllKeepsInv(hash, c, onDisk, data, items, 0);
    assert items[0..] == items && items[..0] + items1 == items1;
    RollbackAllKeepsInv(hash, c1, onDisk, data, items1, 0);
    assert items1[0..] == items1 && items1[..0] + undone == undone;
    UploadKeepsJobs(c, items, false);
    RollbackKeepsJobs(c1, items1);
  }

  lemma {:induction false} PlainFailureKeepsInv(hash: U.Content -> Hash, c: U.Cloud, s: Config)
    requires StateInv(hash, c, s) && U.NoneBackedUp(s.pending)
    ensures var (c1, items, _) := U.UploadAll(c, s.pending, false);
      var (c2, undone, _) := U.RollbackAll(c1, items);
      StateInv(hash, c2, s.(pending := undone)) && U.NoneBackedUp(undone)
  {
    BothLoopsKeepInv(hash, c, s.onDisk, s.data, s.pending);
  }

  lemma {:induction false} ExecuteKeepsInv(hash: U.Content -> Hash, c: U.Cloud, s: Config, writeWorks: bool)
    requires StateInv(hash, c, s) && U.NoneBackedUp(s.pending)
    ensures var (c1, s1, _) := Execute(c, s, false, writeWorks);
      StateInv(hash, c1, s1) && U.NoneBackedUp(s1.pending)
  {
    if s.writable && s.data != s.onDisk && s.pending != [] {
      if U.UploadAll(c, s.pending, false).2 == U.Done && writeWorks {
        PlainSuccessPublishes(hash, c, s);
      } else {
        PlainFailureKeepsInv(hash, c, s);
      }
    }
  }

  // ---------------------------------------------------------------------------------------------
  // With force

  /** Hashes have one length, and none ends as the path of a backup does. */
  ghost predicate WellHashed(hash: U.Content -> Hash) {
    && (forall x, y :: |hash(x)| == |hash(y)|)
    && forall x :: |hash(x)| >= 4 && !Ends(hash(x), "." + U.BACKUP_PATH_EXTENSION)
  }

  lemma {:induction false} HashedIsNoBackup(path: string, h: Hash, a: U.Address)
    requires Ends(path, h) && |h| >= 4 && !Ends(h, "." + U.BACKUP_PATH_EXTENSION)
    ensures path != U.Old(a).path
  {
    var ext := "." + U.BACKUP_PATH_EXTENSION;
    assert path[|path| - |h|..][|h| - 4..] == path[|path| - 4..];
    assert U.Old(a).path == a.path + ext;
    assert (a.path + ext)[|a.path|..] == ext;
  }

  lemma {:induction false} NamesEnd(data: ConfigData, d: string, p: string)
    requires NamedObject(data, d, p).Some?
    ensures var r := NamedObject(data, d, p).value; Ends(r.at.path, r.hash)
  {
    var dep := data[d];
    var h := dep.fileInfo[p][CLOUD_STORAGE_HASH];
    assert Ends(d + "_" + h, h);
    if Truthy(dep.baseFolder) {
      assert Ends((dep.baseFolder.value + "/") + (d + "_" + h), d + "_" + h);
      assert dep.baseFolder.value + "/" + (d + "_" + h) == dep.baseFolder.value + "/" + d + "_" + h;
    }
  }

  /** An object that is named for a content, stored or promised, is at no backup address, and agrees with the jobs. */
  lemma {:induction false} NamesKeepClear(hash: U.Content -> Hash, o: U.Objects, items: seq<U.Item>, r: Reference)
    requires WellHashed(hash) && AddressesFit(hash, items) && Ends(r.at.path, r.hash)
    requires Stored(hash, o, r) || Promised(hash, items, r)
    ensures !U.IsBackup(items, r.at)
    ensures forall i :: 0 <= i < |items| && items[i].at == r.at ==> hash(items[i].content) == r.hash
  {
    var x :| hash(x) == r.hash;
    forall i | 0 <= i < |items| ensures U.Old(items[i].at) != r.at {
      HashedIsNoBackup(r.at.path, r.hash, items[i].at);
    }
    forall i | 0 <= i < |items| && items[i].at == r.at ensures hash(items[i].content) == r.hash {
      assert |hash(items[i].content)| == |hash(x)|;
    }
  }

  lemma {:induction false} JobsKeepClear(hash: U.Content -> Hash, items: seq<U.Item>)
    requires WellHashed(hash) && AddressesFit(hash, items)
    ensures U.NoOverlap(items)
  {
    forall i, j | 0 <= i < |items| && 0 <= j < |items| ensures U.Old(items[j].at) != items[i].at {
      HashedIsNoBackup(items[i].at.path, hash(items[i].content), items[j].at);
    }
  }

  predicate MayForce(c: U.Cloud, s: Config) {
    U.AllFresh(s.pending) && U.Distinct(s.pending) && U.Reliable(U.UploadAll(c, s.pending, true).0)
  }

  lemma {:induction false} ForcedSuccessPublishes(hash: U.Content -> Hash, c: U.Cloud, s: Config)
    requires WellHashed(hash) && StateInv(hash, c, s) && MayForce(c, s)
    requires U.UploadAll(c, s.pending, true).2 == U.Done
    ensures Published(hash, U.UploadAll(c, s.pending, true).0.objects, s.data)
  {
    var after := U.UploadAll(c, s.pending, true).0.objects;
    JobsKeepClear(hash, s.pending);
    U.DistinctSuccess(c, s.pending);
    forall d, p | NamedObject(s.data, d, p).Some? ensures Stored(hash, after, NamedObject(s.data, d, p).value) {
      var r := NamedObject(s.data, d, p).value;
      NamesEnd(s.data, d, p);
      NamesKeepClear(hash, c.objects, s.pending, r);
      if i :| 0 <= i < |s.pending| && s.pending[i].at == r.at {
        assert after[r.at] == s.pending[i].content;
      } else {
        assert !U.IsLocation(s.pending, r.at) && U.SameAt(c.objects, after, r.at);
      }
    }
  }

  /** The cloud after a forced execution that failed and was rolled back. */
  lemma {:induction false} ForcedFailureKeeps(hash: U.Content -> Hash, c: U.Cloud, s: Config, r: Reference)
    requires WellHashed(hash) && MayForce(c, s) && AddressesFit(hash, s.pending)
    requires Ends(r.at.path, r.hash) && Stored(hash, c.objects, r)
    ensures var (c1, items, _) := U.UploadAll(c, s.pending, true);
      Stored(hash, U.RollbackAll(c1, items).0.objects, r)
  {
    var (c1, items, ending) := U.UploadAll(c, s.pending, true);
    U.ForcedUndo(c, s.pending);
    U.ForwardKeepsObjects(c, s.pending);
    NamesKeepClear(hash, c.objects, s.pending, r);
    if r.at in U.Harmed(s.pending) {
      U.DistinctHarmsBackups(s.pending, r.at);
    }
    assert U.RestoredAt(c.objects, U.RollbackAll(c1, items).0.objects, s.pending, ending, r.at);
  }

  lemma {:induction false} ForcedFailureKeepsInv(hash: U.Content -> Hash, c: U.Cloud, s: Config)
    requires WellHashed(hash) && StateInv(hash, c, s) && MayForce(c, s)
    ensures var (c1, items, _) := U.UploadAll(c, s.pending, true);
      var (c2, undone, ok) := U.RollbackAll(c1, items);
      ok && StateInv(hash, c2, s.(pending := undone))
  {
    var (c1, items, _) := U.UploadAll(c, s.pending, true);
    var (c2, undone, ok) := U.RollbackAll(c1, items);
    U.ForcedUndo(c, s.pending);
    UploadKeepsJobs(c, s.pending, true);
    RollbackKeepsJobs(c1, items);
    forall d, p | NamedObject(s.onDisk, d, p).Some?
      ensures Stored(hash, c2.objects, NamedObject(s.onDisk, d, p).value)
    {
      NamesEnd(s.onDisk, d, p);
      ForcedFailureKeeps(hash, c, s, NamedObject(s.onDisk, d, p).value);
    }
    forall d, p | NamedObject(s.data, d, p).Some?
      ensures Stored(hash, c2.objects, NamedObject(s.data, d, p).value)
              || Promised(hash, undone, NamedObject(s.data, d, p).value)
    {
      var r := NamedObject(s.data, d, p).value;
      NamesEnd(s.data, d, p);
      if Stored(hash, c.objects, r) {
        ForcedFailureKeeps(hash, c, s, r);
      } else {
        SameJobsPromise(hash, s.pending, undone, r);
      }
    }
  }

  lemma {:induction false} ForcedExecuteKeepsInv(hash: U.Content -> Hash, c: U.Cloud, s: Config, writeWorks: bool)
    requires WellHashed(hash) && StateInv(hash, c, s) && MayForce(c, s)
    ensures var (c1, s1, _) := Execute(c, s, true, writeWorks); StateInv(hash, c1, s1)
  {
    if s.writable && s.data != s.onDisk && s.pending != [] {
      if U.UploadAll(c, s.pending, true).2 == U.Done && writeWorks {
        ForcedSuccessPublishes(hash, c, s);
      } else {
        ForcedFailureKeepsInv(hash, c, s);
      }
    }
  }

  // ---------------------------------------------------------------------------------------------
  // Runs

  /** Adding a job changes one named object, the one its uploader will put up. */
  lemma {:induction false} ChangedNames(hash: U.Content -> Hash, data: ConfigData, job: Job, d: string, p: string)
    requires HasPlatform(data, job.dependency, job.platform)
    ensures NamedObject(ChangedData(hash, data, job), d, p) ==
      if d == job.dependency && p == job.platform
      then if Truthy(data[d].bucket)
           then Some(Reference(JobAddress(hash, data[d], job), hash(job.content)))
           else None
      else NamedObject(data, d, p)
  {
  }

  lemma {:induction false} JobAddressEnds(hash: U.Content -> Hash, d: Dependency, job: Job)
    requires d.bucket.Some?
    ensures Ends(JobAddress(hash, d, job).path, hash(job.content))
  {
    var h := hash(job.content);
    var file := job.dependency + "_" + h;
    assert Ends(file, h);
    if Truthy(d.baseFolder) {
      assert Ends((d.baseFolder.value + "/") + file, file);
    }
  }

  lemma {:induction false} FreshJobClaimsNothing(o: U.Objects, onDisk: ConfigData, items: seq<U.Item>, item: U.Item)
    requires item.Fresh() && (U.NoneBackedUp(items) ==> ClaimsHold(o, onDisk, items))
    ensures U.NoneBackedUp(items + [item]) ==> ClaimsHold(o, onDisk, items + [item])
    ensures U.NoneBackedUp(items) ==> U.NoneBackedUp(items + [item])
  {
    if U.NoneBackedUp(items + [item]) {
      assert forall i :: 0 <= i < |items| ==> (items + [item])[i] == items[i];
    }
  }

  lemma {:induction false} NewJobCovers(hash: U.Content -> Hash, o: U.Objects, data: ConfigData, items: seq<U.Item>,
                                        job: Job)
    requires Covered(hash, o, data, items) && HasPlatform(data, job.dependency, job.platform)
    requires Truthy(data[job.dependency].bucket)
    ensures Covered(hash, o, ChangedData(hash, data, job),
                    items + [FreshItem(JobAddress(hash, data[job.dependency], job), job.content)])
  {
    var data1 := ChangedData(hash, data, job);
    var items1 := items + [FreshItem(JobAddress(hash, data[job.dependency], job), job.content)];
    forall d, p | NamedObject(data1, d, p).Some?
      ensures Stored(hash, o, NamedObject(data1, d, p).value) || Promised(hash, items1, NamedObject(data1, d, p).value)
    {
      ChangedNames(hash, data, job, d, p);
      if d == job.dependency && p == job.platform {
        assert items1[|items|].content == job.content;
      } else if Promised(hash, items, NamedObject(data, d, p).value) {
        var r := NamedObject(data, d, p).value;
        var i :| 0 <= i < |items| && items[i].at == r.at && hash(items[i].content) == r.hash;
        assert items1[i] == items[i];
      }
    }
  }

  lemma {:induction false} NoBucketNamesNothing(hash: U.Content -> Hash, o: U.Objects, data: ConfigData,
                                                items: seq<U.Item>, job: Job)
    requires Covered(hash, o, data, items) && HasPlatform(data, job.dependency, job.platform)
    requires !Truthy(data[job.dependency].bucket)
    ensures Covered(hash, o, ChangedData(hash, data, job), items)
  {
    var data1 := ChangedData(hash, data, job);
    forall d, p | NamedObject(data1, d, p).Some?
      ensures Stored(hash, o, NamedObject(data1, d, p).value) || Promised(hash, items, NamedObject(data1, d, p).value)
    {
      ChangedNames(hash, data, job, d, p);
    }
  }

  lemma {:induction false} AddJobKeepsInv(hash: U.Content -> Hash, c: U.Cloud, s: Config, job: Job, executeJob: bool)
    requires StateInv(hash, c, s)
    ensures var s1 := AddJob(hash, s, job, executeJob).0;
      StateInv(hash, c, s1) && (U.NoneBackedUp(s.pending) ==> U.NoneBackedUp(s1.pending))
  {
    if HasPlatform(s.data, job.dependency, job.platform) {
      var d := s.data[job.dependency];
      if Truthy(d.bucket) {
        JobAddressEnds(hash, d, job);
        NewJobCovers(hash, c.objects, s.data, s.pending, job);
        FreshJobClaimsNothing(c.objects, s.onDisk, s.pending, FreshItem(JobAddress(hash, d, job), job.content));
      } else {
        NoBucketNamesNothing(hash, c.objects, s.data, s.pending, job);
      }
    }
  }

  datatype Operation =
    | Add(job: Job, executeJob: bool, writeWorks: bool)
    | ExecuteJobs(force: bool, writeWorks: bool)

  function Apply(hash: U.Content -> Hash, c: U.Cloud, s: Config, op: Operation): (U.Cloud, Config) {
    match op
    case Add(job, executeJob, writeWorks) =>
      var (added, result) := AddJob(hash, s, job, executeJob);
      if result == Added && executeJob then
        var (c1, s1, _) := Execute(c, added, false, writeWorks);
        (c1, s1)
      else (c, added)
    case ExecuteJobs(force, writeWorks) =>
      var (c1, s1, _) := Execute(c, s, force, writeWorks);
      (c1, s1)
  }

  function Run(hash: U.Content -> Hash, c: U.Cloud, s: Config, ops: seq<Operation>): (U.Cloud, Config)
    decreases |ops|
  {
    if ops == [] then (c, s)
    else
      var (c1, s1) := Apply(hash, c, s, ops[0]);
      Run(hash, c1, s1, ops[1..])
  }

  /** The state allows the operation, in that it may execute its jobs with or without force. */
  ghost predicate MayApply(hash: U.Content -> Hash, c: U.Cloud, s: Config, op: Operation) {
    match op
    case Add(_, executeJob, _) => executeJob ==> U.NoneBackedUp(s.pending)
    case ExecuteJobs(force, _) => if force then WellHashed(hash) && MayForce(c, s) else U.NoneBackedUp(s.pending)
  }

  ghost predicate MayRun(hash: U.Content -> Hash, c: U.Cloud, s: Config, ops: seq<Operation>)
    decreases |ops|
  {
    ops == [] ||
      (&& MayApply(hash, c, s, ops[0])
       && var (c1, s1) := Apply(hash, c, s, ops[0]);
          MayRun(hash, c1, s1, ops[1..]))
  }

  lemma {:induction false} ApplyKeepsInv(hash: U.Content -> Hash, c: U.Cloud, s: Config, op: Operation)
    requires StateInv(hash, c, s) && MayApply(hash, c, s, op)
    ensures var (c1, s1) := Apply(hash, c, s, op);
      && StateInv(hash, c1, s1)
      && (U.NoneBackedUp(s.pending) && !(op.ExecuteJobs? && op.force) ==> U.NoneBackedUp(s1.pending))
  {
    match op
    case Add(job, executeJob, writeWorks) =>
      AddJobKeepsInv(hash, c, s, job, executeJob);
      if executeJob {
        ExecuteKeepsInv(hash, c, AddJob(hash, s, job, executeJob).0, writeWorks);
      }
    case ExecuteJobs(force, writeWorks) =>
      if force {
        ForcedExecuteKeepsInv(hash, c, s, writeWorks);
      } else {
        ExecuteKeepsInv(hash, c, s, writeWorks);
      }
  }

  lemma {:induction false} RunKeepsInv(hash: U.Content -> Hash, c: U.Cloud, s: Config, ops: seq<Operation>)
    requires StateInv(hash, c, s) && MayRun(hash, c, s, ops)
    ensures var (c1, s1) := Run(hash, c, s, ops); StateInv(hash, c1, s1)
    decreases |ops|
  {
    if ops != [] {
      var (c1, s1) := Apply(hash, c, s, ops[0]);
      ApplyKeepsInv(hash, c, s, ops[0]);
      RunKeepsInv(hash, c1, s1, ops[1..]);
    }
  }

  predicate NoForce(ops: seq<Operation>) {
    forall i :: 0 <= i < |ops| ==> !(ops[i].ExecuteJobs? && ops[i].force)
  }

  lemma {:induction false} PlainMayRun(hash: U.Content -> Hash, c: U.Cloud, s: Config, ops: seq<Operation>)
    requires StateInv(hash, c, s) && U.NoneBackedUp(s.pending) && NoForce(ops)
    ensures MayRun(hash, c, s, ops)
    decreases |ops|
  {
    if ops != [] {
      var (c1, s1) := Apply(hash, c, s, ops[0]);
      ApplyKeepsInv(hash, c, s, ops[0]);
      PlainMayRun(hash, c1, s1, ops[1..]);
    }
  }

  /**
   * Whatever jobs are added and executed without force, and whatever commands raise, tear or fail while
   * rolling back: every object that the config file on disk names is in the cloud with its hash.
   */
  lemma {:induction false} FileNeverDangles(hash: U.Content -> Hash, c: U.Cloud, data: ConfigData,
                                            ops: seq<Operation>)
    requires Published(hash, c.objects, data) && NoForce(ops)
    ensures var (c1, s1) := Run(hash, c, Config(data, data, true, []), ops);
      Published(hash, c1.objects, s1.onDisk)
  {
    PlainMayRun(hash, c, Config(data, data, true, []), ops);
    RunKeepsInv(hash, c, Config(data, data, true, []), ops);
  }

  /**
   * The same with executions that are forced, for hashes of one length that no backup path ends with, if each
   * forced execution finds fresh jobs at distinct locations and its commands work once it rolls back, and no
   * plain one is asked to go on with a job that a forced one has backed up.
   */
  lemma {:induction false} ForcedFileNeverDangles(hash: U.Content -> Hash, c: U.Cloud, data: ConfigData,
                                                  ops: seq<Operation>)
    requires Published(hash, c.objects, data) && MayRun(hash, c, Config(data, data, true, []), ops)
    ensures var (c1, s1) := Run(hash, c, Config(data, data, true, []), ops);
      Published(hash, c1.objects, s1.onDisk)
  {
    RunKeepsInv(hash, c, Config(data, data, true, []), ops);
  }

  // ---------------------------------------------------------------------------------------------
  // Every run: when a config is left dirty with nothing pending

  /** A job for this dependency and platform changes the data and then finds no bucket. */
  predicate LacksBucket(data: ConfigData, d: string, p: string) {
    HasPlatform(data, d, p) && !Truthy(data[d].bucket)
  }

  predicate DirtyWithNothingPending(s: Config) {
    s.data != s.onDisk && s.pending == []
  }

  ghost predicate BucketsAreThere(data: ConfigData) {
    forall d, p :: !LacksBucket(data, d, p)
  }

  lemma {:induction false} AddLeavesDirtyIff(hash: U.Content -> Hash, s: Config, job: Job, executeJob: bool)
    requires s.writable && s.data == s.onDisk && s.pending == []
    ensures DirtyWithNothingPending(AddJob(hash, s, job, executeJob).0) <==>
      LacksBucket(s.data, job.dependency, job.platform) && ChangedData(hash, s.data, job) != s.data
  {
  }

  lemma {:induction false} ApplyKeepsBuckets(hash: U.Content -> Hash, c: U.Cloud, s: Config, op: Operation)
    requires BucketsAreThere(s.data) && !DirtyWithNothingPending(s)
    ensures var (_, s1) := Apply(hash, c, s, op); BucketsAreThere(s1.data) && !DirtyWithNothingPending(s1)
  {
    if op.Add? && s.writable && HasPlatform(s.data, op.job.dependency, op.job.platform) {
      var changed := ChangedData(hash, s.data, op.job);
      assert !LacksBucket(s.data, op.job.dependency, op.job.platform);
      forall d, p ensures !LacksBucket(changed, d, p) {
        assert !LacksBucket(s.data, d, p) && !LacksBucket(s.data, d, op.job.platform);
      }
    }
  }

  lemma {:induction false} RunKeepsBuckets(hash: U.Content -> Hash, c: U.Cloud, s: Config, ops: seq<Operation>)
    requires BucketsAreThere(s.data) && !DirtyWithNothingPending(s)
    ensures !DirtyWithNothingPending(Run(hash, c, s, ops).1)
    decreases |ops|
  {
    if ops != [] {
      var (c1, s1) := Apply(hash, c, s, ops[0]);
      ApplyKeepsBuckets(hash, c, s, ops[0]);
      RunKeepsBuckets(hash, c1, s1, ops[1..]);
    }
  }

  /** A job with a new version changes the data. */
  lemma {:induction false} VersionedJob(hash: U.Content -> Hash, data: ConfigData, d: string, p: string)
    returns (job: Job)
    requires HasPlatform(data, d, p)
    ensures job.dependency == d && job.platform == p && ChangedData(hash, data, job) != data
  {
    var fields := data[d].fileInfo[p];
    var version := if VERSION_IN_CS in fields && fields[VERSION_IN_CS] == "1" then "2" else "1";
    job := Job(d, p, "", Some(version));
    assert ChangedData(hash, data, job)[d].fileInfo[p][VERSION_IN_CS] == version;
  }

  /** After the run the config is dirty, and every execution reports an update and changes nothing. */
  ghost predicate EndsStuck(hash: U.Content -> Hash, c: U.Cloud, data: ConfigData, ops: seq<Operation>) {
    var (c1, s1) := Run(hash, c, Config(data, data, true, []), ops);
    s1.data != s1.onDisk && forall force, writeWorks :: Execute(c1, s1, force, writeWorks) == (c1, s1, Updated)
  }

  lemma {:induction false} StuckRun(hash: U.Content -> Hash, c: U.Cloud, data: ConfigData, d: string, p: string)
    returns (ops: seq<Operation>)
    requires LacksBucket(data, d, p)
    ensures EndsStuck(hash, c, data, ops)
  {
    var s := Config(data, data, true, []);
    var job := VersionedJob(hash, data, d, p);
    AddLeavesDirtyIff(hash, s, job, false);
    ops := [Add(job, false, true)];
    var (c1, s1) := Apply(hash, c, s, ops[0]);
    assert Run(hash, c1, s1, ops[1..]) == (c1, s1);
  }

  /** A config with something pending is clean after an execution that reports an update. */
  lemma {:induction false} PendingIsNotStuck(c: U.Cloud, s: Config)
    requires s.pending != []
    ensures Execute(c, s, false, false) != (c, s, Updated)
  {
  }

  /**
   * Some run from a clean config leaves it such that every execution reports an update and writes nothing,
   * exactly if the config has a platform without a bucket.
   */
  lemma {:induction false} UnwrittenUpdateIff(hash: U.Content -> Hash, c: U.Cloud, data: ConfigData)
    ensures (exists ops :: EndsStuck(hash, c, data, ops)) <==> exists d, p :: LacksBucket(data, d, p)
  {
    if d, p :| LacksBucket(data, d, p) {
      var ops := StuckRun(hash, c, data, d, p);
    } else {
      forall ops ensures !EndsStuck(hash, c, data, ops) {
        RunKeepsBuckets(hash, c, Config(data, data, true, []), ops);
        var (c1, s1) := Run(hash, c, Config(data, data, true, []), ops);
        if s1.pending != [] {
          PendingIsNotStuck(c1, s1);
        }
      }
    }
  }
}
