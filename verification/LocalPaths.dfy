/**
 * Local paths of a dependency in priority groups (`LocalPathInfo`), their merging when several configs name
 * one dependency and platform (`DependencyInfo.Update`), and the fold over all configs
 * (`DependencyManager._UpdateDependencies`).
 */
module LocalPaths {
  import opened Wrappers

  type Path = string
  type Groups = seq<seq<Path>>

  /** The files that exist, with their modification times. */
  type Files = map<Path, int>

  // ---------------------------------------------------------------------------------------------
  // What a list of groups answers

  function Existing(group: seq<Path>, fs: Files): seq<Path> {
    if group == [] then []
    else
      var n := |group| - 1;
      Existing(group[..n], fs) + if group[n] in fs then [group[n]] else []
  }

  /** The first of the newest, as Python's `max` picks it. */
  function Newest(paths: seq<Path>, fs: Files): Path
    requires paths != [] && forall p :: p in paths ==> p in fs
    ensures Newest(paths, fs) in paths
    decreases |paths|
  {
    var n := |paths| - 1;
    if n == 0 then paths[0]
    else
      var best := Newest(paths[..n], fs);
      if fs[paths[n]] > fs[best] then paths[n] else best
  }

  /** No path of the list is newer, and none before it is as new. */
  predicate IsFirstNewest(paths: seq<Path>, fs: Files, i: nat)
    requires forall p :: p in paths ==> p in fs
  {
    && i < |paths|
    && (forall j :: 0 <= j < |paths| ==> fs[paths[j]] <= fs[paths[i]])
    && forall j :: 0 <= j < i ==> fs[paths[j]] < fs[paths[i]]
  }

  lemma {:induction false} NewestIsFirstNewest(paths: seq<Path>, fs: Files) returns (i: nat)
    requires paths != [] && forall p :: p in paths ==> p in fs
    ensures IsFirstNewest(paths, fs, i) && paths[i] == Newest(paths, fs)
    decreases |paths|
  {
    var n := |paths| - 1;
    if n == 0 {
      i := 0;
    } else {
      i := NewestIsFirstNewest(paths[..n], fs);
      assert forall j :: 0 <= j < n ==> paths[..n][j] == paths[j];
      if fs[paths[n]] > fs[paths[i]] {
        i := n;
      }
    }
  }

  lemma {:induction false} ExistingExist(group: seq<Path>, fs: Files)
    ensures forall p :: p in Existing(group, fs) <==> p in group && p in fs
  {
    if group != [] {
      var n := |group| - 1;
      assert group == group[..n] + [group[n]];
      ExistingExist(group[..n], fs);
    }
  }

  function LocalPath(groups: Groups, fs: Files): Option<Path>
    decreases |groups|
  {
    if groups == [] then None
    else
      ExistingExist(groups[0], fs);
      var here := Existing(groups[0], fs);
      if here == [] then LocalPath(groups[1..], fs) else Some(Newest(here, fs))
  }

  /** The path is that of a file, of which none in the group is newer, and none before it is as new. */
  predicate IsPick(group: seq<Path>, fs: Files, i: nat) {
    && i < |group| && group[i] in fs
    && forall j :: 0 <= j < |group| && group[j] in fs ==>
         fs[group[j]] <= fs[group[i]] && (j < i ==> fs[group[j]] < fs[group[i]])
  }

  lemma {:induction false} NewestOfMore(paths: seq<Path>, x: Path, fs: Files)
    requires paths != [] && x in fs && forall p :: p in paths ==> p in fs
    ensures Newest(paths + [x], fs) == if fs[x] > fs[Newest(paths, fs)] then x else Newest(paths, fs)
  {
    assert (paths + [x])[..|paths|] == paths;
  }

  lemma {:induction false} PickOfMore(group: seq<Path>, fs: Files, i: nat)
    requires group != [] && IsPick(group[..|group| - 1], fs, i)
    ensures var n := |group| - 1;
      IsPick(group, fs, if group[n] in fs && fs[group[n]] > fs[group[i]] then n else i)
  {
    var n := |group| - 1;
    assert forall j :: 0 <= j < n ==> group[..n][j] == group[j];
  }

  lemma {:induction false} FirstPick(group: seq<Path>, fs: Files)
    requires group != [] && group[|group| - 1] in fs && Existing(group[..|group| - 1], fs) == []
    ensures IsPick(group, fs, |group| - 1)
  {
    var n := |group| - 1;
    ExistingExist(group[..n], fs);
    assert forall j :: 0 <= j < n ==> group[..n][j] == group[j] && group[j] in group[..n];
  }

  lemma {:induction false} ExistingPick(group: seq<Path>, fs: Files) returns (i: nat)
    requires Existing(group, fs) != [] && forall p :: p in Existing(group, fs) ==> p in fs
    ensures IsPick(group, fs, i) && group[i] == Newest(Existing(group, fs), fs)
    decreases |group|
  {
    var n := |group| - 1;
    var before := Existing(group[..n], fs);
    if before == [] {
      FirstPick(group, fs);
      assert Existing(group, fs) == [group[n]];
      i := n;
    } else {
      i := ExistingPick(group[..n], fs);
      PickOfMore(group, fs, i);
      if group[n] in fs {
        assert Existing(group, fs) == before + [group[n]];
        NewestOfMore(before, group[n], fs);
        if fs[group[n]] > fs[group[i]] {
          i := n;
        }
      } else {
        assert Existing(group, fs) == before;
      }
    }
  }

  /** The answer is the pick of the first group in which a path exists. */
  lemma {:induction false} AnswerIsPick(groups: Groups, fs: Files) returns (k: nat, i: nat)
    requires LocalPath(groups, fs).Some?
    ensures k < |groups| && IsPick(groups[k], fs, i) && LocalPath(groups, fs) == Some(groups[k][i])
    ensures forall j, p :: 0 <= j < k && p in groups[j] ==> p !in fs
    decreases |groups|
  {
    ExistingExist(groups[0], fs);
    if Existing(groups[0], fs) == [] {
      k, i := AnswerIsPick(groups[1..], fs);
      k := k + 1;
      assert groups[1..][k - 1] == groups[k];
      forall j, p | 0 <= j < k && p in groups[j] ensures p !in fs {
        if j > 0 {
          assert p in groups[1..][j - 1];
        }
      }
    } else {
      i := ExistingPick(groups[0], fs);
      k := 0;
    }
  }

  predicate InGroups(groups: Groups, p: Path) {
    exists i :: 0 <= i < |groups| && p in groups[i]
  }

  // ---------------------------------------------------------------------------------------------
  // Merging

  /** The paths of a group that no group has yet. */
  function NewPaths(groups: Groups, group: seq<Path>): seq<Path> {
    if group == [] then []
    else
      var n := |group| - 1;
      NewPaths(groups, group[..n]) + if InGroups(groups, group[n]) then [] else [group[n]]
  }

  function Merge(groups: Groups, others: Groups): Groups
    decreases |others|
  {
    if others == [] then groups
    else
      var n := |others| - 1;
      var before := Merge(groups, others[..n]);
      var added := NewPaths(before, others[n]);
      if added == [] then before else before + [added]
  }

  lemma {:induction false} LocalPathJoins(a: Groups, b: Groups, fs: Files)
    ensures LocalPath(a + b, fs) == if LocalPath(a, fs).Some? then LocalPath(a, fs) else LocalPath(b, fs)
    decreases |a|
  {
    if a == [] {
      assert a + b == b;
    } else {
      assert (a + b)[0] == a[0] && (a + b)[1..] == a[1..] + b;
      LocalPathJoins(a[1..], b, fs);
    }
  }

  /** Nothing is found exactly when no path of any group exists. */
  lemma {:induction false} NoneIffNothingExists(groups: Groups, fs: Files)
    ensures LocalPath(groups, fs) == None <==> forall p :: InGroups(groups, p) ==> p !in fs
    decreases |groups|
  {
    if groups != [] {
      var rest := groups[1..];
      NoneIffNothingExists(rest, fs);
      ExistingExist(groups[0], fs);
      forall p ensures InGroups(groups, p) <==> p in groups[0] || InGroups(rest, p) {
        if i :| 0 < i < |groups| && p in groups[i] {
          assert p in rest[i - 1];
        }
        if i :| 0 <= i < |rest| && p in rest[i] {
          assert p in groups[i + 1];
        }
      }
    }
  }

  /** When no path of the earlier groups exists, leaving them out of a group changes nothing. */
  lemma {:induction false} OldPathsDoNotMatter(groups: Groups, group: seq<Path>, fs: Files)
    requires forall p :: InGroups(groups, p) ==> p !in fs
    ensures Existing(NewPaths(groups, group), fs) == Existing(group, fs)
    decreases |group|
  {
    if group != [] {
      var n := |group| - 1;
      var fewer := NewPaths(groups, group[..n]);
      OldPathsDoNotMatter(groups, group[..n], fs);
      if InGroups(groups, group[n]) {
        assert NewPaths(groups, group) == fewer;
      } else {
        assert NewPaths(groups, group) == fewer + [group[n]];
        assert (fewer + [group[n]])[..|fewer|] == fewer;
      }
    }
  }

  lemma {:induction false} OneGroup(group: seq<Path>, fs: Files)
    ensures LocalPath([group], fs) ==
      if Existing(group, fs) == [] then None else (ExistingExist(group, fs); Some(Newest(Existing(group, fs), fs)))
  {
    assert [group][1..] == [];
  }

  /** Merging groups with paths left out answers as the groups one after the other, in every file system. */
  lemma {:induction false} MergeAnswersAsConcat(groups: Groups, others: Groups, fs: Files)
    ensures LocalPath(Merge(groups, others), fs) == LocalPath(groups + others, fs)
    decreases |others|
  {
    if others == [] {
      assert groups + others == groups;
    } else {
      var n := |others| - 1;
      var before := Merge(groups, others[..n]);
      var added := NewPaths(before, others[n]);
      MergeAnswersAsConcat(groups, others[..n], fs);
      assert groups + others == (groups + others[..n]) + [others[n]];
      LocalPathJoins(groups + others[..n], [others[n]], fs);
      LocalPathJoins(before, [added], fs);
      if LocalPath(before, fs) == None {
        NoneIffNothingExists(before, fs);
        OldPathsDoNotMatter(before, others[n], fs);
        OneGroup(others[n], fs);
        OneGroup(added, fs);
      }
    }
  }

  lemma {:induction false} NothingNew(groups: Groups, group: seq<Path>)
    requires forall p :: p in group ==> InGroups(groups, p)
    ensures NewPaths(groups, group) == []
    decreases |group|
  {
    if group != [] {
      NothingNew(groups, group[..|group| - 1]);
    }
  }

  lemma {:induction false} NewPathsAre(groups: Groups, group: seq<Path>)
    ensures forall p :: p in NewPaths(groups, group) <==> p in group && !InGroups(groups, p)
    decreases |group|
  {
    if group != [] {
      var n := |group| - 1;
      NewPathsAre(groups, group[..n]);
      assert group == group[..n] + [group[n]];
    }
  }

  lemma {:induction false} OneMoreGroup(groups: Groups, group: seq<Path>, p: Path)
    ensures InGroups(groups + [group], p) <==> InGroups(groups, p) || p in group
  {
    var all := groups + [group];
    assert all[|groups|] == group;
    if i :| 0 <= i < |groups| && p in groups[i] {
      assert all[i] == groups[i];
    }
  }

  /** Merging keeps exactly the paths of both. */
  lemma {:induction false} MergeHasBoth(groups: Groups, others: Groups, p: Path)
    ensures InGroups(Merge(groups, others), p) <==> InGroups(groups, p) || InGroups(others, p)
    decreases |others|
  {
    if others != [] {
      var n := |others| - 1;
      var before := Merge(groups, others[..n]);
      MergeHasBoth(groups, others[..n], p);
      assert others == others[..n] + [others[n]];
      OneMoreGroup(others[..n], others[n], p);
      NewPathsAre(before, others[n]);
      OneMoreGroup(before, NewPaths(before, others[n]), p);
    }
  }

  /** Merging what is there already changes nothing. */
  lemma {:induction false} NothingToMerge(groups: Groups, others: Groups)
    requires forall p :: InGroups(others, p) ==> InGroups(groups, p)
    ensures Merge(groups, others) == groups
    decreases |others|
  {
    if others != [] {
      var n := |others| - 1;
      forall p | InGroups(others[..n], p) ensures InGroups(groups, p) {
        var i :| 0 <= i < n && p in others[..n][i];
        assert p in others[i];
      }
      NothingToMerge(groups, others[..n]);
      forall p | p in others[n] ensures InGroups(groups, p) {
        assert InGroups(others, p);
      }
      NothingNew(groups, others[n]);
    }
  }

  lemma {:induction false} MergingTwiceIsMergingOnce(groups: Groups, others: Groups)
    ensures Merge(Merge(groups, others), others) == Merge(groups, others)
  {
    forall p | InGroups(others, p) ensures InGroups(Merge(groups, others), p) {
      MergeHasBoth(groups, others, p);
    }
    NothingToMerge(Merge(groups, others), others);
  }

  // ---------------------------------------------------------------------------------------------
  // The object

  class LocalPathInfo {
    var pathPriorityGroups: Groups

    constructor (groups: Groups)
      ensures pathPriorityGroups == groups
    {
      pathPriorityGroups := groups;
    }

    method GetLocalPath(fs: Files) returns (path: Option<Path>)
      ensures path == LocalPath(pathPriorityGroups, fs)
    {
      for i := 0 to |pathPriorityGroups|
        invariant LocalPath(pathPriorityGroups, fs) == LocalPath(pathPriorityGroups[i..], fs)
      {
        var group := pathPriorityGroups[i];
        assert pathPriorityGroups[i..][0] == group && pathPriorityGroups[i..][1..] == pathPriorityGroups[i + 1..];
        var here := Existing(group, fs);
        if here != [] {
          ExistingExist(group, fs);
          return Some(Newest(here, fs));
        }
      }
      return None;
    }

    method Update(info: LocalPathInfo?)
      modifies this
      ensures pathPriorityGroups ==
        if info == null then old(pathPriorityGroups) else Merge(old(pathPriorityGroups), old(info.pathPriorityGroups))
    {
      if info == null {
        return;
      }
      var groups, others := pathPriorityGroups, info.pathPriorityGroups;
      assert others[..0] == [];
      for i := 0 to |others|
        invariant pathPriorityGroups == Merge(groups, others[..i])
      {
        assert others[..i + 1][..i] == others[..i];
        var list := NewOnes(others[i]);
        if list != [] {
          pathPriorityGroups := pathPriorityGroups + [list];
        }
      }
      assert others[..|others|] == others;
    }

    method NewOnes(group: seq<Path>) returns (list: seq<Path>)
      ensures list == NewPaths(pathPriorityGroups, group)
    {
      list := [];
      for j := 0 to |group|
        invariant list == NewPaths(pathPriorityGroups, group[..j])
      {
        assert group[..j + 1][..j] == group[..j];
        if !InGroups(pathPriorityGroups, group[j]) {
          list := list + [group[j]];
        }
      }
      assert group[..|group|] == group;
    }
  }

  // ---------------------------------------------------------------------------------------------
  // Dependencies

  datatype Key = Key(dependency: string, platform: string)

  datatype Info = Info(key: Key, configPaths: seq<string>, groups: Option<Groups>, cloud: Option<string>)
  {
    function Answer(fs: Files): Option<Path> {
      if groups.None? then None else LocalPath(groups.value, fs)
    }
  }

  /** The two ValueErrors of `DependencyInfo.Update`. */
  datatype Error = DifferentKey | CloudConflict

  /** The info after `DependencyInfo.Update`; when it raises, the config paths have been extended already. */
  function MergeInfo(a: Info, b: Info): (Info, Option<Error>) {
    var extended := a.(configPaths := a.configPaths + b.configPaths);
    if a.key != b.key then (extended, Some(DifferentKey))
    else if a.cloud.Some? && b.cloud.Some? then (extended, Some(CloudConflict))
    else
      var groups := if a.groups.None? then b.groups
                    else if b.groups.None? then a.groups
                    else Some(Merge(a.groups.value, b.groups.value));
      (extended.(groups := groups, cloud := if b.cloud.Some? then b.cloud else a.cloud), None)
  }

  class DependencyInfo {
    const key: Key
    var configPaths: seq<string>
    var localPathInfo: LocalPathInfo?
    var cloudStorageInfo: Option<string>

    constructor (key: Key, configPath: string, localPathInfo: LocalPathInfo?, cloudStorageInfo: Option<string>)
      ensures this.key == key && configPaths == [configPath]
      ensures this.localPathInfo == localPathInfo && this.cloudStorageInfo == cloudStorageInfo
    {
      this.key, configPaths := key, [configPath];
      this.localPathInfo, this.cloudStorageInfo := localPathInfo, cloudStorageInfo;
    }

    function Value(): Info
      reads this, localPathInfo
    {
      var groups := if localPathInfo == null then None else Some(localPathInfo.pathPriorityGroups);
      Info(key, configPaths, groups, cloudStorageInfo)
    }

    method Update(info: DependencyInfo) returns (error: Option<Error>)
      modifies this, localPathInfo
      ensures (Value(), error) == MergeInfo(old(Value()), old(info.Value()))
      ensures localPathInfo ==
        if error.None? && old(localPathInfo) == null then old(info.localPathInfo) else old(localPathInfo)
    {
      var other := info.localPathInfo;
      var cloud := info.cloudStorageInfo;
      configPaths := configPaths + info.configPaths;
      if key != info.key {
        return Some(DifferentKey);
      }
      if cloud.Some? {
        if cloudStorageInfo.Some? {
          return Some(CloudConflict);
        }
        cloudStorageInfo := cloud;
      }
      if localPathInfo == null {
        localPathInfo := other;
      } else {
        localPathInfo.Update(other);
      }
      return None;
    }
  }

  // ---------------------------------------------------------------------------------------------
  // The manager

  type Table = map<Key, Info>

  /** The table after the infos of some configs, up to the first that raises, and whether none raised. */
  function UpdateFrom(table: Table, infos: seq<Info>): (Table, bool) {
    if infos == [] then (table, true)
    else
      var n := |infos| - 1;
      var (before, ok) := UpdateFrom(table, infos[..n]);
      if ok then UpdateOne(before, infos[n]) else (before, false)
  }

  function UpdateOne(table: Table, info: Info): (Table, bool) {
    if info.key !in table then (table[info.key := info], true)
    else
      var (merged, error) := MergeInfo(table[info.key], info);
      (table[info.key := merged], error.None?)
  }

  lemma {:induction false} UpdateJoins(table: Table, a: seq<Info>, b: seq<Info>)
    ensures var (middle, ok) := UpdateFrom(table, a);
      UpdateFrom(table, a + b) == if ok then UpdateFrom(middle, b) else (middle, false)
    decreases |b|
  {
    if b == [] {
      assert a + b == a;
    } else {
      var n := |b| - 1;
      assert (a + b)[..|a| + n] == a + b[..n] && (a + b)[|a| + n] == b[n];
      UpdateJoins(table, a, b[..n]);
    }
  }

  /** What the configs say of one key, put one after the other. */
  function Said(infos: seq<Info>, key: Key): seq<Info> {
    if infos == [] then []
    else
      var n := |infos| - 1;
      Said(infos[..n], key) + if infos[n].key == key then [infos[n]] else []
  }

  function AllGroups(said: seq<Info>): Groups {
    if said == [] then []
    else
      var n := |said| - 1;
      AllGroups(said[..n]) + if said[n].groups.None? then [] else said[n].groups.value
  }

  function AllConfigPaths(said: seq<Info>): seq<string> {
    if said == [] then []
    else
      var n := |said| - 1;
      AllConfigPaths(said[..n]) + said[n].configPaths
  }

  function Clouds(said: seq<Info>): seq<string> {
    if said == [] then []
    else
      var n := |said| - 1;
      Clouds(said[..n]) + if said[n].cloud.Some? then [said[n].cloud.value] else []
  }

  /** An entry says what the configs say, with the paths of later configs after those of earlier ones. */
  ghost predicate Combines(info: Info, key: Key, said: seq<Info>) {
    && info.key == key
    && info.configPaths == AllConfigPaths(said)
    && Clouds(said) == (if info.cloud.None? then [] else [info.cloud.value])
    && forall fs :: info.Answer(fs) == LocalPath(AllGroups(said), fs)
  }

  lemma {:induction false} SaidOne(info: Info)
    ensures Combines(info, info.key, [info])
  {
    assert [info][..0] == [];
    assert AllConfigPaths([info]) == info.configPaths;
    assert AllGroups([info]) == if info.groups.None? then [] else info.groups.value;
  }

  lemma {:induction false} MergedAnswers(a: Info, said: seq<Info>, b: Info, fs: Files)
    requires a.Answer(fs) == LocalPath(AllGroups(said), fs) && MergeInfo(a, b).1.None?
    ensures MergeInfo(a, b).0.Answer(fs) == LocalPath(AllGroups(said + [b]), fs)
  {
    assert (said + [b])[..|said|] == said;
    var groups := if b.groups.None? then [] else b.groups.value;
    assert AllGroups(said + [b]) == AllGroups(said) + groups;
    LocalPathJoins(AllGroups(said), groups, fs);
    if a.groups.Some? && b.groups.Some? {
      MergeAnswersAsConcat(a.groups.value, groups, fs);
      LocalPathJoins(a.groups.value, groups, fs);
    }
  }

  lemma {:induction false} MergedCombines(a: Info, said: seq<Info>, b: Info)
    requires Combines(a, b.key, said)
    ensures var (merged, error) := MergeInfo(a, b);
      && (error.None? ==> Combines(merged, b.key, said + [b]))
      && (error.Some? ==> error == Some(CloudConflict)
                          && merged == a.(configPaths := AllConfigPaths(said + [b])))
      && (error.Some? <==> |Clouds(said + [b])| > 1)
  {
    assert (said + [b])[..|said|] == said;
    var (merged, error) := MergeInfo(a, b);
    if error.None? {
      forall fs ensures merged.Answer(fs) == LocalPath(AllGroups(said + [b]), fs) {
        MergedAnswers(a, said, b, fs);
      }
    }
  }

  /** Each entry of the table combines what the configs say of its key, and there is an entry for each key they name. */
  lemma {:induction false} TableCombines(infos: seq<Info>, key: Key)
    requires UpdateFrom(map[], infos).1
    ensures var table := UpdateFrom(map[], infos).0;
      && (key in table <==> Said(infos, key) != [])
      && (key in table ==> Combines(table[key], key, Said(infos, key)))
    decreases |infos|
  {
    if infos != [] {
      var n := |infos| - 1;
      TableCombines(infos[..n], key);
      var before, info := UpdateFrom(map[], infos[..n]).0, infos[n];
      if info.key != key {
        assert Said(infos, key) == Said(infos[..n], key);
      } else if key in before {
        MergedCombines(before[key], Said(infos[..n], key), info);
      } else {
        assert Said(infos, key) == [info];
        SaidOne(info);
      }
    }
  }

  predicate Conflict(infos: seq<Info>, key: Key) {
    |Clouds(Said(infos, key))| > 1
  }

  /** The configs are refused exactly when two of them give cloud storage data for one dependency and platform. */
  lemma {:induction false} RefusedIffConflict(infos: seq<Info>)
    ensures !UpdateFrom(map[], infos).1 <==> exists key :: Conflict(infos, key)
    decreases |infos|
  {
    if infos != [] {
      var n := |infos| - 1;
      RefusedIffConflict(infos[..n]);
      if !UpdateFrom(map[], infos[..n]).1 {
        var other :| Conflict(infos[..n], other);
        ConflictStays(infos, other);
      } else if !UpdateFrom(map[], infos).1 {
        RefusalIsConflict(infos);
      }
    }
    if UpdateFrom(map[], infos).1 {
      forall key ensures !Conflict(infos, key) {
        TableCombines(infos, key);
      }
    }
  }

  lemma {:induction false} ConflictStays(infos: seq<Info>, key: Key)
    requires infos != [] && Conflict(infos[..|infos| - 1], key)
    ensures Conflict(infos, key)
  {
    var said := Said(infos[..|infos| - 1], key);
    if infos[|infos| - 1].key == key {
      assert (said + [infos[|infos| - 1]])[..|said|] == said;
    } else {
      assert Said(infos, key) == said;
    }
  }

  /** The info at which the configs are refused: its keys agree, and only the config paths of the entry change. */
  lemma {:induction false} RefusalIsConflict(infos: seq<Info>)
    requires infos != [] && UpdateFrom(map[], infos[..|infos| - 1]).1 && !UpdateFrom(map[], infos).1
    ensures var n := |infos| - 1;
      var before, key := UpdateFrom(map[], infos[..n]).0, infos[n].key;
      && Conflict(infos, key)
      && key in before
      && UpdateFrom(map[], infos).0 ==
           before[key := before[key].(configPaths := AllConfigPaths(Said(infos, key)))]
  {
    var n := |infos| - 1;
    var key := infos[n].key;
    TableCombines(infos[..n], key);
    var before := UpdateFrom(map[], infos[..n]).0;
    MergedCombines(before[key], Said(infos[..n], key), infos[n]);
  }

  /** The infos of configs, one config after the other. */
  function Flat(configs: seq<seq<Info>>): seq<Info> {
    if configs == [] then [] else Flat(configs[..|configs| - 1]) + configs[|configs| - 1]
  }

  class DependencyManager {
    var lookup: Table

    constructor ()
      ensures lookup == map[]
    {
      lookup := map[];
    }

    method UpdateDependencies(infos: seq<Info>) returns (ok: bool)
      modifies this
      ensures (lookup, ok) == UpdateFrom(old(lookup), infos)
    {
      ghost var table := lookup;
      ok := true;
      for i := 0 to |infos|
        invariant ok && UpdateFrom(table, infos[..i]) == (lookup, ok)
      {
        assert infos[..i + 1][..i] == infos[..i];
        var info := infos[i];
        if info.key !in lookup {
          lookup := lookup[info.key := info];
        } else {
          var (merged, error) := MergeInfo(lookup[info.key], info);
          lookup := lookup[info.key := merged];
          if error.Some? {
            UpdateJoins(table, infos[..i + 1], infos[i + 1..]);
            assert infos[..i + 1] + infos[i + 1..] == infos;
            return false;
          }
        }
      }
      assert infos[..|infos|] == infos;
    }

    /** The loop of the manager's constructor over the configs, which the first exception leaves. */
    method UpdateConfigs(configs: seq<seq<Info>>) returns (ok: bool)
      modifies this
      ensures (lookup, ok) == UpdateFrom(old(lookup), Flat(configs))
    {
      ghost var table := lookup;
      ok := true;
      assert configs[..0] == [];
      for i := 0 to |configs|
        invariant ok && UpdateFrom(table, Flat(configs[..i])) == (lookup, ok)
      {
        assert configs[..i + 1][..i] == configs[..i];
        UpdateJoins(table, Flat(configs[..i]), configs[i]);
        ok := UpdateDependencies(configs[i]);
        if !ok {
          FlatJoins(configs, i + 1);
          UpdateJoins(table, Flat(configs[..i + 1]), Flat(configs[i + 1..]));
          return;
        }
      }
      assert configs[..|configs|] == configs;
    }
  }

  lemma {:induction false} FlatJoins(configs: seq<seq<Info>>, i: nat)
    requires i <= |configs|
    ensures Flat(configs) == Flat(configs[..i]) + Flat(configs[i..])
    decreases |configs|
  {
    if i == |configs| {
      assert configs[..i] == configs;
    } else {
      var n := |configs| - 1;
      assert configs[..n][..i] == configs[..i] && configs[..n][i..] == configs[i..][..n - i];
      assert configs[i..][n - i] == configs[n];
      FlatJoins(configs[..n], i);
    }
  }
}
