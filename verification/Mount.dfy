/** The node driver's mount code: the loops of mount.go over a node's file system. */
module Mount {
  import opened Wrappers
  import opened PodSelector
  import opened MountSpec

  datatype Credential = Credential(kind: string, accessKey: string, accessSecret: string)

  const CREDENTIAL_DEFAULT := "rhm-pull-secret"

  function FormatCredential(c: Credential): string {
    if c.kind == CREDENTIAL_DEFAULT then ":" + c.accessKey else c.accessKey + ":" + c.accessSecret
  }

  datatype VolumeMountDetails = VolumeMountDetails(credential: Credential, datasets: seq<Dataset>, pod: Pod?)

  datatype Stat = Present | NotExist | StatError

  function StatOf(e: Option<Entry>): Stat {
    if e == None then NotExist else if e.value.Broken? then StatError else Present
  }

  /** A listing: the number of files, or None when the call fails. */
  function ReadDirOf(e: Option<Entry>): Option<nat> {
    match e
    case Some(Empty) => Some(0)
    case Some(Healthy) => Some(1)
    case _ => None
  }

  ghost predicate SameElsewhere(a: Paths, b: Paths, path: string) {
    a.Keys == b.Keys && forall p :: p in a && p != path ==> a[p] == b[p]
  }

  lemma UpdateOne(a: Paths, b: Paths, path: string)
    requires SameElsewhere(a, b, path)
    ensures path in a ==> b == a[path := b[path]]
    ensures path !in a ==> b == a
  {
  }

  lemma NoCredentials(s: Setting, dss: seq<Dataset>, before: Paths, after: Paths)
    requires dss != [] && SameElsewhere(before, after, s.path)
    requires s.path in before ==> var (left, failure) := WritePassword(s, Find(before[s.path], PASSWD));
                                  failure.Some? && after[s.path] == Put(before[s.path], PASSWD, left)
    ensures s.path in before ==> var failure := WritePassword(s, Find(before[s.path], PASSWD)).1;
                                 MountPass(s, dss, before) == RepairPass(s, dss, before) == Pass(after, 0, failure)
    ensures s.path !in before ==> MountPass(s, dss, before) == Pass(after, 0, Some(HelperError("no such directory")))
  {
    UpdateOne(before, after, s.path);
  }

  lemma MountPassDone(s: Setting, dss: seq<Dataset>, before: Paths, after: Paths)
    requires dss != [] && s.path in before && SameElsewhere(before, after, s.path)
    requires WritePassword(s, Find(before[s.path], PASSWD)).1 == None
    ensures var d := Put(before[s.path], PASSWD, WritePassword(s, Find(before[s.path], PASSWD)).0);
            var t := FirstAll(s, Tally(d, 0, None), dss[..|dss|]);
            after[s.path] == t.dir ==> MountPass(s, dss, before) == Pass(after, t.count, t.error)
  {
    assert dss[..|dss|] == dss;
    UpdateOne(before, after, s.path);
  }

  lemma RepairPassDone(s: Setting, dss: seq<Dataset>, before: Paths, after: Paths)
    requires dss != [] && s.path in before && SameElsewhere(before, after, s.path)
    requires WritePassword(s, Find(before[s.path], PASSWD)).1 == None
    ensures var d := Put(before[s.path], PASSWD, WritePassword(s, Find(before[s.path], PASSWD)).0);
            var t := RepairAll(s, Listing(s, d), Tally(d, 0, None), dss[..|dss|]);
            after[s.path] == t.dir ==> RepairPass(s, dss, before) == Pass(after, t.count, t.error)
  {
    assert dss[..|dss|] == dss;
    UpdateOne(before, after, s.path);
  }

  lemma FirstAllNext(s: Setting, t: Tally, dss: seq<Dataset>, i: nat)
    requires i < |dss|
    ensures var now := FirstAll(s, t, dss[..i]);
            FirstAll(s, t, dss[..i + 1])
            == Absorb(now, dss[i].folder, FirstOne(s, dss[i], Find(now.dir, dss[i].folder)))
  {
    assert dss[..i + 1][..i] == dss[..i];
  }

  lemma RepairAllNext(s: Setting, names: set<string>, t: Tally, dss: seq<Dataset>, i: nat)
    requires i < |dss|
    ensures var now := RepairAll(s, names, t, dss[..i]);
            RepairAll(s, names, t, dss[..i + 1])
            == Absorb(now, dss[i].folder, RepairOne(s, dss[i].folder in names, dss[i], Find(now.dir, dss[i].folder)))
  {
    assert dss[..i + 1][..i] == dss[..i];
  }

  ghost function FirstNames(names: seq<string>, i: nat): set<string>
    requires i <= |names|
  {
    set n | n in names[..i]
  }

  lemma CleanedNext(h: Helper, path: string, d: Dir, names: seq<string>, i: nat)
    requires i < |names| && names[i] in d
    requires forall i, j :: 0 <= i < j < |names| ==> names[i] != names[j]
    ensures var now, next := Cleaned(h, path, d, FirstNames(names, i)), Cleaned(h, path, d, FirstNames(names, i + 1));
            && Find(now, names[i]) == Some(d[names[i]])
            && next == Put(now, names[i], match h.cleans(path, names[i], d[names[i]])
                                          case Removed => None
                                          case CleanFailed(left, _) => Some(left))
  {
    assert names[..i + 1] == names[..i] + [names[i]];
    assert names[i] !in names[..i];
    assert FirstNames(names, i + 1) == FirstNames(names, i) + {names[i]};
  }

  lemma PutTwice(d: Dir, name: string, e: Option<Entry>, e': Option<Entry>)
    ensures Put(d, name, Find(d, name)) == d
    ensures Find(Put(d, name, e), name) == e
    ensures Put(Put(d, name, e), name, e') == Put(d, name, e')
  {
  }

  /** One node: its file system below the target paths, and the helper that changes it. */
  class Host {
    const helper: Helper
    const syntax: Syntax
    var paths: Paths

    constructor (helper: Helper, syntax: Syntax, paths: Paths)
      ensures this.helper == helper && this.syntax == syntax && this.paths == paths
    {
      this.helper, this.syntax, this.paths := helper, syntax, paths;
    }

    function SettingFor(vmt: VolumeMountDetails, targetPath: string): Setting
      reads if vmt.pod == null then {} else {vmt.pod}
    {
      Setting(helper, syntax, ViewOf(vmt.pod), FormatCredential(vmt.credential), targetPath)
    }

    function At(path: string, name: string): Option<Entry>
      reads this
    {
      if path in paths then Find(paths[path], name) else None
    }

    // ------------------------------------------------------------ helper calls

    method CleanMountPoint(path: string, name: string) returns (err: Option<string>)
      requires path in paths
      modifies this
      ensures path in paths && SameElsewhere(old(paths), paths, path)
      ensures var e := old(At(path, name));
              if e == None then paths[path] == old(paths[path]) && err == None
              else match helper.cleans(path, name, e.value)
                   case Removed => paths[path] == Put(old(paths[path]), name, None) && err == None
                   case CleanFailed(left, message) =>
                     paths[path] == Put(old(paths[path]), name, Some(left)) && err == Some(message)
    {
      err := None;
      if name in paths[path] {
        match helper.cleans(path, name, paths[path][name])
        case Removed =>
          paths := paths[path := paths[path] - {name}];
        case CleanFailed(left, message) =>
          paths := paths[path := paths[path][name := left]];
          err := Some(message);
      }
    }

    method MkdirAll(path: string, name: string) returns (err: Option<string>)
      requires path in paths && name !in paths[path]
      modifies this
      ensures err == helper.makes(path, name)
      ensures path in paths && SameElsewhere(old(paths), paths, path)
      ensures paths[path] == if err == None then old(paths[path])[name := Empty] else old(paths[path])
    {
      err := helper.makes(path, name);
      if err == None {
        paths := paths[path := paths[path][name := Empty]];
      }
    }

    /** The mount command together with the wait for the mount point. */
    method MountBucket(path: string, ds: Dataset) returns (err: Option<string>)
      requires path in paths && ds.folder in paths[path]
      modifies this
      ensures path in paths && SameElsewhere(old(paths), paths, path)
      ensures var m := helper.mounts(path, ds.folder, ds.bucket, old(paths[path])[ds.folder]);
              err == m.failure && paths[path] == old(paths[path])[ds.folder := m.left]
    {
      var m := helper.mounts(path, ds.folder, ds.bucket, paths[path][ds.folder]);
      paths := paths[path := paths[path][ds.folder := m.left]];
      err := m.failure;
    }

    method WriteFile(s: Setting) returns (err: Option<MountError>)
      requires s.helper == helper
      modifies this
      ensures SameElsewhere(old(paths), paths, s.path)
      ensures if s.path !in old(paths) then err == Some(HelperError("no such directory"))
              else var (left, failure) := WritePassword(s, Find(old(paths[s.path]), PASSWD));
                   err == failure && paths[s.path] == Put(old(paths[s.path]), PASSWD, left)
    {
      if s.path !in paths {
        return Some(HelperError("no such directory"));
      }
      var (left, failure) := WritePassword(s, Find(paths[s.path], PASSWD));
      paths := paths[s.path := Put(paths[s.path], PASSWD, left)];
      return failure;
    }

    /** The names in a directory, in any order; none when it cannot be listed. */
    method GetDatasetDirectoryNames(path: string) returns (names: seq<string>)
      requires path in paths
      ensures forall n :: n in names <==> helper.lists(path) && n in paths[path]
      ensures forall i, j :: 0 <= i < j < |names| ==> names[i] != names[j]
    {
      names := [];
      if !helper.lists(path) {
        return;
      }
      var rest := paths[path].Keys;
      while rest != {}
        invariant rest <= paths[path].Keys
        invariant forall n :: n in names <==> n in paths[path].Keys - rest
        invariant forall i, j :: 0 <= i < j < |names| ==> names[i] != names[j]
        decreases |rest|
      {
        var n :| n in rest;
        assert n !in names;
        names := names + [n];
        rest := rest - {n};
      }
    }

    method GetMountedFolders(path: string) returns (folders: set<string>)
      requires path in paths
      ensures folders == if helper.lists(path) then paths[path].Keys else {}
    {
      var datasets := GetDatasetDirectoryNames(path);
      folders := {};
      for i := 0 to |datasets|
        invariant forall n :: n in folders <==> n in datasets[..i]
      {
        folders := folders + {datasets[i]};
      }
      assert datasets[..|datasets|] == datasets;
    }

    // ------------------------------------------------------------ one dataset

    method MountDatasetS3(ghost s: Setting, path: string, ds: Dataset) returns (err: Option<MountError>)
      requires s.helper == helper && s.path == path && path in paths
      modifies this
      ensures path in paths && SameElsewhere(old(paths), paths, path)
      ensures var (left, failure) := MountOne(s, ds, Find(old(paths[path]), ds.folder));
              err == failure && paths[path] == Put(old(paths[path]), ds.folder, left)
    {
      ghost var d := paths[path];
      PutTwice(d, ds.folder, None, None);
      if StatOf(At(path, ds.folder)) == NotExist {
        var failure := MkdirAll(path, ds.folder);
        if failure.Some? {
          return Some(HelperError(failure.value));
        }
      }
      var failure := MountBucket(path, ds);
      return if failure.Some? then Some(HelperError(failure.value)) else None;
    }

    method IsMountRequired(ghost s: Setting, path: string, ds: Dataset) returns (required: bool)
      requires s.helper == helper && s.path == path && path in paths
      modifies this
      ensures path in paths && SameElsewhere(old(paths), paths, path)
      ensures var (left, r) := HealthTest(s, ds, Find(old(paths[path]), ds.folder));
              required == r && paths[path] == Put(old(paths[path]), ds.folder, left)
    {
      var cleanUpNeeded := false;
      required := false;
      var stat := StatOf(At(path, ds.folder));
      if stat != Present {
        if stat != NotExist {
          cleanUpNeeded := true;
        }
        required := true;
      }
      if !required {
        var files := ReadDirOf(At(path, ds.folder));
        if files == None {
          required := true;
        } else {
          required := files.value == 0;
        }
        if required {
          cleanUpNeeded := true;
        }
      }
      if cleanUpNeeded {
        var err := CleanMountPoint(path, ds.folder);
        if err.Some? {
          return false;
        }
      }
      assert Put(old(paths)[path], ds.folder, Find(old(paths)[path], ds.folder)) == old(paths)[path];
    }

    // ------------------------------------------------------------ the three passes

    /** The body of the first-mount loop. */
    method MountDataset(ghost s: Setting, lbls: LabelSet, targetPath: string, ds: Dataset) returns (outcome: Outcome)
      requires s.helper == helper && s.syntax == syntax && s.lbls == lbls && s.path == targetPath && targetPath in paths
      modifies this
      ensures targetPath in paths && SameElsewhere(old(paths), paths, targetPath)
      ensures var (left, o) := FirstOne(s, ds, Find(old(paths[targetPath]), ds.folder));
              outcome == o && paths[targetPath] == Put(old(paths[targetPath]), ds.folder, left)
    {
      PutTwice(paths[targetPath], ds.folder, None, None);
      var ok, errs := PodMatches(syntax, lbls, ds.podSelectors);
      if |errs| > 0 {
        return Errored(BadSelector(ds.folder));
      }
      if !ok {
        return Skipped;
      }
      var err := MountDatasetS3(s, targetPath, ds);
      return if err.Some? then Errored(err.value) else Mounted;
    }

    /** The body of the repair loop. */
    method RepairDataset(ghost s: Setting, dsFolders: set<string>, lbls: LabelSet, targetPath: string, ds: Dataset)
      returns (outcome: Outcome)
      requires s.helper == helper && s.syntax == syntax && s.lbls == lbls && s.path == targetPath && targetPath in paths
      modifies this
      ensures targetPath in paths && SameElsewhere(old(paths), paths, targetPath)
      ensures var (left, o) := RepairOne(s, ds.folder in dsFolders, ds, Find(old(paths[targetPath]), ds.folder));
              outcome == o && paths[targetPath] == Put(old(paths[targetPath]), ds.folder, left)
    {
      ghost var e := Find(paths[targetPath], ds.folder);
      ghost var probed := HealthTest(s, ds, e).0;
      PutTwice(paths[targetPath], ds.folder, probed, MountOne(s, ds, probed).0);
      var processDataset := ds.folder in dsFolders;
      if !processDataset {
        var ok, errs := PodMatches(syntax, lbls, ds.podSelectors);
        if |errs| > 0 {
          return Errored(BadSelector(ds.folder));
        }
        processDataset := ok;
      }
      if !processDataset {
        return Skipped;
      }
      var required := IsMountRequired(s, targetPath, ds);
      if !required {
        return Skipped;
      }
      var err := MountDatasetS3(s, targetPath, ds);
      return if err.Some? then Errored(err.value) else Mounted;
    }

    method MountDatasets(vmt: VolumeMountDetails, targetPath: string)
      returns (count: nat, mountError: Option<MountError>)
      modifies this, if vmt.pod == null then {} else {vmt.pod}
      ensures Pass(paths, count, mountError) == MountPass(old(SettingFor(vmt, targetPath)), vmt.datasets, old(paths))
      ensures ViewOf(vmt.pod) == old(ViewOf(vmt.pod))
    {
      ghost var s, before := SettingFor(vmt, targetPath), paths;
      if |vmt.datasets| == 0 {
        return 0, None;
      }
      mountError := WriteFile(SettingFor(vmt, targetPath));
      if mountError.Some? {
        NoCredentials(s, vmt.datasets, before, paths);
        return 0, mountError;
      }
      count := 0;
      var lbls := GetPodLabels(vmt.pod);
      ghost var t0 := Tally(paths[targetPath], 0, None);
      for i := 0 to |vmt.datasets|
        invariant targetPath in paths && SameElsewhere(before, paths, targetPath) && ViewOf(vmt.pod) == lbls
        invariant Tally(paths[targetPath], count, mountError) == FirstAll(s, t0, vmt.datasets[..i])
      {
        var ds := vmt.datasets[i];
        FirstAllNext(s, t0, vmt.datasets, i);
        var outcome := MountDataset(s, lbls, targetPath, ds);
        if outcome.Errored? {
          mountError := Some(outcome.error);
          continue;
        }
        if outcome.Skipped? {
          continue;
        }
        count := count + 1;
      }
      MountPassDone(s, vmt.datasets, before, paths);
    }

    /** The repair loop. */
    method RepairEach(ghost s: Setting, dsFolders: set<string>, lbls: LabelSet, datasets: seq<Dataset>,
                      targetPath: string)
      returns (count: nat, mountError: Option<MountError>)
      requires s.helper == helper && s.syntax == syntax && s.lbls == lbls && s.path == targetPath && targetPath in paths
      modifies this
      ensures targetPath in paths && SameElsewhere(old(paths), paths, targetPath)
      ensures Tally(paths[targetPath], count, mountError)
              == RepairAll(s, dsFolders, Tally(old(paths[targetPath]), 0, None), datasets[..|datasets|])
    {
      count, mountError := 0, None;
      ghost var before, t0 := paths, Tally(paths[targetPath], 0, None);
      for i := 0 to |datasets|
        invariant targetPath in paths && SameElsewhere(before, paths, targetPath)
        invariant Tally(paths[targetPath], count, mountError) == RepairAll(s, dsFolders, t0, datasets[..i])
      {
        var ds := datasets[i];
        RepairAllNext(s, dsFolders, t0, datasets, i);
        var outcome := RepairDataset(s, dsFolders, lbls, targetPath, ds);
        if outcome.Errored? {
          mountError := Some(outcome.error);
          continue;
        }
        if outcome.Skipped? {
          continue;
        }
        count := count + 1;
      }
    }

    method ReconcileDatasets(vmt: VolumeMountDetails, targetPath: string)
      returns (count: nat, mountError: Option<MountError>)
      modifies this, if vmt.pod == null then {} else {vmt.pod}
      ensures Pass(paths, count, mountError) == RepairPass(old(SettingFor(vmt, targetPath)), vmt.datasets, old(paths))
      ensures ViewOf(vmt.pod) == old(ViewOf(vmt.pod))
    {
      ghost var s, before := SettingFor(vmt, targetPath), paths;
      if targetPath !in paths {
        return 0, None;
      }
      if |vmt.datasets| == 0 {
        return 0, None;
      }
      mountError := WriteFile(SettingFor(vmt, targetPath));
      if mountError.Some? {
        NoCredentials(s, vmt.datasets, before, paths);
        return 0, mountError;
      }
      var dsFolders := GetMountedFolders(targetPath);
      var lbls := GetPodLabels(vmt.pod);
      count, mountError := RepairEach(s, dsFolders, lbls, vmt.datasets, targetPath);
      RepairPassDone(s, vmt.datasets, before, paths);
    }

    method UnMountDatasets(targetPath: string)
      modifies this
      ensures paths == old(UnmountPass(helper, targetPath, paths))
    {
      if targetPath !in paths {
        return;
      }
      ghost var d0 := paths[targetPath];
      var datasets := GetDatasetDirectoryNames(targetPath);
      for i := 0 to |datasets|
        invariant targetPath in paths && SameElsewhere(old(paths), paths, targetPath)
        invariant paths[targetPath] == Cleaned(helper, targetPath, d0, FirstNames(datasets, i))
      {
        CleanedNext(helper, targetPath, d0, datasets, i);
        var err := CleanMountPoint(targetPath, datasets[i]);
      }
      assert datasets[..|datasets|] == datasets;
      assert FirstNames(datasets, |datasets|) == if helper.lists(targetPath) then d0.Keys else {};
      UpdateOne(old(paths), paths, targetPath);
      if paths[targetPath] == map[] && helper.cleansTarget(targetPath) {
        paths := paths - {targetPath};
      }
    }
  }
}
