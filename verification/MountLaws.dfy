/**
 When a first mount or a repair succeeds, what it counts, which error it reports and what it
 leaves, told from the helper's answers alone.
 */
module MountLaws {
  import opened Wrappers
  import opened PodSelector
  import opened MountSpec
  import opened Mount
  import opened MountTheorems

  // ---------------------------------------------------------------- passes as folds

  type OneStep = (Dataset, Option<Entry>) -> (Option<Entry>, Outcome)

  function Fold(step: OneStep, t: Tally, dss: seq<Dataset>): Tally {
    if dss == [] then t
    else
      var ds, t' := dss[|dss| - 1], Fold(step, t, dss[..|dss| - 1]);
      Absorb(t', ds.folder, step(ds, Find(t'.dir, ds.folder)))
  }

  function FirstStep(s: Setting): OneStep {
    (ds, e) => FirstOne(s, ds, e)
  }

  function RepairStep(s: Setting, names: set<string>): OneStep {
    (ds: Dataset, e) => RepairOne(s, ds.folder in names, ds, e)
  }

  lemma {:induction false} FirstAllIsFold(s: Setting, t: Tally, dss: seq<Dataset>)
    ensures FirstAll(s, t, dss) == Fold(FirstStep(s), t, dss)
  {
    if dss == [] {
    } else {
      FirstAllIsFold(s, t, dss[..|dss| - 1]);
    }
  }

  lemma {:induction false} RepairAllIsFold(s: Setting, names: set<string>, t: Tally, dss: seq<Dataset>)
    ensures RepairAll(s, names, t, dss) == Fold(RepairStep(s, names), t, dss)
  {
    if dss == [] {
    } else {
      RepairAllIsFold(s, names, t, dss[..|dss| - 1]);
    }
  }

  lemma {:induction false} FoldFrame(step: OneStep, t: Tally, dss: seq<Dataset>, name: string)
    requires !HasFolder(dss, name)
    ensures Find(Fold(step, t, dss).dir, name) == Find(t.dir, name)
  {
    if dss == [] {
    } else {
      assert dss[|dss| - 1] in dss;
      assert forall ds :: ds in dss[..|dss| - 1] ==> ds in dss;
      FoldFrame(step, t, dss[..|dss| - 1], name);
    }
  }

  /** A dataset's own step, on the initial state of its folder. */
  function Own(step: OneStep, d: Dir, ds: Dataset): (Option<Entry>, Outcome) {
    step(ds, Find(d, ds.folder))
  }

  lemma LastOwn(step: OneStep, t: Tally, dss: seq<Dataset>)
    requires GoodFolders(dss) && dss != []
    ensures var front, last := dss[..|dss| - 1], dss[|dss| - 1];
            GoodFolders(front)
            && Fold(step, t, dss) == Absorb(Fold(step, t, front), last.folder, Own(step, t.dir, last))
  {
    GoodPrefix(dss);
    FoldFrame(step, t, dss[..|dss| - 1], dss[|dss| - 1].folder);
  }

  lemma {:induction false} FoldAt(step: OneStep, t: Tally, dss: seq<Dataset>, ds: Dataset)
    requires GoodFolders(dss) && ds in dss
    ensures Find(Fold(step, t, dss).dir, ds.folder) == Own(step, t.dir, ds).0
  {
    var front, last := dss[..|dss| - 1], dss[|dss| - 1];
    LastOwn(step, t, dss);
    GoodPrefix(dss);
    if ds != last {
      FoldAt(step, t, front, ds);
      assert HasFolder(front, ds.folder);
    }
  }

  /** The error is that of the last dataset that has one. */
  ghost predicate LastError(step: OneStep, d: Dir, dss: seq<Dataset>, error: Option<MountError>) {
    if error == None then forall ds :: ds in dss ==> !Own(step, d, ds).1.Errored?
    else exists i :: 0 <= i < |dss| && Own(step, d, dss[i]).1 == Errored(error.value)
                     && forall j :: i < j < |dss| ==> !Own(step, d, dss[j]).1.Errored?
  }

  lemma LastErrorNext(step: OneStep, d: Dir, front: seq<Dataset>, last: Dataset, error: Option<MountError>)
    requires LastError(step, d, front, error)
    ensures LastError(step, d, front + [last],
                      if Own(step, d, last).1.Errored? then Some(Own(step, d, last).1.error) else error)
  {
    var dss := front + [last];
    assert dss[|front|] == last;
    if !Own(step, d, last).1.Errored? && error.Some? {
      var i :| 0 <= i < |front| && Own(step, d, front[i]).1 == Errored(error.value)
               && forall j :: i < j < |front| ==> !Own(step, d, front[j]).1.Errored?;
      assert dss[i] == front[i];
    }
  }

  lemma {:induction false} FoldError(step: OneStep, d: Dir, dss: seq<Dataset>)
    requires GoodFolders(dss)
    ensures LastError(step, d, dss, Fold(step, Tally(d, 0, None), dss).error)
  {
    if dss == [] {
    } else {
      var front, last := dss[..|dss| - 1], dss[|dss| - 1];
      LastOwn(step, Tally(d, 0, None), dss);
      FoldError(step, d, front);
      LastErrorNext(step, d, front, last, Fold(step, Tally(d, 0, None), front).error);
      assert dss == front + [last];
    }
  }

  ghost function MountedBy(step: OneStep, d: Dir, dss: seq<Dataset>): set<Dataset> {
    set ds | ds in dss && Own(step, d, ds).1.Mounted?
  }

  lemma MountedByNext(step: OneStep, d: Dir, front: seq<Dataset>, last: Dataset)
    requires last !in front
    ensures |MountedBy(step, d, front + [last])|
            == |MountedBy(step, d, front)| + if Own(step, d, last).1.Mounted? then 1 else 0
  {
    var all, few := MountedBy(step, d, front + [last]), MountedBy(step, d, front);
    assert forall ds :: ds in front + [last] <==> ds in front || ds == last;
    if Own(step, d, last).1.Mounted? {
      assert all == few + {last};
    } else {
      assert all == few;
    }
  }

  lemma {:induction false} FoldCount(step: OneStep, d: Dir, dss: seq<Dataset>)
    requires GoodFolders(dss)
    ensures Fold(step, Tally(d, 0, None), dss).count == |MountedBy(step, d, dss)|
  {
    if dss == [] {
      assert MountedBy(step, d, dss) == {};
    } else {
      var front, last := dss[..|dss| - 1], dss[|dss| - 1];
      LastOwn(step, Tally(d, 0, None), dss);
      FoldCount(step, d, front);
      GoodPrefix(dss);
      assert last in front ==> HasFolder(front, last.folder);
      MountedByNext(step, d, front, last);
    }
  }

  // ---------------------------------------------------------------- the helper's answers

  /** The credential is in the file: the write is accepted and there is no file or a regular one. */
  predicate CredentialWritten(s: Setting, e: Option<Entry>) {
    s.helper.writes(s.path, e) == Written && (e == None || e.value.Plain?)
  }

  lemma WrittenExactly(s: Setting, e: Option<Entry>)
    ensures WritePassword(s, e).1 == None <==> CredentialWritten(s, e)
  {
  }

  /** The helper's word on a dataset whose folder is to be mounted from this state. */
  predicate Refuses(s: Setting, ds: Dataset, e: Option<Entry>, message: string) {
    if e == None && s.helper.makes(s.path, ds.folder).Some?
    then s.helper.makes(s.path, ds.folder) == Some(message)
    else s.helper.mounts(s.path, ds.folder, ds.bucket, if e == None then Empty else e.value).failure == Some(message)
  }

  predicate Accepts(s: Setting, ds: Dataset, e: Option<Entry>) {
    && (e == None ==> s.helper.makes(s.path, ds.folder) == None)
    && s.helper.mounts(s.path, ds.folder, ds.bucket, if e == None then Empty else e.value).failure == None
  }

  /** A repair mounts a folder from nothing: it was not there, or was not healthy and is cleaned away. */
  predicate DueInRepair(s: Setting, ds: Dataset, e: Option<Entry>) {
    e == None || (e != Some(Healthy) && s.helper.cleans(s.path, ds.folder, e.value) == Removed)
  }

  // ---------------------------------------------------------------- repair

  predicate ToMount(s: Setting, d: Dir, ds: Dataset) {
    Concerned(s, ds, d) && DueInRepair(s, ds, Find(d, ds.folder))
  }

  /** The errors one dataset gives rise to in a repair of directory d. */
  predicate RepairTrouble(s: Setting, d: Dir, ds: Dataset, error: MountError) {
    match error
    case BadSelector(folder) =>
      folder == ds.folder && !Concerned(s, ds, d) && Fails(s.syntax, s.lbls, ds.podSelectors)
    case HelperError(message) =>
      ToMount(s, d, ds) && Refuses(s, ds, None, message)
  }

  predicate RepairGood(s: Setting, d: Dir, ds: Dataset) {
    if Concerned(s, ds, d) then ToMount(s, d, ds) ==> Accepts(s, ds, None)
    else !Fails(s.syntax, s.lbls, ds.podSelectors)
  }

  predicate RepairMounts(s: Setting, d: Dir, ds: Dataset) {
    ToMount(s, d, ds) && Accepts(s, ds, None)
  }

  /** What a repair leaves of a dataset's folder. */
  function LeftByRepair(s: Setting, d: Dir, ds: Dataset): Option<Entry> {
    var e := Find(d, ds.folder);
    if !Concerned(s, ds, d) || e == Some(Healthy) then e
    else if !DueInRepair(s, ds, e) then Some(s.helper.cleans(s.path, ds.folder, e.value).left)
    else if s.helper.makes(s.path, ds.folder).Some? then None
    else Some(s.helper.mounts(s.path, ds.folder, ds.bucket, Empty).left)
  }

  lemma RepairOneMeans(s: Setting, d: Dir, left: Option<Entry>, ds: Dataset)
    requires ds.folder != PASSWD
    ensures var d1 := Put(d, PASSWD, left);
            var r := Own(RepairStep(s, Listing(s, d1)), d1, ds);
            && (r.1.Errored? <==> !RepairGood(s, d, ds))
            && (r.1.Errored? ==> RepairTrouble(s, d, ds, r.1.error))
            && (r.1.Mounted? <==> RepairMounts(s, d, ds))
            && r.0 == LeftByRepair(s, d, ds)
  {
    var d1 := Put(d, PASSWD, left);
    assert Find(d1, ds.folder) == Find(d, ds.folder);
    assert ds.folder in Listing(s, d1) <==> ds.folder in Listing(s, d);
  }

  /** A repair has no error exactly if there is nothing to repair, or the credential gets written
      and no dataset has a failing selector (unless its folder is listed) or needs a folder made
      or mounted that the helper refuses. */
  lemma RepairSucceedsExactly(s: Setting, dss: seq<Dataset>, paths: Paths)
    requires GoodFolders(dss)
    ensures RepairPass(s, dss, paths).error == None <==>
            (s.path !in paths || dss == []
             || (CredentialWritten(s, Find(paths[s.path], PASSWD))
                 && forall ds :: ds in dss ==> RepairGood(s, paths[s.path], ds)))
  {
    if s.path in paths && dss != [] {
      var d, left := paths[s.path], WritePassword(s, Find(paths[s.path], PASSWD)).0;
      var d1 := Put(d, PASSWD, left);
      var step := RepairStep(s, Listing(s, d1));
      WrittenExactly(s, Find(d, PASSWD));
      RepairAllIsFold(s, Listing(s, d1), Tally(d1, 0, None), dss);
      FoldError(step, d1, dss);
      forall ds | ds in dss ensures Own(step, d1, ds).1.Errored? <==> !RepairGood(s, d, ds) {
        RepairOneMeans(s, d, left, ds);
      }
    }
  }

  /** The error reported is that of the last dataset that has one. */
  lemma RepairReportsLast(s: Setting, dss: seq<Dataset>, paths: Paths)
    requires GoodFolders(dss) && s.path in paths && CredentialWritten(s, Find(paths[s.path], PASSWD))
    requires RepairPass(s, dss, paths).error.Some?
    ensures exists i :: 0 <= i < |dss|
                        && RepairTrouble(s, paths[s.path], dss[i], RepairPass(s, dss, paths).error.value)
                        && forall j :: i < j < |dss| ==> RepairGood(s, paths[s.path], dss[j])
  {
    var d, left := paths[s.path], WritePassword(s, Find(paths[s.path], PASSWD)).0;
    var d1 := Put(d, PASSWD, left);
    var step := RepairStep(s, Listing(s, d1));
    WrittenExactly(s, Find(d, PASSWD));
    RepairAllIsFold(s, Listing(s, d1), Tally(d1, 0, None), dss);
    FoldError(step, d1, dss);
    var error := RepairPass(s, dss, paths).error.value;
    var i :| 0 <= i < |dss| && Own(step, d1, dss[i]).1 == Errored(error)
             && forall j :: i < j < |dss| ==> !Own(step, d1, dss[j]).1.Errored?;
    RepairOneMeans(s, d, left, dss[i]);
    forall j | i < j < |dss| ensures RepairGood(s, d, dss[j]) {
      RepairOneMeans(s, d, left, dss[j]);
    }
  }

  /** The count is the number of datasets the repair acts on whose folder is missing, or unhealthy
      and cleaned away, and which the helper then mounts; without an error, it mounts all of them.
      Each folder is left as the helper's answers say. */
  lemma RepairCountsAndLeaves(s: Setting, dss: seq<Dataset>, paths: Paths)
    requires GoodFolders(dss) && s.path in paths && CredentialWritten(s, Find(paths[s.path], PASSWD))
    ensures RepairPass(s, dss, paths).count == |set ds | ds in dss && RepairMounts(s, paths[s.path], ds)|
    ensures RepairPass(s, dss, paths).error == None ==>
              RepairPass(s, dss, paths).count == |set ds | ds in dss && ToMount(s, paths[s.path], ds)|
    ensures forall ds :: ds in dss ==>
              Find(RepairPass(s, dss, paths).paths[s.path], ds.folder) == LeftByRepair(s, paths[s.path], ds)
  {
    RepairSucceedsExactly(s, dss, paths);
    if dss == [] {
      assert forall ds :: ds !in dss;
      assert (set ds | ds in dss && ToMount(s, paths[s.path], ds)) == {};
    } else {
      var d, left := paths[s.path], WritePassword(s, Find(paths[s.path], PASSWD)).0;
      var d1 := Put(d, PASSWD, left);
      var step := RepairStep(s, Listing(s, d1));
      WrittenExactly(s, Find(d, PASSWD));
      RepairAllIsFold(s, Listing(s, d1), Tally(d1, 0, None), dss);
      FoldCount(step, d1, dss);
      forall ds | ds in dss
        ensures Own(step, d1, ds).1.Mounted? <==> RepairMounts(s, d, ds)
        ensures Find(Fold(step, Tally(d1, 0, None), dss).dir, ds.folder) == LeftByRepair(s, d, ds)
      {
        RepairOneMeans(s, d, left, ds);
        FoldAt(step, Tally(d1, 0, None), dss, ds);
      }
      var mounted := set ds | ds in dss && RepairMounts(s, d, ds);
      assert MountedBy(step, d1, dss) == mounted;
      if RepairPass(s, dss, paths).error == None {
        assert mounted == set ds | ds in dss && ToMount(s, d, ds);
      }
    }
  }

  // ---------------------------------------------------------------- first mount

  predicate IsSelected(s: Setting, ds: Dataset) {
    Targets(s.syntax, s.lbls, ds.podSelectors)
  }

  predicate MountTrouble(s: Setting, d: Dir, ds: Dataset, error: MountError) {
    match error
    case BadSelector(folder) => folder == ds.folder && Fails(s.syntax, s.lbls, ds.podSelectors)
    case HelperError(message) => IsSelected(s, ds) && Refuses(s, ds, Find(d, ds.folder), message)
  }

  predicate MountGood(s: Setting, d: Dir, ds: Dataset) {
    if IsSelected(s, ds) then Accepts(s, ds, Find(d, ds.folder)) else !Fails(s.syntax, s.lbls, ds.podSelectors)
  }

  function LeftByMount(s: Setting, d: Dir, ds: Dataset): Option<Entry> {
    var e := Find(d, ds.folder);
    if !IsSelected(s, ds) || (e == None && s.helper.makes(s.path, ds.folder).Some?) then e
    else Some(s.helper.mounts(s.path, ds.folder, ds.bucket, if e == None then Empty else e.value).left)
  }

  lemma FirstOneMeans(s: Setting, d: Dir, left: Option<Entry>, ds: Dataset)
    requires ds.folder != PASSWD
    ensures var d1 := Put(d, PASSWD, left);
            var r := Own(FirstStep(s), d1, ds);
            && (r.1.Errored? <==> !MountGood(s, d, ds))
            && (r.1.Errored? ==> MountTrouble(s, d, ds, r.1.error))
            && (r.1.Mounted? <==> IsSelected(s, ds) && Accepts(s, ds, Find(d, ds.folder)))
            && r.0 == LeftByMount(s, d, ds)
  {
    assert Find(Put(d, PASSWD, left), ds.folder) == Find(d, ds.folder);
  }

  /** A first mount has no error exactly if there is nothing to mount, or the target path is there,
      the credential gets written, no dataset has a failing selector, and for every selected one
      the helper makes the folder, if it is missing, and mounts it. */
  lemma MountSucceedsExactly(s: Setting, dss: seq<Dataset>, paths: Paths)
    requires GoodFolders(dss)
    ensures MountPass(s, dss, paths).error == None <==>
            (dss == []
             || (s.path in paths && CredentialWritten(s, Find(paths[s.path], PASSWD))
                 && forall ds :: ds in dss ==> MountGood(s, paths[s.path], ds)))
  {
    if s.path in paths && dss != [] {
      var d, left := paths[s.path], WritePassword(s, Find(paths[s.path], PASSWD)).0;
      var d1 := Put(d, PASSWD, left);
      WrittenExactly(s, Find(d, PASSWD));
      FirstAllIsFold(s, Tally(d1, 0, None), dss);
      FoldError(FirstStep(s), d1, dss);
      forall ds | ds in dss ensures Own(FirstStep(s), d1, ds).1.Errored? <==> !MountGood(s, d, ds) {
        FirstOneMeans(s, d, left, ds);
      }
    }
  }

  lemma MountReportsLast(s: Setting, dss: seq<Dataset>, paths: Paths)
    requires GoodFolders(dss) && s.path in paths && CredentialWritten(s, Find(paths[s.path], PASSWD))
    requires MountPass(s, dss, paths).error.Some?
    ensures exists i :: 0 <= i < |dss|
                        && MountTrouble(s, paths[s.path], dss[i], MountPass(s, dss, paths).error.value)
                        && forall j :: i < j < |dss| ==> MountGood(s, paths[s.path], dss[j])
  {
    var d, left := paths[s.path], WritePassword(s, Find(paths[s.path], PASSWD)).0;
    var d1 := Put(d, PASSWD, left);
    WrittenExactly(s, Find(d, PASSWD));
    FirstAllIsFold(s, Tally(d1, 0, None), dss);
    FoldError(FirstStep(s), d1, dss);
    var error := MountPass(s, dss, paths).error.value;
    var i :| 0 <= i < |dss| && Own(FirstStep(s), d1, dss[i]).1 == Errored(error)
             && forall j :: i < j < |dss| ==> !Own(FirstStep(s), d1, dss[j]).1.Errored?;
    FirstOneMeans(s, d, left, dss[i]);
    forall j | i < j < |dss| ensures MountGood(s, d, dss[j]) {
      FirstOneMeans(s, d, left, dss[j]);
    }
  }

  /** The count is the number of selected datasets that the helper mounts; without an error, that
      is all of them. */
  lemma MountCountsAndLeaves(s: Setting, dss: seq<Dataset>, paths: Paths)
    requires GoodFolders(dss) && s.path in paths && CredentialWritten(s, Find(paths[s.path], PASSWD))
    ensures MountPass(s, dss, paths).count
            == |set ds | ds in dss && IsSelected(s, ds) && Accepts(s, ds, Find(paths[s.path], ds.folder))|
    ensures MountPass(s, dss, paths).error == None ==>
              MountPass(s, dss, paths).count == |set ds | ds in dss && IsSelected(s, ds)|
    ensures forall ds :: ds in dss ==>
              Find(MountPass(s, dss, paths).paths[s.path], ds.folder) == LeftByMount(s, paths[s.path], ds)
  {
    MountSucceedsExactly(s, dss, paths);
    if dss == [] {
      assert forall ds :: ds !in dss;
      assert (set ds | ds in dss && IsSelected(s, ds)) == {};
    } else {
      var d, left := paths[s.path], WritePassword(s, Find(paths[s.path], PASSWD)).0;
      var d1 := Put(d, PASSWD, left);
      WrittenExactly(s, Find(d, PASSWD));
      FirstAllIsFold(s, Tally(d1, 0, None), dss);
      FoldCount(FirstStep(s), d1, dss);
      forall ds | ds in dss
        ensures Own(FirstStep(s), d1, ds).1.Mounted? <==> IsSelected(s, ds) && Accepts(s, ds, Find(d, ds.folder))
        ensures Find(Fold(FirstStep(s), Tally(d1, 0, None), dss).dir, ds.folder) == LeftByMount(s, d, ds)
      {
        FirstOneMeans(s, d, left, ds);
        FoldAt(FirstStep(s), Tally(d1, 0, None), dss, ds);
      }
      var mounted := set ds | ds in dss && IsSelected(s, ds) && Accepts(s, ds, Find(d, ds.folder));
      assert MountedBy(FirstStep(s), d1, dss) == mounted;
      if MountPass(s, dss, paths).error == None {
        assert mounted == set ds | ds in dss && IsSelected(s, ds);
      }
    }
  }

  /** A pass that does not get the credential written mounts nothing and changes no other file. */
  lemma NothingWithoutCredential(s: Setting, dss: seq<Dataset>, paths: Paths)
    requires dss != [] && s.path in paths && !CredentialWritten(s, Find(paths[s.path], PASSWD))
    ensures MountPass(s, dss, paths) == RepairPass(s, dss, paths)
    ensures var m := MountPass(s, dss, paths);
            && m.error.Some? && m.error.value.HelperError? && m.count == 0 && m.paths.Keys == paths.Keys
            && (forall p :: p in paths && p != s.path ==> m.paths[p] == paths[p])
            && (forall n :: n != PASSWD ==> Find(m.paths[s.path], n) == Find(paths[s.path], n))
  {
    WrittenExactly(s, Find(paths[s.path], PASSWD));
  }

  // ---------------------------------------------------------------- the credential

  /** The two halves of a credential line. */
  function Split(line: string): (string, string) {
    if line == [] then ("", "")
    else if line[0] == ':' then ("", line[1..])
    else var (a, b) := Split(line[1..]); ([line[0]] + a, b)
  }

  lemma {:induction false} SplitJoined(a: string, b: string)
    requires ':' !in a
    ensures Split(a + ":" + b) == (a, b)
  {
    var line := a + ":" + b;
    if a == [] {
      assert line == [':'] + b && line[1..] == b;
    } else {
      assert line[0] == a[0] && line[0] != ':';
      assert [a[0]] + a[1..] == a;
      assert line[1..] == a[1..] + ":" + b;
      SplitJoined(a[1..], b);
    }
  }

  /** The line splits into the parts the mount program is to see: for a pull secret no key and the
      access key as the secret; else the access key, if it has no colon, and its secret. */
  lemma CredentialReadBack(c: Credential)
    ensures c.kind == "rhm-pull-secret" ==> Split(FormatCredential(c)) == ("", c.accessKey)
    ensures c.kind != "rhm-pull-secret" && ':' !in c.accessKey ==>
              Split(FormatCredential(c)) == (c.accessKey, c.accessSecret)
  {
    if c.kind == CREDENTIAL_DEFAULT {
      SplitJoined("", c.accessKey);
    } else if ':' !in c.accessKey {
      SplitJoined(c.accessKey, c.accessSecret);
    }
  }

  /** Unless an older, longer one is there, the password file holds a line that reads back as the
      credential the pass was called with. */
  lemma CredentialStored(host: Host, vmt: VolumeMountDetails, path: string)
    requires vmt.datasets != [] && !HasFolder(vmt.datasets, PASSWD) && path in host.paths
    requires CredentialWritten(host.SettingFor(vmt, path), Find(host.paths[path], PASSWD))
    requires Covers(FormatCredential(vmt.credential), Find(host.paths[path], PASSWD))
    ensures forall paths ::
              (paths == MountPass(host.SettingFor(vmt, path), vmt.datasets, host.paths).paths
               || paths == RepairPass(host.SettingFor(vmt, path), vmt.datasets, host.paths).paths) ==>
                && path in paths && Find(paths[path], PASSWD).Some? && Find(paths[path], PASSWD).value.Plain?
                && var c, line := vmt.credential, Find(paths[path], PASSWD).value.content;
                   if c.kind == "rhm-pull-secret" then Split(line) == ("", c.accessKey)
                   else ':' !in c.accessKey ==> Split(line) == (c.accessKey, c.accessSecret)
  {
    var s := host.SettingFor(vmt, path);
    WrittenExactly(s, Find(host.paths[path], PASSWD));
    StalePasswordTail(s, vmt.datasets, host.paths);
    CredentialReadBack(vmt.credential);
  }
}
