/** What the mount, repair and unmount passes guarantee, for every helper behaviour. */
module MountTheorems {
  import opened Wrappers
  import opened PodSelector
  import opened MountSpec

  // ---------------------------------------------------------------- the password file

  lemma OverwriteTwice(old': string, content: string)
    ensures Overwrite(Overwrite(old', content), content) == Overwrite(old', content)
  {
    if |content| < |old'| {
      assert (content + old'[|content|..])[|content|..] == old'[|content|..];
    }
  }

  /** The write call has the same outcome on the file it has just left behind. */
  ghost predicate SteadyWrites(s: Setting, e: Option<Entry>) {
    s.helper.writes(s.path, WritePassword(s, e).0) == s.helper.writes(s.path, e)
  }

  lemma SecondWriteChangesNothing(s: Setting, e: Option<Entry>)
    requires SteadyWrites(s, e)
    ensures WritePassword(s, WritePassword(s, e).0) == WritePassword(s, e)
  {
    if e.Some? && e.value.Plain? {
      OverwriteTwice(e.value.content, s.password);
    }
  }

  lemma OverwriteExact(old': string, content: string)
    ensures Overwrite(old', content) == content <==> |old'| <= |content|
  {
    if |content| < |old'| { assert |Overwrite(old', content)| == |old'|; }
  }

  lemma {:induction false} FirstAllFrame(s: Setting, t: Tally, dss: seq<Dataset>, name: string)
    requires !HasFolder(dss, name)
    ensures Find(FirstAll(s, t, dss).dir, name) == Find(t.dir, name)
  {
    if dss == [] {
    } else {
      assert dss[|dss| - 1] in dss;
      assert forall ds :: ds in dss[..|dss| - 1] ==> ds in dss;
      FirstAllFrame(s, t, dss[..|dss| - 1], name);
    }
  }

  /** The password file holds at most as much as the credential to be written. */
  predicate Covers(password: string, e: Option<Entry>) {
    e.Some? && e.value.Plain? ==> |e.value.content| <= |password|
  }

  /** A shorter credential does not replace a longer one: after a first mount or a repair that got
      its credential written, the password file is the credential exactly if there was none
      before or it was not longer; otherwise the old tail stays. */
  lemma StalePasswordTail(s: Setting, dss: seq<Dataset>, paths: Paths)
    requires dss != [] && !HasFolder(dss, PASSWD) && s.path in paths
    requires WritePassword(s, Find(paths[s.path], PASSWD)).1 == None
    ensures Find(MountPass(s, dss, paths).paths[s.path], PASSWD) == Some(Plain(s.password)) <==>
            Covers(s.password, Find(paths[s.path], PASSWD))
    ensures Find(RepairPass(s, dss, paths).paths[s.path], PASSWD) == Some(Plain(s.password)) <==>
            Covers(s.password, Find(paths[s.path], PASSWD))
  {
    var e := Find(paths[s.path], PASSWD);
    var d := Put(paths[s.path], PASSWD, WritePassword(s, e).0);
    FirstAllFrame(s, Tally(d, 0, None), dss, PASSWD);
    RepairAllFrame(s, Listing(s, d), Tally(d, 0, None), dss, PASSWD);
    if e.Some? && e.value.Plain? {
      OverwriteExact(e.value.content, s.password);
    }
  }

  // ---------------------------------------------------------------- decomposition

  lemma {:induction false} RepairAllAppend(s: Setting, names: set<string>, t: Tally, a: seq<Dataset>, b: seq<Dataset>)
    ensures RepairAll(s, names, t, a + b) == RepairAll(s, names, RepairAll(s, names, t, a), b)
  {
    if b == [] {
      assert a + b == a;
    } else {
      assert (a + b)[..|a + b| - 1] == a + b[..|b| - 1];
      RepairAllAppend(s, names, t, a, b[..|b| - 1]);
    }
  }

  ghost predicate AgreeOn(names: set<string>, names': set<string>, dss: seq<Dataset>) {
    forall ds :: ds in dss ==> (ds.folder in names <==> ds.folder in names')
  }

  /** Starting from a running count and error only adds to them. */
  lemma {:induction false} RepairAllOffset(s: Setting, names: set<string>, names': set<string>, t: Tally,
                                           dss: seq<Dataset>)
    requires AgreeOn(names, names', dss)
    ensures var r := RepairAll(s, names', Tally(t.dir, 0, None), dss);
            RepairAll(s, names, t, dss) == Tally(r.dir, t.count + r.count, if r.error.Some? then r.error else t.error)
  {
    if dss == [] {
    } else {
      assert dss[|dss| - 1] in dss;
      assert AgreeOn(names, names', dss[..|dss| - 1]);
      RepairAllOffset(s, names, names', t, dss[..|dss| - 1]);
    }
  }

  lemma FoldersApart(a: seq<Dataset>, b: seq<Dataset>)
    requires GoodFolders(a + b)
    ensures GoodFolders(a) && GoodFolders(b)
    ensures forall ds :: ds in b ==> !HasFolder(a, ds.folder)
    ensures !HasFolder(a, PASSWD) && !HasFolder(b, PASSWD)
  {
    forall i, j | 0 <= i < |a| && 0 <= j < |b| ensures a[i].folder != b[j].folder {
      assert (a + b)[i] == a[i] && (a + b)[|a| + j] == b[j];
    }
    forall i, j | 0 <= i < j < |a| ensures a[i].folder != a[j].folder {
      assert (a + b)[i] == a[i] && (a + b)[j] == a[j];
    }
    forall i, j | 0 <= i < j < |b| ensures b[i].folder != b[j].folder {
      assert (a + b)[|a| + i] == b[i] && (a + b)[|a| + j] == b[j];
    }
    assert forall ds :: ds in a || ds in b ==> ds in a + b;
  }

  /** The first half neither touches the password file nor any folder of the second. */
  lemma SecondListing(s: Setting, d: Dir, a: seq<Dataset>, b: seq<Dataset>, left: Option<Entry>)
    requires Find(d, PASSWD) == left && !HasFolder(a, PASSWD)
    requires forall ds :: ds in b ==> !HasFolder(a, ds.folder)
    ensures var d1 := RepairAll(s, Listing(s, d), Tally(d, 0, None), a).dir;
            && Find(d1, PASSWD) == left && Put(d1, PASSWD, left) == d1
            && AgreeOn(Listing(s, d), Listing(s, d1), b)
  {
    var d1 := RepairAll(s, Listing(s, d), Tally(d, 0, None), a).dir;
    RepairAllFrame(s, Listing(s, d), Tally(d, 0, None), a, PASSWD);
    DirsEqual(Put(d1, PASSWD, left), d1);
    forall ds | ds in b ensures ds.folder in Listing(s, d) <==> ds.folder in Listing(s, d1) {
      RepairAllFrame(s, Listing(s, d), Tally(d, 0, None), a, ds.folder);
    }
  }

  lemma BothHalves(s: Setting, a: seq<Dataset>, b: seq<Dataset>, paths: Paths)
    requires GoodFolders(a + b) && a != [] && b != []
    requires s.path in paths
    requires WritePassword(s, Find(paths[s.path], PASSWD)).1 == None
    requires var left := WritePassword(s, Find(paths[s.path], PASSWD)).0; WritePassword(s, left) == (left, None)
    ensures var r, r1 := RepairPass(s, a + b, paths), RepairPass(s, a, paths);
            var r2 := RepairPass(s, b, r1.paths);
            && r.paths == r2.paths && r.count == r1.count + r2.count
            && r.error == if r2.error.Some? then r2.error else r1.error
  {
    var left := WritePassword(s, Find(paths[s.path], PASSWD)).0;
    var d := Put(paths[s.path], PASSWD, left);
    var names, t := Listing(s, d), Tally(d, 0, None);
    var t1 := RepairAll(s, names, t, a);
    assert RepairPass(s, a, paths) == Pass(paths[s.path := t1.dir], t1.count, t1.error);
    FoldersApart(a, b);
    SecondListing(s, d, a, b, left);
    var t2 := RepairAll(s, Listing(s, t1.dir), Tally(t1.dir, 0, None), b);
    assert RepairPass(s, b, paths[s.path := t1.dir])
        == Pass(paths[s.path := t1.dir][s.path := t2.dir], t2.count, t2.error);
    assert paths[s.path := t1.dir][s.path := t2.dir] == paths[s.path := t2.dir];
    RepairAllAppend(s, names, t, a, b);
    RepairAllOffset(s, names, Listing(s, t1.dir), t1, b);
  }

  /** Repairing `a ++ b` is repairing `a`, then `b`: same file system, the counts add, and
      the later error wins. */
  lemma BatchDecomposition(s: Setting, a: seq<Dataset>, b: seq<Dataset>, paths: Paths)
    requires GoodFolders(a + b)
    requires s.path in paths ==> SteadyWrites(s, Find(paths[s.path], PASSWD))
    ensures var r, r1 := RepairPass(s, a + b, paths), RepairPass(s, a, paths);
            var r2 := RepairPass(s, b, r1.paths);
            && r.paths == r2.paths && r.count == r1.count + r2.count
            && r.error == if r2.error.Some? then r2.error else r1.error
  {
    if a == [] {
      assert a + b == b;
    } else if b == [] {
      assert a + b == a;
    } else if s.path in paths {
      var e := Find(paths[s.path], PASSWD);
      SecondWriteChangesNothing(s, e);
      if WritePassword(s, e).1 == None {
        BothHalves(s, a, b, paths);
      } else {
        var d1 := RepairPass(s, a, paths).paths[s.path];
        DirsEqual(Put(d1, PASSWD, WritePassword(s, e).0), d1);
      }
    }
  }

  lemma BothEmpty(a: seq<Dataset>, b: seq<Dataset>)
    requires forall ds :: ds in a <==> ds in b
    ensures a == [] <==> b == []
  {
    assert (a != [] ==> a[0] in b) && (b != [] ==> b[0] in a);
  }

  lemma RepairAllReordered(s: Setting, names: set<string>, t: Tally, a: seq<Dataset>, b: seq<Dataset>)
    requires GoodFolders(a) && GoodFolders(b)
    requires forall ds :: ds in a <==> ds in b
    ensures RepairAll(s, names, t, a).dir == RepairAll(s, names, t, b).dir
    ensures RepairAll(s, names, t, a).count == RepairAll(s, names, t, b).count
  {
    forall n ensures Find(RepairAll(s, names, t, a).dir, n) == Find(RepairAll(s, names, t, b).dir, n) {
      if ds :| ds in a && ds.folder == n {
        RepairAllAt(s, names, t, a, ds);
        RepairAllAt(s, names, t, b, ds);
      } else {
        RepairAllFrame(s, names, t, a, n);
        RepairAllFrame(s, names, t, b, n);
      }
    }
    DirsEqual(RepairAll(s, names, t, a).dir, RepairAll(s, names, t, b).dir);
    RepairAllCount(s, names, t, a);
    RepairAllCount(s, names, t, b);
    assert MountedIn(s, names, t.dir, a) == MountedIn(s, names, t.dir, b);
  }

  /** The order of the datasets affects neither the file system nor the count. */
  lemma RepairOrderIndependence(s: Setting, a: seq<Dataset>, b: seq<Dataset>, paths: Paths)
    requires GoodFolders(a) && GoodFolders(b)
    requires forall ds :: ds in a <==> ds in b
    ensures RepairPass(s, a, paths).paths == RepairPass(s, b, paths).paths
    ensures RepairPass(s, a, paths).count == RepairPass(s, b, paths).count
  {
    BothEmpty(a, b);
    if a != [] {
      if s.path in paths {
        var (left, failure) := WritePassword(s, Find(paths[s.path], PASSWD));
        var d := Put(paths[s.path], PASSWD, left);
        RepairAllReordered(s, Listing(s, d), Tally(d, 0, None), a, b);
      }
    }
  }

  // ---------------------------------------------------------------- first mount and repair

  ghost predicate NoneMounted(dss: seq<Dataset>, d: Dir) {
    forall ds :: ds in dss ==> ds.folder !in d
  }

  lemma {:induction false} FirstAllIsRepairAll(s: Setting, names: set<string>, t: Tally, dss: seq<Dataset>)
    requires GoodFolders(dss) && NoneMounted(dss, t.dir)
    requires forall ds :: ds in dss ==> ds.folder !in names
    ensures FirstAll(s, t, dss) == RepairAll(s, names, t, dss)
  {
    if dss == [] {
    } else {
      var last, front := dss[|dss| - 1], dss[..|dss| - 1];
      GoodPrefix(dss);
      FirstAllIsRepairAll(s, names, t, front);
      RepairAllFrame(s, names, t, front, last.folder);
      assert last in dss;
    }
  }

  /** On an existing path that holds none of the folders yet, an empty one for instance,
      mounting and repairing end in the same file system with the same count and error. */
  lemma FirstMountAndRepairAgree(s: Setting, dss: seq<Dataset>, paths: Paths)
    requires GoodFolders(dss)
    requires s.path in paths && NoneMounted(dss, paths[s.path])
    ensures MountPass(s, dss, paths) == RepairPass(s, dss, paths)
  {
    if dss != [] {
      var (left, failure) := WritePassword(s, Find(paths[s.path], PASSWD));
      var d := Put(paths[s.path], PASSWD, left);
      FirstAllIsRepairAll(s, Listing(s, d), Tally(d, 0, None), dss);
    }
  }

  // ---------------------------------------------------------------- frame

  ghost predicate Protected(dss: seq<Dataset>, d: Dir, name: string) {
    !HasFolder(dss, name) || Find(d, name) == Some(Healthy)
  }

  /** Whatever fails, a repair pass leaves healthy folders, foreign names and other target
      paths exactly as they were. */
  lemma RepairFrame(s: Setting, dss: seq<Dataset>, paths: Paths)
    requires GoodFolders(dss)
    ensures var r := RepairPass(s, dss, paths).paths;
            && r.Keys == paths.Keys
            && (forall p :: p in paths && p != s.path ==> r[p] == paths[p])
            && (s.path in paths ==> forall n :: n != PASSWD && Protected(dss, paths[s.path], n)
                                                ==> Find(r[s.path], n) == Find(paths[s.path], n))
  {
    if s.path in paths && dss != [] {
      var (left, failure) := WritePassword(s, Find(paths[s.path], PASSWD));
      var d := Put(paths[s.path], PASSWD, left);
      var names, t := Listing(s, d), Tally(d, 0, None);
      forall n | n != PASSWD && Protected(dss, paths[s.path], n)
        ensures Find(RepairAll(s, names, t, dss).dir, n) == Find(paths[s.path], n)
      {
        if ds :| ds in dss && ds.folder == n {
          RepairAllAt(s, names, t, dss, ds);
        } else {
          RepairAllFrame(s, names, t, dss, n);
        }
      }
    }
  }

  function WithSelectors(ds: Dataset, terms: seq<Term>): Dataset {
    ds.(podSelectors := terms)
  }

  lemma SelectorIrrelevant(s: Setting, ds: Dataset, terms: seq<Term>, e: Option<Entry>)
    ensures RepairOne(s, true, ds, e) == RepairOne(s, true, WithSelectors(ds, terms), e)
  {
  }

  /** A folder that is already present is treated the same whatever its dataset's selector
      says, even if the selector no longer matches or is malformed. */
  lemma PresentFolderIgnoresSelector(s: Setting, dss: seq<Dataset>, i: nat, terms: seq<Term>, paths: Paths)
    requires GoodFolders(dss) && i < |dss| && s.path in paths
    requires s.helper.lists(s.path) && dss[i].folder in paths[s.path]
    ensures var r, r' := RepairPass(s, dss, paths), RepairPass(s, dss[i := WithSelectors(dss[i], terms)], paths);
            r == r'
  {
    var dss' := dss[i := WithSelectors(dss[i], terms)];
    var (left, failure) := WritePassword(s, Find(paths[s.path], PASSWD));
    var d := Put(paths[s.path], PASSWD, left);
    var names, t := Listing(s, d), Tally(d, 0, None);
    var a, b := dss[..i], dss[i + 1..];
    assert dss == a + [dss[i]] + b && dss' == a + [dss'[i]] + b;
    RepairAllAppend(s, names, t, a + [dss[i]], b);
    RepairAllAppend(s, names, t, a + [dss'[i]], b);
    assert (a + [dss[i]])[..|a|] == a && (a + [dss'[i]])[..|a|] == a;
    assert dss[i] in dss;
    var ta := RepairAll(s, names, t, a);
    var e := Find(ta.dir, dss[i].folder);
    SelectorIrrelevant(s, dss[i], terms, e);
    assert RepairAll(s, names, t, a + [dss[i]]) == RepairAll(s, names, t, a + [dss'[i]]);
  }

  // ---------------------------------------------------------------- convergence

  ghost predicate CleansAll(s: Setting, dss: seq<Dataset>) {
    forall ds, e :: ds in dss ==> s.helper.cleans(s.path, ds.folder, e) == Removed
  }

  /** Every mount that succeeds shows a bucket that lists non-empty. */
  ghost predicate MountsServe(s: Setting, dss: seq<Dataset>) {
    forall ds, e :: ds in dss ==>
      var m := s.helper.mounts(s.path, ds.folder, ds.bucket, e); m.failure == None ==> m.left == Healthy
  }

  /** The datasets a repair pass acts on: present in the listing, or selected. */
  predicate Concerned(s: Setting, ds: Dataset, d: Dir) {
    ds.folder in Listing(s, d) || Targets(s.syntax, s.lbls, ds.podSelectors)
  }

  lemma {:induction false} NoErrorInPass(s: Setting, names: set<string>, t: Tally, dss: seq<Dataset>, ds: Dataset)
    requires GoodFolders(dss) && ds in dss && RepairAll(s, names, t, dss).error == None
    ensures t.error == None && !RepairOne(s, ds.folder in names, ds, Find(t.dir, ds.folder)).1.Errored?
  {
    var last, front := dss[|dss| - 1], dss[..|dss| - 1];
    GoodPrefix(dss);
    RepairAllFrame(s, names, t, front, last.folder);
    if ds != last {
      NoErrorInPass(s, names, t, front, ds);
    } else if front != [] {
      NoErrorInPass(s, names, t, front, front[0]);
    }
  }

  lemma {:induction false} NothingToDo(s: Setting, names: set<string>, t: Tally, dss: seq<Dataset>)
    requires GoodFolders(dss)
    requires forall ds :: ds in dss ==>
      RepairOne(s, ds.folder in names, ds, Find(t.dir, ds.folder)) == (Find(t.dir, ds.folder), Skipped)
    ensures RepairAll(s, names, t, dss) == t
  {
    if dss == [] {
    } else {
      var last, front := dss[|dss| - 1], dss[..|dss| - 1];
      GoodPrefix(dss);
      NothingToDo(s, names, t, front);
      assert last in dss;
      DirsEqual(Put(t.dir, last.folder, Find(t.dir, last.folder)), t.dir);
    }
  }

  /** After a pass with no failed call and no selector error, over buckets that list
      non-empty, every dataset the pass was concerned with is healthy. */
  lemma Convergence(s: Setting, dss: seq<Dataset>, paths: Paths)
    requires GoodFolders(dss) && s.path in paths
    requires CleansAll(s, dss) && MountsServe(s, dss)
    requires RepairPass(s, dss, paths).error == None
    ensures var after := RepairPass(s, dss, paths).paths[s.path];
            forall ds :: ds in dss && Concerned(s, ds, paths[s.path]) ==> Find(after, ds.folder) == Some(Healthy)
  {
    if dss != [] {
      var (left, failure) := WritePassword(s, Find(paths[s.path], PASSWD));
      var d := Put(paths[s.path], PASSWD, left);
      var names, t := Listing(s, d), Tally(d, 0, None);
      forall ds | ds in dss && Concerned(s, ds, paths[s.path])
        ensures Find(RepairAll(s, names, t, dss).dir, ds.folder) == Some(Healthy)
      {
        RepairAllAt(s, names, t, dss, ds);
        NoErrorInPass(s, names, t, dss, ds);
      }
    }
  }

  /** A second pass after a converging one finds nothing to do. */
  lemma SecondRepairIsIdle(s: Setting, dss: seq<Dataset>, paths: Paths)
    requires GoodFolders(dss) && s.path in paths
    requires CleansAll(s, dss) && MountsServe(s, dss)
    requires SteadyWrites(s, Find(paths[s.path], PASSWD))
    requires RepairPass(s, dss, paths).error == None
    ensures var after := RepairPass(s, dss, paths).paths;
            RepairPass(s, dss, after) == Pass(after, 0, None)
  {
    if dss != [] {
      var e := Find(paths[s.path], PASSWD);
      var (left, failure) := WritePassword(s, e);
      var d := Put(paths[s.path], PASSWD, left);
      var names, t := Listing(s, d), Tally(d, 0, None);
      var after := RepairPass(s, dss, paths).paths;
      var d1 := after[s.path];
      SecondWriteChangesNothing(s, e);
      RepairAllFrame(s, names, t, dss, PASSWD);
      DirsEqual(Put(d1, PASSWD, left), d1);
      Convergence(s, dss, paths);
      forall ds | ds in dss
        ensures RepairOne(s, ds.folder in Listing(s, d1), ds, Find(d1, ds.folder)) == (Find(d1, ds.folder), Skipped)
      {
        RepairAllAt(s, names, t, dss, ds);
        NoErrorInPass(s, names, t, dss, ds);
      }
      NothingToDo(s, Listing(s, d1), Tally(d1, 0, None), dss);
    }
  }

  /** A failed clean-up is the one failure a pass does not report. For an error-free pass,
      a dataset it was concerned with ends healthy exactly when its folder did not first
      need a clean-up that fails. */
  lemma HealthyUnlessCleanUpFails(s: Setting, dss: seq<Dataset>, paths: Paths, ds: Dataset)
    requires GoodFolders(dss) && s.path in paths && MountsServe(s, dss)
    requires RepairPass(s, dss, paths).error == None
    requires ds in dss && Concerned(s, ds, paths[s.path])
    ensures var e := Find(paths[s.path], ds.folder);
            Find(RepairPass(s, dss, paths).paths[s.path], ds.folder) == Some(Healthy) <==>
            (e == None || e == Some(Healthy)
             || match s.helper.cleans(s.path, ds.folder, e.value)
                case Removed => true
                case CleanFailed(left, _) => left == Healthy)
  {
    var (left, failure) := WritePassword(s, Find(paths[s.path], PASSWD));
    var d := Put(paths[s.path], PASSWD, left);
    RepairAllAt(s, Listing(s, d), Tally(d, 0, None), dss, ds);
    NoErrorInPass(s, Listing(s, d), Tally(d, 0, None), dss, ds);
  }

  /** Every call succeeds but the clean-ups. */
  function StuckHelper(): Helper {
    Helper(_ => true, (_, _) => Written, (_, _) => None, (_, _, _, _) => MountOutcome(Healthy, None),
           (_, _, e) => CleanFailed(e, "busy"), _ => true)
  }

  /** One broken folder that cannot be cleaned: the repair reports no error and leaves it broken. */
  lemma UnhealthyWithoutError(syntax: Syntax, lbls: LabelSet, password: string, path: string)
    ensures var s := Setting(StuckHelper(), syntax, lbls, password, path);
            var paths := map[path := map["bucket" := Broken]];
            var r := RepairPass(s, [Dataset("bucket", "bucket", [])], paths);
            && r.error == None && r.count == 0 && path in r.paths && Find(r.paths[path], "bucket") == Some(Broken)
  {
    var s := Setting(StuckHelper(), syntax, lbls, password, path);
    var paths, ds := map[path := map["bucket" := Broken]], Dataset("bucket", "bucket", []);
    assert PASSWD[0] == '.' && ds.folder != PASSWD;
    var d := Put(paths[path], PASSWD, Some(Plain(password)));
    assert Find(paths[path], PASSWD) == None && WritePassword(s, None) == (Some(Plain(password)), None);
    assert [ds][..0] == [];
    assert RepairAll(s, Listing(s, d), Tally(d, 0, None), []) == Tally(d, 0, None);
    assert RepairOne(s, true, ds, Some(Broken)) == (Some(Broken), Skipped);
  }

  // ---------------------------------------------------------------- publish, then unpublish

  /** Whether unmounting leaves an entry behind: it is not listed, or its clean-up fails. */
  predicate Stays(s: Setting, name: string, e: Entry) {
    !s.helper.lists(s.path) || s.helper.cleans(s.path, name, e).CleanFailed?
  }

  /** The folder of a dataset that the pod's labels select. */
  ghost predicate Selected(s: Setting, dss: seq<Dataset>, name: string) {
    exists ds :: ds in dss && ds.folder == name && Targets(s.syntax, s.lbls, ds.podSelectors)
  }

  lemma SelectedNext(s: Setting, front: seq<Dataset>, last: Dataset, name: string)
    ensures Selected(s, front + [last], name) <==>
            Selected(s, front, name) || (last.folder == name && Targets(s.syntax, s.lbls, last.podSelectors))
  {
    assert forall ds :: ds in front + [last] <==> ds in front || ds == last;
  }

  /** The first mount removes no name and adds none but selected folders; without an error it
      adds all of them. */
  lemma {:induction false} FirstAllNames(s: Setting, t: Tally, dss: seq<Dataset>, name: string)
    ensures var t' := FirstAll(s, t, dss);
            && (name in t.dir ==> name in t'.dir)
            && (name in t'.dir ==> name in t.dir || Selected(s, dss, name))
            && (t'.error == None && Selected(s, dss, name) ==> name in t'.dir)
            && (t'.error == None ==> t.error == None)
  {
    if dss == [] {
    } else {
      var front, last := dss[..|dss| - 1], dss[|dss| - 1];
      FirstAllNames(s, t, front, name);
      SelectedNext(s, front, last, name);
      assert dss == front + [last];
    }
  }

  /** What a first mount leaves below an empty path: the password file and folders of selected
      datasets only, and exactly these if there was no error. */
  lemma PublishedNames(s: Setting, dss: seq<Dataset>, paths: Paths, name: string)
    requires s.path in paths && paths[s.path] == map[]
    ensures var m := MountPass(s, dss, paths);
            && s.path in m.paths
            && (name in m.paths[s.path] ==> name == PASSWD || Selected(s, dss, name))
            && (m.error == None && dss != [] && (name == PASSWD || Selected(s, dss, name)) ==> name in m.paths[s.path])
  {
    if dss == [] {
    } else {
      var (left, failure) := WritePassword(s, None);
      var d := Put(paths[s.path], PASSWD, left);
      FirstAllNames(s, Tally(d, 0, None), dss, name);
    }
  }

  /** Unmounting any directory. */
  lemma UnmountLeaves(s: Setting, paths: Paths)
    requires s.path in paths
    ensures var d, u := paths[s.path], UnmountPass(s.helper, s.path, paths);
            && (s.path !in u <==> (forall n :: n in d ==> !Stays(s, n, d[n])) && s.helper.cleansTarget(s.path))
            && (s.path in u ==> forall n :: n in u[s.path] <==> n in d && Stays(s, n, d[n]))
            && (forall p :: p != s.path ==> (p in u <==> p in paths) && (p in u ==> u[p] == paths[p]))
  {
    var d := paths[s.path];
    var c := Cleaned(s.helper, s.path, d, Listing(s, d));
    assert c == map[] <==> forall n :: n in d ==> !Stays(s, n, d[n]) by {
      assert forall n :: n in c <==> n in d && Stays(s, n, d[n]);
      if c != map[] {
        assert c.Keys != {};
        var n :| n in c.Keys;
      }
    }
  }

  /** From an existing empty path, unmounting after mounting leaves exactly the names the mount
      created whose clean-up fails, each of them the password file or the folder of a selected
      dataset; the target path goes exactly when none is left and it can go. */
  lemma PublishThenUnpublish(s: Setting, dss: seq<Dataset>, paths: Paths)
    requires s.path in paths && paths[s.path] == map[]
    ensures var m := MountPass(s, dss, paths);
            var d, u := m.paths[s.path], UnmountPass(s.helper, s.path, m.paths);
            && (forall n :: n in d ==> n == PASSWD || Selected(s, dss, n))
            && (m.error == None && dss != [] ==> forall n :: n in d <==> n == PASSWD || Selected(s, dss, n))
            && (s.path !in u <==> (forall n :: n in d ==> !Stays(s, n, d[n])) && s.helper.cleansTarget(s.path))
            && (s.path in u ==> forall n :: n in u[s.path] <==> n in d && Stays(s, n, d[n]))
            && (forall p :: p != s.path ==> (p in u <==> p in paths) && (p in u ==> u[p] == paths[p]))
  {
    var m := MountPass(s, dss, paths);
    var d := m.paths[s.path];
    forall n
      ensures n in d ==> n == PASSWD || Selected(s, dss, n)
      ensures m.error == None && dss != [] && (n == PASSWD || Selected(s, dss, n)) ==> n in d
    {
      PublishedNames(s, dss, paths, n);
    }
    UnmountLeaves(s, m.paths);
  }
}
