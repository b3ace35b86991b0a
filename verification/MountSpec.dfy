/**
 What one node does to one pod's target path, as functions on values: the first mount,
 the repair pass and the unmount. The methods of module Mount are proved against these.

 The helper that touches the real file system is a parameter. Its functions may answer
 anything at all, so every theorem covers every pattern of failures, except where a lemma
 says which calls it takes to succeed.
 */
module MountSpec {
  import opened Wrappers
  import opened PodSelector

  /** A name under a target path. A name that is absent is not in the directory's map.
      Broken: stat fails, but not with "does not exist". Unreadable: listing fails.
      Plain: a regular file, which stats but does not list. */
  datatype Entry = Broken | Unreadable | Empty | Healthy | Plain(content: string)

  type Dir = map<string, Entry>

  type Paths = map<string, Dir>

  datatype Dataset = Dataset(folder: string, bucket: string, podSelectors: seq<Term>)

  /** Which of a bad selector's own errors is reported depends on map order, so a selector
      error is identified by the dataset it belongs to. */
  datatype MountError = BadSelector(folder: string) | HelperError(message: string)

  datatype CleanOutcome = Removed | CleanFailed(left: Entry, message: string)

  datatype WriteOutcome = Written | WriteFailed(left: Option<Entry>, message: string)

  datatype MountOutcome = MountOutcome(left: Entry, failure: Option<string>)

  /** Outcome of each call, by target path, folder and the folder's own state. */
  datatype Helper = Helper(
    lists: string -> bool,
    writes: (string, Option<Entry>) -> WriteOutcome,
    makes: (string, string) -> Option<string>,
    mounts: (string, string, string, Entry) -> MountOutcome,
    cleans: (string, string, Entry) -> CleanOutcome,
    cleansTarget: string -> bool
  )

  const PASSWD := ".passwd-s3fs-rhm-cos"

  /** Everything a pass over one target path depends on besides the file system. */
  datatype Setting = Setting(helper: Helper, syntax: Syntax, lbls: LabelSet, password: string, path: string)

  function Find(d: Dir, name: string): Option<Entry> {
    if name in d then Some(d[name]) else None
  }

  function Put(d: Dir, name: string, e: Option<Entry>): Dir {
    if e.Some? then d[name := e.value] else d - {name}
  }

  // ---------------------------------------------------------------- one dataset

  function MountAt(s: Setting, ds: Dataset, e: Entry): (Option<Entry>, Option<MountError>) {
    var m := s.helper.mounts(s.path, ds.folder, ds.bucket, e);
    (Some(m.left), if m.failure.Some? then Some(HelperError(m.failure.value)) else None)
  }

  /** Create the folder if it is missing, then mount. */
  function MountOne(s: Setting, ds: Dataset, e: Option<Entry>): (Option<Entry>, Option<MountError>) {
    if e == None then
      match s.helper.makes(s.path, ds.folder)
      case Some(message) => (None, Some(HelperError(message)))
      case None => MountAt(s, ds, Empty)
    else
      MountAt(s, ds, e.value)
  }

  /** The health test: a folder that stats and lists non-empty is left alone, an absent one
      is to be mounted, any other is cleaned up first. A failed clean-up skips the dataset. */
  function HealthTest(s: Setting, ds: Dataset, e: Option<Entry>): (Option<Entry>, bool) {
    match e
    case None => (None, true)
    case Some(Healthy) => (e, false)
    case Some(bad) =>
      match s.helper.cleans(s.path, ds.folder, bad)
      case Removed => (None, true)
      case CleanFailed(left, _) => (Some(left), false)
  }

  datatype Outcome = Skipped | Mounted | Errored(error: MountError)

  function MountOutcomeOf(r: (Option<Entry>, Option<MountError>)): (Option<Entry>, Outcome) {
    (r.0, if r.1.Some? then Errored(r.1.value) else Mounted)
  }

  function FirstOne(s: Setting, ds: Dataset, e: Option<Entry>): (Option<Entry>, Outcome) {
    if Fails(s.syntax, s.lbls, ds.podSelectors) then (e, Errored(BadSelector(ds.folder)))
    else if !Targets(s.syntax, s.lbls, ds.podSelectors) then (e, Skipped)
    else MountOutcomeOf(MountOne(s, ds, e))
  }

  function RepairOne(s: Setting, listed: bool, ds: Dataset, e: Option<Entry>): (Option<Entry>, Outcome) {
    if !listed && Fails(s.syntax, s.lbls, ds.podSelectors) then (e, Errored(BadSelector(ds.folder)))
    else if !listed && !Targets(s.syntax, s.lbls, ds.podSelectors) then (e, Skipped)
    else
      var (e', required) := HealthTest(s, ds, e);
      if !required then (e', Skipped) else MountOutcomeOf(MountOne(s, ds, e'))
  }

  // ---------------------------------------------------------------- a list of datasets

  datatype Tally = Tally(dir: Dir, count: nat, error: Option<MountError>)

  function Absorb(t: Tally, name: string, r: (Option<Entry>, Outcome)): Tally {
    Tally(Put(t.dir, name, r.0),
          if r.1 == Mounted then t.count + 1 else t.count,
          if r.1.Errored? then Some(r.1.error) else t.error)
  }

  function FirstAll(s: Setting, t: Tally, dss: seq<Dataset>): Tally {
    if dss == [] then t
    else
      var ds, t' := dss[|dss| - 1], FirstAll(s, t, dss[..|dss| - 1]);
      Absorb(t', ds.folder, FirstOne(s, ds, Find(t'.dir, ds.folder)))
  }

  /** `names` is the listing of the target path, taken once before the loop. */
  function RepairAll(s: Setting, names: set<string>, t: Tally, dss: seq<Dataset>): Tally {
    if dss == [] then t
    else
      var ds, t' := dss[|dss| - 1], RepairAll(s, names, t, dss[..|dss| - 1]);
      Absorb(t', ds.folder, RepairOne(s, ds.folder in names, ds, Find(t'.dir, ds.folder)))
  }

  // ---------------------------------------------------------------- a target path

  /** Writing does not truncate: a longer old content keeps its tail. */
  function Overwrite(old': string, content: string): string {
    if |content| < |old'| then content + old'[|content|..] else content
  }

  function WritePassword(s: Setting, e: Option<Entry>): (Option<Entry>, Option<MountError>) {
    match s.helper.writes(s.path, e)
    case WriteFailed(left, message) => (left, Some(HelperError(message)))
    case Written =>
      if e == None then (Some(Plain(s.password)), None)
      else if e.value.Plain? then (Some(Plain(Overwrite(e.value.content, s.password))), None)
      else (e, Some(HelperError("not a regular file")))
  }

  datatype Pass = Pass(paths: Paths, count: nat, error: Option<MountError>)

  function Listing(s: Setting, d: Dir): set<string> {
    if s.helper.lists(s.path) then d.Keys else {}
  }

  function MountPass(s: Setting, dss: seq<Dataset>, paths: Paths): Pass {
    if dss == [] then Pass(paths, 0, None)
    else if s.path !in paths then Pass(paths, 0, Some(HelperError("no such directory")))
    else
      var (left, failure) := WritePassword(s, Find(paths[s.path], PASSWD));
      var d := Put(paths[s.path], PASSWD, left);
      if failure.Some? then Pass(paths[s.path := d], 0, failure)
      else
        var t := FirstAll(s, Tally(d, 0, None), dss);
        Pass(paths[s.path := t.dir], t.count, t.error)
  }

  function RepairPass(s: Setting, dss: seq<Dataset>, paths: Paths): Pass {
    if s.path !in paths || dss == [] then Pass(paths, 0, None)
    else
      var (left, failure) := WritePassword(s, Find(paths[s.path], PASSWD));
      var d := Put(paths[s.path], PASSWD, left);
      if failure.Some? then Pass(paths[s.path := d], 0, failure)
      else
        var t := RepairAll(s, Listing(s, d), Tally(d, 0, None), dss);
        Pass(paths[s.path := t.dir], t.count, t.error)
  }

  /** What is left of a directory once every listed name has been cleaned. */
  function Cleaned(h: Helper, path: string, d: Dir, names: set<string>): Dir {
    map n | n in d && (n !in names || h.cleans(path, n, d[n]).CleanFailed?) ::
      if n in names then h.cleans(path, n, d[n]).left else d[n]
  }

  /** A non-empty directory cannot be removed. */
  function UnmountPass(h: Helper, path: string, paths: Paths): Paths {
    if path !in paths then paths
    else
      var d := Cleaned(h, path, paths[path], if h.lists(path) then paths[path].Keys else {});
      if d == map[] && h.cleansTarget(path) then paths - {path} else paths[path := d]
  }

  // ---------------------------------------------------------------- folders of a list

  ghost predicate HasFolder(dss: seq<Dataset>, name: string) {
    exists ds :: ds in dss && ds.folder == name
  }

  /** Folders are Kubernetes object names: distinct in a namespace, never a dot file. */
  ghost predicate GoodFolders(dss: seq<Dataset>) {
    && (forall i, j :: 0 <= i < j < |dss| ==> dss[i].folder != dss[j].folder)
    && (forall ds :: ds in dss ==> ds.folder != PASSWD)
  }

  lemma GoodPrefix(dss: seq<Dataset>)
    requires GoodFolders(dss) && dss != []
    ensures GoodFolders(dss[..|dss| - 1])
    ensures dss == dss[..|dss| - 1] + [dss[|dss| - 1]]
    ensures !HasFolder(dss[..|dss| - 1], dss[|dss| - 1].folder)
  {
  }

  // ---------------------------------------------------------------- pointwise view

  /** A pass leaves every name that is not one of its folders as it was. */
  lemma {:induction false} RepairAllFrame(s: Setting, names: set<string>, t: Tally, dss: seq<Dataset>, name: string)
    requires !HasFolder(dss, name)
    ensures Find(RepairAll(s, names, t, dss).dir, name) == Find(t.dir, name)
  {
    if dss == [] {
    } else {
      var last := dss[|dss| - 1];
      assert last in dss;
      assert forall ds :: ds in dss[..|dss| - 1] ==> ds in dss;
      RepairAllFrame(s, names, t, dss[..|dss| - 1], name);
    }
  }

  /** Each dataset acts on its own folder's initial state, wherever it stands in the list. */
  lemma {:induction false} RepairAllAt(s: Setting, names: set<string>, t: Tally, dss: seq<Dataset>, ds: Dataset)
    requires GoodFolders(dss) && ds in dss
    ensures Find(RepairAll(s, names, t, dss).dir, ds.folder)
            == RepairOne(s, ds.folder in names, ds, Find(t.dir, ds.folder)).0
  {
    var last, front := dss[|dss| - 1], dss[..|dss| - 1];
    GoodPrefix(dss);
    if ds == last {
      RepairAllFrame(s, names, t, front, ds.folder);
    } else {
      RepairAllAt(s, names, t, front, ds);
      assert HasFolder(front, ds.folder);
    }
  }

  ghost predicate Mounts(s: Setting, names: set<string>, d: Dir, ds: Dataset) {
    RepairOne(s, ds.folder in names, ds, Find(d, ds.folder)).1 == Mounted
  }

  ghost function MountedIn(s: Setting, names: set<string>, d: Dir, dss: seq<Dataset>): set<Dataset> {
    set ds | ds in dss && Mounts(s, names, d, ds)
  }

  lemma MountedInSnoc(s: Setting, names: set<string>, d: Dir, front: seq<Dataset>, last: Dataset)
    requires GoodFolders(front + [last])
    ensures |MountedIn(s, names, d, front + [last])|
            == |MountedIn(s, names, d, front)| + if Mounts(s, names, d, last) then 1 else 0
  {
    var dss := front + [last];
    assert dss[|front|] == last && forall i :: 0 <= i < |front| ==> dss[i] == front[i];
    var all, few := MountedIn(s, names, d, dss), MountedIn(s, names, d, front);
    assert last !in front;
    assert forall ds :: ds in dss <==> ds in front || ds == last;
    if Mounts(s, names, d, last) {
      assert all == few + {last};
    } else {
      assert all == few;
    }
  }

  /** The count is the number of datasets whose own step mounts. */
  lemma {:induction false} RepairAllCount(s: Setting, names: set<string>, t: Tally, dss: seq<Dataset>)
    requires GoodFolders(dss)
    ensures RepairAll(s, names, t, dss).count == t.count + |MountedIn(s, names, t.dir, dss)|
  {
    if dss == [] {
      assert MountedIn(s, names, t.dir, dss) == {};
    } else {
      var last, front := dss[|dss| - 1], dss[..|dss| - 1];
      GoodPrefix(dss);
      RepairAllCount(s, names, t, front);
      RepairAllFrame(s, names, t, front, last.folder);
      MountedInSnoc(s, names, t.dir, front, last);
      assert Mounts(s, names, RepairAll(s, names, t, front).dir, last) == Mounts(s, names, t.dir, last);
    }
  }

  lemma DirsEqual(d: Dir, d': Dir)
    requires forall n :: Find(d, n) == Find(d', n)
    ensures d == d'
  {
    forall n ensures n in d <==> n in d' { assert Find(d, n) == Find(d', n); }
    forall n | n in d ensures d[n] == d'[n] { assert Find(d, n) == Find(d', n); }
    assert d.Keys == d'.Keys;
  }
}
