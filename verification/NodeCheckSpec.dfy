/**
 One node's reaction to a health check, as functions on values: the pass over every pod that
 reads dataset lists through a per-namespace cache, the same pass reading them directly, and
 the pass for one dataset. The theorem of this module is that they agree.
 */
module NodeCheckSpec {
  import opened Wrappers
  import opened PodSelector
  import opened MountSpec
  import MountTheorems

  /** One item of a dataset list; some may not parse. */
  datatype Item = Parsed(dataset: Dataset) | Unparsable(message: string)

  type Listed = Result<seq<Dataset>, string>

  /** What a pass needs of a pod: its namespace, whether it is a tracked pod of this node, its labels,
      and its target path if it is a running pod with a path annotation. */
  datatype PodInfo = PodInfo(namespace: string, tracked: bool, path: Option<string>, view: LabelSet)

  datatype Node = Node(helper: Helper, syntax: Syntax, password: string)

  function SettingOf(node: Node, pod: PodInfo): Setting
    requires pod.path.Some?
  {
    Setting(node.helper, node.syntax, pod.view, node.password, pod.path.value)
  }

  function ParsedOf(items: seq<Item>): seq<Dataset> {
    if items == [] then []
    else ParsedOf(items[..|items| - 1])
         + if items[|items| - 1].Parsed? then [items[|items| - 1].dataset] else []
  }

  function LastBad(items: seq<Item>): Option<string> {
    if items == [] then None
    else if items[|items| - 1].Unparsable? then Some(items[|items| - 1].message)
    else LastBad(items[..|items| - 1])
  }

  /** Unparsable items are dropped, unless nothing else is left. */
  function Read(r: Result<seq<Item>, string>): Listed {
    match r
    case Failure(message) => Failure(message)
    case Success(items) =>
      if ParsedOf(items) == [] && LastBad(items).Some? then Failure(LastBad(items).value)
      else Success(ParsedOf(items))
  }

  lemma {:induction false} ParsedMeans(items: seq<Item>)
    ensures forall ds :: ds in ParsedOf(items) <==> Parsed(ds) in items
    ensures ParsedOf(items) == [] && items != [] ==>
              items[|items| - 1].Unparsable? && LastBad(items) == Some(items[|items| - 1].message)
    ensures ParsedOf(items) == [] <==> forall i :: 0 <= i < |items| ==> items[i].Unparsable?
  {
    if items == [] {
    } else {
      var front, last := items[..|items| - 1], items[|items| - 1];
      ParsedMeans(front);
      assert items == front + [last];
    }
  }

  lemma {:induction false} ParsedInOrder(a: seq<Item>, b: seq<Item>)
    ensures ParsedOf(a + b) == ParsedOf(a) + ParsedOf(b)
  {
    if b == [] {
      assert a + b == a;
    } else {
      assert (a + b)[..|a + b| - 1] == a + b[..|b| - 1];
      ParsedInOrder(a, b[..|b| - 1]);
    }
  }

  /** Reading a list succeeds unless there are items and none parses; it then gives the datasets of
      those that do, in their order, and else the message of the last item. */
  lemma ReadMeans(items: seq<Item>)
    ensures Read(Success(items)).Success? <==> items == [] || exists i :: 0 <= i < |items| && items[i].Parsed?
    ensures Read(Success(items)).Success? ==>
              forall ds :: ds in Read(Success(items)).value <==> Parsed(ds) in items
    ensures forall i, j :: 0 <= i < j < |items| && items[i].Parsed? && items[j].Parsed? ==>
              && Read(Success(items)).Success?
              && exists a, b :: Read(Success(items)).value == a + b && items[i].dataset in a && items[j].dataset in b
    ensures Read(Success(items)).Failure? ==>
              items != [] && items[|items| - 1] == Unparsable(Read(Success(items)).error)
  {
    ParsedMeans(items);
    forall i, j | 0 <= i < j < |items| && items[i].Parsed? && items[j].Parsed?
      ensures Read(Success(items)).Success?
      ensures exists a, b :: Read(Success(items)).value == a + b && items[i].dataset in a && items[j].dataset in b
    {
      ParsedMeans(items[..j]);
      ParsedMeans(items[j..]);
      assert items[..j] + items[j..] == items;
      ParsedInOrder(items[..j], items[j..]);
      assert items[..j][i] == items[i] && items[j..][0] == items[j];
    }
  }

  // ---------------------------------------------------------------- the three passes

  /** What a repair of a pod came to, as its condition will say. */
  datatype Report = Report(pod: PodInfo, total: nat, count: nat, error: Option<MountError>)

  datatype Checked = Checked(paths: Paths, podsChecked: nat, reports: seq<Report>)

  function Start(paths: Paths): Checked {
    Checked(paths, 0, [])
  }

  /** Repair one pod with a given dataset list; an empty list is skipped. */
  function RepairPod(node: Node, pod: PodInfo, dss: seq<Dataset>, c: Checked): Checked {
    if pod.path == None || dss == [] then c
    else
      var r := RepairPass(SettingOf(node, pod), dss, c.paths);
      Checked(r.paths, if r.error == None then c.podsChecked + 1 else c.podsChecked,
              c.reports + [Report(pod, |dss|, r.count, r.error)])
  }

  function DatasetsOf(r: Listed): seq<Dataset> {
    match r case Success(dss) => dss case Failure(_) => []
  }

  /** The simple form: every pod's namespace is listed anew. */
  function DirectPass(node: Node, lists: string -> Listed, pods: seq<PodInfo>, start: Checked): Checked {
    if pods == [] then start
    else
      var pod, c := pods[|pods| - 1], DirectPass(node, lists, pods[..|pods| - 1], start);
      RepairPod(node, pod, DatasetsOf(lists(pod.namespace)), c)
  }

  datatype Call = Call(namespace: string, ok: bool)

  datatype Cached = Cached(checked: Checked, cache: map<string, seq<Dataset>>, calls: seq<Call>)

  /** Read a namespace through the cache. Failures are not remembered. */
  function Lookup(answers: (string, nat) -> Listed, ns: string, c: Cached): (Cached, Option<seq<Dataset>>) {
    if ns in c.cache then (c, Some(c.cache[ns]))
    else
      var r := answers(ns, |c.calls|);
      var calls := c.calls + [Call(ns, r.Success?)];
      match r
      case Failure(_) => (c.(calls := calls), None)
      case Success(dss) => (c.(cache := c.cache[ns := dss], calls := calls), Some(dss))
  }

  function CachedStep(node: Node, answers: (string, nat) -> Listed, pod: PodInfo, c: Cached): Cached {
    if pod.path == None then c
    else
      var (c', dss) := Lookup(answers, pod.namespace, c);
      if dss == None then c' else c'.(checked := RepairPod(node, pod, dss.value, c'.checked))
  }

  /** The form the code uses. The n-th API call may be answered differently each time. */
  function CachedPass(node: Node, answers: (string, nat) -> Listed, pods: seq<PodInfo>, c: Cached): Cached {
    if pods == [] then c
    else CachedStep(node, answers, pods[|pods| - 1], CachedPass(node, answers, pods[..|pods| - 1], c))
  }

  /** A check for one dataset of one namespace. */
  function OnePass(node: Node, ns: string, ds: Dataset, pods: seq<PodInfo>, start: Checked): Checked {
    if pods == [] then start
    else
      var pod, c := pods[|pods| - 1], OnePass(node, ns, ds, pods[..|pods| - 1], start);
      if pod.namespace != ns then c else RepairPod(node, pod, [ds], c)
  }

  function InfosIn(pods: seq<PodInfo>, ns: string): seq<PodInfo> {
    if pods == [] then []
    else
      var last := pods[|pods| - 1];
      InfosIn(pods[..|pods| - 1], ns) + if last.tracked && (ns == "" || last.namespace == ns) then [last] else []
  }

  lemma {:induction false} InfosInExactly(pods: seq<PodInfo>, ns: string, pod: PodInfo)
    ensures pod in InfosIn(pods, ns) <==> pod in pods && pod.tracked && (ns == "" || pod.namespace == ns)
  {
    if pods == [] {
    } else {
      InfosInExactly(pods[..|pods| - 1], ns, pod);
      assert pod in pods <==> pod in pods[..|pods| - 1] || pod == pods[|pods| - 1];
    }
  }

  lemma OnePassSnoc(node: Node, ns: string, ds: Dataset, front: seq<PodInfo>, last: PodInfo, start: Checked)
    ensures var c := OnePass(node, ns, ds, front, start);
            OnePass(node, ns, ds, front + [last], start)
            == if last.namespace != ns then c else RepairPod(node, last, [ds], c)
  {
    assert (front + [last])[..|front|] == front;
  }

  /** Restricting the list of tracked pods to the namespace beforehand or while walking it is the
      same. */
  lemma {:induction false} OnePassOverChosen(node: Node, ns: string, ds: Dataset, pods: seq<PodInfo>, start: Checked)
    requires ns != ""
    ensures OnePass(node, ns, ds, InfosIn(pods, ns), start) == OnePass(node, ns, ds, InfosIn(pods, ""), start)
  {
    if pods == [] {
    } else {
      var front, last := pods[..|pods| - 1], pods[|pods| - 1];
      OnePassOverChosen(node, ns, ds, front, start);
      var some, all := InfosIn(front, ns), InfosIn(front, "");
      OnePassSnoc(node, ns, ds, all, last, start);
      OnePassSnoc(node, ns, ds, some, last, start);
      assert InfosIn(pods, "") == if last.tracked then all + [last] else all;
      assert InfosIn(pods, ns) == if last.tracked && last.namespace == ns then some + [last] else some;
    }
  }

  function Successes(reports: seq<Report>): nat {
    if reports == [] then 0
    else Successes(reports[..|reports| - 1]) + if reports[|reports| - 1].error == None then 1 else 0
  }

  /** Since `start`, the count has grown by the number of reports without error. */
  ghost predicate CountsSince(start: Checked, c: Checked) {
    start.reports <= c.reports && c.podsChecked == start.podsChecked + Successes(c.reports[|start.reports|..])
  }

  lemma RepairCounts(node: Node, pod: PodInfo, dss: seq<Dataset>, start: Checked, c: Checked)
    requires CountsSince(start, c)
    ensures CountsSince(start, RepairPod(node, pod, dss, c))
  {
    var c' := RepairPod(node, pod, dss, c);
    if c' != c {
      var since := c'.reports[|start.reports|..];
      assert since[..|since| - 1] == c.reports[|start.reports|..];
    }
  }

  // ---------------------------------------------------------------- the cache

  /** A call that succeeded is recorded as such and its answer is in the cache. */
  ghost predicate Remembered(answers: (string, nat) -> Listed, c: Cached) {
    forall i :: 0 <= i < |c.calls| ==>
      var r := answers(c.calls[i].namespace, i);
      && c.calls[i].ok == r.Success?
      && (r.Success? ==> c.calls[i].namespace in c.cache && c.cache[c.calls[i].namespace] == r.value)
  }

  ghost predicate Backed(c: Cached) {
    forall ns :: ns in c.cache ==> Call(ns, true) in c.calls
  }

  ghost predicate ListedOnce(c: Cached) {
    forall i, j :: 0 <= i < j < |c.calls| && c.calls[i].ok && c.calls[j].ok ==>
      c.calls[i].namespace != c.calls[j].namespace
  }

  /** Over any answers at all: the cache holds exactly the namespaces listed successfully,
      each with the answer it got, and no namespace is listed successfully twice. */
  ghost predicate CacheOk(answers: (string, nat) -> Listed, c: Cached) {
    Remembered(answers, c) && Backed(c) && ListedOnce(c)
  }

  lemma LookupKeepsCacheOk(answers: (string, nat) -> Listed, ns: string, c: Cached)
    requires CacheOk(answers, c)
    ensures CacheOk(answers, Lookup(answers, ns, c).0)
  {
    if ns !in c.cache {
      var c' := Lookup(answers, ns, c).0;
      var n := |c.calls|;
      assert c'.calls == c.calls + [c'.calls[n]] && c'.calls[n] == Call(ns, answers(ns, n).Success?);
      forall i | 0 <= i < n && c.calls[i].ok ensures c.calls[i].namespace != ns {
        assert c.calls[i].namespace in c.cache;
      }
      assert Remembered(answers, c');
      assert Backed(c') by {
        assert c'.calls[n] in c'.calls;
      }
      assert ListedOnce(c');
    }
  }

  lemma {:induction false} CacheInvariant(node: Node, answers: (string, nat) -> Listed, pods: seq<PodInfo>,
                                          start: Checked)
    ensures CacheOk(answers, CachedPass(node, answers, pods, Cached(start, map[], [])))
  {
    if pods == [] {
    } else {
      CacheInvariant(node, answers, pods[..|pods| - 1], start);
      LookupKeepsCacheOk(answers, pods[|pods| - 1].namespace,
                         CachedPass(node, answers, pods[..|pods| - 1], Cached(start, map[], [])));
    }
  }

  /** The number of pods that a pass answers with is the number of pods it reports repaired
      without error, over any API answers and helper outcomes. */
  lemma {:induction false} CountIsSuccesses(node: Node, answers: (string, nat) -> Listed, pods: seq<PodInfo>, c: Cached)
    ensures CountsSince(c.checked, CachedPass(node, answers, pods, c).checked)
  {
    if pods == [] {
    } else {
      var pod, c' := pods[|pods| - 1], CachedPass(node, answers, pods[..|pods| - 1], c);
      CountIsSuccesses(node, answers, pods[..|pods| - 1], c);
      var (found, dss) := Lookup(answers, pod.namespace, c');
      if dss.Some? {
        RepairCounts(node, pod, dss.value, c.checked, found.checked);
      }
    }
  }

  lemma {:induction false} OneCountIsSuccesses(node: Node, ns: string, ds: Dataset, pods: seq<PodInfo>, start: Checked)
    ensures CountsSince(start, OnePass(node, ns, ds, pods, start))
  {
    if pods == [] {
    } else {
      OneCountIsSuccesses(node, ns, ds, pods[..|pods| - 1], start);
      RepairCounts(node, pods[|pods| - 1], [ds], start, OnePass(node, ns, ds, pods[..|pods| - 1], start));
    }
  }

  function Eligible(pods: seq<PodInfo>): nat {
    if pods == [] then 0
    else Eligible(pods[..|pods| - 1]) + if pods[|pods| - 1].path.Some? then 1 else 0
  }

  /** A list that failed is asked for again: while no call succeeds, every eligible pod makes one,
      and nothing is repaired. */
  lemma {:induction false} FailuresAskedAgain(node: Node, answers: (string, nat) -> Listed, pods: seq<PodInfo>,
                                              start: Checked)
    requires forall ns, n :: answers(ns, n).Failure?
    ensures var c := CachedPass(node, answers, pods, Cached(start, map[], []));
            c.checked == start && c.cache == map[] && |c.calls| == Eligible(pods)
  {
    if pods == [] {
    } else {
      FailuresAskedAgain(node, answers, pods[..|pods| - 1], start);
    }
  }

  ghost predicate Stable(answers: (string, nat) -> Listed, lists: string -> Listed) {
    forall ns, n :: answers(ns, n) == lists(ns)
  }

  /** With a stable API the cache is invisible: each cached entry is the direct list, and the
      pass does what listing anew for every pod would do. */
  lemma {:induction false} CachedIsDirect(node: Node, answers: (string, nat) -> Listed, lists: string -> Listed,
                                          pods: seq<PodInfo>, start: Checked)
    requires Stable(answers, lists)
    ensures var c := CachedPass(node, answers, pods, Cached(start, map[], []));
            && c.checked == DirectPass(node, lists, pods, start)
            && forall ns :: ns in c.cache ==> lists(ns) == Success(c.cache[ns])
  {
    if pods == [] {
    } else {
      CachedIsDirect(node, answers, lists, pods[..|pods| - 1], start);
    }
  }

  // ---------------------------------------------------------------- one path at a time

  ghost function DirAt(paths: Paths, path: string): Option<Dir> {
    if path in paths then Some(paths[path]) else None
  }

  /** A repair pass reads and changes its own target path only. */
  lemma RepairIsLocal(s: Setting, dss: seq<Dataset>, p: Paths, q: Paths)
    requires DirAt(p, s.path) == DirAt(q, s.path)
    ensures DirAt(RepairPass(s, dss, p).paths, s.path) == DirAt(RepairPass(s, dss, q).paths, s.path)
    ensures forall x :: x != s.path ==> DirAt(RepairPass(s, dss, p).paths, x) == DirAt(p, x)
    ensures RepairPass(s, dss, p).count == RepairPass(s, dss, q).count
    ensures RepairPass(s, dss, p).error == RepairPass(s, dss, q).error
  {
  }

  ghost predicate DistinctPaths(pods: seq<PodInfo>) {
    forall i, j :: 0 <= i < j < |pods| && pods[i].path.Some? ==> pods[i].path != pods[j].path
  }

  ghost predicate UsesPath(pods: seq<PodInfo>, path: string) {
    exists pod :: pod in pods && pod.path == Some(path)
  }

  lemma {:induction false} DirectElsewhere(node: Node, lists: string -> Listed, pods: seq<PodInfo>, start: Checked,
                                           x: string)
    requires !UsesPath(pods, x)
    ensures DirAt(DirectPass(node, lists, pods, start).paths, x) == DirAt(start.paths, x)
  {
    if pods == [] {
    } else {
      assert pods[|pods| - 1] in pods;
      assert forall pod :: pod in pods[..|pods| - 1] ==> pod in pods;
      DirectElsewhere(node, lists, pods[..|pods| - 1], start, x);
    }
  }

  lemma {:induction false} DirectAt(node: Node, lists: string -> Listed, pods: seq<PodInfo>, start: Checked,
                                    pod: PodInfo)
    requires DistinctPaths(pods) && pod in pods && pod.path.Some?
    ensures DirAt(DirectPass(node, lists, pods, start).paths, pod.path.value)
            == DirAt(RepairPass(SettingOf(node, pod), DatasetsOf(lists(pod.namespace)), start.paths).paths,
                     pod.path.value)
  {
    var last, front := pods[|pods| - 1], pods[..|pods| - 1];
    var before := DirectPass(node, lists, front, start).paths;
    if pod == last {
      assert !UsesPath(front, pod.path.value);
      DirectElsewhere(node, lists, front, start, pod.path.value);
      RepairIsLocal(SettingOf(node, pod), DatasetsOf(lists(pod.namespace)), before, start.paths);
    } else {
      DirectAt(node, lists, front, start, pod);
    }
  }

  lemma {:induction false} OneElsewhere(node: Node, ns: string, ds: Dataset, pods: seq<PodInfo>, paths: Paths,
                                        x: string)
    requires forall pod :: pod in pods && pod.path == Some(x) ==> pod.namespace != ns
    ensures DirAt(OnePass(node, ns, ds, pods, Start(paths)).paths, x) == DirAt(paths, x)
  {
    if pods == [] {
    } else {
      assert pods[|pods| - 1] in pods;
      assert forall pod :: pod in pods[..|pods| - 1] ==> pod in pods;
      OneElsewhere(node, ns, ds, pods[..|pods| - 1], paths, x);
    }
  }

  lemma {:induction false} OneAt(node: Node, ns: string, ds: Dataset, pods: seq<PodInfo>, paths: Paths, pod: PodInfo)
    requires DistinctPaths(pods) && pod in pods && pod.path.Some? && pod.namespace == ns
    ensures DirAt(OnePass(node, ns, ds, pods, Start(paths)).paths, pod.path.value)
            == DirAt(RepairPass(SettingOf(node, pod), [ds], paths).paths, pod.path.value)
  {
    var last, front := pods[|pods| - 1], pods[..|pods| - 1];
    var before := OnePass(node, ns, ds, front, Start(paths)).paths;
    if pod == last {
      OneElsewhere(node, ns, ds, front, paths, pod.path.value);
      RepairIsLocal(SettingOf(node, pod), [ds], before, paths);
    } else {
      OneAt(node, ns, ds, front, paths, pod);
    }
  }

  // ---------------------------------------------------------------- all against one by one

  datatype SingleCheck = SingleCheck(namespace: string, dataset: Dataset)

  /** One-dataset checks run one after the other, in any order over all namespaces. */
  function OneByOne(node: Node, checks: seq<SingleCheck>, pods: seq<PodInfo>, paths: Paths): Paths {
    if checks == [] then paths
    else
      var k := checks[|checks| - 1];
      OnePass(node, k.namespace, k.dataset, pods, Start(OneByOne(node, checks[..|checks| - 1], pods, paths))).paths
  }

  function ChecksIn(checks: seq<SingleCheck>, ns: string): seq<Dataset> {
    if checks == [] then []
    else ChecksIn(checks[..|checks| - 1], ns)
         + if checks[|checks| - 1].namespace == ns then [checks[|checks| - 1].dataset] else []
  }

  ghost predicate SteadyPods(node: Node, pods: seq<PodInfo>, paths: Paths) {
    forall pod :: pod in pods && pod.path.Some? && pod.path.value in paths ==>
      MountTheorems.SteadyWrites(SettingOf(node, pod), Find(paths[pod.path.value], PASSWD))
  }

  /** At one pod's path, the one-dataset checks add up to one repair with their datasets. */
  lemma {:induction false} OneByOneAt(node: Node, checks: seq<SingleCheck>, pods: seq<PodInfo>, paths: Paths,
                                      pod: PodInfo)
    requires DistinctPaths(pods) && pod in pods && pod.path.Some? && SteadyPods(node, pods, paths)
    requires GoodFolders(ChecksIn(checks, pod.namespace))
    ensures DirAt(OneByOne(node, checks, pods, paths), pod.path.value)
            == DirAt(RepairPass(SettingOf(node, pod), ChecksIn(checks, pod.namespace), paths).paths, pod.path.value)
  {
    if checks == [] {
    } else {
      var k, front := checks[|checks| - 1], checks[..|checks| - 1];
      var s := SettingOf(node, pod);
      var done := ChecksIn(front, pod.namespace);
      var before := OneByOne(node, front, pods, paths);
      if k.namespace == pod.namespace {
        MountTheorems.FoldersApart(done, [k.dataset]);
        OneByOneAt(node, front, pods, paths, pod);
        OneAt(node, k.namespace, k.dataset, pods, before, pod);
        MountTheorems.BatchDecomposition(s, done, [k.dataset], paths);
        RepairIsLocal(s, [k.dataset], before, RepairPass(s, done, paths).paths);
      } else {
        assert done == ChecksIn(checks, pod.namespace);
        OneByOneAt(node, front, pods, paths, pod);
        assert forall p :: p in pods && p.path == pod.path ==> p == pod;
        OneElsewhere(node, k.namespace, k.dataset, pods, before, pod.path.value);
      }
    }
  }

  lemma {:induction false} OneByOneElsewhere(node: Node, checks: seq<SingleCheck>, pods: seq<PodInfo>, paths: Paths,
                                             x: string)
    requires !UsesPath(pods, x)
    ensures DirAt(OneByOne(node, checks, pods, paths), x) == DirAt(paths, x)
  {
    if checks == [] {
    } else {
      var k, front := checks[|checks| - 1], checks[..|checks| - 1];
      OneByOneElsewhere(node, front, pods, paths, x);
      OneElsewhere(node, k.namespace, k.dataset, pods, OneByOne(node, front, pods, paths), x);
    }
  }

  /** The checks ask for exactly the datasets the API lists, in any order. */
  ghost predicate ChecksCover(checks: seq<SingleCheck>, lists: string -> Listed) {
    forall ns ::
      && GoodFolders(ChecksIn(checks, ns)) && GoodFolders(DatasetsOf(lists(ns)))
      && forall ds :: ds in ChecksIn(checks, ns) <==> ds in DatasetsOf(lists(ns))
  }

  lemma PathsEqual(p: Paths, q: Paths)
    requires forall x :: DirAt(p, x) == DirAt(q, x)
    ensures p == q
  {
    forall x ensures x in p <==> x in q { assert DirAt(p, x) == DirAt(q, x); }
    forall x | x in p ensures p[x] == q[x] { assert DirAt(p, x) == DirAt(q, x); }
    assert p.Keys == q.Keys;
  }

  /** The pass over all datasets, cache included, leaves the same mounts as one check per
      dataset, whatever the order of those checks and whatever calls to the helper fail. */
  lemma AllDatasetsIsOneByOne(node: Node, answers: (string, nat) -> Listed, lists: string -> Listed,
                              checks: seq<SingleCheck>, pods: seq<PodInfo>, start: Checked)
    requires Stable(answers, lists) && DistinctPaths(pods) && SteadyPods(node, pods, start.paths)
    requires ChecksCover(checks, lists)
    ensures CachedPass(node, answers, pods, Cached(start, map[], [])).checked.paths
            == OneByOne(node, checks, pods, start.paths)
  {
    CachedIsDirect(node, answers, lists, pods, start);
    var all, single := DirectPass(node, lists, pods, start).paths, OneByOne(node, checks, pods, start.paths);
    forall x ensures DirAt(all, x) == DirAt(single, x) {
      if pod :| pod in pods && pod.path == Some(x) {
        var ns := pod.namespace;
        assert GoodFolders(ChecksIn(checks, ns));
        DirectAt(node, lists, pods, start, pod);
        OneByOneAt(node, checks, pods, start.paths, pod);
        MountTheorems.RepairOrderIndependence(SettingOf(node, pod), ChecksIn(checks, ns), DatasetsOf(lists(ns)),
                                              start.paths);
      } else {
        DirectElsewhere(node, lists, pods, start, x);
        OneByOneElsewhere(node, checks, pods, start.paths, x);
      }
    }
    PathsEqual(all, single);
  }
}
