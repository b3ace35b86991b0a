/** What a whole pass over the pods of a node achieves, and that repeating it achieves no more. */
module NodeConvergence {
  import opened Wrappers
  import opened MountSpec
  import opened MountTheorems
  import opened NodeCheckSpec

  function DatasetsFor(lists: string -> Listed, pod: PodInfo): seq<Dataset> {
    DatasetsOf(lists(pod.namespace))
  }

  /** For every pod of the pass: clean-ups succeed and mounted buckets list non-empty. */
  ghost predicate AllWorks(node: Node, lists: string -> Listed, pods: seq<PodInfo>) {
    forall pod :: pod in pods && pod.path.Some? ==>
      var s, dss := SettingOf(node, pod), DatasetsFor(lists, pod);
      GoodFolders(dss) && CleansAll(s, dss) && MountsServe(s, dss)
  }

  /** The reports of the pass tell of no error. */
  ghost predicate ErrorFree(start: Checked, c: Checked) {
    forall i :: |start.reports| <= i < |c.reports| ==> c.reports[i].error == None
  }

  function ReportOn(node: Node, lists: string -> Listed, pod: PodInfo, paths: Paths): Report
    requires pod.path.Some?
  {
    var r := RepairPass(SettingOf(node, pod), DatasetsFor(lists, pod), paths);
    Report(pod, |DatasetsFor(lists, pod)|, r.count, r.error)
  }

  ghost predicate Reported(r: Report, start: Checked, c: Checked) {
    exists i :: |start.reports| <= i < |c.reports| && c.reports[i] == r
  }

  lemma {:induction false} ReportsGrow(node: Node, lists: string -> Listed, pods: seq<PodInfo>, start: Checked)
    ensures start.reports <= DirectPass(node, lists, pods, start).reports
  {
    if pods == [] {
    } else {
      ReportsGrow(node, lists, pods[..|pods| - 1], start);
    }
  }

  /** Every eligible pod of a namespace with datasets gets one report, on a repair of its path as it
      was before the pass. */
  lemma {:induction false} EachPodReported(node: Node, lists: string -> Listed, pods: seq<PodInfo>, start: Checked,
                                           pod: PodInfo)
    requires DistinctPaths(pods) && pod in pods && pod.path.Some? && DatasetsFor(lists, pod) != []
    ensures var c := DirectPass(node, lists, pods, start);
            Reported(ReportOn(node, lists, pod, start.paths), start, c)
  {
    var last, front := pods[|pods| - 1], pods[..|pods| - 1];
    var before := DirectPass(node, lists, front, start);
    ReportsGrow(node, lists, front, start);
    if pod == last {
      assert !UsesPath(front, pod.path.value);
      DirectElsewhere(node, lists, front, start, pod.path.value);
      RepairIsLocal(SettingOf(node, pod), DatasetsFor(lists, pod), before.paths, start.paths);
      var c := DirectPass(node, lists, pods, start);
      assert c.reports[|before.reports|] == ReportOn(node, lists, pod, start.paths);
    } else {
      EachPodReported(node, lists, front, start, pod);
      assert before.reports <= DirectPass(node, lists, pods, start).reports;
      var r := ReportOn(node, lists, pod, start.paths);
      var i :| |start.reports| <= i < |before.reports| && before.reports[i] == r;
      assert DirectPass(node, lists, pods, start).reports[i] == r;
    }
  }

  lemma NoErrorAtPod(node: Node, lists: string -> Listed, pods: seq<PodInfo>, start: Checked, pod: PodInfo)
    requires DistinctPaths(pods) && pod in pods && pod.path.Some?
    requires ErrorFree(start, DirectPass(node, lists, pods, start))
    ensures RepairPass(SettingOf(node, pod), DatasetsFor(lists, pod), start.paths).error == None
  {
    if DatasetsFor(lists, pod) != [] {
      EachPodReported(node, lists, pods, start, pod);
      var c := DirectPass(node, lists, pods, start);
      var i :| |start.reports| <= i < |c.reports| && c.reports[i] == ReportOn(node, lists, pod, start.paths);
    }
  }

  /** After a pass that reports no error, every concerned dataset of every eligible pod of the node
      is healthy. */
  lemma NodeConverges(node: Node, answers: (string, nat) -> Listed, lists: string -> Listed, pods: seq<PodInfo>,
                      start: Checked, pod: PodInfo, ds: Dataset)
    requires Stable(answers, lists) && DistinctPaths(pods) && AllWorks(node, lists, pods)
    requires ErrorFree(start, CachedPass(node, answers, pods, Cached(start, map[], [])).checked)
    requires pod in pods && pod.path.Some? && pod.path.value in start.paths && ds in DatasetsFor(lists, pod)
    requires Concerned(SettingOf(node, pod), ds, start.paths[pod.path.value])
    ensures var after := CachedPass(node, answers, pods, Cached(start, map[], [])).checked.paths;
            pod.path.value in after && Find(after[pod.path.value], ds.folder) == Some(Healthy)
  {
    CachedIsDirect(node, answers, lists, pods, start);
    NoErrorAtPod(node, lists, pods, start, pod);
    DirectAt(node, lists, pods, start, pod);
    Convergence(SettingOf(node, pod), DatasetsFor(lists, pod), start.paths);
  }

  lemma IdleAtPod(node: Node, lists: string -> Listed, pods: seq<PodInfo>, start: Checked, again: Checked, pod: PodInfo)
    requires DistinctPaths(pods) && AllWorks(node, lists, pods) && SteadyPods(node, pods, start.paths)
    requires ErrorFree(start, DirectPass(node, lists, pods, start))
    requires again.paths == DirectPass(node, lists, pods, start).paths
    requires pod in pods && pod.path.Some?
    ensures DirAt(DirectPass(node, lists, pods, again).paths, pod.path.value) == DirAt(again.paths, pod.path.value)
  {
    var s, dss := SettingOf(node, pod), DatasetsFor(lists, pod);
    var once := RepairPass(s, dss, start.paths).paths;
    DirectAt(node, lists, pods, start, pod);
    DirectAt(node, lists, pods, again, pod);
    RepairIsLocal(s, dss, again.paths, once);
    if s.path in start.paths {
      NoErrorAtPod(node, lists, pods, start, pod);
      SecondRepairIsIdle(s, dss, start.paths);
    }
  }

  /** And a second pass changes nothing on the node. */
  lemma SecondPassIsIdle(node: Node, answers: (string, nat) -> Listed, answers': (string, nat) -> Listed,
                         lists: string -> Listed, pods: seq<PodInfo>, start: Checked, again: Checked)
    requires Stable(answers, lists) && Stable(answers', lists) && DistinctPaths(pods)
    requires AllWorks(node, lists, pods) && SteadyPods(node, pods, start.paths)
    requires ErrorFree(start, CachedPass(node, answers, pods, Cached(start, map[], [])).checked)
    requires again.paths == CachedPass(node, answers, pods, Cached(start, map[], [])).checked.paths
    ensures CachedPass(node, answers', pods, Cached(again, map[], [])).checked.paths == again.paths
  {
    CachedIsDirect(node, answers, lists, pods, start);
    CachedIsDirect(node, answers', lists, pods, again);
    var after := DirectPass(node, lists, pods, again).paths;
    forall x ensures DirAt(after, x) == DirAt(again.paths, x) {
      if pod :| pod in pods && pod.path == Some(x) {
        IdleAtPod(node, lists, pods, start, again, pod);
      } else {
        DirectElsewhere(node, lists, pods, again, x);
      }
    }
    PathsEqual(after, again.paths);
  }
}
