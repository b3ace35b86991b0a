/** The node driver's reaction to a health check: the loops of reconcile.go. */
module NodeCheck {
  import opened Wrappers
  import opened Common
  import opened PodSelector
  import opened MountSpec
  import opened Mount
  import opened NodeCheckSpec
  import Conditions

  const POD_LABEL_WATCH_KEY := "csi.marketplace.redhat.com/watch"
  const POD_LABEL_WATCH_VALUE := "enabled"
  const POD_ANNOTATION_PATH := "csi.marketplace.redhat.com/dspath"

  const MESSAGE_COMPLETE := "Complete"

  datatype HealthCheck = HealthCheck(namespace: string, name: string, created: int,
                                     affectedNodes: seq<string>, dataset: string)

  datatype Posted = Posted(check: HealthCheck, answer: Answer)

  function EligiblePath(pod: Pod): Option<string> {
    if pod.phase != "Running" || |pod.annotations| == 0 then None
    else if POD_ANNOTATION_PATH !in pod.annotations then None
    else Some(pod.annotations[POD_ANNOTATION_PATH])
  }

  /** The path to repair is that of the annotation, if the pod runs. */
  lemma PathExactly(pod: Pod, path: string)
    ensures EligiblePath(pod) == Some(path) <==>
            && pod.phase == "Running" && "csi.marketplace.redhat.com/dspath" in pod.annotations
            && pod.annotations["csi.marketplace.redhat.com/dspath"] == path
  {
    if POD_ANNOTATION_PATH in pod.annotations {
      assert |pod.annotations| == |pod.annotations.Keys|;
    }
  }

  /** What the list call selects: running pods of the node that carry the watch label. */
  predicate IsTracked(nodeName: string, pod: Pod)
    reads pod
  {
    && pod.node == nodeName && pod.phase == "Running"
    && POD_LABEL_WATCH_KEY in pod.View() && pod.View()[POD_LABEL_WATCH_KEY] == POD_LABEL_WATCH_VALUE
  }

  function InfoOf(nodeName: string, pod: Pod): PodInfo
    reads pod
  {
    PodInfo(pod.namespace, IsTracked(nodeName, pod), EligiblePath(pod), pod.View())
  }

  /** `infos` is what a pass sees of these pods. */
  ghost predicate Seen(nodeName: string, pods: seq<Pod>, infos: seq<PodInfo>)
    reads pods
  {
    |infos| == |pods| && forall i :: 0 <= i < |pods| ==> InfoOf(nodeName, pods[i]) == infos[i]
  }

  function PodsIn(nodeName: string, pods: seq<Pod>, ns: string): (chosen: seq<Pod>)
    reads pods
    ensures forall p :: p in chosen ==> p in pods && (ns == "" || p.namespace == ns)
  {
    if pods == [] then []
    else
      var last := pods[|pods| - 1];
      PodsIn(nodeName, pods[..|pods| - 1], ns)
      + if IsTracked(nodeName, last) && (ns == "" || last.namespace == ns) then [last] else []
  }

  /** The list call selects the running pods of the node that carry the watch label, in the namespace
      asked for, if any. */
  lemma {:induction false} PodsInExactly(nodeName: string, pods: seq<Pod>, ns: string, pod: Pod)
    ensures pod in PodsIn(nodeName, pods, ns) <==>
            && pod in pods && pod.node == nodeName && pod.phase == "Running" && (ns == "" || pod.namespace == ns)
            && "csi.marketplace.redhat.com/watch" in pod.View()
            && pod.View()["csi.marketplace.redhat.com/watch"] == "enabled"
  {
    if pods == [] {
    } else {
      PodsInExactly(nodeName, pods[..|pods| - 1], ns, pod);
      assert pod in pods <==> pod in pods[..|pods| - 1] || pod == pods[|pods| - 1];
    }
  }

  /** The Kubernetes API as one node sees it. The n-th list call may answer differently each
      time; `calls` is the log of the list calls made. */
  class Api {
    const items: (string, nat) -> Result<seq<Item>, string>
    const config: Result<Credential, string>
    const pods: Result<seq<Pod>, string>
    const datasetOf: (string, string) -> Result<Dataset, string>
    var calls: seq<Call>

    constructor (items: (string, nat) -> Result<seq<Item>, string>, config: Result<Credential, string>,
                 pods: Result<seq<Pod>, string>, datasetOf: (string, string) -> Result<Dataset, string>)
      ensures this.items == items && this.config == config && this.pods == pods && this.datasetOf == datasetOf
      ensures calls == []
    {
      this.items, this.config, this.pods, this.datasetOf, calls := items, config, pods, datasetOf, [];
    }

    function AnswersFrom(offset: nat): (string, nat) -> Listed {
      (ns, n: nat) => Read(items(ns, offset + n))
    }

    method GetMarketplaceDatasets(ns: string) returns (r: Listed)
      modifies this
      ensures r == Read(items(ns, |old(calls)|))
      ensures calls == old(calls) + [Call(ns, r.Success?)]
    {
      var list := items(ns, |calls|);
      if list.Failure? {
        calls := calls + [Call(ns, false)];
        return Failure(list.error);
      }
      var datasets: seq<Dataset> := [];
      var readError: Option<string> := None;
      var all := list.value;
      for i := 0 to |all|
        invariant datasets == ParsedOf(all[..i]) && readError == LastBad(all[..i])
      {
        assert all[..i + 1][..i] == all[..i];
        match all[i]
        case Unparsable(message) =>
          readError := Some(message);
        case Parsed(dataset) =>
          datasets := datasets + [dataset];
      }
      assert all[..|all|] == all;
      if |datasets| == 0 && readError.Some? {
        calls := calls + [Call(ns, false)];
        return Failure(readError.value);
      }
      calls := calls + [Call(ns, true)];
      return Success(datasets);
    }

    /** The tracked pods of this node, in one namespace or (for "") in all. */
    method GetPodsToReconcile(nodeName: string, ns: string) returns (r: Result<seq<Pod>, string>)
      ensures pods.Failure? ==> r == pods
      ensures pods.Success? ==> r == Success(PodsIn(nodeName, pods.value, ns))
    {
      if pods.Failure? {
        return pods;
      }
      var chosen: seq<Pod> := [];
      for i := 0 to |pods.value|
        invariant chosen == PodsIn(nodeName, pods.value[..i], ns)
      {
        assert pods.value[..i + 1][..i] == pods.value[..i];
        if IsTracked(nodeName, pods.value[i]) && (ns == "" || pods.value[i].namespace == ns) {
          chosen := chosen + [pods.value[i]];
        }
      }
      assert pods.value[..|pods.value|] == pods.value;
      return Success(chosen);
    }
  }

  lemma {:induction false} ChosenSeen(nodeName: string, pods: seq<Pod>, infos: seq<PodInfo>, ns: string)
    requires Seen(nodeName, pods, infos)
    ensures Seen(nodeName, PodsIn(nodeName, pods, ns), InfosIn(infos, ns))
  {
    if pods == [] {
    } else {
      ChosenSeen(nodeName, pods[..|pods| - 1], infos[..|pods| - 1], ns);
      assert InfoOf(nodeName, pods[|pods| - 1]) == infos[|pods| - 1];
    }
  }

  /** The file system and the reports after a check, and the answer posted, if any. */
  datatype Reaction = Reaction(paths: Paths, reports: seq<Report>, answer: Option<Answer>)

  function Refused(start: Checked, message: string): Reaction {
    Reaction(start.paths, start.reports, Some(Answer(ACTION_ERROR, 0, message)))
  }

  function Repaired(c: Checked): Reaction {
    Reaction(c.paths, c.reports, Some(Answer(ACTION_REPAIRED, c.podsChecked, MESSAGE_COMPLETE)))
  }

  function Log(posted: seq<Posted>, hc: HealthCheck, answer: Option<Answer>): seq<Posted> {
    if answer.Some? then posted + [Posted(hc, answer.value)] else posted
  }

  predicate Affects(nodes: seq<string>, nodeName: string) {
    nodes == [] || nodeName in nodes || "" in nodes
  }

  lemma CachedPassNext(node: Node, answers: (string, nat) -> Listed, infos: seq<PodInfo>, c: Cached, i: nat)
    requires i < |infos|
    ensures CachedPass(node, answers, infos[..i + 1], c)
            == CachedStep(node, answers, infos[i], CachedPass(node, answers, infos[..i], c))
  {
    assert infos[..i + 1][..i] == infos[..i];
  }

  class NodeDriver {
    const nodeName: string
    const startTime: int
    const host: Host
    const api: Api
    var posted: seq<Posted>
    var reports: seq<Report>

    constructor (nodeName: string, startTime: int, host: Host, api: Api)
      ensures this.nodeName == nodeName && this.startTime == startTime && this.host == host && this.api == api
      ensures posted == [] && reports == []
    {
      this.nodeName, this.startTime, this.host, this.api, posted, reports := nodeName, startTime, host, api, [], [];
    }

    function TheNode(c: Credential): Node {
      Node(host.helper, host.syntax, FormatCredential(c))
    }

    /** Where a pass starts. */
    function Here(): Checked
      reads this, host
    {
      Checked(host.paths, 0, reports)
    }

    function Pods(): seq<Pod> {
      if api.pods.Success? then api.pods.value else []
    }

    method IsCheckNeededForThisNode(nodes: seq<string>) returns (needed: bool)
      ensures needed <==> nodes == [] || nodeName in nodes || "" in nodes
    {
      if |nodes| == 0 {
        return true;
      }
      for i := 0 to |nodes|
        invariant nodeName !in nodes[..i] && "" !in nodes[..i]
      {
        if nodes[i] == nodeName || nodes[i] == "" {
          return true;
        }
      }
      assert nodes[..|nodes|] == nodes;
      return false;
    }

    method UpdateHealthCheckStatusSkip(hc: HealthCheck, action: string)
      modifies this`posted
      ensures posted == old(posted) + [Posted(hc, Answer(action, 0, ""))]
    {
      posted := posted + [Posted(hc, Answer(action, 0, ""))];
    }

    method UpdateHealthCheckStatus(hc: HealthCheck, count: nat, err: Option<string>)
      modifies this`posted
      ensures posted == old(posted) + [Posted(hc, if err.Some? then Answer(ACTION_ERROR, count, err.value)
                                                  else Answer(ACTION_REPAIRED, count, MESSAGE_COMPLETE))]
    {
      var action, message := ACTION_REPAIRED, MESSAGE_COMPLETE;
      if err.Some? {
        action, message := ACTION_ERROR, err.value;
      }
      posted := posted + [Posted(hc, Answer(action, count, message))];
    }

    /** Repair one running pod and report what came of it. */
    method RepairRunningPod(cred: Credential, pod: Pod, datasets: seq<Dataset>, path: string, ghost c: Checked)
      returns (ok: bool)
      requires EligiblePath(pod) == Some(path) && datasets != [] && c.paths == host.paths && c.reports == reports
      modifies host, pod, this`reports
      ensures InfoOf(nodeName, pod) == old(InfoOf(nodeName, pod))
      ensures RepairPod(TheNode(cred), old(InfoOf(nodeName, pod)), datasets, c)
              == Checked(host.paths, if ok then c.podsChecked + 1 else c.podsChecked, reports)
    {
      ghost var s := SettingOf(TheNode(cred), InfoOf(nodeName, pod));
      var vmt := VolumeMountDetails(cred, datasets, pod);
      assert host.SettingFor(vmt, path) == s;
      var count, err := host.ReconcileDatasets(vmt, path);
      reports := reports + [Report(InfoOf(nodeName, pod), |datasets|, count, err)];
      return err == None;
    }

    /** The dataset list of a namespace, from the pass's own map or else from the API. */
    method DatasetsFor(ns: string, datasetsMap: map<string, seq<Dataset>>, ghost before: seq<Call>, ghost c: Cached)
      returns (datasetsMap': map<string, seq<Dataset>>, datasets: Option<seq<Dataset>>)
      requires datasetsMap == c.cache && api.calls == before + c.calls
      modifies api
      ensures var (c', dss) := Lookup(api.AnswersFrom(|before|), ns, c);
              datasetsMap' == c'.cache && datasets == dss && api.calls == before + c'.calls
    {
      datasetsMap' := datasetsMap;
      if ns !in datasetsMap {
        var ds := api.GetMarketplaceDatasets(ns);
        if ds.Failure? {
          return datasetsMap, None;
        }
        datasetsMap' := datasetsMap[ns := ds.value];
      }
      datasets := Some(datasetsMap'[ns]);
    }

    /** The body of the loop over all pods. */
    method CheckPod(cred: Credential, pod: Pod, datasetsMap: map<string, seq<Dataset>>, ghost before: seq<Call>,
                    ghost c: Cached)
      returns (ok: bool, datasetsMap': map<string, seq<Dataset>>, ghost c': Cached)
      requires datasetsMap == c.cache && api.calls == before + c.calls && host.paths == c.checked.paths
      requires reports == c.checked.reports
      modifies host, api, pod, this`reports
      ensures InfoOf(nodeName, pod) == old(InfoOf(nodeName, pod))
      ensures c' == CachedStep(TheNode(cred), api.AnswersFrom(|before|), old(InfoOf(nodeName, pod)), c)
      ensures datasetsMap' == c'.cache && api.calls == before + c'.calls
      ensures Checked(host.paths, if ok then c.checked.podsChecked + 1 else c.checked.podsChecked, reports)
              == c'.checked
    {
      c' := CachedStep(TheNode(cred), api.AnswersFrom(|before|), InfoOf(nodeName, pod), c);
      ok, datasetsMap' := false, datasetsMap;
      if EligiblePath(pod) == None {
        return;
      }
      var path := pod.annotations[POD_ANNOTATION_PATH];
      var datasets;
      datasetsMap', datasets := DatasetsFor(pod.namespace, datasetsMap, before, c);
      if datasets == None {
        return;
      }
      if |datasets.value| == 0 {
        return;
      }
      ok := RepairRunningPod(cred, pod, datasets.value, path, c.checked);
    }

    /** The loop over all pods. */
    method CheckAllPods(cred: Credential, pods: seq<Pod>, ghost infos: seq<PodInfo>) returns (podsChecked: nat)
      requires Seen(nodeName, pods, infos)
      modifies host, api, pods, this`reports
      ensures Seen(nodeName, pods, infos)
      ensures var c := CachedPass(TheNode(cred), api.AnswersFrom(|old(api.calls)|), infos,
                                  Cached(old(Here()), map[], []));
              && Checked(host.paths, podsChecked, reports) == c.checked && api.calls == old(api.calls) + c.calls
    {
      ghost var before := api.calls;
      ghost var node, answers := TheNode(cred), api.AnswersFrom(|before|);
      ghost var start := Cached(Here(), map[], []);
      ghost var c := start;
      assert infos[..0] == [];
      var datasetsMap: map<string, seq<Dataset>> := map[];
      podsChecked := 0;
      for i := 0 to |pods|
        invariant Seen(nodeName, pods, infos)
        invariant c == CachedPass(node, answers, infos[..i], start)
        invariant Checked(host.paths, podsChecked, reports) == c.checked && datasetsMap == c.cache
        invariant api.calls == before + c.calls
      {
        CachedPassNext(node, answers, infos, start, i);
        assert InfoOf(nodeName, pods[i]) == infos[i];
        var ok;
        ok, datasetsMap, c := CheckPod(cred, pods[i], datasetsMap, before, c);
        if ok {
          podsChecked := podsChecked + 1;
        }
      }
      assert infos[..|pods|] == infos;
    }

    function ReactionToAll(infos: seq<PodInfo>, start: Checked, offset: nat): Reaction {
      if api.config.Failure? then Refused(start, api.config.error)
      else if api.pods.Failure? then Refused(start, api.pods.error)
      else if InfosIn(infos, "") == [] then Reaction(start.paths, start.reports, Some(Answer(ACTION_NO_PODS, 0, "")))
      else Repaired(CachedPass(TheNode(api.config.value), api.AnswersFrom(offset), InfosIn(infos, ""),
                               Cached(start, map[], [])).checked)
    }

    /** All datasets in all namespaces. */
    method ProcessHealthCheckAll(hc: HealthCheck, ghost infos: seq<PodInfo>)
      requires Seen(nodeName, Pods(), infos)
      modifies this`posted, this`reports, host, api, Pods()
      ensures var r := ReactionToAll(infos, old(Here()), |old(api.calls)|);
              host.paths == r.paths && reports == r.reports && posted == Log(old(posted), hc, r.answer)
    {
      if api.config.Failure? {
        UpdateHealthCheckStatus(hc, 0, Some(api.config.error));
        return;
      }
      var list := api.GetPodsToReconcile(nodeName, "");
      if list.Failure? {
        UpdateHealthCheckStatus(hc, 0, Some(list.error));
        return;
      }
      ChosenSeen(nodeName, Pods(), infos, "");
      if |list.value| == 0 {
        UpdateHealthCheckStatusSkip(hc, ACTION_NO_PODS);
        return;
      }
      var podsChecked := CheckAllPods(api.config.value, list.value, InfosIn(infos, ""));
      UpdateHealthCheckStatus(hc, podsChecked, None);
    }

    /** The loop over the pods of one namespace. */
    method CheckPodsForDataset(cred: Credential, ghost ns: string, pods: seq<Pod>, ds: Dataset,
                               ghost infos: seq<PodInfo>)
      returns (podsChecked: nat)
      requires Seen(nodeName, pods, infos) && forall p :: p in pods ==> p.namespace == ns
      modifies host, pods, this`reports
      ensures Checked(host.paths, podsChecked, reports) == OnePass(TheNode(cred), ns, ds, infos, old(Here()))
    {
      ghost var node, before := TheNode(cred), Here();
      assert infos[..0] == [];
      podsChecked := 0;
      for i := 0 to |pods|
        invariant Seen(nodeName, pods, infos)
        invariant Checked(host.paths, podsChecked, reports) == OnePass(node, ns, ds, infos[..i], before)
      {
        var pod := pods[i];
        assert infos[..i + 1][..i] == infos[..i];
        if EligiblePath(pod) == None {
          continue;
        }
        var path := pod.annotations[POD_ANNOTATION_PATH];
        var ok := RepairRunningPod(cred, pod, [ds], path, OnePass(node, ns, ds, infos[..i], before));
        if ok {
          podsChecked := podsChecked + 1;
        }
      }
      assert infos[..|pods|] == infos;
    }

    /** Repair one dataset in the pods of a namespace: None when there are no pods. */
    method RepairInNamespace(cred: Credential, ns: string, ds: Dataset, ghost infos: seq<PodInfo>)
      returns (r: Result<Option<nat>, string>)
      requires ns != "" && Seen(nodeName, Pods(), infos)
      modifies host, Pods(), this`reports
      ensures api.pods.Failure? ==> r == Failure(api.pods.error) && Here() == old(Here())
      ensures api.pods.Success? ==> r.Success? && (r.value == None <==> InfosIn(infos, ns) == [])
      ensures api.pods.Success? ==>
        var c := OnePass(TheNode(cred), ns, ds, InfosIn(infos, ns), old(Here()));
        host.paths == c.paths && reports == c.reports && (r.value.Some? ==> r.value.value == c.podsChecked)
    {
      var list := api.GetPodsToReconcile(nodeName, ns);
      if list.Failure? {
        return Failure(list.error);
      }
      ChosenSeen(nodeName, Pods(), infos, ns);
      if |list.value| == 0 {
        return Success(None);
      }
      var podsChecked := CheckPodsForDataset(cred, ns, list.value, ds, InfosIn(infos, ns));
      return Success(Some(podsChecked));
    }

    function ReactionToOne(ns: string, ds: Result<Dataset, string>, infos: seq<PodInfo>, start: Checked): Reaction {
      if ds.Failure? then Reaction(start.paths, start.reports, None)
      else if api.config.Failure? then Refused(start, api.config.error)
      else if api.pods.Failure? then Refused(start, api.pods.error)
      else if InfosIn(infos, ns) == [] then Reaction(start.paths, start.reports, Some(Answer(ACTION_NO_PODS, 0, "")))
      else Repaired(OnePass(TheNode(api.config.value), ns, ds.value, InfosIn(infos, ns), start))
    }

    /** One dataset of the check's own namespace, as the API returns it. A dataset that cannot
        be read gets no answer at all. */
    method ProcessHealthCheckForDataset(hc: HealthCheck, ds: Result<Dataset, string>, ghost infos: seq<PodInfo>)
      requires hc.namespace != "" && Seen(nodeName, Pods(), infos)
      modifies this`posted, this`reports, host, Pods()
      ensures var r := ReactionToOne(hc.namespace, ds, infos, old(Here()));
              host.paths == r.paths && reports == r.reports && posted == Log(old(posted), hc, r.answer)
    {
      if ds.Failure? {
        return;
      }
      if api.config.Failure? {
        UpdateHealthCheckStatus(hc, 0, Some(api.config.error));
        return;
      }
      var r := RepairInNamespace(api.config.value, hc.namespace, ds.value, infos);
      if r.Failure? {
        UpdateHealthCheckStatus(hc, 0, Some(r.error));
        return;
      }
      if r.value == None {
        UpdateHealthCheckStatusSkip(hc, ACTION_NO_PODS);
        return;
      }
      UpdateHealthCheckStatus(hc, r.value.value, None);
    }

    function ReactionTo(hc: HealthCheck, infos: seq<PodInfo>, start: Checked, offset: nat): Reaction {
      if startTime > hc.created then Reaction(start.paths, start.reports, None)
      else if !Affects(hc.affectedNodes, nodeName) then
        Reaction(start.paths, start.reports, Some(Answer(ACTION_NONE, 0, "")))
      else if hc.dataset == "" then ReactionToAll(infos, start, offset)
      else ReactionToOne(hc.namespace, api.datasetOf(hc.namespace, hc.dataset), infos, start)
    }

    /** One reaction to a new check object: a check older than this process gets no answer, one
        that does not concern this node is answered all the same. */
    method ProcessHealthCheck(hc: HealthCheck, ghost infos: seq<PodInfo>)
      requires hc.namespace != "" && Seen(nodeName, Pods(), infos)
      modifies this`posted, this`reports, host, api, Pods()
      ensures var r := ReactionTo(hc, infos, old(Here()), |old(api.calls)|);
              host.paths == r.paths && reports == r.reports && posted == Log(old(posted), hc, r.answer)
    {
      if startTime > hc.created {
        return;
      }
      var needed := IsCheckNeededForThisNode(hc.affectedNodes);
      if !needed {
        UpdateHealthCheckStatusSkip(hc, ACTION_NONE);
        return;
      }
      if hc.dataset == "" {
        ProcessHealthCheckAll(hc, infos);
      } else {
        ProcessHealthCheckForDataset(hc, api.datasetOf(hc.namespace, hc.dataset), infos);
      }
    }
  }

  // ---------------------------------------------------------------- the condition of a pod

  const POD_CONDITION_TYPE := "csi.marketplace.redhat.com/datasets"

  /** Complete without an error; with one, a warning if some dataset was mounted all the same. */
  function PodReason(r: Report): string {
    if r.error == None then "Complete" else if r.count > 0 then "Warning" else "Error"
  }

  function PodConditionOf(r: Report, text: string): Conditions.PodCondition {
    Conditions.PodCondition(POD_CONDITION_TYPE, if r.error == None then "True" else "False", PodReason(r), text, 0, 0)
  }

  /** What the pod then shows: complete without an error, a warning if datasets were mounted all the
      same, an error otherwise. */
  lemma PodShows(list: seq<Conditions.PodCondition>, r: Report, text: string, now: int)
    ensures var list' := Conditions.SetPod(list, PodConditionOf(r, text), now);
            var kind := "csi.marketplace.redhat.com/datasets";
            if r.error == None then Conditions.PodTells(list', kind, "True", "Complete", text)
            else if r.count > 0 then Conditions.PodTells(list', kind, "False", "Warning", text)
            else Conditions.PodTells(list', kind, "False", "Error", text)
  {
    Conditions.SetPodTells(list, PodConditionOf(r, text), now);
  }

  /** What becomes of a report: the pod is read again, its condition set in the copy, and the copy
      written if it changed. The calls that fail leave the pod's status as it was. */
  method UpdatePodStatusOnReconcile(pod: Conditions.PodStatus, r: Report, text: string, now: int, got: bool,
                                    updates: bool)
    modifies pod
    ensures pod.conditions
            == if got && updates then Conditions.SetPod(old(pod.conditions), PodConditionOf(r, text), now)
               else old(pod.conditions)
  {
    if !got {
      return;
    }
    var copy := new Conditions.PodStatus(pod.conditions);
    var upd := copy.UpdatePodCondition(PodConditionOf(r, text), now);
    if upd && updates {
      pod.conditions := copy.conditions;
    }
  }
}
