/** A node's whole response to a check: its repairs, and the answer that they lead to as an update
    call of the protocol. */
module HealthCheckResponse {
  import opened Wrappers
  import opened Common
  import opened NodeCheck
  import NodeCheckSpec
  import MountSpec
  import P = HealthCheckProtocol
  import C = HealthCheckCalls
  import HealthCheckActors

  /** The answer that the reaction to the check calls for is the one the update call writes, and the
      call lands unless the object is deleted, a call refused, or five updates meet a conflict;
      without an answer the check object is left alone. */
  method Respond(driver: NodeDriver, world: HealthCheckActors.World, hc: HealthCheck,
                 ghost infos: seq<NodeCheckSpec.PodInfo>, gets: nat -> bool, updates: nat -> bool)
    returns (landed: bool, ghost steps: seq<P.Step>)
    requires hc.namespace != "" && Seen(driver.nodeName, driver.Pods(), infos)
    requires P.Inv(world.state) && world.state.history != [] && !P.Busy(world.state.callers, driver.nodeName)
    requires forall k :: HealthCheckActors.ByOthers(world.schedule(k), driver.nodeName)
    modifies driver`posted, driver`reports, driver.host, driver.api, driver.Pods(), world
    ensures var r := driver.ReactionTo(hc, infos, old(driver.Here()), |old(driver.api.calls)|);
            driver.host.paths == r.paths && driver.reports == r.reports
    ensures match driver.ReactionTo(hc, infos, old(driver.Here()), |old(driver.api.calls)|).answer
            case None => !landed && world.state == old(world.state)
            case Some(a) =>
              && (landed <==>
                    exists v :: |old(world.state.writes)| < v && C.HoldsAnswer(world.state, v, driver.nodeName, a))
              && (landed <==> C.WroteSince(world.state, |old(world.state.writes)|, driver.nodeName))
              && HealthCheckActors.Explained(landed, |old(world.state.writes)|, world.state, steps, driver.nodeName,
                                             gets, updates)
  {
    var before := |driver.posted|;
    driver.ProcessHealthCheck(hc, infos);
    if |driver.posted| == before {
      return false, [];
    }
    var answer := driver.posted[before].answer;
    landed, steps := world.UpdateHealthCheckStatus(driver.nodeName, answer, gets, updates);
  }

  // ---------------------------------------------------------------- which answer

  predicate Concerns(driver: NodeDriver, hc: HealthCheck) {
    hc.affectedNodes == [] || driver.nodeName in hc.affectedNodes || "" in hc.affectedNodes
  }

  predicate DatasetKnown(driver: NodeDriver, hc: HealthCheck) {
    hc.dataset == "" || driver.api.datasetOf(hc.namespace, hc.dataset).Success?
  }

  /** The check reaches the repairs: it is not older than the process, concerns the node, and its
      dataset, if it names one, can be read. */
  predicate Reached(driver: NodeDriver, hc: HealthCheck) {
    driver.startTime <= hc.created && Concerns(driver, hc) && DatasetKnown(driver, hc)
  }

  predicate Readable(driver: NodeDriver) {
    driver.api.config.Success? && driver.api.pods.Success?
  }

  /** The node has a tracked pod, in the check's namespace if the check is for one dataset. */
  ghost predicate HasPods(hc: HealthCheck, infos: seq<NodeCheckSpec.PodInfo>) {
    exists pod :: pod in infos && pod.tracked
                  && (hc.dataset == "" || hc.namespace == "" || pod.namespace == hc.namespace)
  }

  lemma PodsChosen(hc: HealthCheck, infos: seq<NodeCheckSpec.PodInfo>)
    ensures HasPods(hc, infos) <==> NodeCheckSpec.InfosIn(infos, if hc.dataset == "" then "" else hc.namespace) != []
  {
    var ns := if hc.dataset == "" then "" else hc.namespace;
    var chosen := NodeCheckSpec.InfosIn(infos, ns);
    forall pod ensures pod in chosen <==> pod in infos && pod.tracked && (ns == "" || pod.namespace == ns) {
      NodeCheckSpec.InfosInExactly(infos, ns, pod);
    }
    if chosen != [] {
      assert chosen[0] in chosen;
    }
  }

  predicate Says(a: Option<Answer>, response: string) {
    a.Some? && a.value.response == response
  }

  lemma ResponsesDiffer()
    ensures "NoAction" != "NoEligiblePods" && "NoAction" != "Repaired" && "NoAction" != "Error"
    ensures "NoEligiblePods" != "Repaired" && "NoEligiblePods" != "Error" && "Repaired" != "Error"
  {
    assert |"NoAction"| == |"Repaired"| && "NoAction"[0] != "Repaired"[0];
  }

  /** Which of the answers a check gets. */
  lemma AnswerExactly(driver: NodeDriver, hc: HealthCheck, infos: seq<NodeCheckSpec.PodInfo>,
                      start: NodeCheckSpec.Checked, offset: nat)
    ensures var a := driver.ReactionTo(hc, infos, start, offset).answer;
            && (a == None <==> driver.startTime > hc.created || (Concerns(driver, hc) && !DatasetKnown(driver, hc)))
            && (Says(a, "NoAction") <==> driver.startTime <= hc.created && !Concerns(driver, hc))
            && (Says(a, "Error") <==> Reached(driver, hc) && !Readable(driver))
            && (Says(a, "NoEligiblePods") <==> Reached(driver, hc) && Readable(driver) && !HasPods(hc, infos))
            && (Says(a, "Repaired") <==> Reached(driver, hc) && Readable(driver) && HasPods(hc, infos))
  {
    ResponsesDiffer();
    PodsChosen(hc, infos);
  }

  /** What an answer says: the error that stopped the check; or, after repairs, the number of pods
      repaired without error, which is the number of reports made without error since the start.
      Nothing is changed or reported otherwise. */
  lemma AnswerSays(driver: NodeDriver, hc: HealthCheck, infos: seq<NodeCheckSpec.PodInfo>,
                   start: NodeCheckSpec.Checked, offset: nat)
    requires start.podsChecked == 0
    ensures var r := driver.ReactionTo(hc, infos, start, offset);
            && (Says(r.answer, "Repaired") ==>
                  && start.reports <= r.reports
                  && r.answer.value.podCount == NodeCheckSpec.Successes(r.reports[|start.reports|..])
                  && r.answer.value.text == "Complete")
            && (!Says(r.answer, "Repaired") ==> r.paths == start.paths && r.reports == start.reports)
            && (r.answer.Some? && !Says(r.answer, "Repaired") ==> r.answer.value.podCount == 0)
            && (Says(r.answer, "NoAction") || Says(r.answer, "NoEligiblePods") ==> r.answer.value.text == "")
            && (Says(r.answer, "Error") ==>
                  if driver.api.config.Failure? then r.answer.value.text == driver.api.config.error
                  else driver.api.pods.Failure? && r.answer.value.text == driver.api.pods.error)
  {
    ResponsesDiffer();
    AnswerExactly(driver, hc, infos, start, offset);
    if Says(driver.ReactionTo(hc, infos, start, offset).answer, "Repaired") {
      var node := driver.TheNode(driver.api.config.value);
      if hc.dataset == "" {
        NodeCheckSpec.CountIsSuccesses(node, driver.api.AnswersFrom(offset), NodeCheckSpec.InfosIn(infos, ""),
                                       NodeCheckSpec.Cached(start, map[], []));
      } else {
        NodeCheckSpec.OneCountIsSuccesses(node, hc.namespace, driver.api.datasetOf(hc.namespace, hc.dataset).value,
                                          NodeCheckSpec.InfosIn(infos, hc.namespace), start);
      }
    }
  }

  /** A node answers "Error" exactly if the check concerns it, the dataset (if one is named) can be
      read, and the credential or the pods cannot. Repairs that fail never make it an error:
      such pods are only missing from the count. */
  lemma ErrorAnswerExactly(driver: NodeDriver, hc: HealthCheck, infos: seq<NodeCheckSpec.PodInfo>,
                           start: NodeCheckSpec.Checked, offset: nat)
    ensures var a := driver.ReactionTo(hc, infos, start, offset).answer;
            (a.Some? && a.value.response == ACTION_ERROR) <==>
            && driver.startTime <= hc.created && Affects(hc.affectedNodes, driver.nodeName)
            && (hc.dataset != "" ==> driver.api.datasetOf(hc.namespace, hc.dataset).Success?)
            && (driver.api.config.Failure? || driver.api.pods.Failure?)
  {
    assert ACTION_NONE[0] != ACTION_ERROR[0] && ACTION_NO_PODS[0] != ACTION_ERROR[0];
    assert ACTION_REPAIRED[0] != ACTION_ERROR[0];
  }

  lemma {:induction false} NoErrorWritten(writes: seq<P.Write>)
    requires forall w :: w in writes && w.ByNode? ==> w.answer.response != ACTION_ERROR
    ensures forall n :: n in P.LastAnswers(writes) ==> P.LastAnswers(writes)[n].response != ACTION_ERROR
  {
    if writes == [] {
    } else {
      assert writes[|writes| - 1] in writes;
      NoErrorWritten(writes[..|writes| - 1]);
    }
  }

  /** One pod whose repair fails: the node answers "Repaired", with no pod counted, and if it is the
      only affected node the repair is judged complete. */
  lemma FailedRepairJudgedComplete(driver: NodeDriver, hc: HealthCheck, pod: NodeCheckSpec.PodInfo,
                                   ds: MountSpec.Dataset, start: NodeCheckSpec.Checked, offset: nat)
    requires driver.startTime <= hc.created && Affects(hc.affectedNodes, driver.nodeName) && hc.dataset == ""
    requires driver.api.config.Success? && driver.api.pods.Success?
    requires driver.api.AnswersFrom(offset)(pod.namespace, 0) == Success([ds])
    requires pod.tracked && pod.path.Some? && pod.path.value in start.paths && start.podsChecked == 0
    requires forall e :: driver.host.helper.writes(pod.path.value, e).WriteFailed?
    ensures var r := driver.ReactionTo(hc, [pod], start, offset);
            && r.answer == Some(Answer(ACTION_REPAIRED, 0, MESSAGE_COMPLETE))
            && |r.reports| == |start.reports| + 1 && r.reports[|start.reports|].error.Some?
            && P.VerdictOn(P.Check([driver.nodeName], map[driver.nodeName := P.EntryOf(r.answer.value)], []))
               == P.Complete
  {
    assert [pod][..0] == [] && NodeCheckSpec.InfosIn([], "") == [];
    assert NodeCheckSpec.InfosIn([pod], "") == [pod];
    var node := driver.TheNode(driver.api.config.value);
    var answers, c := driver.api.AnswersFrom(offset), NodeCheckSpec.Cached(start, map[], []);
    assert NodeCheckSpec.CachedPass(node, answers, [], c) == c;
    assert NodeCheckSpec.CachedPass(node, answers, [pod], c) == NodeCheckSpec.CachedStep(node, answers, pod, c);
    assert ACTION_REPAIRED[0] != ACTION_ERROR[0];
    assert |map[driver.nodeName := P.EntryOf(Answer(ACTION_REPAIRED, 0, MESSAGE_COMPLETE))]| == 1;
  }

  /** So, in any run in which no node posts an error, the operator never judges the repair failed,
      however many repairs failed. */
  lemma NoErrorPostedNoFailure(affected: seq<string>, steps: seq<P.Step>, v: nat)
    requires v < |P.Run(P.Created(affected), steps).history|
    requires forall w :: w in P.Run(P.Created(affected), steps).writes && w.ByNode? ==>
            w.answer.response != ACTION_ERROR
    ensures P.VerdictOn(P.Run(P.Created(affected), steps).history[v]) != P.Failed
  {
    var s := P.Run(P.Created(affected), steps);
    P.EveryAnswerStands(affected, steps, v);
    assert forall w :: w in s.writes[..v] ==> w in s.writes;
    NoErrorWritten(s.writes[..v]);
    forall n | n in s.history[v].answers ensures s.history[v].answers[n].response != ACTION_ERROR {
      assert n in P.Record(s.history[v].answers);
    }
  }
}
