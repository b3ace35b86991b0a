/** A whole reconcile pass of the driver controller: the checks before the applies, the applies, and
    what follows once the driver is installed. */
module DriverOperator {
  import opened Common
  import opened Conditions
  import opened DriverReconcile
  import A = ApplySpec
  import DP = DriverPods
  import P = PeriodicCheck
  import DriverPass

  datatype Got = Found | Missing | Unreadable

  /** What a pass is called for, and what it meets besides the cluster itself. `ready` says that
      the daemon sets and the stateful set are up; `text` is the message of whatever fails. */
  datatype Request = Request(got: Got, rightNamespace: bool, rightName: bool, ready: bool, text: string, at: int)

  datatype Requeue = Nothing | Failed | After(delay: int)

  const INSTALLING := Condition("Install", "False", "Installing", "Driver install in progress", 0)

  function InstallFailed(text: string): Condition {
    Condition("Install", "False", "InstallFailed", text, 0)
  }

  /** The stored conditions after one was set and the status written, if that succeeds. */
  function Written(conds: seq<Condition>, c: Condition, at: int, statusOk: bool): seq<Condition> {
    if statusOk then Set(conds, c, at) else conds
  }

  lemma InstallTells(conds: seq<Condition>, text: string, at: int)
    ensures Tells(Written(conds, INSTALLING, at, true), "Install", "False", "Installing", "Driver install in progress")
    ensures Tells(Written(conds, InstallFailed(text), at, true), "Install", "False", "InstallFailed", text)
    ensures Written(conds, INSTALLING, at, false) == Written(conds, InstallFailed(text), at, false) == conds
  {
    SetThenFound(conds, INSTALLING, at);
    SetThenFound(conds, InstallFailed(text), at);
  }

  /** The condition is set in a copy, which is written in any case or only if it changed. */
  method SetStatus(r: DriverReconciler, c: Condition, at: int, always: bool, statusOk: bool)
    modifies r`conditions
    ensures r.conditions == Written(old(r.conditions), c, at, statusOk)
  {
    var conds := new ConditionList([], []);
    conds.list := r.conditions;
    var change := conds.SetCondition(c, at);
    if (always || change) && statusOk {
      r.conditions := conds.list;
    }
  }

  /** The record of pods and the timer. */
  function BooksOf(r: DriverReconciler): (map<string, DP.DriverPod>, P.Clock)
    reads r
  {
    (r.driverPods, r.TheClock())
  }

  /** The first thing that goes wrong ends the pass: a driver that is gone or cannot be read, one in
      the wrong place, an apply, workloads that are not up yet. Only a pass that gets through all
      this looks at the driver pods and the timer. */
  method Reconcile(c: DriverPass.DriverController, r: DriverReconciler, request: Request, interval: int,
                   plain: seq<A.Asset>, cm: A.Asset, env: seq<DriverPass.EnvVar>, workloads: seq<A.Asset>,
                   given: Inputs)
    returns (next: Requeue, initiated: bool, nodes: seq<string>)
    requires c.operator == r.operator && r.RolesOk()
    requires cm.content.body.ConfigMap? && cm.key.kind.ConfigMapKind?
    requires forall a :: a in plain + workloads ==> A.Fits(a.key.kind, a.content.body)
    modifies r, c.operator
    ensures !request.got.Found? ==>
              && next == (if request.got.Missing? then Nothing else Failed)
              && BooksOf(r) == old(BooksOf(r)) && r.conditions == old(r.conditions)
              && c.operator.State() == old(c.operator.State())
    ensures request.got.Found? && !(request.rightNamespace && request.rightName) ==>
              && next == Failed && BooksOf(r) == old(BooksOf(r)) && c.operator.State() == old(c.operator.State())
              && r.conditions == Written(old(r.conditions), InstallFailed(request.text), request.at, given.statusOk)
    ensures request.got.Found? && request.rightNamespace && request.rightName ==>
              var p := DriverPass.Pass(c.TheSetup(), plain + [DriverPass.EnvAsset(cm, env)] + workloads,
                                       old(c.operator.State()));
              && (!p.done ==>
                    && next == Failed && BooksOf(r) == old(BooksOf(r)) && c.operator.State() == p.world
                    && r.conditions
                       == Written(old(r.conditions), InstallFailed(request.text), request.at, given.statusOk))
              && (p.done && !request.ready ==>
                    && next == After(MINUTE / 2) && BooksOf(r) == old(BooksOf(r)) && c.operator.State() == p.world
                    && r.conditions == Written(old(r.conditions), INSTALLING, given.installAt, given.statusOk))
              && (p.done && request.ready ==>
                    && r.driverPods == BookAfter(old(r.conditions), old(r.driverPods), given).recorded
                    && r.TheClock() == P.PassStep(interval, PassOf(given, initiated, nodes), old(r.TheClock()))
                    && c.operator.State() == r.SetUpBy(given, old(r.driverPods), c.operator.faults, p.world)
                    && r.conditions
                       == (if given.statusOk then ConditionsAfter(old(r.conditions), old(r.driverPods), given)
                           else old(r.conditions))
                    && next == (var clock := P.AfterRepair(PassOf(given, initiated, nodes), old(r.TheClock()));
                                if P.Due(interval, clock.last, given.check) && !given.periodicOk then Failed
                                else After(P.ResyncDuration(interval))))
  {
    initiated, nodes := false, [];
    if !request.got.Found? {
      return if request.got.Missing? then Nothing else Failed, initiated, nodes;
    }
    if !request.rightNamespace || !request.rightName {
      SetStatus(r, InstallFailed(request.text), request.at, true, given.statusOk);
      return Failed, initiated, nodes;
    }
    var done := c.ApplyAssets(plain, cm, env, workloads);
    if !done {
      SetStatus(r, InstallFailed(request.text), request.at, true, given.statusOk);
      return Failed, initiated, nodes;
    }
    if !request.ready {
      SetStatus(r, INSTALLING, given.installAt, false, given.statusOk);
      return After(MINUTE / 2), initiated, nodes;
    }
    var requeue;
    requeue, initiated, nodes := r.FinishPass(interval, given);
    next := if requeue.Some? then After(requeue.value) else Failed;
  }
}
