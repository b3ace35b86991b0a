/**
 The end of a reconcile pass of the driver controller, once the driver is installed: compare the
 driver pods with the record, ask for a repair, set the conditions, write the status, and create
 a periodic check if one is due.
 */
module DriverReconcile {
  import opened Wrappers
  import opened Common
  import opened Conditions
  import opened DriverPods
  import opened PeriodicCheck
  import A = ApplySpec
  import opened ResourceApply
  import Roles

  /** What the pass meets in the cluster, and its clock readings in their order. */
  datatype Inputs = Inputs(
    installAt: int,
    credentialError: Option<string>,
    pods: Option<seq<Pod>>,
    errorText: string,
    repairDecided: int,
    repairOk: bool,
    repairAt: int,
    driverAt: int,
    statusOk: bool,
    check: int,
    periodicOk: bool,
    periodicAt: int)

  const INSTALLED := Condition("Install", "True", "InstallComplete", "Driver install complete", 0)

  /** The first of these that applies: bad credential, failed check, repair asked for, fine. */
  function DriverCondition(credError: Option<string>, hcError: Option<string>, initiated: bool): Condition {
    if credError.Some? then Condition("DriverStatus", "False", "CredentialError", credError.value, 0)
    else if hcError.Some? then Condition("DriverStatus", "False", "DriverHealthCheckFailed", hcError.value, 0)
    else if initiated then
      Condition("DriverStatus", "True", "RepairInitiated", "Mounted volumes check and repair initiated", 0)
    else Condition("DriverStatus", "True", "Operational", "Driver is operational", 0)
  }

  predicate Asks(recorded: map<string, DriverPod>, given: Inputs) {
    given.pods.Some? && given.credentialError.None? && NodesToFix(recorded, given.pods.value) != {}
  }

  function CheckError(recorded: map<string, DriverPod>, given: Inputs): Option<string> {
    if given.pods.None? || (Asks(recorded, given) && !given.repairOk) then Some(given.errorText) else None
  }

  function Installed(conds: seq<Condition>, given: Inputs): seq<Condition> {
    Set(conds, INSTALLED, given.installAt)
  }

  function ConditionsAfter(conds: seq<Condition>, recorded: map<string, DriverPod>, given: Inputs): seq<Condition> {
    Set(Installed(conds, given),
        DriverCondition(given.credentialError, CheckError(recorded, given), Asks(recorded, given) && given.repairOk),
        given.driverAt)
  }

  function TryOf(conds: seq<Condition>, recorded: map<string, DriverPod>, given: Inputs): Try {
    var mid, final := Installed(conds, given), ConditionsAfter(conds, recorded, given);
    Try(given.pods.Some?, given.credentialError.None?, given.repairOk, given.statusOk, mid != conds || final != mid)
  }

  function PodsOf(given: Inputs): seq<Pod> {
    if given.pods.Some? then given.pods.value else []
  }

  /** What the timer sees of the pass, given the nodes it asked to repair. */
  function PassOf(given: Inputs, repaired: bool, nodes: seq<string>): Pass {
    Pass(if repaired then Some(Check(nodes, false, given.repairDecided, given.repairAt)) else None,
         given.check, given.periodicOk, given.periodicAt)
  }

  /** The bookkeeping step of a pass, from an empty list of repairs asked for. */
  function BookAfter(conds: seq<Condition>, recorded: map<string, DriverPod>, given: Inputs): Book {
    PodPass(PodsOf(given), TryOf(conds, recorded, given), Book(recorded, []))
  }

  lemma BookParts(conds: seq<Condition>, recorded: map<string, DriverPod>, given: Inputs)
    ensures var b, t := BookAfter(conds, recorded, given), TryOf(conds, recorded, given);
            && b.asked == (if Asks(recorded, given) && given.repairOk then [NodesToFix(recorded, PodsOf(given))]
                           else [])
            && b.recorded == if given.pods.Some? && given.statusOk
                                && (UpdateNeeded(recorded, PodsOf(given)) || t.conditionChanges)
                             then Observed(PodsOf(given)) else recorded
  {
  }

  /** What the conditions say that a pass over an installed driver arrives at. */
  lemma ConditionsTell(conds: seq<Condition>, recorded: map<string, DriverPod>, given: Inputs)
    ensures var list := ConditionsAfter(conds, recorded, given);
            && Tells(list, "Install", "True", "InstallComplete", "Driver install complete")
            && if given.credentialError.Some? then
                 Tells(list, "DriverStatus", "False", "CredentialError", given.credentialError.value)
               else if given.pods.None? || (NodesToFix(recorded, given.pods.value) != {} && !given.repairOk) then
                 Tells(list, "DriverStatus", "False", "DriverHealthCheckFailed", given.errorText)
               else if NodesToFix(recorded, given.pods.value) != {} then
                 Tells(list, "DriverStatus", "True", "RepairInitiated", "Mounted volumes check and repair initiated")
               else
                 Tells(list, "DriverStatus", "True", "Operational", "Driver is operational")
  {
    var mid := Installed(conds, given);
    var c := DriverCondition(given.credentialError, CheckError(recorded, given),
                             Asks(recorded, given) && given.repairOk);
    SetThenFound(conds, INSTALLED, given.installAt);
    assert c.kind[0] != "Install"[0];
    SetElsewhere(mid, c, given.driverAt, "Install");
    SetThenFound(mid, c, given.driverAt);
  }

  /** What a pass records and asks for: the record follows the pods seen when the status can be
      written, and the nodes of new, restarted or upgraded pods are asked for when a credential is
      there and the check can be created. */
  lemma BookTells(conds: seq<Condition>, recorded: map<string, DriverPod>, given: Inputs)
    ensures var b := BookAfter(conds, recorded, given);
            && (!given.statusOk || given.pods.None? ==> b.recorded == recorded)
            && (given.statusOk && given.pods.Some? && DistinctNames(given.pods.value) ==>
                  SameRecord(b.recorded, Observed(given.pods.value))
                  && (ConditionsAfter(conds, recorded, given) != conds ==> b.recorded == Observed(given.pods.value)))
            && |b.asked| <= 1
            && (b.asked != [] <==> && given.pods.Some? && given.credentialError.None? && given.repairOk
                                   && exists p :: p in given.pods.value && Changed(recorded, p))
            && (b.asked != [] ==> forall n :: n in b.asked[0] <==>
                 exists p :: p in given.pods.value && Changed(recorded, p) && p.node == n)
  {
    BookParts(conds, recorded, given);
    if given.pods.Some? {
      assert forall p :: p in given.pods.value && Changed(recorded, p) ==>
          p.node in NodesToFix(recorded, given.pods.value);
      if DistinctNames(given.pods.value) {
        UpdateNeededExact(recorded, given.pods.value);
      }
    }
  }

  /** A repair asked for appears in the timer's books as a check for those nodes. */
  lemma RepairOnTheClock(interval: int, given: Inputs, nodes: seq<string>, c: Clock)
    ensures var made := PassStep(interval, PassOf(given, true, nodes), c).made;
            && |c.made| < |made| && made[..|c.made|] == c.made
            && made[|c.made|].nodes == nodes && !made[|c.made|].periodic
            && forall i :: |c.made| < i < |made| ==> made[i].nodes == [""] && made[i].periodic
    ensures var made := PassStep(interval, PassOf(given, false, nodes), c).made;
            && c.made <= made && |made| <= |c.made| + 1
            && forall i :: |c.made| <= i < |made| ==> made[i].nodes == [""] && made[i].periodic
  {
  }

  class DriverReconciler {
    var conditions: seq<Condition>
    var driverPods: map<string, DriverPod>
    var lastHealthCheckTime: int
    var checks: seq<Check>
    const operator: Operator
    const roles: seq<A.Asset>

    constructor (conditions: seq<Condition>, driverPods: map<string, DriverPod>, start: int, operator: Operator,
                 roles: seq<A.Asset>)
      ensures this.conditions == conditions && this.driverPods == driverPods
      ensures lastHealthCheckTime == start && checks == [] && this.operator == operator && this.roles == roles
    {
      this.conditions, this.driverPods, lastHealthCheckTime, checks := conditions, driverPods, start, [];
      this.operator, this.roles := operator, roles;
    }

    /** The cluster after a pass has set up the roles, which it does while no pods are recorded. */
    function SetUpBy(given: Inputs, recorded: map<string, DriverPod>, faults: A.Faults, w: A.World): A.World {
      if given.pods.Some? && recorded == map[] then Roles.SetUp(faults, roles, w) else w
    }

    ghost predicate RolesOk()
      reads operator
    {
      A.WellTyped(operator.objects) && Roles.AreRoles(roles)
    }

    function TheClock(): Clock
      reads this
    {
      Clock(lastHealthCheckTime, checks)
    }

    method CreateHealthCheck(check: Check, createOk: bool) returns (ok: bool)
      modifies this`lastHealthCheckTime, this`checks
      ensures ok == createOk
      ensures TheClock() == if ok then Clock(check.at, old(checks) + [check]) else old(TheClock())
    {
      if createOk {
        checks := checks + [check];
        lastHealthCheckTime := check.at;
      }
      return createOk;
    }

    /** The new record, whether it has to be written, whether a repair was asked for, of which
        nodes, and the error if any. The record is replaced before the repair is asked for. The
        roles are set up while no pods are recorded. */
    method CheckDriverPods(given: Inputs)
      returns (record: map<string, DriverPod>, change: bool, initiated: bool, err: Option<string>, nodes: seq<string>)
      requires RolesOk()
      modifies this`lastHealthCheckTime, this`checks, operator
      ensures operator.State() == SetUpBy(given, old(driverPods), operator.faults, old(operator.State())) && RolesOk()
      ensures record == if given.pods.Some? then Observed(given.pods.value) else driverPods
      ensures change <==> given.pods.Some? && UpdateNeeded(driverPods, given.pods.value)
      ensures initiated <==> Asks(driverPods, given) && given.repairOk
      ensures err == CheckError(driverPods, given)
      ensures initiated ==> Lists(nodes, NodesToFix(driverPods, given.pods.value))
      ensures TheClock() == AfterRepair(PassOf(given, initiated, nodes), old(TheClock()))
    {
      nodes := [];
      if given.pods.None? {
        return driverPods, false, false, Some(given.errorText), nodes;
      }
      var nodesToFixMap;
      record, nodesToFixMap := Compare(driverPods, given.pods.value);
      if |driverPods| == 0 {
        Roles.SetUpRoles(operator, roles);
      }
      var repairNeeded := |nodesToFixMap| > 0;
      var updateNeeded := repairNeeded || |record| != |driverPods|;
      if given.credentialError.Some? || !repairNeeded {
        return record, updateNeeded, false, None, nodes;
      }
      nodes := ListNodes(nodesToFixMap);
      var ok := CreateHealthCheck(Check(nodes, false, given.repairDecided, given.repairAt), given.repairOk);
      if !ok {
        return record, updateNeeded, false, Some(given.errorText), nodes;
      }
      return record, updateNeeded, true, None, nodes;
    }

    method SetDriverStatus(conds: ConditionList, hcInitiated: bool, credError: Option<string>, hcError: Option<string>,
                           now: int)
      returns (changed: bool)
      modifies conds
      ensures conds.list == Set(old(conds.list), DriverCondition(credError, hcError, hcInitiated), now)
      ensures changed <==> conds.list != old(conds.list)
    {
      changed := conds.SetCondition(DriverCondition(credError, hcError, hcInitiated), now);
    }

    method RunPeriodicHealthCheck(interval: int, given: Inputs) returns (ok: bool)
      modifies this`lastHealthCheckTime, this`checks
      ensures TheClock() == PassStep(interval, PassOf(given, false, []), old(TheClock()))
      ensures ok <==> !Due(interval, old(lastHealthCheckTime), given.check) || given.periodicOk
    {
      if interval < 1 || given.check - lastHealthCheckTime < interval * MINUTE {
        return true;
      }
      ok := CreateHealthCheck(Check([""], true, given.check, given.periodicAt), given.periodicOk);
    }

    /** The working copy of the status: conditions and record as the pass arrives at them, and
        whether they have to be written. */
    method WorkOut(given: Inputs)
      returns (conds: seq<Condition>, record: map<string, DriverPod>, isUpdateNeeded: bool, initiated: bool,
               nodes: seq<string>)
      requires RolesOk()
      modifies this`lastHealthCheckTime, this`checks, operator
      ensures conds == ConditionsAfter(conditions, driverPods, given)
      ensures record == if given.pods.Some? then Observed(given.pods.value) else driverPods
      ensures isUpdateNeeded <==> TryOf(conditions, driverPods, given).conditionChanges
                                  || (given.pods.Some? && UpdateNeeded(driverPods, given.pods.value))
      ensures initiated <==> Asks(driverPods, given) && given.repairOk
      ensures initiated ==> Lists(nodes, NodesToFix(driverPods, given.pods.value))
      ensures TheClock() == AfterRepair(PassOf(given, initiated, nodes), old(TheClock()))
      ensures operator.State() == SetUpBy(given, old(driverPods), operator.faults, old(operator.State())) && RolesOk()
    {
      var list := new ConditionList([], []);
      list.list := conditions;
      isUpdateNeeded := list.SetCondition(INSTALLED, given.installAt);
      assert list.list == Installed(conditions, given);
      var change, hcErr;
      record, change, initiated, hcErr, nodes := CheckDriverPods(given);
      isUpdateNeeded := isUpdateNeeded || change;
      var changed := SetDriverStatus(list, initiated, given.credentialError, hcErr, given.driverAt);
      isUpdateNeeded := changed || isUpdateNeeded;
      conds := list.list;
    }

    /** Bookkeeping, conditions and the status write. */
    method UpdateStatus(given: Inputs) returns (initiated: bool, nodes: seq<string>)
      requires RolesOk()
      modifies this, operator
      ensures var b := BookAfter(old(conditions), old(driverPods), given);
              && driverPods == b.recorded
              && (initiated <==> b.asked != [])
              && (initiated ==> Lists(nodes, b.asked[0]))
      ensures TheClock() == AfterRepair(PassOf(given, initiated, nodes), old(TheClock()))
      ensures operator.State() == SetUpBy(given, old(driverPods), operator.faults, old(operator.State())) && RolesOk()
      ensures conditions == if given.statusOk then ConditionsAfter(old(conditions), old(driverPods), given)
                            else old(conditions)
    {
      BookParts(conditions, driverPods, given);
      var conds, record, isUpdateNeeded;
      conds, record, isUpdateNeeded, initiated, nodes := WorkOut(given);
      if isUpdateNeeded && given.statusOk {
        conditions, driverPods := conds, record;
      }
    }

    /** The pass is a step of the bookkeeping over the stored record and a step of the timer over
        the created checks; the conditions written are those the pass arrived at. */
    method FinishPass(interval: int, given: Inputs) returns (requeue: Option<int>, initiated: bool, nodes: seq<string>)
      requires RolesOk()
      modifies this, operator
      ensures var b := BookAfter(old(conditions), old(driverPods), given);
              && driverPods == b.recorded
              && (initiated <==> b.asked != [])
              && (initiated ==> Lists(nodes, b.asked[0]))
      ensures TheClock() == PassStep(interval, PassOf(given, initiated, nodes), old(TheClock()))
      ensures requeue
              == if Due(interval, AfterRepair(PassOf(given, initiated, nodes), old(TheClock())).last, given.check)
                    && !given.periodicOk
                 then None else Some(ResyncDuration(interval))
      ensures operator.State() == SetUpBy(given, old(driverPods), operator.faults, old(operator.State())) && RolesOk()
      ensures conditions == if given.statusOk then ConditionsAfter(old(conditions), old(driverPods), given)
                            else old(conditions)
    {
      initiated, nodes := UpdateStatus(given);
      var ok := RunPeriodicHealthCheck(interval, given);
      if !ok {
        return None, initiated, nodes;
      }
      return Some(if 0 < interval < 60 then interval * MINUTE else 60 * MINUTE), initiated, nodes;
    }
  }

  /** The first pass that can list the driver pods brings in every role whose two calls are accepted. */
  lemma FirstCheckBringsRoles(r: DriverReconciler, given: Inputs, recorded: map<string, DriverPod>, faults: A.Faults,
                              w: A.World, i: nat)
    requires A.WellTyped(w.objects) && Roles.AreRoles(r.roles) && Roles.DistinctRoles(r.roles) && i < |r.roles|
    requires given.pods.Some? && recorded == map[] && Roles.CallsAccepted(faults, r.roles, w, i)
    ensures Roles.IsThere(r.roles[i], r.SetUpBy(given, recorded, faults, w))
  {
    Roles.SetUpBrings(faults, r.roles, w, i);
    assert r.SetUpBy(given, recorded, faults, w) == Roles.SetUp(faults, r.roles, w);
  }

  /** No pass touches the roles once pods are recorded, or while they cannot be listed. */
  lemma LaterChecksLeaveRoles(r: DriverReconciler, given: Inputs, recorded: map<string, DriverPod>, faults: A.Faults,
                              w: A.World, name: string)
    requires name in recorded || given.pods.None?
    ensures r.SetUpBy(given, recorded, faults, w) == w
  {
  }
}
