/**
 The driver controller's bookkeeping of driver pods: which nodes need a repair after pods were
 started, restarted or changed, and when the record of pods has to be written.
 */
module DriverPods {
  datatype DriverPod = DriverPod(node: string, created: string, version: string)

  datatype Pod = Pod(name: string, node: string, created: string, version: string)

  function Record(p: Pod): DriverPod {
    DriverPod(p.node, p.created, p.version)
  }

  function Observed(pods: seq<Pod>): map<string, DriverPod> {
    if pods == [] then map[]
    else Observed(pods[..|pods| - 1])[pods[|pods| - 1].name := Record(pods[|pods| - 1])]
  }

  /** New, created at another time, or of another version; a pod on another node alone is not
      noticed. */
  predicate Changed(recorded: map<string, DriverPod>, p: Pod) {
    p.name !in recorded || recorded[p.name].created != p.created || recorded[p.name].version != p.version
  }

  function NodesToFix(recorded: map<string, DriverPod>, pods: seq<Pod>): set<string> {
    set p | p in pods && Changed(recorded, p) :: p.node
  }

  predicate UpdateNeeded(recorded: map<string, DriverPod>, pods: seq<Pod>) {
    NodesToFix(recorded, pods) != {} || |Observed(pods)| != |recorded|
  }

  /** Every node of the set, once. */
  ghost predicate Lists(nodes: seq<string>, s: set<string>) {
    && (forall n :: n in nodes <==> n in s)
    && (forall i, j :: 0 <= i < j < |nodes| ==> nodes[i] != nodes[j])
  }

  method ListNodes(nodesToFixMap: set<string>) returns (nodes: seq<string>)
    ensures Lists(nodes, nodesToFixMap)
  {
    nodes := [];
    var rest := nodesToFixMap;
    while rest != {}
      invariant rest <= nodesToFixMap && Lists(nodes, nodesToFixMap - rest)
      decreases |rest|
    {
      var k :| k in rest;
      assert k !in nodes;
      nodes := nodes + [k];
      rest := rest - {k};
    }
  }

  /** The loop over the pods: the new record, and the nodes that need a repair. */
  method Compare(recorded: map<string, DriverPod>, pods: seq<Pod>)
    returns (driverPods: map<string, DriverPod>, nodesToFixMap: set<string>)
    ensures driverPods == Observed(pods)
    ensures nodesToFixMap == NodesToFix(recorded, pods)
  {
    driverPods, nodesToFixMap := map[], {};
    for i := 0 to |pods|
      invariant driverPods == Observed(pods[..i])
      invariant nodesToFixMap == NodesToFix(recorded, pods[..i])
    {
      var pod := pods[i];
      assert pods[..i + 1] == pods[..i] + [pod] && pods[..i + 1][..i] == pods[..i];
      driverPods := driverPods[pod.name := Record(pod)];
      if pod.name !in recorded || recorded[pod.name].created != pod.created
          || recorded[pod.name].version != pod.version {
        nodesToFixMap := nodesToFixMap + {pod.node};
      }
    }
    assert pods[..|pods|] == pods;
  }

  // ---------------------------------------------------------------- when is it needed

  ghost predicate DistinctNames(pods: seq<Pod>) {
    forall i, j :: 0 <= i < j < |pods| ==> pods[i].name != pods[j].name
  }

  ghost predicate SameRecord(a: map<string, DriverPod>, b: map<string, DriverPod>) {
    a.Keys == b.Keys && forall n :: n in a ==> a[n].created == b[n].created && a[n].version == b[n].version
  }

  lemma {:induction false} ObservedAt(pods: seq<Pod>)
    ensures forall n :: n in Observed(pods) <==> exists p :: p in pods && p.name == n
    ensures DistinctNames(pods) ==>
              forall p :: p in pods ==>
                p.name in Observed(pods) && Observed(pods)[p.name] == DriverPod(p.node, p.created, p.version)
  {
    if pods == [] {
    } else {
      var front, last := pods[..|pods| - 1], pods[|pods| - 1];
      ObservedAt(front);
      assert forall p :: p in pods <==> p in front || p == last;
    }
  }

  lemma SubsetOfSameSize<T>(a: set<T>, b: set<T>)
    requires a <= b && |a| == |b|
    ensures a == b
  {
    assert b == a + (b - a);
    assert |b| == |a| + |b - a|;
  }

  /** With unique pod names, "update needed" says exactly whether the record differs from what
      is observed in names, create times or versions, although only sizes are compared
      for pods that went away. */
  lemma UpdateNeededExact(recorded: map<string, DriverPod>, pods: seq<Pod>)
    requires DistinctNames(pods)
    ensures UpdateNeeded(recorded, pods) <==> !SameRecord(recorded, Observed(pods))
  {
    ObservedAt(pods);
    var observed := Observed(pods);
    if SameRecord(recorded, observed) {
      assert |recorded.Keys| == |observed.Keys|;
      forall p | p in pods ensures !Changed(recorded, p) { assert p.name in observed; }
    }
    if !UpdateNeeded(recorded, pods) {
      forall p | p in pods ensures !Changed(recorded, p) {
        assert Changed(recorded, p) ==> p.node in NodesToFix(recorded, pods);
      }
      assert observed.Keys <= recorded.Keys;
      SubsetOfSameSize(observed.Keys, recorded.Keys);
    }
  }

  /** Nothing to fix on the pods just recorded. */
  lemma SecondCallIdle(pods: seq<Pod>)
    requires DistinctNames(pods)
    ensures NodesToFix(Observed(pods), pods) == {} && !UpdateNeeded(Observed(pods), pods)
  {
    UpdateNeededExact(Observed(pods), pods);
  }

  // ---------------------------------------------------------------- passes over the same pods

  /** What a pass meets: whether pods can be listed, the credential is valid, the check can be
      created, the status can be written, and whether a condition changes as well. */
  datatype Try = Try(listed: bool, credentialValid: bool, createOk: bool, statusOk: bool, conditionChanges: bool)

  /** The record as stored, and the repairs asked for. */
  datatype Book = Book(recorded: map<string, DriverPod>, asked: seq<set<string>>)

  function PodPass(pods: seq<Pod>, t: Try, b: Book): Book {
    if !t.listed then b
    else
      var nodes := NodesToFix(b.recorded, pods);
      Book(if t.statusOk && (UpdateNeeded(b.recorded, pods) || t.conditionChanges) then Observed(pods) else b.recorded,
           if t.credentialValid && t.createOk && nodes != {} then b.asked + [nodes] else b.asked)
  }

  function PodPasses(pods: seq<Pod>, passes: seq<Try>, b: Book): Book {
    if passes == [] then b
    else PodPass(pods, passes[|passes| - 1], PodPasses(pods, passes[..|passes| - 1], b))
  }

  predicate Stores(t: Try) { t.listed && t.statusOk }

  predicate CanAsk(t: Try) { t.listed && t.credentialValid && t.createOk }

  ghost predicate NotStoredBefore(passes: seq<Try>, k: int)
    requires k <= |passes|
  {
    forall j :: 0 <= j < k ==> !Stores(passes[j])
  }

  ghost predicate AskedBy(passes: seq<Try>, k: int) {
    0 <= k < |passes| && CanAsk(passes[k]) && NotStoredBefore(passes, k)
  }

  lemma AskedByNext(passes: seq<Try>, n: nat)
    requires n == |passes| - 1
    ensures NotStoredBefore(passes[..n], n) == NotStoredBefore(passes, n)
    ensures NotStoredBefore(passes, n + 1) <==> NotStoredBefore(passes, n) && !Stores(passes[n])
    ensures (exists k :: AskedBy(passes, k)) <==>
            (exists k :: AskedBy(passes[..n], k)) || (CanAsk(passes[n]) && NotStoredBefore(passes, n))
  {
    assert forall j :: 0 <= j < n ==> passes[..n][j] == passes[j];
    forall k
      ensures AskedBy(passes, k) <==>
              AskedBy(passes[..n], k) || (k == n && CanAsk(passes[n]) && NotStoredBefore(passes, n))
    {
      if 0 <= k < n {
        assert forall j :: 0 <= j < k ==> passes[..n][j] == passes[j];
      }
    }
    assert CanAsk(passes[n]) && NotStoredBefore(passes, n) ==> AskedBy(passes, n);
  }

  /** While the pods stay the same, a repair of their nodes is asked for exactly if some pass up
      to and including the first one that stores the record can ask. The record is stored even
      when the credential is invalid or the check cannot be created, and then the
      repair is never asked for. */
  lemma {:induction false} RepairAskedExactly(pods: seq<Pod>, passes: seq<Try>, b: Book)
    requires DistinctNames(pods) && NodesToFix(b.recorded, pods) != {}
    ensures var b' := PodPasses(pods, passes, b);
            && b.asked <= b'.asked
            && (|b'.asked| > |b.asked| <==> exists k :: AskedBy(passes, k))
            && (forall i :: |b.asked| <= i < |b'.asked| ==> b'.asked[i] == NodesToFix(b.recorded, pods))
            && b'.recorded == if NotStoredBefore(passes, |passes|) then b.recorded else Observed(pods)
  {
    if passes == [] {
    } else {
      var n := |passes| - 1;
      RepairAskedExactly(pods, passes[..n], b);
      SecondCallIdle(pods);
      AskedByNext(passes, n);
    }
  }

  /** A new pod while the credential is invalid, then the same pod with a valid one: the repair of
      its node is never asked for. */
  lemma RepairLostWitness(p: Pod)
    ensures NodesToFix(map[], [p]) == {p.node}
    ensures var passes := [Try(true, false, true, true, false), Try(true, true, true, true, false)];
            PodPasses([p], passes, Book(map[], [])) == Book(Observed([p]), [])
  {
    var first, second := Try(true, false, true, true, false), Try(true, true, true, true, false);
    assert p in [p];
    assert p.node in NodesToFix(map[], [p]);
    assert [first, second][..1] == [first] && [first][..0] == [];
    var b := Book(map[], []);
    assert PodPasses([p], [], b) == b;
    assert PodPasses([p], [first], b) == PodPass([p], first, b) == Book(Observed([p]), []);
    SecondCallIdle([p]);
  }
}
