/**
 The dataset controller. All datasets of a namespace share one claim and enter themselves as its
 owners; a change of a dataset's bucket or selectors asks the drivers for one check.
 */
module DatasetClaims {
  import opened ApplySpec
  import opened ResourceApply
  import opened Conditions
  import PodSelector

  // ---------------------------------------------------------------- owners of the shared claim

  /** One reconcile of one dataset: its owner reference, the calls that fail, the clock. */
  datatype Attempt = Attempt(dataset: Owner, faults: Faults, now: string)

  function Attempted(claim: Asset, a: Attempt, w: World): Applied {
    Apply(a.faults, a.now, a.dataset, claim, w)
  }

  function AfterAll(claim: Asset, runs: seq<Attempt>, w: World): World {
    if runs == [] then w
    else Attempted(claim, runs[|runs| - 1], AfterAll(claim, runs[..|runs| - 1], w)).world
  }

  function OwnersOf(key: Key, w: World): seq<Owner> {
    if key in w.objects then w.objects[key].owners else []
  }

  function Id(o: Owner): (string, string) {
    (o.kind, o.name)
  }

  function Ids(owners: seq<Owner>): set<(string, string)> {
    set o | o in owners :: Id(o)
  }

  /** The datasets whose apply of the claim succeeded. */
  function Served(claim: Asset, runs: seq<Attempt>, w: World): set<(string, string)> {
    if runs == [] then {}
    else
      var front, last := runs[..|runs| - 1], runs[|runs| - 1];
      Served(claim, front, w)
      + if Attempted(claim, last, AfterAll(claim, front, w)).result.Success? then {Id(last.dataset)} else {}
  }

  ghost predicate IsClaim(claim: Asset) {
    claim.key.kind.ClaimKind? && GoodAsset(claim)
  }

  /** One attempt appends the dataset if it succeeds and no reference has its kind and name. */
  lemma AttemptOwners(claim: Asset, a: Attempt, w: World)
    requires IsClaim(claim) && WellTyped(w.objects)
    ensures var before, r := OwnersOf(claim.key, w), Attempted(claim, a, w);
            OwnersOf(claim.key, r.world)
            == if r.result.Success? && !IsOwnerSet(before, a.dataset) then before + [a.dataset] else before
  {
    var r := Attempted(claim, a, w);
    ApplyFrame(a.faults, a.now, a.dataset, claim, w);
    if r.result.Success? {
      OwnerAfterApply(a.faults, a.now, a.dataset, claim, w);
    }
  }

  lemma IdsOf(owners: seq<Owner>, o: Owner)
    ensures Ids(owners + [o]) == Ids(owners) + {Id(o)}
    ensures IsOwnerSet(owners, o) <==> Id(o) in Ids(owners)
  {
    assert forall x :: x in owners + [o] <==> x in owners || x == o;
  }

  ghost predicate OfRun(runs: seq<Attempt>, o: Owner) {
    exists a :: a in runs && a.dataset == o
  }

  /** The references after `initial` are of datasets that `initial` does not name, each once. */
  ghost predicate Extends(initial: seq<Owner>, final: seq<Owner>, runs: seq<Attempt>) {
    && initial <= final
    && (forall i :: |initial| <= i < |final| ==> Id(final[i]) !in Ids(initial))
    && (forall i, j :: |initial| <= i < j < |final| ==> Id(final[i]) != Id(final[j]))
    && (forall i :: |initial| <= i < |final| ==> OfRun(runs, final[i]))
  }

  ghost predicate OwnersAre(initial: seq<Owner>, final: seq<Owner>, runs: seq<Attempt>, served: set<(string, string)>) {
    Extends(initial, final, runs) && Ids(final) == Ids(initial) + served
  }

  lemma ExtendsKept(initial: seq<Owner>, now: seq<Owner>, front: seq<Attempt>, a: Attempt)
    requires Extends(initial, now, front)
    ensures Extends(initial, now, front + [a])
  {
    forall i | |initial| <= i < |now| ensures OfRun(front + [a], now[i]) {
      assert OfRun(front, now[i]);
      var b :| b in front && b.dataset == now[i];
      assert b in front + [a];
    }
  }

  lemma ExtendsAppended(initial: seq<Owner>, now: seq<Owner>, front: seq<Attempt>, a: Attempt)
    requires Extends(initial, now, front) && Id(a.dataset) !in Ids(now)
    ensures Extends(initial, now + [a.dataset], front + [a])
  {
    ExtendsKept(initial, now, front, a);
    forall i | 0 <= i < |now| ensures Id(now[i]) in Ids(now) {
      assert now[i] in now;
    }
    forall x | x in Ids(initial) ensures x in Ids(now) {
      var o :| o in initial && Id(o) == x;
      assert o in now;
    }
    assert (front + [a])[|front|] == a;
  }

  lemma OwnersNext(initial: seq<Owner>, now: seq<Owner>, front: seq<Attempt>, served: set<(string, string)>,
                   a: Attempt, ok: bool)
    requires OwnersAre(initial, now, front, served)
    ensures OwnersAre(initial, if ok && !IsOwnerSet(now, a.dataset) then now + [a.dataset] else now, front + [a],
                      served + if ok then {Id(a.dataset)} else {})
  {
    IdsOf(now, a.dataset);
    ExtendsKept(initial, now, front, a);
    if ok && !IsOwnerSet(now, a.dataset) {
      ExtendsAppended(initial, now, front, a);
    }
  }

  /** After any run of dataset reconciles, with any calls failing, the owners of the shared claim
      are the initial ones followed by the datasets whose apply succeeded, none added twice. */
  lemma {:induction false} SharedClaimOwners(claim: Asset, runs: seq<Attempt>, w: World)
    requires IsClaim(claim) && WellTyped(w.objects)
    ensures var w' := AfterAll(claim, runs, w);
            && WellTyped(w'.objects)
            && OwnersAre(OwnersOf(claim.key, w), OwnersOf(claim.key, w'), runs, Served(claim, runs, w))
  {
    if runs == [] {
    } else {
      var front, a := runs[..|runs| - 1], runs[|runs| - 1];
      SharedClaimOwners(claim, front, w);
      var w1 := AfterAll(claim, front, w);
      ApplyKeepsRest(a.faults, a.now, a.dataset, claim, w1);
      AttemptOwners(claim, a, w1);
      assert runs == front + [a];
      OwnersNext(OwnersOf(claim.key, w), OwnersOf(claim.key, w1), front, Served(claim, front, w), a,
                 Attempted(claim, a, w1).result.Success?);
    }
  }

  /** Everything else about the claim, and every other object, survives any such run. */
  lemma {:induction false} SharedClaimFrame(claim: Asset, runs: seq<Attempt>, w: World)
    ensures SameOutside(w.objects, AfterAll(claim, runs, w).objects, claim.key)
    ensures claim.key in w.objects ==>
              && claim.key in AfterAll(claim, runs, w).objects
              && AfterAll(claim, runs, w).objects[claim.key].unmanaged == w.objects[claim.key].unmanaged
  {
    if runs == [] {
    } else {
      var front, a := runs[..|runs| - 1], runs[|runs| - 1];
      SharedClaimFrame(claim, front, w);
      ApplyFrame(a.faults, a.now, a.dataset, claim, AfterAll(claim, front, w));
    }
  }

  /** A reference is identified by kind and name, not by UID: a dataset deleted and created again
      keeps the reference of its predecessor, and its own is not entered. */
  lemma OwnReferenceEntered(claim: Asset, a: Attempt, w: World)
    requires IsClaim(claim) && WellTyped(w.objects) && Attempted(claim, a, w).result.Success?
    ensures a.dataset in OwnersOf(claim.key, Attempted(claim, a, w).world) <==>
            a.dataset in OwnersOf(claim.key, w) || !IsOwnerSet(OwnersOf(claim.key, w), a.dataset)
  {
    AttemptOwners(claim, a, w);
    var before := OwnersOf(claim.key, w);
    assert (before + [a.dataset])[|before|] == a.dataset;
  }

  // ---------------------------------------------------------------- labels and the check

  const LABEL_DATASET_ID := "csi.marketplace.redhat.com/uid"
  const LABEL_SELECTOR_HASH := "csi.marketplace.redhat.com/selectorHash"
  const LABEL_UNINSTALL := "marketplace.redhat.com/uninstall"

  /** What the controller reads of a dataset's specification; the hash is that of `terms`. */
  datatype Spec = Spec(bucket: string, hash: string, terms: seq<PodSelector.Term>)

  /** Which client calls of a pass succeed. The labels are written twice in a row, and only the
      outcome of the second write is looked at. */
  datatype Calls = Calls(delete: bool, firstUpdate: bool, secondUpdate: bool, createCheck: bool, status: bool) {
    predicate Lands() { firstUpdate || secondUpdate }
  }

  const CONDITION_TYPE := "Install"

  /** The install condition; `text` is that of the error, if there is one. */
  datatype Verdict = InstallFailed(text: string) | ValidationError(text: string) | InstallComplete

  function ConditionFor(v: Verdict): Condition {
    match v
    case InstallFailed(text) => Condition(CONDITION_TYPE, "False", "InstallFailed", text, 0)
    case ValidationError(text) => Condition(CONDITION_TYPE, "False", "ValidationFailed", text, 0)
    case InstallComplete => Condition(CONDITION_TYPE, "True", "InstallComplete", "Dataset install completed", 0)
  }

  function Labelled(labels: map<string, string>, spec: Spec): map<string, string> {
    labels[LABEL_DATASET_ID := spec.bucket][LABEL_SELECTOR_HASH := spec.hash]
  }

  datatype LabelState = LabelState(labels: map<string, string>, checks: nat)

  function LabelPass(spec: Spec, calls: Calls, s: LabelState): LabelState {
    if s.labels == Labelled(s.labels, spec) || !calls.Lands() then s
    else LabelState(Labelled(s.labels, spec), s.checks + if calls.secondUpdate && calls.createCheck then 1 else 0)
  }

  function LabelPasses(spec: Spec, passes: seq<Calls>, s: LabelState): LabelState {
    if passes == [] then s
    else LabelPass(spec, passes[|passes| - 1], LabelPasses(spec, passes[..|passes| - 1], s))
  }

  /** The first pass of the run that gets the labels written. */
  ghost predicate FirstLanding(passes: seq<Calls>, k: int) {
    0 <= k < |passes| && passes[k].Lands() && forall j :: 0 <= j < k ==> !passes[j].Lands()
  }

  ghost predicate Landed(passes: seq<Calls>) {
    exists k :: FirstLanding(passes, k)
  }

  ghost predicate CheckCreated(passes: seq<Calls>) {
    exists k :: FirstLanding(passes, k) && passes[k].secondUpdate && passes[k].createCheck
  }

  /** Once the labels are written, they tell the specification, and the others are as before. */
  lemma LabelsTell(spec: Spec, calls: Calls, s: LabelState)
    requires calls.firstUpdate || calls.secondUpdate
    ensures var ls, id, hash := LabelPass(spec, calls, s).labels, "csi.marketplace.redhat.com/uid",
                                "csi.marketplace.redhat.com/selectorHash";
            && id in ls && ls[id] == spec.bucket && hash in ls && ls[hash] == spec.hash
            && forall k :: k != id && k != hash ==> (k in ls <==> k in s.labels) && (k in ls ==> ls[k] == s.labels[k])
  {
    assert LABEL_DATASET_ID[27] != LABEL_SELECTOR_HASH[27];
  }

  lemma LabelledTwice(labels: map<string, string>, spec: Spec)
    ensures Labelled(Labelled(labels, spec), spec) == Labelled(labels, spec)
  {
  }

  lemma {:induction false} NoLanding(passes: seq<Calls>, n: nat)
    requires n <= |passes| && !Landed(passes)
    ensures forall j :: 0 <= j < n ==> !passes[j].Lands()
  {
    if n == 0 {
    } else {
      NoLanding(passes, n - 1);
      assert !FirstLanding(passes, n - 1);
    }
  }

  lemma FirstLandingNext(passes: seq<Calls>, n: nat)
    requires n == |passes| - 1
    ensures forall k :: FirstLanding(passes, k) <==>
                        FirstLanding(passes[..n], k) || (k == n && passes[n].Lands() && !Landed(passes[..n]))
  {
    forall k ensures FirstLanding(passes, k) && k < n <==> FirstLanding(passes[..n], k) {
      assert forall j :: 0 <= j < n ==> passes[..n][j] == passes[j];
    }
    if !Landed(passes[..n]) {
      NoLanding(passes[..n], n);
      assert forall j :: 0 <= j < n ==> passes[..n][j] == passes[j];
    }
  }

  lemma LandedNext(passes: seq<Calls>, n: nat)
    requires n == |passes| - 1
    ensures Landed(passes) <==> Landed(passes[..n]) || passes[n].Lands()
    ensures CheckCreated(passes) <==>
            CheckCreated(passes[..n])
            || (!Landed(passes[..n]) && passes[n].secondUpdate && passes[n].createCheck)
  {
    FirstLandingNext(passes, n);
    assert forall k :: FirstLanding(passes[..n], k) ==> passes[..n][k] == passes[k];
    assert forall k, j :: FirstLanding(passes[..n], k) && FirstLanding(passes[..n], j) ==> k == j;
    assert FirstLanding(passes, n) <==> passes[n].Lands() && !Landed(passes[..n]);
  }

  /** However many passes see the same specification, they create at most one check between
      them; they create it exactly if the pass that first gets the labels written also
      sees its second write and the creation succeed. Otherwise the check is lost. */
  lemma {:induction false} OneCheckPerSpec(spec: Spec, passes: seq<Calls>, s: LabelState)
    requires s.labels != Labelled(s.labels, spec)
    ensures var s' := LabelPasses(spec, passes, s);
            && s'.checks == s.checks + (if CheckCreated(passes) then 1 else 0)
            && s'.labels == if Landed(passes) then Labelled(s.labels, spec) else s.labels
  {
    if passes == [] {
    } else {
      LabelledTwice(s.labels, spec);
      OneCheckPerSpec(spec, passes[..|passes| - 1], s);
      LandedNext(passes, |passes| - 1);
    }
  }

  /** A pass that writes the labels but cannot create the check, then one in which all goes well:
      no check is ever created. */
  lemma CheckLostWitness(spec: Spec, s: LabelState)
    requires s.labels != Labelled(s.labels, spec)
    ensures var passes := [Calls(true, true, true, false, true), Calls(true, true, true, true, true)];
            LabelPasses(spec, passes, s) == LabelState(Labelled(s.labels, spec), s.checks)
  {
    var first, second := Calls(true, true, true, false, true), Calls(true, true, true, true, true);
    assert [first, second][..1] == [first] && [first][..0] == [];
    assert LabelPasses(spec, [], s) == s;
    assert LabelPasses(spec, [first], s) == LabelPass(spec, first, s);
    LabelledTwice(s.labels, spec);
  }

  // ---------------------------------------------------------------- the controller

  predicate IsUninstall(labels: map<string, string>) {
    LABEL_UNINSTALL in labels && labels[LABEL_UNINSTALL] == "true"
  }

  /** Uninstalling is asked for by one label with one value, and no other label counts. */
  lemma UninstallAsked(labels: map<string, string>, name: string, value: string)
    ensures IsUninstall(labels["marketplace.redhat.com/uninstall" := value]) <==> value == "true"
    ensures !IsUninstall(labels - {"marketplace.redhat.com/uninstall"})
    ensures name != "marketplace.redhat.com/uninstall" ==> (IsUninstall(labels[name := value]) <==> IsUninstall(labels))
  {
  }

  /** The stored conditions after a pass that arrives at a verdict. */
  function After(conditions: seq<Condition>, v: Verdict, at: int, calls: Calls): seq<Condition> {
    if calls.status then Set(conditions, ConditionFor(v), at) else conditions
  }

  /** What the dataset then shows, if its status can be written. */
  lemma VerdictTells(conditions: seq<Condition>, v: Verdict, at: int, calls: Calls)
    ensures var list := After(conditions, v, at, calls);
            if !calls.status then list == conditions
            else match v
                 case InstallFailed(text) => Tells(list, "Install", "False", "InstallFailed", text)
                 case ValidationError(text) => Tells(list, "Install", "False", "ValidationFailed", text)
                 case InstallComplete => Tells(list, "Install", "True", "InstallComplete", "Dataset install completed")
  {
    SetThenFound(conditions, ConditionFor(v), at);
  }

  datatype Got = Found | Missing | Unreadable

  class DatasetController {
    const claims: Operator
    var labels: map<string, string>
    var deleted: bool
    var checks: nat
    var conditions: seq<Condition>

    constructor (claims: Operator, labels: map<string, string>)
      ensures this.claims == claims && this.labels == labels && !deleted && checks == 0 && conditions == []
    {
      this.claims, this.labels, deleted, checks, conditions := claims, labels, false, 0, [];
    }

    method UpdateLabel(spec: Spec, calls: Calls) returns (ok: bool)
      modifies this`labels, this`checks
      ensures LabelState(labels, checks) == LabelPass(spec, calls, old(LabelState(labels, checks)))
      ensures ok <==> old(labels) == Labelled(old(labels), spec) || calls.secondUpdate
    {
      var updateNeeded, lbls := false, labels;
      if |lbls| == 0 {
        lbls := map[];
        updateNeeded := true;
      }
      if LABEL_DATASET_ID !in lbls || lbls[LABEL_DATASET_ID] != spec.bucket {
        lbls := lbls[LABEL_DATASET_ID := spec.bucket];
        updateNeeded := true;
      }
      if LABEL_SELECTOR_HASH !in lbls || lbls[LABEL_SELECTOR_HASH] != spec.hash {
        lbls := lbls[LABEL_SELECTOR_HASH := spec.hash];
        updateNeeded := true;
      }
      assert LABEL_DATASET_ID in Labelled(labels, spec);
      assert lbls == Labelled(labels, spec) && (updateNeeded <==> labels != lbls);
      if updateNeeded {
        if calls.firstUpdate {
          labels := lbls;
        }
        if !calls.secondUpdate {
          return false;
        }
        labels := lbls;
        if calls.createCheck {
          checks := checks + 1;
        }
      }
      return true;
    }

    /** The condition is set in a copy, which then is or is not written. */
    method SetStatus(v: Verdict, now: int, calls: Calls)
      modifies this`conditions
      ensures conditions == if calls.status then Set(old(conditions), ConditionFor(v), now) else old(conditions)
    {
      var conds := new ConditionList([], []);
      conds.list := conditions;
      var _ := conds.SetCondition(ConditionFor(v), now);
      if calls.status {
        conditions := conds.list;
      }
    }

    /** One pass. A dataset that is gone needs nothing; one that cannot be read is an error. The
        install status is complete only if the validator accepts the selectors. `text` stands for
        the message of whatever error occurs. */
    method Reconcile(got: Got, claim: Asset, dataset: Owner, now: string, at: int, syntax: PodSelector.Syntax,
                     spec: Spec, text: string, calls: Calls)
      returns (ok: bool)
      requires IsClaim(claim) && WellTyped(claims.objects)
      modifies this, claims
      ensures !got.Found? ==>
                && ok == got.Missing? && deleted == old(deleted) && claims.State() == old(claims.State())
                && labels == old(labels) && checks == old(checks) && conditions == old(conditions)
      ensures got.Found? && IsUninstall(old(labels)) ==>
                && ok == calls.delete && deleted == (old(deleted) || ok) && claims.State() == old(claims.State())
                && labels == old(labels) && checks == old(checks) && conditions == old(conditions)
      ensures got.Found? && !IsUninstall(old(labels)) ==>
                && deleted == old(deleted)
                && LabelState(labels, checks) == LabelPass(spec, calls, old(LabelState(labels, checks)))
      ensures got.Found? && !IsUninstall(old(labels)) && old(labels) != Labelled(old(labels), spec)
              && !calls.secondUpdate ==>
                && !ok && claims.State() == old(claims.State())
                && conditions == After(old(conditions), InstallFailed(text), at, calls)
      ensures got.Found? && !IsUninstall(old(labels))
              && (old(labels) == Labelled(old(labels), spec) || calls.secondUpdate) ==>
                var a := Apply(claims.faults, now, dataset, claim, old(claims.State()));
                && claims.State() == a.world && (ok <==> a.result.Success?)
                && conditions == After(old(conditions),
                                       if !ok then InstallFailed(text)
                                       else if PodSelector.Accepts(syntax, spec.terms) then InstallComplete
                                       else ValidationError(text), at, calls)
    {
      if !got.Found? {
        return got.Missing?;
      }
      if LABEL_UNINSTALL in labels && labels[LABEL_UNINSTALL] == "true" {
        if calls.delete {
          deleted := true;
        }
        return calls.delete;
      }
      ok := UpdateLabel(spec, calls);
      if !ok {
        SetStatus(InstallFailed(text), at, calls);
        return;
      }
      var applied := claims.ApplyPersistentVolumeClaim(dataset, now, claim);
      if applied.Failure? {
        SetStatus(InstallFailed(text), at, calls);
        return false;
      }
      var v := InstallComplete;
      if |spec.terms| > 0 {
        var err := PodSelector.ValidateTerms(syntax, spec.terms);
        if err.Some? {
          v := ValidationError(text);
        }
      }
      SetStatus(v, at, calls);
      return true;
    }
  }
}
