/**
 The operator's write-only-if-different engine, as functions on values: what one apply of an
 asset does to the cluster. The methods of module ResourceApply are proved against these.

 The cluster keeps objects by key. Any client call can be refused: `faults` says which, by
 the number of the call, and is arbitrary.
 */
module ApplySpec {
  import opened Wrappers

  datatype Owner = Owner(apiVersion: string, kind: string, name: string, uid: string, controller: bool)

  const NO_OWNER := Owner("", "", "", "", false)

  datatype Kind =
    | ConfigMapKind | ClaimKind | ServiceKind | ServiceAccountKind
    | ClusterRoleKind | ClusterRoleBindingKind | RoleKind | RoleBindingKind
    | CSIDriverKind | StorageClassKind | DaemonSetKind | StatefulSetKind
  {
    predicate IsRbac() {
      ClusterRoleKind? || ClusterRoleBindingKind? || RoleKind? || RoleBindingKind?
    }

    predicate IsWorkload() {
      DaemonSetKind? || StatefulSetKind?
    }
  }

  datatype Key = Key(kind: Kind, namespace: string, name: string)

  datatype Port = Port(number: int, name: string, rest: string)

  datatype Template = Template(labels: map<string, string>, rest: string)

  /** The fields an apply looks at; `rest` stands for the ones it never touches. */
  datatype Body =
    | ConfigMap(data: map<string, string>)
    | Claim(annotations: map<string, string>, rest: string)
    | Service(selector: map<string, string>, ports: seq<Port>, rest: string)
    | ServiceAccount
    | Rules(rules: string)
    | Binding(subjects: string, roleRef: string)
    | CSIDriver(attachRequired: bool, podInfoOnMount: bool, lifecycleModes: seq<string>, rest: string)
    | StorageClass(provisioner: string, rest: string)
    | Workload(spec: Template)

  datatype Object = Object(owners: seq<Owner>, body: Body, unmanaged: string)

  datatype Asset = Asset(key: Key, content: Object)

  predicate Fits(kind: Kind, body: Body) {
    match kind
    case ConfigMapKind => body.ConfigMap?
    case ClaimKind => body.Claim?
    case ServiceKind => body.Service?
    case ServiceAccountKind => body.ServiceAccount?
    case ClusterRoleKind => body.Rules?
    case RoleKind => body.Rules?
    case ClusterRoleBindingKind => body.Binding?
    case RoleBindingKind => body.Binding?
    case CSIDriverKind => body.CSIDriver?
    case StorageClassKind => body.StorageClass?
    case DaemonSetKind => body.Workload?
    case StatefulSetKind => body.Workload?
  }

  /** The API server stores objects under keys of their own type. */
  ghost predicate WellTyped(objects: map<Key, Object>) {
    forall k :: k in objects ==> Fits(k.kind, objects[k].body)
  }

  // ---------------------------------------------------------------- merging

  const LABEL_DRIVER_VERSION := "csi.marketplace.redhat.com/driverVersion"
  const LABEL_UPDATE_TIME := "deploymentUpdateTime"

  lemma LabelsDiffer()
    ensures LABEL_DRIVER_VERSION != LABEL_UPDATE_TIME
  {
    assert LABEL_DRIVER_VERSION[0] != LABEL_UPDATE_TIME[0];
  }

  function LabelValue(labels: map<string, string>, key: string): string {
    if key in labels then labels[key] else ""
  }

  /** Only name and kind count: a reference of another object of that name is taken for it. */
  predicate IsOwnerSet(owners: seq<Owner>, owner: Owner) {
    exists o :: o in owners && o.name == owner.name && o.kind == owner.kind
  }

  predicate Claims(kind: Kind, owner: Owner) {
    kind.IsRbac() ==> owner != NO_OWNER
  }

  function WithOwner(kind: Kind, owners: seq<Owner>, owner: Owner): seq<Owner> {
    if Claims(kind, owner) && !IsOwnerSet(owners, owner) then owners + [owner] else owners
  }

  /** Merging indexes the first port of both services; without one the operator panics. */
  predicate Mergeable(found: Body, asset: Body) {
    found.Service? && asset.Service? ==> found.ports != [] && asset.ports != []
  }

  function MergeBody(found: Body, asset: Body): Body
    requires Mergeable(found, asset)
  {
    match (found, asset)
    case (ConfigMap(_), ConfigMap(_)) => asset
    case (Claim(old', rest), Claim(new', _)) => Claim(old' + new', rest)
    case (Service(_, ports, rest), Service(selector, ps, _)) =>
      Service(selector, ports[0 := Port(ps[0].number, ps[0].name, ports[0].rest)], rest)
    case (Rules(_), Rules(_)) => asset
    case (Binding(_, _), Binding(_, _)) => asset
    case (CSIDriver(_, _, _, rest), CSIDriver(a, p, l, _)) => CSIDriver(a, p, l, rest)
    case (StorageClass(_, rest), StorageClass(provisioner, _)) => StorageClass(provisioner, rest)
    case (Workload(spec), Workload(spec')) =>
      if LabelValue(spec'.labels, LABEL_DRIVER_VERSION) != LabelValue(spec.labels, LABEL_DRIVER_VERSION)
      then asset else found
    case (_, _) => found
  }

  function Merge(asset: Asset, owner: Owner, found: Object): Object
    requires Mergeable(found.body, asset.content.body)
  {
    Object(WithOwner(asset.key.kind, found.owners, owner), MergeBody(found.body, asset.content.body), found.unmanaged)
  }

  /** Storage classes are the odd one out: only a different provisioner causes a write. */
  predicate NeedsWrite(asset: Asset, owner: Owner, found: Object, updateNeeded: bool)
    requires Mergeable(found.body, asset.content.body)
  {
    if asset.key.kind.StorageClassKind? then MergeBody(found.body, asset.content.body) != found.body
    else (asset.key.kind.IsWorkload() && updateNeeded) || Merge(asset, owner, found) != found
  }

  /** A rewritten workload gets the time of the update as a label of its template. */
  function Stamp(kind: Kind, o: Object, now: string): Object {
    if kind.IsWorkload() && o.body.Workload?
    then o.(body := Workload(o.body.spec.(labels := o.body.spec.labels[LABEL_UPDATE_TIME := now])))
    else o
  }

  /** Writing that label panics on a template without a label map. */
  predicate Stampable(kind: Kind, o: Object) {
    kind.IsWorkload() && o.body.Workload? ==> o.body.spec.labels != map[]
  }

  // ---------------------------------------------------------------- one apply

  datatype Write = Created(key: Key) | Updated(key: Key)

  datatype World = World(objects: map<Key, Object>, calls: nat, writes: seq<Write>, updateNeeded: bool)

  datatype Failure = ApiError | Panic | BadAsset

  type Faults = nat -> bool

  datatype Applied = Applied(world: World, result: Result<Object, Failure>)

  function FirstOwned(asset: Asset, owner: Owner): Object {
    if Claims(asset.key.kind, owner) then asset.content.(owners := asset.content.owners + [owner]) else asset.content
  }

  function ApplyAbsent(faults: Faults, owner: Owner, asset: Asset, w: World): Applied {
    if faults(w.calls) then Applied(w.(calls := w.calls + 1), Failure(ApiError))
    else
      var o := FirstOwned(asset, owner);
      Applied(World(w.objects[asset.key := o], w.calls + 1, w.writes + [Created(asset.key)],
                    w.updateNeeded || asset.key.kind.ConfigMapKind?), Success(o))
  }

  function ApplyFound(faults: Faults, now: string, owner: Owner, asset: Asset, w: World): Applied
    requires asset.key in w.objects
  {
    var found := w.objects[asset.key];
    if !Mergeable(found.body, asset.content.body) then Applied(w, Failure(Panic))
    else if !NeedsWrite(asset, owner, found, w.updateNeeded) then Applied(w, Success(found))
    else
      var merged := Merge(asset, owner, found);
      var flagged := w.(updateNeeded := w.updateNeeded || asset.key.kind.ConfigMapKind?);
      if !Stampable(asset.key.kind, merged) then Applied(flagged, Failure(Panic))
      else if faults(w.calls) then Applied(flagged.(calls := w.calls + 1), Failure(ApiError))
      else
        var o := Stamp(asset.key.kind, merged, now);
        Applied(flagged.(objects := w.objects[asset.key := o], calls := w.calls + 1,
                         writes := w.writes + [Updated(asset.key)]), Success(o))
  }

  function Apply(faults: Faults, now: string, owner: Owner, asset: Asset, w: World): Applied {
    if faults(w.calls) then Applied(w.(calls := w.calls + 1), Failure(ApiError))
    else if asset.key !in w.objects then ApplyAbsent(faults, owner, asset, w.(calls := w.calls + 1))
    else ApplyFound(faults, now, owner, asset, w.(calls := w.calls + 1))
  }

  // ---------------------------------------------------------------- frame

  ghost predicate SameOutside(before: map<Key, Object>, after: map<Key, Object>, key: Key) {
    forall k :: k != key ==> (k in before <==> k in after) && (k in before ==> after[k] == before[k])
  }

  /** No owner reference is dropped, and `owner` is added only if none has its kind and name. */
  ghost predicate OwnersKept(before: seq<Owner>, after: seq<Owner>, owner: Owner) {
    after == before || (after == before + [owner] && !IsOwnerSet(before, owner))
  }

  ghost predicate ObjectFramed(owner: Owner, before: Object, after: Object) {
    after.unmanaged == before.unmanaged && OwnersKept(before.owners, after.owners, owner)
  }

  ghost predicate Framed(asset: Asset, owner: Owner, objects: map<Key, Object>, writes: seq<Write>, a: Applied) {
    && SameOutside(objects, a.world.objects, asset.key)
    && (asset.key in objects ==>
          asset.key in a.world.objects && ObjectFramed(owner, objects[asset.key], a.world.objects[asset.key]))
    && writes <= a.world.writes && |a.world.writes| <= |writes| + 1
    && (a.result.Failure? ==> a.world.objects == objects && a.world.writes == writes)
  }

  lemma AbsentFrame(faults: Faults, owner: Owner, asset: Asset, w: World)
    requires asset.key !in w.objects
    ensures Framed(asset, owner, w.objects, w.writes, ApplyAbsent(faults, owner, asset, w))
  {
  }

  lemma MergeFrame(asset: Asset, owner: Owner, found: Object, now: string)
    requires Mergeable(found.body, asset.content.body)
    ensures ObjectFramed(owner, found, Stamp(asset.key.kind, Merge(asset, owner, found), now))
  {
  }

  lemma FoundFrame(faults: Faults, now: string, owner: Owner, asset: Asset, w: World)
    requires asset.key in w.objects
    ensures Framed(asset, owner, w.objects, w.writes, ApplyFound(faults, now, owner, asset, w))
  {
    var found := w.objects[asset.key];
    if Mergeable(found.body, asset.content.body) {
      MergeFrame(asset, owner, found, now);
    }
  }

  /** Whatever fails, an apply touches its own object only; it never drops an owner reference
      or a field it does not manage, and adds the owner only where no reference has its kind
      and name. */
  lemma ApplyFrame(faults: Faults, now: string, owner: Owner, asset: Asset, w: World)
    ensures Framed(asset, owner, w.objects, w.writes, Apply(faults, now, owner, asset, w))
  {
    var called := w.(calls := w.calls + 1);
    if faults(w.calls) {
      assert Apply(faults, now, owner, asset, w) == Applied(called, Failure(ApiError));
    } else if asset.key in w.objects {
      FoundFrame(faults, now, owner, asset, called);
      assert Apply(faults, now, owner, asset, w) == ApplyFound(faults, now, owner, asset, called);
    } else {
      AbsentFrame(faults, owner, asset, called);
      assert Apply(faults, now, owner, asset, w) == ApplyAbsent(faults, owner, asset, called);
    }
  }

  /** An update of the object is among the writes made since. */
  ghost predicate Wrote(key: Key, before: seq<Write>, after: seq<Write>) {
    exists i :: |before| <= i < |after| && after[i] == Updated(key)
  }

  /** Writes are of the asset's own object. */
  lemma ApplyWritesOwn(faults: Faults, now: string, owner: Owner, asset: Asset, w: World, key: Key)
    requires key != asset.key
    ensures w.writes <= Apply(faults, now, owner, asset, w).world.writes
    ensures !Wrote(key, w.writes, Apply(faults, now, owner, asset, w).world.writes)
  {
    var before, after := w.writes, Apply(faults, now, owner, asset, w).world.writes;
    if after != before {
      assert after == before + [Created(asset.key)] || after == before + [Updated(asset.key)];
    }
  }

  ghost predicate SameRest(o: Body, o': Body) {
    match (o, o')
    case (Claim(old', r), Claim(new', r')) => r == r' && old'.Keys <= new'.Keys
    case (Service(_, ps, r), Service(_, ps', r')) =>
      r == r' && |ps| == |ps'| && (|ps| > 0 ==> ps[0].rest == ps'[0].rest && ps'[1..] == ps[1..])
    case (CSIDriver(_, _, _, r), CSIDriver(_, _, _, r')) => r == r'
    case (StorageClass(_, r), StorageClass(_, r')) => r == r'
    case (ServiceAccount, ServiceAccount) => true
    case (ConfigMap(_), ConfigMap(_)) => true
    case (Rules(_), Rules(_)) => true
    case (Binding(_, _), Binding(_, _)) => true
    case (Workload(_), Workload(_)) => true
    case (_, _) => false
  }

  lemma SameRestReflexive(o: Body)
    ensures SameRest(o, o)
  {
  }

  lemma MergeKeepsRest(kind: Kind, found: Body, asset: Body)
    requires Fits(kind, found) && Fits(kind, asset) && Mergeable(found, asset)
    ensures Fits(kind, MergeBody(found, asset)) && SameRest(found, MergeBody(found, asset))
    ensures MergeBody(found, asset).Workload? ==> forall labels ::
              SameRest(found, Workload(MergeBody(found, asset).spec.(labels := labels)))
  {
  }

  /** An apply keeps the type of the object and every field it does not manage. */
  lemma ApplyKeepsRest(faults: Faults, now: string, owner: Owner, asset: Asset, w: World)
    requires WellTyped(w.objects) && Fits(asset.key.kind, asset.content.body)
    ensures var a := Apply(faults, now, owner, asset, w);
            && WellTyped(a.world.objects)
            && (asset.key in w.objects ==> SameRest(w.objects[asset.key].body, a.world.objects[asset.key].body))
  {
    if asset.key in w.objects {
      var found := w.objects[asset.key].body;
      SameRestReflexive(found);
      if Mergeable(found, asset.content.body) {
        MergeKeepsRest(asset.key.kind, found, asset.content.body);
      }
    }
  }

  // ---------------------------------------------------------------- fixed point

  /** Nothing of the asset or the owner is missing from the found object. */
  predicate Settled(asset: Asset, owner: Owner, found: Object) {
    Mergeable(found.body, asset.content.body) && !NeedsWrite(asset, owner, found, false)
  }

  lemma SettledMeansMerged(asset: Asset, owner: Owner, found: Object)
    requires Settled(asset, owner, found)
    ensures MergeBody(found.body, asset.content.body) == found.body
    ensures !asset.key.kind.StorageClassKind? ==> Merge(asset, owner, found) == found
  {
  }

  lemma OwnerSetAfter(kind: Kind, owners: seq<Owner>, owner: Owner)
    ensures WithOwner(kind, WithOwner(kind, owners, owner), owner) == WithOwner(kind, owners, owner)
    ensures Claims(kind, owner) ==> IsOwnerSet(WithOwner(kind, owners, owner), owner)
    ensures Claims(kind, owner) ==> IsOwnerSet(owners + [owner], owner)
  {
    if Claims(kind, owner) {
      assert (owners + [owner])[|owners|] == owner;
      assert owner in owners + [owner];
    }
  }

  lemma MergeTwice(asset: Asset, owner: Owner, found: Object)
    requires Fits(asset.key.kind, found.body) && Fits(asset.key.kind, asset.content.body)
    requires Mergeable(found.body, asset.content.body)
    ensures var m := Merge(asset, owner, found);
            Mergeable(m.body, asset.content.body) && Merge(asset, owner, m) == m
  {
    OwnerSetAfter(asset.key.kind, found.owners, owner);
    match (found.body, asset.content.body)
    case (Claim(old', _), Claim(new', _)) => assert old' + new' + new' == old' + new';
    case (Service(_, ports, _), Service(_, ps, _)) =>
    case (_, _) =>
  }

  lemma StampKeepsSettled(asset: Asset, owner: Owner, o: Object, now: string)
    requires Fits(asset.key.kind, o.body) && Fits(asset.key.kind, asset.content.body)
    requires Settled(asset, owner, o)
    ensures Settled(asset, owner, Stamp(asset.key.kind, o, now))
  {
    LabelsDiffer();
  }

  /** An asset as the operator ships it: applied to itself it changes nothing, and it names no
      owner of its own. */
  ghost predicate GoodAsset(asset: Asset) {
    && Fits(asset.key.kind, asset.content.body)
    && (asset.content.body.Service? ==> asset.content.body.ports != [])
    && asset.content.owners == []
  }

  lemma CreatedIsMerged(asset: Asset, owner: Owner)
    requires GoodAsset(asset)
    ensures var o := FirstOwned(asset, owner); Mergeable(o.body, asset.content.body) && Merge(asset, owner, o) == o
  {
    OwnerSetAfter(asset.key.kind, asset.content.owners, owner);
    match asset.content.body
    case Claim(xs, _) => assert xs + xs == xs;
    case Service(_, ps, _) => assert ps[0 := Port(ps[0].number, ps[0].name, ps[0].rest)] == ps;
    case _ =>
  }

  /** A successful apply leaves the object settled. */
  lemma ApplySettles(faults: Faults, now: string, owner: Owner, asset: Asset, w: World)
    requires WellTyped(w.objects) && GoodAsset(asset)
    ensures var a := Apply(faults, now, owner, asset, w);
            a.result.Success? ==>
              && asset.key in a.world.objects && a.result.value == a.world.objects[asset.key]
              && Settled(asset, owner, a.world.objects[asset.key])
  {
    var a := Apply(faults, now, owner, asset, w);
    if a.result.Success? {
      if asset.key !in w.objects {
        OwnerSetAfter(asset.key.kind, asset.content.owners, owner);
        CreatedIsMerged(asset, owner);
      } else {
        var found := w.objects[asset.key];
        MergeTwice(asset, owner, found);
        if NeedsWrite(asset, owner, found, w.updateNeeded) {
          StampKeepsSettled(asset, owner, Merge(asset, owner, found), now);
        }
      }
    }
  }

  /** Applying to a settled object writes nothing, unless it is a workload and a restart is
      asked for. */
  lemma SettledIsNotWritten(faults: Faults, now: string, owner: Owner, asset: Asset, w: World)
    requires asset.key in w.objects && Settled(asset, owner, w.objects[asset.key])
    requires asset.key.kind.IsWorkload() ==> !w.updateNeeded
    ensures var a := Apply(faults, now, owner, asset, w);
            a.world.objects == w.objects && a.world.writes == w.writes && a.world.updateNeeded == w.updateNeeded
    ensures Apply(faults, now, owner, asset, w).result.Success? <==> !faults(w.calls)
  {
  }

  /** Applying the same asset again writes nothing, at any later time and whatever the calls
      in between did elsewhere. */
  lemma ApplyFixedPoint(faults: Faults, now: string, owner: Owner, asset: Asset, w: World,
                        faults': Faults, now': string, w': World)
    requires WellTyped(w.objects) && GoodAsset(asset)
    requires Apply(faults, now, owner, asset, w).result.Success?
    requires asset.key in w'.objects
    requires w'.objects[asset.key] == Apply(faults, now, owner, asset, w).world.objects[asset.key]
    requires asset.key.kind.IsWorkload() ==> !w'.updateNeeded
    ensures var a := Apply(faults', now', owner, asset, w');
            a.world.objects == w'.objects && a.world.writes == w'.writes
  {
    ApplySettles(faults, now, owner, asset, w);
    SettledIsNotWritten(faults', now', owner, asset, w');
  }

  lemma StorageClassWrite(asset: Asset, owner: Owner, found: Object)
    requires asset.key.kind.StorageClassKind? && found.body.StorageClass? && asset.content.body.StorageClass?
    ensures NeedsWrite(asset, owner, found, false) <==> found.body.provisioner != asset.content.body.provisioner
    ensures NeedsWrite(asset, owner, found, true) == NeedsWrite(asset, owner, found, false)
  {
  }

  /** After a successful apply the owner is set, for every kind but storage classes; for those
      exactly if it was set before, or the class was created or had another provisioner. */
  lemma OwnerAfterApply(faults: Faults, now: string, owner: Owner, asset: Asset, w: World)
    requires WellTyped(w.objects) && GoodAsset(asset) && Claims(asset.key.kind, owner)
    requires Apply(faults, now, owner, asset, w).result.Success?
    ensures IsOwnerSet(Apply(faults, now, owner, asset, w).world.objects[asset.key].owners, owner) <==>
            (!asset.key.kind.StorageClassKind? || asset.key !in w.objects
             || IsOwnerSet(w.objects[asset.key].owners, owner)
             || w.objects[asset.key].body.provisioner != asset.content.body.provisioner)
  {
    ApplySettles(faults, now, owner, asset, w);
    var o := Apply(faults, now, owner, asset, w).world.objects[asset.key];
    OwnerSetAfter(asset.key.kind, o.owners, owner);
    if asset.key !in w.objects {
      OwnerSetAfter(asset.key.kind, asset.content.owners, owner);
    } else if !asset.key.kind.StorageClassKind? {
      SettledMeansMerged(asset, owner, o);
    } else {
      OwnerSetAfter(asset.key.kind, w.objects[asset.key].owners, owner);
      StorageClassWrite(asset, owner, w.objects[asset.key]);
    }
  }
}
