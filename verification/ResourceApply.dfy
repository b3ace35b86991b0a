/** The operator's apply functions: core.go, apps.go, rbac.go and storage.go. */
module ResourceApply {
  import opened Wrappers
  import opened ApplySpec

  /** A file the operator ships: it may be unreadable, undecodable or of a kind nothing handles. */
  datatype Shipped = Decoded(asset: Asset) | Unusable

  /** The operator process: its API client, the cluster behind it and the global flag that asks
      for a restart of the driver. */
  class Operator {
    const faults: Faults
    var objects: map<Key, Object>
    var calls: nat
    var writes: seq<Write>
    var driverUpdateNeeded: bool

    function State(): World
      reads this
    {
      World(objects, calls, writes, driverUpdateNeeded)
    }

    constructor (objects: map<Key, Object>, faults: Faults)
      ensures this.faults == faults && State() == World(objects, 0, [], false)
    {
      this.faults, this.objects, calls, writes, driverUpdateNeeded := faults, objects, 0, [], false;
    }

    method IsOwnerSetIn(owners: seq<Owner>, owner: Owner) returns (yes: bool)
      ensures yes <==> IsOwnerSet(owners, owner)
    {
      if |owners| == 0 {
        return false;
      }
      for i := 0 to |owners|
        invariant forall j :: 0 <= j < i ==> !(owners[j].name == owner.name && owners[j].kind == owner.kind)
      {
        if owners[i].name == owner.name && owners[i].kind == owner.kind {
          return true;
        }
      }
      return false;
    }

    /** Get, and create if there is nothing: true means that `source` was created. */
    method CreateResource(key: Key, source: Object) returns (r: Result<bool, Failure>)
      modifies this
      ensures if faults(old(calls)) then r == Failure(ApiError) && State() == old(State()).(calls := old(calls) + 1)
              else if key in old(objects) then r == Success(false) && State() == old(State()).(calls := old(calls) + 1)
              else if faults(old(calls) + 1) then
                r == Failure(ApiError) && State() == old(State()).(calls := old(calls) + 2)
              else r == Success(true)
                   && State() == World(old(objects)[key := source], old(calls) + 2, old(writes) + [Created(key)],
                                       old(driverUpdateNeeded))
    {
      calls := calls + 1;
      if faults(calls - 1) {
        return Failure(ApiError);
      }
      if key in objects {
        return Success(false);
      }
      calls := calls + 1;
      if faults(calls - 1) {
        return Failure(ApiError);
      }
      objects := objects[key := source];
      writes := writes + [Created(key)];
      return Success(true);
    }

    method UpdateResource(key: Key, updateRes: Object) returns (r: Result<Object, Failure>)
      modifies this
      ensures if faults(old(calls)) then r == Failure(ApiError) && State() == old(State()).(calls := old(calls) + 1)
              else r == Success(updateRes)
                   && State() == World(old(objects)[key := updateRes], old(calls) + 1, old(writes) + [Updated(key)],
                                       old(driverUpdateNeeded))
    {
      calls := calls + 1;
      if faults(calls - 1) {
        return Failure(ApiError);
      }
      objects := objects[key := updateRes];
      writes := writes + [Updated(key)];
      return Success(updateRes);
    }

    method ApplyDriverConfigMap(owner: Owner, now: string, cm: Asset) returns (r: Result<Object, Failure>)
      requires cm.key.kind.ConfigMapKind? && cm.content.body.ConfigMap?
      requires cm.key in objects ==> objects[cm.key].body.ConfigMap?
      modifies this
      ensures Applied(State(), r) == Apply(faults, now, owner, cm, old(State()))
    {
      var source := cm.content.(owners := cm.content.owners + [owner]);
      var created := CreateResource(cm.key, source);
      if created.Failure? {
        return Failure(created.error);
      }
      if created.value {
        driverUpdateNeeded := true;
        return Success(source);
      }
      var found := objects[cm.key];
      var updateRes := found.(body := cm.content.body);
      var ownerSet := IsOwnerSetIn(updateRes.owners, owner);
      if !ownerSet {
        updateRes := updateRes.(owners := updateRes.owners + [owner]);
      }
      if updateRes != found {
        driverUpdateNeeded := true;
        r := UpdateResource(cm.key, updateRes);
        return;
      }
      return Success(found);
    }

    method MergeAnnotations(found: map<string, string>, asset: map<string, string>) returns (r: map<string, string>)
      ensures r == found + asset
    {
      r := found;
      var rest := asset.Keys;
      while rest != {}
        invariant rest <= asset.Keys
        invariant r.Keys == found.Keys + (asset.Keys - rest)
        invariant forall k :: k in r ==> r[k] == if k in asset && k !in rest then asset[k] else found[k]
        decreases |rest|
      {
        var k :| k in rest;
        r := r[k := asset[k]];
        rest := rest - {k};
      }
    }

    method ApplyPersistentVolumeClaim(owner: Owner, now: string, pvc: Asset) returns (r: Result<Object, Failure>)
      requires pvc.key.kind.ClaimKind? && pvc.content.body.Claim?
      requires pvc.key in objects ==> objects[pvc.key].body.Claim?
      modifies this
      ensures Applied(State(), r) == Apply(faults, now, owner, pvc, old(State()))
    {
      var source := pvc.content.(owners := pvc.content.owners + [owner]);
      var created := CreateResource(pvc.key, source);
      if created.Failure? {
        return Failure(created.error);
      }
      if created.value {
        return Success(source);
      }
      var found := objects[pvc.key];
      var annotations := MergeAnnotations(found.body.annotations, pvc.content.body.annotations);
      var updateRes := found.(body := Claim(annotations, found.body.rest));
      var ownerSet := IsOwnerSetIn(updateRes.owners, owner);
      if !ownerSet {
        updateRes := updateRes.(owners := updateRes.owners + [owner]);
      }
      if updateRes != found {
        r := UpdateResource(pvc.key, updateRes);
        return;
      }
      return Success(found);
    }

    method ApplyService(owner: Owner, now: string, service: Asset) returns (r: Result<Object, Failure>)
      requires service.key.kind.ServiceKind? && service.content.body.Service?
      requires service.key in objects ==> objects[service.key].body.Service?
      modifies this
      ensures Applied(State(), r) == Apply(faults, now, owner, service, old(State()))
    {
      var source := service.content.(owners := service.content.owners + [owner]);
      var created := CreateResource(service.key, source);
      if created.Failure? {
        return Failure(created.error);
      }
      if created.value {
        return Success(source);
      }
      var found := objects[service.key];
      var asset := service.content.body;
      if |found.body.ports| == 0 || |asset.ports| == 0 {
        return Failure(Panic);
      }
      var port := Port(asset.ports[0].number, asset.ports[0].name, found.body.ports[0].rest);
      var updateRes := found.(body := Service(asset.selector, found.body.ports[0 := port], found.body.rest));
      var ownerSet := IsOwnerSetIn(updateRes.owners, owner);
      if !ownerSet {
        updateRes := updateRes.(owners := updateRes.owners + [owner]);
      }
      if updateRes != found {
        r := UpdateResource(service.key, updateRes);
        return;
      }
      return Success(found);
    }

    method ApplyServiceAccount(owner: Owner, now: string, serviceAccount: Asset) returns (r: Result<Object, Failure>)
      requires serviceAccount.key.kind.ServiceAccountKind? && serviceAccount.content.body.ServiceAccount?
      requires serviceAccount.key in objects ==> objects[serviceAccount.key].body.ServiceAccount?
      modifies this
      ensures Applied(State(), r) == Apply(faults, now, owner, serviceAccount, old(State()))
    {
      var source := serviceAccount.content.(owners := serviceAccount.content.owners + [owner]);
      var created := CreateResource(serviceAccount.key, source);
      if created.Failure? {
        return Failure(created.error);
      }
      if created.value {
        return Success(source);
      }
      var found := objects[serviceAccount.key];
      var ownerSet := IsOwnerSetIn(found.owners, owner);
      if !ownerSet {
        r := UpdateResource(serviceAccount.key, found.(owners := found.owners + [owner]));
        return;
      }
      return Success(found);
    }

    /** The four role and binding applies differ only in the fields they copy. Unlike the
        others they can run without an owner. */
    method ApplyRbac(owner: Owner, now: string, role: Asset) returns (r: Result<Object, Failure>)
      requires role.key.kind.IsRbac() && Fits(role.key.kind, role.content.body)
      requires role.key in objects ==> Fits(role.key.kind, objects[role.key].body)
      modifies this
      ensures Applied(State(), r) == Apply(faults, now, owner, role, old(State()))
    {
      var source := role.content;
      if owner != NO_OWNER {
        source := source.(owners := source.owners + [owner]);
      }
      var created := CreateResource(role.key, source);
      if created.Failure? {
        return Failure(created.error);
      }
      if created.value {
        return Success(source);
      }
      var found := objects[role.key];
      var updateRes := found;
      if role.content.body.Rules? {
        updateRes := updateRes.(body := Rules(role.content.body.rules));
      } else {
        updateRes := updateRes.(body := Binding(role.content.body.subjects, role.content.body.roleRef));
      }
      if owner != NO_OWNER {
        var ownerSet := IsOwnerSetIn(updateRes.owners, owner);
        if !ownerSet {
          updateRes := updateRes.(owners := updateRes.owners + [owner]);
        }
      }
      if updateRes != found {
        r := UpdateResource(role.key, updateRes);
        return;
      }
      return Success(found);
    }

    method ApplyCSIDriver(owner: Owner, now: string, csiDriver: Asset) returns (r: Result<Object, Failure>)
      requires csiDriver.key.kind.CSIDriverKind? && csiDriver.content.body.CSIDriver?
      requires csiDriver.key in objects ==> objects[csiDriver.key].body.CSIDriver?
      modifies this
      ensures Applied(State(), r) == Apply(faults, now, owner, csiDriver, old(State()))
    {
      var source := csiDriver.content.(owners := csiDriver.content.owners + [owner]);
      var created := CreateResource(csiDriver.key, source);
      if created.Failure? {
        return Failure(created.error);
      }
      if created.value {
        return Success(source);
      }
      var found := objects[csiDriver.key];
      var asset := csiDriver.content.body;
      var updateRes := found.(body := CSIDriver(asset.attachRequired, asset.podInfoOnMount, asset.lifecycleModes,
                                                found.body.rest));
      var ownerSet := IsOwnerSetIn(updateRes.owners, owner);
      if !ownerSet {
        updateRes := updateRes.(owners := updateRes.owners + [owner]);
      }
      if updateRes != found {
        r := UpdateResource(csiDriver.key, updateRes);
        return;
      }
      return Success(found);
    }

    method ApplyStorageClass(owner: Owner, now: string, storageClass: Asset) returns (r: Result<Object, Failure>)
      requires storageClass.key.kind.StorageClassKind? && storageClass.content.body.StorageClass?
      requires storageClass.key in objects ==> objects[storageClass.key].body.StorageClass?
      modifies this
      ensures Applied(State(), r) == Apply(faults, now, owner, storageClass, old(State()))
    {
      var source := storageClass.content.(owners := storageClass.content.owners + [owner]);
      var created := CreateResource(storageClass.key, source);
      if created.Failure? {
        return Failure(created.error);
      }
      if created.value {
        return Success(source);
      }
      var found := objects[storageClass.key];
      var updateNeeded := false;
      var updateSC := found;
      var ownerSet := IsOwnerSetIn(updateSC.owners, owner);
      if !ownerSet {
        updateSC := updateSC.(owners := updateSC.owners + [owner]);
      }
      updateNeeded := updateNeeded || updateSC.body.provisioner != storageClass.content.body.provisioner;
      updateSC := updateSC.(body := StorageClass(storageClass.content.body.provisioner, updateSC.body.rest));
      if updateNeeded {
        r := UpdateResource(storageClass.key, updateSC);
        return;
      }
      return Success(found);
    }

    /** Daemon sets and stateful sets are handled alike. */
    method ApplyWorkload(owner: Owner, now: string, workload: Asset) returns (r: Result<Object, Failure>)
      requires workload.key.kind.IsWorkload() && workload.content.body.Workload?
      requires workload.key in objects ==> objects[workload.key].body.Workload?
      modifies this
      ensures Applied(State(), r) == Apply(faults, now, owner, workload, old(State()))
    {
      var source := workload.content.(owners := workload.content.owners + [owner]);
      var created := CreateResource(workload.key, source);
      if created.Failure? {
        return Failure(created.error);
      }
      if created.value {
        return Success(source);
      }
      var found := objects[workload.key];
      var updateRes := found;
      var assetVersion := LabelValue(workload.content.body.spec.labels, LABEL_DRIVER_VERSION);
      var deployedVersion := LabelValue(updateRes.body.spec.labels, LABEL_DRIVER_VERSION);
      if assetVersion != deployedVersion {
        updateRes := updateRes.(body := workload.content.body);
      }
      var ownerSet := IsOwnerSetIn(updateRes.owners, owner);
      if !ownerSet {
        updateRes := updateRes.(owners := updateRes.owners + [owner]);
      }
      if driverUpdateNeeded || updateRes != found {
        if updateRes.body.spec.labels == map[] {
          return Failure(Panic);
        }
        updateRes := updateRes.(body := Workload(updateRes.body.spec.(
                                          labels := updateRes.body.spec.labels[LABEL_UPDATE_TIME := now])));
        r := UpdateResource(workload.key, updateRes);
        return;
      }
      return Success(found);
    }

    /** Dispatch on the kind of the asset; the config map comes from applyDriverEnvironment. */
    method ApplyAsset(owner: Owner, now: string, shipped: Shipped) returns (r: Result<Object, Failure>)
      requires shipped.Decoded? ==> Fits(shipped.asset.key.kind, shipped.asset.content.body)
      requires shipped.Decoded? && shipped.asset.key in objects ==>
                 Fits(shipped.asset.key.kind, objects[shipped.asset.key].body)
      modifies this
      ensures match shipped
              case Unusable => r == Failure(BadAsset) && State() == old(State())
              case Decoded(asset) => Applied(State(), r) == Apply(faults, now, owner, asset, old(State()))
    {
      if shipped.Unusable? {
        return Failure(BadAsset);
      }
      var asset := shipped.asset;
      match asset.key.kind
      case ConfigMapKind => r := ApplyDriverConfigMap(owner, now, asset);
      case ClaimKind => r := ApplyPersistentVolumeClaim(owner, now, asset);
      case ServiceKind => r := ApplyService(owner, now, asset);
      case ServiceAccountKind => r := ApplyServiceAccount(owner, now, asset);
      case ClusterRoleKind => r := ApplyRbac(owner, now, asset);
      case ClusterRoleBindingKind => r := ApplyRbac(owner, now, asset);
      case RoleKind => r := ApplyRbac(owner, now, asset);
      case RoleBindingKind => r := ApplyRbac(owner, now, asset);
      case CSIDriverKind => r := ApplyCSIDriver(owner, now, asset);
      case StorageClassKind => r := ApplyStorageClass(owner, now, asset);
      case DaemonSetKind => r := ApplyWorkload(owner, now, asset);
      case StatefulSetKind => r := ApplyWorkload(owner, now, asset);
    }
  }
}
