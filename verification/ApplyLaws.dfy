/**
 What an apply brings into the cluster, field by field, and when it writes and when it succeeds,
 told from the asset and the stored object alone.
 */
module ApplyLaws {
  import opened ApplySpec

  /** Both name the same driver version; a missing label counts as the empty one. */
  predicate SameVersion(a: map<string, string>, b: map<string, string>) {
    var key := "csi.marketplace.redhat.com/driverVersion";
    (if key in a then a[key] else "") == (if key in b then b[key] else "")
  }

  /** Templates that differ in the update time at most. */
  ghost predicate SameButTime(a: Template, b: Template) {
    && a.rest == b.rest
    && forall k :: k != "deploymentUpdateTime" ==>
         (k in a.labels <==> k in b.labels) && (k in a.labels ==> a.labels[k] == b.labels[k])
  }

  predicate HasTime(spec: Template, now: string) {
    "deploymentUpdateTime" in spec.labels && spec.labels["deploymentUpdateTime"] == now
  }

  /** The object has everything of the asset that an apply is to bring in. */
  ghost predicate Carries(asset: Body, o: Body) {
    match (asset, o)
    case (ConfigMap(data), ConfigMap(data')) => data' == data
    case (Claim(xs, _), Claim(ys, _)) => forall k :: k in xs ==> k in ys && ys[k] == xs[k]
    case (Service(selector, ps, _), Service(selector', ps', _)) =>
      && selector' == selector
      && ps != [] && ps' != [] && ps'[0].number == ps[0].number && ps'[0].name == ps[0].name
    case (ServiceAccount, ServiceAccount) => true
    case (Rules(rules), Rules(rules')) => rules' == rules
    case (Binding(subjects, roleRef), Binding(subjects', roleRef')) => subjects' == subjects && roleRef' == roleRef
    case (CSIDriver(a, p, l, _), CSIDriver(a', p', l', _)) => a' == a && p' == p && l' == l
    case (StorageClass(provisioner, _), StorageClass(provisioner', _)) => provisioner' == provisioner
    case (Workload(spec), Workload(spec')) => SameVersion(spec.labels, spec'.labels)
    case (_, _) => false
  }

  /** The owner is entered, or not asked for: storage classes are not checked for it, and roles are
      applied without an owner by the driver controller. */
  ghost predicate Owned(asset: Asset, owner: Owner, o: Object) {
    || asset.key.kind.StorageClassKind?
    || (asset.key.kind.IsRbac() && owner == NO_OWNER)
    || exists r :: r in o.owners && r.kind == owner.kind && r.name == owner.name
  }

  lemma OverlayIsThere(xs: map<string, string>, ys: map<string, string>)
    ensures ys + xs == ys <==> forall k :: k in xs ==> k in ys && ys[k] == xs[k]
  {
    if ys + xs == ys {
      forall k | k in xs ensures k in ys && ys[k] == xs[k] {
        assert k in ys + xs && (ys + xs)[k] == xs[k];
      }
    }
  }

  lemma MergedBodyIsThere(asset: Body, found: Body)
    requires Mergeable(found, asset) && (asset.Service? ==> asset.ports != [])
    requires exists kind :: Fits(kind, found) && Fits(kind, asset)
    ensures MergeBody(found, asset) == found <==> Carries(asset, found)
  {
    match (found, asset)
    case (Claim(ys, _), Claim(xs, _)) => OverlayIsThere(xs, ys);
    case (Service(_, ports, _), Service(_, ps, _)) =>
      assert ports[0 := ports[0]] == ports;
      assert ports[0 := Port(ps[0].number, ps[0].name, ports[0].rest)][0].number == ps[0].number;
    case (_, _) =>
  }

  /** A found object is settled exactly if it carries the asset and is owned. */
  lemma SettledExactly(asset: Asset, owner: Owner, found: Object)
    requires Fits(asset.key.kind, found.body) && GoodAsset(asset)
    ensures Settled(asset, owner, found) <==> Carries(asset.content.body, found.body) && Owned(asset, owner, found)
  {
    if Mergeable(found.body, asset.content.body) {
      MergedBodyIsThere(asset.content.body, found.body);
      assert (found.owners + [owner])[|found.owners|] == owner;
    }
  }

  // ---------------------------------------------------------------- what a success brings

  /** Everything the asset brings in is there, and what is not the asset's business is as before. A
      workload of another version becomes the asset's, as a whole, up to the update time. */
  ghost predicate Brought(asset: Body, before: Body, after: Body) {
    && Carries(asset, after) && SameRest(before, after)
    && (asset.Claim? && before.Claim? && after.Claim? ==>
          && after.annotations.Keys == before.annotations.Keys + asset.annotations.Keys
          && forall k :: k in before.annotations && k !in asset.annotations ==>
               after.annotations[k] == before.annotations[k])
    && (asset.Workload? && before.Workload? && after.Workload? ==>
          SameButTime(after.spec, if SameVersion(asset.spec.labels, before.spec.labels) then before.spec
                                  else asset.spec))
  }

  lemma MergeBrings(asset: Asset, found: Body)
    requires Fits(asset.key.kind, found) && GoodAsset(asset) && Mergeable(found, asset.content.body)
    ensures Brought(asset.content.body, found, MergeBody(found, asset.content.body))
  {
    MergeKeepsRest(asset.key.kind, found, asset.content.body);
  }

  lemma StampBrings(kind: Kind, asset: Body, before: Body, o: Object, now: string)
    requires kind.IsWorkload() && Fits(kind, before) && Fits(kind, asset) && Fits(kind, o.body)
    requires Brought(asset, before, o.body)
    ensures Brought(asset, before, Stamp(kind, o, now).body)
    ensures Stamp(kind, o, now).body.Workload? && HasTime(Stamp(kind, o, now).body.spec, now)
  {
    LabelsDiffer();
  }

  /** What must be written: something of the asset or its owner is missing, or a workload is to be
      restarted. */
  ghost predicate ToWrite(asset: Asset, owner: Owner, w: World)
    requires asset.key in w.objects
  {
    || !Carries(asset.content.body, w.objects[asset.key].body) || !Owned(asset, owner, w.objects[asset.key])
    || (asset.key.kind.IsWorkload() && w.updateNeeded)
  }

  lemma NeedsWriteExactly(asset: Asset, owner: Owner, w: World)
    requires asset.key in w.objects && Fits(asset.key.kind, w.objects[asset.key].body) && GoodAsset(asset)
    requires Mergeable(w.objects[asset.key].body, asset.content.body)
    ensures NeedsWrite(asset, owner, w.objects[asset.key], w.updateNeeded) <==> ToWrite(asset, owner, w)
  {
    SettledExactly(asset, owner, w.objects[asset.key]);
  }

  /** After a successful apply the stored object has everything of the asset and keeps the rest; an
      object that was not there is the asset's own. */
  lemma ApplyBrings(faults: Faults, now: string, owner: Owner, asset: Asset, w: World)
    requires WellTyped(w.objects) && GoodAsset(asset)
    requires Apply(faults, now, owner, asset, w).result.Success?
    ensures var w' := Apply(faults, now, owner, asset, w).world;
            && asset.key in w'.objects
            && Owned(asset, owner, w'.objects[asset.key])
            && (asset.key !in w.objects ==>
                  && w'.objects[asset.key].body == asset.content.body
                  && w'.objects[asset.key].unmanaged == asset.content.unmanaged
                  && w'.objects[asset.key].owners
                     == (if asset.key.kind.IsRbac() && owner == NO_OWNER then [] else [owner])
                  && w'.writes == w.writes + [Created(asset.key)])
            && (asset.key in w.objects ==>
                  Brought(asset.content.body, w.objects[asset.key].body, w'.objects[asset.key].body))
  {
    ApplySettles(faults, now, owner, asset, w);
    ApplyKeepsRest(faults, now, owner, asset, w);
    var w' := Apply(faults, now, owner, asset, w).world;
    SettledExactly(asset, owner, w'.objects[asset.key]);
    if asset.key in w.objects {
      MergeBrings(asset, w.objects[asset.key].body);
      if asset.key.kind.IsWorkload() {
        StampBrings(asset.key.kind, asset.content.body, w.objects[asset.key].body,
                    Merge(asset, owner, w.objects[asset.key]), now);
      }
      if !NeedsWrite(asset, owner, w.objects[asset.key], w.updateNeeded) {
        assert w'.objects[asset.key] == w.objects[asset.key];
      }
    }
  }

  /** A successful apply of an existing object makes one write, an update, exactly if something is
      missing or a restart is asked for, and else changes nothing; a workload that is written
      gets the time of the apply. */
  lemma ApplyWritesExactly(faults: Faults, now: string, owner: Owner, asset: Asset, w: World)
    requires WellTyped(w.objects) && GoodAsset(asset) && asset.key in w.objects
    requires Apply(faults, now, owner, asset, w).result.Success?
    ensures var w' := Apply(faults, now, owner, asset, w).world;
            if ToWrite(asset, owner, w) then
              && w'.writes == w.writes + [Updated(asset.key)] && asset.key in w'.objects
              && (asset.key.kind.IsWorkload() ==>
                    w'.objects[asset.key].body.Workload? && HasTime(w'.objects[asset.key].body.spec, now))
            else w' == w.(calls := w.calls + 1)
  {
    NeedsWriteExactly(asset, owner, w);
    MergeKeepsRest(asset.key.kind, w.objects[asset.key].body, asset.content.body);
  }

  /** An update label can be set: the template to be written has a label map. */
  ghost predicate TakesTime(asset: Body, found: Body) {
    asset.Workload? && found.Workload? ==>
      if SameVersion(asset.spec.labels, found.spec.labels) then found.spec.labels != map[]
      else asset.spec.labels != map[]
  }

  /** An apply succeeds exactly if the get and, where one is needed, the create or update are
      accepted, a service has a port to compare, and a workload to be written has labels. */
  lemma ApplySucceedsExactly(faults: Faults, now: string, owner: Owner, asset: Asset, w: World)
    requires WellTyped(w.objects) && GoodAsset(asset)
    ensures Apply(faults, now, owner, asset, w).result.Success? <==>
            && !faults(w.calls)
            && (asset.key !in w.objects ==> !faults(w.calls + 1))
            && (asset.key in w.objects ==>
                  && (w.objects[asset.key].body.Service? ==> w.objects[asset.key].body.ports != [])
                  && (ToWrite(asset, owner, w) ==>
                        !faults(w.calls + 1) && TakesTime(asset.content.body, w.objects[asset.key].body)))
  {
    if asset.key in w.objects && Mergeable(w.objects[asset.key].body, asset.content.body) {
      NeedsWriteExactly(asset, owner, w);
      NeedsWriteExactly(asset, owner, w.(calls := w.calls + 1));
    }
  }

  // ---------------------------------------------------------------- a restart

  /** A workload's object, rewritten at that time: the label with the time, all else the stored
      template or, if its driver version is another, the asset's. */
  ghost predicate Rewritten(x: Asset, owner: Owner, now: string, before: Object, after: Object) {
    && x.content.body.Workload? && before.body.Workload? && after.body.Workload?
    && HasTime(after.body.spec, now)
    && SameButTime(after.body.spec,
                   if SameVersion(x.content.body.spec.labels, before.body.spec.labels) then before.body.spec
                   else x.content.body.spec)
    && after.unmanaged == before.unmanaged
    && (after.owners == before.owners || after.owners == before.owners + [owner])
    && exists r :: r in after.owners && r.kind == owner.kind && r.name == owner.name
  }

  /** An apply that succeeds while the flag is up rewrites a workload that exists. */
  lemma FlagRewrites(faults: Faults, now: string, owner: Owner, x: Asset, w: World)
    requires x.key.kind.IsWorkload() && GoodAsset(x) && x.key in w.objects && WellTyped(w.objects)
    requires w.updateNeeded && Apply(faults, now, owner, x, w).result.Success?
    ensures var w' := Apply(faults, now, owner, x, w).world;
            && x.key in w'.objects && w'.writes == w.writes + [Updated(x.key)] && w'.calls > w.calls
            && Rewritten(x, owner, now, w.objects[x.key], w'.objects[x.key])
  {
    ApplyBrings(faults, now, owner, x, w);
    ApplyWritesExactly(faults, now, owner, x, w);
    ApplyFrame(faults, now, owner, x, w);
  }
}
