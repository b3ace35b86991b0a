/** The roles and bindings for the lifecycle manager, which the driver controller sets up on its
    first check of the driver pods: applies without an owner, whose failures are ignored. */
module Roles {
  import opened ApplySpec
  import opened ApplyLaws
  import opened ResourceApply

  ghost predicate AreRoles(roles: seq<Asset>) {
    forall a :: a in roles ==> a.key.kind.IsRbac() && GoodAsset(a)
  }

  function SetUp(faults: Faults, roles: seq<Asset>, w: World): World {
    if roles == [] then w
    else Apply(faults, "", NO_OWNER, roles[|roles| - 1], SetUp(faults, roles[..|roles| - 1], w)).world
  }

  lemma {:induction false} SetUpTyped(faults: Faults, roles: seq<Asset>, w: World)
    requires WellTyped(w.objects) && AreRoles(roles)
    ensures WellTyped(SetUp(faults, roles, w).objects)
  {
    if roles == [] {
    } else {
      var front, last := roles[..|roles| - 1], roles[|roles| - 1];
      assert last in roles;
      SetUpTyped(faults, front, w);
      ApplyKeepsRest(faults, "", NO_OWNER, last, SetUp(faults, front, w));
    }
  }

  function OwnersAt(key: Key, w: World): seq<Owner> {
    if key in w.objects then w.objects[key].owners else []
  }

  lemma OneKeepsOwners(faults: Faults, role: Asset, w: World, key: Key)
    requires role.key.kind.IsRbac() && GoodAsset(role)
    ensures OwnersAt(key, Apply(faults, "", NO_OWNER, role, w).world) == OwnersAt(key, w)
  {
    ApplyFrame(faults, "", NO_OWNER, role, w);
  }

  /** The set-up gives no object an owner and takes none away, so nothing it creates is collected
      with the driver. */
  lemma {:induction false} SetUpKeepsOwners(faults: Faults, roles: seq<Asset>, w: World, key: Key)
    requires WellTyped(w.objects) && AreRoles(roles)
    ensures OwnersAt(key, SetUp(faults, roles, w)) == OwnersAt(key, w)
  {
    if roles == [] {
    } else {
      var front, last := roles[..|roles| - 1], roles[|roles| - 1];
      assert last in roles;
      SetUpTyped(faults, front, w);
      SetUpKeepsOwners(faults, front, w, key);
      OneKeepsOwners(faults, last, SetUp(faults, front, w), key);
    }
  }

  ghost predicate DistinctRoles(roles: seq<Asset>) {
    forall i, j :: 0 <= i < j < |roles| ==> roles[i].key != roles[j].key
  }

  ghost predicate IsThere(role: Asset, w: World) {
    role.key in w.objects && Carries(role.content.body, w.objects[role.key].body)
  }

  lemma OneBrings(faults: Faults, role: Asset, w: World)
    requires role.key.kind.IsRbac() && GoodAsset(role) && WellTyped(w.objects)
    requires !faults(w.calls) && !faults(w.calls + 1)
    ensures var w' := Apply(faults, "", NO_OWNER, role, w).world;
            IsThere(role, w')
  {
    ApplySucceedsExactly(faults, "", NO_OWNER, role, w);
    ApplyBrings(faults, "", NO_OWNER, role, w);
  }

  lemma OneLeaves(faults: Faults, role: Asset, w: World, key: Key)
    requires key != role.key && key in w.objects
    ensures var w' := Apply(faults, "", NO_OWNER, role, w).world; key in w'.objects && w'.objects[key] == w.objects[key]
  {
    ApplyFrame(faults, "", NO_OWNER, role, w);
  }

  /** Neither of the two calls of the role's apply is refused. */
  ghost predicate CallsAccepted(faults: Faults, roles: seq<Asset>, w: World, i: nat)
    requires i < |roles|
  {
    var call := SetUp(faults, roles[..i], w).calls;
    !faults(call) && !faults(call + 1)
  }

  /** A role whose own two calls are accepted is brought in, whatever became of the others. */
  lemma {:induction false} SetUpBrings(faults: Faults, roles: seq<Asset>, w: World, i: nat)
    requires WellTyped(w.objects) && AreRoles(roles) && DistinctRoles(roles) && i < |roles|
    requires CallsAccepted(faults, roles, w, i)
    ensures var w' := SetUp(faults, roles, w);
            IsThere(roles[i], w')
  {
    var front, last := roles[..|roles| - 1], roles[|roles| - 1];
    assert last in roles;
    if i == |front| {
      SetUpTyped(faults, front, w);
      OneBrings(faults, last, SetUp(faults, front, w));
    } else {
      assert front[..i] == roles[..i] && CallsAccepted(faults, front, w, i);
      SetUpBrings(faults, front, w, i);
      OneLeaves(faults, last, SetUp(faults, front, w), roles[i].key);
    }
  }

  /** ApplyOLMRbac: every role is tried, whatever became of the ones before. */
  method SetUpRoles(operator: Operator, roles: seq<Asset>)
    requires WellTyped(operator.objects) && AreRoles(roles)
    modifies operator
    ensures operator.State() == SetUp(operator.faults, roles, old(operator.State()))
    ensures WellTyped(operator.objects)
  {
    ghost var w0 := operator.State();
    for i := 0 to |roles|
      invariant operator.State() == SetUp(operator.faults, roles[..i], w0)
      invariant WellTyped(operator.objects)
    {
      assert roles[..i + 1][..i] == roles[..i] && roles[i] in roles;
      ApplyKeepsRest(operator.faults, "", NO_OWNER, roles[i], operator.State());
      var _ := operator.ApplyAsset(NO_OWNER, "", Decoded(roles[i]));
    }
    assert roles[..|roles|] == roles;
  }
}
