/**
 One reconcile pass of the driver controller over its assets, and what the global restart flag
 makes of a configuration change.
 */
module DriverPass {
  import opened Wrappers
  import opened ApplySpec
  import opened ApplyLaws
  import opened ResourceApply

  /** What does not change during a pass: which calls fail, the clock by call number, the owner. */
  datatype Setup = Setup(faults: Faults, clock: nat -> string, owner: Owner)

  datatype Run = Run(world: World, done: bool)

  function ApplyOne(s: Setup, asset: Asset, w: World): Applied {
    Apply(s.faults, s.clock(w.calls), s.owner, asset, w)
  }

  /** Assets in order; the first failure ends the pass. */
  function ApplyAll(s: Setup, assets: seq<Asset>, w: World): Run {
    if assets == [] then Run(w, true)
    else
      var r := ApplyAll(s, assets[..|assets| - 1], w);
      if !r.done then r
      else
        var a := ApplyOne(s, assets[|assets| - 1], r.world);
        Run(a.world, a.result.Success?)
  }

  /** A pass resets the flag before anything else. */
  function Pass(s: Setup, assets: seq<Asset>, w: World): Run {
    ApplyAll(s, assets, w.(updateNeeded := false))
  }

  // ---------------------------------------------------------------- environment

  datatype EnvVar = EnvVar(name: string, value: string)

  /** The config map's data with the driver's environment variables laid over it; a later
      variable of the same name wins. */
  function Overlay(data: map<string, string>, env: seq<EnvVar>): map<string, string> {
    if env == [] then data
    else Overlay(data, env[..|env| - 1])[env[|env| - 1].name := env[|env| - 1].value]
  }

  /** A name keeps the value of its last variable. */
  lemma {:induction false} OverlayAt(data: map<string, string>, env: seq<EnvVar>, i: nat)
    requires i < |env| && forall j :: i < j < |env| ==> env[j].name != env[i].name
    ensures env[i].name in Overlay(data, env) && Overlay(data, env)[env[i].name] == env[i].value
  {
    if i == |env| - 1 {
    } else {
      OverlayAt(data, env[..|env| - 1], i);
    }
  }

  /** A name without a variable is there exactly if the data has it, with the data's value. */
  lemma {:induction false} OverlayElsewhere(data: map<string, string>, env: seq<EnvVar>, name: string)
    requires forall i :: 0 <= i < |env| ==> env[i].name != name
    ensures name in Overlay(data, env) <==> name in data
    ensures name in data ==> Overlay(data, env)[name] == data[name]
  {
    if env == [] {
    } else {
      OverlayElsewhere(data, env[..|env| - 1], name);
    }
  }

  function EnvAsset(cm: Asset, env: seq<EnvVar>): Asset
    requires cm.content.body.ConfigMap?
  {
    cm.(content := cm.content.(body := ConfigMap(Overlay(cm.content.body.data, env))))
  }

  /** The config map applied is the asset's but for its data: the environment's last word on a name,
      else what the asset says. */
  lemma EnvAssetTells(cm: Asset, env: seq<EnvVar>, i: nat, name: string)
    requires cm.content.body.ConfigMap?
    ensures var r := EnvAsset(cm, env);
            && r.key == cm.key && r.content.body.ConfigMap? && r.content == cm.content.(body := r.content.body)
            && (i < |env| && (forall j :: i < j < |env| ==> env[j].name != env[i].name) ==>
                  env[i].name in r.content.body.data && r.content.body.data[env[i].name] == env[i].value)
            && ((forall j :: 0 <= j < |env| ==> env[j].name != name) ==>
                  (name in r.content.body.data <==> name in cm.content.body.data)
                  && (name in cm.content.body.data ==> r.content.body.data[name] == cm.content.body.data[name]))
  {
    if i < |env| && forall j :: i < j < |env| ==> env[j].name != env[i].name {
      OverlayAt(cm.content.body.data, env, i);
    }
    if forall j :: 0 <= j < |env| ==> env[j].name != name {
      OverlayElsewhere(cm.content.body.data, env, name);
    }
  }

  lemma ApplyAllNext(s: Setup, assets: seq<Asset>, w: World, i: nat)
    requires i < |assets|
    ensures var r := ApplyAll(s, assets[..i], w);
            ApplyAll(s, assets[..i + 1], w)
            == if !r.done then r else var a := ApplyOne(s, assets[i], r.world); Run(a.world, a.result.Success?)
  {
    assert assets[..i + 1][..i] == assets[..i];
  }

  lemma {:induction false} StopsThere(s: Setup, assets: seq<Asset>, w: World, i: nat)
    requires i <= |assets| && !ApplyAll(s, assets[..i], w).done
    ensures ApplyAll(s, assets, w) == ApplyAll(s, assets[..i], w)
    decreases |assets|
  {
    if i == |assets| {
      assert assets[..i] == assets;
    } else {
      assert assets[..|assets| - 1][..i] == assets[..i];
      StopsThere(s, assets[..|assets| - 1], w, i);
    }
  }

  lemma {:induction false} ApplyAllAppend(s: Setup, a: seq<Asset>, b: seq<Asset>, w: World)
    ensures var r := ApplyAll(s, a, w);
            ApplyAll(s, a + b, w) == if r.done then ApplyAll(s, b, r.world) else r
  {
    if b == [] {
      assert a + b == a;
    } else {
      assert (a + b)[..|a + b| - 1] == a + b[..|b| - 1];
      ApplyAllAppend(s, a, b[..|b| - 1], w);
    }
  }

  // ---------------------------------------------------------------- the pass as code

  class DriverController {
    const operator: Operator
    const clock: nat -> string
    const owner: Owner

    constructor (operator: Operator, clock: nat -> string, owner: Owner)
      ensures this.operator == operator && this.clock == clock && this.owner == owner
    {
      this.operator, this.clock, this.owner := operator, clock, owner;
    }

    function TheSetup(): Setup {
      Setup(operator.faults, clock, owner)
    }

    method WithEnvironment(cm: Asset, env: seq<EnvVar>) returns (r: Asset)
      requires cm.content.body.ConfigMap?
      ensures r == EnvAsset(cm, env)
    {
      var data := cm.content.body.data;
      if |env| > 0 {
        for i := 0 to |env|
          invariant data == Overlay(cm.content.body.data, env[..i])
        {
          assert env[..i + 1][..i] == env[..i];
          data := data[env[i].name := env[i].value];
        }
        assert env[..|env|] == env;
      }
      return cm.(content := cm.content.(body := ConfigMap(data)));
    }

    /** One apply of the pass. */
    method ApplyNext(assets: seq<Asset>, i: nat, ghost w0: World) returns (ok: bool)
      requires i < |assets| && Fits(assets[i].key.kind, assets[i].content.body)
      requires WellTyped(operator.objects)
      requires Run(operator.State(), true) == ApplyAll(TheSetup(), assets[..i], w0)
      modifies operator
      ensures WellTyped(operator.objects)
      ensures Run(operator.State(), ok) == ApplyAll(TheSetup(), assets[..i + 1], w0)
    {
      ApplyAllNext(TheSetup(), assets, w0, i);
      ghost var w := operator.State();
      ApplyKeepsRest(operator.faults, clock(w.calls), owner, assets[i], w);
      var r := operator.ApplyAsset(owner, clock(operator.calls), Decoded(assets[i]));
      return r.Success?;
    }

    /** Assets in order, up to the first failure. */
    method ApplyInOrder(assets: seq<Asset>) returns (done: bool)
      requires WellTyped(operator.objects)
      requires forall a :: a in assets ==> Fits(a.key.kind, a.content.body)
      modifies operator
      ensures Run(operator.State(), done) == ApplyAll(TheSetup(), assets, old(operator.State()))
      ensures WellTyped(operator.objects)
    {
      ghost var w0 := operator.State();
      for i := 0 to |assets|
        invariant WellTyped(operator.objects)
        invariant Run(operator.State(), true) == ApplyAll(TheSetup(), assets[..i], w0)
      {
        assert assets[i] in assets;
        var ok := ApplyNext(assets, i, w0);
        if !ok {
          StopsThere(TheSetup(), assets, w0, i + 1);
          return false;
        }
      }
      assert assets[..|assets|] == assets;
      return true;
    }

    /** The apply part of Reconcile: `plain` are the eight assets before the driver's config
        map, `workloads` the two daemon sets and the stateful set after it. */
    method ApplyAssets(plain: seq<Asset>, cm: Asset, env: seq<EnvVar>, workloads: seq<Asset>) returns (done: bool)
      requires WellTyped(operator.objects) && cm.content.body.ConfigMap? && cm.key.kind.ConfigMapKind?
      requires forall a :: a in plain + workloads ==> Fits(a.key.kind, a.content.body)
      modifies operator
      ensures Run(operator.State(), done)
              == Pass(TheSetup(), plain + [EnvAsset(cm, env)] + workloads, old(operator.State()))
      ensures WellTyped(operator.objects)
    {
      operator.driverUpdateNeeded := false;
      var config := WithEnvironment(cm, env);
      var assets := plain + [config] + workloads;
      forall a | a in assets ensures Fits(a.key.kind, a.content.body) {
        assert a in plain + workloads || a == config;
      }
      done := ApplyInOrder(assets);
    }
  }

  // ---------------------------------------------------------------- frames over a list

  ghost predicate Names(assets: seq<Asset>, key: Key) {
    exists a :: a in assets && a.key == key
  }

  ghost predicate DistinctKeys(assets: seq<Asset>) {
    forall i, j :: 0 <= i < j < |assets| ==> assets[i].key != assets[j].key
  }

  /** A list of applies leaves objects it does not name alone. */
  lemma {:induction false} ApplyAllFrame(s: Setup, assets: seq<Asset>, w: World, key: Key)
    requires !Names(assets, key)
    ensures var w' := ApplyAll(s, assets, w).world;
            (key in w.objects <==> key in w'.objects) && (key in w.objects ==> w'.objects[key] == w.objects[key])
  {
    if assets == [] {
    } else {
      var front, last := assets[..|assets| - 1], assets[|assets| - 1];
      assert last in assets;
      assert forall a :: a in front ==> a in assets;
      ApplyAllFrame(s, front, w, key);
      var r := ApplyAll(s, front, w);
      ApplyFrame(s.faults, s.clock(r.world.calls), s.owner, last, r.world);
    }
  }

  lemma {:induction false} ApplyAllGrows(s: Setup, assets: seq<Asset>, w: World)
    ensures w.writes <= ApplyAll(s, assets, w).world.writes && w.calls <= ApplyAll(s, assets, w).world.calls
  {
    if assets == [] {
    } else {
      var front, last := assets[..|assets| - 1], assets[|assets| - 1];
      ApplyAllGrows(s, front, w);
      var r := ApplyAll(s, front, w);
      ApplyFrame(s.faults, s.clock(r.world.calls), s.owner, last, r.world);
    }
  }

  lemma WroteThrough(key: Key, a: seq<Write>, b: seq<Write>, c: seq<Write>)
    requires a <= b <= c
    ensures Wrote(key, a, c) <==> Wrote(key, a, b) || Wrote(key, b, c)
  {
    assert forall i :: 0 <= i < |b| ==> b[i] == c[i];
  }

  lemma {:induction false} ApplyAllTyped(s: Setup, assets: seq<Asset>, w: World)
    requires WellTyped(w.objects) && forall a :: a in assets ==> GoodAsset(a)
    ensures WellTyped(ApplyAll(s, assets, w).world.objects)
  {
    if assets == [] {
    } else {
      var front, last := assets[..|assets| - 1], assets[|assets| - 1];
      assert last in assets;
      ApplyAllTyped(s, front, w);
      var r := ApplyAll(s, front, w);
      ApplyKeepsRest(s.faults, s.clock(r.world.calls), s.owner, last, r.world);
    }
  }

  /** Only a config map touches the flag. */
  lemma {:induction false} FlagKept(s: Setup, assets: seq<Asset>, w: World)
    requires forall a :: a in assets ==> !a.key.kind.ConfigMapKind?
    ensures ApplyAll(s, assets, w).world.updateNeeded == w.updateNeeded
  {
    if assets == [] {
    } else {
      assert assets[|assets| - 1] in assets;
      FlagKept(s, assets[..|assets| - 1], w);
    }
  }

  // ---------------------------------------------------------------- restart

  ghost predicate PassShape(plain: seq<Asset>, config: Asset, workloads: seq<Asset>) {
    && DistinctKeys(plain + [config] + workloads)
    && (forall a :: a in plain + [config] + workloads ==> GoodAsset(a))
    && (forall a :: a in plain ==> !a.key.kind.ConfigMapKind? && !a.key.kind.IsWorkload())
    && config.key.kind.ConfigMapKind?
    && (forall a :: a in workloads ==> a.key.kind.IsWorkload())
  }

  /** The state just before the workloads are applied. */
  function BeforeWorkloads(s: Setup, plain: seq<Asset>, config: Asset, w: World): Run {
    Pass(s, plain + [config], w)
  }

  ghost predicate ConfigDiffers(s: Setup, config: Asset, w: World) {
    config.key !in w.objects || !Settled(config, s.owner, w.objects[config.key])
  }

  /** It is missing, or its data or owner are. */
  lemma ConfigDiffersExactly(s: Setup, config: Asset, w: World)
    requires config.key.kind.ConfigMapKind? && GoodAsset(config) && WellTyped(w.objects)
    ensures ConfigDiffers(s, config, w) <==>
            (config.key in w.objects && w.objects[config.key].body == config.content.body ==>
               !exists r :: r in w.objects[config.key].owners && r.kind == s.owner.kind && r.name == s.owner.name)
  {
    if config.key in w.objects {
      SettledExactly(config, s.owner, w.objects[config.key]);
    }
  }

  lemma KeyApart(plain: seq<Asset>, config: Asset, workloads: seq<Asset>)
    requires PassShape(plain, config, workloads)
    ensures !Names(plain, config.key) && DistinctKeys(workloads)
    ensures forall x :: x in workloads ==> !Names(plain + [config], x.key)
    ensures GoodAsset(config) && forall x :: x in plain || x in workloads ==> GoodAsset(x)
  {
    var all := plain + [config] + workloads;
    forall i | 0 <= i < |plain| ensures plain[i].key != config.key && plain[i] in all {
      assert all[i] == plain[i] && all[|plain|] == config;
    }
    forall i | 0 <= i < |workloads| ensures !Names(plain + [config], workloads[i].key) && workloads[i] in all {
      assert all[|plain| + 1 + i] == workloads[i];
      forall j | 0 <= j < |plain + [config]| ensures (plain + [config])[j].key != workloads[i].key {
        assert all[j] == (plain + [config])[j];
      }
    }
    forall i, j | 0 <= i < j < |workloads| ensures workloads[i].key != workloads[j].key {
      assert all[|plain| + 1 + i] == workloads[i] && all[|plain| + 1 + j] == workloads[j];
    }
    assert all[|plain|] == config;
  }

  /** After the config map step the flag says whether the config map had to be written. */
  lemma FlagAfterConfig(s: Setup, plain: seq<Asset>, config: Asset, workloads: seq<Asset>, w: World)
    requires PassShape(plain, config, workloads) && WellTyped(w.objects)
    requires BeforeWorkloads(s, plain, config, w).done
    ensures BeforeWorkloads(s, plain, config, w).world.updateNeeded == ConfigDiffers(s, config, w)
    ensures WellTyped(BeforeWorkloads(s, plain, config, w).world.objects)
    ensures forall x :: x in workloads ==>
              var w' := BeforeWorkloads(s, plain, config, w).world;
              && (x.key in w.objects <==> x.key in w'.objects)
              && (x.key in w.objects ==> w'.objects[x.key] == w.objects[x.key])
  {
    var w0 := w.(updateNeeded := false);
    KeyApart(plain, config, workloads);
    assert (plain + [config])[..|plain|] == plain;
    FlagKept(s, plain, w0);
    ApplyAllFrame(s, plain, w0, config.key);
    ApplyAllTyped(s, plain + [config], w0);
    forall x | x in workloads
      ensures var w' := BeforeWorkloads(s, plain, config, w).world;
              && (x.key in w.objects <==> x.key in w'.objects)
              && (x.key in w.objects ==> w'.objects[x.key] == w.objects[x.key])
    {
      ApplyAllFrame(s, plain + [config], w0, x.key);
    }
  }

  /** The object is as it was, and no write of it was made. */
  ghost predicate Untouched(key: Key, w: World, w': World) {
    && key in w.objects && key in w'.objects && w'.objects[key] == w.objects[key]
    && !Wrote(key, w.writes, w'.writes)
  }

  /** The object was rewritten with the clock reading of one of the calls as its update time. */
  ghost predicate Restarted(s: Setup, x: Asset, w: World, w': World) {
    && x.key in w.objects && x.key in w'.objects && Wrote(x.key, w.writes, w'.writes)
    && exists call :: w.calls <= call < w'.calls
                      && Rewritten(x, s.owner, s.clock(call), w.objects[x.key], w'.objects[x.key])
  }

  /** The stored template does not yet have the clock reading of any of the calls. */
  ghost predicate NewTimes(s: Setup, o: Object, from: nat, until: nat) {
    o.body.Workload? ==> forall call :: from <= call < until ==> !HasTime(o.body.spec, s.clock(call))
  }

  /** One workload apply that succeeds on an existing object. */
  lemma OneWorkload(s: Setup, x: Asset, w: World)
    requires x.key.kind.IsWorkload() && GoodAsset(x) && x.key in w.objects
    requires WellTyped(w.objects) && ApplyOne(s, x, w).result.Success?
    ensures w.writes <= ApplyOne(s, x, w).world.writes
    ensures w.updateNeeded ==> Restarted(s, x, w, ApplyOne(s, x, w).world)
    ensures !w.updateNeeded && Settled(x, s.owner, w.objects[x.key]) ==> ApplyOne(s, x, w).world.(calls := w.calls) == w
  {
    var w' := ApplyOne(s, x, w).world;
    if w.updateNeeded {
      FlagRewrites(s.faults, s.clock(w.calls), s.owner, x, w);
      assert w'.writes[|w.writes|] == Updated(x.key);
    }
  }

  lemma {:induction false} OthersUntouched(s: Setup, assets: seq<Asset>, w: World, key: Key)
    requires key in w.objects && !Names(assets, key)
    ensures Untouched(key, w, ApplyAll(s, assets, w).world)
  {
    if assets == [] {
    } else {
      var front, last := assets[..|assets| - 1], assets[|assets| - 1];
      assert last in assets;
      assert forall a :: a in front ==> a in assets;
      OthersUntouched(s, front, w, key);
      ApplyAllFrame(s, assets, w, key);
      ApplyAllGrows(s, front, w);
      var r := ApplyAll(s, front, w).world;
      ApplyWritesOwn(s.faults, s.clock(r.calls), s.owner, last, r, key);
      WroteThrough(key, w.writes, r.writes, ApplyOne(s, last, r).world.writes);
    }
  }

  lemma {:induction false} EachWorkload(s: Setup, workloads: seq<Asset>, w: World, x: Asset)
    requires DistinctKeys(workloads) && x in workloads && x.key in w.objects
    requires forall a :: a in workloads ==> a.key.kind.IsWorkload() && GoodAsset(a)
    requires WellTyped(w.objects) && ApplyAll(s, workloads, w).done
    ensures w.updateNeeded ==> Restarted(s, x, w, ApplyAll(s, workloads, w).world)
    ensures !w.updateNeeded && Settled(x, s.owner, w.objects[x.key]) ==>
            Untouched(x.key, w, ApplyAll(s, workloads, w).world)
  {
    var front, last := workloads[..|workloads| - 1], workloads[|workloads| - 1];
    var r := ApplyAll(s, front, w).world;
    assert last in workloads;
    ApplyAllGrows(s, front, w);
    if x == last {
      FlagKept(s, front, w);
      ApplyAllTyped(s, front, w);
      OthersUntouched(s, front, w, x.key);
      OneWorkload(s, x, r);
    } else {
      EachWorkload(s, front, w, x);
      ApplyFrame(s.faults, s.clock(r.calls), s.owner, last, r);
      ApplyWritesOwn(s.faults, s.clock(r.calls), s.owner, last, r, x.key);
    }
    WroteThrough(x.key, w.writes, r.writes, ApplyOne(s, last, r).world.writes);
  }

  /** In a pass that finishes: if the config map had to be created or changed, every workload
      that existed is rewritten with an update-time label; if it did not, a workload whose
      version and owner are in order is not written. The pod template that results differs from
      the stored one if that has none of the pass's clock readings yet. */
  lemma RestartOnConfigChange(s: Setup, plain: seq<Asset>, config: Asset, workloads: seq<Asset>, w: World, x: Asset)
    requires PassShape(plain, config, workloads) && WellTyped(w.objects)
    requires Pass(s, plain + [config] + workloads, w).done
    requires x in workloads && x.key in w.objects
    ensures ConfigDiffers(s, config, w) ==>
              var w' := Pass(s, plain + [config] + workloads, w).world;
              && Restarted(s, x, w, w')
              && (NewTimes(s, w.objects[x.key], w.calls, w'.calls) ==> w'.objects[x.key].body != w.objects[x.key].body)
    ensures !ConfigDiffers(s, config, w) && Settled(x, s.owner, w.objects[x.key]) ==>
              Untouched(x.key, w, Pass(s, plain + [config] + workloads, w).world)
  {
    var w0, before := w.(updateNeeded := false), BeforeWorkloads(s, plain, config, w).world;
    ApplyAllAppend(s, plain + [config], workloads, w0);
    KeyApart(plain, config, workloads);
    FlagAfterConfig(s, plain, config, workloads, w);
    EachWorkload(s, workloads, before, x);
    OthersUntouched(s, plain + [config], w0, x.key);
    ApplyAllGrows(s, plain + [config], w0);
    ApplyAllGrows(s, workloads, before);
    WroteThrough(x.key, w.writes, before.writes, ApplyAll(s, workloads, before).world.writes);
  }

  lemma PassGrows(s: Setup, assets: seq<Asset>, w: World)
    ensures w.writes <= Pass(s, assets, w).world.writes
  {
    ApplyAllGrows(s, assets, w.(updateNeeded := false));
  }

  lemma PrefixShape(plain: seq<Asset>, config: Asset, workloads: seq<Asset>, i: nat)
    requires PassShape(plain, config, workloads) && i <= |workloads|
    ensures i < |workloads| ==> !Names(plain + [config] + workloads[..i], workloads[i].key)
    ensures PassShape(plain, config, workloads[..i])
  {
    var all, part := plain + [config] + workloads, plain + [config] + workloads[..i];
    assert i < |workloads| ==> all[|plain| + 1 + i] == workloads[i];
    forall j | 0 <= j < |part| ensures all[j] == part[j] && (i < |workloads| ==> part[j].key != workloads[i].key) { }
    assert forall a :: a in part ==> a in all;
  }

  /** A pass that gets past a workload has rewritten it. */
  lemma ReachedWorkload(s: Setup, plain: seq<Asset>, config: Asset, workloads: seq<Asset>, i: nat, w: World)
    requires PassShape(plain, config, workloads) && WellTyped(w.objects)
    requires i < |workloads| && workloads[i].key in w.objects
    requires ConfigDiffers(s, config, w) && Pass(s, plain + [config] + workloads[..i + 1], w).done
    ensures Wrote(workloads[i].key, w.writes, Pass(s, plain + [config] + workloads, w).world.writes)
  {
    var part, rest := plain + [config] + workloads[..i + 1], workloads[i + 1..];
    PrefixShape(plain, config, workloads, i + 1);
    assert workloads[..i + 1][i] == workloads[i];
    RestartOnConfigChange(s, plain, config, workloads[..i + 1], w, workloads[i]);
    assert part + rest == plain + [config] + workloads;
    var r := Pass(s, part, w).world;
    ApplyAllAppend(s, part, rest, w.(updateNeeded := false));
    PassGrows(s, part, w);
    ApplyAllGrows(s, rest, r);
    WroteThrough(workloads[i].key, w.writes, r.writes, ApplyAll(s, rest, r).world.writes);
  }

  /** The config map is in order and the object of `key` as it was. */
  ghost predicate LeftBehind(config: Asset, owner: Owner, key: Key, w: World, w1: World) {
    && config.key in w1.objects && Settled(config, owner, w1.objects[config.key])
    && WellTyped(w1.objects) && Untouched(key, w, w1)
  }

  lemma LeftBehindToo(config: Asset, owner: Owner, key: Key, w: World, w1: World, w2: World)
    requires LeftBehind(config, owner, key, w, w1) && w2.objects == w1.objects && w2.writes == w1.writes
    ensures LeftBehind(config, owner, key, w, w2)
  {
  }

  lemma SamePass(s: Setup, plain: seq<Asset>, config: Asset, workloads: seq<Asset>, i: nat, w: World)
    requires i < |workloads| && !Pass(s, plain + [config] + workloads[..i + 1], w).done
    ensures Pass(s, plain + [config] + workloads, w) == Pass(s, plain + [config] + workloads[..i + 1], w)
  {
    assert (plain + [config] + workloads)[..|plain| + 2 + i] == plain + [config] + workloads[..i + 1];
    StopsThere(s, plain + [config] + workloads, w.(updateNeeded := false), |plain| + 2 + i);
  }

  /** Stopping at the last asset leaves objects and writes as they were before it. */
  lemma FailedStep(s: Setup, front: seq<Asset>, x: Asset, w: World)
    requires !ApplyAll(s, front + [x], w).done
    ensures ApplyAll(s, front + [x], w).world.objects == ApplyAll(s, front, w).world.objects
    ensures ApplyAll(s, front + [x], w).world.writes == ApplyAll(s, front, w).world.writes
  {
    assert (front + [x])[..|front|] == front;
    var r := ApplyAll(s, front, w).world;
    ApplyFrame(s.faults, s.clock(r.calls), s.owner, x, r);
  }

  lemma ConfigUpToDate(s: Setup, plain: seq<Asset>, config: Asset, workloads: seq<Asset>, w: World)
    requires PassShape(plain, config, workloads) && WellTyped(w.objects)
    requires BeforeWorkloads(s, plain, config, w).done
    ensures var w1 := Pass(s, plain + [config] + workloads, w).world;
            config.key in w1.objects && Settled(config, s.owner, w1.objects[config.key])
  {
    var w0 := w.(updateNeeded := false);
    KeyApart(plain, config, workloads);
    assert (plain + [config])[..|plain|] == plain;
    ApplyAllTyped(s, plain, w0);
    var r := ApplyAll(s, plain, w0);
    ApplySettles(s.faults, s.clock(r.world.calls), s.owner, config, r.world);
    ApplyAllAppend(s, plain + [config], workloads, w0);
    assert !Names(workloads, config.key);
    ApplyAllFrame(s, workloads, BeforeWorkloads(s, plain, config, w).world, config.key);
  }

  lemma PartialPass(s: Setup, plain: seq<Asset>, config: Asset, workloads: seq<Asset>, i: nat, w: World)
    requires PassShape(plain, config, workloads) && WellTyped(w.objects)
    requires i < |workloads| && workloads[i].key in w.objects
    requires BeforeWorkloads(s, plain, config, w).done
    ensures LeftBehind(config, s.owner, workloads[i].key, w, Pass(s, plain + [config] + workloads[..i], w).world)
  {
    PrefixShape(plain, config, workloads, i);
    OthersUntouched(s, plain + [config] + workloads[..i], w.(updateNeeded := false), workloads[i].key);
    ApplyAllTyped(s, plain + [config] + workloads[..i], w.(updateNeeded := false));
    ConfigUpToDate(s, plain, config, workloads[..i], w);
  }

  /** A pass that does not get past a workload leaves it alone, with the config map in order. */
  lemma StoppedPass(s: Setup, plain: seq<Asset>, config: Asset, workloads: seq<Asset>, i: nat, w: World)
    requires PassShape(plain, config, workloads) && WellTyped(w.objects)
    requires i < |workloads| && workloads[i].key in w.objects
    requires BeforeWorkloads(s, plain, config, w).done
    requires !Pass(s, plain + [config] + workloads[..i + 1], w).done
    ensures LeftBehind(config, s.owner, workloads[i].key, w, Pass(s, plain + [config] + workloads, w).world)
  {
    var part, next := plain + [config] + workloads[..i], plain + [config] + workloads[..i + 1];
    PartialPass(s, plain, config, workloads, i, w);
    SamePass(s, plain, config, workloads, i, w);
    assert next == part + [workloads[i]];
    FailedStep(s, part, workloads[i], w.(updateNeeded := false));
    LeftBehindToo(config, s.owner, workloads[i].key, w, Pass(s, part, w).world, Pass(s, next, w).world);
  }

  /** Two passes rewrite an otherwise settled workload exactly if the first one gets past it. */
  lemma RestartByProgress(s: Setup, s': Setup, plain: seq<Asset>, config: Asset, workloads: seq<Asset>, i: nat,
                          w: World, w1: World, w2: World)
    requires PassShape(plain, config, workloads) && WellTyped(w.objects) && s'.owner == s.owner
    requires i < |workloads| && workloads[i].key in w.objects
    requires Settled(workloads[i], s.owner, w.objects[workloads[i].key])
    requires ConfigDiffers(s, config, w) && BeforeWorkloads(s, plain, config, w).done
    requires w1 == Pass(s, plain + [config] + workloads, w).world
    requires Pass(s', plain + [config] + workloads, w1) == Run(w2, true)
    ensures Wrote(workloads[i].key, w.writes, w2.writes) <==> Pass(s, plain + [config] + workloads[..i + 1], w).done
    ensures !Wrote(workloads[i].key, w.writes, w2.writes) ==> Untouched(workloads[i].key, w, w2)
  {
    var x := workloads[i];
    PassGrows(s', plain + [config] + workloads, w1);
    if Pass(s, plain + [config] + workloads[..i + 1], w).done {
      ReachedWorkload(s, plain, config, workloads, i, w);
    } else {
      StoppedPass(s, plain, config, workloads, i, w);
      RestartOnConfigChange(s', plain, config, workloads, w1, x);
    }
    PassGrows(s, plain + [config] + workloads, w);
    WroteThrough(x.key, w.writes, w1.writes, w2.writes);
  }

  /** While the flag is up: the two calls a workload's apply makes from number `call` on succeed, and
      if its object exists, the update time can be set. */
  ghost predicate GoesThrough(s: Setup, x: Asset, call: nat, objects: map<Key, Object>) {
    && !s.faults(call) && !s.faults(call + 1)
    && (x.key in objects ==> TakesTime(x.content.body, objects[x.key].body))
  }

  /** Each of them at its two calls, one after the other. */
  ghost predicate AllGoThrough(s: Setup, workloads: seq<Asset>, call: nat, objects: map<Key, Object>) {
    workloads == []
    || (AllGoThrough(s, workloads[..|workloads| - 1], call, objects)
        && GoesThrough(s, workloads[|workloads| - 1], call + 2 * (|workloads| - 1), objects))
  }

  lemma OneGoesThrough(s: Setup, x: Asset, w: World)
    requires x.key.kind.IsWorkload() && GoodAsset(x) && WellTyped(w.objects) && w.updateNeeded
    ensures var a := ApplyOne(s, x, w);
            && (a.result.Success? <==> GoesThrough(s, x, w.calls, w.objects))
            && (a.result.Success? ==> a.world.calls == w.calls + 2)
  {
    ApplySucceedsExactly(s.faults, s.clock(w.calls), s.owner, x, w);
  }

  lemma {:induction false} SameGuard(s: Setup, workloads: seq<Asset>, call: nat, a: map<Key, Object>,
                                     b: map<Key, Object>)
    requires forall x :: x in workloads ==>
               (x.key in a <==> x.key in b) && (x.key in a ==> a[x.key] == b[x.key])
    ensures AllGoThrough(s, workloads, call, a) <==> AllGoThrough(s, workloads, call, b)
  {
    if workloads == [] {
    } else {
      assert workloads[|workloads| - 1] in workloads;
      SameGuard(s, workloads[..|workloads| - 1], call, a, b);
    }
  }

  lemma LastGoesThrough(s: Setup, front: seq<Asset>, last: Asset, w: World)
    requires DistinctKeys(front + [last]) && WellTyped(w.objects) && w.updateNeeded
    requires forall a :: a in front + [last] ==> a.key.kind.IsWorkload() && GoodAsset(a)
    ensures var r := ApplyAll(s, front, w).world;
            var a := ApplyOne(s, last, r);
            && (a.result.Success? <==> GoesThrough(s, last, r.calls, w.objects))
            && (a.result.Success? ==> a.world.calls == r.calls + 2)
  {
    assert last in front + [last];
    forall a | a in front ensures a in front + [last] && a.key != last.key {
      var i :| 0 <= i < |front| && front[i] == a;
      assert (front + [last])[i] == a && (front + [last])[|front|] == last;
    }
    FlagKept(s, front, w);
    ApplyAllTyped(s, front, w);
    ApplyAllFrame(s, front, w, last.key);
    OneGoesThrough(s, last, ApplyAll(s, front, w).world);
  }

  lemma GuardNext(s: Setup, front: seq<Asset>, last: Asset, call: nat, objects: map<Key, Object>, done: bool,
                  calls: nat, ok: bool)
    requires done <==> AllGoThrough(s, front, call, objects)
    requires done ==> calls == call + 2 * |front|
    requires ok <==> GoesThrough(s, last, calls, objects)
    ensures done && ok <==> AllGoThrough(s, front + [last], call, objects)
  {
    assert (front + [last])[..|front|] == front;
  }

  /** While the flag is up, workloads are all applied exactly if none of their calls is refused and
      the update time can be set in every one that exists. */
  lemma {:induction false} WorkloadsDoneExactly(s: Setup, workloads: seq<Asset>, w: World)
    requires DistinctKeys(workloads) && WellTyped(w.objects) && w.updateNeeded
    requires forall a :: a in workloads ==> a.key.kind.IsWorkload() && GoodAsset(a)
    ensures ApplyAll(s, workloads, w).done <==> AllGoThrough(s, workloads, w.calls, w.objects)
    ensures ApplyAll(s, workloads, w).done ==> ApplyAll(s, workloads, w).world.calls == w.calls + 2 * |workloads|
  {
    if workloads == [] {
    } else {
      var front, last := workloads[..|workloads| - 1], workloads[|workloads| - 1];
      assert workloads == front + [last];
      WorkloadsDoneExactly(s, front, w);
      LastGoesThrough(s, front, last, w);
      var r := ApplyAll(s, front, w);
      var a := ApplyOne(s, last, r.world);
      GuardNext(s, front, last, w.calls, w.objects, r.done, r.world.calls, a.result.Success?);
      ApplyAllNext(s, workloads, w, |front|);
      assert workloads[..|front| + 1] == workloads;
    }
  }

  lemma ProgressExactly(s: Setup, plain: seq<Asset>, config: Asset, workloads: seq<Asset>, i: nat, w: World)
    requires PassShape(plain, config, workloads) && WellTyped(w.objects) && i < |workloads|
    requires ConfigDiffers(s, config, w) && BeforeWorkloads(s, plain, config, w).done
    ensures Pass(s, plain + [config] + workloads[..i + 1], w).done <==>
            AllGoThrough(s, workloads[..i + 1], BeforeWorkloads(s, plain, config, w).world.calls, w.objects)
  {
    var part, before := workloads[..i + 1], BeforeWorkloads(s, plain, config, w).world;
    PrefixShape(plain, config, workloads, i + 1);
    KeyApart(plain, config, part);
    FlagAfterConfig(s, plain, config, part, w);
    ApplyAllAppend(s, plain + [config], part, w.(updateNeeded := false));
    WorkloadsDoneExactly(s, part, before);
    SameGuard(s, part, before.calls, w.objects, before.objects);
  }

  /** The restart can be lost. A pass updates the config map but may fail later; the next pass
      resets the flag and finds the config map in order. A workload that is otherwise in order
      is rewritten by the two passes together exactly if, in the first one, none of the two calls
      of each workload up to it is refused, and the update time can be set in those that exist; if
      not, it still runs with the old configuration after the second, which succeeds. */
  lemma RestartExactly(s: Setup, s': Setup, plain: seq<Asset>, config: Asset, workloads: seq<Asset>, i: nat,
                       w: World, w1: World, w2: World)
    requires PassShape(plain, config, workloads) && WellTyped(w.objects) && s'.owner == s.owner
    requires i < |workloads| && workloads[i].key in w.objects
    requires Settled(workloads[i], s.owner, w.objects[workloads[i].key])
    requires ConfigDiffers(s, config, w) && BeforeWorkloads(s, plain, config, w).done
    requires w1 == Pass(s, plain + [config] + workloads, w).world
    requires Pass(s', plain + [config] + workloads, w1) == Run(w2, true)
    ensures Wrote(workloads[i].key, w.writes, w2.writes) <==>
            AllGoThrough(s, workloads[..i + 1], BeforeWorkloads(s, plain, config, w).world.calls, w.objects)
    ensures !Wrote(workloads[i].key, w.writes, w2.writes) ==> Untouched(workloads[i].key, w, w2)
  {
    RestartByProgress(s, s', plain, config, workloads, i, w, w1, w2);
    ProgressExactly(s, plain, config, workloads, i, w);
  }

  lemma TwoAssets(s: Setup, a: Asset, b: Asset, w: World)
    requires ApplyOne(s, a, w).result.Success?
    ensures ApplyAll(s, [a], w) == Run(ApplyOne(s, a, w).world, true)
    ensures var r := ApplyOne(s, b, ApplyOne(s, a, w).world);
            ApplyAll(s, [a, b], w) == Run(r.world, r.result.Success?)
  {
    assert [a][..0] == [] && [a, b][..1] == [a];
    assert ApplyAll(s, [], w) == Run(w, true);
  }

  lemma RefusedAtOnce(s: Setup, x: Asset, w: World)
    requires s.faults(w.calls)
    ensures ApplyOne(s, x, w) == Applied(w.(calls := w.calls + 1), Failure(ApiError))
  {
  }

  lemma ConfigWritten(s: Setup, config: Asset, w: World)
    requires config.key.kind.ConfigMapKind? && config.key in w.objects
    requires config.content.body.ConfigMap? && w.objects[config.key].body.ConfigMap?
    requires w.objects[config.key].body != config.content.body
    requires !s.faults(w.calls) && !s.faults(w.calls + 1)
    ensures var a := ApplyOne(s, config, w);
            && a.result.Success? && a.world.calls == w.calls + 2
            && SameOutside(w.objects, a.world.objects, config.key)
            && config.key in a.world.objects && a.world.objects[config.key].body == config.content.body
  {
  }

  lemma WitnessShape(config: Asset, x: Asset)
    requires config.key.kind.ConfigMapKind? && x.key.kind.IsWorkload() && GoodAsset(config) && GoodAsset(x)
    ensures PassShape([], config, [x]) && [] + [config] + [x] == [config, x]
  {
  }

  /** A pass without failing calls over a config map and a workload that are in order. */
  lemma IdlePass(s: Setup, config: Asset, x: Asset, w: World)
    requires config.key.kind.ConfigMapKind? && x.key.kind.IsWorkload()
    requires config.key in w.objects && Settled(config, s.owner, w.objects[config.key])
    requires x.key in w.objects && Settled(x, s.owner, w.objects[x.key])
    requires forall i :: !s.faults(i)
    ensures var r := Pass(s, [config, x], w);
            r.done && r.world.objects == w.objects && r.world.writes == w.writes
  {
    var w0 := w.(updateNeeded := false);
    SettledIsNotWritten(s.faults, s.clock(w0.calls), s.owner, config, w0);
    var w1 := ApplyOne(s, config, w0).world;
    SettledIsNotWritten(s.faults, s.clock(w1.calls), s.owner, x, w1);
    TwoAssets(s, config, x, w0);
  }

  /** Such a run exists, whatever the other data: one workload that is in order, a config map
      that is not, a pass whose third call fails and a pass in which none does. The second pass
      succeeds; the config map holds the new data and the workload was never written. */
  lemma RestartLostWitness(s: Setup, s': Setup, config: Asset, x: Asset, w: World)
    requires config.key.kind.ConfigMapKind? && x.key.kind.IsWorkload() && GoodAsset(config) && GoodAsset(x)
    requires config.key in w.objects && x.key in w.objects && WellTyped(w.objects)
    requires w.objects[config.key].body != config.content.body && Settled(x, s.owner, w.objects[x.key])
    requires !s.faults(w.calls) && !s.faults(w.calls + 1) && s.faults(w.calls + 2)
    requires s'.owner == s.owner && forall i :: !s'.faults(i)
    ensures PassShape([], config, [x]) && ConfigDiffers(s, config, w)
    ensures BeforeWorkloads(s, [], config, w).done && !Pass(s, [config, x], w).done
    ensures var r := Pass(s', [config, x], Pass(s, [config, x], w).world);
            && r.done
            && config.key in r.world.objects && r.world.objects[config.key].body == config.content.body
            && Untouched(x.key, w, r.world)
  {
    var w0 := w.(updateNeeded := false);
    WitnessShape(config, x);
    ConfigWritten(s, config, w0);
    TwoAssets(s, config, x, w0);
    assert [] + [config] == [config] && [x][..1] == [x];
    RefusedAtOnce(s, x, ApplyOne(s, config, w0).world);
    StoppedPass(s, [], config, [x], 0, w);
    var w1 := Pass(s, [config, x], w).world;
    IdlePass(s', config, x, w1);
    var w2 := Pass(s', [config, x], w1).world;
    WroteThrough(x.key, w.writes, w1.writes, w2.writes);
  }

  // ---------------------------------------------------------------- fixed point of a pass

  /** Every asset of the list is there, with nothing missing. */
  ghost predicate AllSettled(assets: seq<Asset>, owner: Owner, objects: map<Key, Object>) {
    forall a :: a in assets ==> a.key in objects && Settled(a, owner, objects[a.key])
  }

  lemma SettledNext(front: seq<Asset>, last: Asset, owner: Owner, before: map<Key, Object>, after: map<Key, Object>)
    requires DistinctKeys(front + [last]) && AllSettled(front, owner, before) && SameOutside(before, after, last.key)
    requires last.key in after && Settled(last, owner, after[last.key])
    ensures AllSettled(front + [last], owner, after)
  {
    forall a | a in front ensures a.key != last.key {
      var i :| 0 <= i < |front| && front[i] == a;
      assert (front + [last])[i] == a && (front + [last])[|front|] == last;
    }
  }

  lemma {:induction false} FinishedPassSettles(s: Setup, assets: seq<Asset>, w: World)
    requires DistinctKeys(assets) && WellTyped(w.objects) && forall a :: a in assets ==> GoodAsset(a)
    requires ApplyAll(s, assets, w).done
    ensures AllSettled(assets, s.owner, ApplyAll(s, assets, w).world.objects)
  {
    if assets == [] {
    } else {
      var front, last := assets[..|assets| - 1], assets[|assets| - 1];
      var r := ApplyAll(s, front, w).world;
      assert last in assets;
      FinishedPassSettles(s, front, w);
      ApplyAllTyped(s, front, w);
      ApplySettles(s.faults, s.clock(r.calls), s.owner, last, r);
      ApplyFrame(s.faults, s.clock(r.calls), s.owner, last, r);
      SettledNext(front, last, s.owner, r.objects, ApplyOne(s, last, r).world.objects);
      assert assets == front + [last];
    }
  }

  lemma {:induction false} SettledPassIsIdle(s: Setup, assets: seq<Asset>, w: World)
    requires AllSettled(assets, s.owner, w.objects) && !w.updateNeeded
    ensures var w' := ApplyAll(s, assets, w).world;
            w'.objects == w.objects && w'.writes == w.writes && !w'.updateNeeded
  {
    if assets == [] {
    } else {
      var front, last := assets[..|assets| - 1], assets[|assets| - 1];
      var r := ApplyAll(s, front, w).world;
      assert last in assets;
      SettledPassIsIdle(s, front, w);
      SettledIsNotWritten(s.faults, s.clock(r.calls), s.owner, last, r);
    }
  }

  /** After a pass that finishes, the next one over the same assets writes nothing at all and
      changes no object, whatever of its reads fail and whatever the clock says. */
  lemma PassFixedPoint(s: Setup, s': Setup, assets: seq<Asset>, w: World)
    requires DistinctKeys(assets) && WellTyped(w.objects) && forall a :: a in assets ==> GoodAsset(a)
    requires Pass(s, assets, w).done && s'.owner == s.owner
    ensures var w1 := Pass(s, assets, w).world;
            var w2 := Pass(s', assets, w1).world;
            w2.objects == w1.objects && w2.writes == w1.writes
  {
    FinishedPassSettles(s, assets, w.(updateNeeded := false));
    SettledPassIsIdle(s', assets, Pass(s, assets, w).world.(updateNeeded := false));
  }
}
