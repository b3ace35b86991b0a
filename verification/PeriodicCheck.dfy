/**
 The timer of the driver controller: when a health check is created because of its age alone.
 Times are in nanoseconds.
 */
module PeriodicCheck {
  import opened Wrappers
  import opened Common

  /** A created check: the clock reading that led to it, and the one taken after its creation. */
  datatype Check = Check(nodes: seq<string>, periodic: bool, decided: int, at: int)

  function ResyncDuration(interval: int): int {
    if 0 < interval < 60 then interval * MINUTE else 60 * MINUTE
  }

  /** The interval, if it is one of up to an hour; an hour otherwise. */
  lemma DelayExactly(interval: int)
    ensures ResyncDuration(interval) == 60_000_000_000 * (if 1 <= interval <= 60 then interval else 60)
  {
  }

  predicate Due(interval: int, last: int, now: int) {
    interval >= 1 && now - last >= interval * MINUTE
  }

  /** One pass that reaches the timer: a repair it may have created first, its clock reading,
      and whether and when a periodic check can be created. */
  datatype Pass = Pass(repair: Option<Check>, check: int, createOk: bool, at: int)

  /** `last` is the global lastHealthCheckTime. */
  datatype Clock = Clock(last: int, made: seq<Check>)

  function AfterRepair(p: Pass, c: Clock): Clock {
    match p.repair
    case None => c
    case Some(k) => Clock(k.at, c.made + [k])
  }

  function Periodic(p: Pass): Check {
    Check([""], true, p.check, p.at)
  }

  function PassStep(interval: int, p: Pass, c: Clock): Clock {
    var r := AfterRepair(p, c);
    if Due(interval, r.last, p.check) && p.createOk then Clock(p.at, r.made + [Periodic(p)]) else r
  }

  function PassRun(interval: int, passes: seq<Pass>, c: Clock): Clock {
    if passes == [] then c
    else PassStep(interval, passes[|passes| - 1], PassRun(interval, passes[..|passes| - 1], c))
  }

  // ---------------------------------------------------------------- spacing

  ghost predicate InOrder(p: Pass) {
    && (p.repair.Some? ==> !p.repair.value.periodic && p.repair.value.decided <= p.repair.value.at <= p.check)
    && p.check <= p.at
  }

  /** The time of the check before the j-th one of the run. */
  function Previous(c: Clock, made: seq<Check>, j: int): int
    requires j <= |made|
  {
    if 0 < j then made[j - 1].at else c.last
  }

  ghost predicate NeverEarly(interval: int, c: Clock, made: seq<Check>) {
    forall j :: 0 <= j < |made| && made[j].periodic ==>
                  Previous(c, made, j) + interval * MINUTE <= made[j].decided <= made[j].at
  }

  ghost predicate NeverLate(interval: int, c: Clock, made: seq<Check>) {
    forall j :: 0 <= j < |made| ==>
                  made[j].decided - Previous(c, made, j) < interval * MINUTE + ResyncDuration(interval)
  }

  /** Whatever the spacing of the passes and whichever creations fail, a periodic check comes no
      sooner than the interval after the previous check of either kind, and none
      comes when the interval is below one minute. */
  lemma {:induction false} PeriodicNeverEarly(interval: int, passes: seq<Pass>, c: Clock)
    requires c.made == [] && forall p :: p in passes ==> InOrder(p)
    ensures var c' := PassRun(interval, passes, c);
            && NeverEarly(interval, c, c'.made)
            && c'.last == Previous(c, c'.made, |c'.made|)
            && (interval < 1 ==> forall k :: k in c'.made ==> !k.periodic)
  {
    if passes == [] {
    } else {
      assert InOrder(passes[|passes| - 1]);
      PeriodicNeverEarly(interval, passes[..|passes| - 1], c);
    }
  }

  /** The pass begins no sooner than `from`. */
  ghost predicate StartsAfter(from: int, p: Pass) {
    from <= if p.repair.Some? then p.repair.value.decided else p.check
  }

  ghost predicate Succeeds(interval: int, p: Pass, q: Pass) {
    q.check - p.check <= ResyncDuration(interval) && StartsAfter(p.at, q)
  }

  /** Passes follow each other in time, within the delay the controller asks for, the first one
      in time after the process start, and creations succeed. */
  ghost predicate Regular(interval: int, passes: seq<Pass>, c: Clock) {
    && (forall p :: p in passes ==> InOrder(p) && p.createOk)
    && (passes != [] ==> passes[0].check - c.last < interval * MINUTE + ResyncDuration(interval))
    && (passes != [] ==> StartsAfter(c.last, passes[0]))
    && (forall j :: 0 < j < |passes| ==> Succeeds(interval, passes[j - 1], passes[j]))
  }

  lemma RegularFront(interval: int, passes: seq<Pass>, c: Clock)
    requires Regular(interval, passes, c) && passes != []
    ensures Regular(interval, passes[..|passes| - 1], c)
    ensures InOrder(passes[|passes| - 1]) && passes[|passes| - 1].createOk
    ensures |passes| > 1 ==> Succeeds(interval, passes[|passes| - 2], passes[|passes| - 1])
  {
    var n := |passes| - 1;
    assert passes[n] in passes;
    forall j | 0 < j < n ensures Succeeds(interval, passes[..n][j - 1], passes[..n][j]) {
      assert passes[..n][j - 1] == passes[j - 1];
    }
  }

  lemma NeverLateNext(interval: int, c: Clock, p: Pass, before: Clock)
    requires interval >= 1 && InOrder(p) && p.createOk && StartsAfter(before.last, p)
    requires NeverLate(interval, c, before.made) && before.last == Previous(c, before.made, |before.made|)
    requires p.check - before.last < interval * MINUTE + ResyncDuration(interval)
    ensures NeverLate(interval, c, PassStep(interval, p, before).made)
    ensures p.check - PassStep(interval, p, before).last < interval * MINUTE
    ensures PassStep(interval, p, before).last <= p.at
  {
    var r := AfterRepair(p, before);
    assert forall j :: 0 <= j < |before.made| ==> r.made[j] == before.made[j];
    assert NeverLate(interval, c, r.made);
    var after := PassStep(interval, p, before);
    assert forall j :: 0 <= j < |r.made| ==> after.made[j] == r.made[j];
  }

  /** Then consecutive checks are less than the interval plus the delay apart, and after every
      pass the newest check is younger than the interval. */
  lemma {:induction false} GapBound(interval: int, passes: seq<Pass>, c: Clock)
    requires interval >= 1 && c.made == [] && Regular(interval, passes, c)
    ensures var c' := PassRun(interval, passes, c);
            && NeverLate(interval, c, c'.made)
            && (passes != [] ==> passes[|passes| - 1].check - c'.last < interval * MINUTE)
            && (passes != [] ==> c'.last <= passes[|passes| - 1].at)
  {
    if passes == [] {
    } else {
      var n := |passes| - 1;
      var front, p := passes[..n], passes[n];
      RegularFront(interval, passes, c);
      GapBound(interval, front, c);
      PeriodicNeverEarly(interval, front, c);
      var before := PassRun(interval, front, c);
      NeverLateNext(interval, c, p, before);
    }
  }

  /** No creation takes longer than `d`. */
  ghost predicate CreatesWithin(d: int, passes: seq<Pass>) {
    forall p :: p in passes ==>
      p.at - p.check <= d && (p.repair.Some? ==> p.repair.value.at - p.repair.value.decided <= d)
  }

  lemma {:induction false} MadeWithin(interval: int, passes: seq<Pass>, c: Clock, d: int)
    requires c.made == [] && CreatesWithin(d, passes)
    ensures forall k :: k in PassRun(interval, passes, c).made ==> k.at - k.decided <= d
  {
    if passes == [] {
    } else {
      assert passes[|passes| - 1] in passes;
      MadeWithin(interval, passes[..|passes| - 1], c, d);
    }
  }

  /** Measured from creation to creation, the gap also includes what the later creation takes. */
  lemma CreationGap(interval: int, passes: seq<Pass>, c: Clock, d: int, j: nat)
    requires interval >= 1 && c.made == [] && Regular(interval, passes, c) && CreatesWithin(d, passes)
    requires j < |PassRun(interval, passes, c).made|
    ensures var made := PassRun(interval, passes, c).made;
            made[j].at - Previous(c, made, j) < interval * MINUTE + ResyncDuration(interval) + d
  {
    GapBound(interval, passes, c);
    MadeWithin(interval, passes, c, d);
    assert PassRun(interval, passes, c).made[j] in PassRun(interval, passes, c).made;
  }

  /** An interval below an hour is its own delay, so checks are under twice the interval apart. */
  lemma GapUnderTwice(interval: int, passes: seq<Pass>, c: Clock, j: nat)
    requires 1 <= interval < 60 && c.made == [] && Regular(interval, passes, c)
    requires j < |PassRun(interval, passes, c).made|
    ensures var made := PassRun(interval, passes, c).made;
            made[j].decided - Previous(c, made, j) < 2 * interval * MINUTE
  {
    GapBound(interval, passes, c);
  }

  /** A pass creates two checks exactly if its own clock reading is at least the interval after
      the repair it created. */
  lemma TwoInOnePass(interval: int, p: Pass, c: Clock)
    ensures |PassStep(interval, p, c).made| == |c.made| + 2 <==>
            p.repair.Some? && interval >= 1 && p.createOk && p.check - p.repair.value.at >= interval * MINUTE
  {
  }
}
