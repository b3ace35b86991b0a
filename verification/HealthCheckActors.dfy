/** The code of the two sides of the health check: the node driver's update call with its
    bounded retry (client.go) and the operator's pass over a check (its controller). */
module HealthCheckActors {
  import opened Common
  import opened HealthCheckProtocol
  import opened HealthCheckCalls
  import opened HealthCheckCompletion
  import Conditions

  const KEEP_TIME := 1440 * MINUTE
  const POLLING_BACK_OFF := 60 * MINUTE

  // ---------------------------------------------------------------- the operator's pass

  function RequeueAfter(c: Check, created: int, now: int): int {
    if VerdictOn(c) != InProgress then KEEP_TIME
    else if now - created > POLLING_BACK_OFF then 60 * MINUTE
    else 5 * MINUTE
  }

  /** A day once enough answers are there; before, five minutes, or one hour for a check older than that. */
  lemma RequeueExactly(c: Check, created: int, now: int)
    ensures RequeueAfter(c, created, now) == 86_400_000_000_000 <==> |c.affected| <= |c.answers|
    ensures RequeueAfter(c, created, now) == 300_000_000_000 <==>
            |c.answers| < |c.affected| && now - created <= 3_600_000_000_000
    ensures RequeueAfter(c, created, now) == 3_600_000_000_000 <==>
            |c.answers| < |c.affected| && now - created > 3_600_000_000_000
  {
  }

  /** The condition list holds, for its type, what the answers amount to. */
  ghost predicate Shows(conditions: seq<Conditions.Condition>, c: Check) {
    var i := Conditions.IndexOf(conditions, "HealthCheck");
    i.Some? && States(conditions[i.value], c)
  }

  lemma SetShows(c: Check, now: int, message: string)
    ensures Shows(Conditions.Set(c.conditions, ConditionFor(VerdictOn(c), message), now), c)
  {
    JudgedSays(c, now, message);
  }

  /** The message is that of some answer in error when there is one. */
  ghost predicate Quotes(c: Check, message: string) {
    VerdictOn(c) == Failed ==>
      exists n :: n in c.answers && c.answers[n].response == ACTION_ERROR && message == c.answers[n].message
  }

  class CheckObject {
    const affected: seq<string>
    const created: int
    const answers: map<string, Entry>
    const conditions: Conditions.ConditionList

    constructor (affected: seq<string>, created: int, answers: map<string, Entry>, conditions: Conditions.ConditionList)
      ensures this.affected == affected && this.created == created
      ensures this.answers == answers && this.conditions == conditions
    {
      this.affected, this.created, this.answers, this.conditions := affected, created, answers, conditions;
    }

    function Snapshot(): Check
      reads conditions
    {
      Check(affected, answers, conditions.list)
    }

    /** The list changes as the protocol's verdict on the answers says, whatever the order in
        which they are visited. */
    method UpdateHealthCheckCondition(now: int) returns (requeue: int, message: string)
      modifies conditions
      ensures Quotes(old(Snapshot()), message) && Shows(conditions.list, old(Snapshot()))
      ensures conditions.list
              == Conditions.Set(old(conditions.list), ConditionFor(VerdictOn(old(Snapshot())), message), now)
      ensures requeue == RequeueAfter(old(Snapshot()), created, now)
    {
      ghost var c := Snapshot();
      requeue, message := 5 * MINUTE, "";
      if |affected| > |answers| {
        var waitTime := now - created;
        if waitTime > POLLING_BACK_OFF {
          requeue := 60 * MINUTE;
        }
        var _ := conditions.SetCondition(ConditionFor(InProgress, ""), now);
      } else {
        var verdict := Complete;
        var rest := answers.Keys;
        while rest != {}
          invariant rest <= answers.Keys && verdict == Complete
          invariant forall n :: n in answers.Keys - rest ==> answers[n].response != ACTION_ERROR
          decreases |rest|
        {
          var n :| n in rest;
          if answers[n].response == ACTION_ERROR {
            verdict := Failed;
            message := answers[n].message;
            break;
          }
          rest := rest - {n};
        }
        var _ := conditions.SetCondition(ConditionFor(verdict, message), now);
        requeue := KEEP_TIME;
      }
      SetShows(c, now, message);
    }
  }

  datatype Result = Result(requeue: int, failed: bool)

  datatype Got = Found(check: CheckObject) | Missing | Unreadable

  /** One pass over a check. One that is gone needs nothing more. A refused status update is
      neither reported nor requeued: the pass returns as if there were nothing more to do. */
  method Reconcile(got: Got, now: int, deletes: bool, updates: bool)
    returns (r: Result, deleted: bool, stored: bool, message: string)
    modifies if got.Found? then {got.check.conditions} else {}
    ensures !got.Found? ==> r == Result(0, got.Unreadable?) && !deleted && !stored
    ensures got.Found? && now - got.check.created > KEEP_TIME ==>
              && r == Result(0, !deletes) && deleted == deletes && !stored
              && got.check.conditions.list == old(got.check.conditions.list)
    ensures got.Found? && now - got.check.created <= KEEP_TIME ==>
              var c := old(got.check.Snapshot());
              && Quotes(c, message) && Shows(got.check.conditions.list, c) && !deleted && stored == updates
              && got.check.conditions.list
                 == Conditions.Set(old(got.check.conditions.list), ConditionFor(VerdictOn(c), message), now)
              && r == Result(if updates then RequeueAfter(c, got.check.created, now) else 0, false)
  {
    match got
    case Missing =>
      return Result(0, false), false, false, "";
    case Unreadable =>
      return Result(0, true), false, false, "";
    case Found(hc) =>
      var elapsed := now - hc.created;
      if elapsed > KEEP_TIME {
        return Result(0, !deletes), deletes, false, "";
      }
      var requeue, text := hc.UpdateHealthCheckCondition(now);
      if !updates {
        return Result(0, false), false, false, text;
      }
      return Result(requeue, false), false, true, text;
  }

  // ---------------------------------------------------------------- the driver's update call

  /** Steps of other actors than node n. */
  ghost predicate ByOthers(steps: seq<Step>, n: string) {
    forall i :: 0 <= i < |steps| ==>
      match steps[i]
      case Begin(m, _) => m != n
      case Fetch(m, _) => m != n
      case Put(m, _) => m != n
      case _ => true
  }

  lemma {:induction false} OthersLeaveCaller(s: State, steps: seq<Step>, n: string)
    requires s.history != [] && n in s.callers && ByOthers(steps, n)
    ensures n in Run(s, steps).callers && Run(s, steps).callers[n] == s.callers[n]
  {
    if steps == [] {
    } else {
      OthersLeaveCaller(s, steps[..|steps| - 1], n);
    }
  }

  lemma {:induction false} OthersKeepFate(from: nat, s: State, steps: seq<Step>, n: string, conflicts: nat)
    requires s.history != [] && Fate(from, s, n, false, conflicts) && ByOthers(steps, n)
    ensures Fate(from, Run(s, steps), n, false, conflicts)
  {
    if steps == [] {
    } else {
      var front, last := steps[..|steps| - 1], steps[|steps| - 1];
      OthersKeepFate(from, s, front, n, conflicts);
      NextKeepsFate(from, Run(s, front), last, n, false, conflicts);
    }
  }

  /** Node n's calls of a kind in a schedule. */
  predicate IsCallOf(step: Step, n: string, kind: ApiCall) {
    if kind.Get? then step.Fetch? && step.node == n else step.Put? && step.node == n
  }

  function CallsOf(steps: seq<Step>, n: string, kind: ApiCall): nat {
    if steps == [] then 0
    else CallsOf(steps[..|steps| - 1], n, kind) + if IsCallOf(steps[|steps| - 1], n, kind) then 1 else 0
  }

  lemma {:induction false} CallsAppend(a: seq<Step>, b: seq<Step>, n: string, kind: ApiCall)
    ensures CallsOf(a + b, n, kind) == CallsOf(a, n, kind) + CallsOf(b, n, kind)
  {
    if b == [] {
      assert a + b == a;
    } else {
      assert (a + b)[..|a + b| - 1] == a + b[..|b| - 1];
      CallsAppend(a, b[..|b| - 1], n, kind);
    }
  }

  lemma {:induction false} OthersCallNothing(steps: seq<Step>, n: string, kind: ApiCall)
    requires ByOthers(steps, n)
    ensures CallsOf(steps, n, kind) == 0
  {
    if steps == [] {
    } else {
      OthersCallNothing(steps[..|steps| - 1], n, kind);
    }
  }

  lemma CallsOfTurn(steps: seq<Step>, others: seq<Step>, step: Step, n: string, kind: ApiCall)
    requires ByOthers(others, n)
    ensures CallsOf(steps + others + [step], n, kind) == CallsOf(steps, n, kind)
                                                             + if IsCallOf(step, n, kind) then 1 else 0
  {
    CallsAppend(steps, others, n, kind);
    OthersCallNothing(others, n, kind);
    var all := steps + others + [step];
    assert all[..|all| - 1] == steps + others;
  }

  lemma OthersBeginNothing(steps: seq<Step>, n: string)
    requires ByOthers(steps, n)
    ensures NoBegin(steps, n)
  {
  }

  lemma Finish(start: State, steps: seq<Step>, s: State, n: string, a: Answer)
    requires start.history != [] && Inv(start) && s == Run(start, steps) && CallOk(|start.writes|, s, n, a)
    ensures Inv(s)
    ensures s.callers[n].Landed? <==> exists v :: |start.writes| < v && HoldsAnswer(s, v, n, a)
    ensures s.callers[n].Landed? <==> WroteSince(s, |start.writes|, n)
  {
    RunKeepsInv(start, steps);
    CallOkMeans(|start.writes|, s, n, a);
  }

  /** The first k calls of a kind are accepted, but for the version. */
  predicate AllOk(accepted: nat -> bool, k: nat) {
    k == 0 || (AllOk(accepted, k - 1) && accepted(k - 1))
  }

  lemma OneMore(accepted: nat -> bool, k: nat)
    requires AllOk(accepted, k)
    ensures AllOk(accepted, k + 1) <==> accepted(k)
  {
  }

  predicate Reason(landed: bool, deleted: bool, gotten: nat, written: nat, contended: bool, gets: nat -> bool,
                   updates: nat -> bool) {
    if landed then AllOk(gets, gotten) && AllOk(updates, written)
    else deleted || !AllOk(gets, gotten) || !AllOk(updates, written) || (written == ATTEMPTS && contended)
  }

  /** Why a call landed or did not: a landed one had no call refused; for one that did not, the
      object was deleted, one of its calls was refused, or all five updates met a conflict, each
      with a version that the others had stored meanwhile. */
  ghost predicate Explained(landed: bool, from: nat, s: State, steps: seq<Step>, n: string, gets: nat -> bool,
                            updates: nat -> bool) {
    Reason(landed, s.deleted, CallsOf(steps, n, Get), CallsOf(steps, n, Update), |s.writes| >= from + ATTEMPTS,
           gets, updates)
  }

  lemma ReasonAfter(k: nat, landed: bool, deleted: bool, written: nat, contended: bool, gets: nat -> bool,
                    updates: nat -> bool)
    requires AllOk(gets, k) && AllOk(updates, k) && written <= k + 1
    requires landed ==> gets(k) && updates(k) && written == k + 1
    requires !landed ==>
               deleted || !gets(k) || (written == k + 1 && (!updates(k) || (k + 1 == ATTEMPTS && contended)))
    ensures Reason(landed, deleted, k + 1, written, contended, gets, updates)
  {
    OneMore(gets, k);
    OneMore(updates, k);
  }

  /** A call after k attempts, all of which met a conflict. */
  ghost predicate Going(start: State, s: State, steps: seq<Step>, n: string, a: Answer, k: nat) {
    && start.history != [] && s.history != [] && s == Run(start, steps) && k < ATTEMPTS
    && n in s.callers && s.callers[n].Ready? && s.callers[n].answer == a
    && CallOk(|start.writes|, s, n, a) && Fate(|start.writes|, s, n, false, k)
    && CallsOf(steps, n, Get) == CallsOf(steps, n, Update) == k
  }

  /** A call that attempt k has ended, and why. */
  ghost predicate Over(start: State, s: State, steps: seq<Step>, n: string, a: Answer, k: nat, getOk: bool,
                       updateOk: bool) {
    && start.history != [] && s.history != [] && s == Run(start, steps) && k < ATTEMPTS
    && n in s.callers && (s.callers[n].Landed? || s.callers[n].GaveUp?) && CallOk(|start.writes|, s, n, a)
    && CallsOf(steps, n, Get) == k + 1 && CallsOf(steps, n, Update) <= k + 1
    && (s.callers[n].Landed? ==> getOk && updateOk && CallsOf(steps, n, Update) == k + 1)
    && (s.callers[n].GaveUp? ==>
          || s.deleted || !getOk
          || (CallsOf(steps, n, Update) == k + 1
              && (!updateOk || (k + 1 == ATTEMPTS && |s.writes| >= |start.writes| + ATTEMPTS))))
  }

  lemma CallBegins(start: State, n: string, a: Answer)
    requires start.history != [] && Inv(start) && !Busy(start.callers, n)
    ensures Going(start, Next(start, Begin(n, a)), [Begin(n, a)], n, a, 0)
  {
    RunOne(start, Begin(n, a));
    assert [Begin(n, a)][..0] == [];
    assert CallsOf([], n, Get) == 0 && CallsOf([], n, Update) == 0;
    assert CallsOf([Begin(n, a)], n, Get) == 0 && CallsOf([Begin(n, a)], n, Update) == 0;
  }

  lemma LastAttempt(start: State, s: State, steps: seq<Step>, n: string, a: Answer, gets: nat -> bool,
                    updates: nat -> bool, attempt: nat)
    requires AllOk(gets, attempt) && AllOk(updates, attempt)
    requires Over(start, s, steps, n, a, attempt, gets(attempt), updates(attempt))
    ensures s.history != [] && s == Run(start, steps) && CallOk(|start.writes|, s, n, a)
    ensures n in s.callers && (s.callers[n].Landed? || s.callers[n].GaveUp?)
    ensures CallsOf(steps, n, Get) <= ATTEMPTS && CallsOf(steps, n, Update) <= ATTEMPTS
    ensures Explained(s.callers[n].Landed?, |start.writes|, s, steps, n, gets, updates)
  {
    ReasonAfter(attempt, s.callers[n].Landed?, s.deleted, CallsOf(steps, n, Update),
                |s.writes| >= |start.writes| + ATTEMPTS, gets, updates);
  }

  /** The world a driver's call runs in: between any two of its API calls the other actors
      take the steps of the next entry of their schedule, which may be anything. */
  class World {
    var state: State
    var tick: nat
    const schedule: nat -> seq<Step>

    constructor (affected: seq<string>, schedule: nat -> seq<Step>)
      ensures state == Created(affected) && this.schedule == schedule && Inv(state)
    {
      state, tick, this.schedule := Created(affected), 0, schedule;
      new;
      CreatedOk(affected);
    }

    method Interfere() returns (ghost steps: seq<Step>)
      requires state.history != []
      modifies this
      ensures state == Run(old(state), steps) && state.history != []
      ensures steps == schedule(old(tick)) && tick == old(tick) + 1
    {
      steps := schedule(tick);
      var todo := schedule(tick);
      ghost var start := state;
      for i := 0 to |todo|
        invariant todo == steps && state.history != [] && state == Run(start, steps[..i])
        invariant tick == old(tick)
      {
        assert steps[..i + 1][..i] == steps[..i];
        state := Next(state, todo[i]);
      }
      assert steps[..|todo|] == steps;
      tick := tick + 1;
    }

    /** The others' turn, then one step of node n. It ends the call if it is refused, and a conflict
        ends it if it is the last one allowed; otherwise the call goes on or has landed. */
    method Turn(n: string, ghost answer: Answer, step: Step, ghost start: State, ghost steps: seq<Step>,
                ghost conflicts: nat)
      returns (ghost steps': seq<Step>, ghost conflicts': nat)
      requires start.history != [] && state.history != [] && state == Run(start, steps)
      requires (step.Fetch? && step.node == n && n in state.callers && state.callers[n].Ready?)
            || (step.Put? && step.node == n && n in state.callers && state.callers[n].Holding?)
      requires forall k :: ByOthers(schedule(k), n)
      requires CallOk(|start.writes|, state, n, answer) && Fate(|start.writes|, state, n, false, conflicts)
      modifies this
      ensures state.history != [] && state == Run(start, steps') && n in state.callers
      ensures CallOk(|start.writes|, state, n, answer)
      ensures CallsOf(steps', n, Get) == CallsOf(steps, n, Get) + if step.Fetch? then 1 else 0
      ensures CallsOf(steps', n, Update) == CallsOf(steps, n, Update) + if step.Put? then 1 else 0
      ensures Fate(|start.writes|, state, n, state.deleted || !step.ok, conflicts')
      ensures conflicts' == conflicts
                            + if step.Put? && !state.deleted && step.ok && !state.callers[n].Landed? then 1 else 0
      ensures var was, now := old(state.callers[n]), state.callers[n];
              if state.deleted || !step.ok then now == GaveUp
              else if step.Fetch? then now.Holding? && now.answer == was.answer && now.left == was.left
              else now == Landed || now == if was.left == 0 then GaveUp else Ready(was.answer, was.left - 1)
    {
      ghost var others := Interfere();
      OthersLeaveCaller(old(state), others, n);
      OthersBeginNothing(others, n);
      RunKeepsCall(|start.writes|, old(state), others, n, answer);
      OthersKeepFate(|start.writes|, old(state), others, n, conflicts);
      NextKeepsCall(|start.writes|, state, step, n, answer);
      NextKeepsFate(|start.writes|, state, step, n, false, conflicts);
      conflicts' := conflicts + if Conflict(state, step, n) then 1 else 0;
      RunAppend(start, steps, others);
      steps' := steps + others + [step];
      RunSnoc(start, steps + others, step);
      CallsOfTurn(steps, others, step, n, Get);
      CallsOfTurn(steps, others, step, n, Update);
      state := Next(state, step);
    }

    /** One attempt of the call: it ends the call, or is to be repeated after a conflict. */
    method Attempt(n: string, ghost answer: Answer, getOk: bool, updateOk: bool, ghost start: State,
                   ghost steps: seq<Step>, ghost k: nat)
      returns (ghost steps': seq<Step>)
      requires Going(start, state, steps, n, answer, k)
      requires forall i :: ByOthers(schedule(i), n)
      modifies this
      ensures n in state.callers
      ensures state.callers[n].Ready? ==> Going(start, state, steps', n, answer, k + 1) && getOk && updateOk
      ensures !state.callers[n].Ready? ==> Over(start, state, steps', n, answer, k, getOk, updateOk)
    {
      ghost var conflicts;
      steps', conflicts := Turn(n, answer, Fetch(n, getOk), start, steps, k);
      if state.callers[n].GaveUp? {
        return;
      }
      steps', conflicts := Turn(n, answer, Put(n, updateOk), start, steps', conflicts);
    }

    /** The attempts of a call that has begun, one after the other. */
    method Repeat(n: string, answer: Answer, gets: nat -> bool, updates: nat -> bool, ghost start: State,
                  ghost begun: seq<Step>)
      returns (landed: bool, ghost steps: seq<Step>)
      requires Going(start, state, begun, n, answer, 0)
      requires forall k :: ByOthers(schedule(k), n)
      modifies this
      ensures state.history != [] && state == Run(start, steps) && CallOk(|start.writes|, state, n, answer)
      ensures n in state.callers && (if landed then state.callers[n].Landed? else state.callers[n].GaveUp?)
      ensures CallsOf(steps, n, Get) <= ATTEMPTS && CallsOf(steps, n, Update) <= ATTEMPTS
      ensures Explained(landed, |start.writes|, state, steps, n, gets, updates)
    {
      steps := begun;
      var attempt := 0;
      while true
        invariant 0 <= attempt < ATTEMPTS && Going(start, state, steps, n, answer, attempt)
        invariant AllOk(gets, attempt) && AllOk(updates, attempt)
        decreases ATTEMPTS - attempt
      {
        steps := Attempt(n, answer, gets(attempt), updates(attempt), start, steps, attempt);
        if !state.callers[n].Ready? {
          LastAttempt(start, state, steps, n, answer, gets, updates, attempt);
          return state.callers[n].Landed?, steps;
        }
        OneMore(gets, attempt);
        OneMore(updates, attempt);
        attempt := attempt + 1;
      }
    }

    /** Get, set the node's entry, update; again on a conflict, five times at most. The call
        returns whether it landed: then none of its calls was refused, some version stored
        meanwhile holds the answer, and it is the only one the node has written. Otherwise the
        node has written nothing, and the object was deleted, a call was refused, or all five
        updates met a conflict, each with a version the others had stored. */
    method UpdateHealthCheckStatus(n: string, answer: Answer, gets: nat -> bool, updates: nat -> bool)
      returns (landed: bool, ghost steps: seq<Step>)
      requires Inv(state) && state.history != [] && !Busy(state.callers, n)
      requires forall k :: ByOthers(schedule(k), n)
      modifies this
      ensures state.history != [] && state == Run(old(state), steps) && Inv(state)
      ensures n in state.callers && state.callers[n] == if landed then Landed else GaveUp
      ensures landed <==> exists v :: |old(state.writes)| < v && HoldsAnswer(state, v, n, answer)
      ensures landed <==> WroteSince(state, |old(state.writes)|, n)
      ensures CallOk(|old(state.writes)|, state, n, answer)
      ensures CallsOf(steps, n, Get) <= ATTEMPTS && CallsOf(steps, n, Update) <= ATTEMPTS
      ensures Explained(landed, |old(state.writes)|, state, steps, n, gets, updates)
    {
      ghost var start := state;
      CallBegins(start, n, answer);
      state := Next(state, Begin(n, answer));
      landed, steps := Repeat(n, answer, gets, updates, start, [Begin(n, answer)]);
      Finish(start, steps, state, n, answer);
    }
  }
}
