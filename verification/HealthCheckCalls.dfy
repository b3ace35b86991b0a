/**
 One update call of one node in a run of the protocol: how many API calls it makes, what its
 outcome means for the stored object, and when it gives up.
 */
module HealthCheckCalls {
  import opened Wrappers
  import opened Common
  import opened HealthCheckProtocol

  // ---------------------------------------------------------------- bounded attempts

  datatype ApiCall = Get | Update

  /** The calls of a kind that an update call can still make. */
  function Budget(callers: map<string, Caller>, n: string, kind: ApiCall): nat {
    if n !in callers then 0
    else match callers[n]
         case Ready(_, left) => left + 1
         case Holding(_, left, _, _) => if kind.Update? then left + 1 else left
         case _ => 0
  }

  /** The step is node n's own, of that kind, and one its call can take. */
  predicate IsCall(s: State, step: Step, n: string, kind: ApiCall) {
    match step
    case Fetch(m, _) => kind.Get? && m == n && n in s.callers && s.callers[n].Ready?
    case Put(m, _) => kind.Update? && m == n && n in s.callers && s.callers[n].Holding?
    case _ => false
  }

  function Calls(s: State, steps: seq<Step>, n: string, kind: ApiCall): nat
    requires s.history != []
  {
    if steps == [] then 0
    else
      var front, last := steps[..|steps| - 1], steps[|steps| - 1];
      Calls(s, front, n, kind) + if IsCall(Run(s, front), last, n, kind) then 1 else 0
  }

  ghost predicate NoBegin(steps: seq<Step>, n: string) {
    forall i :: 0 <= i < |steps| ==> !(steps[i].Begin? && steps[i].node == n)
  }

  lemma StepUsesBudget(s: State, step: Step, n: string, kind: ApiCall)
    requires s.history != [] && n in s.callers && !(step.Begin? && step.node == n)
    ensures n in Next(s, step).callers
    ensures (if IsCall(s, step, n, kind) then 1 else 0) + Budget(Next(s, step).callers, n, kind)
            <= Budget(s.callers, n, kind)
  {
  }

  lemma {:induction false} CallsUseBudget(s: State, steps: seq<Step>, n: string, kind: ApiCall)
    requires s.history != [] && n in s.callers && NoBegin(steps, n)
    ensures n in Run(s, steps).callers
    ensures Calls(s, steps, n, kind) + Budget(Run(s, steps).callers, n, kind) <= Budget(s.callers, n, kind)
  {
    if steps == [] {
    } else {
      var front := steps[..|steps| - 1];
      CallsUseBudget(s, front, n, kind);
      StepUsesBudget(Run(s, front), steps[|steps| - 1], n, kind);
    }
  }

  /** However the others interfere, an update call makes at most five reads and at most five
      updates, and after its fifth update it is over. */
  lemma UpdateCallIsBounded(s: State, steps: seq<Step>, n: string, a: Answer)
    requires s.history != [] && !Busy(s.callers, n) && NoBegin(steps, n)
    ensures var s0 := Next(s, Begin(n, a));
            && Calls(s0, steps, n, Get) <= ATTEMPTS && Calls(s0, steps, n, Update) <= ATTEMPTS
            && (Calls(s0, steps, n, Update) == ATTEMPTS ==> !Busy(Run(s0, steps).callers, n))
  {
    CallsUseBudget(Next(s, Begin(n, a)), steps, n, Get);
    CallsUseBudget(Next(s, Begin(n, a)), steps, n, Update);
  }

  // ---------------------------------------------------------------- outcome of an update call

  /** Version v was written by node n and holds its answer. */
  ghost predicate HoldsAnswer(s: State, v: int, n: string, a: Answer) {
    && 0 < v < |s.history| && v <= |s.writes| && s.writes[v - 1] == ByNode(n, a)
    && n in s.history[v].answers && s.history[v].answers[n] == EntryOf(a)
  }

  ghost predicate IsWriteOf(s: State, u: int, n: string) {
    0 <= u < |s.writes| && s.writes[u].ByNode? && s.writes[u].node == n
  }

  ghost predicate WroteSince(s: State, from: nat, n: string) {
    exists u :: from <= u && IsWriteOf(s, u, n)
  }

  /** A landed call has written its answer, and nothing else, since `from`; a call that is under
      way or was given up has written nothing. */
  ghost predicate CallOk(from: nat, s: State, n: string, a: Answer) {
    && from <= |s.writes| && |s.history| == |s.writes| + 1 && n in s.callers
    && match s.callers[n]
       case Ready(b, _) => b == a && !WroteSince(s, from, n)
       case Holding(b, _, _, _) => b == a && !WroteSince(s, from, n)
       case GaveUp => !WroteSince(s, from, n)
       case Landed =>
         exists v :: from < v && HoldsAnswer(s, v, n, a) && forall u :: from <= u && IsWriteOf(s, u, n) ==> u == v - 1
  }

  /** A step that is not node n's accepted write adds no write of n. */
  lemma OtherStepWrites(s: State, step: Step, n: string)
    requires s.history != [] && |s.history| == |s.writes| + 1
    requires step.Put? && step.node == n ==> Next(s, step).writes == s.writes
    ensures forall u :: IsWriteOf(Next(s, step), u, n) <==> IsWriteOf(s, u, n)
    ensures s.writes <= Next(s, step).writes && s.history <= Next(s, step).history
    ensures |Next(s, step).history| == |Next(s, step).writes| + 1
  {
  }

  lemma NextKeepsCall(from: nat, s: State, step: Step, n: string, a: Answer)
    requires s.history != [] && CallOk(from, s, n, a) && !(step.Begin? && step.node == n)
    ensures CallOk(from, Next(s, step), n, a)
  {
    var s' := Next(s, step);
    if step.Put? && step.node == n && s'.writes != s.writes {
      assert HoldsAnswer(s', |s.history|, n, a);
      assert forall u :: from <= u && IsWriteOf(s', u, n) && u < |s.writes| ==> IsWriteOf(s, u, n);
    } else {
      OtherStepWrites(s, step, n);
      if s.callers[n].Landed? {
        var v :| from < v && HoldsAnswer(s, v, n, a) && forall u :: from <= u && IsWriteOf(s, u, n) ==> u == v - 1;
        assert HoldsAnswer(s', v, n, a);
      }
    }
  }

  lemma {:induction false} RunKeepsCall(from: nat, s: State, steps: seq<Step>, n: string, a: Answer)
    requires s.history != [] && CallOk(from, s, n, a) && NoBegin(steps, n)
    ensures CallOk(from, Run(s, steps), n, a)
  {
    if steps == [] {
    } else {
      RunKeepsCall(from, s, steps[..|steps| - 1], n, a);
      NextKeepsCall(from, Run(s, steps[..|steps| - 1]), steps[|steps| - 1], n, a);
    }
  }

  lemma CallOkMeans(from: nat, s: State, n: string, a: Answer)
    requires CallOk(from, s, n, a)
    ensures s.callers[n].Landed? <==> exists v :: from < v && HoldsAnswer(s, v, n, a)
    ensures s.callers[n].Landed? <==> WroteSince(s, from, n)
  {
    forall v | from < v && HoldsAnswer(s, v, n, a) ensures WroteSince(s, from, n) {
      assert IsWriteOf(s, v - 1, n);
    }
    if s.callers[n].Landed? {
      var v :| from < v && HoldsAnswer(s, v, n, a);
      assert IsWriteOf(s, v - 1, n);
    }
  }

  /** In every interleaving: an update call has landed exactly if some version stored since it
      began holds its answer, and exactly if its node has written at all since then, and it
      writes no more than once. A call that gave up has changed nothing. */
  lemma UpdateCallOutcome(s: State, steps: seq<Step>, n: string, a: Answer)
    requires |s.history| == |s.writes| + 1 && !Busy(s.callers, n) && NoBegin(steps, n)
    ensures var s' := Run(Next(s, Begin(n, a)), steps);
            && n in s'.callers
            && (s'.callers[n].Landed? <==> exists v :: |s.writes| < v && HoldsAnswer(s', v, n, a))
            && (s'.callers[n].Landed? <==> WroteSince(s', |s.writes|, n))
            && (forall u, v ::
                  |s.writes| <= u && |s.writes| <= v && IsWriteOf(s', u, n) && IsWriteOf(s', v, n) ==> u == v)
  {
    RunKeepsCall(|s.writes|, Next(s, Begin(n, a)), steps, n, a);
    CallOkMeans(|s.writes|, Run(Next(s, Begin(n, a)), steps), n, a);
  }

  // ---------------------------------------------------------------- when a call gives up

  /** One of node n's own calls, which the API server refuses for another reason than the version. */
  predicate Refused(s: State, step: Step, n: string) {
    match step
    case Fetch(m, ok) => m == n && n in s.callers && s.callers[n].Ready? && (s.deleted || !ok)
    case Put(m, ok) => m == n && n in s.callers && s.callers[n].Holding? && (s.deleted || !ok)
    case _ => false
  }

  /** One of node n's updates, which comes too late: the version it read is no longer current. */
  predicate Conflict(s: State, step: Step, n: string)
    requires s.history != []
  {
    && step.Put? && step.node == n && n in s.callers && s.callers[n].Holding?
    && !s.deleted && step.ok && s.callers[n].version != Current(s)
  }

  predicate AnyRefused(s: State, steps: seq<Step>, n: string)
    requires s.history != []
  {
    steps != []
    && (AnyRefused(s, steps[..|steps| - 1], n) || Refused(Run(s, steps[..|steps| - 1]), steps[|steps| - 1], n))
  }

  function Conflicts(s: State, steps: seq<Step>, n: string): nat
    requires s.history != []
  {
    if steps == [] then 0
    else
      var front, last := steps[..|steps| - 1], steps[|steps| - 1];
      Conflicts(s, front, n) + if Conflict(Run(s, front), last, n) then 1 else 0
  }

  /** How far a call is, given whether it was refused and how many conflicts it met; every
      conflict has cost the others a version stored since `from`. */
  ghost predicate Fate(from: nat, s: State, n: string, refused: bool, conflicts: nat) {
    && |s.history| == |s.writes| + 1 && n in s.callers && from + conflicts <= |s.writes|
    && match s.callers[n]
       case Ready(_, left) => !refused && conflicts + left + 1 == ATTEMPTS
       case Holding(_, left, v, _) =>
         !refused && conflicts + left + 1 == ATTEMPTS && from + conflicts <= v <= |s.writes|
       case Landed => !refused && conflicts < ATTEMPTS
       case GaveUp => if refused then conflicts < ATTEMPTS else conflicts == ATTEMPTS
  }

  lemma NextKeepsFate(from: nat, s: State, step: Step, n: string, refused: bool, conflicts: nat)
    requires s.history != [] && Fate(from, s, n, refused, conflicts) && !(step.Begin? && step.node == n)
    ensures Fate(from, Next(s, step), n, refused || Refused(s, step, n),
                 conflicts + if Conflict(s, step, n) then 1 else 0)
  {
  }

  lemma {:induction false} RunKeepsFate(from: nat, s: State, steps: seq<Step>, n: string)
    requires s.history != [] && Fate(from, s, n, false, 0) && NoBegin(steps, n)
    ensures Fate(from, Run(s, steps), n, AnyRefused(s, steps, n), Conflicts(s, steps, n))
  {
    if steps == [] {
    } else {
      var front := steps[..|steps| - 1];
      RunKeepsFate(from, s, front, n);
      NextKeepsFate(from, Run(s, front), steps[|steps| - 1], n, AnyRefused(s, front, n), Conflicts(s, front, n));
    }
  }

  /** In every interleaving: a call gives up exactly if one of its own calls is refused or five of
      its updates meet a conflict. It therefore lands, once it is over, whenever nothing was
      refused and the others stored fewer than five versions since it began. */
  lemma UpdateCallGivesUpExactly(s: State, steps: seq<Step>, n: string, a: Answer)
    requires |s.history| == |s.writes| + 1 && !Busy(s.callers, n) && NoBegin(steps, n)
    ensures var s0 := Next(s, Begin(n, a));
            var s' := Run(s0, steps);
            && n in s'.callers
            && (s'.callers[n].GaveUp? <==> AnyRefused(s0, steps, n) || Conflicts(s0, steps, n) == ATTEMPTS)
            && |s.writes| + Conflicts(s0, steps, n) <= |s'.writes|
            && (!Busy(s'.callers, n) && !AnyRefused(s0, steps, n) && |s'.writes| < |s.writes| + ATTEMPTS ==>
                  s'.callers[n].Landed?)
  {
    RunKeepsFate(|s.writes|, Next(s, Begin(n, a)), steps, n);
  }

  // ---------------------------------------------------------------- an answer that is lost

  /** Node n reads, the operator rewrites the object, node n's update comes too late. */
  function LosingRound(n: string, version: nat, now: int): seq<Step> {
    [Fetch(n, true), OperatorFetch(version), OperatorPut(now, "", true), Put(n, true)]
  }

  function LosingRounds(n: string, rounds: nat, now: int): seq<Step> {
    if rounds == 0 then [] else LosingRounds(n, rounds - 1, now) + LosingRound(n, rounds - 1, now)
  }

  lemma ReadTwice(s: State, n: string, a: Answer, left: nat, s1: State, s2: State)
    requires s.history != [] && n in s.callers && s.callers[n] == Ready(a, left) && s.operator == None && !s.deleted
    requires s1 == s.(callers := s.callers[n := Holding(a, left, Current(s), s.history[Current(s)])])
    requires s2 == s1.(operator := Some(Copy(Current(s), s.history[Current(s)])))
    ensures Run(s, [Fetch(n, true), OperatorFetch(Current(s))]) == s2
  {
    RunOne(s, Fetch(n, true));
    assert Next(s, Fetch(n, true)) == s1;
    RunSnoc(s, [Fetch(n, true)], OperatorFetch(Current(s)));
    assert [Fetch(n, true)] + [OperatorFetch(Current(s))] == [Fetch(n, true), OperatorFetch(Current(s))];
  }

  function LostRound(s: State, n: string, a: Answer, left: nat, now: int): State
    requires s.history != []
  {
    var c := s.history[Current(s)];
    s.(history := s.history + [Judged(c, now, MessageFrom(c, ""))], writes := s.writes + [ByOperator],
       callers := s.callers[n := if left == 0 then GaveUp else Ready(a, left - 1)])
  }

  lemma OperatorWrites(s: State, v: nat, c: Check, now: int)
    requires s.history != [] && v == Current(s) && s.operator == Some(Copy(v, c)) && !s.deleted
    ensures Next(s, OperatorPut(now, "", true))
            == s.(history := s.history + [Judged(c, now, MessageFrom(c, ""))], writes := s.writes + [ByOperator],
                  operator := None)
  {
  }

  lemma PutTooLate(s: State, n: string, a: Answer, left: nat, v: nat, c: Check)
    requires s.history != [] && v != Current(s) && !s.deleted
    requires n in s.callers && s.callers[n] == Holding(a, left, v, c)
    ensures Next(s, Put(n, true)) == s.(callers := s.callers[n := if left == 0 then GaveUp else Ready(a, left - 1)])
  {
  }

  lemma RunRound(s: State, n: string, a: Answer, left: nat, now: int)
    requires s.history != [] && n in s.callers && s.callers[n] == Ready(a, left) && s.operator == None && !s.deleted
    ensures Run(s, LosingRound(n, Current(s), now)) == LostRound(s, n, a, left, now)
  {
    var v, c := Current(s), s.history[Current(s)];
    var s1 := s.(callers := s.callers[n := Holding(a, left, v, c)]);
    var s2 := s1.(operator := Some(Copy(v, c)));
    var s3 := s1.(history := s.history + [Judged(c, now, MessageFrom(c, ""))], writes := s.writes + [ByOperator]);
    ReadTwice(s, n, a, left, s1, s2);
    OperatorWrites(s2, v, c, now);
    RunSnoc(s, [Fetch(n, true), OperatorFetch(v)], OperatorPut(now, "", true));
    assert [Fetch(n, true), OperatorFetch(v)] + [OperatorPut(now, "", true)]
        == [Fetch(n, true), OperatorFetch(v), OperatorPut(now, "", true)];
    PutTooLate(s3, n, a, left, v, c);
    RunSnoc(s, [Fetch(n, true), OperatorFetch(v), OperatorPut(now, "", true)], Put(n, true));
    assert [Fetch(n, true), OperatorFetch(v), OperatorPut(now, "", true)] + [Put(n, true)] == LosingRound(n, v, now);
    assert s1.callers[n := if left == 0 then GaveUp else Ready(a, left - 1)]
        == s.callers[n := if left == 0 then GaveUp else Ready(a, left - 1)];
  }

  ghost predicate Unanswered(s: State) {
    forall v :: 0 <= v < |s.history| ==> s.history[v].answers == map[]
  }

  /** After so many lost rounds the check still has no answer. */
  ghost predicate LostSoFar(s: State, n: string, a: Answer, rounds: nat) {
    && rounds <= ATTEMPTS && |s.history| == |s.writes| + 1 == rounds + 1 && s.operator == None && !s.deleted
    && n in s.callers && s.callers[n] == (if rounds == ATTEMPTS then GaveUp else Ready(a, ATTEMPTS - 1 - rounds))
    && Unanswered(s)
  }

  lemma StillUnanswered(s: State, n: string, a: Answer, left: nat, now: int)
    requires s.history != [] && Unanswered(s)
    ensures Unanswered(LostRound(s, n, a, left, now))
  {
    assert s.history[Current(s)].answers == map[];
    assert Judged(s.history[Current(s)], now, MessageFrom(s.history[Current(s)], "")).answers == map[];
  }

  lemma OneMoreRound(s: State, n: string, a: Answer, rounds: nat, now: int)
    requires LostSoFar(s, n, a, rounds) && rounds < ATTEMPTS
    ensures LostSoFar(Run(s, LosingRound(n, rounds, now)), n, a, rounds + 1)
  {
    RunRound(s, n, a, ATTEMPTS - 1 - rounds, now);
    StillUnanswered(s, n, a, ATTEMPTS - 1 - rounds, now);
  }

  lemma {:induction false} RunRounds(affected: seq<string>, n: string, a: Answer, rounds: nat, now: int)
    requires rounds <= ATTEMPTS
    ensures LostSoFar(Run(Next(Created(affected), Begin(n, a)), LosingRounds(n, rounds, now)), n, a, rounds)
  {
    var s0 := Next(Created(affected), Begin(n, a));
    if rounds == 0 {
    } else {
      RunRounds(affected, n, a, rounds - 1, now);
      RunAppend(s0, LosingRounds(n, rounds - 1, now), LosingRound(n, rounds - 1, now));
      OneMoreRound(Run(s0, LosingRounds(n, rounds - 1, now)), n, a, rounds - 1, now);
    }
  }

  /** The calls of the steps all succeed and nobody deletes the object. */
  ghost predicate AllAccepted(steps: seq<Step>) {
    forall i :: 0 <= i < |steps| ==>
      match steps[i]
      case Fetch(_, ok) => ok
      case Put(_, ok) => ok
      case Delete => false
      case _ => true
  }

  lemma {:induction false} AcceptedNotRefused(s: State, steps: seq<Step>, n: string)
    requires s.history != [] && !s.deleted && AllAccepted(steps)
    ensures !AnyRefused(s, steps, n) && !Run(s, steps).deleted
  {
    if steps == [] {
    } else {
      AcceptedNotRefused(s, steps[..|steps| - 1], n);
      assert AllAccepted([steps[|steps| - 1]]);
    }
  }

  lemma {:induction false} RoundsAccepted(n: string, rounds: nat, now: int)
    ensures AllAccepted(LosingRounds(n, rounds, now)) && NoBegin(LosingRounds(n, rounds, now), n)
  {
    if rounds == 0 {
    } else {
      RoundsAccepted(n, rounds - 1, now);
    }
  }

  /** So an answer can be lost although the API server refuses nothing: a run in which the operator
      rewrites the object between the read and the update of all five attempts. The node
      does not try again, and no version ever holds its answer. */
  lemma AnswerLost(affected: seq<string>, n: string, a: Answer, now: int)
    ensures var s0, steps := Next(Created(affected), Begin(n, a)), LosingRounds(n, ATTEMPTS, now);
            var s := Run(s0, steps);
            && n in s.callers && s.callers[n].GaveUp?
            && !AnyRefused(s0, steps, n) && Conflicts(s0, steps, n) == ATTEMPTS
            && forall v :: 0 <= v < |s.history| ==> n !in s.history[v].answers
  {
    var s0, steps := Next(Created(affected), Begin(n, a)), LosingRounds(n, ATTEMPTS, now);
    RunRounds(affected, n, a, ATTEMPTS, now);
    RoundsAccepted(n, ATTEMPTS, now);
    AcceptedNotRefused(s0, steps, n);
    UpdateCallGivesUpExactly(Created(affected), steps, n, a);
  }
}
