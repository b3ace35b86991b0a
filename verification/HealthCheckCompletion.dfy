/**
 The operator's verdict on a check: when completion is declared, when it can be trusted, what is
 stored of it over runs, and what never reaches the operator.
 */
module HealthCheckCompletion {
  import opened Wrappers
  import opened Common
  import opened HealthCheckProtocol
  import Conditions

  // ---------------------------------------------------------------- completion

  ghost predicate NoDuplicates(names: seq<string>) {
    forall i, j :: 0 <= i < j < |names| ==> names[i] != names[j]
  }

  ghost function NamesOf(names: seq<string>): set<string> {
    set n | n in names
  }

  lemma {:induction false} CountOfNames(names: seq<string>)
    requires NoDuplicates(names)
    ensures |NamesOf(names)| == |names|
  {
    if names == [] {
    } else {
      var front, last := names[..|names| - 1], names[|names| - 1];
      CountOfNames(front);
      assert last !in front;
      assert NamesOf(names) == NamesOf(front) + {last};
    }
  }

  ghost function Missing(c: Check): set<string> {
    NamesOf(c.affected) - c.answers.Keys
  }

  ghost function Uninvited(c: Check): set<string> {
    c.answers.Keys - NamesOf(c.affected)
  }

  /** Which of two sets is larger is decided outside their intersection. */
  lemma CompareOutside(a: set<string>, b: set<string>)
    ensures |a| <= |b| <==> |a - b| <= |b - a|
  {
    var both := a * b;
    assert a == (a - b) + both && b == (b - a) + both;
    assert |a| == |a - b| + |both|;
    assert |b| == |b - a| + |both|;
  }

  /** Completion is decided by counting, so it is declared exactly when the answers from
      nodes that are not affected make up for the affected nodes that are missing. */
  lemma DeclaredByCount(c: Check)
    requires NoDuplicates(c.affected)
    ensures VerdictOn(c) != InProgress <==> |Missing(c)| <= |Uninvited(c)|
  {
    CountOfNames(c.affected);
    CompareOutside(NamesOf(c.affected), c.answers.Keys);
    assert |c.answers.Keys| == |c.answers|;
  }

  /** "Not in progress" means "all affected nodes have answered" exactly when nobody is
      missing or the uninvited answers are fewer than the missing ones. */
  lemma DeclaredCompleteIsSound(c: Check)
    requires NoDuplicates(c.affected)
    ensures (VerdictOn(c) != InProgress ==> Missing(c) == {}) <==> Missing(c) == {} || |Uninvited(c)| < |Missing(c)|
    ensures Missing(c) == {} ==> VerdictOn(c) != InProgress
  {
    DeclaredByCount(c);
  }

  /** Once every affected node has an accepted answer, every later version is judged complete
      or failed, and failed exactly when some recorded answer is an error. */
  lemma CompletionIsStable(affected: seq<string>, steps: seq<Step>, v: nat, v': nat)
    requires NoDuplicates(affected)
    requires v <= v' < |Run(Created(affected), steps).history|
    requires forall n :: n in affected ==> n in Run(Created(affected), steps).history[v].answers
    ensures var c := Run(Created(affected), steps).history[v'];
            && VerdictOn(c) != InProgress
            && (VerdictOn(c) == Failed <==> exists n :: n in c.answers && c.answers[n].response == ACTION_ERROR)
  {
    var s := Run(Created(affected), steps);
    CreatedOk(affected);
    RunKeepsInv(Created(affected), steps);
    assert Created(affected).history[0] == s.history[0];
    forall n | n in affected ensures n in s.history[v'].answers {
      NoLostAnswers(affected, steps, v, v', n);
    }
    DeclaredByCount(s.history[v']);
    assert Missing(s.history[v']) == {};
  }

  ghost predicate HasError(c: Check) {
    exists n :: n in c.answers && c.answers[n].response == "Error"
  }

  /** The condition says what the answers amount to. */
  ghost predicate States(cond: Conditions.Condition, c: Check) {
    && cond.kind == "HealthCheck"
    && if |c.answers| < |c.affected| then
         cond.reason == "RepairInProgress" && cond.status == "False" && cond.message == "Repair in progress"
       else if HasError(c) then
         cond.reason == "RepairFailed" && cond.status == "False"
       else
         cond.reason == "RepairComplete" && cond.status == "True" && cond.message == "Repair completed in all nodes"
  }

  /** Judging leaves a condition in its place that says what the answers amount to, before and after. */
  lemma JudgedSays(c: Check, now: int, message: string)
    ensures var c' := Judged(c, now, message);
            var i := Conditions.IndexOf(c'.conditions, "HealthCheck");
            && VerdictOn(c') == VerdictOn(c) && c'.affected == c.affected && c'.answers.Keys == c.answers.Keys
            && (HasError(c') <==> HasError(c))
            && i.Some? && States(c'.conditions[i.value], c) && States(c'.conditions[i.value], c')
  {
    var c' := Judged(c, now, message);
    assert c'.answers.Keys == c.answers.Keys;
    assert |c'.answers.Keys| == |c'.answers| && |c.answers.Keys| == |c.answers|;
    assert forall n :: n in c.answers ==> c'.answers[n].response == c.answers[n].response;
    var cond := ConditionFor(VerdictOn(c), message);
    Conditions.SetThenFound(c.conditions, cond, now);
  }

  /** The condition an operator pass stores says what the current answers amount to, whichever
      error it quotes. */
  lemma OperatorStoresVerdict(s: State, now: int, culprit: string)
    requires s.history != [] && Inv(s)
    requires s.operator.Some? && !s.deleted && s.operator.value.version == Current(s)
    ensures var c, c' := s.history[Current(s)], Next(s, OperatorPut(now, culprit, true)).history[|s.history|];
            var i := Conditions.IndexOf(c'.conditions, "HealthCheck");
            && c'.affected == c.affected && c'.answers.Keys == c.answers.Keys && (HasError(c') <==> HasError(c))
            && i.Some? && States(c'.conditions[i.value], c)
  {
    var c := s.history[Current(s)];
    JudgedSays(c, now, MessageFrom(c, culprit));
  }

  /** What a version stores of the verdict: the first one nothing, an operator's the verdict on
      its own answers, a node's what the version before it did. */
  ghost predicate StoredVerdict(history: seq<Check>, writes: seq<Write>, v: int)
    requires 0 <= v < |history| && |history| == |writes| + 1
  {
    var cs := history[v].conditions;
    && (cs == [] || (|cs| == 1 && cs[0].kind == "HealthCheck"))
    && (v == 0 ==> cs == [])
    && (v > 0 && writes[v - 1].ByOperator? ==> |cs| == 1 && States(cs[0], history[v]))
    && (v > 0 && writes[v - 1].ByNode? ==> cs == history[v - 1].conditions)
  }

  ghost predicate ConditionsOk(history: seq<Check>, writes: seq<Write>) {
    |history| == |writes| + 1 && forall v :: 0 <= v < |history| ==> StoredVerdict(history, writes, v)
  }

  lemma AppendKeepsConditions(history: seq<Check>, writes: seq<Write>, c: Check, w: Write)
    requires ConditionsOk(history, writes)
    requires StoredVerdict(history + [c], writes + [w], |history|)
    ensures ConditionsOk(history + [c], writes + [w])
  {
    forall v | 0 <= v < |history| ensures StoredVerdict(history + [c], writes + [w], v) {
      assert StoredVerdict(history, writes, v);
    }
  }

  /** On the checks of a run, that condition is the only one. */
  lemma JudgedStates(c: Check, now: int, message: string)
    requires c.conditions == [] || (|c.conditions| == 1 && c.conditions[0].kind == "HealthCheck")
    ensures var c' := Judged(c, now, message);
            VerdictOn(c') == VerdictOn(c) && |c'.conditions| == 1 && States(c'.conditions[0], c')
  {
    JudgedSays(c, now, message);
    if c.conditions != [] {
      assert c.conditions[0] in c.conditions;
      assert Conditions.IndexOf(c.conditions, "HealthCheck") == Some(0);
    }
  }

  lemma NextKeepsConditions(s: State, step: Step)
    requires s.history != [] && Inv(s) && ConditionsOk(s.history, s.writes)
    ensures ConditionsOk(Next(s, step).history, Next(s, step).writes)
  {
    var s', k := Next(s, step), Current(s);
    assert StoredVerdict(s.history, s.writes, k);
    if s'.history == s.history {
    } else if step.OperatorPut? {
      var c := s.history[k];
      assert s.operator.value.check == c;
      JudgedStates(c, step.now, MessageFrom(c, step.culprit));
      AppendKeepsConditions(s.history, s.writes, Judged(c, step.now, MessageFrom(c, step.culprit)), ByOperator);
    } else {
      var caller := s.callers[step.node];
      assert caller.copy == s.history[k];
      AppendKeepsConditions(s.history, s.writes,
                            caller.copy.(answers := caller.copy.answers[step.node := EntryOf(caller.answer)]),
                            ByNode(step.node, caller.answer));
    }
  }

  lemma {:induction false} RunKeepsConditions(affected: seq<string>, steps: seq<Step>)
    ensures ConditionsOk(Run(Created(affected), steps).history, Run(Created(affected), steps).writes)
  {
    if steps == [] {
    } else {
      RunKeepsConditions(affected, steps[..|steps| - 1]);
      CreatedOk(affected);
      RunKeepsInv(Created(affected), steps[..|steps| - 1]);
      NextKeepsConditions(Run(Created(affected), steps[..|steps| - 1]), steps[|steps| - 1]);
    }
  }

  predicate Finished(reason: string) {
    reason == "RepairComplete" || reason == "RepairFailed"
  }

  /** Over runs: in every version the operator writes, its condition says what the answers of that
      version amount to. */
  lemma StoredVerdictExactly(affected: seq<string>, steps: seq<Step>, v: nat)
    requires 0 < v < |Run(Created(affected), steps).history| && v <= |Run(Created(affected), steps).writes|
    requires Run(Created(affected), steps).writes[v - 1].ByOperator?
    ensures var c := Run(Created(affected), steps).history[v];
            && |c.conditions| == 1 && c.conditions[0].kind == "HealthCheck"
            && (c.conditions[0].reason == "RepairInProgress" && c.conditions[0].status == "False"
                <==> |c.answers| < |affected|)
            && (c.conditions[0].reason == "RepairFailed" && c.conditions[0].status == "False"
                <==> |affected| <= |c.answers| && HasError(c))
            && (c.conditions[0].reason == "RepairComplete" && c.conditions[0].status == "True"
                <==> |affected| <= |c.answers| && !HasError(c))
  {
    var s := Run(Created(affected), steps);
    RunKeepsConditions(affected, steps);
    assert StoredVerdict(s.history, s.writes, v);
    CreatedOk(affected);
    RunKeepsInv(Created(affected), steps);
    assert Created(affected).history[0] == s.history[0];
    assert "RepairInProgress"[6] != "RepairFailed"[6];
  }

  /** Over runs: once every affected node has an accepted answer, every verdict the operator
      stores says complete or failed, failed exactly when some answer is an error, and from the
      first such verdict on no version says "in progress" again. */
  lemma {:induction false} StoredVerdictIsFinal(affected: seq<string>, steps: seq<Step>, v: nat, u: nat, w: nat)
    requires NoDuplicates(affected)
    requires v <= u <= w < |Run(Created(affected), steps).history| && 0 < u
    requires forall n :: n in affected ==> n in Run(Created(affected), steps).history[v].answers
    requires u <= |Run(Created(affected), steps).writes| && Run(Created(affected), steps).writes[u - 1].ByOperator?
    ensures var s := Run(Created(affected), steps);
            var cs := s.history[w].conditions;
            && |cs| == 1 && cs[0].kind == "HealthCheck" && Finished(cs[0].reason)
            && (w <= |s.writes| && s.writes[w - 1].ByOperator? ==>
                  && (cs[0].reason == "RepairFailed" && cs[0].status == "False" <==> HasError(s.history[w]))
                  && (cs[0].reason == "RepairComplete" && cs[0].status == "True" <==> !HasError(s.history[w])))
    decreases w
  {
    var s := Run(Created(affected), steps);
    RunKeepsConditions(affected, steps);
    assert StoredVerdict(s.history, s.writes, w);
    if s.writes[w - 1].ByOperator? {
      CompletionIsStable(affected, steps, v, w);
    } else {
      StoredVerdictIsFinal(affected, steps, v, u, w - 1);
    }
  }

  /** A check with an empty list (a dataset's check) is judged complete before any node has
      answered; the periodic check, whose list is one empty name, at the first answer. */
  lemma ListsThatNameNobody(c: Check)
    ensures c.affected == [] ==> VerdictOn(c) != InProgress
    ensures c.affected == [""] ==> (VerdictOn(c) == InProgress <==> c.answers == map[])
  {
    if c.answers != map[] {
      assert c.answers.Keys != {};
      assert |c.answers.Keys| == |c.answers|;
    }
  }

  // ---------------------------------------------------------------- completion over runs

  ghost predicate OnlyBegins(steps: seq<Step>, nodes: set<string>) {
    forall i :: 0 <= i < |steps| && steps[i].Begin? ==> steps[i].node in nodes
  }

  ghost predicate AnsweredBy(s: State, nodes: set<string>) {
    && (forall n :: n in s.callers ==> n in nodes)
    && (forall v :: 0 <= v < |s.history| ==> s.history[v].answers.Keys <= nodes)
  }

  lemma NextKeepsAnsweredBy(s: State, step: Step, nodes: set<string>)
    requires s.history != [] && Inv(s) && AnsweredBy(s, nodes) && (step.Begin? ==> step.node in nodes)
    ensures AnsweredBy(Next(s, step), nodes)
  {
    match step
    case Put(n, ok) =>
      if n in s.callers && s.callers[n].Holding? {
        assert s.history[s.callers[n].version].answers.Keys <= nodes;
      }
    case OperatorPut(now, culprit, ok) =>
      if s.operator.Some? {
        assert s.history[s.operator.value.version].answers.Keys <= nodes;
      }
    case _ =>
  }

  lemma {:induction false} RunKeepsAnsweredBy(affected: seq<string>, steps: seq<Step>, nodes: set<string>)
    requires OnlyBegins(steps, nodes)
    ensures AnsweredBy(Run(Created(affected), steps), nodes)
  {
    if steps == [] {
    } else {
      RunKeepsAnsweredBy(affected, steps[..|steps| - 1], nodes);
      CreatedOk(affected);
      RunKeepsInv(Created(affected), steps[..|steps| - 1]);
      NextKeepsAnsweredBy(Run(Created(affected), steps[..|steps| - 1]), steps[|steps| - 1], nodes);
    }
  }

  function NothingToDo(): Answer {
    Answer(ACTION_NONE, 0, "")
  }

  /** The nodes answer one after the other that they have nothing to do. */
  function AnswerSteps(names: seq<string>): seq<Step> {
    if names == [] then []
    else
      var last := names[|names| - 1];
      AnswerSteps(names[..|names| - 1]) + [Begin(last, NothingToDo()), Fetch(last, true), Put(last, true)]
  }

  lemma AnswerRead(s: State, n: string)
    requires s.history != [] && !s.deleted && !Busy(s.callers, n)
    ensures Run(s, [Begin(n, NothingToDo()), Fetch(n, true)])
            == s.(callers := s.callers[n := Holding(NothingToDo(), ATTEMPTS - 1, Current(s), s.history[Current(s)])])
  {
    var a := NothingToDo();
    RunOne(s, Begin(n, a));
    RunSnoc(s, [Begin(n, a)], Fetch(n, true));
    assert [Begin(n, a)] + [Fetch(n, true)] == [Begin(n, a), Fetch(n, true)];
    var s1 := s.(callers := s.callers[n := Ready(a, ATTEMPTS - 1)]);
    assert Next(s1, Fetch(n, true)).callers
        == s.callers[n := Holding(a, ATTEMPTS - 1, Current(s), s.history[Current(s)])];
  }

  lemma RunAnswer(s: State, n: string)
    requires s.history != [] && !s.deleted && !Busy(s.callers, n)
    ensures var c := s.history[Current(s)];
            Run(s, [Begin(n, NothingToDo()), Fetch(n, true), Put(n, true)])
            == s.(history := s.history + [c.(answers := c.answers[n := EntryOf(NothingToDo())])],
                  writes := s.writes + [ByNode(n, NothingToDo())],
                  callers := s.callers[n := Landed])
  {
    var a := NothingToDo();
    AnswerRead(s, n);
    RunSnoc(s, [Begin(n, a), Fetch(n, true)], Put(n, true));
    assert [Begin(n, a), Fetch(n, true)] + [Put(n, true)] == [Begin(n, a), Fetch(n, true), Put(n, true)];
    var s2 := s.(callers := s.callers[n := Holding(a, ATTEMPTS - 1, Current(s), s.history[Current(s)])]);
    assert Next(s2, Put(n, true)).callers == s.callers[n := Landed];
  }

  /** All and only these nodes have answered, with nothing to do. */
  ghost predicate AllAnswered(s: State, affected: seq<string>, names: seq<string>) {
    && |s.history| == |names| + 1 && s.operator == None && !s.deleted
    && (forall n :: n in s.callers ==> s.callers[n].Landed?)
    && var c := s.history[|names|];
       && c.affected == affected && c.conditions == [] && c.answers.Keys == NamesOf(names)
       && forall n :: n in c.answers ==> c.answers[n].response == ACTION_NONE
  }

  lemma {:induction false} RunAnswers(affected: seq<string>, names: seq<string>)
    requires NoDuplicates(names)
    ensures AllAnswered(Run(Created(affected), AnswerSteps(names)), affected, names)
  {
    if names == [] {
    } else {
      var front, last := names[..|names| - 1], names[|names| - 1];
      RunAnswers(affected, front);
      var s := Run(Created(affected), AnswerSteps(front));
      RunAppend(Created(affected), AnswerSteps(front),
                [Begin(last, NothingToDo()), Fetch(last, true), Put(last, true)]);
      RunAnswer(s, last);
      assert NamesOf(names) == NamesOf(front) + {last};
    }
  }

  lemma NotAnError()
    ensures ACTION_NONE != ACTION_ERROR
  {
    assert ACTION_NONE[0] != ACTION_ERROR[0];
  }

  lemma EnoughAnswers(c: Check, names: seq<string>)
    requires NoDuplicates(names) && |c.affected| <= |names| && c.answers.Keys == NamesOf(names)
    requires forall n :: n in c.answers ==> c.answers[n].response == ACTION_NONE
    ensures VerdictOn(c) == Complete
  {
    CountOfNames(names);
    assert |c.answers.Keys| == |c.answers|;
    NotAnError();
  }

  lemma OperatorFinishes(s: State, k: nat, now: int)
    requires |s.history| == k + 1 && s.operator == None && !s.deleted && s.history[k].conditions == []
    requires VerdictOn(s.history[k]) == Complete
    ensures var s' := Run(s, [OperatorFetch(k), OperatorPut(now, "", true)]);
            && |s'.history| == k + 2
            && s'.history[k + 1].answers.Keys == s.history[k].answers.Keys && VerdictOn(s'.history[k + 1]) == Complete
            && s'.history[k + 1].conditions
               == [Conditions.Condition(CONDITION_TYPE, "True", "RepairComplete", "Repair completed in all nodes", now)]
  {
    var c := s.history[k];
    assert [OperatorFetch(k)] + [OperatorPut(now, "", true)] == [OperatorFetch(k), OperatorPut(now, "", true)];
    RunAppend(s, [OperatorFetch(k)], [OperatorPut(now, "", true)]);
    RunOne(s, OperatorFetch(k));
    RunOne(Next(s, OperatorFetch(k)), OperatorPut(now, "", true));
    JudgedStates(c, now, MessageFrom(c, ""));
    assert Judged(c, now, MessageFrom(c, "")).answers.Keys == c.answers.Keys;
  }

  /** Whoever answers, so many answers are enough: after any duplicate-free group of at least as
      many nodes as are affected has answered that it has nothing to do, the operator stores
      "complete", although no affected node need be among them. */
  lemma CompleteWithoutAffectedNodes(affected: seq<string>, names: seq<string>, now: int)
    requires NoDuplicates(names) && |affected| <= |names|
    ensures var s := Run(Created(affected), AnswerSteps(names) + [OperatorFetch(|names|), OperatorPut(now, "", true)]);
            && |s.history| == |names| + 2
            && s.history[|names| + 1].answers.Keys == NamesOf(names) && VerdictOn(s.history[|names| + 1]) == Complete
            && s.history[|names| + 1].conditions
               == [Conditions.Condition(CONDITION_TYPE, "True", "RepairComplete", "Repair completed in all nodes", now)]
  {
    var s0, k := Created(affected), |names|;
    RunAnswers(affected, names);
    var s1 := Run(s0, AnswerSteps(names));
    EnoughAnswers(s1.history[k], names);
    RunAppend(s0, AnswerSteps(names), [OperatorFetch(k), OperatorPut(now, "", true)]);
    OperatorFinishes(s1, k, now);
  }

  // ---------------------------------------------------------------- when completion can be trusted

  ghost predicate Trustworthy(c: Check) {
    VerdictOn(c) != InProgress ==> Missing(c) == {}
  }

  /** In every run in which only these nodes answer, in every version, "not in progress" means
      that every affected node has answered. */
  ghost predicate AlwaysTrustworthy(affected: seq<string>, nodes: set<string>) {
    forall steps: seq<Step>, v: nat ::
      OnlyBegins(steps, nodes) && v < |Run(Created(affected), steps).history| ==>
        Trustworthy(Run(Created(affected), steps).history[v])
  }

  lemma {:induction false} Pick(nodes: set<string>, k: nat) returns (names: seq<string>)
    requires k <= |nodes|
    ensures |names| == k && NoDuplicates(names) && NamesOf(names) <= nodes
  {
    if k == 0 {
      names := [];
    } else {
      var n :| n in nodes;
      names := Pick(nodes - {n}, k - 1);
      names := names + [n];
    }
  }

  lemma SubsetSize(a: set<string>, b: set<string>)
    requires a <= b
    ensures |a| <= |b| && (|a| == |b| ==> a == b)
  {
    assert b == a + (b - a);
    assert |b| == |a| + |b - a|;
  }

  lemma TrustedVersion(affected: seq<string>, nodes: set<string>, c: Check)
    requires NoDuplicates(affected) && c.affected == affected && c.answers.Keys <= nodes
    requires nodes <= NamesOf(affected) || |nodes| < |affected|
    ensures Trustworthy(c)
  {
    assert |c.answers.Keys| == |c.answers|;
    CountOfNames(affected);
    SubsetSize(c.answers.Keys, nodes);
    if nodes <= NamesOf(affected) && VerdictOn(c) != InProgress {
      SubsetSize(c.answers.Keys, NamesOf(affected));
    }
  }

  lemma {:induction false} StepsBeginNames(names: seq<string>, nodes: set<string>)
    requires NamesOf(names) <= nodes
    ensures OnlyBegins(AnswerSteps(names), nodes)
  {
    if names == [] {
    } else {
      var front, last := names[..|names| - 1], names[|names| - 1];
      assert forall n :: n in NamesOf(front) ==> n in NamesOf(names);
      StepsBeginNames(front, nodes);
      assert last in NamesOf(names);
    }
  }

  lemma MisleadingRun(affected: seq<string>, nodes: set<string>, b: string)
    requires NoDuplicates(affected) && affected != [] && b in nodes && b !in affected && |affected| <= |nodes|
    ensures !AlwaysTrustworthy(affected, nodes)
  {
    var others := Pick(nodes - {b}, |affected| - 1);
    assert b !in NamesOf(others);
    var names := others + [b];
    assert NamesOf(names) == NamesOf(others) + {b};
    var steps, k := AnswerSteps(names), |names|;
    RunAnswers(affected, names);
    StepsBeginNames(names, nodes);
    var c := Run(Created(affected), steps).history[k];
    EnoughAnswers(c, names);
    if Missing(c) == {} {
      CountOfNames(affected);
      CountOfNames(others);
      SubsetSize(NamesOf(affected), NamesOf(others));
    }
    assert !Trustworthy(c);
  }

  /** Completion can be trusted exactly if no node outside the list can answer, or there are fewer
      nodes than the list has names. */
  lemma CompletionTrustworthyExactly(affected: seq<string>, nodes: set<string>)
    requires NoDuplicates(affected) && affected != []
    ensures AlwaysTrustworthy(affected, nodes) <==> nodes <= NamesOf(affected) || |nodes| < |affected|
  {
    if nodes <= NamesOf(affected) || |nodes| < |affected| {
      forall steps: seq<Step>, v: nat | OnlyBegins(steps, nodes) && v < |Run(Created(affected), steps).history|
        ensures Trustworthy(Run(Created(affected), steps).history[v])
      {
        RunKeepsAnsweredBy(affected, steps, nodes);
        CreatedOk(affected);
        RunKeepsInv(Created(affected), steps);
        assert Created(affected).history[0] == Run(Created(affected), steps).history[0];
        TrustedVersion(affected, nodes, Run(Created(affected), steps).history[v]);
      }
    } else {
      var b :| b in nodes && b !in NamesOf(affected);
      MisleadingRun(affected, nodes, b);
    }
  }

  // ---------------------------------------------------------------- lost text

  ghost predicate NoMessages(c: Check) {
    forall n :: n in c.answers ==> c.answers[n].message == ""
  }

  ghost predicate SilentHistory(s: State) {
    forall v :: 0 <= v < |s.history| ==> NoMessages(s.history[v])
  }

  lemma NextKeepsNoMessages(s: State, step: Step)
    requires s.history != [] && Inv(s)
    requires SilentHistory(s)
    ensures SilentHistory(Next(s, step))
  {
    match step
    case Put(n, ok) =>
      if n in s.callers && s.callers[n].Holding? {
        assert NoMessages(s.history[s.callers[n].version]);
      }
    case OperatorPut(now, culprit, ok) =>
      if s.operator.Some? {
        assert NoMessages(s.history[s.operator.value.version]);
      }
    case _ =>
  }

  /** The two sides disagree on the key of the text: in no run does the operator ever see an
      error's text, so the message of a failed repair is always empty. */
  lemma {:induction false} OperatorNeverSeesText(affected: seq<string>, steps: seq<Step>)
    ensures SilentHistory(Run(Created(affected), steps))
    ensures forall v, culprit :: 0 <= v < |Run(Created(affected), steps).history| ==>
              MessageFrom(Run(Created(affected), steps).history[v], culprit) == ""
  {
    if steps == [] {
    } else {
      OperatorNeverSeesText(affected, steps[..|steps| - 1]);
      CreatedOk(affected);
      RunKeepsInv(Created(affected), steps[..|steps| - 1]);
      NextKeepsNoMessages(Run(Created(affected), steps[..|steps| - 1]), steps[|steps| - 1]);
    }
  }

  /** Version v has the text of the node that wrote it and leaves the other entries alone, or, written
      by the operator, no text at all. */
  ghost predicate TextOk(history: seq<Check>, writes: seq<Write>, v: int)
    requires 0 < v < |history| && |history| == |writes| + 1
  {
    var before, after := history[v - 1].answers, history[v].answers;
    match writes[v - 1]
    case ByNode(n, a) =>
      && n in after && after[n].status == Some(a.text)
      && forall m :: m in before && m != n ==> m in after && after[m] == before[m]
    case ByOperator => forall n :: n in after ==> after[n].status == None
  }

  ghost predicate TextsOk(history: seq<Check>, writes: seq<Write>) {
    |history| == |writes| + 1 && forall v :: 0 < v < |history| ==> TextOk(history, writes, v)
  }

  lemma AppendKeepsTexts(history: seq<Check>, writes: seq<Write>, c: Check, w: Write)
    requires TextsOk(history, writes) && TextOk(history + [c], writes + [w], |history|)
    ensures TextsOk(history + [c], writes + [w])
  {
    forall v | 0 < v < |history| ensures TextOk(history + [c], writes + [w], v) {
      assert TextOk(history, writes, v);
    }
  }

  lemma NextKeepsTexts(s: State, step: Step)
    requires s.history != [] && Inv(s) && TextsOk(s.history, s.writes)
    ensures TextsOk(Next(s, step).history, Next(s, step).writes)
  {
    var s', k := Next(s, step), Current(s);
    if s'.history == s.history {
    } else if step.OperatorPut? {
      var c := s.history[k];
      assert s.operator.value.check == c;
      AppendKeepsTexts(s.history, s.writes, Judged(c, step.now, MessageFrom(c, step.culprit)), ByOperator);
    } else {
      var caller := s.callers[step.node];
      assert caller.copy == s.history[k];
      AppendKeepsTexts(s.history, s.writes,
                       caller.copy.(answers := caller.copy.answers[step.node := EntryOf(caller.answer)]),
                       ByNode(step.node, caller.answer));
    }
  }

  /** Over runs: a node's text is stored with its answer and stays until the operator next writes,
      which drops every text. */
  lemma {:induction false} TextsLastUntilOperator(affected: seq<string>, steps: seq<Step>)
    ensures TextsOk(Run(Created(affected), steps).history, Run(Created(affected), steps).writes)
  {
    if steps == [] {
    } else {
      TextsLastUntilOperator(affected, steps[..|steps| - 1]);
      CreatedOk(affected);
      RunKeepsInv(Created(affected), steps[..|steps| - 1]);
      NextKeepsTexts(Run(Created(affected), steps[..|steps| - 1]), steps[|steps| - 1]);
    }
  }
}
