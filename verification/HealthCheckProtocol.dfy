/**
 The distributed health check: any number of node drivers and the operator rewrite the status
 of one check object, each with a get, a change of the copy and an update that the API server
 accepts only if the copy is of the current version.

 A run is any sequence of steps of any actors. A step an actor cannot take changes nothing,
 so every sequence of steps is a run and every theorem is about all interleavings.
 */
module HealthCheckProtocol {
  import opened Wrappers
  import opened Common
  import Conditions

  const ATTEMPTS := 5

  /** One node's entry. The driver writes its text under the key `status`; the operator's type
      knows the key `message` instead, so its rewrite drops the text. */
  datatype Entry = Entry(response: string, podCount: nat, status: Option<string>, message: string)

  datatype Check = Check(affected: seq<string>, answers: map<string, Entry>, conditions: seq<Conditions.Condition>)

  /** Where a node driver's update call stands: about to read, or holding a copy of version
      `version` read earlier, with `left` more attempts to go after this one. */
  datatype Caller =
    | Ready(answer: Answer, left: nat)
    | Holding(answer: Answer, left: nat, version: nat, copy: Check)
    | Landed
    | GaveUp

  datatype Write = ByNode(node: string, answer: Answer) | ByOperator

  datatype Copy = Copy(version: nat, check: Check)

  /** All stored versions of the object, and who wrote each one but the first. */
  datatype State = State(history: seq<Check>, writes: seq<Write>, deleted: bool,
                         callers: map<string, Caller>, operator: Option<Copy>)

  datatype Step =
    | Begin(node: string, answer: Answer)   // a node process sees the check and answers
    | Fetch(node: string, ok: bool)
    | Put(node: string, ok: bool)
    | OperatorFetch(version: nat)           // the operator reads through a cache: any version
    | OperatorPut(now: int, culprit: string, ok: bool)
    | Delete

  // ---------------------------------------------------------------- the actors

  function Current(s: State): nat
    requires s.history != []
  {
    |s.history| - 1
  }

  function EntryOf(a: Answer): Entry {
    Entry(a.response, a.podCount, Some(a.text), "")
  }

  /** The operator's rewrite of an entry: reading it into its own type loses the driver's text. */
  function Typed(e: Entry): Entry {
    e.(status := None)
  }

  datatype Verdict = InProgress | Complete | Failed

  function VerdictOn(c: Check): Verdict {
    if |c.affected| > |c.answers| then InProgress
    else if exists n :: n in c.answers && c.answers[n].response == ACTION_ERROR then Failed
    else Complete
  }

  const CONDITION_TYPE := "HealthCheck"

  function ReasonOf(v: Verdict): string {
    match v case InProgress => "RepairInProgress" case Complete => "RepairComplete" case Failed => "RepairFailed"
  }

  /** `message` is taken from one of the answers in error, whichever the map yields first. */
  function ConditionFor(v: Verdict, message: string): Conditions.Condition {
    match v
    case InProgress => Conditions.Condition(CONDITION_TYPE, "False", ReasonOf(v), "Repair in progress", 0)
    case Complete => Conditions.Condition(CONDITION_TYPE, "True", ReasonOf(v), "Repair completed in all nodes", 0)
    case Failed => Conditions.Condition(CONDITION_TYPE, "False", ReasonOf(v), message, 0)
  }

  function Judged(c: Check, now: int, message: string): Check {
    Check(c.affected, map n | n in c.answers :: Typed(c.answers[n]),
          Conditions.Set(c.conditions, ConditionFor(VerdictOn(c), message), now))
  }

  function MessageFrom(c: Check, culprit: string): string {
    if culprit in c.answers then c.answers[culprit].message else ""
  }

  predicate Busy(callers: map<string, Caller>, n: string) {
    n in callers && (callers[n].Ready? || callers[n].Holding?)
  }

  function Next(s: State, step: Step): State
    requires s.history != []
    ensures Next(s, step).history != []
  {
    match step
    case Begin(n, a) =>
      if Busy(s.callers, n) then s else s.(callers := s.callers[n := Ready(a, ATTEMPTS - 1)])
    case Fetch(n, ok) =>
      if n !in s.callers || !s.callers[n].Ready? then s
      else if s.deleted || !ok then s.(callers := s.callers[n := GaveUp])
      else
        var c := s.callers[n];
        s.(callers := s.callers[n := Holding(c.answer, c.left, Current(s), s.history[Current(s)])])
    case Put(n, ok) =>
      if n !in s.callers || !s.callers[n].Holding? then s
      else
        var c := s.callers[n];
        if s.deleted || !ok then s.(callers := s.callers[n := GaveUp])
        else if c.version == Current(s) then
          s.(history := s.history + [c.copy.(answers := c.copy.answers[n := EntryOf(c.answer)])],
             writes := s.writes + [ByNode(n, c.answer)],
             callers := s.callers[n := Landed])
        else if c.left == 0 then s.(callers := s.callers[n := GaveUp])
        else s.(callers := s.callers[n := Ready(c.answer, c.left - 1)])
    case OperatorFetch(v) =>
      if s.operator.Some? || v > Current(s) then s
      else s.(operator := Some(Copy(v, s.history[v])))
    case OperatorPut(now, culprit, ok) =>
      if s.operator.None? then s
      else
        var c := s.operator.value;
        if s.deleted || !ok || c.version != Current(s) then s.(operator := None)
        else s.(history := s.history + [Judged(c.check, now, MessageFrom(c.check, culprit))],
                writes := s.writes + [ByOperator],
                operator := None)
    case Delete => s.(deleted := true)
  }

  function Run(s: State, steps: seq<Step>): State
    requires s.history != []
    ensures Run(s, steps).history != []
  {
    if steps == [] then s else Next(Run(s, steps[..|steps| - 1]), steps[|steps| - 1])
  }

  lemma {:induction false} RunAppend(s: State, a: seq<Step>, b: seq<Step>)
    requires s.history != []
    ensures Run(s, a + b) == Run(Run(s, a), b)
  {
    if b == [] {
      assert a + b == a;
    } else {
      assert (a + b)[..|a + b| - 1] == a + b[..|b| - 1];
      RunAppend(s, a, b[..|b| - 1]);
    }
  }

  lemma RunOne(s: State, step: Step)
    requires s.history != []
    ensures Run(s, [step]) == Next(s, step)
  {
    assert [step][..0] == [];
    assert Run(s, []) == s;
  }

  lemma RunSnoc(s: State, steps: seq<Step>, step: Step)
    requires s.history != []
    ensures Run(s, steps + [step]) == Next(Run(s, steps), step)
  {
    assert (steps + [step])[..|steps|] == steps;
  }

  ghost predicate NothingNew(s: State, s': State) {
    && s'.deleted && s'.history == s.history && s'.writes == s.writes
    && forall n :: n in s'.callers && s'.callers[n].Landed? ==> n in s.callers && s.callers[n].Landed?
  }

  lemma DeletedStays(s: State, step: Step)
    requires s.history != [] && s.deleted
    ensures NothingNew(s, Next(s, step))
  {
  }

  /** Once the object is deleted, no version is stored any more and no call lands, whatever follows. */
  lemma {:induction false} NothingAfterDelete(s: State, steps: seq<Step>)
    requires s.history != []
    ensures NothingNew(s, Run(s, [Delete] + steps))
  {
    if steps == [] {
      RunOne(s, Delete);
      assert [Delete] + steps == [Delete];
    } else {
      var front, last := [Delete] + steps[..|steps| - 1], steps[|steps| - 1];
      NothingAfterDelete(s, steps[..|steps| - 1]);
      assert [Delete] + steps == front + [last];
      RunSnoc(s, front, last);
      DeletedStays(Run(s, front), last);
    }
  }

  function Created(affected: seq<string>): State {
    State([Check(affected, map[], [])], [], false, map[], None)
  }

  // ---------------------------------------------------------------- no lost answers

  datatype Recorded = Recorded(response: string, podCount: nat)

  function Record(answers: map<string, Entry>): map<string, Recorded> {
    map n | n in answers :: Recorded(answers[n].response, answers[n].podCount)
  }

  /** The last answer each node wrote. */
  function LastAnswers(writes: seq<Write>): map<string, Recorded> {
    if writes == [] then map[]
    else
      var before := LastAnswers(writes[..|writes| - 1]);
      match writes[|writes| - 1]
      case ByNode(n, a) => before[n := Recorded(a.response, a.podCount)]
      case ByOperator => before
  }

  ghost predicate CopiesOk(s: State) {
    && (forall n :: n in s.callers && s.callers[n].Holding? ==>
          s.callers[n].version < |s.history| && s.callers[n].copy == s.history[s.callers[n].version])
    && (s.operator.Some? ==>
          s.operator.value.version < |s.history| && s.operator.value.check == s.history[s.operator.value.version])
  }

  ghost predicate HistoryOk(s: State) {
    && |s.history| == |s.writes| + 1
    && forall v :: 0 <= v < |s.history| ==>
         s.history[v].affected == s.history[0].affected && Record(s.history[v].answers) == LastAnswers(s.writes[..v])
  }

  ghost predicate Inv(s: State) {
    CopiesOk(s) && HistoryOk(s)
  }

  lemma AppendKeepsHistory(s: State, c: Check, w: Write)
    requires HistoryOk(s)
    requires c.affected == s.history[0].affected
    requires Record(c.answers) == LastAnswers(s.writes + [w])
    ensures HistoryOk(s.(history := s.history + [c], writes := s.writes + [w]))
  {
    var h, ws := s.history + [c], s.writes + [w];
    forall v | 0 <= v < |h|
      ensures h[v].affected == h[0].affected && Record(h[v].answers) == LastAnswers(ws[..v])
    {
      if v < |s.history| {
        assert ws[..v] == s.writes[..v];
      } else {
        assert ws[..v] == ws;
      }
    }
  }

  lemma RecordOfPut(answers: map<string, Entry>, writes: seq<Write>, n: string, a: Answer)
    requires Record(answers) == LastAnswers(writes)
    ensures Record(answers[n := EntryOf(a)]) == LastAnswers(writes + [ByNode(n, a)])
  {
    assert (writes + [ByNode(n, a)])[..|writes|] == writes;
    assert Record(answers[n := EntryOf(a)]) == Record(answers)[n := Recorded(a.response, a.podCount)];
  }

  lemma RecordOfJudged(c: Check, writes: seq<Write>, now: int, message: string)
    requires Record(c.answers) == LastAnswers(writes)
    ensures Record(Judged(c, now, message).answers) == LastAnswers(writes + [ByOperator])
  {
    assert (writes + [ByOperator])[..|writes|] == writes;
    assert Record(Judged(c, now, message).answers) == Record(c.answers);
  }

  lemma NextKeepsCopies(s: State, step: Step)
    requires s.history != [] && CopiesOk(s)
    ensures CopiesOk(Next(s, step)) && s.history <= Next(s, step).history
  {
    var s' := Next(s, step);
    assert forall v :: 0 <= v < |s.history| ==> s'.history[v] == s.history[v];
  }

  lemma NextKeepsHistory(s: State, step: Step)
    requires s.history != [] && Inv(s)
    ensures HistoryOk(Next(s, step))
  {
    var s' := Next(s, step);
    if s'.history != s.history {
      assert s.writes[..Current(s)] == s.writes;
      match step
      case Put(n, ok) =>
        var c := s.callers[n];
        var c' := c.copy.(answers := c.copy.answers[n := EntryOf(c.answer)]);
        RecordOfPut(c.copy.answers, s.writes, n, c.answer);
        AppendKeepsHistory(s, c', ByNode(n, c.answer));
      case OperatorPut(now, culprit, ok) =>
        var c := s.operator.value.check;
        var c' := Judged(c, now, MessageFrom(c, culprit));
        RecordOfJudged(c, s.writes, now, MessageFrom(c, culprit));
        AppendKeepsHistory(s, c', ByOperator);
    }
  }

  lemma NextKeepsInv(s: State, step: Step)
    requires s.history != [] && Inv(s)
    ensures Inv(Next(s, step)) && s.history <= Next(s, step).history
  {
    NextKeepsCopies(s, step);
    NextKeepsHistory(s, step);
  }

  lemma {:induction false} RunKeepsInv(s: State, steps: seq<Step>)
    requires s.history != [] && Inv(s)
    ensures Inv(Run(s, steps)) && s.history <= Run(s, steps).history
  {
    if steps == [] {
    } else {
      RunKeepsInv(s, steps[..|steps| - 1]);
      NextKeepsInv(Run(s, steps[..|steps| - 1]), steps[|steps| - 1]);
    }
  }

  lemma CreatedOk(affected: seq<string>)
    ensures Inv(Created(affected))
  {
    assert Record(map[]) == map[];
  }

  /** In every interleaving, the recorded responses and pod counts of every stored version are
      exactly the last answers the nodes wrote before it: nothing another node or the operator
      does adds, drops or changes one. */
  lemma EveryAnswerStands(affected: seq<string>, steps: seq<Step>, v: nat)
    requires v < |Run(Created(affected), steps).history|
    ensures var s := Run(Created(affected), steps);
            v <= |s.writes| && Record(s.history[v].answers) == LastAnswers(s.writes[..v])
  {
    CreatedOk(affected);
    RunKeepsInv(Created(affected), steps);
  }

  lemma {:induction false} AnswersOnlyGrow(writes: seq<Write>, more: seq<Write>, n: string)
    requires n in LastAnswers(writes)
    ensures n in LastAnswers(writes + more)
    ensures (forall w :: w in more ==> !(w.ByNode? && w.node == n)) ==>
              LastAnswers(writes + more)[n] == LastAnswers(writes)[n]
  {
    if more == [] {
      assert writes + more == writes;
    } else {
      assert (writes + more)[..|writes + more| - 1] == writes + more[..|more| - 1];
      AnswersOnlyGrow(writes, more[..|more| - 1], n);
      assert more[|more| - 1] in more;
      assert forall w :: w in more[..|more| - 1] ==> w in more;
    }
  }

  /** From any version on, a node's entry stays, and stays the same until that node itself
      writes again. */
  lemma NoLostAnswers(affected: seq<string>, steps: seq<Step>, v: nat, v': nat, n: string)
    requires v <= v' < |Run(Created(affected), steps).history|
    requires n in Run(Created(affected), steps).history[v].answers
    ensures var s := Run(Created(affected), steps);
            && v' <= |s.writes| && n in s.history[v'].answers
            && ((forall w :: w in s.writes[v..v'] ==> !(w.ByNode? && w.node == n)) ==>
                  s.history[v'].answers[n].response == s.history[v].answers[n].response
                  && s.history[v'].answers[n].podCount == s.history[v].answers[n].podCount)
  {
    var s := Run(Created(affected), steps);
    EveryAnswerStands(affected, steps, v);
    EveryAnswerStands(affected, steps, v');
    assert s.writes[..v'] == s.writes[..v] + s.writes[v..v'];
    assert n in Record(s.history[v].answers);
    AnswersOnlyGrow(s.writes[..v], s.writes[v..v'], n);
    assert n in Record(s.history[v'].answers);
  }
}
