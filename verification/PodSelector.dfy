/**
 Pod selectors: the node driver's matcher (`PodMatches`) and the operator's separate
 validator (`ValidateTerms`).

 The Kubernetes library call that builds a requirement is a parameter, `Syntax`: it says
 which requirements are well-formed. Every statement below holds for every such function.
 */
module PodSelector {
  import opened Wrappers

  datatype Operator = In | NotIn | Exists | DoesNotExist | Unknown(name: string)

  datatype Requirement = Requirement(key: string, op: Operator, values: seq<string>)

  datatype Term = Term(labels: map<string, string>, expressions: seq<Requirement>)

  datatype SelectorError = InvalidOperator(at: Requirement) | BadRequirement(at: Requirement)

  type LabelSet = map<string, string>

  type Syntax = Requirement -> bool

  /** What a requirement built by the library asks of a label set. */
  predicate Satisfies(lbls: LabelSet, r: Requirement) {
    match r.op
    case In => r.key in lbls && lbls[r.key] in r.values
    case NotIn => r.key in lbls ==> lbls[r.key] !in r.values
    case Exists => r.key in lbls
    case DoesNotExist => r.key !in lbls
    case Unknown(_) => false
  }

  /** How the operators relate to each other. */
  lemma OperatorsRelate(lbls: LabelSet, key: string, values: seq<string>, v: string)
    ensures Satisfies(lbls, Requirement(key, Exists, values)) <==>
            exists x :: Satisfies(lbls, Requirement(key, In, [x]))
    ensures Satisfies(lbls, Requirement(key, DoesNotExist, values)) <==>
            !Satisfies(lbls, Requirement(key, Exists, values))
    ensures Satisfies(lbls, Requirement(key, NotIn, values)) <==> !Satisfies(lbls, Requirement(key, In, values))
    ensures Satisfies(lbls, Requirement(key, In, values)) <==>
            exists x :: x in values && Satisfies(lbls, Requirement(key, In, [x]))
    ensures Satisfies(lbls, Requirement(key, In, [v])) <==> key in lbls && lbls[key] == v
  {
    if key in lbls {
      assert Satisfies(lbls, Requirement(key, In, [lbls[key]]));
    }
  }

  function LabelRequirement(k: string, v: string): Requirement {
    Requirement(k, In, [v])
  }

  predicate WellFormed(syntax: Syntax, r: Requirement) {
    !r.op.Unknown? && syntax(r)
  }

  predicate IsEmpty(term: Term) {
    |term.expressions| == 0 && |term.labels| == 0
  }

  // ---------------------------------------------------------------- meaning of a selector

  predicate LabelsWellFormed(syntax: Syntax, term: Term) {
    forall k :: k in term.labels ==> syntax(LabelRequirement(k, term.labels[k]))
  }

  predicate ExpressionsWellFormed(syntax: Syntax, term: Term) {
    forall r :: r in term.expressions ==> WellFormed(syntax, r)
  }

  predicate TermWellFormed(syntax: Syntax, term: Term) {
    LabelsWellFormed(syntax, term) && ExpressionsWellFormed(syntax, term)
  }

  /** A term asks for every one of its labels and every one of its expressions. */
  predicate TermHolds(lbls: LabelSet, term: Term) {
    && (forall k :: k in term.labels ==> k in lbls && lbls[k] == term.labels[k])
    && (forall r :: r in term.expressions ==> Satisfies(lbls, r))
  }

  predicate Counts(syntax: Syntax, lbls: LabelSet, term: Term) {
    !IsEmpty(term) && TermWellFormed(syntax, term) && TermHolds(lbls, term)
  }

  /** The pods a selector list targets: all of them, or those some good term describes. */
  predicate Targets(syntax: Syntax, lbls: LabelSet, terms: seq<Term>) {
    terms == [] || exists t :: t in terms && Counts(syntax, lbls, t)
  }

  predicate HasMalformed(syntax: Syntax, terms: seq<Term>) {
    exists t :: t in terms && !IsEmpty(t) && !TermWellFormed(syntax, t)
  }

  predicate Fails(syntax: Syntax, lbls: LabelSet, terms: seq<Term>) {
    !Targets(syntax, lbls, terms) && HasMalformed(syntax, terms)
  }

  ghost predicate IsLabelFault(syntax: Syntax, term: Term, keys: set<string>, e: SelectorError)
    requires keys <= term.labels.Keys
  {
    && e.BadRequirement? && e.at.key in keys
    && e.at == LabelRequirement(e.at.key, term.labels[e.at.key]) && !syntax(e.at)
  }

  ghost predicate IsExpressionFault(syntax: Syntax, rs: seq<Requirement>, e: SelectorError) {
    e.at in rs && (if e.at.op.Unknown? then e.InvalidOperator? else e.BadRequirement? && !syntax(e.at))
  }

  /** The errors a term gives rise to: one per malformed label pair or expression. */
  ghost predicate IsFault(syntax: Syntax, term: Term, e: SelectorError) {
    || IsLabelFault(syntax, term, term.labels.Keys, e)
    || IsExpressionFault(syntax, term.expressions, e)
  }

  // ---------------------------------------------------------------- the driver's matcher

  function WithNames(labels: LabelSet, name: string, generateName: string): LabelSet {
    labels["metadata.name" := name]["metadata.generateName" := generateName]
  }

  class Pod {
    const name: string
    const generateName: string
    const namespace: string
    const node: string
    const phase: string
    const annotations: map<string, string>
    var labels: map<string, string>

    constructor (name: string, generateName: string, namespace: string, node: string, phase: string,
                 annotations: map<string, string>, labels: map<string, string>)
      ensures this.name == name && this.generateName == generateName && this.namespace == namespace
      ensures this.node == node && this.phase == phase && this.annotations == annotations && this.labels == labels
    {
      this.name, this.generateName, this.namespace, this.node := name, generateName, namespace, node;
      this.phase, this.annotations, this.labels := phase, annotations, labels;
    }

    /** The labels a selector sees for this pod. */
    function View(): (v: LabelSet)
      reads this
    {
      WithNames(labels, name, generateName)
    }
  }

  /** A selector can ask for the pod's name and name prefix as if they were labels; the other labels
      are its own. */
  lemma NamesSelectable(pod: Pod)
    ensures var v := pod.View();
            && "metadata.name" in v && v["metadata.name"] == pod.name
            && "metadata.generateName" in v && v["metadata.generateName"] == pod.generateName
            && forall k :: k != "metadata.name" && k != "metadata.generateName" ==>
                 (k in v <==> k in pod.labels) && (k in v ==> v[k] == pod.labels[k])
  {
    assert |"metadata.name"| != |"metadata.generateName"|;
  }

  function ViewOf(pod: Pod?): LabelSet
    reads if pod == null then {} else {pod}
  {
    if pod == null then map[] else pod.View()
  }

  /** The returned map is the pod's own label map unless that map is empty, so the two
      extra entries show up in the pod as well. They never change what a later call sees. */
  method GetPodLabels(pod: Pod?) returns (lbls: LabelSet)
    modifies if pod == null then {} else {pod}
    ensures lbls == old(ViewOf(pod)) == ViewOf(pod)
    ensures pod != null ==> pod.labels == if |old(pod.labels)| == 0 then map[] else lbls
  {
    if pod == null {
      return map[];
    }
    lbls := pod.labels;
    lbls := lbls["metadata.name" := pod.name];
    lbls := lbls["metadata.generateName" := pod.generateName];
    if |pod.labels| != 0 {
      pod.labels := lbls;
    }
  }

  lemma FaultFree(syntax: Syntax, term: Term, errs: seq<SelectorError>)
    requires forall e :: e in errs <==> IsFault(syntax, term, e)
    ensures errs == [] <==> TermWellFormed(syntax, term)
  {
    if !LabelsWellFormed(syntax, term) {
      var k :| k in term.labels && !syntax(LabelRequirement(k, term.labels[k]));
      assert IsFault(syntax, term, BadRequirement(LabelRequirement(k, term.labels[k])));
    }
    if !ExpressionsWellFormed(syntax, term) {
      var r :| r in term.expressions && !WellFormed(syntax, r);
      assert IsFault(syntax, term, if r.op.Unknown? then InvalidOperator(r) else BadRequirement(r));
    }
    if errs != [] {
      assert errs[0] in errs;
    }
  }

  /** One term. The label pairs are visited in any order, as for a Go map. */
  method Matches(syntax: Syntax, lbls: LabelSet, term: Term) returns (ok: bool, errs: seq<SelectorError>)
    ensures ok <==> TermWellFormed(syntax, term) && TermHolds(lbls, term)
    ensures errs == [] <==> TermWellFormed(syntax, term)
    ensures forall e :: e in errs <==> IsFault(syntax, term, e)
  {
    errs := [];
    var selector: seq<Requirement> := [];
    var keys := term.labels.Keys;
    while keys != {}
      invariant keys <= term.labels.Keys
      invariant forall r :: r in selector <==>
        r.key in term.labels.Keys - keys && r == LabelRequirement(r.key, term.labels[r.key]) && syntax(r)
      invariant forall e :: e in errs <==> IsLabelFault(syntax, term, term.labels.Keys - keys, e)
      decreases |keys|
    {
      var k :| k in keys;
      var r := LabelRequirement(k, term.labels[k]);
      if syntax(r) {
        selector := selector + [r];
      } else {
        errs := errs + [BadRequirement(r)];
      }
      keys := keys - {k};
    }
    ghost var fromLabels := selector;
    for i := 0 to |term.expressions|
      invariant forall r :: r in selector <==>
        r in fromLabels || (r in term.expressions[..i] && WellFormed(syntax, r))
      invariant forall e :: e in errs <==>
        IsLabelFault(syntax, term, term.labels.Keys, e) || IsExpressionFault(syntax, term.expressions[..i], e)
    {
      var r := term.expressions[i];
      assert term.expressions[..i + 1] == term.expressions[..i] + [r];
      if r.op.Unknown? {
        errs := errs + [InvalidOperator(r)];
        continue;
      }
      if syntax(r) {
        selector := selector + [r];
      } else {
        errs := errs + [BadRequirement(r)];
      }
    }
    assert term.expressions[..|term.expressions|] == term.expressions;
    FaultFree(syntax, term, errs);
    if |errs| > 0 {
      return false, errs;
    }
    ok := forall r :: r in selector ==> Satisfies(lbls, r);
    assert forall k :: k in term.labels ==> LabelRequirement(k, term.labels[k]) in selector;
  }

  /** A bad term is reported only when no good term matches; an empty term is ignored. */
  method PodMatches(syntax: Syntax, lbls: LabelSet, terms: seq<Term>)
    returns (ok: bool, errs: seq<SelectorError>)
    ensures ok <==> Targets(syntax, lbls, terms)
    ensures errs != [] <==> Fails(syntax, lbls, terms)
    ensures !ok ==> forall e :: e in errs <==> exists t :: t in terms && IsFault(syntax, t, e)
  {
    if |terms| == 0 {
      return true, [];
    }
    errs := [];
    for i := 0 to |terms|
      invariant forall t :: t in terms[..i] ==> !Counts(syntax, lbls, t)
      invariant errs != [] <==> HasMalformed(syntax, terms[..i])
      invariant forall e :: e in errs <==> exists t :: t in terms[..i] && IsFault(syntax, t, e)
    {
      var term := terms[i];
      assert terms[..i + 1] == terms[..i] + [term];
      if |term.expressions| == 0 && |term.labels| == 0 {
        continue;
      }
      var match', merrs := Matches(syntax, lbls, term);
      if |merrs| > 0 {
        errs := errs + merrs;
        assert term in terms[..i + 1];
        continue;
      }
      assert forall e :: !IsFault(syntax, term, e);
      if match' {
        assert term in terms && Counts(syntax, lbls, term);
        return true, [];
      }
    }
    assert terms[..|terms|] == terms;
    return false, errs;
  }

  // ---------------------------------------------------------------- meaning of the parts

  function OneLabel(k: string, v: string): Term {
    Term(map[k := v], [])
  }

  function OneExpression(r: Requirement): Term {
    Term(map[], [r])
  }

  lemma OneTermTargets(syntax: Syntax, lbls: LabelSet, t: Term)
    ensures Targets(syntax, lbls, [t]) <==> Counts(syntax, lbls, t)
  {
    assert t in [t];
  }

  /** The empty list targets every pod, the empty term none; a list targets the pods of each of its
      terms; a label pair the pods that have it; an expression those that satisfy it. */
  lemma PartsMean(syntax: Syntax, lbls: LabelSet, ts: seq<Term>, us: seq<Term>, k: string, v: string, r: Requirement)
    ensures Targets(syntax, lbls, []) && !Targets(syntax, lbls, [Term(map[], [])])
    ensures ts != [] && us != [] ==>
              (Targets(syntax, lbls, ts + us) <==> Targets(syntax, lbls, ts) || Targets(syntax, lbls, us))
    ensures Targets(syntax, lbls, [OneLabel(k, v)]) <==> syntax(Requirement(k, In, [v])) && k in lbls && lbls[k] == v
    ensures Targets(syntax, lbls, [OneExpression(r)]) <==> !r.op.Unknown? && syntax(r) && Satisfies(lbls, r)
  {
    OneTermTargets(syntax, lbls, Term(map[], []));
    OneTermTargets(syntax, lbls, OneLabel(k, v));
    OneTermTargets(syntax, lbls, OneExpression(r));
    assert k in OneLabel(k, v).labels && r in OneExpression(r).expressions;
    assert forall t :: t in ts + us <==> t in ts || t in us;
    assert |map[k := v]| == 1;
  }

  /** A term asks for all of its parts at once. */
  lemma TermMeans(syntax: Syntax, lbls: LabelSet, t: Term)
    requires t.labels != map[] || t.expressions != []
    ensures Targets(syntax, lbls, [t]) <==>
            && (forall k :: k in t.labels ==> Targets(syntax, lbls, [OneLabel(k, t.labels[k])]))
            && (forall r :: r in t.expressions ==> Targets(syntax, lbls, [OneExpression(r)]))
  {
    OneTermTargets(syntax, lbls, t);
    assert t.labels != map[] ==> t.labels.Keys != {} && |t.labels| == |t.labels.Keys|;
    forall k | k in t.labels
      ensures Targets(syntax, lbls, [OneLabel(k, t.labels[k])]) <==>
              syntax(LabelRequirement(k, t.labels[k])) && k in lbls && lbls[k] == t.labels[k]
    {
      PartsMean(syntax, lbls, [], [], k, t.labels[k], Requirement(k, In, []));
    }
    forall r | r in t.expressions
      ensures Targets(syntax, lbls, [OneExpression(r)]) <==> WellFormed(syntax, r) && Satisfies(lbls, r)
    {
      PartsMean(syntax, lbls, [], [], "", "", r);
    }
  }

  // ---------------------------------------------------------------- order independence

  /** A term up to the order and multiplicity of its expressions. */
  ghost function Essence(t: Term): (map<string, string>, set<Requirement>) {
    (t.labels, set r | r in t.expressions)
  }

  ghost function Essences(ts: seq<Term>): set<(map<string, string>, set<Requirement>)> {
    set t | t in ts :: Essence(t)
  }

  lemma SameEssenceSameVerdict(syntax: Syntax, lbls: LabelSet, t: Term, u: Term)
    requires Essence(t) == Essence(u)
    ensures IsEmpty(t) == IsEmpty(u) && TermWellFormed(syntax, t) == TermWellFormed(syntax, u)
    ensures TermHolds(lbls, t) == TermHolds(lbls, u)
  {
    assert forall r :: r in t.expressions <==> r in Essence(t).1;
    assert forall r :: r in u.expressions <==> r in Essence(u).1;
    if |t.expressions| > 0 { assert t.expressions[0] in u.expressions; }
    if |u.expressions| > 0 { assert u.expressions[0] in t.expressions; }
  }

  lemma EssenceIn(ts: seq<Term>, us: seq<Term>, t: Term) returns (u: Term)
    requires Essences(ts) == Essences(us) && t in ts
    ensures u in us && Essence(u) == Essence(t)
  {
    assert Essence(t) in Essences(us);
    u :| u in us && Essence(u) == Essence(t);
  }

  lemma VerdictCarriesOver(syntax: Syntax, lbls: LabelSet, ts: seq<Term>, us: seq<Term>)
    requires Essences(ts) == Essences(us)
    ensures Targets(syntax, lbls, ts) ==> Targets(syntax, lbls, us)
    ensures HasMalformed(syntax, ts) ==> HasMalformed(syntax, us)
  {
    if us != [] && ts == [] {
      var t := EssenceIn(us, ts, us[0]);
    }
    if t :| t in ts && Counts(syntax, lbls, t) {
      var u := EssenceIn(ts, us, t);
      SameEssenceSameVerdict(syntax, lbls, t, u);
    }
    if t :| t in ts && !IsEmpty(t) && !TermWellFormed(syntax, t) {
      var u := EssenceIn(ts, us, t);
      SameEssenceSameVerdict(syntax, lbls, t, u);
    }
  }

  /** Reordering or repeating terms, expressions or label pairs changes neither the answer
      nor whether an error is reported. */
  lemma OrderIndependence(syntax: Syntax, lbls: LabelSet, ts: seq<Term>, us: seq<Term>)
    requires Essences(ts) == Essences(us)
    ensures Targets(syntax, lbls, ts) <==> Targets(syntax, lbls, us)
    ensures Fails(syntax, lbls, ts) <==> Fails(syntax, lbls, us)
  {
    VerdictCarriesOver(syntax, lbls, ts, us);
    VerdictCarriesOver(syntax, lbls, us, ts);
  }

  /** Adding any terms at all, malformed ones included, never hides a matching good term. */
  lemma BadTermNeverHidesGood(syntax: Syntax, lbls: LabelSet, before: seq<Term>, good: Term, after: seq<Term>)
    requires Counts(syntax, lbls, good)
    ensures Targets(syntax, lbls, before + [good] + after) && !Fails(syntax, lbls, before + [good] + after)
  {
    assert good in before + [good] + after;
  }

  // ---------------------------------------------------------------- the operator's validator

  predicate Accepts(syntax: Syntax, terms: seq<Term>) {
    forall t :: t in terms ==> ExpressionsWellFormed(syntax, t)
  }

  /** Stops at the first bad expression. Label pairs are not looked at. */
  method ValidateTerms(syntax: Syntax, terms: seq<Term>) returns (err: Option<SelectorError>)
    ensures err == None <==> Accepts(syntax, terms)
    ensures err.Some? ==> exists t :: t in terms && IsExpressionFault(syntax, t.expressions, err.value)
  {
    err := None;
    var i := 0;
    while i < |terms|
      invariant 0 <= i <= |terms|
      invariant err == None && Accepts(syntax, terms[..i])
      decreases |terms| - i
    {
      var term := terms[i];
      var j := 0;
      while j < |term.expressions|
        invariant 0 <= j <= |term.expressions|
        invariant err == None
        invariant forall r :: r in term.expressions[..j] ==> WellFormed(syntax, r)
        decreases |term.expressions| - j
      {
        var r := term.expressions[j];
        assert term.expressions[..j + 1] == term.expressions[..j] + [r];
        assert r in term.expressions && term in terms;
        if r.op.Unknown? {
          err := Some(InvalidOperator(r));
          assert IsExpressionFault(syntax, term.expressions, err.value);
        }
        if err.Some? {
          break;
        }
        if !syntax(r) {
          err := Some(BadRequirement(r));
          assert IsExpressionFault(syntax, term.expressions, err.value);
          break;
        }
        j := j + 1;
      }
      if err.Some? {
        break;
      }
      assert term.expressions[..|term.expressions|] == term.expressions;
      assert terms[..i + 1] == terms[..i] + [term];
      i := i + 1;
    }
    assert err == None ==> terms[..i] == terms;
  }

  /** The validator's verdict together with the label pairs it skips decides exactly whether
      a malformed term is left for the matcher to find. */
  lemma ValidatorFindsMalformed(syntax: Syntax, terms: seq<Term>)
    ensures !HasMalformed(syntax, terms) <==>
            Accepts(syntax, terms) && forall t :: t in terms ==> LabelsWellFormed(syntax, t)
  {
    forall t | t in terms && !TermWellFormed(syntax, t)
      ensures !IsEmpty(t)
    {
      if !LabelsWellFormed(syntax, t) {
        var k :| k in t.labels && !syntax(LabelRequirement(k, t.labels[k]));
        assert k in t.labels.Keys;
      }
    }
  }

  /** Acceptance predicts an error-free match for every pod; rejection predicts an error for
      every pod that no good term matches. */
  lemma ValidatorPredictsMatcher(syntax: Syntax, terms: seq<Term>)
    ensures Accepts(syntax, terms) && (forall t :: t in terms ==> LabelsWellFormed(syntax, t))
            ==> forall lbls :: !Fails(syntax, lbls, terms)
    ensures !Accepts(syntax, terms)
            ==> forall lbls :: Fails(syntax, lbls, terms) <==> forall t :: t in terms ==> !Counts(syntax, lbls, t)
  {
    ValidatorFindsMalformed(syntax, terms);
  }

  /** The condition on label pairs is needed: an accepted list can still make the matcher
      fail, because the validator never looks at label pairs. */
  lemma AcceptedYetFailing(syntax: Syntax, k: string, v: string)
    requires !syntax(LabelRequirement(k, v))
    ensures Accepts(syntax, [Term(map[k := v], [])]) && Fails(syntax, map[], [Term(map[k := v], [])])
  {
    var t := Term(map[k := v], []);
    assert k in t.labels;
    assert t in [t];
  }
}
