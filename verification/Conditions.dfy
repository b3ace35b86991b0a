/**
 The status condition list of the operator (status.go) and the driver's pod condition list
 (client.go). A condition list is a mutable list that behaves as a map by type, with a
 transition time that remembers when the current status began.
 */
module Conditions {
  import opened Wrappers

  datatype Condition = Condition(kind: string, status: string, reason: string, message: string, time: int)

  // ---------------------------------------------------------------- operations on values

  function IndexOf(list: seq<Condition>, kind: string): (i: Option<nat>)
    ensures i.None? <==> forall c :: c in list ==> c.kind != kind
    ensures i.Some? ==> i.value < |list| && list[i.value].kind == kind
    ensures i.Some? ==> forall j :: 0 <= j < i.value ==> list[j].kind != kind
  {
    if list == [] then None
    else if list[0].kind == kind then Some(0)
    else match IndexOf(list[1..], kind) case None => None case Some(i) => Some(i + 1)
  }

  /** `c.time` is ignored, as SetCondition overwrites it. */
  function Set(list: seq<Condition>, c: Condition, now: int): seq<Condition> {
    match IndexOf(list, c.kind)
    case None => list + [c.(time := now)]
    case Some(i) => list[i := c.(time := if list[i].status == c.status then list[i].time else now)]
  }

  function Remove(list: seq<Condition>, kind: string): seq<Condition> {
    match IndexOf(list, kind)
    case None => list
    case Some(i) => list[..i] + list[i + 1..]
  }

  predicate Less(a: string, b: string) {
    b != [] && (a == [] || a[0] < b[0] || (a[0] == b[0] && Less(a[1..], b[1..])))
  }

  function Insert(c: Condition, list: seq<Condition>): seq<Condition> {
    if list == [] || Less(c.kind, list[0].kind) then [c] + list else [list[0]] + Insert(c, list[1..])
  }

  /** Stands for the library's sort by type. */
  function Sort(list: seq<Condition>): seq<Condition> {
    if list == [] then [] else Insert(list[|list| - 1], Sort(list[..|list| - 1]))
  }

  ghost predicate SameContent(a: Condition, b: Condition) {
    a.kind == b.kind && a.status == b.status && a.reason == b.reason && a.message == b.message
  }

  ghost predicate Distinct(list: seq<Condition>) {
    forall i, j :: 0 <= i < j < |list| ==> list[i].kind != list[j].kind
  }

  datatype Op = SetOp(cond: Condition, now: int) | RemoveOp(which: string) | MarshalOp {
    /** The operation is on this type. */
    predicate Of(kind: string) {
      match this
      case SetOp(c, _) => c.kind == kind
      case RemoveOp(k) => k == kind
      case MarshalOp => false
    }
  }

  function Run(ops: seq<Op>): seq<Condition> {
    if ops == [] then []
    else
      var before := Run(ops[..|ops| - 1]);
      match ops[|ops| - 1]
      case SetOp(c, now) => Set(before, c, now)
      case RemoveOp(kind) => Remove(before, kind)
      case MarshalOp => Sort(before)
  }

  // ---------------------------------------------------------------- a map by type

  ghost function Kinds(list: seq<Condition>): set<string> {
    set c | c in list :: c.kind
  }

  /** The list holds each type once and stands for the map `m`. */
  ghost predicate Refines(list: seq<Condition>, m: map<string, Condition>) {
    && Distinct(list)
    && m.Keys == Kinds(list)
    && forall i :: 0 <= i < |list| ==> list[i].kind in m && m[list[i].kind] == list[i]
  }

  lemma IndexIs(list: seq<Condition>, kind: string, i: nat)
    requires i < |list| && list[i].kind == kind && forall j :: 0 <= j < i ==> list[j].kind != kind
    ensures IndexOf(list, kind) == Some(i)
  {
    assert list[i] in list;
  }

  lemma IndexNone(list: seq<Condition>, kind: string)
    requires forall j :: 0 <= j < |list| ==> list[j].kind != kind
    ensures IndexOf(list, kind) == None
  {
  }

  /** The first condition of the type says this. */
  ghost predicate Tells(list: seq<Condition>, kind: string, status: string, reason: string, message: string) {
    var i := IndexOf(list, kind);
    i.Some? && SameContent(list[i.value], Condition(kind, status, reason, message, 0))
  }

  /** What is set is what is found. */
  lemma SetThenFound(list: seq<Condition>, c: Condition, now: int)
    ensures var i := IndexOf(Set(list, c, now), c.kind);
            i.Some? && SameContent(Set(list, c, now)[i.value], c)
  {
    match IndexOf(list, c.kind)
    case None =>
      assert forall j :: 0 <= j < |list| ==> list[j] in list;
      IndexIs(Set(list, c, now), c.kind, |list|);
    case Some(i) =>
      IndexIs(Set(list, c, now), c.kind, i);
  }

  /** What is found of other types is as before. */
  lemma SetElsewhere(list: seq<Condition>, c: Condition, now: int, kind: string)
    requires kind != c.kind
    ensures var i := IndexOf(list, kind);
            && IndexOf(Set(list, c, now), kind) == i
            && (i.Some? ==> Set(list, c, now)[i.value] == list[i.value])
  {
    match IndexOf(list, kind)
    case None =>
      assert forall j :: 0 <= j < |list| ==> list[j] in list;
      IndexNone(Set(list, c, now), kind);
    case Some(i) =>
      IndexIs(Set(list, c, now), kind, i);
  }

  lemma KindsAt(list: seq<Condition>, i: int)
    requires 0 <= i < |list|
    ensures list[i].kind in Kinds(list)
  {
    assert list[i] in list;
  }

  lemma KindsWithin(list: seq<Condition>, ks: set<string>)
    requires forall i :: 0 <= i < |list| ==> list[i].kind in ks
    ensures Kinds(list) <= ks
  {
  }

  lemma KindsUpdate(list: seq<Condition>, i: int, x: Condition)
    requires 0 <= i < |list| && x.kind == list[i].kind
    ensures Kinds(list[i := x]) == Kinds(list)
  {
    var list' := list[i := x];
    forall j | 0 <= j < |list| ensures list[j].kind in Kinds(list') && list'[j].kind in Kinds(list) {
      KindsAt(list', j);
      KindsAt(list, j);
    }
    KindsWithin(list, Kinds(list'));
    KindsWithin(list', Kinds(list));
  }

  lemma KindsRemove(list: seq<Condition>, i: int)
    requires 0 <= i < |list| && Distinct(list)
    ensures Kinds(list[..i] + list[i + 1..]) == Kinds(list) - {list[i].kind}
  {
    var list', kind := list[..i] + list[i + 1..], list[i].kind;
    forall j | 0 <= j < |list'| ensures list'[j].kind in Kinds(list) - {kind} {
      KindsAt(list, if j < i then j else j + 1);
      if j < i { assert list[j].kind != list[i].kind; } else { assert list[i].kind != list[j + 1].kind; }
    }
    forall j | 0 <= j < |list| ensures list[j].kind in Kinds(list') + {kind} {
      if j != i {
        KindsAt(list', if j < i then j else j - 1);
      }
    }
    KindsWithin(list', Kinds(list) - {kind});
    KindsWithin(list, Kinds(list') + {kind});
  }

  lemma ShiftDistinct(list: seq<Condition>, i: int)
    requires 0 <= i < |list| && Distinct(list)
    ensures Distinct(list[..i] + list[i + 1..])
  {
    var list' := list[..i] + list[i + 1..];
    forall j | 0 <= j < |list'| ensures list'[j] == list[if j < i then j else j + 1] { }
  }

  lemma SetRefines(list: seq<Condition>, m: map<string, Condition>, c: Condition, now: int)
    requires Refines(list, m)
    ensures Refines(Set(list, c, now),
                    m[c.kind := c.(time := if c.kind in m && m[c.kind].status == c.status then m[c.kind].time
                                           else now)])
  {
    var list' := Set(list, c, now);
    match IndexOf(list, c.kind)
    case None =>
      assert c.kind !in Kinds(list);
      assert Kinds(list') == Kinds(list) + {c.kind};
    case Some(i) =>
      KindsAt(list, i);
      KindsUpdate(list, i, list'[i]);
  }

  lemma RemoveAt(list: seq<Condition>, m: map<string, Condition>, i: nat)
    requires Refines(list, m) && i < |list|
    ensures Refines(list[..i] + list[i + 1..], m - {list[i].kind})
  {
    var list', kind := list[..i] + list[i + 1..], list[i].kind;
    KindsRemove(list, i);
    ShiftDistinct(list, i);
    assert (m - {kind}).Keys == Kinds(list');
    forall j | 0 <= j < |list'| ensures list'[j].kind in m - {kind} && (m - {kind})[list'[j].kind] == list'[j] {
      KindsAt(list', j);
      assert list'[j] == list[if j < i then j else j + 1];
    }
  }

  lemma RemoveRefines(list: seq<Condition>, m: map<string, Condition>, kind: string)
    requires Refines(list, m)
    ensures Refines(Remove(list, kind), m - {kind})
  {
    match IndexOf(list, kind)
    case None =>
      assert kind !in Kinds(list);
      assert m - {kind} == m;
    case Some(i) =>
      RemoveAt(list, m, i);
  }

  // ---------------------------------------------------------------- serialisation

  lemma {:induction false} LessTransitive(a: string, b: string, c: string)
    requires Less(a, b) && Less(b, c)
    ensures Less(a, c)
  {
    if a == [] || a[0] != b[0] || b[0] != c[0] {
    } else {
      LessTransitive(a[1..], b[1..], c[1..]);
    }
  }

  lemma {:induction false} LessTotal(a: string, b: string)
    requires !Less(a, b) && !Less(b, a)
    ensures a == b
  {
    if a == [] || b == [] {
    } else {
      LessTotal(a[1..], b[1..]);
      assert a == [a[0]] + a[1..] && b == [b[0]] + b[1..];
    }
  }

  lemma {:induction false} Irreflexive(a: string)
    ensures !Less(a, a)
  {
    if a == [] {
    } else {
      Irreflexive(a[1..]);
    }
  }

  /** The order of strings: the first difference decides, and a prefix comes first. */
  lemma {:induction false} LessDecided(common: string, a: string, b: string)
    requires b != [] && (a == [] || a[0] < b[0])
    ensures Less(common + a, common + b)
  {
    if common == [] {
      assert common + a == a && common + b == b;
    } else {
      LessDecided(common[1..], a, b);
      assert (common + a)[1..] == common[1..] + a && (common + b)[1..] == common[1..] + b;
    }
  }

  lemma NotBelow(a: string, b: string, c: string)
    requires Less(b, c) && !Less(a, c)
    ensures !Less(a, b)
  {
    if Less(a, b) {
      LessTransitive(a, b, c);
    }
  }

  ghost predicate Ordered(list: seq<Condition>) {
    list == [] || ((forall x :: x in list[1..] ==> !Less(x.kind, list[0].kind)) && Ordered(list[1..]))
  }

  lemma {:induction false} InsertHolds(c: Condition, list: seq<Condition>)
    ensures multiset(Insert(c, list)) == multiset(list) + multiset{c}
  {
    if list == [] || Less(c.kind, list[0].kind) {
      assert [c] + list == Insert(c, list);
    } else {
      InsertHolds(c, list[1..]);
      assert list == [list[0]] + list[1..];
    }
  }

  lemma {:induction false} InsertOrders(c: Condition, list: seq<Condition>)
    requires Ordered(list)
    ensures Ordered(Insert(c, list))
  {
    if list == [] {
    } else if Less(c.kind, list[0].kind) {
      assert ([c] + list)[1..] == list;
      forall x | x in list ensures !Less(x.kind, c.kind) {
        assert x == list[0] || x in list[1..];
        Irreflexive(list[0].kind);
        NotBelow(x.kind, c.kind, list[0].kind);
      }
    } else {
      InsertOrders(c, list[1..]);
      InsertHolds(c, list[1..]);
      var rest := Insert(c, list[1..]);
      assert ([list[0]] + rest)[1..] == rest;
      forall x | x in rest ensures !Less(x.kind, list[0].kind) {
        assert x in multiset(rest);
        assert x == c || x in list[1..];
      }
    }
  }

  lemma {:induction false} SortHolds(list: seq<Condition>)
    ensures multiset(Sort(list)) == multiset(list)
  {
    if list == [] {
    } else {
      var front, last := list[..|list| - 1], list[|list| - 1];
      SortHolds(front);
      InsertHolds(last, Sort(front));
      assert list == front + [last];
    }
  }

  lemma {:induction false} SortOrders(list: seq<Condition>)
    ensures Ordered(Sort(list))
  {
    if list == [] {
    } else {
      SortOrders(list[..|list| - 1]);
      InsertOrders(list[|list| - 1], Sort(list[..|list| - 1]));
    }
  }

  /** What sorting by type means: the same conditions, each as often, in order of their types. */
  lemma SortSorts(list: seq<Condition>)
    ensures multiset(Sort(list)) == multiset(list) && Ordered(Sort(list))
  {
    SortHolds(list);
    SortOrders(list);
  }

  lemma TwiceInMultiset(list: seq<Condition>, i: int, j: int)
    requires 0 <= i < j < |list|
    ensures list[i] == list[j] ==> multiset(list)[list[i]] >= 2
  {
    assert list[..j][i] == list[i] && list[i] in multiset(list[..j]);
    assert list == list[..j] + [list[j]] + list[j + 1..];
  }

  lemma OnceInMultiset(list: seq<Condition>, k: int)
    requires 0 <= k < |list| && Distinct(list)
    ensures multiset(list)[list[k]] == 1
  {
    assert list == list[..k] + [list[k]] + list[k + 1..];
    assert list[k] !in list[..k] && list[k] !in list[k + 1..];
  }

  /** Distinct types make the elements a set, so a permutation of the list is a set of the same
      conditions with distinct types. */
  lemma PermutationDistinct(list: seq<Condition>, list': seq<Condition>)
    requires Distinct(list) && multiset(list') == multiset(list)
    ensures Distinct(list') && forall c :: c in list' <==> c in list
  {
    assert forall c :: c in list' <==> c in multiset(list');
    assert forall c :: c in list <==> c in multiset(list);
    forall i, j | 0 <= i < j < |list'| ensures list'[i].kind != list'[j].kind {
      if list'[i].kind == list'[j].kind {
        TwiceInMultiset(list', i, j);
        assert list'[i] in list && list'[j] in list;
        var k :| 0 <= k < |list| && list[k] == list'[i];
        var l :| 0 <= l < |list| && list[l] == list'[j];
        assert k == l;
        OnceInMultiset(list, k);
      }
    }
  }

  lemma SameHead(a: seq<Condition>, b: seq<Condition>)
    requires a != [] && b != [] && Ordered(a) && Ordered(b) && Distinct(a) && forall c :: c in a <==> c in b
    ensures a[0] == b[0]
  {
    assert a[0] in b && b[0] in a;
    assert a == [a[0]] + a[1..] && b == [b[0]] + b[1..];
    if a[0] != b[0] {
      LessTotal(a[0].kind, b[0].kind);
      assert false;
    }
  }

  lemma TailElements(a: seq<Condition>)
    requires a != [] && Distinct(a)
    ensures Distinct(a[1..]) && forall c :: c in a[1..] <==> c in a && c != a[0]
  {
    assert a == [a[0]] + a[1..];
  }

  lemma {:induction false} OrderedIsUnique(a: seq<Condition>, b: seq<Condition>)
    requires Ordered(a) && Ordered(b) && Distinct(a) && Distinct(b) && forall c :: c in a <==> c in b
    ensures a == b
  {
    assert (a != [] ==> a[0] in b) && (b != [] ==> b[0] in a);
    if a == [] {
    } else {
      SameHead(a, b);
      TailElements(a);
      TailElements(b);
      OrderedIsUnique(a[1..], b[1..]);
      assert a == [a[0]] + a[1..] && b == [b[0]] + b[1..];
    }
  }

  /** Two lists of distinct types that hold the same conditions serialise alike: the order of
      past operations never shows. */
  lemma MarshalIsCanonical(a: seq<Condition>, b: seq<Condition>)
    requires Distinct(a) && Distinct(b) && forall c :: c in a <==> c in b
    ensures Sort(a) == Sort(b)
  {
    SortSorts(a);
    SortSorts(b);
    PermutationDistinct(a, Sort(a));
    PermutationDistinct(b, Sort(b));
    OrderedIsUnique(Sort(a), Sort(b));
  }

  /** Serialising reorders the stored list itself, but not the map it stands for. */
  lemma MarshalKeepsMap(list: seq<Condition>, m: map<string, Condition>)
    requires Refines(list, m)
    ensures Refines(Sort(list), m)
  {
    SortSorts(list);
    PermutationDistinct(list, Sort(list));
    assert Kinds(Sort(list)) == Kinds(list);
    forall i | 0 <= i < |Sort(list)| ensures Sort(list)[i].kind in m && m[Sort(list)[i].kind] == Sort(list)[i] {
      assert Sort(list)[i] in list;
    }
  }

  // ---------------------------------------------------------------- history

  /** The same operations on a map. */
  ghost function MapRun(ops: seq<Op>): map<string, Condition> {
    if ops == [] then map[]
    else
      var m := MapRun(ops[..|ops| - 1]);
      match ops[|ops| - 1]
      case SetOp(c, now) =>
        m[c.kind := c.(time := if c.kind in m && m[c.kind].status == c.status then m[c.kind].time else now)]
      case RemoveOp(kind) => m - {kind}
      case MarshalOp => m
  }

  /** From the empty set, every run, with the list written out at any time in between, keeps types
      distinct and behaves as the map. */
  lemma {:induction false} RunRefinesMap(ops: seq<Op>)
    ensures Refines(Run(ops), MapRun(ops))
  {
    if ops == [] {
    } else {
      RunRefinesMap(ops[..|ops| - 1]);
      var list, m := Run(ops[..|ops| - 1]), MapRun(ops[..|ops| - 1]);
      match ops[|ops| - 1] {
        case SetOp(c, now) => SetRefines(list, m, c, now);
        case RemoveOp(kind) => RemoveRefines(list, m, kind);
        case MarshalOp => MarshalKeepsMap(list, m);
      }
    }
  }

  /** Operation p is the last one on this type before position k. */
  ghost predicate JustBefore(ops: seq<Op>, kind: string, p: int, k: int) {
    0 <= p < k <= |ops| && ops[p].Of(kind) && forall j :: p < j < k ==> !ops[j].Of(kind)
  }

  /** Operation k began the latest unbroken stretch of same-status calls for a type: every
      later call on the type sets that status too, and the call before k, if any, removed the
      condition or set another status. */
  ghost predicate BeginsStretch(ops: seq<Op>, kind: string, k: int) {
    && 0 <= k < |ops| && ops[k].SetOp? && ops[k].Of(kind)
    && (forall j :: k <= j < |ops| && ops[j].Of(kind) ==> ops[j].SetOp? && ops[j].cond.status == ops[k].cond.status)
    && (forall p :: JustBefore(ops, kind, p, k) ==> ops[p].RemoveOp? || ops[p].cond.status != ops[k].cond.status)
  }

  lemma StretchExtends(front: seq<Op>, op: Op, kind: string, k: int)
    requires BeginsStretch(front, kind, k)
    requires !op.Of(kind) || (op.SetOp? && op.cond.status == front[k].cond.status)
    ensures BeginsStretch(front + [op], kind, k)
  {
    var ops := front + [op];
    forall p | JustBefore(ops, kind, p, k) ensures ops[p].RemoveOp? || ops[p].cond.status != ops[k].cond.status {
      forall j | p < j < k ensures !front[j].Of(kind) { assert ops[j] == front[j]; }
      assert JustBefore(front, kind, p, k);
    }
  }

  /** A type is present exactly when the last operation on it set it, and then it holds that
      call's status, reason and message. */
  lemma {:induction false} StoredIsLastSet(ops: seq<Op>, kind: string)
    ensures kind in MapRun(ops) <==> exists p :: JustBefore(ops, kind, p, |ops|) && ops[p].SetOp?
    ensures forall p :: JustBefore(ops, kind, p, |ops|) && ops[p].SetOp? ==>
              kind in MapRun(ops) && SameContent(MapRun(ops)[kind], ops[p].cond)
  {
    if ops == [] {
    } else {
      var front, n := ops[..|ops| - 1], |ops| - 1;
      StoredIsLastSet(front, kind);
      assert ops == front + [ops[n]];
      if ops[n].Of(kind) {
        assert JustBefore(ops, kind, n, |ops|);
      } else {
        forall p ensures JustBefore(ops, kind, p, |ops|) <==> JustBefore(front, kind, p, n) {
          if JustBefore(front, kind, p, n) {
            assert forall j :: p < j < n ==> ops[j] == front[j];
          }
          if JustBefore(ops, kind, p, |ops|) {
            assert forall j :: p < j < n ==> front[j] == ops[j];
          }
        }
      }
    }
  }

  /** The stored transition time is the clock reading of the call that began the latest
      unbroken stretch of same-status calls. */
  lemma {:induction false} TransitionTime(ops: seq<Op>, kind: string) returns (k: int)
    requires kind in MapRun(ops)
    ensures BeginsStretch(ops, kind, k)
    ensures MapRun(ops)[kind].time == ops[k].now && MapRun(ops)[kind].status == ops[k].cond.status
  {
    var n := |ops| - 1;
    var front, op := ops[..n], ops[n];
    assert ops == front + [op];
    if !op.Of(kind) {
      k := TransitionTime(front, kind);
      StretchExtends(front, op, kind, k);
    } else if kind in MapRun(front) && MapRun(front)[kind].status == op.cond.status {
      k := TransitionTime(front, kind);
      StretchExtends(front, op, kind, k);
    } else {
      k := n;
      forall p | JustBefore(ops, kind, p, n) ensures ops[p].RemoveOp? || ops[p].cond.status != op.cond.status {
        assert JustBefore(front, kind, p, n) by {
          assert forall j :: p < j < n ==> front[j] == ops[j];
        }
        StoredIsLastSet(front, kind);
      }
    }
  }

  lemma LastBefore(ops: seq<Op>, kind: string, from: int, k: int) returns (p: int)
    requires 0 <= from < k <= |ops| && ops[from].Of(kind)
    ensures from <= p && JustBefore(ops, kind, p, k)
  {
    p := k - 1;
    while !ops[p].Of(kind)
      decreases p
      invariant from <= p < k && forall j :: p < j < k ==> !ops[j].Of(kind)
    {
      p := p - 1;
    }
  }

  lemma StretchIsUnique(ops: seq<Op>, kind: string, k: int, k': int)
    requires BeginsStretch(ops, kind, k) && BeginsStretch(ops, kind, k')
    ensures k == k'
  {
    if k < k' {
      var p := LastBefore(ops, kind, k, k');
    } else if k' < k {
      var p := LastBefore(ops, kind, k', k);
    }
  }

  /** The history of one stored condition over any run from the empty set. */
  lemma ConditionHistory(ops: seq<Op>, c: Condition)
    requires c in Run(ops)
    ensures exists k :: BeginsStretch(ops, c.kind, k) && c.time == ops[k].now && c.status == ops[k].cond.status
    ensures forall k :: BeginsStretch(ops, c.kind, k) ==> c.time == ops[k].now
  {
    RunRefinesMap(ops);
    var k := TransitionTime(ops, c.kind);
    forall k' | BeginsStretch(ops, c.kind, k') ensures c.time == ops[k'].now {
      StretchIsUnique(ops, c.kind, k, k');
    }
  }

  // ---------------------------------------------------------------- the mutable list

  class ConditionList {
    var list: seq<Condition>

    /** False exactly when status, reason and message are already stored; then, and only
        then, the list stays as it is. */
    method SetCondition(newCond: Condition, now: int) returns (changed: bool)
      modifies this
      ensures list == Set(old(list), newCond, now)
      ensures !changed <==> match IndexOf(old(list), newCond.kind)
                            case None => false
                            case Some(i) => SameContent(old(list)[i], newCond)
      ensures changed <==> list != old(list)
    {
      var stamped := newCond.(time := now);
      for i := 0 to |list|
        invariant list == old(list) && forall j :: 0 <= j < i ==> list[j].kind != newCond.kind
      {
        var condition := list[i];
        if condition.kind == newCond.kind {
          if condition.status == newCond.status {
            stamped := stamped.(time := condition.time);
          }
          changed := condition.status != newCond.status || condition.reason != newCond.reason
                     || condition.message != newCond.message;
          assert IndexOf(list, newCond.kind) == Some(i) && condition in list;
          list := list[i := stamped];
          assert list[i] == stamped;
          return;
        }
      }
      list := list + [stamped];
      return true;
    }

    /** NewConditions: later conditions replace earlier ones of the same type. `times` are the
        clock readings. */
    constructor (conds: seq<Condition>, times: seq<int>)
      requires |times| == |conds|
      ensures list == Run(seq(|conds|, i requires 0 <= i < |conds| => SetOp(conds[i], times[i])))
    {
      list := [];
      new;
      ghost var ops := seq(|conds|, i requires 0 <= i < |conds| => SetOp(conds[i], times[i]));
      for i := 0 to |conds|
        invariant list == Run(ops[..i])
      {
        assert ops[..i + 1][..i] == ops[..i];
        var _ := SetCondition(conds[i], times[i]);
      }
      assert ops[..|conds|] == ops;
    }

    method RemoveCondition(kind: string) returns (removed: bool)
      modifies this
      ensures list == Remove(old(list), kind)
      ensures removed <==> exists c :: c in old(list) && c.kind == kind
    {
      for i := 0 to |list|
        invariant list == old(list) && forall j :: 0 <= j < i ==> list[j].kind != kind
      {
        if list[i].kind == kind {
          assert IndexOf(list, kind) == Some(i) && list[i] in list;
          list := list[..i] + list[i + 1..];
          return true;
        }
      }
      return false;
    }

    /** The list is sorted in place before it is written out. */
    method MarshalJSON() returns (json: seq<Condition>)
      modifies this
      ensures json == list == Sort(old(list))
      ensures multiset(list) == multiset(old(list)) && Ordered(list)
    {
      SortSorts(list);
      list := Sort(list);
      return list;
    }

    method GetCondition(kind: string) returns (c: Option<Condition>)
      ensures c == match IndexOf(list, kind) case None => None case Some(i) => Some(list[i])
    {
      for i := 0 to |list|
        invariant forall j :: 0 <= j < i ==> list[j].kind != kind
      {
        if list[i].kind == kind {
          assert IndexOf(list, kind) == Some(i);
          return Some(list[i]);
        }
      }
      return None;
    }

    /** IsTrueFor and IsFalseFor: no condition of the type counts as false. */
    method HasStatus(kind: string, status: string) returns (yes: bool)
      ensures Distinct(list) ==> (yes <==> exists c :: c in list && c.kind == kind && c.status == status)
    {
      var c := GetCondition(kind);
      return c.Some? && c.value.status == status;
    }

    /** IsUnknownFor: no condition of the type counts as true. */
    method IsUnknownFor(kind: string) returns (yes: bool)
      ensures Distinct(list) ==> (yes <==> forall c :: c in list && c.kind == kind ==> c.status == "Unknown")
    {
      var c := GetCondition(kind);
      return c.None? || c.value.status == "Unknown";
    }
  }

  // ---------------------------------------------------------------- pod conditions

  datatype PodCondition = PodCondition(kind: string, status: string, reason: string, message: string,
                                       probed: int, transition: int)

  /** The first condition of the type is replaced; without one the new condition is appended. */
  function SetPod(list: seq<PodCondition>, c: PodCondition, now: int): seq<PodCondition> {
    if list == [] then [c.(transition := now)]
    else if list[0].kind == c.kind then
      [c.(transition := if list[0].status == c.status then list[0].transition else now)] + list[1..]
    else [list[0]] + SetPod(list[1..], c, now)
  }

  lemma {:induction false} SetPodAt(list: seq<PodCondition>, c: PodCondition, now: int, i: nat)
    requires i <= |list| && forall j :: 0 <= j < i ==> list[j].kind != c.kind
    ensures i == |list| ==> SetPod(list, c, now) == list + [c.(transition := now)]
    ensures i < |list| && list[i].kind == c.kind ==>
              SetPod(list, c, now)
              == list[i := c.(transition := if list[i].status == c.status then list[i].transition else now)]
  {
    if i == 0 {
    } else {
      SetPodAt(list[1..], c, now, i - 1);
      assert list == [list[0]] + list[1..];
    }
  }

  /** The first pod condition of the type says this. */
  ghost predicate PodTells(list: seq<PodCondition>, kind: string, status: string, reason: string, message: string) {
    exists i :: 0 <= i < |list| && list[i].kind == kind && list[i].status == status && list[i].reason == reason
                && list[i].message == message && forall j :: 0 <= j < i ==> list[j].kind != kind
  }

  lemma {:induction false} SetPodTells(list: seq<PodCondition>, c: PodCondition, now: int)
    ensures PodTells(SetPod(list, c, now), c.kind, c.status, c.reason, c.message)
  {
    var list' := SetPod(list, c, now);
    if list == [] || list[0].kind == c.kind {
      assert list'[0].kind == c.kind;
    } else {
      SetPodTells(list[1..], c, now);
      var rest := SetPod(list[1..], c, now);
      var i :| 0 <= i < |rest| && rest[i].kind == c.kind && rest[i].status == c.status && rest[i].reason == c.reason
               && rest[i].message == c.message && forall j :: 0 <= j < i ==> rest[j].kind != c.kind;
      assert list'[i + 1] == rest[i] && forall j :: 0 < j < i + 1 ==> list'[j] == rest[j - 1];
    }
  }

  class PodStatus {
    var conditions: seq<PodCondition>

    constructor (conditions: seq<PodCondition>)
      ensures this.conditions == conditions
    {
      this.conditions := conditions;
    }

    /** The pod is written back only if this returns true, and it returns true exactly when
        the list has changed. The transition time moves only with the status. */
    method UpdatePodCondition(condition: PodCondition, now: int) returns (changed: bool)
      modifies this
      ensures conditions == SetPod(old(conditions), condition, now)
      ensures changed <==> conditions != old(conditions)
    {
      for i := 0 to |conditions|
        invariant conditions == old(conditions) && forall j :: 0 <= j < i ==> conditions[j].kind != condition.kind
      {
        var oldCondition := conditions[i];
        if oldCondition.kind == condition.kind {
          var stamped := condition.(transition := now);
          if condition.status == oldCondition.status {
            stamped := stamped.(transition := oldCondition.transition);
          }
          var isEqual := && stamped.status == oldCondition.status && stamped.reason == oldCondition.reason
                         && stamped.message == oldCondition.message && stamped.probed == oldCondition.probed
                         && stamped.transition == oldCondition.transition;
          SetPodAt(conditions, condition, now, i);
          conditions := conditions[i := stamped];
          assert conditions[i] == stamped;
          return !isEqual;
        }
      }
      SetPodAt(conditions, condition, now, |conditions|);
      conditions := conditions + [condition.(transition := now)];
      return true;
    }
  }
}
