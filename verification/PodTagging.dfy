/**
 Tagging a pod for tracking (client.go): the JSON patch the driver builds from the pod it has
 read, applied by the rules of RFC 6902 (JSON Patch, section 4.1, "add") and RFC 6901 (JSON
 Pointer, sections 3 and 4).
 */
module PodTagging {
  import opened Wrappers
  import NodeCheck
  import PodSelector

  /** The names the patch uses. The lemmas hold for any proper ones. */
  datatype Tagging = Tagging(metadata: string, labels: string, annotations: string,
                             watchKey: string, watchValue: string, pathKey: string)

  const DRIVER_TAGGING := Tagging("metadata", "labels", "annotations",
                                  "csi.marketplace.redhat.com/watch", "enabled", "csi.marketplace.redhat.com/dspath")

  predicate PlainName(name: string) {
    '/' !in name && '~' !in name
  }

  predicate Proper(t: Tagging) {
    && PlainName(t.metadata) && PlainName(t.labels) && PlainName(t.annotations) && t.labels != t.annotations
    && '~' !in t.watchKey && '~' !in t.pathKey
  }

  lemma DriverNamesAreProper()
    ensures Proper(DRIVER_TAGGING)
  {
    assert DRIVER_TAGGING.labels[0] != DRIVER_TAGGING.annotations[0];
  }

  datatype Json = Str(value: string) | Obj(fields: map<string, Json>)

  datatype PatchOperation = Add(path: string, value: Json)

  // ---------------------------------------------------------------- JSON pointers

  /** strings.ReplaceAll(key, "/", "~1"). */
  function EscapeSlash(key: string): string {
    if key == [] then []
    else (if key[0] == '/' then "~1" else [key[0]]) + EscapeSlash(key[1..])
  }

  /** One reference token: "~1" stands for "/", "~0" for "~", any other "~" is an error. */
  function Unescape(token: string): Option<string> {
    if token == [] then Some([])
    else if token[0] != '~' then
      match Unescape(token[1..]) case None => None case Some(t) => Some([token[0]] + t)
    else if |token| == 1 || (token[1] != '0' && token[1] != '1') then None
    else
      match Unescape(token[2..])
      case None => None
      case Some(t) => Some([if token[1] == '0' then '~' else '/'] + t)
  }

  /** The text up to the next "/" and the text from it on. */
  function FirstToken(s: string): (r: (string, string))
    ensures s == r.0 + r.1 && (r.1 == [] || r.1[0] == '/')
  {
    if s == [] || s[0] == '/' then ([], s)
    else var (t, rest) := FirstToken(s[1..]); ([s[0]] + t, rest)
  }

  function Parse(pointer: string): Option<seq<string>>
    decreases |pointer|
  {
    if pointer == [] then Some([])
    else if pointer[0] != '/' then None
    else
      var (t, rest) := FirstToken(pointer[1..]);
      match (Unescape(t), Parse(rest))
      case (Some(token), Some(tokens)) => Some([token] + tokens)
      case _ => None
  }

  /** Section 4.1 of RFC 6902: the parent must exist; an existing member is replaced. */
  function AddAt(doc: Json, tokens: seq<string>, value: Json): Option<Json> {
    if tokens == [] then Some(value)
    else if !doc.Obj? then None
    else if |tokens| == 1 then Some(Obj(doc.fields[tokens[0] := value]))
    else if tokens[0] !in doc.fields then None
    else
      match AddAt(doc.fields[tokens[0]], tokens[1..], value)
      case None => None
      case Some(inner) => Some(Obj(doc.fields[tokens[0] := inner]))
  }

  function Apply(doc: Json, patch: seq<PatchOperation>): Option<Json>
    decreases |patch|
  {
    if patch == [] then Some(doc)
    else
      match Parse(patch[0].path)
      case None => None
      case Some(tokens) =>
        match AddAt(doc, tokens, patch[0].value)
        case None => None
        case Some(doc') => Apply(doc', patch[1..])
  }

  // ---------------------------------------------------------------- the escaping round trip

  function Tildes(s: string): nat {
    if s == [] then 0 else (if s[0] == '~' then 1 else 0) + Tildes(s[1..])
  }

  lemma {:induction false} NoTildes(s: string)
    ensures Tildes(s) == 0 <==> '~' !in s
  {
    if s == [] {
    } else {
      NoTildes(s[1..]);
    }
  }

  /** Decoding an escaped key loses one character for every "~" the key itself contains. */
  lemma {:induction false} UnescapedLength(key: string)
    ensures Unescape(EscapeSlash(key)).Some? ==> |Unescape(EscapeSlash(key)).value| + Tildes(key) == |key|
    ensures Tildes(key) == 0 ==> Unescape(EscapeSlash(key)) == Some(key)
  {
    if key == [] {
    } else {
      var rest := key[1..];
      if key[0] == '/' {
        UnescapedLength(rest);
        assert EscapeSlash(key)[2..] == EscapeSlash(rest);
        assert key == [key[0]] + rest;
      } else if key[0] != '~' {
        UnescapedLength(rest);
        assert EscapeSlash(key)[1..] == EscapeSlash(rest);
        assert key == [key[0]] + rest;
      } else if rest != [] && rest[0] != '/' {
        UnescapedLength(rest[1..]);
        assert EscapeSlash(key) == [key[0]] + ([rest[0]] + EscapeSlash(rest[1..]));
        assert EscapeSlash(key)[2..] == EscapeSlash(rest[1..]);
      } else if rest != [] {
        assert EscapeSlash(key) == [key[0]] + ("~1" + EscapeSlash(rest[1..]));
        assert EscapeSlash(key)[1] == '~';
      }
    }
  }

  /** Replacing "/" alone decodes back exactly for the keys without "~". */
  lemma EscapeRoundTrip(key: string)
    ensures Unescape(EscapeSlash(key)) == Some(key) <==> '~' !in key
  {
    UnescapedLength(key);
    NoTildes(key);
  }

  lemma {:induction false} FirstTokenOf(t: string, rest: string)
    requires '/' !in t && (rest == [] || rest[0] == '/')
    ensures FirstToken(t + rest) == (t, rest)
  {
    var s := t + rest;
    if t == [] {
      assert s == rest;
    } else {
      assert s[0] == t[0] && s[0] != '/';
      assert s[1..] == t[1..] + rest;
      FirstTokenOf(t[1..], rest);
      assert FirstToken(s) == ([s[0]] + FirstToken(s[1..]).0, FirstToken(s[1..]).1);
      assert [t[0]] + t[1..] == t;
    }
  }

  lemma {:induction false} EscapedHasNoSlash(key: string)
    ensures '/' !in EscapeSlash(key)
  {
    if key == [] {
    } else {
      EscapedHasNoSlash(key[1..]);
    }
  }

  lemma {:induction false} UnescapePlain(t: string)
    requires '~' !in t
    ensures Unescape(t) == Some(t)
  {
    if t == [] {
    } else {
      UnescapePlain(t[1..]);
      assert t == [t[0]] + t[1..];
    }
  }

  lemma ParseOne(t: string, rest: string)
    requires '/' !in t && (rest == [] || rest[0] == '/')
    ensures Parse("/" + t + rest) == match (Unescape(t), Parse(rest))
                                     case (Some(token), Some(tokens)) => Some([token] + tokens)
                                     case _ => None
  {
    FirstTokenOf(t, rest);
    assert ("/" + t + rest)[1..] == t + rest;
  }

  // ---------------------------------------------------------------- the patch

  /** The parts of a pod a patch can meet: an absent or empty map has no member at all. */
  datatype PodMeta = PodMeta(labels: map<string, string>, annotations: map<string, string>, others: map<string, Json>)

  function Strings(m: map<string, string>): Json {
    Obj(map k | k in m :: Str(m[k]))
  }

  predicate Sane(t: Tagging, pod: PodMeta) {
    t.labels !in pod.others && t.annotations !in pod.others
  }

  function Member(name: string, m: map<string, string>): map<string, Json> {
    if m == map[] then map[] else map[name := Strings(m)]
  }

  function Document(t: Tagging, pod: PodMeta, rest: map<string, Json>): Json {
    Obj(rest[t.metadata := Obj(pod.others + Member(t.labels, pod.labels) + Member(t.annotations, pod.annotations))])
  }

  function PatchFor(root: string, name: string, m: map<string, string>, key: string, value: string): PatchOperation {
    if |m| > 0 then Add("/" + root + ("/" + name) + ("/" + EscapeSlash(key)), Str(value))
    else Add("/" + root + ("/" + name), Strings(map[key := value]))
  }

  function PatchOf(t: Tagging, read: PodMeta, targetPath: string): seq<PatchOperation> {
    [PatchFor(t.metadata, t.labels, read.labels, t.watchKey, t.watchValue),
     PatchFor(t.metadata, t.annotations, read.annotations, t.pathKey, targetPath)]
  }

  /** The patch part of TagPodForTracking. */
  method BuildPatch(t: Tagging, pod: PodMeta, targetPath: string) returns (patch: seq<PatchOperation>)
    ensures patch == PatchOf(t, pod, targetPath)
  {
    patch := [];
    if |pod.labels| > 0 {
      patch := patch + [Add("/" + t.metadata + ("/" + t.labels) + ("/" + EscapeSlash(t.watchKey)), Str(t.watchValue))];
    } else {
      patch := patch + [Add("/" + t.metadata + ("/" + t.labels), Strings(map[t.watchKey := t.watchValue]))];
    }
    if |pod.annotations| > 0 {
      patch := patch
               + [Add("/" + t.metadata + ("/" + t.annotations) + ("/" + EscapeSlash(t.pathKey)), Str(targetPath))];
    } else {
      patch := patch + [Add("/" + t.metadata + ("/" + t.annotations), Strings(map[t.pathKey := targetPath]))];
    }
  }

  lemma Concat3(a: string, b: string, c: string)
    ensures (a + b) + c == a + (b + c)
  {
  }

  lemma ParsePlain(name: string, rest: string)
    requires PlainName(name) && (rest == [] || rest[0] == '/')
    ensures Parse("/" + name + rest) == match Parse(rest) case None => None case Some(tokens) => Some([name] + tokens)
  {
    ParseOne(name, rest);
    UnescapePlain(name);
  }

  lemma PathTokens(root: string, name: string, key: string)
    requires PlainName(root) && PlainName(name) && '~' !in key
    ensures Parse("/" + root + ("/" + name)) == Some([root, name])
    ensures Parse("/" + root + ("/" + name) + ("/" + EscapeSlash(key))) == Some([root, name, key])
  {
    var escaped := EscapeSlash(key);
    var last := "/" + escaped;
    EscapedHasNoSlash(key);
    EscapeRoundTrip(key);
    ParseOne(escaped, "");
    assert "/" + escaped + "" == last;
    assert Parse(last) == Some([key] + []);
    ParsePlain(name, "");
    assert "/" + name + "" == "/" + name;
    assert Parse("/" + name) == Some([name] + []);
    ParsePlain(name, last);
    ParsePlain(root, "/" + name);
    ParsePlain(root, "/" + name + last);
    Concat3("/" + root, "/" + name, last);
    assert [root] + ([name] + []) == [root, name];
    assert [root] + ([name] + ([key] + [])) == [root, name, key];
  }

  /** One operation, built from the map `read`, applied to metadata that by now holds `now`:
      the fields it yields, if it applies. */
  function Result(read: map<string, string>, now: map<string, string>, key: string,
                  value: string): Option<map<string, string>> {
    if read == map[] then Some(map[key := value])
    else if now == map[] then None
    else Some(now[key := value])
  }

  lemma StringsUpdate(m: map<string, string>, key: string, value: string)
    ensures Strings(m).fields[key := Str(value)] == Strings(m[key := value]).fields
  {
  }

  lemma NonEmpty(m: map<string, string>)
    ensures |m| > 0 <==> m != map[]
  {
    if m != map[] {
      assert m.Keys != {};
      assert |m| == |m.Keys|;
    }
  }

  lemma AddToMember(meta: map<string, Json>, name: string, key: string, m: map<string, string>, value: string)
    requires name in meta ==> meta[name] == Strings(m)
    ensures AddAt(Obj(meta), [name, key], Str(value))
            == if name in meta then Some(Obj(meta[name := Strings(m[key := value])])) else None
  {
    assert [name, key][1..] == [key];
    StringsUpdate(m, key, value);
  }

  lemma AddBelow(root: string, meta: map<string, Json>, rest: map<string, Json>, tokens: seq<string>, value: Json)
    requires tokens != []
    ensures AddAt(Obj(rest[root := Obj(meta)]), [root] + tokens, value)
            == match AddAt(Obj(meta), tokens, value)
               case None => None
               case Some(inner) => Some(Obj(rest[root := inner]))
  {
    assert ([root] + tokens)[1..] == tokens;
    match AddAt(Obj(meta), tokens, value)
    case None =>
    case Some(inner) => assert rest[root := Obj(meta)][root := inner] == rest[root := inner];
  }

  lemma ApplyOne(doc: Json, op: PatchOperation)
    ensures Apply(doc, [op]) == match Parse(op.path) case None => None case Some(tokens) => AddAt(doc, tokens, op.value)
  {
    assert [op][1..] == [];
  }

  /** Metadata whose other members do not depend on the one being patched. */
  function With(others: map<string, Json>, name: string, m: map<string, string>): map<string, Json> {
    others + Member(name, m)
  }

  lemma AddWhole(name: string, now: map<string, string>, m: map<string, string>, others: map<string, Json>)
    requires name !in others && m != map[]
    ensures AddAt(Obj(With(others, name, now)), [name], Strings(m)) == Some(Obj(With(others, name, m)))
  {
    assert With(others, name, now)[name := Strings(m)] == With(others, name, m);
  }

  lemma AddMember(name: string, now: map<string, string>, key: string, value: string, others: map<string, Json>)
    requires name !in others
    ensures AddAt(Obj(With(others, name, now)), [name, key], Str(value))
            == if now == map[] then None else Some(Obj(With(others, name, now[key := value])))
  {
    AddToMember(With(others, name, now), name, key, now, value);
    assert key in now[key := value];
    if now != map[] {
      assert With(others, name, now)[name := Strings(now[key := value])] == With(others, name, now[key := value]);
    }
  }

  function DocWith(root: string, rest: map<string, Json>, others: map<string, Json>, name: string,
                   m: map<string, string>): Json {
    Obj(rest[root := Obj(With(others, name, m))])
  }

  lemma OneOperation(root: string, name: string, read: map<string, string>, now: map<string, string>, key: string,
                     value: string, others: map<string, Json>, rest: map<string, Json>)
    requires PlainName(root) && PlainName(name) && '~' !in key && name !in others
    ensures Apply(DocWith(root, rest, others, name, now), [PatchFor(root, name, read, key, value)])
            == match Result(read, now, key, value)
               case None => None
               case Some(m) => Some(DocWith(root, rest, others, name, m))
  {
    var op := PatchFor(root, name, read, key, value);
    PathTokens(root, name, key);
    NonEmpty(read);
    ApplyOne(DocWith(root, rest, others, name, now), op);
    if read == map[] {
      assert Parse(op.path) == Some([root] + [name]);
      AddBelow(root, With(others, name, now), rest, [name], op.value);
      assert key in map[key := value];
      AddWhole(name, now, map[key := value], others);
    } else {
      assert Parse(op.path) == Some([root] + [name, key]);
      AddBelow(root, With(others, name, now), rest, [name, key], op.value);
      AddMember(name, now, key, value, others);
    }
  }

  lemma ApplyTwo(doc: Json, a: PatchOperation, b: PatchOperation)
    ensures Apply(doc, [a, b]) == match Apply(doc, [a]) case None => None case Some(d) => Apply(d, [b])
  {
    assert [a, b][1..] == [b] && [a][1..] == [];
    match Parse(a.path)
    case None =>
    case Some(tokens) =>
      match AddAt(doc, tokens, a.value)
      case None =>
      case Some(d) => assert Apply(d, []) == Some(d);
  }

  lemma Reorder(t: Tagging, pod: PodMeta)
    requires Proper(t) && Sane(t, pod)
    ensures pod.others + Member(t.labels, pod.labels) + Member(t.annotations, pod.annotations)
         == With(pod.others + Member(t.labels, pod.labels), t.annotations, pod.annotations)
         == With(pod.others + Member(t.annotations, pod.annotations), t.labels, pod.labels)
  {
  }

  lemma LabelsOperation(t: Tagging, read: map<string, string>, now: PodMeta, rest: map<string, Json>)
    requires Proper(t) && Sane(t, now)
    ensures Apply(Document(t, now, rest), [PatchFor(t.metadata, t.labels, read, t.watchKey, t.watchValue)])
            == match Result(read, now.labels, t.watchKey, t.watchValue)
               case None => None
               case Some(ls) => Some(Document(t, now.(labels := ls), rest))
  {
    var others := now.others + Member(t.annotations, now.annotations);
    Reorder(t, now);
    OneOperation(t.metadata, t.labels, read, now.labels, t.watchKey, t.watchValue, others, rest);
    if ls :| Result(read, now.labels, t.watchKey, t.watchValue) == Some(ls) {
      Reorder(t, now.(labels := ls));
    }
  }

  lemma AnnotationsOperation(t: Tagging, read: map<string, string>, now: PodMeta, rest: map<string, Json>,
                             targetPath: string)
    requires Proper(t) && Sane(t, now)
    ensures Apply(Document(t, now, rest), [PatchFor(t.metadata, t.annotations, read, t.pathKey, targetPath)])
            == match Result(read, now.annotations, t.pathKey, targetPath)
               case None => None
               case Some(xs) => Some(Document(t, now.(annotations := xs), rest))
  {
    var others := now.others + Member(t.labels, now.labels);
    Reorder(t, now);
    OneOperation(t.metadata, t.annotations, read, now.annotations, t.pathKey, targetPath, others, rest);
    if xs :| Result(read, now.annotations, t.pathKey, targetPath) == Some(xs) {
      Reorder(t, now.(annotations := xs));
    }
  }

  /** The patch built from one reading of the pod, applied to the pod as it is by then: its
      two maps change as `Result` says, both or not at all, and nothing else does. */
  lemma PatchEffect(t: Tagging, read: PodMeta, now: PodMeta, rest: map<string, Json>, targetPath: string)
    requires Proper(t) && Sane(t, now)
    ensures Apply(Document(t, now, rest), PatchOf(t, read, targetPath))
            == match (Result(read.labels, now.labels, t.watchKey, t.watchValue),
                      Result(read.annotations, now.annotations, t.pathKey, targetPath))
               case (Some(ls), Some(xs)) => Some(Document(t, now.(labels := ls, annotations := xs), rest))
               case _ => None
  {
    var a := PatchFor(t.metadata, t.labels, read.labels, t.watchKey, t.watchValue);
    var b := PatchFor(t.metadata, t.annotations, read.annotations, t.pathKey, targetPath);
    ApplyTwo(Document(t, now, rest), a, b);
    LabelsOperation(t, read.labels, now, rest);
    if ls :| Result(read.labels, now.labels, t.watchKey, t.watchValue) == Some(ls) {
      AnnotationsOperation(t, read.annotations, now.(labels := ls), rest, targetPath);
    }
  }

  function Tagged(t: Tagging, pod: PodMeta, targetPath: string): PodMeta {
    pod.(labels := pod.labels[t.watchKey := t.watchValue], annotations := pod.annotations[t.pathKey := targetPath])
  }

  /** A pod that has not changed since it was read gets exactly the watch label and the path
      annotation, whether or not it had any labels or annotations before. */
  lemma TagUnchangedPod(t: Tagging, pod: PodMeta, rest: map<string, Json>, targetPath: string)
    requires Proper(t) && Sane(t, pod)
    ensures Apply(Document(t, pod, rest), PatchOf(t, pod, targetPath))
            == Some(Document(t, Tagged(t, pod, targetPath), rest))
  {
    PatchEffect(t, pod, pod, rest, targetPath);
  }

  /** A running pod of the node that has been tagged is one the node's checks select, at that path. */
  lemma TaggedPodIsTracked(pod: PodSelector.Pod, read: PodMeta, targetPath: string, nodeName: string)
    requires pod.node == nodeName && pod.phase == "Running"
    requires pod.labels == Tagged(DRIVER_TAGGING, read, targetPath).labels
    requires pod.annotations == Tagged(DRIVER_TAGGING, read, targetPath).annotations
    ensures NodeCheck.IsTracked(nodeName, pod) && NodeCheck.EligiblePath(pod) == Some(targetPath)
  {
    NonEmpty(pod.annotations);
    assert DRIVER_TAGGING.pathKey in pod.annotations;
    assert DRIVER_TAGGING.watchKey[0] != "metadata.name"[0] && DRIVER_TAGGING.watchKey[0] != "metadata.generateName"[0];
  }

  predicate SafeFor(read: map<string, string>, now: map<string, string>, key: string) {
    if read == map[] then now.Keys <= {key} else now != map[]
  }

  lemma ResultIntended(read: map<string, string>, now: map<string, string>, key: string, value: string)
    ensures Result(read, now, key, value) == Some(now[key := value]) <==> SafeFor(read, now, key)
    ensures Result(read, now, key, value).Some? ==> Result(read, now, key, value).value != map[]
  {
    assert key in map[key := value] && key in now[key := value];
    if read == map[] && map[key := value] == now[key := value] {
      forall k | k in now ensures k == key { assert k in map[key := value]; }
    }
  }

  lemma StringsInjective(m: map<string, string>, m': map<string, string>)
    ensures Strings(m) == Strings(m') <==> m == m'
  {
    if Strings(m) == Strings(m') {
      assert m.Keys == Strings(m).fields.Keys == m'.Keys;
      forall k | k in m ensures m[k] == m'[k] { assert Strings(m).fields[k] == Strings(m').fields[k]; }
    }
  }

  lemma DocumentsDiffer(t: Tagging, p: PodMeta, q: PodMeta, rest: map<string, Json>)
    requires Proper(t) && p.others == q.others
    requires p.labels != map[] && q.labels != map[] && p.annotations != map[] && q.annotations != map[]
    ensures Document(t, p, rest) == Document(t, q, rest) <==> p == q
  {
    StringsInjective(p.labels, q.labels);
    StringsInjective(p.annotations, q.annotations);
    if Document(t, p, rest) == Document(t, q, rest) {
      var mp, mq := Document(t, p, rest).fields[t.metadata].fields, Document(t, q, rest).fields[t.metadata].fields;
      assert mp[t.labels] == Strings(p.labels) && mq[t.labels] == Strings(q.labels);
      assert mp[t.annotations] == Strings(p.annotations) && mq[t.annotations] == Strings(q.annotations);
    }
  }

  /** The patch carries no version, so the pod may have changed in between. A map is then
      updated as intended exactly when it is still there, or when it was empty at the reading
      and has gained nothing but the key itself; otherwise the patch is refused or the map's
      new members are lost. */
  lemma TagChangedPod(t: Tagging, read: PodMeta, now: PodMeta, rest: map<string, Json>, targetPath: string)
    requires Proper(t) && Sane(t, now)
    ensures Apply(Document(t, now, rest), PatchOf(t, read, targetPath))
            == Some(Document(t, Tagged(t, now, targetPath), rest))
            <==> SafeFor(read.labels, now.labels, t.watchKey) && SafeFor(read.annotations, now.annotations, t.pathKey)
  {
    PatchEffect(t, read, now, rest, targetPath);
    ResultIntended(read.labels, now.labels, t.watchKey, t.watchValue);
    ResultIntended(read.annotations, now.annotations, t.pathKey, targetPath);
    match Result(read.labels, now.labels, t.watchKey, t.watchValue)
    case None =>
    case Some(ls) =>
      match Result(read.annotations, now.annotations, t.pathKey, targetPath)
      case None =>
      case Some(xs) =>
        DocumentsDiffer(t, now.(labels := ls, annotations := xs), Tagged(t, now, targetPath), rest);
  }
}
