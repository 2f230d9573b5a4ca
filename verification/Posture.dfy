/** The four passes that normalize a branch-protection document. */
module Posture {
  import opened Json
  import opened KeySort

  // ---- pass 1 ----

  predicate EndsWith(s: string, suffix: string) {
    |s| >= |suffix| && s[|s| - |suffix|..] == suffix
  }

  predicate IsUrlKey(key: string) {
    key == "url" || EndsWith(key, "_url")
  }

  function StripUrls(v: Value): Value
    decreases v, 1
  {
    match v
    case Obj(fields) => Obj(map k | k in fields && !IsUrlKey(k) :: StripUrls(fields[k]))
    case Arr(items) => Arr(StripAll(items))
    case _ => v
  }

  function StripAll(items: seq<Value>): (r: seq<Value>)
    ensures |r| == |items|
    decreases items, 0
  {
    if items == [] then [] else [StripUrls(items[0])] + StripAll(items[1..])
  }

  // ---- pass 2 ----

  predicate IsEnvelope(fields: map<string, Value>) {
    fields.Keys == {"enabled"} && fields["enabled"].Bool?
  }

  function CollapseEnabled(v: Value): Value
    decreases v, 1
  {
    match v
    case Obj(fields) =>
      var collapsed := map k | k in fields :: CollapseEnabled(fields[k]);
      if IsEnvelope(collapsed) then collapsed["enabled"] else Obj(collapsed)
    case Arr(items) => Arr(CollapseAll(items))
    case _ => v
  }

  function CollapseAll(items: seq<Value>): (r: seq<Value>)
    ensures |r| == |items|
    decreases items, 0
  {
    if items == [] then [] else [CollapseEnabled(items[0])] + CollapseAll(items[1..])
  }

  // ---- pass 3 ----

  const MEMBER_LIST_KEYS: set<string> := {"users", "teams", "apps"}
  const IDENTITY_KEYS: seq<string> := ["login", "slug", "name"]

  predicate Carries(fields: map<string, Value>, key: string) {
    key in fields && fields[key].Str?
  }

  /** The id of a grantee, when it has one. */
  function IdOnly(fields: map<string, Value>): map<string, Value> {
    if "id" in fields then map["id" := fields["id"]] else map[]
  }

  function Identity(member: Value): Value {
    match member
    case Obj(fields) =>
      if Carries(fields, "login") then Obj(IdOnly(fields)["login" := fields["login"]])
      else if Carries(fields, "slug") then Obj(IdOnly(fields)["slug" := fields["slug"]])
      else if Carries(fields, "name") then Obj(IdOnly(fields)["name" := fields["name"]])
      else Obj(IdOnly(fields)["unidentified" := Str(Dumps(member))])
    case _ => member
  }

  function IdentifyAll(items: seq<Value>): (r: seq<Value>)
    ensures |r| == |items|
    ensures forall i | 0 <= i < |items| :: r[i] == Identity(items[i])
  {
    if items == [] then [] else [Identity(items[0])] + IdentifyAll(items[1..])
  }

  function ReduceMembers(v: Value): Value
    decreases v, 1
  {
    match v
    case Obj(fields) =>
      Obj(map k | k in fields ::
            if k in MEMBER_LIST_KEYS && fields[k].Arr?
            then Arr(IdentifyAll(fields[k].items))
            else ReduceMembers(fields[k]))
    case Arr(items) => Arr(ReduceAll(items))
    case _ => v
  }

  function ReduceAll(items: seq<Value>): (r: seq<Value>)
    ensures |r| == |items|
    decreases items, 0
  {
    if items == [] then [] else [ReduceMembers(items[0])] + ReduceAll(items[1..])
  }

  /** `_identity` fills a local dict: the id, then the first key that names the grantee. */
  method BuildIdentity(member: Value) returns (r: Value)
    ensures r == Identity(member)
  {
    if !member.Obj? {
      return member;
    }
    var out: map<string, Value> := map[];
    if "id" in member.fields {
      out := out["id" := member.fields["id"]];
    }
    var i := 0;
    while i < |IDENTITY_KEYS|
      invariant i <= |IDENTITY_KEYS| && out == IdOnly(member.fields)
      invariant forall j | 0 <= j < i :: !Carries(member.fields, IDENTITY_KEYS[j])
    {
      var key := IDENTITY_KEYS[i];
      if key in member.fields && member.fields[key].Str? {
        assert i == 0 || !Carries(member.fields, IDENTITY_KEYS[0]);
        assert i <= 1 || !Carries(member.fields, IDENTITY_KEYS[1]);
        out := out[key := member.fields[key]];
        return Obj(out);
      }
      i := i + 1;
    }
    assert forall j | 0 <= j < 3 :: !Carries(member.fields, IDENTITY_KEYS[j]);
    assert !Carries(member.fields, IDENTITY_KEYS[0]) && !Carries(member.fields, IDENTITY_KEYS[1]);
    assert !Carries(member.fields, IDENTITY_KEYS[2]);
    out := out["unidentified" := Str(Dumps(member))];
    return Obj(out);
  }

  /** `_reduce_members` fills a dict key by key, or a list item by item. */
  method BuildReduced(node: Value) returns (r: Value)
    ensures r == ReduceMembers(node)
    decreases node, 1
  {
    if node.Obj? {
      var out: map<string, Value> := map[];
      var rest := node.fields.Keys;
      while rest != {}
        invariant rest <= node.fields.Keys && out.Keys == node.fields.Keys - rest
        invariant forall k | k in out :: out[k] == ReduceMembers(node).fields[k]
        decreases |rest|
      {
        var k :| k in rest;
        var v := node.fields[k];
        if k in MEMBER_LIST_KEYS && v.Arr? {
          var members := BuildIdentities(v.items);
          out := out[k := Arr(members)];
        } else {
          var reduced := BuildReduced(v);
          out := out[k := reduced];
        }
        rest := rest - {k};
      }
      assert out == ReduceMembers(node).fields;
      return Obj(out);
    } else if node.Arr? {
      var items := BuildReducedList(node.items);
      return Arr(items);
    } else {
      return node;
    }
  }

  method BuildIdentities(items: seq<Value>) returns (r: seq<Value>)
    ensures r == IdentifyAll(items)
  {
    r := [];
    for i := 0 to |items|
      invariant |r| == i && forall j | 0 <= j < i :: r[j] == Identity(items[j])
    {
      var one := BuildIdentity(items[i]);
      r := r + [one];
    }
  }

  method BuildReducedList(items: seq<Value>) returns (r: seq<Value>)
    ensures r == ReduceAll(items)
    decreases items, 0
  {
    if items == [] {
      return [];
    }
    var first := BuildReduced(items[0]);
    var others := BuildReducedList(items[1..]);
    return [first] + others;
  }

  // ---- pass 4 ----

  /** Python's sort, by canonical text. */
  function SortByText(items: seq<Value>): seq<Value> {
    SortBy(items, Dumps)
  }

  function SortLists(v: Value): Value
    decreases v, 1
  {
    match v
    case Obj(fields) => Obj(map k | k in fields :: SortLists(fields[k]))
    case Arr(items) => Arr(SortByText(SortAll(items)))
    case _ => v
  }

  function SortAll(items: seq<Value>): (r: seq<Value>)
    ensures |r| == |items|
    decreases items, 0
  {
    if items == [] then [] else [SortLists(items[0])] + SortAll(items[1..])
  }

  function Prepare(doc: Value): Value {
    ReduceMembers(CollapseEnabled(StripUrls(doc)))
  }

  function Normalize(doc: Value): Value {
    SortLists(Prepare(doc))
  }

  lemma TextIsInjective()
    ensures Injective(Dumps)
  {
    forall a, b | Dumps(a) == Dumps(b) ensures a == b { DumpsIsInjective(a, b); }
  }

  lemma SortByTextIsCanonical(a: seq<Value>, b: seq<Value>)
    ensures SortByText(a) == SortByText(b) <==> multiset(a) == multiset(b)
  {
    TextIsInjective();
    SortByIsCanonical(a, b, Dumps);
  }

  // ---- equal up to the order of lists ----

  /** The same value, with lists permuted at any depth. */
  ghost predicate SameButOrder(a: Value, b: Value)
    decreases a, 1
  {
    match a
    case Obj(fields) =>
      b.Obj? && b.fields.Keys == fields.Keys && forall k | k in fields :: SameButOrder(fields[k], b.fields[k])
    case Arr(items) => b.Arr? && Rearranged(items, b.items)
    case _ => a == b
  }

  /** The items pair off: the first with some item of `ys`, the others with what is left. */
  ghost predicate Rearranged(xs: seq<Value>, ys: seq<Value>)
    decreases xs, 0
  {
    if xs == [] then ys == []
    else exists i :: 0 <= i < |ys| && SameButOrder(xs[0], ys[i]) && Rearranged(xs[1..], Without(ys, i))
  }

  function Without(ys: seq<Value>, i: nat): seq<Value>
    requires i < |ys|
  {
    ys[..i] + ys[i + 1..]
  }

  lemma {:induction false} SortAllAt(ys: seq<Value>, i: nat)
    requires i < |ys|
    ensures SortAll(ys)[i] == SortLists(ys[i])
  {
    if i > 0 { SortAllAt(ys[1..], i - 1); }
  }

  lemma {:induction false} SortAllConcat(xs: seq<Value>, ys: seq<Value>)
    ensures SortAll(xs + ys) == SortAll(xs) + SortAll(ys)
  {
    if xs == [] {
      assert xs + ys == ys;
    } else {
      SortAllConcat(xs[1..], ys);
      assert (xs + ys)[1..] == xs[1..] + ys;
    }
  }

  lemma SortAllParts(ys: seq<Value>, i: nat)
    requires i < |ys|
    ensures SortAll(ys) == SortAll(ys[..i]) + ([SortLists(ys[i])] + SortAll(ys[i + 1..]))
    ensures SortAll(Without(ys, i)) == SortAll(ys[..i]) + SortAll(ys[i + 1..])
  {
    SortAllConcat(ys[..i], ys[i + 1..]);
    SortAllConcat(ys[..i], ys[i..]);
    assert ys == ys[..i] + ys[i..];
    assert ys[i..][1..] == ys[i + 1..];
  }

  lemma TakeOut<T>(a: seq<T>, x: T, b: seq<T>)
    ensures multiset(a + ([x] + b)) == multiset(a + b) + multiset{x}
  {
  }

  lemma SortAllWithout(ys: seq<Value>, i: nat)
    requires i < |ys|
    ensures multiset(SortAll(ys)) == multiset(SortAll(Without(ys, i))) + multiset{SortLists(ys[i])}
  {
    SortAllParts(ys, i);
    TakeOut(SortAll(ys[..i]), SortLists(ys[i]), SortAll(ys[i + 1..]));
  }

  lemma {:induction false} SortedAlikeMeansSame(a: Value, b: Value)
    requires SortLists(a) == SortLists(b)
    ensures SameButOrder(a, b)
    decreases a, 1
  {
    match a
    case Obj(fields) =>
      assert SortLists(a).fields.Keys == fields.Keys && SortLists(b).fields.Keys == b.fields.Keys;
      forall k | k in fields ensures SameButOrder(fields[k], b.fields[k]) {
        assert SortLists(a).fields[k] == SortLists(b).fields[k];
        SortedAlikeMeansSame(fields[k], b.fields[k]);
      }
    case Arr(items) =>
      SortByTextIsCanonical(SortAll(items), SortAll(b.items));
      SortedAlikeMeansRearranged(items, b.items);
    case _ =>
  }

  /** The first value has a match, and what is left over still agrees. */
  lemma MatchOfFirst(xs: seq<Value>, ys: seq<Value>) returns (i: nat)
    requires multiset(SortAll(xs)) == multiset(SortAll(ys)) && xs != []
    ensures i < |ys| && SortLists(xs[0]) == SortLists(ys[i])
    ensures multiset(SortAll(xs[1..])) == multiset(SortAll(Without(ys, i)))
  {
    SortAllFirst(xs);
    i := Occurrence(SortLists(xs[0]), SortAll(ys));
    SortAllAt(ys, i);
    SortAllWithout(ys, i);
    Cancel(multiset(SortAll(xs[1..])), multiset(SortAll(Without(ys, i))), SortLists(xs[0]));
  }

  lemma SortAllFirst(xs: seq<Value>)
    requires xs != []
    ensures multiset(SortAll(xs)) == multiset(SortAll(xs[1..])) + multiset{SortLists(xs[0])}
  {
    assert SortAll(xs) == [SortLists(xs[0])] + SortAll(xs[1..]);
  }

  lemma Occurrence(v: Value, ys: seq<Value>) returns (i: nat)
    requires v in multiset(ys)
    ensures i < |ys| && ys[i] == v
  {
    i :| 0 <= i < |ys| && ys[i] == v;
  }

  lemma Cancel(a: multiset<Value>, b: multiset<Value>, v: Value)
    requires a + multiset{v} == b + multiset{v}
    ensures a == b
  {
    assert a == a + multiset{v} - multiset{v} && b == b + multiset{v} - multiset{v};
  }

  lemma {:induction false} SortedAlikeMeansRearranged(xs: seq<Value>, ys: seq<Value>)
    requires multiset(SortAll(xs)) == multiset(SortAll(ys))
    ensures Rearranged(xs, ys)
    decreases xs, 0
  {
    SameSize(SortAll(xs), SortAll(ys));
    if xs != [] {
      var i := MatchOfFirst(xs, ys);
      SortedAlikeMeansSame(xs[0], ys[i]);
      SortedAlikeMeansRearranged(xs[1..], Without(ys, i));
    }
  }

  lemma {:induction false} SameMeansSortedAlike(a: Value, b: Value)
    requires SameButOrder(a, b)
    ensures SortLists(a) == SortLists(b)
    decreases a, 1
  {
    match a
    case Obj(fields) =>
      forall k | k in fields ensures SortLists(fields[k]) == SortLists(b.fields[k]) {
        SameMeansSortedAlike(fields[k], b.fields[k]);
      }
      assert SortLists(a).fields == SortLists(b).fields;
    case Arr(items) =>
      RearrangedMeansSortedAlike(items, b.items);
      SortByTextIsCanonical(SortAll(items), SortAll(b.items));
    case _ =>
  }

  lemma {:induction false} RearrangedMeansSortedAlike(xs: seq<Value>, ys: seq<Value>)
    requires Rearranged(xs, ys)
    ensures multiset(SortAll(xs)) == multiset(SortAll(ys))
    decreases xs, 0
  {
    if xs != [] {
      var i :| 0 <= i < |ys| && SameButOrder(xs[0], ys[i]) && Rearranged(xs[1..], Without(ys, i));
      SameMeansSortedAlike(xs[0], ys[i]);
      RearrangedMeansSortedAlike(xs[1..], Without(ys, i));
      SortAllWithout(ys, i);
      assert SortAll(xs) == [SortLists(xs[0])] + SortAll(xs[1..]);
    }
  }

  /** Normalizing is a complete invariant: two documents come out equal exactly when, after the first three passes,
      one is the other with lists permuted at any depth. */
  lemma NormalizeIsComplete(a: Value, b: Value)
    ensures Normalize(a) == Normalize(b) <==> SameButOrder(Prepare(a), Prepare(b))
  {
    if Normalize(a) == Normalize(b) { SortedAlikeMeansSame(Prepare(a), Prepare(b)); }
    if SameButOrder(Prepare(a), Prepare(b)) { SameMeansSortedAlike(Prepare(a), Prepare(b)); }
  }
}
