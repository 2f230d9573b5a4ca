/** When normalizing twice is normalizing once: exactly when every grantee object names itself. */
module PostureStable {
  import opened StringOrder
  import opened Json
  import opened KeySort
  import opened Posture

  // ---- the first two passes have nothing left to do on a normalized document ----

  /** No self-link key and no envelope, at any depth. */
  ghost predicate Plain(v: Value)
    decreases v
  {
    match v
    case Obj(fields) => !IsEnvelope(fields) && forall k | k in fields :: !IsUrlKey(k) && Plain(fields[k])
    case Arr(items) => forall i | 0 <= i < |items| :: Plain(items[i])
    case _ => true
  }

  lemma {:induction false} StrippedAndCollapsedIsPlain(v: Value)
    ensures Plain(CollapseEnabled(StripUrls(v)))
    decreases v, 1
  {
    match v
    case Obj(fields) =>
      forall k | k in fields { StrippedAndCollapsedIsPlain(fields[k]); }
    case Arr(items) => AllStrippedAndCollapsedArePlain(items);
    case _ =>
  }

  lemma {:induction false} AllStrippedAndCollapsedArePlain(items: seq<Value>)
    ensures forall i | 0 <= i < |items| :: Plain(CollapseAll(StripAll(items))[i])
    decreases items, 0
  {
    if items != [] {
      StrippedAndCollapsedIsPlain(items[0]);
      AllStrippedAndCollapsedArePlain(items[1..]);
    }
  }

  lemma {:induction false} PlainStays(v: Value)
    requires Plain(v)
    ensures StripUrls(v) == v && CollapseEnabled(v) == v
    decreases v, 1
  {
    match v
    case Obj(fields) =>
      forall k | k in fields { PlainStays(fields[k]); }
      assert StripUrls(v).fields == fields;
      assert (map k | k in fields :: CollapseEnabled(fields[k])) == fields;
    case Arr(items) => AllPlainStay(items);
    case _ =>
  }

  lemma {:induction false} AllPlainStay(items: seq<Value>)
    requires forall i | 0 <= i < |items| :: Plain(items[i])
    ensures StripAll(items) == items && CollapseAll(items) == items
    decreases items, 0
  {
    if items != [] {
      PlainStays(items[0]);
      AllPlainStay(items[1..]);
    }
  }

  lemma IdentityKeysAreNoUrls()
    ensures !IsUrlKey("id") && !IsUrlKey("login") && !IsUrlKey("slug") && !IsUrlKey("name") && !IsUrlKey("unidentified")
  {
    assert "login"[1..][0] == 'o' && "slug"[0..][0] == 's' && "name"[0..][0] == 'n' && "unidentified"[8..][0] == 'f';
  }

  lemma NamedObjectIsPlain(fields: map<string, Value>, key: string, name: Value)
    requires Plain(Obj(fields)) && !IsUrlKey(key) && key != "enabled" && key != "id" && name.Str?
    ensures Plain(Obj(IdOnly(fields)[key := name]))
  {
    IdentityKeysAreNoUrls();
    assert key in IdOnly(fields)[key := name];
  }

  lemma IdentityIsPlain(m: Value)
    requires Plain(m)
    ensures Plain(Identity(m))
  {
    IdentityKeysAreNoUrls();
    if m.Obj? {
      if Carries(m.fields, "login") { NamedObjectIsPlain(m.fields, "login", m.fields["login"]); }
      else if Carries(m.fields, "slug") { NamedObjectIsPlain(m.fields, "slug", m.fields["slug"]); }
      else if Carries(m.fields, "name") { NamedObjectIsPlain(m.fields, "name", m.fields["name"]); }
      else { NamedObjectIsPlain(m.fields, "unidentified", Str(Dumps(m))); }
    }
  }

  lemma {:induction false} ReduceKeepsPlain(v: Value)
    requires Plain(v)
    ensures Plain(ReduceMembers(v))
    decreases v, 1
  {
    match v
    case Obj(fields) =>
      forall k | k in fields ensures Plain(ReduceMembers(v).fields[k]) {
        if k in MEMBER_LIST_KEYS && fields[k].Arr? {
          forall i | 0 <= i < |fields[k].items| { IdentityIsPlain(fields[k].items[i]); }
        } else {
          ReduceKeepsPlain(fields[k]);
        }
      }
      KindKept(v);
    case Arr(items) => ReduceAllKeepsPlain(items);
    case _ =>
  }

  /** Reducing an object yields no envelope it did not have. */
  lemma KindKept(v: Value)
    requires v.Obj?
    ensures IsEnvelope(ReduceMembers(v).fields) ==> IsEnvelope(v.fields)
  {
    assert ReduceMembers(v).fields.Keys == v.fields.Keys;
    if "enabled" in v.fields {
      assert ReduceMembers(v).fields["enabled"] == ReduceMembers(v.fields["enabled"]);
    }
  }

  lemma {:induction false} ReduceAllKeepsPlain(items: seq<Value>)
    requires forall i | 0 <= i < |items| :: Plain(items[i])
    ensures forall i | 0 <= i < |items| :: Plain(ReduceAll(items)[i])
    decreases items, 0
  {
    if items != [] {
      ReduceKeepsPlain(items[0]);
      ReduceAllKeepsPlain(items[1..]);
    }
  }

  /** Every item of a sorted list is some sorted item. */
  lemma SortedItem(items: seq<Value>, j: nat) returns (i: nat)
    requires j < |SortByText(SortAll(items))|
    ensures i < |items| && SortByText(SortAll(items))[j] == SortLists(items[i])
  {
    var sorted := SortByText(SortAll(items));
    SortByWorks(SortAll(items), Dumps);
    assert sorted[j] in multiset(SortAll(items));
    i :| 0 <= i < |items| && SortAll(items)[i] == sorted[j];
    SortAllAt(items, i);
  }

  lemma SortedSlot(items: seq<Value>, i: nat) returns (j: nat)
    requires i < |items|
    ensures j < |SortByText(SortAll(items))| && SortByText(SortAll(items))[j] == SortLists(items[i])
  {
    var sorted := SortByText(SortAll(items));
    SortByWorks(SortAll(items), Dumps);
    SortAllAt(items, i);
    assert SortAll(items)[i] in multiset(sorted);
    j :| 0 <= j < |sorted| && sorted[j] == SortAll(items)[i];
  }

  lemma {:induction false} SortKeepsPlain(v: Value)
    requires Plain(v)
    ensures Plain(SortLists(v))
    decreases v
  {
    match v
    case Obj(fields) =>
      forall k | k in fields { SortKeepsPlain(fields[k]); }
    case Arr(items) =>
      forall j | 0 <= j < |SortLists(v).items| ensures Plain(SortLists(v).items[j]) {
        var i := SortedItem(items, j);
        SortKeepsPlain(items[i]);
      }
    case _ =>
  }

  // ---- sorting twice ----

  lemma {:induction false} SortTwice(v: Value)
    ensures SortLists(SortLists(v)) == SortLists(v)
    decreases v
  {
    match v
    case Obj(fields) =>
      forall k | k in fields { SortTwice(fields[k]); }
      assert SortLists(SortLists(v)).fields == SortLists(v).fields;
    case Arr(items) =>
      var sorted := SortByText(SortAll(items));
      forall j | 0 <= j < |sorted| ensures SortLists(sorted[j]) == sorted[j] {
        var i := SortedItem(items, j);
        SortTwice(items[i]);
      }
      AllSortedStay(sorted);
      SortByWorks(SortAll(items), Dumps);
      SortByTextIsCanonical(sorted, SortAll(items));
    case _ =>
  }

  lemma {:induction false} AllSortedStay(items: seq<Value>)
    requires forall i | 0 <= i < |items| :: SortLists(items[i]) == items[i]
    ensures SortAll(items) == items
  {
    if items != [] { AllSortedStay(items[1..]); }
  }

  // ---- grantees that name themselves ----

  predicate Named(m: Value) {
    m.Obj? ==> Carries(m.fields, "login") || Carries(m.fields, "slug") || Carries(m.fields, "name")
  }

  predicate IsMemberList(fields: map<string, Value>, k: string)
    requires k in fields
  {
    k in MEMBER_LIST_KEYS && fields[k].Arr?
  }

  /** Every object in a users, teams or apps list carries a string login, slug or name. */
  ghost predicate AllNamed(v: Value)
    decreases v, 1
  {
    match v
    case Obj(fields) => forall k | k in fields :: FieldNamed(v, k)
    case Arr(items) => forall i | 0 <= i < |items| :: AllNamed(items[i])
    case _ => true
  }

  ghost predicate FieldNamed(o: Value, k: string)
    requires o.Obj? && k in o.fields
    decreases o, 0
  {
    if IsMemberList(o.fields, k) then forall i | 0 <= i < |o.fields[k].items| :: Named(o.fields[k].items[i])
    else AllNamed(o.fields[k])
  }

  /** In reduced form already, or (if `loose`) naming itself by nothing. */
  predicate Settled(m: Value, loose: bool) {
    Identity(m) == m || (loose && !Named(m))
  }

  /** Every grantee is settled. */
  ghost predicate Reduced(v: Value, loose: bool)
    decreases v, 1
  {
    match v
    case Obj(fields) => forall k | k in fields :: FieldReduced(v, k, loose)
    case Arr(items) => forall i | 0 <= i < |items| :: Reduced(items[i], loose)
    case _ => true
  }

  ghost predicate FieldReduced(o: Value, k: string, loose: bool)
    requires o.Obj? && k in o.fields
    decreases o, 0
  {
    if IsMemberList(o.fields, k) then forall i | 0 <= i < |o.fields[k].items| :: Settled(o.fields[k].items[i], loose)
    else Reduced(o.fields[k], loose)
  }

  lemma {:induction false} ReducedStays(v: Value)
    requires Reduced(v, false)
    ensures ReduceMembers(v) == v
    decreases v, 1
  {
    match v
    case Obj(fields) =>
      forall k | k in fields ensures ReduceMembers(v).fields[k] == fields[k] {
        assert FieldReduced(v, k, false);
        if IsMemberList(fields, k) {
          assert forall i | 0 <= i < |fields[k].items| :: Settled(fields[k].items[i], false);
          assert IdentifyAll(fields[k].items) == fields[k].items;
        } else {
          ReducedStays(fields[k]);
        }
      }
      assert ReduceMembers(v).fields == fields;
    case Arr(items) => AllReducedStay(items);
    case _ =>
  }

  lemma {:induction false} AllReducedStay(items: seq<Value>)
    requires forall i | 0 <= i < |items| :: Reduced(items[i], false)
    ensures ReduceAll(items) == items
    decreases items, 0
  {
    if items != [] {
      ReducedStays(items[0]);
      AllReducedStay(items[1..]);
    }
  }

  // ---- the text of an object is longer than any string in it ----

  lemma {:induction false} CharsLength(s: string, rest: string)
    ensures |Chars(s, rest)| == |Chars(s, "")| + |rest| && |Chars(s, "")| > |s|
  {
    if s != "" { CharsLength(s[1..], rest); }
  }

  function Size(v: Value): nat {
    |Dumps(v)|
  }

  /** The items' text, each with its separator. */
  function ItemsSize(items: seq<Value>): nat {
    if items == [] then 0 else Size(items[0]) + 2 + ItemsSize(items[1..])
  }

  function FieldsSize(o: Value, keys: seq<string>): nat
    requires o.Obj? && forall k | k in keys :: k in o.fields
  {
    if keys == [] then 0 else |Quote(keys[0], "")| + 2 + Size(o.fields[keys[0]]) + 2 + FieldsSize(o, keys[1..])
  }

  lemma {:induction false} WriteLength(v: Value, rest: string)
    ensures |Write(v, rest)| == Size(v) + |rest|
    decreases v, 3
  {
    match v
    case Str(s) => CharsLength(s, rest);
    case Arr(items) => ArrLength(items, rest); ArrLength(items, "");
    case Obj(fields) => ObjLength(v, rest); ObjLength(v, "");
    case _ =>
  }

  lemma {:induction false} ArrLength(items: seq<Value>, rest: string)
    ensures |Write(Arr(items), rest)| == (if items == [] then 2 else ItemsSize(items)) + |rest|
    decreases items, 1
  {
    if items != [] {
      MoreItemsLength(items[1..], rest);
      WriteLength(items[0], MoreItems(items[1..], rest));
    }
  }

  lemma {:induction false} MoreItemsLength(items: seq<Value>, rest: string)
    ensures |MoreItems(items, rest)| == ItemsSize(items) + 1 + |rest|
    decreases items, 0
  {
    if items != [] {
      MoreItemsLength(items[1..], rest);
      WriteLength(items[0], MoreItems(items[1..], rest));
    }
  }

  lemma {:induction false} FieldLength(o: Value, k: string, rest: string)
    requires o.Obj? && k in o.fields
    ensures |Field(o, k, rest)| == |Quote(k, "")| + 2 + Size(o.fields[k]) + |rest|
    decreases o, 0
  {
    CharsLength(k, ": " + Write(o.fields[k], rest));
    WriteLength(o.fields[k], rest);
  }

  lemma {:induction false} MoreFieldsLength(o: Value, keys: seq<string>, rest: string)
    requires o.Obj? && forall k | k in keys :: k in o.fields
    ensures |MoreFields(o, keys, rest)| == FieldsSize(o, keys) + 1 + |rest|
    decreases o, 1, |keys|
  {
    if keys != [] {
      MoreFieldsLength(o, keys[1..], rest);
      FieldLength(o, keys[0], MoreFields(o, keys[1..], rest));
    }
  }

  lemma {:induction false} ObjLength(o: Value, rest: string)
    requires o.Obj?
    ensures var keys := Sorted(o.fields.Keys);
      |Write(o, rest)| == (if keys == [] then 2 else FieldsSize(o, keys)) + |rest|
    decreases o, 2
  {
    var keys := Sorted(o.fields.Keys);
    if keys != [] {
      MoreFieldsLength(o, keys[1..], rest);
      FieldLength(o, keys[0], MoreFields(o, keys[1..], rest));
    }
  }

  lemma {:induction false} FieldFits(o: Value, keys: seq<string>, k: string)
    requires o.Obj? && k in keys && forall k | k in keys :: k in o.fields
    ensures FieldsSize(o, keys) > Size(o.fields[k])
  {
    if keys[0] != k { FieldFits(o, keys[1..], k); }
  }

  lemma ObjectOutgrowsString(o: Value, k: string)
    requires o.Obj? && Carries(o.fields, k)
    ensures Size(o) > |o.fields[k].s|
  {
    ObjLength(o, "");
    FieldFits(o, Sorted(o.fields.Keys), k);
    CharsLength(o.fields[k].s, "");
  }

  /** A grantee with no name comes out as an object holding its own text, so it never stays put. */
  lemma UnnamedGrows(m: Value)
    requires !Named(m)
    ensures Size(Identity(m)) > Size(m)
  {
    ObjectOutgrowsString(Identity(m), "unidentified");
  }

  // ---- grantees after a full pass ----

  lemma SortKeepsNames(m: Value)
    ensures Named(SortLists(m)) <==> Named(m)
  {
  }

  lemma SortKeepsIdentity(m: Value)
    requires Named(m) && Identity(m) == m
    ensures Identity(SortLists(m)) == SortLists(m)
  {
    if m.Obj? {
      var name := if Carries(m.fields, "login") then "login" else if Carries(m.fields, "slug") then "slug" else "name";
      OnlyIdAndName(m, name);
    }
  }

  /** A reduced grantee holds at most an id beside its name, and sorting only reaches into the id. */
  lemma OnlyIdAndName(m: Value, name: string)
    requires m.Obj? && Carries(m.fields, name) && name != "id" && m.fields == IdOnly(m.fields)[name := m.fields[name]]
    ensures var s := SortLists(m);
      s.fields == IdOnly(s.fields)[name := s.fields[name]] && s.fields[name] == m.fields[name]
    ensures SortLists(m).fields.Keys == m.fields.Keys
  {
  }

  lemma IdentityTwice(m: Value)
    ensures Named(Identity(m)) <==> Named(m)
    ensures Named(m) ==> Identity(Identity(m)) == Identity(m)
  {
  }

  /** A grantee of the normalized document is settled exactly when the original named itself. */
  lemma GranteeAfterPass(m: Value)
    ensures var g := SortLists(Identity(m)); Settled(g, true) && (Settled(g, false) <==> Named(m))
  {
    IdentityTwice(m);
    SortKeepsNames(Identity(m));
    if Named(m) { SortKeepsIdentity(Identity(m)); } else { UnnamedGrows(SortLists(Identity(m))); }
  }

  lemma {:induction false} AfterPass(v: Value)
    ensures Reduced(SortLists(ReduceMembers(v)), true)
    ensures Reduced(SortLists(ReduceMembers(v)), false) <==> AllNamed(v)
    decreases v, 1
  {
    match v
    case Obj(fields) =>
      var n := SortLists(ReduceMembers(v));
      assert n.fields.Keys == fields.Keys;
      forall k | k in fields
        ensures FieldReduced(n, k, true) && (FieldReduced(n, k, false) <==> FieldNamed(v, k))
      {
        FieldAfterPass(v, k);
      }
    case Arr(items) => ListAfterPass(items);
    case _ =>
  }

  lemma MemberFieldAfterPass(v: Value, k: string)
    requires v.Obj? && k in v.fields && IsMemberList(v.fields, k)
    ensures k in SortLists(ReduceMembers(v)).fields
    ensures SortLists(ReduceMembers(v)).fields[k] == Arr(SortByText(SortAll(IdentifyAll(v.fields[k].items))))
  {
    assert ReduceMembers(v).fields[k] == Arr(IdentifyAll(v.fields[k].items));
  }

  lemma OtherFieldAfterPass(v: Value, k: string)
    requires v.Obj? && k in v.fields && !IsMemberList(v.fields, k)
    ensures k in SortLists(ReduceMembers(v)).fields
    ensures SortLists(ReduceMembers(v)).fields[k] == SortLists(ReduceMembers(v.fields[k]))
    ensures !IsMemberList(SortLists(ReduceMembers(v)).fields, k)
  {
    assert ReduceMembers(v).fields[k] == ReduceMembers(v.fields[k]);
    KindAfterPass(v.fields[k]);
  }

  lemma {:induction false} FieldAfterPass(v: Value, k: string)
    requires v.Obj? && k in v.fields
    ensures k in SortLists(ReduceMembers(v)).fields
    ensures FieldReduced(SortLists(ReduceMembers(v)), k, true)
    ensures FieldReduced(SortLists(ReduceMembers(v)), k, false) <==> FieldNamed(v, k)
    decreases v, 0
  {
    if IsMemberList(v.fields, k) {
      MemberFieldAfterPass(v, k);
      MembersAfterPass(v.fields[k].items);
    } else {
      OtherFieldAfterPass(v, k);
      AfterPass(v.fields[k]);
    }
  }

  lemma KindAfterPass(v: Value)
    ensures SortLists(ReduceMembers(v)).Arr? <==> v.Arr?
  {
  }

  lemma MembersAfterPass(items: seq<Value>)
    ensures var n := SortByText(SortAll(IdentifyAll(items)));
      && (forall i | 0 <= i < |n| :: Settled(n[i], true))
      && ((forall i | 0 <= i < |n| :: Settled(n[i], false)) <==> forall i | 0 <= i < |items| :: Named(items[i]))
  {
    var n := SortByText(SortAll(IdentifyAll(items)));
    forall j | 0 <= j < |n| ensures Settled(n[j], true) {
      var i := SortedItem(IdentifyAll(items), j);
      GranteeAfterPass(items[i]);
    }
    if forall j | 0 <= j < |n| :: Settled(n[j], false) {
      forall i | 0 <= i < |items| ensures Named(items[i]) {
        var j := SortedSlot(IdentifyAll(items), i);
        GranteeAfterPass(items[i]);
      }
    }
    if forall i | 0 <= i < |items| :: Named(items[i]) {
      forall j | 0 <= j < |n| ensures Settled(n[j], false) {
        var i := SortedItem(IdentifyAll(items), j);
        GranteeAfterPass(items[i]);
      }
    }
  }

  lemma {:induction false} ReduceAllAt(items: seq<Value>, i: nat)
    requires i < |items|
    ensures ReduceAll(items)[i] == ReduceMembers(items[i])
  {
    if i > 0 { ReduceAllAt(items[1..], i - 1); }
  }

  ghost predicate AllReduced(items: seq<Value>, loose: bool) {
    forall i | 0 <= i < |items| :: Reduced(items[i], loose)
  }

  ghost predicate AllItemsNamed(items: seq<Value>) {
    forall i | 0 <= i < |items| :: AllNamed(items[i])
  }

  lemma {:induction false} ListAfterPass(items: seq<Value>)
    ensures var n := SortByText(SortAll(ReduceAll(items)));
      AllReduced(n, true) && (AllReduced(n, false) <==> AllItemsNamed(items))
    decreases items, 0
  {
    var n := SortByText(SortAll(ReduceAll(items)));
    forall i | 0 <= i < |items|
      ensures Reduced(SortLists(ReduceAll(items)[i]), true)
      ensures Reduced(SortLists(ReduceAll(items)[i]), false) <==> AllNamed(items[i])
    {
      ReduceAllAt(items, i);
      AfterPass(items[i]);
    }
    forall j | 0 <= j < |n| ensures Reduced(n[j], true) && (AllItemsNamed(items) ==> Reduced(n[j], false)) {
      var i := SortedItem(ReduceAll(items), j);
    }
    forall i | 0 <= i < |items| ensures AllReduced(n, false) ==> AllNamed(items[i]) {
      var j := SortedSlot(ReduceAll(items), i);
      assert Reduced(n[j], true);
    }
  }

  // ---- a second pass over an unnamed grantee makes the text longer ----

  lemma {:induction false} InsertSize(x: Value, sorted: seq<Value>)
    ensures ItemsSize(Insert(x, sorted, Dumps)) == ItemsSize(sorted) + Size(x) + 2
  {
    if sorted != [] { InsertSize(x, sorted[1..]); }
  }

  lemma {:induction false} SortedSize(items: seq<Value>)
    ensures ItemsSize(SortByText(items)) == ItemsSize(items)
  {
    if items != [] {
      SortedSize(items[1..]);
      InsertSize(items[0], SortByText(items[1..]));
    }
  }

  lemma SizeOfArr(items: seq<Value>)
    ensures Size(Arr(items)) == if items == [] then 2 else ItemsSize(items)
  {
    ArrLength(items, "");
  }

  lemma {:induction false} FieldsSizeGrows(a: Value, b: Value, keys: seq<string>)
    requires a.Obj? && b.Obj?
    requires forall k | k in keys :: k in a.fields && k in b.fields && Size(a.fields[k]) <= Size(b.fields[k])
    ensures FieldsSize(a, keys) <= FieldsSize(b, keys)
    ensures (exists k | k in keys :: Size(a.fields[k]) < Size(b.fields[k])) ==>
      FieldsSize(a, keys) < FieldsSize(b, keys)
  {
    if keys != [] {
      FieldsSizeGrows(a, b, keys[1..]);
      if k :| k in keys && Size(a.fields[k]) < Size(b.fields[k]) {
        assert k == keys[0] || k in keys[1..];
      }
    }
  }

  lemma SizeOfObj(a: Value, b: Value)
    requires a.Obj? && b.Obj? && a.fields.Keys == b.fields.Keys
    requires forall k | k in a.fields :: Size(a.fields[k]) <= Size(b.fields[k])
    ensures Size(a) <= Size(b)
    ensures (exists k | k in a.fields :: Size(a.fields[k]) < Size(b.fields[k])) ==> Size(a) < Size(b)
  {
    ObjLength(a, "");
    ObjLength(b, "");
    FieldsSizeGrows(a, b, Sorted(a.fields.Keys));
    if k :| k in a.fields && Size(a.fields[k]) < Size(b.fields[k]) {
      assert k in Sorted(a.fields.Keys);
    }
  }

  lemma {:induction false} SortKeepsSize(v: Value)
    ensures Size(SortLists(v)) == Size(v)
    decreases v, 1
  {
    match v
    case Obj(fields) =>
      forall k | k in fields { SortKeepsSize(fields[k]); }
      SizeOfObj(v, SortLists(v));
      SizeOfObj(SortLists(v), v);
    case Arr(items) =>
      SortAllKeepsSize(items);
      SortedSize(SortAll(items));
      SortByWorks(SortAll(items), Dumps);
      SameSize(SortByText(SortAll(items)), SortAll(items));
      SizeOfArr(items);
      SizeOfArr(SortByText(SortAll(items)));
    case _ =>
  }

  lemma {:induction false} SortAllKeepsSize(items: seq<Value>)
    ensures ItemsSize(SortAll(items)) == ItemsSize(items)
    decreases items, 0
  {
    if items != [] {
      SortKeepsSize(items[0]);
      SortAllKeepsSize(items[1..]);
    }
  }

  lemma {:induction false} IdentifyGrows(items: seq<Value>)
    requires forall i | 0 <= i < |items| :: Settled(items[i], true)
    ensures ItemsSize(IdentifyAll(items)) >= ItemsSize(items)
    ensures (exists i | 0 <= i < |items| :: !Settled(items[i], false)) ==>
      ItemsSize(IdentifyAll(items)) > ItemsSize(items)
  {
    if items != [] {
      IdentifyGrows(items[1..]);
      assert Settled(items[0], true);
      if !Settled(items[0], false) { UnnamedGrows(items[0]); }
      if i :| 0 <= i < |items| && !Settled(items[i], false) {
        assert i > 0 ==> !Settled(items[1..][i - 1], false);
      }
    }
  }

  lemma {:induction false} ReduceGrows(v: Value)
    requires Reduced(v, true)
    ensures Size(ReduceMembers(v)) >= Size(v)
    ensures !Reduced(v, false) ==> Size(ReduceMembers(v)) > Size(v)
    decreases v, 1
  {
    match v
    case Obj(fields) =>
      var r := ReduceMembers(v);
      assert r.fields.Keys == fields.Keys;
      forall k | k in fields
        ensures Size(r.fields[k]) >= Size(fields[k])
        ensures (!FieldReduced(v, k, false) ==> Size(r.fields[k]) > Size(fields[k]))
      {
        FieldGrows(v, k);
      }
      SizeOfObj(v, r);
    case Arr(items) =>
      ReduceAllGrows(items);
      SizeOfArr(items);
      SizeOfArr(ReduceAll(items));
    case _ =>
  }

  lemma {:induction false} FieldGrows(v: Value, k: string)
    requires v.Obj? && k in v.fields && FieldReduced(v, k, true)
    ensures k in ReduceMembers(v).fields
    ensures var r := ReduceMembers(v);
      && Size(r.fields[k]) >= Size(v.fields[k])
      && (!FieldReduced(v, k, false) ==> Size(r.fields[k]) > Size(v.fields[k]))
    decreases v, 0
  {
    if IsMemberList(v.fields, k) {
      IdentifyGrows(v.fields[k].items);
      SizeOfArr(v.fields[k].items);
      SizeOfArr(IdentifyAll(v.fields[k].items));
    } else {
      ReduceGrows(v.fields[k]);
    }
  }

  lemma {:induction false} ReduceAllGrows(items: seq<Value>)
    requires forall i | 0 <= i < |items| :: Reduced(items[i], true)
    ensures ItemsSize(ReduceAll(items)) >= ItemsSize(items)
    ensures (exists i | 0 <= i < |items| :: !Reduced(items[i], false)) ==>
      ItemsSize(ReduceAll(items)) > ItemsSize(items)
    decreases items, 0
  {
    if items != [] {
      ReduceGrows(items[0]);
      ReduceAllGrows(items[1..]);
      if i :| 0 <= i < |items| && !Reduced(items[i], false) {
        assert i > 0 ==> !Reduced(items[1..][i - 1], false);
      }
    }
  }

  // ---- the main result ----

  lemma SecondPassOnlyReduces(doc: Value)
    ensures var n := Normalize(doc); Normalize(n) == SortLists(ReduceMembers(n))
  {
    var c := CollapseEnabled(StripUrls(doc));
    StrippedAndCollapsedIsPlain(doc);
    ReduceKeepsPlain(c);
    SortKeepsPlain(ReduceMembers(c));
    PlainStays(Normalize(doc));
  }

  /** Normalizing a normalized document changes nothing exactly when, after the first two passes, every object in a
      users, teams or apps list carries a string login, slug or name. */
  lemma StableExactlyWhenNamed(doc: Value)
    ensures Normalize(Normalize(doc)) == Normalize(doc) <==> AllNamed(CollapseEnabled(StripUrls(doc)))
  {
    var c := CollapseEnabled(StripUrls(doc));
    var n := Normalize(doc);
    SecondPassOnlyReduces(doc);
    AfterPass(c);
    if AllNamed(c) {
      ReducedStays(n);
      SortTwice(ReduceMembers(c));
    } else {
      ReduceGrows(n);
      SortKeepsSize(ReduceMembers(n));
    }
  }

  /** One grantee object without a name is enough. */
  lemma UnnamedGranteeMoves(doc: Value)
    requires doc == Obj(map["users" := Arr([Obj(map[])])])
    ensures Normalize(Normalize(doc)) != Normalize(doc)
  {
    var item := Obj(map[]);
    assert StripUrls(item) == item && CollapseEnabled(item) == item;
    assert StripAll([item]) == [item] by { assert [item][1..] == []; }
    assert CollapseAll([item]) == [item] by { assert [item][1..] == []; }
    assert StripUrls(doc) == doc by { assert StripUrls(doc).fields == doc.fields; }
    assert CollapseEnabled(doc) == doc by { assert CollapseEnabled(doc).fields == doc.fields; }
    assert !FieldNamed(doc, "users") by { assert !Named(doc.fields["users"].items[0]); }
    StableExactlyWhenNamed(doc);
  }
}
