/**
 What normalizing keeps: everything but self-links, envelopes around a boolean, and what a grantee has beside its id and
 its name. Told twice, by the place of each value before the lists are sorted, and by key paths afterwards.
 */
module PostureKept {
  import opened Options
  import opened Json
  import opened KeySort
  import opened Posture
  import opened PostureStable

  // ---- places ----

  datatype Hop = Key(key: string) | Index(i: nat)

  /** What stands at a place of a document. */
  function At(v: Value, path: seq<Hop>): Option<Value>
    decreases |path|
  {
    if path == [] then Some(v)
    else match path[0]
      case Key(k) => if v.Obj? && k in v.fields then At(v.fields[k], path[1..]) else None
      case Index(i) => if v.Arr? && i < |v.items| then At(v.items[i], path[1..]) else None
  }

  predicate PastSelfLink(path: seq<Hop>) {
    exists i :: 0 <= i < |path| && path[i].Key? && IsUrlKey(path[i].key)
  }

  predicate Scalar(v: Value) {
    !v.Obj? && !v.Arr?
  }

  lemma {:induction false} StripAllAt(items: seq<Value>, i: nat)
    requires i < |items|
    ensures StripAll(items)[i] == StripUrls(items[i])
  {
    if i > 0 { StripAllAt(items[1..], i - 1); }
  }

  lemma PastLater(path: seq<Hop>)
    requires path != []
    ensures PastSelfLink(path) <==> (path[0].Key? && IsUrlKey(path[0].key)) || PastSelfLink(path[1..])
  {
    if PastSelfLink(path) {
      var i :| 0 <= i < |path| && path[i].Key? && IsUrlKey(path[i].key);
      assert i > 0 ==> path[1..][i - 1] == path[i];
    }
    if PastSelfLink(path[1..]) {
      var i :| 0 <= i < |path[1..]| && path[1..][i].Key? && IsUrlKey(path[1..][i].key);
      assert path[i + 1] == path[1..][i];
    }
  }

  /** The first pass takes away what is behind a self-link key, and leaves every other value in its place. */
  lemma {:induction false} StripAt(v: Value, path: seq<Hop>)
    ensures At(StripUrls(v), path) ==
      if PastSelfLink(path) || At(v, path).None? then None else Some(StripUrls(At(v, path).value))
    decreases |path|
  {
    if path != [] {
      PastLater(path);
      match path[0]
      case Key(k) => if v.Obj? && k in v.fields { StripAt(v.fields[k], path[1..]); }
      case Index(i) => if v.Arr? && i < |v.items| { StripAllAt(v.items, i); StripAt(v.items[i], path[1..]); }
    }
  }

  /** A scalar stands at a place of the stripped document exactly when it stands there in the document and no self-link
      key is on the way. */
  lemma StripKeepsScalars(v: Value, path: seq<Hop>, x: Value)
    requires Scalar(x)
    ensures At(StripUrls(v), path) == Some(x) <==> At(v, path) == Some(x) && !PastSelfLink(path)
  {
    StripAt(v, path);
  }

  // ---- envelopes ----

  function Seen(fields: map<string, Value>): set<string> {
    set k | k in fields && !IsUrlKey(k)
  }

  /** The boolean of a toggle, read off the raw document: bare, or in an envelope that holds nothing else but
      self-links, at any depth. */
  function Verdict(v: Value): Option<bool> {
    match v
    case Bool(b) => Some(b)
    case Obj(fields) => if Seen(fields) == {"enabled"} && "enabled" in fields then Verdict(fields["enabled"]) else None
    case _ => None
  }

  function Trimmed(v: Value): Value {
    CollapseEnabled(StripUrls(v))
  }

  function TrimmedAll(fields: map<string, Value>): map<string, Value> {
    map k | k in Seen(fields) :: Trimmed(fields[k])
  }

  /** The first two passes together, on an object. */
  lemma TrimmedObject(fields: map<string, Value>)
    ensures var all := TrimmedAll(fields); Trimmed(Obj(fields)) == if IsEnvelope(all) then all["enabled"] else Obj(all)
  {
    var stripped := StripUrls(Obj(fields)).fields;
    assert (map k | k in stripped :: CollapseEnabled(stripped[k])) == TrimmedAll(fields);
  }

  /** The first two passes make a boolean of exactly what reads as one, and it is the same boolean. */
  lemma {:induction false} VerdictIsKept(v: Value)
    ensures Trimmed(v).Bool? <==> Verdict(v).Some?
    ensures Verdict(v).Some? ==> Trimmed(v) == Bool(Verdict(v).value)
    decreases v
  {
    if v.Obj? {
      TrimmedObject(v.fields);
      assert TrimmedAll(v.fields).Keys == Seen(v.fields);
      if "enabled" in v.fields { VerdictIsKept(v.fields["enabled"]); }
    }
  }

  lemma TrimmedList(v: Value)
    ensures Trimmed(v).Arr? <==> v.Arr?
    ensures v.Arr? ==> |Trimmed(v).items| == |v.items|
  {
  }

  lemma {:induction false} CollapseAllAt(items: seq<Value>, i: nat)
    requires i < |items|
    ensures CollapseAll(items)[i] == CollapseEnabled(items[i])
  {
    if i > 0 { CollapseAllAt(items[1..], i - 1); }
  }

  lemma TrimmedItem(v: Value, i: nat)
    requires v.Arr? && i < |v.items|
    ensures Trimmed(v).Arr? && |Trimmed(v).items| == |v.items| && Trimmed(v).items[i] == Trimmed(v.items[i])
  {
    StripAllAt(v.items, i);
    CollapseAllAt(StripAll(v.items), i);
  }

  lemma TrimmedFields(v: Value)
    requires v.Obj? && Verdict(v).None?
    ensures Trimmed(v).Obj? && Trimmed(v).fields.Keys == Seen(v.fields)
    ensures forall k | k in Seen(v.fields) :: Trimmed(v).fields[k] == Trimmed(v.fields[k])
  {
    VerdictIsKept(v);
    TrimmedObject(v.fields);
  }

  // ---- the first three passes, place by place ----

  function Grantee(m: Value): Value {
    Identity(Trimmed(m))
  }

  /** A scalar, a toggle, an object or a list comes out as one. */
  lemma PreparedKind(v: Value)
    ensures Verdict(v).Some? ==> Prepare(v) == Bool(Verdict(v).value)
    ensures Verdict(v).None? && v.Obj? ==> Prepare(v).Obj? && Prepare(v).fields.Keys == Seen(v.fields)
    ensures v.Arr? ==> Prepare(v).Arr? && |Prepare(v).items| == |v.items|
    ensures Scalar(v) ==> Prepare(v) == v
  {
    VerdictIsKept(v);
    if v.Obj? && Verdict(v).None? { TrimmedFields(v); }
  }

  lemma PreparedField(v: Value, k: string)
    requires v.Obj? && Verdict(v).None? && k in Seen(v.fields)
    ensures Prepare(v).Obj? && k in Prepare(v).fields
    ensures !IsMemberList(v.fields, k) ==> Prepare(v).fields[k] == Prepare(v.fields[k])
    ensures IsMemberList(v.fields, k) ==>
      && Prepare(v).fields[k].Arr? && |Prepare(v).fields[k].items| == |v.fields[k].items|
      && forall i | 0 <= i < |v.fields[k].items| :: Prepare(v).fields[k].items[i] == Grantee(v.fields[k].items[i])
  {
    TrimmedFields(v);
    TrimmedList(v.fields[k]);
    if IsMemberList(v.fields, k) {
      forall i | 0 <= i < |v.fields[k].items| ensures Trimmed(v.fields[k]).items[i] == Trimmed(v.fields[k].items[i]) {
        TrimmedItem(v.fields[k], i);
      }
    }
  }

  lemma PreparedItem(v: Value, i: nat)
    requires v.Arr? && i < |v.items|
    ensures Prepare(v).Arr? && |Prepare(v).items| == |v.items| && Prepare(v).items[i] == Prepare(v.items[i])
  {
    TrimmedItem(v, i);
    ReduceAllAt(Trimmed(v).items, i);
  }

  /** What a reader of the raw document finds at a place: nothing behind a self-link key or inside a toggle; `None` too
      where a list of grantees begins, which is told apart. */
  function Found(v: Value, path: seq<Hop>): Option<Value>
    decreases |path|
  {
    if path == [] then Some(v)
    else if Verdict(v).Some? then None
    else match path[0]
      case Key(k) =>
        if v.Obj? && k in v.fields && !IsUrlKey(k) && !IsMemberList(v.fields, k) then Found(v.fields[k], path[1..])
        else None
      case Index(i) => if v.Arr? && i < |v.items| then Found(v.items[i], path[1..]) else None
  }

  /** The place is in or at a list of grantees. */
  predicate AmongGrantees(v: Value, path: seq<Hop>)
    decreases |path|
  {
    path != [] && Verdict(v).None? &&
    match path[0]
    case Key(k) =>
      v.Obj? && k in v.fields && !IsUrlKey(k) && (IsMemberList(v.fields, k) || AmongGrantees(v.fields[k], path[1..]))
    case Index(i) => v.Arr? && i < |v.items| && AmongGrantees(v.items[i], path[1..])
  }

  /** Outside lists of grantees the first three passes leave each value a reader finds in its place, and put nothing
      where there was nothing. */
  lemma {:induction false} PreparedAt(v: Value, path: seq<Hop>)
    requires !AmongGrantees(v, path)
    ensures At(Prepare(v), path) == if Found(v, path).None? then None else Some(Prepare(Found(v, path).value))
    decreases |path|
  {
    if path != [] {
      PreparedKind(v);
      if Verdict(v).None? {
        match path[0]
        case Key(k) =>
          if v.Obj? && k in Seen(v.fields) {
            PreparedField(v, k);
            PreparedAt(v.fields[k], path[1..]);
          }
        case Index(i) =>
          if v.Arr? && i < |v.items| {
            PreparedItem(v, i);
            PreparedAt(v.items[i], path[1..]);
          }
      }
    }
  }

  // ---- grantees ----

  /** The first of login, slug and name that is a string. */
  function NameOf(fields: map<string, Value>): Option<(string, string)> {
    if Carries(fields, "login") then Some(("login", fields["login"].s))
    else if Carries(fields, "slug") then Some(("slug", fields["slug"].s))
    else if Carries(fields, "name") then Some(("name", fields["name"].s))
    else None
  }

  function IdOf(fields: map<string, Value>): Option<Value> {
    if "id" in fields then Some(fields["id"]) else None
  }

  /** The same account: the same id, and the same name under the same key; without a name the very same object. */
  predicate SameGrantee(a: Value, b: Value) {
    if a.Obj? && b.Obj? then
      IdOf(a.fields) == IdOf(b.fields) && NameOf(a.fields) == NameOf(b.fields) && (NameOf(a.fields).None? ==> a == b)
    else a == b
  }

  /** The key and the text a grantee goes by. */
  function NameOrText(m: Value): (string, string)
    requires m.Obj?
  {
    if NameOf(m.fields).Some? then NameOf(m.fields).value else ("unidentified", Dumps(m))
  }

  lemma IdentityIs(m: Value)
    requires m.Obj?
    ensures NameOrText(m).0 != "id"
    ensures Identity(m) == Obj(IdOnly(m.fields)[NameOrText(m).0 := Str(NameOrText(m).1)])
  {
  }

  /** The id survives, and the name under its key; and nothing else does. */
  lemma IdentityKeeps(m: Value)
    requires m.Obj?
    ensures Identity(m).Obj? && IdOf(Identity(m).fields) == IdOf(m.fields)
    ensures HoldsBesideId(Identity(m).fields, NameOrText(m).0, NameOrText(m).1)
  {
    IdentityIs(m);
    assert Identity(m).fields.Keys == IdOnly(m.fields).Keys + {NameOrText(m).0};
  }

  /** Two grantees reduce alike exactly when they are the same account. */
  lemma GranteesAlikeExactlyWhen(a: Value, b: Value)
    ensures Identity(a) == Identity(b) <==> SameGrantee(a, b)
  {
    if a.Obj? { IdentityKeeps(a); }
    if b.Obj? { IdentityKeeps(b); }
    if a.Obj? && b.Obj? && Identity(a) == Identity(b) {
      AlikeMeansSame(a, b);
    }
  }

  predicate HoldsBesideId(out: map<string, Value>, key: string, text: string) {
    out.Keys - {"id"} == {key} && out[key] == Str(text)
  }

  lemma OneBesideId(out: map<string, Value>, key: string, text: string, key': string, text': string)
    requires HoldsBesideId(out, key, text) && HoldsBesideId(out, key', text')
    ensures key == key' && text == text'
  {
    assert key in out.Keys - {"id"} && key' in out.Keys - {"id"};
  }

  lemma SameNameOrText(a: Value, b: Value)
    requires a.Obj? && b.Obj? && NameOrText(a) == NameOrText(b)
    ensures NameOf(a.fields) == NameOf(b.fields) && (NameOf(a.fields).None? ==> a == b)
  {
    if NameOf(a.fields).None? { DumpsIsInjective(a, b); }
  }

  lemma AlikeMeansSame(a: Value, b: Value)
    requires a.Obj? && b.Obj? && Identity(a) == Identity(b)
    ensures SameGrantee(a, b)
  {
    IdentityKeeps(a);
    IdentityKeeps(b);
    OneBesideId(Identity(a).fields, NameOrText(a).0, NameOrText(a).1, NameOrText(b).0, NameOrText(b).1);
    SameNameOrText(a, b);
  }

  // ---- key paths: what is left when lists may be permuted ----

  /** What may stand at the end of a key path: a scalar, an object with its keys, or a list with its length. */
  datatype Note = Leaf(value: Value) | Object(keys: set<string>) | List(size: nat)

  function Ends(keys: seq<string>, note: Note): multiset<Note> {
    if keys == [] then multiset{note} else multiset{}
  }

  /** Everything at a key path, the items of lists pooled. */
  function Notes(v: Value, keys: seq<string>): multiset<Note>
    decreases v, 1
  {
    match v
    case Obj(fields) =>
      if keys == [] then multiset{Object(fields.Keys)}
      else if keys[0] in fields then Notes(fields[keys[0]], keys[1..]) else multiset{}
    case Arr(items) => Ends(keys, List(|items|)) + AllNotes(items, keys)
    case _ => Ends(keys, Leaf(v))
  }

  function AllNotes(items: seq<Value>, keys: seq<string>): multiset<Note>
    decreases items, 0
  {
    if items == [] then multiset{} else Notes(items[0], keys) + AllNotes(items[1..], keys)
  }

  lemma Regroup(a: multiset<Note>, b: multiset<Note>, c: multiset<Note>)
    ensures a + (b + c) == (a + b) + c && a + (b + c) == b + (a + c)
  {
  }

  lemma FirstNotes(x: Value, xs: seq<Value>, keys: seq<string>)
    ensures AllNotes([x] + xs, keys) == Notes(x, keys) + AllNotes(xs, keys)
  {
    assert ([x] + xs)[1..] == xs;
  }

  lemma FirstOfAll(ys: seq<Value>, keys: seq<string>)
    requires ys != []
    ensures AllNotes(ys, keys) == Notes(ys[0], keys) + AllNotes(ys[1..], keys)
  {
  }

  /** An item may stand anywhere in its list. */
  lemma {:induction false} AllNotesWithout(ys: seq<Value>, i: nat, keys: seq<string>)
    requires i < |ys|
    ensures AllNotes(ys, keys) == Notes(ys[i], keys) + AllNotes(Without(ys, i), keys)
  {
    if i == 0 {
      assert Without(ys, 0) == ys[1..];
    } else {
      AllNotesWithout(ys[1..], i - 1, keys);
      assert Without(ys, i) == [ys[0]] + Without(ys[1..], i - 1);
      FirstNotes(ys[0], Without(ys[1..], i - 1), keys);
      FirstOfAll(ys, keys);
      Regroup(Notes(ys[0], keys), Notes(ys[i], keys), AllNotes(Without(ys[1..], i - 1), keys));
    }
  }

  lemma {:induction false} OrderIsNotNoted(a: Value, b: Value, keys: seq<string>)
    requires SameButOrder(a, b)
    ensures Notes(a, keys) == Notes(b, keys)
    decreases a, 1
  {
    match a
    case Obj(fields) =>
      if keys != [] && keys[0] in fields { OrderIsNotNoted(fields[keys[0]], b.fields[keys[0]], keys[1..]); }
    case Arr(items) => RearrangingIsNotNoted(items, b.items, keys);
    case _ =>
  }

  lemma {:induction false} RearrangingIsNotNoted(xs: seq<Value>, ys: seq<Value>, keys: seq<string>)
    requires Rearranged(xs, ys)
    ensures AllNotes(xs, keys) == AllNotes(ys, keys) && |xs| == |ys|
    decreases xs, 0
  {
    if xs != [] {
      var i :| 0 <= i < |ys| && SameButOrder(xs[0], ys[i]) && Rearranged(xs[1..], Without(ys, i));
      OrderIsNotNoted(xs[0], ys[i], keys);
      RearrangingIsNotNoted(xs[1..], Without(ys, i), keys);
      AllNotesWithout(ys, i, keys);
    }
  }

  // ---- the raw document, read along key paths ----

  /** The same off the raw document: self-link keys are not there, a toggle is its boolean, and a grantee its id and
      name. */
  function Reading(v: Value, keys: seq<string>): multiset<Note>
    decreases v, 1
  {
    if Verdict(v).Some? then Ends(keys, Leaf(Bool(Verdict(v).value)))
    else match v
      case Obj(fields) =>
        if keys == [] then multiset{Object(Seen(fields))}
        else if keys[0] !in Seen(fields) then multiset{}
        else if IsMemberList(fields, keys[0]) then
          Ends(keys[1..], List(|fields[keys[0]].items|)) + Grantees(fields[keys[0]].items, keys[1..])
        else Reading(fields[keys[0]], keys[1..])
      case Arr(items) => Ends(keys, List(|items|)) + AllReadings(items, keys)
      case _ => Ends(keys, Leaf(v))
  }

  function AllReadings(items: seq<Value>, keys: seq<string>): multiset<Note>
    decreases items, 0
  {
    if items == [] then multiset{} else Reading(items[0], keys) + AllReadings(items[1..], keys)
  }

  function Grantees(items: seq<Value>, keys: seq<string>): multiset<Note> {
    if items == [] then multiset{} else Notes(Grantee(items[0]), keys) + Grantees(items[1..], keys)
  }

  lemma {:induction false} GranteesAreNoted(items: seq<Value>, reduced: seq<Value>, keys: seq<string>)
    requires |reduced| == |items| && forall i | 0 <= i < |items| :: reduced[i] == Grantee(items[i])
    ensures AllNotes(reduced, keys) == Grantees(items, keys)
  {
    if items != [] { GranteesAreNoted(items[1..], reduced[1..], keys); }
  }

  lemma {:induction false} PreparedIsRead(v: Value, keys: seq<string>)
    ensures Notes(Prepare(v), keys) == Reading(v, keys)
    decreases v, 1
  {
    PreparedKind(v);
    if Verdict(v).None? {
      match v
      case Obj(fields) =>
        if keys != [] && keys[0] in Seen(fields) {
          PreparedField(v, keys[0]);
          if IsMemberList(fields, keys[0]) {
            GranteesAreNoted(fields[keys[0]].items, Prepare(v).fields[keys[0]].items, keys[1..]);
          } else {
            PreparedIsRead(fields[keys[0]], keys[1..]);
          }
        }
      case Arr(items) =>
        forall i | 0 <= i < |items| ensures Prepare(v).items[i] == Prepare(items[i]) { PreparedItem(v, i); }
        AllPreparedAreRead(items, Prepare(v).items, keys);
      case _ =>
    }
  }

  lemma {:induction false} AllPreparedAreRead(items: seq<Value>, prepared: seq<Value>, keys: seq<string>)
    requires |prepared| == |items| && forall i | 0 <= i < |items| :: prepared[i] == Prepare(items[i])
    ensures AllNotes(prepared, keys) == AllReadings(items, keys)
    decreases items, 0
  {
    if items != [] {
      PreparedIsRead(items[0], keys);
      AllPreparedAreRead(items[1..], prepared[1..], keys);
    }
  }

  lemma SortingIsReordering(v: Value)
    ensures SameButOrder(SortLists(v), v)
  {
    SortTwice(v);
    SortedAlikeMeansSame(SortLists(v), v);
  }

  /** Along every key path the normalized document holds exactly what a reader finds in the raw one: every key that is
      no self-link, every scalar and every length, as often as it is there. */
  lemma NothingElseIsLost(doc: Value, keys: seq<string>)
    ensures Notes(Normalize(doc), keys) == Reading(doc, keys)
  {
    SortingIsReordering(Prepare(doc));
    OrderIsNotNoted(Normalize(doc), Prepare(doc), keys);
    PreparedIsRead(doc, keys);
  }

  /** So documents that read differently along some key path never normalize alike. */
  lemma DriftIsSeen(a: Value, b: Value, keys: seq<string>)
    requires Reading(a, keys) != Reading(b, keys)
    ensures Normalize(a) != Normalize(b)
  {
    NothingElseIsLost(a, keys);
    NothingElseIsLost(b, keys);
  }

  /** A member of a list of grantees whose id changes is read differently. */
  lemma IdIsNoted(m: Value)
    requires m.Obj?
    ensures Notes(Identity(m), ["id"]) == if "id" in m.fields then Notes(m.fields["id"], []) else multiset{}
  {
    IdentityKeeps(m);
    assert ["id"][1..] == [];
  }

  /** The envelope as GitHub sends it: a self-link beside the toggle. */
  lemma ToggleIsKept(fields: map<string, Value>, k: string, link: Value, on: bool)
    requires k in fields && !IsUrlKey(k) && k != "enabled"
    requires fields[k] == Obj(map["url" := link, "enabled" := Bool(on)])
    ensures Reading(Obj(fields), [k]) == multiset{Leaf(Bool(on))}
  {
    var envelope: map<string, Value> := map["url" := link, "enabled" := Bool(on)];
    assert "enabled"[3..][0] == 'b';
    assert Seen(envelope) == {"enabled"};
    assert envelope["enabled"] == Bool(on) && Verdict(Bool(on)) == Some(on);
    assert Verdict(Obj(envelope)) == Some(on);
    assert k in Seen(fields) && Verdict(Obj(fields)).None?;
    assert [k][1..] == [];
    assert Reading(Obj(fields), [k]) == Reading(Obj(envelope), []);
  }
}
