/**
 JSON values and their canonical text, `json.dumps(v, sort_keys=True)`. The functions write a value in front of the
 text that follows it, which is how the text is shown to determine the value.
 */
module Json {
  import opened StringOrder
  import opened Decimal

  // ---- what numbers are spelled with ----

  predicate NumberHead(c: char) {
    IsDigit(c) || c in {'-', 'N', 'I'}
  }

  predicate NumberChar(c: char) {
    NumberHead(c) || c in {'.', 'e', '+', 'a', 'n', 'f', 'i', 't', 'y'}
  }

  /** The repr of a float: 1.5, 1e+16, -0.0, Infinity, NaN and the like; never the spelling of an integer. */
  predicate IsFloatText(s: string) {
    && s != "" && NumberHead(s[0])
    && (forall i | 0 <= i < |s| :: NumberChar(s[i]))
    && exists i :: 0 <= i < |s| && !IsDigit(s[i]) && s[i] != '-'
  }

  type FloatText = s: string | IsFloatText(s) witness FloatWitness()

  function FloatWitness(): (s: string)
    ensures IsFloatText(s)
  {
    var s := "0.0";
    assert s[1] == '.';
    s
  }

  /** A float is its repr, which no other float has. */
  datatype Value =
    | Null
    | Bool(b: bool)
    | Num(n: int)
    | Frac(text: FloatText)
    | Str(s: string)
    | Arr(items: seq<Value>)
    | Obj(fields: map<string, Value>)

  // ---- strings: everything outside printable ASCII is escaped ----

  function HexDigit(d: nat): char
    requires d < 16
  {
    if d < 10 then ('0' as int + d) as char else ('a' as int + (d - 10)) as char
  }

  function Unit(u: nat): string
    requires u < 0x10000
  {
    ['\\', 'u', HexDigit(u / 16 / 16 / 16), HexDigit(u / 16 / 16 % 16), HexDigit(u / 16 % 16), HexDigit(u % 16)]
  }

  predicate Plain(c: char) {
    ' ' <= c <= '~' && c != '"' && c != '\\'
  }

  /** Escaped by a backslash and one letter. */
  predicate Short(c: char) {
    c in {'"', '\\', '\n', '\r', '\t'} || c as int == 12 || c as int == 8
  }

  function Letter(c: char): char
    requires Short(c)
  {
    if c == '\n' then 'n' else if c == '\r' then 'r' else if c == '\t' then 't'
    else if c as int == 12 then 'f' else if c as int == 8 then 'b' else c
  }

  predicate Astral(c: char) {
    c as int >= 0x10000
  }

  function HighHalf(c: char): nat
    requires Astral(c)
  {
    0xD800 + (c as int - 0x10000) / 1024
  }

  function LowHalf(c: char): nat
    requires Astral(c)
  {
    0xDC00 + (c as int - 0x10000) % 1024
  }

  function Escape(c: char, rest: string): string {
    if Plain(c) then [c] + rest
    else if Short(c) then ['\\', Letter(c)] + rest
    else if Astral(c) then Unit(HighHalf(c)) + (Unit(LowHalf(c)) + rest)
    else Unit(c as int) + rest
  }

  function Chars(s: string, rest: string): string {
    if s == "" then ['"'] + rest else Escape(s[0], Chars(s[1..], rest))
  }

  function Quote(s: string, rest: string): string {
    ['"'] + Chars(s, rest)
  }

  // ---- values ----

  function Write(v: Value, rest: string): string
    decreases v, 3
  {
    match v
    case Null => "null" + rest
    case Bool(b) => (if b then "true" else "false") + rest
    case Num(n) => if n < 0 then "-" + (Digits(-n) + rest) else Digits(n) + rest
    case Frac(text) => text + rest
    case Str(s) => Quote(s, rest)
    case Arr(items) => "[" + (if items == [] then "]" + rest else Write(items[0], MoreItems(items[1..], rest)))
    case Obj(fields) => "{" + Fields(v, Sorted(fields.Keys), rest)
  }

  function MoreItems(items: seq<Value>, rest: string): string
    decreases items, 0
  {
    if items == [] then "]" + rest else ", " + Write(items[0], MoreItems(items[1..], rest))
  }

  function Field(o: Value, key: string, rest: string): string
    requires o.Obj? && key in o.fields
    decreases o, 0
  {
    Quote(key, ": " + Write(o.fields[key], rest))
  }

  function Fields(o: Value, keys: seq<string>, rest: string): string
    requires o.Obj? && forall k | k in keys :: k in o.fields
    decreases o, 2
  {
    if keys == [] then "}" + rest else Field(o, keys[0], MoreFields(o, keys[1..], rest))
  }

  function MoreFields(o: Value, keys: seq<string>, rest: string): string
    requires o.Obj? && forall k | k in keys :: k in o.fields
    decreases o, 1, |keys|
  {
    if keys == [] then "}" + rest else ", " + Field(o, keys[0], MoreFields(o, keys[1..], rest))
  }

  function Dumps(v: Value): string {
    Write(v, "")
  }

  // ---- the text determines the value ----

  lemma Cut(a: string, b: string, r: string, t: string)
    requires a + r == b + t && |a| == |b|
    ensures a == b && r == t
  {
    assert a == (a + r)[..|a|] && b == (b + t)[..|b|];
    assert r == (a + r)[|a|..] && t == (b + t)[|b|..];
  }

  lemma HexDigitInjective(d: nat, e: nat)
    requires d < 16 && e < 16 && HexDigit(d) == HexDigit(e)
    ensures d == e
  {
  }

  lemma UnitInjective(u: nat, v: nat)
    requires u < 0x10000 && v < 0x10000 && Unit(u) == Unit(v)
    ensures u == v
  {
    assert Unit(u)[2] == Unit(v)[2] && Unit(u)[3] == Unit(v)[3] && Unit(u)[4] == Unit(v)[4] && Unit(u)[5] == Unit(v)[5];
    HexDigitInjective(u / 16 / 16 / 16, v / 16 / 16 / 16);
    HexDigitInjective(u / 16 / 16 % 16, v / 16 / 16 % 16);
    HexDigitInjective(u / 16 % 16, v / 16 % 16);
    HexDigitInjective(u % 16, v % 16);
  }

  lemma UnitPrefixFree(u: nat, v: nat, r: string, t: string)
    requires u < 0x10000 && v < 0x10000 && Unit(u) + r == Unit(v) + t
    ensures u == v && r == t
  {
    Cut(Unit(u), Unit(v), r, t);
    UnitInjective(u, v);
  }

  /** The first code unit written for a character that is neither plain nor short, and the text after it. */
  function FirstUnit(c: char): nat
    ensures FirstUnit(c) < 0x110000
  {
    if Astral(c) then HighHalf(c) else c as int
  }

  function AfterFirstUnit(c: char, rest: string): string {
    if Astral(c) then Unit(LowHalf(c)) + rest else rest
  }

  /** A lone code unit is never the first half of a surrogate pair. */
  lemma UnitsPrefixFree(c: char, d: char, r: string, t: string)
    requires !Plain(c) && !Short(c) && !Plain(d) && !Short(d) && Escape(c, r) == Escape(d, t)
    ensures c == d && r == t
  {
    UnitPrefixFree(FirstUnit(c), FirstUnit(d), AfterFirstUnit(c, r), AfterFirstUnit(d, t));
    if Astral(c) && Astral(d) {
      UnitPrefixFree(LowHalf(c), LowHalf(d), r, t);
    }
  }

  lemma ShortPrefixFree(c: char, d: char, r: string, t: string)
    requires Short(c) && Short(d) && Escape(c, r) == Escape(d, t)
    ensures c == d && r == t
  {
    Cut(['\\', Letter(c)], ['\\', Letter(d)], r, t);
    assert ['\\', Letter(c)][1] == ['\\', Letter(d)][1];
  }

  lemma EscapeHead(c: char, r: string)
    ensures |Escape(c, r)| > 0 && Escape(c, r)[0] == if Plain(c) then c else '\\'
    ensures !Plain(c) ==> |Escape(c, r)| > 1 && Escape(c, r)[1] == if Short(c) then Letter(c) else 'u'
  {
  }

  lemma EscapePrefixFree(c: char, d: char, r: string, t: string)
    requires Escape(c, r) == Escape(d, t)
    ensures c == d && r == t
  {
    EscapeHead(c, r);
    EscapeHead(d, t);
    if Plain(c) {
      Cut([c], [d], r, t);
    } else if Short(c) {
      ShortPrefixFree(c, d, r, t);
    } else {
      UnitsPrefixFree(c, d, r, t);
    }
  }

  lemma CharsHead(s: string, r: string)
    ensures |Chars(s, r)| > 0 && (Chars(s, r)[0] == '"' <==> s == "")
  {
    if s != "" { EscapeHead(s[0], Chars(s[1..], r)); }
  }

  lemma {:induction false} CharsPrefixFree(s: string, u: string, r: string, t: string)
    requires Chars(s, r) == Chars(u, t)
    ensures s == u && r == t
  {
    CharsHead(s, r);
    CharsHead(u, t);
    if s == "" {
      Cut(['"'], ['"'], r, t);
    } else {
      EscapePrefixFree(s[0], u[0], Chars(s[1..], r), Chars(u[1..], t));
      CharsPrefixFree(s[1..], u[1..], r, t);
      assert s == [s[0]] + s[1..] && u == [u[0]] + u[1..];
    }
  }

  lemma QuotePrefixFree(s: string, u: string, r: string, t: string)
    requires Quote(s, r) == Quote(u, t)
    ensures s == u && r == t
  {
    Cut(['"'], ['"'], Chars(s, r), Chars(u, t));
    CharsPrefixFree(s, u, r, t);
  }

  /** What may follow a value: nothing, a comma or a closing bracket. */
  predicate AfterValue(r: string) {
    r == "" || r[0] in {',', ']', '}'}
  }

  lemma NextChar(a: string, b: string, r: string, t: string)
    requires a + r == b + t && |a| < |b|
    ensures r != "" && r[0] == b[|a|]
  {
    assert (a + r)[|a|] == r[0];
    assert (b + t)[|a|] == b[|a|];
  }

  /** A number ends where the text after it begins. */
  lemma RunsEndTogether(a: string, b: string, r: string, t: string)
    requires a + r == b + t && AfterValue(r)
    requires forall i | 0 <= i < |b| :: NumberChar(b[i])
    ensures |b| <= |a|
  {
    if |a| < |b| { NextChar(a, b, r, t); }
  }

  function NumberText(v: Value): string
    requires v.Num? || v.Frac?
  {
    if v.Frac? then v.text else if v.n < 0 then "-" + Digits(-v.n) else Digits(v.n)
  }

  lemma NumberIsWritten(v: Value, r: string)
    requires v.Num? || v.Frac?
    ensures Write(v, r) == NumberText(v) + r
    ensures NumberText(v) != "" && NumberHead(NumberText(v)[0])
    ensures forall i | 0 <= i < |NumberText(v)| :: NumberChar(NumberText(v)[i])
    ensures v.Num? ==> forall i | 0 <= i < |NumberText(v)| :: IsDigit(NumberText(v)[i]) || NumberText(v)[i] == '-'
  {
    if v.Num? {
      DigitsSpell(if v.n < 0 then -v.n else v.n);
      if v.n < 0 { assert "-" + (Digits(-v.n) + r) == "-" + Digits(-v.n) + r; }
    }
  }

  lemma SignShows(n: int)
    ensures NumberText(Num(n)) != "" && (NumberText(Num(n))[0] == '-' <==> n < 0)
  {
    DigitsSpell(if n < 0 then -n else n);
  }

  lemma SameIntegerText(n: int, m: int)
    requires NumberText(Num(n)) == NumberText(Num(m))
    ensures n == m
  {
    SignShows(n);
    SignShows(m);
    if n < 0 {
      Cut("-", "-", Digits(-n), Digits(-m));
      DigitsInjective(-n, -m);
    } else {
      DigitsInjective(n, m);
    }
  }

  lemma NumberPrefixFree(a: Value, b: Value, r: string, t: string)
    requires (a.Num? || a.Frac?) && (b.Num? || b.Frac?)
    requires Write(a, r) == Write(b, t) && AfterValue(r) && AfterValue(t)
    ensures a == b && r == t
  {
    NumberIsWritten(a, r);
    NumberIsWritten(b, t);
    RunsEndTogether(NumberText(a), NumberText(b), r, t);
    RunsEndTogether(NumberText(b), NumberText(a), t, r);
    Cut(NumberText(a), NumberText(b), r, t);
    if a.Num? && b.Num? { SameIntegerText(a.n, b.n); }
  }

  /** Each kind of value starts with characters of its own. */
  predicate StartsLike(v: Value, c: char) {
    match v
    case Null => c == 'n'
    case Bool(b) => c == if b then 't' else 'f'
    case Num(_) => NumberHead(c)
    case Frac(_) => NumberHead(c)
    case Str(_) => c == '"'
    case Arr(_) => c == '['
    case Obj(_) => c == '{'
  }

  lemma WriteHead(v: Value, r: string)
    ensures |Write(v, r)| > 0 && StartsLike(v, Write(v, r)[0])
  {
    if v.Num? || v.Frac? { NumberIsWritten(v, r); }
  }

  lemma {:induction false} WritePrefixFree(a: Value, b: Value, r: string, t: string)
    requires Write(a, r) == Write(b, t) && AfterValue(r) && AfterValue(t)
    ensures a == b && r == t
    decreases a, 4
  {
    WriteHead(a, r);
    WriteHead(b, t);
    match a
    case Null => Cut("null", "null", r, t);
    case Bool(v) => Cut(if v then "true" else "false", if v then "true" else "false", r, t);
    case Num(_) => NumberPrefixFree(a, b, r, t);
    case Frac(_) => NumberPrefixFree(a, b, r, t);
    case Str(s) => QuotePrefixFree(s, b.s, r, t);
    case Arr(items) => ItemsPrefixFree(items, b.items, r, t);
    case Obj(fields) => FieldsPrefixFree(a, b, r, t);
  }

  lemma MoreItemsHead(xs: seq<Value>, r: string)
    ensures AfterValue(MoreItems(xs, r)) && (MoreItems(xs, r)[0] == ']' <==> xs == [])
  {
  }

  lemma SameFirstItem(xs: seq<Value>, ys: seq<Value>, r: string, t: string)
    requires Write(Arr(xs), r) == Write(Arr(ys), t)
    ensures xs == [] <==> ys == []
    ensures if xs == [] then r == t else Write(xs[0], MoreItems(xs[1..], r)) == Write(ys[0], MoreItems(ys[1..], t))
  {
    var x := if xs == [] then "]" + r else Write(xs[0], MoreItems(xs[1..], r));
    var y := if ys == [] then "]" + t else Write(ys[0], MoreItems(ys[1..], t));
    Cut("[", "[", x, y);
    if xs != [] { WriteHead(xs[0], MoreItems(xs[1..], r)); }
    if ys != [] { WriteHead(ys[0], MoreItems(ys[1..], t)); }
    if xs == [] && ys == [] { Cut("]", "]", r, t); }
  }

  lemma {:induction false} ItemsPrefixFree(xs: seq<Value>, ys: seq<Value>, r: string, t: string)
    requires Write(Arr(xs), r) == Write(Arr(ys), t) && AfterValue(r) && AfterValue(t)
    ensures xs == ys && r == t
    decreases xs, 1
  {
    SameFirstItem(xs, ys, r, t);
    if xs != [] {
      MoreItemsHead(xs[1..], r);
      MoreItemsHead(ys[1..], t);
      WritePrefixFree(xs[0], ys[0], MoreItems(xs[1..], r), MoreItems(ys[1..], t));
      MoreItemsPrefixFree(xs[1..], ys[1..], r, t);
      assert xs == [xs[0]] + xs[1..] && ys == [ys[0]] + ys[1..];
    }
  }

  lemma {:induction false} MoreItemsPrefixFree(xs: seq<Value>, ys: seq<Value>, r: string, t: string)
    requires MoreItems(xs, r) == MoreItems(ys, t) && AfterValue(r) && AfterValue(t)
    ensures xs == ys && r == t
    decreases xs, 0
  {
    MoreItemsHead(xs, r);
    MoreItemsHead(ys, t);
    if xs == [] {
      Cut("]", "]", r, t);
    } else {
      MoreItemsHead(xs[1..], r);
      MoreItemsHead(ys[1..], t);
      Cut(", ", ", ", Write(xs[0], MoreItems(xs[1..], r)), Write(ys[0], MoreItems(ys[1..], t)));
      WritePrefixFree(xs[0], ys[0], MoreItems(xs[1..], r), MoreItems(ys[1..], t));
      MoreItemsPrefixFree(xs[1..], ys[1..], r, t);
      assert xs == [xs[0]] + xs[1..] && ys == [ys[0]] + ys[1..];
    }
  }

  ghost predicate SameFields(a: Value, b: Value, ka: seq<string>, kb: seq<string>)
    requires a.Obj? && b.Obj?
  {
    ka == kb && forall k | k in ka :: k in a.fields && k in b.fields && a.fields[k] == b.fields[k]
  }

  lemma {:induction false} FieldPrefixFree(a: Value, b: Value, k: string, l: string, r: string, t: string)
    requires a.Obj? && b.Obj? && k in a.fields && l in b.fields
    requires Field(a, k, r) == Field(b, l, t) && AfterValue(r) && AfterValue(t)
    ensures k == l && a.fields[k] == b.fields[l] && r == t
    decreases a, 0
  {
    QuotePrefixFree(k, l, ": " + Write(a.fields[k], r), ": " + Write(b.fields[l], t));
    Cut(": ", ": ", Write(a.fields[k], r), Write(b.fields[l], t));
    WritePrefixFree(a.fields[k], b.fields[l], r, t);
  }

  lemma MoreFieldsHead(o: Value, keys: seq<string>, r: string)
    requires o.Obj? && forall k | k in keys :: k in o.fields
    ensures AfterValue(MoreFields(o, keys, r)) && (MoreFields(o, keys, r)[0] == '}' <==> keys == [])
  {
  }

  lemma {:induction false} MoreFieldsPrefixFree(a: Value, b: Value, ka: seq<string>, kb: seq<string>, r: string,
        t: string)
    requires a.Obj? && b.Obj?
    requires (forall k | k in ka :: k in a.fields) && (forall k | k in kb :: k in b.fields)
    requires MoreFields(a, ka, r) == MoreFields(b, kb, t) && AfterValue(r) && AfterValue(t)
    ensures SameFields(a, b, ka, kb) && r == t
    decreases a, 1, |ka|
  {
    MoreFieldsHead(a, ka, r);
    MoreFieldsHead(b, kb, t);
    if ka == [] {
      Cut("}", "}", r, t);
    } else {
      MoreFieldsHead(a, ka[1..], r);
      MoreFieldsHead(b, kb[1..], t);
      Cut(", ", ", ", Field(a, ka[0], MoreFields(a, ka[1..], r)), Field(b, kb[0], MoreFields(b, kb[1..], t)));
      FieldPrefixFree(a, b, ka[0], kb[0], MoreFields(a, ka[1..], r), MoreFields(b, kb[1..], t));
      MoreFieldsPrefixFree(a, b, ka[1..], kb[1..], r, t);
      assert ka == [ka[0]] + ka[1..] && kb == [kb[0]] + kb[1..];
    }
  }

  lemma FieldsHead(o: Value, keys: seq<string>, r: string)
    requires o.Obj? && forall k | k in keys :: k in o.fields
    ensures |Fields(o, keys, r)| > 0 && (Fields(o, keys, r)[0] == '}' <==> keys == [])
  {
  }

  lemma {:induction false} AllFieldsPrefixFree(a: Value, b: Value, ka: seq<string>, kb: seq<string>, r: string,
        t: string)
    requires a.Obj? && b.Obj?
    requires (forall k | k in ka :: k in a.fields) && (forall k | k in kb :: k in b.fields)
    requires Fields(a, ka, r) == Fields(b, kb, t) && AfterValue(r) && AfterValue(t)
    ensures SameFields(a, b, ka, kb) && r == t
    decreases a, 2
  {
    FieldsHead(a, ka, r);
    FieldsHead(b, kb, t);
    if ka == [] {
      Cut("}", "}", r, t);
    } else {
      MoreFieldsHead(a, ka[1..], r);
      MoreFieldsHead(b, kb[1..], t);
      FieldPrefixFree(a, b, ka[0], kb[0], MoreFields(a, ka[1..], r), MoreFields(b, kb[1..], t));
      MoreFieldsPrefixFree(a, b, ka[1..], kb[1..], r, t);
      assert ka == [ka[0]] + ka[1..] && kb == [kb[0]] + kb[1..];
    }
  }

  lemma {:induction false} FieldsPrefixFree(a: Value, b: Value, r: string, t: string)
    requires a.Obj? && b.Obj?
    requires Write(a, r) == Write(b, t) && AfterValue(r) && AfterValue(t)
    ensures a == b && r == t
    decreases a, 3
  {
    var ka, kb := Sorted(a.fields.Keys), Sorted(b.fields.Keys);
    Cut("{", "{", Fields(a, ka, r), Fields(b, kb, t));
    AllFieldsPrefixFree(a, b, ka, kb, r, t);
    SameFieldsSameObject(a, b);
  }

  lemma SameFieldsSameObject(a: Value, b: Value)
    requires a.Obj? && b.Obj? && SameFields(a, b, Sorted(a.fields.Keys), Sorted(b.fields.Keys))
    ensures a == b
  {
    SortedListsKeys(a.fields);
    SortedListsKeys(b.fields);
    SameMaps(a.fields, b.fields, Sorted(a.fields.Keys));
  }

  lemma SameMaps(f: map<string, Value>, g: map<string, Value>, keys: seq<string>)
    requires (forall k :: k in f <==> k in keys) && (forall k :: k in g <==> k in keys)
    requires forall k | k in keys :: f[k] == g[k]
    ensures f == g
  {
  }

  lemma SortedListsKeys(fields: map<string, Value>)
    ensures forall k :: k in fields <==> k in Sorted(fields.Keys)
  {
  }

  /** Two values with the same canonical text are the same value. */
  lemma DumpsIsInjective(a: Value, b: Value)
    requires Dumps(a) == Dumps(b)
    ensures a == b
  {
    WritePrefixFree(a, b, "", "");
  }
}
