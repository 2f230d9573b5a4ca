/** The code-point order in which Python compares strings and `sorted` lists them. */
module StringOrder {

  /** Lexicographic `a <= b`. */
  predicate Below(a: string, b: string) {
    a == "" || (b != "" && (a[0] < b[0] || (a[0] == b[0] && Below(a[1..], b[1..]))))
  }

  predicate StrictlyBelow(a: string, b: string) {
    a != b && Below(a, b)
  }

  lemma Reflexive(a: string)
    ensures Below(a, a)
  {
  }

  lemma Total(a: string, b: string)
    ensures Below(a, b) || Below(b, a)
  {
  }

  lemma {:induction false} Antisymmetric(a: string, b: string)
    requires Below(a, b) && Below(b, a)
    ensures a == b
  {
    if a != "" {
      Antisymmetric(a[1..], b[1..]);
      assert a == [a[0]] + a[1..] && b == [b[0]] + b[1..];
    }
  }

  lemma {:induction false} Transitive(a: string, b: string, c: string)
    requires Below(a, b) && Below(b, c)
    ensures Below(a, c)
  {
    if a != "" && a[0] == b[0] && b[0] == c[0] {
      Transitive(a[1..], b[1..], c[1..]);
    }
  }

  predicate IsLeast(x: string, s: set<string>) {
    x in s && forall y | y in s :: Below(x, y)
  }

  lemma LeastExists(s: set<string>)
    requires s != {}
    ensures exists x :: IsLeast(x, s)
  {
    var x :| x in s;
    Reflexive(x);
    if s == {x} {
      assert IsLeast(x, s);
    } else {
      LeastExists(s - {x});
      var y :| IsLeast(y, s - {x});
      Total(x, y);
      if Below(x, y) {
        forall z | z in s ensures Below(x, z) {
          if z != x { Transitive(x, y, z); }
        }
        assert IsLeast(x, s);
      } else {
        assert IsLeast(y, s);
      }
    }
  }

  lemma LeastIsUnique(s: set<string>)
    ensures forall x, y | IsLeast(x, s) && IsLeast(y, s) :: x == y
  {
    forall x, y | IsLeast(x, s) && IsLeast(y, s) ensures x == y {
      Antisymmetric(x, y);
    }
  }

  function Least(s: set<string>): (x: string)
    requires s != {}
    ensures IsLeast(x, s)
  {
    LeastExists(s);
    LeastIsUnique(s);
    var x :| x in s && IsLeast(x, s);
    x
  }

  ghost predicate Ascending(t: seq<string>) {
    forall i, j | 0 <= i < j < |t| :: StrictlyBelow(t[i], t[j])
  }

  /** `sorted(s)` for a set of strings: strictly ascending, and exactly the elements of `s`. */
  function Sorted(s: set<string>): (t: seq<string>)
    ensures Ascending(t)
    ensures forall x :: x in t <==> x in s
    ensures |t| == |s|
    decreases |s|
  {
    if s == {} then [] else
      var x := Least(s);
      var rest := Sorted(s - {x});
      assert forall y | y in rest :: y in s && y != x && StrictlyBelow(x, y);
      [x] + rest
  }

  /** There is only one ascending listing of a set, so `Sorted` does not depend on how it picks. */
  lemma {:induction false} AscendingIsCanonical(t: seq<string>, u: seq<string>)
    requires Ascending(t) && Ascending(u)
    requires forall x :: x in t <==> x in u
    ensures t == u
  {
    if t == [] {
      assert forall i | 0 <= i < |u| :: u[i] in u;
    } else {
      assert t[0] in u;
      assert u[0] in t;
      if t[0] != u[0] {
        assert StrictlyBelow(t[0], u[0]) by { assert u[0] in t[1..]; }
        assert StrictlyBelow(u[0], t[0]) by { assert t[0] in u[1..]; }
        Antisymmetric(t[0], u[0]);
      }
      forall x ensures x in t[1..] <==> x in u[1..] {
        if x in t[1..] { assert x in t; assert x != t[0]; assert x in u; }
        if x in u[1..] { assert x in u; assert x != u[0]; assert x in t; }
      }
      AscendingIsCanonical(t[1..], u[1..]);
      assert t == [t[0]] + t[1..] && u == [u[0]] + u[1..];
    }
  }
}
