/** Python's `sorted(items, key=...)` for string keys: stable, and canonical when the key is injective. */
module KeySort {
  import opened StringOrder

  function Insert<T>(x: T, sorted: seq<T>, key: T -> string): seq<T> {
    if sorted == [] || Below(key(x), key(sorted[0])) then [x] + sorted else [sorted[0]] + Insert(x, sorted[1..], key)
  }

  function SortBy<T>(items: seq<T>, key: T -> string): seq<T> {
    if items == [] then [] else Insert(items[0], SortBy(items[1..], key), key)
  }

  ghost predicate Ordered<T>(items: seq<T>, key: T -> string) {
    forall i, j | 0 <= i < j < |items| :: Below(key(items[i]), key(items[j]))
  }

  lemma {:induction false} InsertKeepsItems<T>(x: T, sorted: seq<T>, key: T -> string)
    ensures multiset(Insert(x, sorted, key)) == multiset(sorted) + multiset{x}
  {
    if sorted != [] && !Below(key(x), key(sorted[0])) {
      InsertKeepsItems(x, sorted[1..], key);
      assert sorted == [sorted[0]] + sorted[1..];
    }
  }

  lemma {:induction false} InsertKeepsOrder<T>(x: T, sorted: seq<T>, key: T -> string)
    requires Ordered(sorted, key)
    ensures Ordered(Insert(x, sorted, key), key)
  {
    if sorted != [] {
      if Below(key(x), key(sorted[0])) {
        forall i | 0 < i < |sorted| ensures Below(key(x), key(sorted[i])) {
          Transitive(key(x), key(sorted[0]), key(sorted[i]));
        }
      } else {
        var rest := Insert(x, sorted[1..], key);
        InsertKeepsOrder(x, sorted[1..], key);
        InsertKeepsItems(x, sorted[1..], key);
        Total(key(x), key(sorted[0]));
        forall i | 0 <= i < |rest| ensures Below(key(sorted[0]), key(rest[i])) {
          assert rest[i] in multiset(rest);
          assert rest[i] == x || rest[i] in sorted[1..];
        }
      }
    }
  }

  lemma {:induction false} SortByWorks<T>(items: seq<T>, key: T -> string)
    ensures Ordered(SortBy(items, key), key) && multiset(SortBy(items, key)) == multiset(items)
  {
    if items != [] {
      SortByWorks(items[1..], key);
      InsertKeepsOrder(items[0], SortBy(items[1..], key), key);
      InsertKeepsItems(items[0], SortBy(items[1..], key), key);
      assert items == [items[0]] + items[1..];
    }
  }

  lemma SameSize<T>(a: seq<T>, b: seq<T>)
    requires multiset(a) == multiset(b)
    ensures |a| == |b|
  {
    assert |multiset(a)| == |a| && |multiset(b)| == |b|;
  }

  ghost predicate Injective<T(!new)>(key: T -> string) {
    forall x, y :: key(x) == key(y) ==> x == y
  }

  lemma SameFirst<T(!new)>(a: seq<T>, b: seq<T>, key: T -> string)
    requires Ordered(a, key) && Ordered(b, key) && multiset(a) == multiset(b) && Injective(key)
    requires a != [] && b != []
    ensures a[0] == b[0]
  {
    assert a[0] in multiset(b) && b[0] in multiset(a);
    var i :| 0 <= i < |b| && b[i] == a[0];
    var j :| 0 <= j < |a| && a[j] == b[0];
    if i > 0 && j > 0 { Antisymmetric(key(a[0]), key(b[0])); }
  }

  lemma OrderedRest<T>(a: seq<T>, key: T -> string)
    requires Ordered(a, key) && a != []
    ensures Ordered(a[1..], key) && multiset(a[1..]) == multiset(a) - multiset{a[0]} && a == [a[0]] + a[1..]
  {
    assert a == [a[0]] + a[1..];
  }

  /** Whatever order the items come in, they are listed the same way. */
  lemma {:induction false} OrderedIsCanonical<T(!new)>(a: seq<T>, b: seq<T>, key: T -> string)
    requires Ordered(a, key) && Ordered(b, key) && multiset(a) == multiset(b) && Injective(key)
    ensures a == b
  {
    SameSize(a, b);
    if a != [] {
      SameFirst(a, b, key);
      OrderedRest(a, key);
      OrderedRest(b, key);
      OrderedIsCanonical(a[1..], b[1..], key);
    }
  }

  lemma SortByIsCanonical<T(!new)>(a: seq<T>, b: seq<T>, key: T -> string)
    requires Injective(key)
    ensures SortBy(a, key) == SortBy(b, key) <==> multiset(a) == multiset(b)
  {
    SortByWorks(a, key);
    SortByWorks(b, key);
    if multiset(a) == multiset(b) { OrderedIsCanonical(SortBy(a, key), SortBy(b, key), key); }
  }
}
