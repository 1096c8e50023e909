/** Strings in the order of their code points, and stable sorting by a string. */
module StringOrder {

  predicate Less(a: string, b: string)
    decreases |a|
  {
    b != "" && (a == "" || a[0] < b[0] || (a[0] == b[0] && Less(a[1..], b[1..])))
  }

  lemma {:induction false} LessIsTotal(a: string, b: string)
    ensures Less(a, b) || Less(b, a) || a == b
    ensures !(Less(a, b) && Less(b, a)) && !Less(a, a)
    decreases |a|
  {
    if a != "" {
      LessIsTotal(a[1..], a[1..]);
      if b != "" {
        LessIsTotal(a[1..], b[1..]);
        assert a == [a[0]] + a[1..] && b == [b[0]] + b[1..];
      }
    }
  }

  lemma {:induction false} LessIsTransitive(a: string, b: string, c: string)
    requires Less(a, b) && Less(b, c)
    ensures Less(a, c)
    decreases |a|
  {
    if a != "" && a[0] == b[0] == c[0] {
      LessIsTransitive(a[1..], b[1..], c[1..]);
    }
  }

  lemma NotLessIsTransitive(a: string, b: string, c: string)
    requires !Less(b, a) && !Less(c, b)
    ensures !Less(c, a)
  {
    hide Less;
    LessIsTotal(b, a);
    LessIsTotal(c, b);
    LessIsTotal(c, a);
    if Less(c, a) && a != b && b != c {
      LessIsTransitive(a, b, c);
    }
  }

  function InsertBy<T>(key: T -> string, item: T, sorted: seq<T>): seq<T> {
    if sorted == [] || !Less(key(sorted[0]), key(item)) then [item] + sorted
    else [sorted[0]] + InsertBy(key, item, sorted[1..])
  }

  /** The items ordered by key, those of one key as they came. */
  function SortBy<T>(key: T -> string, items: seq<T>): seq<T> {
    if items == [] then [] else InsertBy(key, items[0], SortBy(key, items[1..]))
  }

  predicate InOrderBy<T>(key: T -> string, items: seq<T>) {
    forall i, j | 0 <= i < j < |items| :: !Less(key(items[j]), key(items[i]))
  }

  lemma {:induction false} InsertHas<T>(key: T -> string, item: T, sorted: seq<T>)
    ensures multiset(InsertBy(key, item, sorted)) == multiset(sorted) + multiset{item}
  {
    if sorted != [] && Less(key(sorted[0]), key(item)) {
      InsertHas(key, item, sorted[1..]);
      assert sorted == [sorted[0]] + sorted[1..];
    }
  }

  lemma {:induction false} InsertSorts<T>(key: T -> string, item: T, sorted: seq<T>)
    requires InOrderBy(key, sorted)
    ensures InOrderBy(key, InsertBy(key, item, sorted))
  {
    hide Less;
    if sorted == [] {
    } else if !Less(key(sorted[0]), key(item)) {
      forall j | 0 <= j < |sorted| ensures !Less(key(sorted[j]), key(item)) {
        LessIsTotal(key(sorted[0]), key(sorted[0]));
        NotLessIsTransitive(key(item), key(sorted[0]), key(sorted[j]));
      }
    } else {
      var rest := InsertBy(key, item, sorted[1..]);
      InsertSorts(key, item, sorted[1..]);
      InsertHas(key, item, sorted[1..]);
      LessIsTotal(key(sorted[0]), key(item));
      forall j | 0 <= j < |rest| ensures !Less(key(rest[j]), key(sorted[0])) {
        assert rest[j] in multiset(rest);
        if rest[j] != item {
          assert rest[j] in multiset(sorted[1..]);
          var k :| 0 <= k < |sorted[1..]| && sorted[1..][k] == rest[j];
          assert sorted[k + 1] == rest[j];
        }
      }
    }
  }

  /** Sorting orders the items and neither loses nor adds one. */
  lemma {:induction false} SortSorts<T>(key: T -> string, items: seq<T>)
    ensures InOrderBy(key, SortBy(key, items)) && multiset(SortBy(key, items)) == multiset(items)
  {
    if items != [] {
      SortSorts(key, items[1..]);
      InsertSorts(key, items[0], SortBy(key, items[1..]));
      InsertHas(key, items[0], SortBy(key, items[1..]));
      assert items == [items[0]] + items[1..];
    }
  }

  lemma {:induction false} SortedStays<T>(key: T -> string, items: seq<T>)
    requires InOrderBy(key, items)
    ensures SortBy(key, items) == items
  {
    if items != [] {
      SortedStays(key, items[1..]);
      assert items == [items[0]] + items[1..];
    }
  }

  /** In order, and no key twice. */
  predicate Ascending<T>(key: T -> string, items: seq<T>) {
    forall i, j | 0 <= i < j < |items| :: Less(key(items[i]), key(items[j]))
  }

  /** Such a list is determined by what is in it. */
  lemma {:induction false} AscendingIsUnique<T>(key: T -> string, a: seq<T>, b: seq<T>)
    requires Ascending(key, a) && Ascending(key, b)
    requires forall x :: x in a <==> x in b
    ensures a == b
  {
    hide Less;
    assert b != [] ==> b[0] in b;
    if a != [] {
      assert a[0] in b && b != [] && b[0] in a;
      FirstIsFirst(key, a, b);
      forall x ensures x in a[1..] <==> x in b[1..] {
        InRest(key, a, x);
        InRest(key, b, x);
      }
      AscendingIsUnique(key, a[1..], b[1..]);
      assert a == [a[0]] + a[1..] && b == [b[0]] + b[1..];
    }
  }

  lemma FirstIsFirst<T>(key: T -> string, a: seq<T>, b: seq<T>)
    requires Ascending(key, a) && Ascending(key, b) && a != [] && b != []
    requires a[0] in b && b[0] in a
    ensures a[0] == b[0]
  {
    hide Less;
    LessIsTotal(key(a[0]), key(b[0]));
  }

  lemma InRest<T>(key: T -> string, a: seq<T>, x: T)
    requires Ascending(key, a) && a != []
    ensures x in a[1..] <==> x in a && x != a[0]
  {
    hide Less;
    LessIsTotal(key(a[0]), key(a[0]));
    assert a == [a[0]] + a[1..];
  }
}
