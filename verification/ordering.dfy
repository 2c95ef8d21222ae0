/** The lexicographic order on strings, sorting by it, and sorted pairs. */
module Ordering {
  predicate Leq(a: string, b: string) {
    a == "" || (b != "" && (a[0] < b[0] || (a[0] == b[0] && Leq(a[1..], b[1..]))))
  }

  lemma {:induction false} LeqTotal(a: string, b: string)
    ensures Leq(a, b) || Leq(b, a)
  {
    if a != "" && b != "" {
      LeqTotal(a[1..], b[1..]);
    }
  }

  lemma {:induction false} LeqAntisymmetric(a: string, b: string)
    requires Leq(a, b) && Leq(b, a)
    ensures a == b
  {
    if a != "" && b != "" {
      LeqAntisymmetric(a[1..], b[1..]);
      assert a == [a[0]] + a[1..] && b == [b[0]] + b[1..];
    }
  }

  lemma {:induction false} LeqTransitive(a: string, b: string, c: string)
    requires Leq(a, b) && Leq(b, c)
    ensures Leq(a, c)
  {
    if a != "" && a[0] == b[0] == c[0] {
      LeqTransitive(a[1..], b[1..], c[1..]);
    }
  }

  function Insert(x: string, s: seq<string>): seq<string> {
    if s == [] || Leq(x, s[0]) then [x] + s else [s[0]] + Insert(x, s[1..])
  }

  /** `sorted(s)` */
  function Sort(s: seq<string>): seq<string> {
    if s == [] then [] else Insert(s[0], Sort(s[1..]))
  }

  /** Every element is below all the later ones. */
  ghost predicate Ascending(s: seq<string>) {
    s == [] || ((forall x | x in s :: Leq(s[0], x)) && Ascending(s[1..]))
  }

  lemma {:induction false} InsertHolds(x: string, s: seq<string>)
    requires Ascending(s)
    ensures Ascending(Insert(x, s)) && multiset(Insert(x, s)) == multiset(s) + multiset{x}
    ensures forall y :: y in Insert(x, s) <==> y == x || y in s
  {
    if s != [] {
      assert s == [s[0]] + s[1..];
      if Leq(x, s[0]) {
        forall y | y in s
          ensures Leq(x, y)
        {
          LeqTransitive(x, s[0], y);
        }
        LeqTotal(x, x);
        assert ([x] + s)[1..] == s;
      } else {
        InsertHolds(x, s[1..]);
        LeqTotal(x, s[0]);
        assert ([s[0]] + Insert(x, s[1..]))[1..] == Insert(x, s[1..]);
      }
    } else {
      LeqTotal(x, x);
    }
  }

  lemma {:induction false} SortHolds(s: seq<string>)
    ensures Ascending(Sort(s)) && multiset(Sort(s)) == multiset(s)
  {
    if s != [] {
      SortHolds(s[1..]);
      InsertHolds(s[0], Sort(s[1..]));
      assert s == [s[0]] + s[1..];
    }
  }

  /** There is only one way to list a multiset in ascending order. */
  lemma {:induction false} AscendingUnique(a: seq<string>, b: seq<string>)
    requires Ascending(a) && Ascending(b) && multiset(a) == multiset(b)
    ensures a == b
  {
    assert |a| == |multiset(a)| && |b| == |multiset(b)|;
    if a != [] {
      assert a[0] in multiset(b) && b[0] in multiset(a);
      LeqAntisymmetric(a[0], b[0]);
      assert a == [a[0]] + a[1..] && b == [b[0]] + b[1..];
      assert multiset(a[1..]) == multiset(a) - multiset{a[0]};
      assert multiset(b[1..]) == multiset(b) - multiset{b[0]};
      AscendingUnique(a[1..], b[1..]);
    }
  }

  /** Comparing sorted lists compares multisets. */
  lemma SortComparesMultisets(a: seq<string>, b: seq<string>)
    ensures Sort(a) == Sort(b) <==> multiset(a) == multiset(b)
  {
    SortHolds(a);
    SortHolds(b);
    if multiset(a) == multiset(b) {
      AscendingUnique(Sort(a), Sort(b));
    }
  }

  type Key = (string, string)

  predicate KeyLeq(a: Key, b: Key) {
    if a.0 == b.0 then Leq(a.1, b.1) else Leq(a.0, b.0)
  }

  /** `tuple(sorted([a, b]))` */
  function SortedPair(a: Key, b: Key): (Key, Key) {
    if KeyLeq(a, b) then (a, b) else (b, a)
  }

  lemma KeyOrder(a: Key, b: Key)
    ensures KeyLeq(a, b) || KeyLeq(b, a)
    ensures KeyLeq(a, b) && KeyLeq(b, a) ==> a == b
  {
    LeqTotal(a.0, b.0);
    LeqTotal(a.1, b.1);
    if Leq(a.0, b.0) && Leq(b.0, a.0) {
      LeqAntisymmetric(a.0, b.0);
    }
    if Leq(a.1, b.1) && Leq(b.1, a.1) {
      LeqAntisymmetric(a.1, b.1);
    }
  }

  /** A sorted pair forgets the direction and nothing else. */
  lemma SortedPairIsUnordered(a: Key, b: Key, c: Key, d: Key)
    ensures SortedPair(a, b) == SortedPair(c, d) <==> (a == c && b == d) || (a == d && b == c)
  {
    KeyOrder(a, b);
    KeyOrder(c, d);
  }
}
