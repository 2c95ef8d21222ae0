/** Facts about sequences that several components share. */
module Sequences {
  ghost predicate Distinct<T>(s: seq<T>) {
    forall i, j | 0 <= i < j < |s| :: s[i] != s[j]
  }

  function ToSet<T>(s: seq<T>): set<T> {
    set x | x in s
  }

  /** The list and set stay in step when an element is moved from one to the other. */
  lemma DistinctCons<T>(s: seq<T>)
    requires s != []
    ensures Distinct(s) <==> s[0] !in s[1..] && Distinct(s[1..])
    ensures ToSet(s) == {s[0]} + ToSet(s[1..])
  {
    assert s == [s[0]] + s[1..];
    if s[0] !in s[1..] && Distinct(s[1..]) {
      forall i, j | 0 <= i < j < |s|
        ensures s[i] != s[j]
      {
        assert s[j] == s[1..][j - 1];
      }
    }
    if Distinct(s) {
      forall i, j | 0 <= i < j < |s[1..]|
        ensures s[1..][i] != s[1..][j]
      {
        assert s[1..][i] == s[i + 1] && s[1..][j] == s[j + 1];
      }
    }
  }

  /** Distinctness, and newness with respect to a set, split at the head. */
  lemma NewCons<T>(s: seq<T>, seen: set<T>)
    requires s != []
    ensures Distinct(s) && ToSet(s) !! seen <==>
      s[0] !in seen && Distinct(s[1..]) && ToSet(s[1..]) !! seen + {s[0]}
  {
    DistinctCons(s);
  }

  lemma DistinctAppend<T>(a: seq<T>, b: seq<T>)
    ensures Distinct(a + b) <==> Distinct(a) && Distinct(b) && ToSet(a) !! ToSet(b)
    ensures ToSet(a + b) == ToSet(a) + ToSet(b)
  {
    var c := a + b;
    if Distinct(c) {
      assert Distinct(a) by {
        forall i, j | 0 <= i < j < |a| ensures a[i] != a[j] { assert a[i] == c[i] && a[j] == c[j]; }
      }
      assert Distinct(b) by {
        forall i, j | 0 <= i < j < |b| ensures b[i] != b[j] { assert b[i] == c[|a| + i] && b[j] == c[|a| + j]; }
      }
      forall i, j | 0 <= i < |a| && 0 <= j < |b| ensures a[i] != b[j] { assert c[i] != c[|a| + j]; }
    }
    if Distinct(a) && Distinct(b) && ToSet(a) !! ToSet(b) {
      forall i, j | 0 <= i < j < |c| ensures c[i] != c[j] {
        if i < |a| <= j {
          assert c[i] in ToSet(a) && c[j] == b[j - |a|] && c[j] in ToSet(b);
        }
      }
    }
  }

  /** The elements that satisfy p, in order. */
  function Keep<T>(s: seq<T>, p: T -> bool): seq<T> {
    if s == [] then [] else (if p(s[0]) then [s[0]] else []) + Keep(s[1..], p)
  }

  /** The first element for each key that is not in seen, in order. */
  function FirstBy<T, K>(s: seq<T>, key: T -> K, seen: set<K>): seq<T> {
    if s == [] then []
    else if key(s[0]) in seen then FirstBy(s[1..], key, seen)
    else [s[0]] + FirstBy(s[1..], key, seen + {key(s[0])})
  }

  function Concat<S, T>(s: seq<S>, f: S -> seq<T>): seq<T> {
    if s == [] then [] else f(s[0]) + Concat(s[1..], f)
  }

  lemma {:induction false} ConcatAppend<S, T>(a: seq<S>, b: seq<S>, f: S -> seq<T>)
    ensures Concat(a + b, f) == Concat(a, f) + Concat(b, f)
  {
    if a == [] {
      assert a + b == b;
    } else {
      assert (a + b)[1..] == a[1..] + b;
      ConcatAppend(a[1..], b, f);
    }
  }

  lemma ConcatNext<S, T>(s: seq<S>, i: nat, f: S -> seq<T>)
    requires i < |s|
    ensures Concat(s[..i + 1], f) == Concat(s[..i], f) + f(s[i])
  {
    assert s[..i + 1] == s[..i] + [s[i]];
    ConcatAppend(s[..i], [s[i]], f);
    assert Concat([s[i]], f) == f(s[i]) + [];
  }

  lemma {:induction false} KeepAppend<T>(a: seq<T>, b: seq<T>, p: T -> bool)
    ensures Keep(a + b, p) == Keep(a, p) + Keep(b, p)
  {
    var all := a + b;
    if a == [] {
      assert all == b;
    } else {
      var head := if p(a[0]) then [a[0]] else [];
      assert all[0] == a[0] && all[1..] == a[1..] + b;
      KeepAppend(a[1..], b, p);
      assert head + (Keep(a[1..], p) + Keep(b, p)) == (head + Keep(a[1..], p)) + Keep(b, p);
    }
  }

  lemma KeepNext<T>(s: seq<T>, i: nat, p: T -> bool)
    requires i < |s|
    ensures Keep(s[..i + 1], p) == Keep(s[..i], p) + if p(s[i]) then [s[i]] else []
  {
    assert s[..i + 1] == s[..i] + [s[i]];
    KeepAppend(s[..i], [s[i]], p);
  }

  lemma {:induction false} KeptSatisfy<T>(s: seq<T>, p: T -> bool)
    ensures forall x :: x in Keep(s, p) <==> x in s && p(x)
  {
    if s != [] {
      KeptSatisfy(s[1..], p);
    }
  }

  lemma {:induction false} KeepSame<T>(s: seq<T>, p: T -> bool, q: T -> bool)
    requires forall x | x in s :: p(x) == q(x)
    ensures Keep(s, p) == Keep(s, q)
  {
    if s != [] {
      assert s[0] in s;
      KeepSame(s[1..], p, q);
    }
  }

  /** Filtering twice, the second filter being the stronger. */
  lemma {:induction false} KeepTwice<T>(s: seq<T>, weak: T -> bool, strong: T -> bool)
    requires forall x | x in s && strong(x) :: weak(x)
    ensures Keep(Keep(s, weak), strong) == Keep(s, strong)
  {
    if s != [] {
      assert s[0] in s;
      KeepTwice(s[1..], weak, strong);
      if weak(s[0]) {
        assert Keep(s, weak)[1..] == Keep(s[1..], weak);
      } else {
        assert Keep(s, weak) == Keep(s[1..], weak);
      }
    }
  }

  lemma {:induction false} ConcatMembers<S, T>(s: seq<S>, f: S -> seq<T>)
    ensures forall y :: y in Concat(s, f) <==> exists x :: x in s && y in f(x)
  {
    if s != [] {
      ConcatMembers(s[1..], f);
      assert s == [s[0]] + s[1..];
      forall y
        ensures y in Concat(s, f) <==> exists x :: x in s && y in f(x)
      {
        if y in f(s[0]) {
          assert s[0] in s;
        } else if y in Concat(s[1..], f) {
          var x :| x in s[1..] && y in f(x);
          assert x in s;
        }
      }
    }
  }

  /** The elements at the positions that satisfy p, in order. */
  function Select<T>(s: seq<T>, p: nat -> bool): seq<T> {
    if s == [] then []
    else Select(s[..|s| - 1], p) + if p(|s| - 1) then [s[|s| - 1]] else []
  }

  function Map<S, T>(s: seq<S>, f: S -> T): (t: seq<T>)
    ensures |t| == |s| && forall i | 0 <= i < |s| :: t[i] == f(s[i])
  {
    if s == [] then [] else [f(s[0])] + Map(s[1..], f)
  }

  lemma SelectNext<T>(s: seq<T>, i: nat, p: nat -> bool)
    requires i < |s|
    ensures Select(s[..i + 1], p) == Select(s[..i], p) + if p(i) then [s[i]] else []
  {
    assert s[..i + 1][..i] == s[..i];
  }

  lemma {:induction false} MapAppend<S, T>(a: seq<S>, b: seq<S>, f: S -> T)
    ensures Map(a + b, f) == Map(a, f) + Map(b, f)
  {
    if a == [] {
      assert a + b == b;
    } else {
      assert (a + b)[1..] == a[1..] + b;
      MapAppend(a[1..], b, f);
    }
  }

  lemma MapSelectNext<S, T>(s: seq<S>, i: nat, p: nat -> bool, f: S -> T)
    requires i < |s|
    ensures Map(Select(s[..i + 1], p), f) == Map(Select(s[..i], p), f) + if p(i) then [f(s[i])] else []
  {
    SelectNext(s, i, p);
    MapAppend(Select(s[..i], p), if p(i) then [s[i]] else [], f);
    assert Map([s[i]], f) == [f(s[i])];
  }

  lemma {:induction false} SelectedAreElements<T>(s: seq<T>, p: nat -> bool)
    ensures forall x :: x in Select(s, p) <==> exists i :: 0 <= i < |s| && p(i) && s[i] == x
  {
    if s != [] {
      var front, last := s[..|s| - 1], |s| - 1;
      SelectedAreElements(front, p);
      forall x
        ensures x in Select(s, p) <==> exists i :: 0 <= i < |s| && p(i) && s[i] == x
      {
        if x in Select(front, p) {
          var i :| 0 <= i < |front| && p(i) && front[i] == x;
          assert s[i] == x;
        }
        if i :| 0 <= i < |s| && p(i) && s[i] == x {
          if i < last {
            assert front[i] == x;
          }
        }
      }
    }
  }

  /** The positions of the selected elements, in order and none missing. */
  lemma {:induction false} SelectedPositions<T>(s: seq<T>, p: nat -> bool) returns (at: seq<nat>)
    ensures |at| == |Select(s, p)| && forall k | 0 <= k < |at| :: at[k] < |s| && p(at[k]) && Select(s, p)[k] == s[at[k]]
    ensures forall j, k | 0 <= j < k < |at| :: at[j] < at[k]
    ensures forall i: nat | i < |s| && p(i) :: i in at
  {
    at := [];
    if s != [] {
      at := SelectedPositions(s[..|s| - 1], p);
      if p(|s| - 1) {
        at := at + [|s| - 1];
        assert at[|at| - 1] == |s| - 1;
      }
    }
  }

  lemma {:induction false} SelectedCount<T>(s: seq<T>, p: nat -> bool)
    ensures |Select(s, p)| == |set i | 0 <= i < |s| && p(i)|
  {
    if s != [] {
      var n := |s| - 1;
      SelectedCount(s[..n], p);
      var all, front := set i | 0 <= i < |s| && p(i), set i | 0 <= i < n && p(i);
      assert |s[..n]| == n;
      assert all == front + if p(n) then {n} else {};
    }
  }

  /** A later element is kept exactly if its key is new. */
  lemma {:induction false} FirstByNext<T, K>(s: seq<T>, x: T, key: T -> K, seen: set<K>)
    ensures FirstBy(s + [x], key, seen) ==
      FirstBy(s, key, seen) + if key(x) in seen || exists y :: y in s && key(y) == key(x) then [] else [x]
  {
    if s == [] {
      assert s + [x] == [x];
    } else {
      assert (s + [x])[1..] == s[1..] + [x];
      assert s == [s[0]] + s[1..];
      FirstByNext(s[1..], x, key, if key(s[0]) in seen then seen else seen + {key(s[0])});
    }
  }

  /** No earlier element has the same key. */
  ghost predicate New<T(!new), K(!new)>(s: seq<T>, key: T -> K, i: nat) {
    i < |s| && forall j | 0 <= j < i :: key(s[j]) != key(s[i])
  }

  /** What is kept is what stands at the positions where a key is new. */
  lemma {:induction false} FirstByIsSelection<T(!new), K(!new)>(s: seq<T>, n: nat, key: T -> K)
    requires n <= |s|
    ensures FirstBy(s[..n], key, {}) == Select(s[..n], (i: nat) => New(s, key, i))
  {
    if n > 0 {
      FirstByIsSelection(s, n - 1, key);
      SelectNext(s, n - 1, (i: nat) => New(s, key, i));
      assert s[..n] == s[..n - 1] + [s[n - 1]];
      FirstByNext(s[..n - 1], s[n - 1], key, {});
    }
  }

  /** One round of a loop that looks at the i-th element. */
  lemma FirstByRound<T, K>(s: seq<T>, i: nat, key: T -> K, seen: set<K>, kept: seq<T>)
    requires i < |s|
    ensures kept + FirstBy(s[i..], key, seen) ==
      if key(s[i]) in seen then kept + FirstBy(s[i + 1..], key, seen)
      else (kept + [s[i]]) + FirstBy(s[i + 1..], key, seen + {key(s[i])})
  {
    assert s[i..][1..] == s[i + 1..];
    var rest := FirstBy(s[i + 1..], key, seen + {key(s[i])});
    assert kept + ([s[i]] + rest) == (kept + [s[i]]) + rest;
  }

  lemma {:induction false} FirstByDistinct<T, K>(s: seq<T>, key: T -> K, seen: set<K>)
    ensures var l := FirstBy(s, key, seen);
      (forall x | x in l :: key(x) !in seen) && Distinct(Map(l, key))
  {
    if s != [] {
      if key(s[0]) in seen {
        FirstByDistinct(s[1..], key, seen);
      } else {
        FirstByDistinct(s[1..], key, seen + {key(s[0])});
        var rest := FirstBy(s[1..], key, seen + {key(s[0])});
        var l := [s[0]] + rest;
        assert Map(l, key)[1..] == Map(rest, key);
        DistinctCons(Map(l, key));
      }
    }
  }

  /** Three exclusive and exhaustive conditions count every position once. */
  lemma {:induction false} SelectPartition<T>(s: seq<T>, p: nat -> bool, q: nat -> bool, r: nat -> bool)
    requires forall i | 0 <= i < |s| ::
      (p(i) || q(i) || r(i)) && !(p(i) && q(i)) && !(p(i) && r(i)) && !(q(i) && r(i))
    ensures |Select(s, p)| + |Select(s, q)| + |Select(s, r)| == |s|
  {
    if s != [] {
      SelectPartition(s[..|s| - 1], p, q, r);
    }
  }

  /** Keeping by a property of the elements is selecting by the same property of the positions. */
  lemma {:induction false} KeepIsSelect<T>(s: seq<T>, p: T -> bool, q: nat -> bool)
    requires forall i: nat | i < |s| :: q(i) == p(s[i])
    ensures Keep(s, p) == Select(s, q)
  {
    if s != [] {
      var n := |s| - 1;
      KeepIsSelect(s[..n], p, q);
      KeepAppend(s[..n], [s[n]], p);
      assert s == s[..n] + [s[n]];
    }
  }
}
