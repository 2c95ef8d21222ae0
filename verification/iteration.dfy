/** Repeated steps, and when one system of steps mirrors another. */
module Iteration {
  function Iterate<C>(next: C -> C, c: C, n: nat): C {
    if n == 0 then c else next(Iterate(next, c, n - 1))
  }

  /** If every good point steps to the place of the point after it, so do n steps. */
  lemma {:induction false} StepsAreMirrored<P(!new), C>(
    place: P -> C, good: P -> bool, after: P -> P, next: C -> C, p: P, n: nat)
    requires good(p) && forall q | good(q) :: good(after(q)) && next(place(q)) == place(after(q))
    ensures good(Iterate(after, p, n)) && Iterate(next, place(p), n) == place(Iterate(after, p, n))
  {
    if n > 0 {
      StepsAreMirrored(place, good, after, next, p, n - 1);
    }
  }

  /** What the first n inputs make of a state. */
  function Fold<R, C>(step: (R, C) -> C, rs: seq<R>, c: C, n: nat): C
    requires n <= |rs|
  {
    if n == 0 then c else step(rs[n - 1], Fold(step, rs, c, n - 1))
  }

  lemma {:induction false} FoldKeeps<R, C>(step: (R, C) -> C, rs: seq<R>, c: C, holds: (nat, C) -> bool, n: nat)
    requires n <= |rs| && holds(0, c)
    requires forall i: nat, d | i < |rs| && holds(i, d) :: holds(i + 1, step(rs[i], d))
    ensures holds(n, Fold(step, rs, c, n))
  {
    if n > 0 {
      FoldKeeps(step, rs, c, holds, n - 1);
    }
  }
}
