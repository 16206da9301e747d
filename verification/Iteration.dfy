/** Repeated application and left folds, with the laws the CRC and the run proofs share. */
module Iteration {

  function Iterate<T>(f: T -> T, x: T, n: nat): T {
    if n == 0 then x else f(Iterate(f, x, n - 1))
  }

  function Fold<S, E>(f: (S, E) -> S, s: S, es: seq<E>): S {
    if |es| == 0 then s else f(Fold(f, s, es[..|es| - 1]), es[|es| - 1])
  }

  ghost predicate Injective<T(!new)>(f: T -> T) {
    forall a, b :: f(a) == f(b) ==> a == b
  }

  ghost predicate Associative<T(!new)>(op: (T, T) -> T) {
    forall x, y, z :: op(op(x, y), z) == op(x, op(y, z))
  }

  ghost predicate Commutative<T(!new)>(op: (T, T) -> T) {
    forall x, y :: op(x, y) == op(y, x)
  }

  ghost predicate Homomorphic<T(!new)>(f: T -> T, op: (T, T) -> T) {
    forall a, b :: f(op(a, b)) == op(f(a), f(b))
  }

  lemma {:induction false} IterateHomomorphic<T(!new)>(f: T -> T, op: (T, T) -> T, x: T, y: T, n: nat)
    requires Homomorphic(f, op)
    ensures Iterate(f, op(x, y), n) == op(Iterate(f, x, n), Iterate(f, y, n))
  {
    if n > 0 {
      IterateHomomorphic(f, op, x, y, n - 1);
    }
  }

  lemma {:induction false} IterateInjective<T(!new)>(f: T -> T, x: T, y: T, n: nat)
    requires Injective(f)
    requires Iterate(f, x, n) == Iterate(f, y, n)
    ensures x == y
  {
    if n > 0 {
      IterateInjective(f, x, y, n - 1);
    }
  }

  lemma {:induction false} IterateAdd<T>(f: T -> T, x: T, m: nat, n: nat)
    ensures Iterate(f, Iterate(f, x, m), n) == Iterate(f, x, m + n)
  {
    if n > 0 {
      IterateAdd(f, x, m, n - 1);
    }
  }

  lemma {:induction false} IterateInverse<T(!new)>(f: T -> T, g: T -> T, x: T, n: nat)
    requires forall a :: f(g(a)) == a
    ensures Iterate(f, Iterate(g, x, n), n) == x
  {
    if n > 0 {
      IterateInverse(f, g, x, n - 1);
      IterateAdd(f, Iterate(g, x, n), 1, n - 1);
      assert Iterate(f, Iterate(g, x, n), 1) == f(Iterate(f, Iterate(g, x, n), 0));
    }
  }

  /** In a commutative semigroup the inner two of four operands can be exchanged. */
  lemma Exchange<T(!new)>(op: (T, T) -> T, a: T, b: T, c: T, d: T)
    requires Associative(op) && Commutative(op)
    ensures op(op(a, b), op(c, d)) == op(op(a, c), op(b, d))
  {
    calc {
      op(op(a, b), op(c, d));
      op(a, op(b, op(c, d)));
      { assert op(op(b, c), d) == op(b, op(c, d)); }
      op(a, op(op(c, b), d));
      op(a, op(c, op(b, d)));
      op(op(a, c), op(b, d));
    }
  }

  lemma {:induction false} FoldAppend<S, E>(f: (S, E) -> S, s: S, es: seq<E>, fs: seq<E>)
    ensures Fold(f, s, es + fs) == Fold(f, Fold(f, s, es), fs)
  {
    if |fs| == 0 {
      assert es + fs == es;
    } else {
      assert (es + fs)[..|es + fs| - 1] == es + fs[..|fs| - 1];
      FoldAppend(f, s, es, fs[..|fs| - 1]);
    }
  }

  lemma FoldSingle<S, E>(f: (S, E) -> S, s: S, e: E)
    ensures Fold(f, s, [e]) == f(s, e)
  {}

  lemma FoldPair<S, E>(f: (S, E) -> S, s: S, e: E, e': E)
    ensures Fold(f, s, [e, e']) == f(f(s, e), e')
  {
    assert [e, e'][..1] == [e];
    FoldSingle(f, s, e);
  }

  lemma FoldThree<S, E>(f: (S, E) -> S, s: S, es: seq<E>, fs: seq<E>, gs: seq<E>)
    ensures Fold(f, s, es + fs + gs) == Fold(f, Fold(f, Fold(f, s, es), fs), gs)
  {
    FoldAppend(f, s, es + fs, gs);
    FoldAppend(f, s, es, fs);
  }

  /** Two legs of a run, from s over a to b. */
  lemma FoldLegs<S, E>(f: (S, E) -> S, s: S, es: seq<E>, a: S, fs: seq<E>, b: S)
    requires Fold(f, s, es) == a && Fold(f, a, fs) == b
    ensures Fold(f, s, es + fs) == b
  {
    FoldAppend(f, s, es, fs);
  }

  function Map<E, F>(m: E -> F, es: seq<E>): (fs: seq<F>)
    ensures |fs| == |es|
  {
    seq(|es|, i requires 0 <= i < |es| => m(es[i]))
  }

  /** A projection of the state that commutes with every step commutes with whole runs. */
  lemma {:induction false} FoldProject<S(!new), T, E(!new), F>(
    f: (S, E) -> S, g: (T, F) -> T, h: S -> T, m: E -> F, s: S, es: seq<E>)
    requires forall a, e :: h(f(a, e)) == g(h(a), m(e))
    ensures h(Fold(f, s, es)) == Fold(g, h(s), Map(m, es))
  {
    if |es| > 0 {
      FoldProject(f, g, h, m, s, es[..|es| - 1]);
      assert Map(m, es)[..|es| - 1] == Map(m, es[..|es| - 1]);
    }
  }

  /** What every step keeps, every run keeps. */
  lemma {:induction false} FoldInvariant<S(!new), E(!new)>(f: (S, E) -> S, inv: S -> bool, s: S, es: seq<E>)
    requires inv(s) && forall a, e :: inv(a) ==> inv(f(a, e))
    ensures inv(Fold(f, s, es))
  {
    if |es| > 0 {
      FoldInvariant(f, inv, s, es[..|es| - 1]);
    }
  }

  /** At some point of the run the next event and the state it meets have the property. */
  ghost predicate Sometimes<S, E>(f: (S, E) -> S, p: (S, E) -> bool, s: S, es: seq<E>) {
    exists i :: 0 <= i < |es| && p(Fold(f, s, es[..i]), es[i])
  }

  lemma SometimesLast<S, E>(f: (S, E) -> S, p: (S, E) -> bool, s: S, es: seq<E>)
    requires |es| > 0
    ensures Sometimes(f, p, s, es)
       <==> Sometimes(f, p, s, es[..|es| - 1]) || p(Fold(f, s, es[..|es| - 1]), es[|es| - 1])
  {
    var n := |es| - 1;
    forall i | 0 <= i < n
      ensures es[..n][..i] == es[..i] && es[..n][i] == es[i]
    {}
    if Sometimes(f, p, s, es) && !p(Fold(f, s, es[..n]), es[n]) {
      var i :| 0 <= i < |es| && p(Fold(f, s, es[..i]), es[i]);
      assert p(Fold(f, s, es[..n][..i]), es[..n][i]);
    }
  }

  /** A flag that an event raises exactly when it has the property, and that stays up, records the run. */
  lemma {:induction false} FlagRecords<S(!new), E(!new)>(
    f: (S, E) -> S, flag: S -> bool, p: (S, E) -> bool, s: S, es: seq<E>)
    requires !flag(s) && forall a, e :: flag(f(a, e)) <==> flag(a) || p(a, e)
    ensures flag(Fold(f, s, es)) <==> Sometimes(f, p, s, es)
  {
    if |es| > 0 {
      FlagRecords(f, flag, p, s, es[..|es| - 1]);
      SometimesLast(f, p, s, es);
    }
  }
}
