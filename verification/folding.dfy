/** Checksums in the abstract: a state fed one symbol at a time, over words with an exclusive or. */
module Folding {
  function Iterate<W>(step: W -> W, x: W, n: nat): W
    decreases n, x
  {
    if n == 0 then x else Iterate(step, step(x), n - 1)
  }

  function Fold<W, B>(feed: (W, B) -> W, state: W, buf: seq<B>): W
    decreases |buf|
  {
    if buf == [] then state else Fold(feed, feed(state, buf[0]), buf[1..])
  }

  lemma {:induction false} FoldConcat<W, B>(feed: (W, B) -> W, state: W, a: seq<B>, b: seq<B>)
    ensures Fold(feed, state, a + b) == Fold(feed, Fold(feed, state, a), b)
    decreases |a|
  {
    if a == [] {
      assert a + b == b;
    } else {
      FoldConcat(feed, feed(state, a[0]), a[1..], b);
      assert (a + b)[1..] == a[1..] + b;
    }
  }

  /** Nothing is lost by stepping when a step loses nothing. */
  lemma {:induction false} IterateInjective<W(!new)>(step: W -> W, x: W, y: W, n: nat)
    requires forall a, b {:trigger step(a), step(b)} :: step(a) == step(b) ==> a == b
    requires Iterate(step, x, n) == Iterate(step, y, n)
    ensures x == y
    decreases n
  {
    if n == 0 {
    } else {
      IterateInjective(step, step(x), step(y), n - 1);
    }
  }

  /** `shifted[i]` is a word shifted by `i`: a step takes one shift back, so stepping takes all back. */
  lemma {:induction false} IterateAbsorbs<W(!new)>(step: W -> W, xor: (W, W) -> W, x: W, shifted: seq<W>, n: nat)
    requires n < |shifted|
    requires forall a, i {:trigger xor(a, shifted[i])} | 0 < i < |shifted| ::
               step(xor(a, shifted[i])) == xor(step(a), shifted[i - 1])
    ensures Iterate(step, xor(x, shifted[n]), n) == xor(Iterate(step, x, n), shifted[0])
    decreases n
  {
    if n == 0 {
    } else {
      IterateAbsorbs(step, xor, step(x), shifted, n - 1);
    }
  }

  /** How symbols enter words. `fits` says that a word survives a `shift`. */
  datatype Algebra<!W, !B> = Algebra(xor: (W, W) -> W, word: B -> W, shift: W -> W, fits: W -> bool, zero: W)

  /** The word that a few symbols make, the first one in the lowest place. */
  function Pack<W, B>(alg: Algebra<W, B>, buf: seq<B>): W
    decreases |buf|
  {
    if buf == [] then alg.zero else alg.xor(alg.shift(Pack(alg, buf[1..])), alg.word(buf[0]))
  }

  ghost predicate Lawful<W(!new), B(!new)>(alg: Algebra<W, B>, feed: (W, B) -> W) {
    && (forall x, y, z {:trigger alg.xor(alg.xor(x, y), z)} :: alg.xor(alg.xor(x, y), z) == alg.xor(x, alg.xor(y, z)))
    && (forall x {:trigger alg.xor(x, alg.zero)} :: alg.xor(x, alg.zero) == x)
    && (forall x, v, b {:trigger alg.xor(feed(x, b), v)} | alg.fits(v) ::
          alg.xor(feed(x, b), v) == feed(alg.xor(x, alg.shift(v)), b))
    && (forall x, y, a, b {:trigger feed(x, a), feed(y, b)} | feed(x, a) == feed(y, b) ::
          alg.xor(x, alg.word(a)) == alg.xor(y, alg.word(b)))
  }

  /** States that agree after a window differ before it by no more than the windows do. */
  lemma {:induction false} WindowDifference<W(!new), B(!new)>(alg: Algebra<W, B>, feed: (W, B) -> W,
                                                             x: W, y: W, a: seq<B>, b: seq<B>)
    requires Lawful(alg, feed) && |a| == |b|
    requires forall c {:trigger Pack(alg, c)} | |c| < |a| :: alg.fits(Pack(alg, c))
    requires Fold(feed, x, a) == Fold(feed, y, b)
    ensures alg.xor(x, Pack(alg, a)) == alg.xor(y, Pack(alg, b))
    decreases |a|
  {
    if a == [] {
    } else {
      var v, w := Pack(alg, a[1..]), Pack(alg, b[1..]);
      WindowDifference(alg, feed, feed(x, a[0]), feed(y, b[0]), a[1..], b[1..]);
      assert feed(alg.xor(x, alg.shift(v)), a[0]) == feed(alg.xor(y, alg.shift(w)), b[0]);
      assert alg.xor(alg.xor(x, alg.shift(v)), alg.word(a[0])) == alg.xor(alg.xor(y, alg.shift(w)), alg.word(b[0]));
    }
  }

  /** Feeding the same symbols keeps different states apart. */
  lemma {:induction false} FoldInjective<W(!new), B(!new)>(feed: (W, B) -> W, x: W, y: W, buf: seq<B>)
    requires forall s, t, b {:trigger feed(s, b), feed(t, b)} :: feed(s, b) == feed(t, b) ==> s == t
    requires Fold(feed, x, buf) == Fold(feed, y, buf)
    ensures x == y
    decreases |buf|
  {
    if buf == [] {
    } else {
      FoldInjective(feed, feed(x, buf[0]), feed(y, buf[0]), buf[1..]);
    }
  }
}
