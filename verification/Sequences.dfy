/** Sums over sequences, and concatenation. */
module Sequences {

  function Sum<T>(s: seq<T>, f: T -> nat): nat {
    if s == [] then 0 else f(s[0]) + Sum(s[1..], f)
  }

  lemma {:induction false} SumUpdate<T>(s: seq<T>, i: nat, x: T, f: T -> nat)
    requires i < |s|
    ensures Sum(s[i := x], f) + f(s[i]) == Sum(s, f) + f(x)
    decreases i
  {
    if i == 0 {
      assert s[i := x][1..] == s[1..];
    } else {
      assert s[i := x][1..] == s[1..][i - 1 := x];
      SumUpdate(s[1..], i - 1, x, f);
    }
  }

  lemma {:induction false} SumMember<T>(s: seq<T>, i: nat, f: T -> nat)
    requires i < |s|
    ensures f(s[i]) <= Sum(s, f)
    decreases i
  {
    if i > 0 { SumMember(s[1..], i - 1, f); }
  }

  lemma {:induction false} SumTwo<T>(s: seq<T>, i: nat, j: nat, f: T -> nat)
    requires i < j < |s|
    ensures f(s[i]) + f(s[j]) <= Sum(s, f)
    decreases i
  {
    if i == 0 { SumMember(s[1..], j - 1, f); } else { SumTwo(s[1..], i - 1, j - 1, f); }
  }

  /** A positive sum has a positive summand. */
  lemma {:induction false} SumPositive<T>(s: seq<T>, f: T -> nat) returns (i: nat)
    requires Sum(s, f) > 0
    ensures i < |s| && f(s[i]) > 0
    decreases |s|
  {
    if f(s[0]) > 0 { i := 0; } else {
      var k := SumPositive(s[1..], f);
      i := k + 1;
    }
  }

  lemma {:induction false} SumConcat<T>(a: seq<T>, b: seq<T>, f: T -> nat)
    ensures Sum(a + b, f) == Sum(a, f) + Sum(b, f)
    decreases |a|
  {
    if a == [] {
      assert a + b == b;
    } else {
      assert (a + b)[1..] == a[1..] + b;
      SumConcat(a[1..], b, f);
    }
  }

  lemma {:induction false} SumZero<T>(s: seq<T>, f: T -> nat)
    requires forall x <- s :: f(x) == 0
    ensures Sum(s, f) == 0
    decreases |s|
  {
    if s != [] { SumZero(s[1..], f); }
  }

  lemma Assoc<T>(a: seq<T>, b: seq<T>, c: seq<T>)
    ensures (a + b) + c == a + (b + c)
  {
  }

  function Flatten<T>(blocks: seq<seq<T>>): seq<T> {
    if blocks == [] then [] else Flatten(blocks[..|blocks| - 1]) + blocks[|blocks| - 1]
  }

  lemma FlattenNext<T>(blocks: seq<seq<T>>, i: nat)
    requires i < |blocks|
    ensures Flatten(blocks[..i + 1]) == Flatten(blocks[..i]) + blocks[i]
  {
    assert blocks[..i + 1][..i] == blocks[..i];
  }

  /** The first `k` blocks come first. */
  lemma {:induction false} FlattenSplit<T>(blocks: seq<seq<T>>, k: nat) returns (rest: seq<T>)
    requires k <= |blocks|
    ensures Flatten(blocks) == Flatten(blocks[..k]) + rest
    decreases |blocks|
  {
    if k == |blocks| {
      rest := [];
      assert blocks[..k] == blocks;
      AppendNothing(Flatten(blocks));
    } else {
      var n := |blocks| - 1;
      var before := FlattenSplit(blocks[..n], k);
      assert blocks[..n][..k] == blocks[..k];
      rest := before + blocks[n];
      Assoc(Flatten(blocks[..k]), before, blocks[n]);
    }
  }

  /** A sum over blocks of which each contributes `c`. */
  lemma {:induction false} SumFlatten<T>(blocks: seq<seq<T>>, f: T -> nat, c: nat)
    requires forall i :: 0 <= i < |blocks| ==> Sum(blocks[i], f) == c
    ensures Sum(Flatten(blocks), f) == Progression(0, c, |blocks|)
    decreases |blocks|
  {
    if blocks != [] {
      var n := |blocks| - 1;
      SumFlatten(blocks[..n], f, c);
      SumConcat(Flatten(blocks[..n]), blocks[n], f);
    }
  }

  lemma AppendNothing<T>(t: seq<T>)
    ensures t + [] == t
  {
  }

  /** `n` steps on from `start`. */
  function Progression(start: int, step: int, n: nat): int {
    if n == 0 then start else Progression(start, step, n - 1) + step
  }

  lemma {:induction false} ProgressionExactly(start: int, step: int, n: nat)
    ensures Progression(start, step, n) == start + n * step
  {
    if n > 0 { ProgressionExactly(start, step, n - 1); }
  }

  // ---------------------------------------------------------------- loops

  /** The state after the first `n` inputs. */
  function Fold<S, E>(next: (S, E) -> S, s: S, es: seq<E>, n: nat): S
    requires n <= |es|
  {
    if n == 0 then s else next(Fold(next, s, es, n - 1), es[n - 1])
  }

  /** The state of a loop that takes inputs while it finds something to do. */
  function While<S, E>(found: (S, E) -> bool, next: (S, E) -> S, s: S, es: seq<E>): S
    decreases |es|
  {
    if es == [] || !found(s, es[0]) then s else While(found, next, next(s, es[0]), es[1..])
  }

  lemma {:induction false} FoldShift<S, E>(next: (S, E) -> S, s: S, es: seq<E>, n: nat)
    requires n < |es|
    ensures Fold(next, s, es, n + 1) == Fold(next, next(s, es[0]), es[1..], n)
  {
    if n > 0 {
      FoldShift(next, s, es, n - 1);
      assert es[1..][n - 1] == es[n];
    }
  }

  /** The loop takes the inputs up to the first one with which it finds nothing. */
  lemma {:induction false} WhileExactly<S, E>(found: (S, E) -> bool, next: (S, E) -> S, s: S, es: seq<E>) returns (n: nat)
    ensures n <= |es| && While(found, next, s, es) == Fold(next, s, es, n)
    ensures forall k :: 0 <= k < n ==> found(Fold(next, s, es, k), es[k])
    ensures n < |es| ==> !found(Fold(next, s, es, n), es[n])
    decreases |es|
  {
    if es == [] || !found(s, es[0]) {
      n := 0;
    } else {
      var m := WhileExactly(found, next, next(s, es[0]), es[1..]);
      n := m + 1;
      FoldShift(next, s, es, m);
      forall k | 0 <= k < n
        ensures found(Fold(next, s, es, k), es[k])
      {
        if k > 0 { FoldShift(next, s, es, k - 1); }
      }
    }
  }
}
