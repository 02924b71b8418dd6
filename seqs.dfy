/** Concatenating the pieces a function maps each element of a sequence to. */
module Sequences {

  /** f(xs[0]) + f(xs[1]) + ... : the shape of a loop that extends an accumulator per element. */
  function FlatMap<T, U>(xs: seq<T>, f: T -> seq<U>): seq<U>
    decreases |xs|
  {
    if xs == [] then [] else FlatMap(xs[..|xs| - 1], f) + f(xs[|xs| - 1])
  }

  /** FlatMap distributes over concatenation. */
  lemma {:induction false} FlatMapAppend<T, U>(xs: seq<T>, ys: seq<T>, f: T -> seq<U>)
    ensures FlatMap(xs + ys, f) == FlatMap(xs, f) + FlatMap(ys, f)
    decreases |ys|
  {
    if ys == [] {
      assert xs + ys == xs;
    } else {
      var init, last := ys[..|ys| - 1], ys[|ys| - 1];
      assert (xs + ys)[..|xs + ys| - 1] == xs + init;
      assert (xs + ys)[|xs + ys| - 1] == last;
      FlatMapAppend(xs, init, f);
    }
  }

  /** Proof step for loops that end at `|s|`: the prefix as long as the sequence is the sequence. */
  lemma TakeAll<T>(s: seq<T>)
    ensures s[..|s|] == s
  {
  }

  /** Proof step for loops over `s[..k]`: a prefix one longer is the prefix extended by the next element. */
  lemma TakeOneMore<T>(s: seq<T>, k: nat)
    requires k < |s|
    ensures s[..k + 1] == s[..k] + [s[k]]
  {
  }

  /** Proof step for loop entry: before the first element the accumulator is unchanged. */
  lemma FlatMapNone<T, U>(a: seq<U>, xs: seq<T>, f: T -> seq<U>)
    ensures a + FlatMap(xs[..0], f) == a
  {
    assert xs[..0] == [];
  }

  /** Proof step for accumulators that start non-empty: concatenation is associative. */
  lemma AppendAssoc<T>(a: seq<T>, b: seq<T>, c: seq<T>)
    ensures (a + b) + c == a + (b + c)
  {
  }

  /** Proof step for loop bodies: extending by one element appends that element's piece. */
  lemma FlatMapSnoc<T, U>(xs: seq<T>, x: T, f: T -> seq<U>)
    ensures FlatMap(xs + [x], f) == FlatMap(xs, f) + f(x)
  {
    assert (xs + [x])[..|xs|] == xs;
  }

  /** The piece of element p sits, whole and in order, right after the pieces of the elements before it. */
  lemma FlatMapAt<T, U>(xs: seq<T>, f: T -> seq<U>, p: nat, i: nat)
    requires p < |xs| && i < |f(xs[p])|
    ensures |FlatMap(xs[..p], f)| + i < |FlatMap(xs, f)|
    ensures FlatMap(xs, f)[|FlatMap(xs[..p], f)| + i] == f(xs[p])[i]
  {
    assert xs == xs[..p] + [xs[p]] + xs[p + 1..];
    FlatMapAppend(xs[..p] + [xs[p]], xs[p + 1..], f);
    FlatMapAppend(xs[..p], [xs[p]], f);
    assert FlatMap([xs[p]], f) == f(xs[p]) by {
      assert [xs[p]][..0] == [];
    }
  }

  /** Every element of the result comes from the piece of some element. */
  lemma {:induction false} FlatMapFrom<T, U>(xs: seq<T>, f: T -> seq<U>, k: nat)
    requires k < |FlatMap(xs, f)|
    ensures exists j :: 0 <= j < |xs| && FlatMap(xs, f)[k] in f(xs[j])
    decreases |xs|
  {
    var init := xs[..|xs| - 1];
    if k < |FlatMap(init, f)| {
      FlatMapFrom(init, f, k);
      var j :| 0 <= j < |init| && FlatMap(init, f)[k] in f(init[j]);
      assert init[j] == xs[j];
    } else {
      assert FlatMap(xs, f)[k] == f(xs[|xs| - 1])[k - |FlatMap(init, f)|];
    }
  }
}
