/**
 * Sequence facts shared by the models, and `flatMap` with a counter that
 * runs on across the mapped elements.
 */
module Seqs {
  /** The blocks of `xs` back to back, element `x` rendered by
      `block(x, counter)` and the counter then advanced by `size(x)`. */
  function FlatMapCounted<T, U>(block: (T, int) -> seq<U>, size: T -> nat, xs: seq<T>, start: int): seq<U> {
    if |xs| == 0 then []
    else block(xs[0], start) + FlatMapCounted(block, size, xs[1..], start + size(xs[0]))
  }

  /** The sum of `size` over `xs`: how far the counter advances. */
  function Total<T>(size: T -> nat, xs: seq<T>): nat {
    if |xs| == 0 then 0 else size(xs[0]) + Total(size, xs[1..])
  }

  /** Mapping a concatenation is mapping each part, the second part's
      counter starting where the first part's stops. */
  lemma {:induction false} FlatMapAppend<T, U>(block: (T, int) -> seq<U>, size: T -> nat, a: seq<T>, b: seq<T>,
                                               start: int)
    ensures FlatMapCounted(block, size, a + b, start)
            == FlatMapCounted(block, size, a, start) + FlatMapCounted(block, size, b, start + Total(size, a))
  {
    if |a| == 0 {
      AppendEmpty(a, b);
    } else {
      var n := size(a[0]);
      var h := block(a[0], start);
      var f := FlatMapCounted(block, size, a[1..], start + n);
      var g := FlatMapCounted(block, size, b, start + n + Total(size, a[1..]));
      AppendHead(a, b);
      FlatMapAppend(block, size, a[1..], b, start + n);
      Assoc(h, f, g);
    }
  }

  lemma AppendEmpty<T>(a: seq<T>, b: seq<T>)
    requires a == []
    ensures a + b == b
  {
  }

  lemma AppendHead<T>(a: seq<T>, b: seq<T>)
    requires a != []
    ensures (a + b)[0] == a[0] && (a + b)[1..] == a[1..] + b
  {
  }

  lemma TakeDrop<T>(s: seq<T>, j: nat)
    requires j <= |s|
    ensures s[..j] + s[j..] == s
  {
  }

  lemma Assoc<T>(a: seq<T>, b: seq<T>, c: seq<T>)
    ensures a + (b + c) == (a + b) + c
  {
  }
}
