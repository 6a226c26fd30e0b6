/** The encoder stack of `ConvBert4ktPlus` (src/models/convbert4kt_plus.py:
    225-283, 327-335): every `EncoderBlock` hands its mask on untouched and
    `MySequential` threads `(x, mask)` through the blocks in order; and the
    position indices of `_positional_embedding` (lines 344-355). A block's
    update of `x` (layer norms, attention, feed-forward, dropout) is a
    parameter `body(x, mask)`. */
module Encoder {
  import opened Shapes
  import opened Tensors

  /** `EncoderBlock.forward(x, mask)` (lines 251-269): the block's residual
      update of `x`, returned together with the mask it was given. */
  function BlockForward<X, M>(body: (X, M) -> X, x: X, mask: M): (r: (X, M))
    ensures r.1 == mask
  {
    (body(x, mask), mask)
  }

  /** The pair the blocks `bodies` produce from `(x, mask)` when each is
      applied, in order, to the pair the previous one returned. */
  function Stack<X, M>(bodies: seq<(X, M) -> X>, x: X, mask: M): (r: (X, M))
    ensures r.1 == mask
    decreases |bodies|
  {
    if bodies == [] then (x, mask)
    else
      var next := BlockForward(bodies[0], x, mask);
      Stack(bodies[1..], next.0, next.1)
  }

  /** `MySequential.forward(x, mask)` (lines 280-283): a loop that replaces
      the pair by what the next module returns. */
  method SequentialForward<X, M>(bodies: seq<(X, M) -> X>, x: X, mask: M) returns (y: X, m: M)
    ensures (y, m) == Stack(bodies, x, mask)
    ensures m == mask
  {
    y, m := x, mask;
    var k := 0;
    while k < |bodies|
      invariant 0 <= k <= |bodies|
      invariant Stack(bodies, x, mask) == Stack(bodies[k..], y, m)
    {
      assert bodies[k..][1..] == bodies[k + 1..];
      var next := BlockForward(bodies[k], y, m);
      y, m := next.0, next.1;
      k := k + 1;
    }
    assert bodies[k..] == [];
  }

  /** Running two stacks one after the other is running their concatenation. */
  lemma {:induction false} StackAppend<X, M>(first: seq<(X, M) -> X>, second: seq<(X, M) -> X>, x: X, mask: M)
    ensures Stack(first + second, x, mask) == Stack(second, Stack(first, x, mask).0, mask)
    decreases |first|
  {
    if first == [] {
      assert first + second == second;
    } else {
      assert (first + second)[0] == first[0];
      assert (first + second)[1..] == first[1..] + second;
      StackAppend(first[1..], second, first[0](x, mask), mask);
    }
  }

  /** The last block runs last, on the output of all the blocks before it. */
  lemma LastBlockLast<X, M>(bodies: seq<(X, M) -> X>, last: (X, M) -> X, x: X, mask: M)
    ensures Stack(bodies + [last], x, mask) == (last(Stack(bodies, x, mask).0, mask), mask)
  {
    StackAppend(bodies, [last], x, mask);
    assert [last][1..] == [];
  }

  /** Block `k` of a test stack: it appends its own tag `k`. */
  function Tagger<M>(k: nat): (seq<nat>, M) -> seq<nat>
  {
    (x: seq<nat>, m: M) => x + [k]
  }

  /** The blocks `0 .. n-1`, each tagging its output with its position. */
  function Taggers<M>(n: nat): (bodies: seq<(seq<nat>, M) -> seq<nat>>)
    ensures |bodies| == n
  {
    seq(n, k requires 0 <= k => Tagger(k as nat))
  }

  /** The tags `0, 1, .., n-1`. */
  function Tags(n: nat): (tags: seq<nat>)
    ensures |tags| == n
  {
    seq(n, k requires 0 <= k => k as nat)
  }

  /** A stack of `n` blocks that can be told apart applies each of them
      exactly once, in order, every block on the output of the one before:
      the tags come out as `0, 1, .., n-1`, so the `num_encoder` blocks of
      lines 327-335 run once each, in list order. */
  lemma {:induction false} StackAppliesEachBlockOnce<M>(n: nat, start: seq<nat>, mask: M)
    ensures Stack(Taggers(n), start, mask) == (start + Tags(n), mask)
  {
    if n == 0 {
      assert Taggers<M>(0) == [];
      assert start + Tags(0) == start;
    } else {
      var init := Taggers<M>(n - 1);
      assert Taggers<M>(n) == init + [Tagger(n - 1)];
      LastBlockLast(init, Tagger(n - 1), start, mask);
      StackAppliesEachBlockOnce(n - 1, start, mask);
      var before := start + Tags(n - 1);
      assert Tagger<M>(n - 1)(before, mask) == before + [n - 1];
      assert Tags(n) == Tags(n - 1) + [n - 1];
      assert before + [n - 1] == start + Tags(n);
    }
  }

  // ---------------------------------------------------------------- positions (lines 344-352)

  /** `torch.arange(n)`. */
  function Arange(n: nat): (r: Tensor<nat>)
    ensures r.Valid() && r.shape == [n]
  {
    Size1(n);
    Tensor([n], seq(n, i => i))
  }

  /** `torch.arange(q.size(1)).unsqueeze(0).expand_as(q)` (line 349) for
      the `(bs, n)` question tensor `q`. */
  function Positions<T>(q: Tensor<T>): (r: Tensor<nat>)
    requires q.Valid() && |q.shape| == 2
    ensures r.Valid() && r.shape == q.shape
  {
    var row := UnsqueezeFirst(Arange(q.shape[1]));
    assert row.shape == [1, q.shape[1]];
    Expand(row, q.shape).value
  }

  /** Every sequence of the batch gets the positions `0 .. n-1`. */
  lemma PositionsAt<T>(q: Tensor<T>, b: nat, i: nat)
    requires q.Valid() && |q.shape| == 2 && b < q.shape[0] && i < q.shape[1]
    ensures InBounds(Positions(q).shape, [b, i])
    ensures Positions(q).At([b, i]) == i
  {
    var n := q.shape[1];
    var arange := Arange(n);
    var row := UnsqueezeFirst(arange);
    assert row.shape == [1, n];
    Offset2(q.shape[0], n, b, i);
    ExpandAt(row, q.shape, [b, i]);
    assert ExpandSource(row.shape, q.shape, [b, i]) == [0, i];
    Offset2(1, n, 0, i);
    Offset1(n, i);
    assert row.At([0, i]) == arange.At([i]);
  }

  /** The lookup `emb_p(pos)` (line 352) stays inside the `max_seq_len` rows
      of the position table exactly when the sequence is no longer than
      `max_seq_len`. */
  lemma PositionsInTable<T>(q: Tensor<T>, maxSeqLen: nat)
    requires q.Valid() && |q.shape| == 2 && q.shape[0] > 0
    ensures (forall idx :: InBounds(q.shape, idx) ==> Positions(q).At(idx) < maxSeqLen)
            <==> q.shape[1] <= maxSeqLen
  {
    var bs, n := q.shape[0], q.shape[1];
    var pos := Positions(q);
    if n <= maxSeqLen {
      forall idx | InBounds(q.shape, idx)
        ensures pos.At(idx) < maxSeqLen
      {
        InBounds2(bs, n, idx);
        PositionsAt(q, idx[0], idx[1]);
      }
    } else {
      PositionsAt(q, 0, n - 1);
      assert InBounds(q.shape, [0, n - 1]);
    }
  }
}
