/** Splitting the projections into heads (`transpose_for_scores`,
    src/models/convbert4kt_plus.py:207-221), the scaled-dot-product index
    pairing (lines 146 and 165), and merging the heads back (lines 167-182). */
module AttentionHeads {
  import opened Options
  import opened Shapes
  import opened Tensors
  import opened Products

  /** The permutation `(0, 2, 1, 3)` of lines 167 and 221. */
  lemma SwapMiddle()
    ensures IsPermutation([0, 2, 1, 3])
  {
    var p: seq<nat> := [0, 2, 1, 3];
    assert p[0] == 0 && p[2] == 1 && p[1] == 2 && p[3] == 3;
  }

  /** `transpose_for_scores(x)`: view the last dimension as `(H, d)` and move
      the head axis in front of the sequence axis. */
  function TransposeForScores<T>(x: Tensor<T>, heads: nat, headSize: nat): (r: Option<Tensor<T>>)
    requires x.Valid()
    ensures r.Some? <==> |x.shape| == 3 && Size([x.shape[0], x.shape[1], heads, headSize]) == |x.data|
    ensures r.Some? ==> r.value.Valid() && r.value.shape == [x.shape[0], heads, x.shape[1], headSize]
  {
    var lead := if x.shape == [] then [] else x.shape[..|x.shape| - 1];
    assert |x.shape| == 3 ==> lead + [heads, headSize] == [x.shape[0], x.shape[1], heads, headSize];
    var v :- View(x, lead + [heads, headSize]);
    SwapMiddle();
    Permute(v, [0, 2, 1, 3])
  }

  lemma CancelPositive(p: nat, a: nat, b: nat)
    requires p > 0
    ensures p * a == p * b <==> a == b
  {
    if a < b {
      assert p * a < p * b;
    } else if a > b {
      assert p * a > p * b;
    }
  }

  /** On a non-empty batch of non-empty sequences the head split is defined
      exactly when the width is `H * d`. */
  lemma TransposeForScoresDefined<T>(x: Tensor<T>, heads: nat, headSize: nat)
    requires x.Valid() && |x.shape| == 3 && x.shape[0] > 0 && x.shape[1] > 0
    ensures TransposeForScores(x, heads, headSize).Some? <==> x.shape[2] == heads * headSize
  {
    var s0, s1, w := x.shape[0], x.shape[1], x.shape[2];
    assert x.shape == [s0, s1, w];
    Size3(s0, s1, w);
    Size4(s0, s1, heads, headSize);
    assert s0 * s1 * heads * headSize == (s0 * s1) * (heads * headSize);
    CancelPositive(s0 * s1, w, heads * headSize);
  }

  /** `x[b][i][h*d + e]` lands at `[b][h][i][e]`. */
  lemma TransposeForScoresAt<T>(x: Tensor<T>, heads: nat, headSize: nat, b: nat, h: nat, i: nat, e: nat)
    requires x.Valid() && |x.shape| == 3 && x.shape[2] == heads * headSize
    requires b < x.shape[0] && h < heads && i < x.shape[1] && e < headSize
    ensures TransposeForScores(x, heads, headSize).Some?
    ensures InBounds(x.shape, [b, i, Flat(headSize, h, e)])
    ensures TransposeForScores(x, heads, headSize).value.At([b, h, i, e]) == x.At([b, i, Flat(headSize, h, e)])
  {
    SplitLastAt(x, heads, headSize, b, i, h, e);
    var v := View(x, [x.shape[0], x.shape[1], heads, headSize]).value;
    var p: seq<nat> := [0, 2, 1, 3];
    SwapMiddle();
    assert x.shape[..2] + [heads, headSize] == v.shape;
    assert TransposeForScores(x, heads, headSize) == Permute(v, p);
    assert InBounds(PermutedShape(v.shape, p), [b, h, i, e]);
    PermuteAt(v, p, [b, h, i, e]);
    assert SourceIndex(v.shape, p, [b, h, i, e]) == [b, i, h, e];
  }

  /** `t.permute(0, 2, 1, 3)` followed by flattening the last two axes: the
      inverse of the head split (lines 167 and 179-182). */
  function MergeHeads<T>(t: Tensor<T>): (r: Option<Tensor<T>>)
    requires t.Valid()
    ensures r.Some? <==> |t.shape| == 4
    ensures r.Some? ==> r.value.Valid() && r.value.shape == [t.shape[0], t.shape[2], t.shape[1] * t.shape[3]]
  {
    SwapMiddle();
    var c :- Permute(t, [0, 2, 1, 3]);
    assert c.shape == [t.shape[0], t.shape[2], t.shape[1], t.shape[3]];
    Size3(t.shape[0], t.shape[2], t.shape[1] * t.shape[3]);
    Size4(t.shape[0], t.shape[2], t.shape[1], t.shape[3]);
    assert t.shape[0] * t.shape[2] * (t.shape[1] * t.shape[3]) == t.shape[0] * t.shape[2] * t.shape[1] * t.shape[3];
    View(c, [t.shape[0], t.shape[2], t.shape[1] * t.shape[3]])
  }

  /** Channel `h*d + e` of position `i` is element `e` of head `h`. */
  lemma MergeHeadsAt<T>(t: Tensor<T>, b: nat, i: nat, h: nat, e: nat)
    requires t.Valid() && |t.shape| == 4
    requires b < t.shape[0] && i < t.shape[2] && h < t.shape[1] && e < t.shape[3]
    ensures MergeHeads(t).Some?
    ensures InBounds(MergeHeads(t).value.shape, [b, i, Flat(t.shape[3], h, e)])
    ensures MergeHeads(t).value.At([b, i, Flat(t.shape[3], h, e)]) == t.At([b, h, i, e])
  {
    var p: seq<nat> := [0, 2, 1, 3];
    SwapMiddle();
    var c := Permute(t, p).value;
    assert c.shape == [t.shape[0], t.shape[2], t.shape[1], t.shape[3]];
    assert c.At([b, i, h, e]) == t.At([b, h, i, e]) by {
      PermuteAt(t, p, [b, i, h, e]);
      assert SourceIndex(t.shape, p, [b, i, h, e]) == [b, h, i, e];
    }
    var m := MergeHeads(t).value;
    assert m == Tensor(m.shape, c.data);
    MergeLastAt(c, b, i, h, e);
  }

  lemma SplitChannel(c: nat, heads: nat, headSize: nat)
    requires c < heads * headSize
    ensures headSize > 0 && c / headSize < heads && c == (c / headSize) * headSize + c % headSize
  {
    DivBelow(c, heads, headSize);
  }

  /** Merging the heads of `transpose_for_scores(x)` gives back `x`. */
  lemma MergeAfterSplit<T>(x: Tensor<T>, heads: nat, headSize: nat)
    requires x.Valid() && |x.shape| == 3 && x.shape[2] == heads * headSize
    ensures TransposeForScores(x, heads, headSize).Some?
    ensures MergeHeads(TransposeForScores(x, heads, headSize).value) == Some(x)
  {
    TransposeForScoresDefinedByWidth(x, heads, headSize);
    var y := TransposeForScores(x, heads, headSize).value;
    var m := MergeHeads(y).value;
    forall idx | InBounds(m.shape, idx)
      ensures m.At(idx) == x.At(idx)
    {
      assert idx == [idx[0], idx[1], idx[2]];
      MergeAfterSplitAt(x, heads, headSize, idx[0], idx[1], idx[2]);
    }
    Extensionality(m, x);
  }

  lemma MergeAfterSplitAt<T>(x: Tensor<T>, heads: nat, headSize: nat, b: nat, i: nat, c: nat)
    requires x.Valid() && |x.shape| == 3 && x.shape[2] == heads * headSize
    requires b < x.shape[0] && i < x.shape[1] && c < x.shape[2]
    ensures TransposeForScores(x, heads, headSize).Some?
    ensures MergeHeads(TransposeForScores(x, heads, headSize).value).Some?
    ensures InBounds(MergeHeads(TransposeForScores(x, heads, headSize).value).value.shape, [b, i, c])
    ensures MergeHeads(TransposeForScores(x, heads, headSize).value).value.At([b, i, c]) == x.At([b, i, c])
  {
    SplitChannel(c, heads, headSize);
    var h: nat, e: nat := c / headSize, c % headSize;
    assert Flat(headSize, h, e) == c;
    TransposeForScoresDefinedByWidth(x, heads, headSize);
    var y := TransposeForScores(x, heads, headSize).value;
    assert y.shape == [x.shape[0], heads, x.shape[1], headSize];
    assert y.At([b, h, i, e]) == x.At([b, i, c]) by {
      TransposeForScoresAt(x, heads, headSize, b, h, i, e);
    }
    MergeHeadsAt(y, b, i, h, e);
  }

  lemma TransposeForScoresDefinedByWidth<T>(x: Tensor<T>, heads: nat, headSize: nat)
    requires x.Valid() && |x.shape| == 3 && x.shape[2] == heads * headSize
    ensures TransposeForScores(x, heads, headSize).Some?
  {
    var s0, s1 := x.shape[0], x.shape[1];
    assert x.shape == [s0, s1, heads * headSize];
    Size3(s0, s1, heads * headSize);
    Size4(s0, s1, heads, headSize);
    assert s0 * s1 * heads * headSize == s0 * s1 * (heads * headSize);
  }

  /** Splitting the merged heads of a `(bs, H, n, d)` tensor gives it back. */
  lemma SplitAfterMerge<T>(y: Tensor<T>)
    requires y.Valid() && |y.shape| == 4
    ensures MergeHeads(y).Some?
    ensures TransposeForScores(MergeHeads(y).value, y.shape[1], y.shape[3]) == Some(y)
  {
    var heads, headSize := y.shape[1], y.shape[3];
    var m := MergeHeads(y).value;
    TransposeForScoresDefinedByWidth(m, heads, headSize);
    var z := TransposeForScores(m, heads, headSize).value;
    assert z.shape == y.shape;
    forall idx | InBounds(z.shape, idx)
      ensures z.At(idx) == y.At(idx)
    {
      var b, h, i, e := idx[0], idx[1], idx[2], idx[3];
      assert idx == [b, h, i, e];
      TransposeForScoresAt(m, heads, headSize, b, h, i, e);
      MergeHeadsAt(y, b, i, h, e);
    }
    Extensionality(z, y);
  }

  // ---------------------------------------------------------------- scores and context

  /** `key_layer.transpose(-1, -2)` on a `(bs, H, n, d)` tensor. */
  lemma TransposeLastTwoAt<T>(k: Tensor<T>, b: nat, h: nat, e: nat, j: nat)
    requires k.Valid() && |k.shape| == 4
    requires b < k.shape[0] && h < k.shape[1] && j < k.shape[2] && e < k.shape[3]
    ensures Transpose(k, -1, -2).Some?
    ensures Transpose(k, -1, -2).value.shape == [k.shape[0], k.shape[1], k.shape[3], k.shape[2]]
    ensures InBounds(Transpose(k, -1, -2).value.shape, [b, h, e, j])
    ensures Transpose(k, -1, -2).value.At([b, h, e, j]) == k.At([b, h, j, e])
  {
    var p := SwapDims(4, 3, 2);
    assert p == [0, 1, 3, 2];
    assert Transpose(k, -1, -2) == Permute(k, p);
    var kt := Permute(k, p).value;
    assert kt.shape == [k.shape[0], k.shape[1], k.shape[3], k.shape[2]];
    PermuteAt(k, p, [b, h, e, j]);
    assert SourceIndex(k.shape, p, [b, h, e, j]) == [b, h, j, e];
  }

  /** `torch.matmul(query_layer, key_layer.transpose(-1, -2))` (line 146),
      before the scaling by `sqrt(d)` that is left out. */
  function AttentionScores<T>(ring: Ring<T>, query: Tensor<T>, key: Tensor<T>): (r: Option<Tensor<T>>)
    requires query.Valid() && key.Valid()
    ensures r.Some? ==> r.value.Valid()
  {
    var kt :- Transpose(key, -1, -2);
    Matmul4(ring, query, kt)
  }

  /** The row of head `h` of the `(bs, H, n, d)` tensor `t` at position `i`. */
  function HeadVector<T>(t: Tensor<T>, b: nat, h: nat, i: nat): (v: seq<T>)
    requires t.Valid() && |t.shape| == 4 && b < t.shape[0] && h < t.shape[1] && i < t.shape[2]
    ensures |v| == t.shape[3]
  {
    MatRow4(t, b, h, i)
  }

  /** Score `[b, h, i, j]` is the dot product of query `i` and key `j` of the
      same sequence and head. */
  lemma AttentionScoresAt<T>(ring: Ring<T>, query: Tensor<T>, key: Tensor<T>, b: nat, h: nat, i: nat, j: nat)
    requires query.Valid() && key.Valid() && |query.shape| == 4 && query.shape == key.shape
    requires b < query.shape[0] && h < query.shape[1] && i < query.shape[2] && j < key.shape[2]
    ensures AttentionScores(ring, query, key).Some?
    ensures AttentionScores(ring, query, key).value.shape == [query.shape[0], query.shape[1], query.shape[2], key.shape[2]]
    ensures InBounds(AttentionScores(ring, query, key).value.shape, [b, h, i, j])
    ensures AttentionScores(ring, query, key).value.At([b, h, i, j])
            == Dot(ring, HeadVector(query, b, h, i), HeadVector(key, b, h, j))
  {
    var n := key.shape[2];
    var kt := Transpose(key, -1, -2).value;
    var p := SwapDims(4, 3, 2);
    assert p == [0, 1, 3, 2];
    assert Transpose(key, -1, -2) == Permute(key, p);
    assert kt.shape == [key.shape[0], key.shape[1], key.shape[3], key.shape[2]];
    Matmul4At(ring, query, kt, b, h, i, j);
    var column := MatColumn4(kt, b, h, j);
    forall e | 0 <= e < |column|
      ensures column[e] == HeadVector(key, b, h, j)[e]
    {
      TransposeLastTwoAt(key, b, h, e, j);
    }
    assert column == HeadVector(key, b, h, j);
  }

  /** `torch.matmul(attention_probs, value_layer)` (line 165): context
      `[b, h, i, e]` combines the weights of query `i` with element `e` of
      every value of the same sequence and head. */
  lemma ContextAt<T>(ring: Ring<T>, probs: Tensor<T>, value: Tensor<T>, b: nat, h: nat, i: nat, e: nat)
    requires probs.Valid() && value.Valid() && Matmul4Defined(probs, value)
    requires b < probs.shape[0] && h < probs.shape[1] && i < probs.shape[2] && e < value.shape[3]
    ensures InBounds(Matmul4Shape(probs, value), [b, h, i, e])
    ensures Matmul4(ring, probs, value).value.At([b, h, i, e])
            == Dot(ring, HeadVector(probs, b, h, i), MatColumn4(value, b, h, e))
  {
    Matmul4At(ring, probs, value, b, h, i, e);
  }

  // ---------------------------------------------------------------- heads merged

  /** Lines 167 and 176: the attention context `(bs, H, n, d)` moved to
      `(bs, n, H, d)` and concatenated with the convolution heads along the
      head axis, attention first. */
  function ConcatHeads<T>(context: Tensor<T>, convOut: Tensor<T>): (r: Option<Tensor<T>>)
    requires context.Valid() && convOut.Valid()
    ensures r.Some? ==> r.value.Valid()
  {
    SwapMiddle();
    var c1 :- Permute(context, [0, 2, 1, 3]);
    Cat(c1, convOut, 2)
  }

  /** Lines 167-182: the concatenated heads viewed as
      `head_ratio * all_head_size` channels. */
  function MergeContexts<T>(context: Tensor<T>, convOut: Tensor<T>, headRatio: nat, allHeadSize: nat): (r: Option<Tensor<T>>)
    requires context.Valid() && convOut.Valid()
    ensures r.Some? ==> r.value.Valid()
  {
    var c2 :- ConcatHeads(context, convOut);
    View(c2, c2.shape[..|c2.shape| - 2] + [headRatio * allHeadSize])
  }

  /** Shapes of the two halves as the forward pass produces them. */
  predicate MergeableHalves<T>(context: Tensor<T>, convOut: Tensor<T>)
  {
    && |context.shape| == 4 && |convOut.shape| == 4
    && convOut.shape == [context.shape[0], context.shape[2], context.shape[1], context.shape[3]]
  }

  /** The concatenated tensor of line 176. */
  lemma ConcatenatedHeads<T>(context: Tensor<T>, convOut: Tensor<T>)
    requires context.Valid() && convOut.Valid() && MergeableHalves(context, convOut)
    ensures ConcatHeads(context, convOut).Some?
    ensures ConcatHeads(context, convOut).value.shape
            == [context.shape[0], context.shape[2], 2 * context.shape[1], context.shape[3]]
  {
    SwapMiddle();
  }

  /** With non-empty batch, sequence, heads and head size, the final view is
      defined exactly when `head_ratio * all_head_size == 2 * H * d`. */
  lemma MergeContextsDefined<T>(context: Tensor<T>, convOut: Tensor<T>, headRatio: nat, allHeadSize: nat)
    requires context.Valid() && convOut.Valid() && MergeableHalves(context, convOut)
    requires context.shape[0] > 0 && context.shape[2] > 0
    ensures MergeContexts(context, convOut, headRatio, allHeadSize).Some?
            <==> headRatio * allHeadSize == 2 * context.shape[1] * context.shape[3]
  {
    ConcatenatedHeads(context, convOut);
    var bs, heads, n, d := context.shape[0], context.shape[1], context.shape[2], context.shape[3];
    var c2 := ConcatHeads(context, convOut).value;
    assert c2.shape[..2] + [headRatio * allHeadSize] == [bs, n, headRatio * allHeadSize];
    Size3(bs, n, headRatio * allHeadSize);
    Size4(bs, n, 2 * heads, d);
    assert bs * n * (2 * heads) * d == (bs * n) * (2 * heads * d);
    CancelPositive(bs * n, headRatio * allHeadSize, 2 * heads * d);
  }

  lemma ConvChannel(c: nat, heads: nat, headSize: nat)
    requires heads * headSize <= c < 2 * heads * headSize
    ensures headSize > 0
    ensures c / headSize >= heads && c / headSize - heads == (c - heads * headSize) / headSize
    ensures (c - heads * headSize) / headSize < heads
    ensures c % headSize == (c - heads * headSize) % headSize
  {
    var rest := c - heads * headSize;
    DivBelow(rest, heads, headSize);
    var q, e := rest / headSize, rest % headSize;
    assert c == (q + heads) * headSize + e;
    DivModOfMulAdd(q + heads, e, headSize);
  }

  /** Head `h` of the concatenation is attention head `h` for `h < H` and
      convolution head `h - H` above. */
  lemma ConcatenatedHeadsAt<T>(context: Tensor<T>, convOut: Tensor<T>, b: nat, i: nat, h: nat, e: nat)
    requires context.Valid() && convOut.Valid() && MergeableHalves(context, convOut)
    requires b < context.shape[0] && i < context.shape[2] && h < 2 * context.shape[1] && e < context.shape[3]
    ensures ConcatHeads(context, convOut).Some?
    ensures InBounds(ConcatHeads(context, convOut).value.shape, [b, i, h, e])
    ensures ConcatHeads(context, convOut).value.At([b, i, h, e])
            == if h < context.shape[1] then context.At([b, h, i, e]) else convOut.At([b, i, h - context.shape[1], e])
  {
    ConcatenatedHeads(context, convOut);
    var heads := context.shape[1];
    var p: seq<nat> := [0, 2, 1, 3];
    var c1 := Permute(context, p).value;
    CatAt(c1, convOut, 2, [b, i, h, e]);
    if h < heads {
      PermuteAt(context, p, [b, i, h, e]);
      assert SourceIndex(context.shape, p, [b, i, h, e]) == [b, h, i, e];
    } else {
      assert [b, i, h, e][2 := h - heads] == [b, i, h - heads, e];
    }
  }

  /** Element `e` of merged head `h`: attention head `h` for `h < H`,
      convolution head `h - H` above. */
  lemma MergeContextsHeadAt<T>(context: Tensor<T>, convOut: Tensor<T>, headRatio: nat, allHeadSize: nat,
                              b: nat, i: nat, h: nat, e: nat)
    requires context.Valid() && convOut.Valid() && MergeableHalves(context, convOut)
    requires headRatio * allHeadSize == 2 * context.shape[1] * context.shape[3]
    requires b < context.shape[0] && i < context.shape[2] && h < 2 * context.shape[1] && e < context.shape[3]
    ensures MergeContexts(context, convOut, headRatio, allHeadSize).Some?
    ensures var r := MergeContexts(context, convOut, headRatio, allHeadSize).value;
      && r.shape == [context.shape[0], context.shape[2], headRatio * allHeadSize]
      && InBounds(r.shape, [b, i, Flat(context.shape[3], h, e)])
      && r.At([b, i, Flat(context.shape[3], h, e)])
         == if h < context.shape[1] then context.At([b, h, i, e]) else convOut.At([b, i, h - context.shape[1], e])
  {
    ConcatenatedHeadsAt(context, convOut, b, i, h, e);
    MergeContextsIsView(context, convOut, headRatio, allHeadSize);
    var c2 := ConcatHeads(context, convOut).value;
    MergeLastAt(c2, b, i, h, e);
  }

  /** Under the size condition the final view is the merge of the last two
      axes of the concatenation. */
  lemma MergeContextsIsView<T>(context: Tensor<T>, convOut: Tensor<T>, headRatio: nat, allHeadSize: nat)
    requires context.Valid() && convOut.Valid() && MergeableHalves(context, convOut)
    requires headRatio * allHeadSize == 2 * context.shape[1] * context.shape[3]
    ensures ConcatHeads(context, convOut).Some?
    ensures var c2 := ConcatHeads(context, convOut).value;
      MergeContexts(context, convOut, headRatio, allHeadSize)
      == View(c2, [c2.shape[0], c2.shape[1], c2.shape[2] * c2.shape[3]])
  {
    ConcatenatedHeads(context, convOut);
    var c2 := ConcatHeads(context, convOut).value;
    assert c2.shape[..2] + [headRatio * allHeadSize] == [c2.shape[0], c2.shape[1], c2.shape[2] * c2.shape[3]];
  }

  /** The element the merged output holds at channel `c` of position `i` of the
      merged output: channel `c < H * d` is element `c % d` of attention head
      `c / d`, and channel `c >= H * d` is element `c % d` of convolution head
      `(c - H * d) / d`. */
  function MergedChannel<T>(context: Tensor<T>, convOut: Tensor<T>, b: nat, i: nat, c: nat): T
    requires context.Valid() && convOut.Valid() && MergeableHalves(context, convOut)
    requires b < context.shape[0] && i < context.shape[2] && c < 2 * context.shape[1] * context.shape[3]
  {
    var heads, d := context.shape[1], context.shape[3];
    assert 2 * heads * d == (2 * heads) * d;
    SplitChannel(c, 2 * heads, d);
    if c < heads * d then
      DivBelow(c, heads, d);
      context.At([b, c / d, i, c % d])
    else
      ConvChannel(c, heads, d);
      convOut.At([b, i, (c - heads * d) / d, c % d])
  }

  /** Channel `c` of position `i` of the merged output is `MergedChannel`:
      attention heads first, then convolution heads. */
  lemma MergeContextsAt<T>(context: Tensor<T>, convOut: Tensor<T>, headRatio: nat, allHeadSize: nat,
                          b: nat, i: nat, c: nat)
    requires context.Valid() && convOut.Valid() && MergeableHalves(context, convOut)
    requires headRatio * allHeadSize == 2 * context.shape[1] * context.shape[3]
    requires b < context.shape[0] && i < context.shape[2] && c < headRatio * allHeadSize
    ensures MergeContexts(context, convOut, headRatio, allHeadSize).Some?
    ensures var r := MergeContexts(context, convOut, headRatio, allHeadSize).value;
      && r.shape == [context.shape[0], context.shape[2], headRatio * allHeadSize]
      && InBounds(r.shape, [b, i, c])
      && r.At([b, i, c]) == MergedChannel(context, convOut, b, i, c)
  {
    var heads, d := context.shape[1], context.shape[3];
    assert 2 * heads * d == (2 * heads) * d;
    SplitChannel(c, 2 * heads, d);
    var h, e := c / d, c % d;
    assert MergedChannel(context, convOut, b, i, c)
           == if h < heads then context.At([b, h, i, e]) else convOut.At([b, i, h - heads, e]) by {
      if c < heads * d {
        DivBelow(c, heads, d);
      } else {
        ConvChannel(c, heads, d);
      }
    }
    assert Flat(d, h, e) == c;
    MergeContextsHeadAt(context, convOut, headRatio, allHeadSize, b, i, h, e);
  }
}
