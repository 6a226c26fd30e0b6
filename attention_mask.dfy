/** `ConvBertSelfAttention.get_extended_attention_mask` and the
    `masked_fill_` that applies it to the attention scores
    (src/models/convbert4kt_plus.py:152-157, 193-204). */
module AttentionMask {
  import opened Options
  import opened Shapes
  import opened Tensors

  /** `mask.unsqueeze(-1).expand(bs, n, n * H).bool()` (line 198). */
  function MaskEncoding<T>(mask: Tensor<T>, heads: nat, truthy: T -> bool): (r: Tensor<bool>)
    requires mask.Valid() && |mask.shape| == 2
    ensures r.Valid() && r.shape == [mask.shape[0], mask.shape[1], mask.shape[1] * heads]
  {
    var bs, n := mask.shape[0], mask.shape[1];
    var column := UnsqueezeLast(mask);
    assert column.shape == [bs, n, 1];
    MapElements(Expand(column, [bs, n, n * heads]).value, truthy)
  }

  /** Every entry of row `[b, k]` of the encoding is the truth value of
      `mask[b][k]`. */
  lemma MaskEncodingAt<T>(mask: Tensor<T>, heads: nat, truthy: T -> bool, b: nat, k: nat, j: nat)
    requires mask.Valid() && |mask.shape| == 2
    requires b < mask.shape[0] && k < mask.shape[1] && j < mask.shape[1] * heads
    ensures InBounds(MaskEncoding(mask, heads, truthy).shape, [b, k, j])
    ensures MaskEncoding(mask, heads, truthy).At([b, k, j]) == truthy(mask.At([b, k]))
  {
    var bs, n := mask.shape[0], mask.shape[1];
    var column := UnsqueezeLast(mask);
    var ns := [bs, n, n * heads];
    var e := Expand(column, ns).value;
    var idx := [b, k, j];
    assert InBounds(ns, idx);
    ExpandAt(column, ns, idx);
    var src := ExpandSource(column.shape, ns, idx);
    assert src == [b, k, 0];
    assert e.At(idx) == column.At([b, k, 0]);
    assert column.At([b, k, 0]) == mask.At([b, k]) by {
      assert column.shape == [bs, n, 1] && mask.shape == [bs, n];
      Offset3(bs, n, 1, b, k, 0);
      Offset2(bs, n, b, k);
      assert Offset(column.shape, [b, k, 0]) == Offset(mask.shape, [b, k]);
    }
  }

  /** The permutation of line 204. */
  lemma KeyQueryHeadSwap()
    ensures IsPermutation([0, 3, 2, 1])
  {
    var p: seq<nat> := [0, 3, 2, 1];
    assert p[0] == 0 && p[3] == 1 && p[2] == 2 && p[1] == 3;
  }

  /** `get_extended_attention_mask(mask)` for `H = heads`; `truthy` is the
      tensor's `.bool()` conversion. Fails unless `mask` is 2-D. */
  function ExtendedAttentionMask<T>(mask: Tensor<T>, heads: nat, truthy: T -> bool): (r: Option<Tensor<bool>>)
    requires mask.Valid()
    ensures r.Some? <==> |mask.shape| == 2
    ensures r.Some? ==> r.value.Valid()
    ensures r.Some? ==> r.value.shape == [mask.shape[0], heads, mask.shape[1], mask.shape[1]]
  {
    if |mask.shape| != 2 then None
    else
      var bs, n := mask.shape[0], mask.shape[1];
      var enc := MaskEncoding(mask, heads, truthy);
      Size3(bs, n, n * heads);
      Size4(bs, n, n, heads);
      assert bs * n * (n * heads) == bs * n * n * heads;
      KeyQueryHeadSwap();
      Permute(View(enc, [bs, n, n, heads]).value, [0, 3, 2, 1])
  }

  /** The encoding viewed as `(bs, n, n, H)` (line 201): entry `[b, k, q, h]`
      is the truth value of `mask[b][k]`. */
  lemma HeadMajorEncodingAt<T>(mask: Tensor<T>, heads: nat, truthy: T -> bool, b: nat, k: nat, q: nat, h: nat)
    requires mask.Valid() && |mask.shape| == 2
    requires b < mask.shape[0] && k < mask.shape[1] && q < mask.shape[1] && h < heads
    ensures var enc := MaskEncoding(mask, heads, truthy);
      var s := [mask.shape[0], mask.shape[1], mask.shape[1], heads];
      && View(enc, s).Some?
      && InBounds(s, [b, k, q, h])
      && View(enc, s).value.At([b, k, q, h]) == truthy(mask.At([b, k]))
  {
    var enc := MaskEncoding(mask, heads, truthy);
    var j := Flat(heads, q, h);
    assert enc.At([b, k, j]) == truthy(mask.At([b, k])) by {
      MulAddBound(q, mask.shape[1], h, heads);
      MaskEncodingAt(mask, heads, truthy, b, k, j);
    }
    SplitLastAt(enc, mask.shape[1], heads, b, k, q, h);
  }

  /** The extended mask at `[b, h, q, k]` is the truth value of `mask[b][k]`
      for every head `h` and query `q`: it depends on the key axis only. */
  lemma ExtendedMaskAt<T>(mask: Tensor<T>, heads: nat, truthy: T -> bool, b: nat, h: nat, q: nat, k: nat)
    requires mask.Valid() && |mask.shape| == 2
    requires b < mask.shape[0] && h < heads && q < mask.shape[1] && k < mask.shape[1]
    ensures InBounds(ExtendedAttentionMask(mask, heads, truthy).value.shape, [b, h, q, k])
    ensures ExtendedAttentionMask(mask, heads, truthy).value.At([b, h, q, k]) == truthy(mask.At([b, k]))
  {
    var bs, n := mask.shape[0], mask.shape[1];
    HeadMajorEncodingAt(mask, heads, truthy, b, k, q, h);
    var enc4 := View(MaskEncoding(mask, heads, truthy), [bs, n, n, heads]).value;
    var p: seq<nat> := [0, 3, 2, 1];
    KeyQueryHeadSwap();
    assert ExtendedAttentionMask(mask, heads, truthy) == Permute(enc4, p);
    assert InBounds(PermutedShape(enc4.shape, p), [b, h, q, k]);
    PermuteAt(enc4, p, [b, h, q, k]);
    assert SourceIndex(enc4.shape, p, [b, h, q, k]) == [b, k, q, h];
  }

  // ---------------------------------------------------------------- masked_fill_

  /** The buffer `masked_fill_(mask, value)` leaves: `value` where the mask is
      set, the old element elsewhere. */
  function FillWhere<T>(data: seq<T>, mask: seq<bool>, value: T): (r: seq<T>)
    requires |mask| == |data|
    ensures |r| == |data|
  {
    seq(|data|, o requires 0 <= o < |data| => if mask[o] then value else data[o])
  }

  /** `scores.masked_fill_(mask, value)` on the flat buffer of a tensor whose
      mask has its shape (line 157): an in-place pass over the elements. */
  method MaskedFillInPlace<T>(scores: array<T>, mask: seq<bool>, value: T)
    requires |mask| == scores.Length
    modifies scores
    ensures scores[..] == FillWhere(old(scores[..]), mask, value)
  {
    var o := 0;
    while o < scores.Length
      invariant 0 <= o <= scores.Length
      invariant forall p :: 0 <= p < o ==> scores[p] == if mask[p] then value else old(scores[p])
      invariant forall p :: o <= p < scores.Length ==> scores[p] == old(scores[p])
    {
      if mask[o] {
        scores[o] := value;
      }
      o := o + 1;
    }
  }

  /** `masked_fill_` as a tensor operation; PyTorch rejects a mask it cannot
      broadcast, and the model accepts only a mask of the scores' own shape. */
  function MaskedFill<T>(scores: Tensor<T>, mask: Tensor<bool>, value: T): (r: Option<Tensor<T>>)
    requires scores.Valid() && mask.Valid()
    ensures r.Some? <==> mask.shape == scores.shape
    ensures r.Some? ==> r.value.Valid() && r.value.shape == scores.shape
  {
    if mask.shape != scores.shape then None
    else Some(Tensor(scores.shape, FillWhere(scores.data, mask.data, value)))
  }

  /** Exactly the entries whose mask entry is set become `value`; every other
      entry keeps its score. */
  lemma MaskedFillAt<T>(scores: Tensor<T>, mask: Tensor<bool>, value: T, idx: seq<nat>)
    requires scores.Valid() && mask.Valid() && mask.shape == scores.shape
    requires InBounds(scores.shape, idx)
    ensures MaskedFill(scores, mask, value).value.At(idx) == if mask.At(idx) then value else scores.At(idx)
  {
  }

  /** Filling twice with the same mask and sentinel is filling once. */
  lemma MaskedFillIdempotent<T>(scores: Tensor<T>, mask: Tensor<bool>, value: T)
    requires scores.Valid() && mask.Valid() && mask.shape == scores.shape
    ensures MaskedFill(MaskedFill(scores, mask, value).value, mask, value) == MaskedFill(scores, mask, value)
  {
    var once := MaskedFill(scores, mask, value).value;
    assert FillWhere(once.data, mask.data, value) == once.data;
  }

  /** Line 157 with the mask of line 152: score `[b, h, q, k]` becomes the
      sentinel exactly when key `k` of sequence `b` is flagged, whatever the
      head and the query; an unflagged key keeps its score. */
  lemma ScoresMaskedByKey<T, M>(scores: Tensor<T>, mask: Tensor<M>, heads: nat, truthy: M -> bool,
                               sentinel: T, b: nat, h: nat, q: nat, k: nat)
    requires scores.Valid() && mask.Valid() && |mask.shape| == 2
    requires scores.shape == [mask.shape[0], heads, mask.shape[1], mask.shape[1]]
    requires b < mask.shape[0] && h < heads && q < mask.shape[1] && k < mask.shape[1]
    ensures var ext := ExtendedAttentionMask(mask, heads, truthy).value;
      && MaskedFill(scores, ext, sentinel).Some?
      && InBounds(scores.shape, [b, h, q, k])
      && MaskedFill(scores, ext, sentinel).value.At([b, h, q, k])
         == if truthy(mask.At([b, k])) then sentinel else scores.At([b, h, q, k])
  {
    var ext := ExtendedAttentionMask(mask, heads, truthy).value;
    ExtendedMaskAt(mask, heads, truthy, b, h, q, k);
    MaskedFillAt(scores, ext, sentinel, [b, h, q, k]);
  }
}
