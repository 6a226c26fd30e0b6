/** `SeparableConv1D` (src/models/convbert4kt_plus.py:7-32): the shapes its
    two convolutions produce and the in-place bias add after them. The
    convolution weights are numeric and are not modelled. */
module SeparableConv {
  import opened Options
  import opened Shapes
  import opened Tensors

  /** The length `nn.Conv1d` produces from `len` positions with kernel `K`,
      stride 1 and the padding `K // 2` of line 14. */
  function DepthwiseLength(len: nat, kernelSize: nat): int
  {
    SlidingCount(len, kernelSize, kernelSize / 2)
  }

  /** The `(N, C, L)` shape after the depthwise and the pointwise
      convolution, for the batched 3-D input that line 92 passes; `None`
      where `nn.Conv1d` raises on it: a channel count other than
      `input_filters`, an empty kernel, or an output with no positions. Any
      other rank is `None` as well. */
  function SeparableShape(shape: seq<nat>, inputFilters: nat, outputFilters: nat, kernelSize: nat): (r: Option<seq<nat>>)
    ensures r.Some? <==> |shape| == 3 && shape[1] == inputFilters && kernelSize > 0
                         && DepthwiseLength(shape[2], kernelSize) >= 1
    ensures r.Some? ==> r.value == [shape[0], outputFilters, DepthwiseLength(shape[2], kernelSize) as nat]
  {
    if |shape| != 3 || shape[1] != inputFilters || kernelSize == 0 then None
    else
      var len := DepthwiseLength(shape[2], kernelSize);
      if len < 1 then None else Some([shape[0], outputFilters, len as nat])
  }

  /** Padding `K // 2` keeps the sequence length exactly for odd kernels; an
      even kernel adds one position. */
  lemma DepthwiseKeepsLength(len: nat, kernelSize: nat)
    requires kernelSize > 0
    ensures DepthwiseLength(len, kernelSize) == len <==> kernelSize % 2 == 1
    ensures kernelSize % 2 == 0 ==> DepthwiseLength(len, kernelSize) == len + 1
  {
  }

  /** With an odd kernel and a non-empty sequence the module maps
      `(bs, input_filters, n)` to `(bs, output_filters, n)`, as the comments
      at lines 21-30 say. */
  lemma SeparableShapeOdd(bs: nat, inputFilters: nat, outputFilters: nat, n: nat, kernelSize: nat)
    requires kernelSize % 2 == 1 && n > 0
    ensures SeparableShape([bs, inputFilters, n], inputFilters, outputFilters, kernelSize)
            == Some([bs, outputFilters, n])
  {
    DepthwiseKeepsLength(n, kernelSize);
  }

  // ---------------------------------------------------------------- x += self.bias (line 30)

  /** `x + bias` for `x` of shape `(N, C, L)` and the `(C, 1)` bias parameter
      (given as its column of `C` entries): the bias of an element's channel
      is added to it, broadcast over batch and positions. */
  function BiasAdded<T>(x: Tensor<T>, bias: seq<T>, add: (T, T) -> T): (r: Tensor<T>)
    requires x.Valid() && |x.shape| == 3 && |bias| == x.shape[1]
    ensures r.Valid() && r.shape == x.shape
  {
    Tensor(x.shape, seq(|x.data|, o requires 0 <= o < |x.data| => add(x.data[o], bias[Unravel(x.shape, o)[1]])))
  }

  /** Element `[b, c, l]` of the sum is `x[b][c][l] + bias[c][0]`. */
  lemma BiasAddedAt<T>(x: Tensor<T>, bias: seq<T>, add: (T, T) -> T, b: nat, c: nat, l: nat)
    requires x.Valid() && |x.shape| == 3 && |bias| == x.shape[1]
    requires InBounds(x.shape, [b, c, l])
    ensures BiasAdded(x, bias, add).At([b, c, l]) == add(x.At([b, c, l]), bias[c])
  {
    UnravelOffset(x.shape, [b, c, l]);
  }

  /** The channel of flat position `o` of an `(N, C, L)` buffer is
      `(o / L) % C`. */
  lemma ChannelOfOffset(shape: seq<nat>, o: nat)
    requires |shape| == 3 && o < Size(shape)
    ensures shape[1] > 0 && shape[2] > 0
    ensures Unravel(shape, o)[1] == (o / shape[2]) % shape[1]
  {
    var s0, s1, s2 := shape[0], shape[1], shape[2];
    assert shape == [s0, s1, s2];
    Size3(s0, s1, s2);
    assert o < (s0 * s1) * s2;
    DivBelow(o, s0 * s1, s2);
    DivBelow(o / s2, s0, s1);
    assert shape[..2] == [s0, s1] && [s0, s1][..1] == [s0];
    var front := Unravel([s0, s1], o / s2);
    assert Unravel(shape, o) == front + [o % s2];
    assert front == Unravel([s0], (o / s2) / s1) + [(o / s2) % s1];
  }

  /** `x += self.bias` on the contiguous buffer of `x`: one pass over the
      elements, each receiving the bias of its channel. */
  method AddBiasInPlace<T>(x: array<T>, shape: seq<nat>, bias: seq<T>, add: (T, T) -> T)
    requires |shape| == 3 && x.Length == Size(shape) && |bias| == shape[1]
    modifies x
    ensures x[..] == BiasAdded(Tensor(shape, old(x[..])), bias, add).data
  {
    var channels, len := shape[1], shape[2];
    var o := 0;
    while o < x.Length
      invariant 0 <= o <= x.Length
      invariant forall p :: 0 <= p < o ==> x[p] == add(old(x[p]), bias[Unravel(shape, p)[1]])
      invariant forall p :: o <= p < x.Length ==> x[p] == old(x[p])
    {
      ChannelOfOffset(shape, o);
      x[o] := add(x[o], bias[(o / len) % channels]);
      o := o + 1;
    }
  }
}
