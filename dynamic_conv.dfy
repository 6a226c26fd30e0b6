/** The dynamic-convolution branch of `ConvBertSelfAttention.forward`
    (src/models/convbert4kt_plus.py:108-141 and 170): per position and head,
    a softmax-normalised kernel of `K` logits weights a zero-padded window of
    `K` neighbouring value vectors. The projections that produce the logits
    and the values are inputs; what is modelled is which logits meet which
    window elements. */
module DynamicConv {
  import opened Options
  import opened Shapes
  import opened Tensors
  import opened Products
  import opened AttentionSizing

  /** Row of the `(bs*n*H, ., .)` tensors that belongs to sequence `b`,
      position `i`, head `h`. */
  function HeadRow(n: nat, heads: nat, b: nat, i: nat, h: nat): nat
  {
    (b * n + i) * heads + h
  }

  lemma HeadRowBound(bs: nat, n: nat, heads: nat, b: nat, i: nat, h: nat)
    requires b < bs && i < n && h < heads
    ensures HeadRow(n, heads, b, i, h) < bs * n * heads
  {
    MulAddBound(b, bs, i, n);
    MulAddBound(b * n + i, bs * n, h, heads);
  }

  // ---------------------------------------------------------------- kernels (lines 108-112)

  /** `torch.reshape(conv_kernel_layer, [-1, K, 1])` (line 110). */
  function KernelSpec(kernelSize: nat): seq<Dim>
  {
    [Infer, Fixed(kernelSize), Fixed(1)]
  }

  /** Lines 110-112: the logits regrouped into one `(K, 1)` column per row
      and normalised along the `K` axis; `prob(column, j)` is entry `j` of
      the softmax of `column`. */
  function KernelProbs<T>(kernelLayer: Tensor<T>, kernelSize: nat, prob: (seq<T>, nat) -> T): (r: Option<Tensor<T>>)
    requires kernelLayer.Valid()
    ensures r.Some? ==> r.value.Valid() && |r.value.shape| == 3
  {
    var kernels :- Reshape(kernelLayer, KernelSpec(kernelSize));
    Some(NormalizeDim1(kernels, prob))
  }

  /** The reshape of line 110 on a `(bs, n, H*K)` input. */
  lemma KernelsShape<T>(kernelLayer: Tensor<T>, bs: nat, n: nat, heads: nat, kernelSize: nat)
    requires kernelLayer.Valid() && kernelLayer.shape == [bs, n, heads * kernelSize] && kernelSize > 0
    ensures Reshape(kernelLayer, KernelSpec(kernelSize))
            == Some(Tensor([bs * n * heads, kernelSize, 1], kernelLayer.data))
  {
    var spec := KernelSpec(kernelSize);
    Known3(Infer, Fixed(kernelSize), Fixed(1));
    Size3(bs, n, heads * kernelSize);
    assert kernelSize * (bs * n * heads) == bs * n * (heads * kernelSize);
    ReshapeOneHole(kernelLayer, spec, 0, bs * n * heads);
    assert Fill(spec, bs * n * heads) == [bs * n * heads, kernelSize, 1];
  }

  lemma KernelOffsets(row: nat, heads: nat, kernelSize: nat, h: nat, j: nat)
    ensures (row * heads + h) * kernelSize + j == row * (heads * kernelSize) + (h * kernelSize + j)
  {
    SplitOffset(row, heads, kernelSize, h, j);
  }

  /** Row `(b*n + i)*H + h` of the regrouped logits holds logits
      `h*K .. h*K + K - 1` of position `i`. */
  lemma KernelsAt<T>(kernelLayer: Tensor<T>, bs: nat, n: nat, heads: nat, kernelSize: nat,
                     b: nat, i: nat, h: nat, j: nat)
    requires kernelLayer.Valid() && kernelLayer.shape == [bs, n, heads * kernelSize]
    requires b < bs && i < n && h < heads && j < kernelSize
    ensures var kernels := Reshape(kernelLayer, KernelSpec(kernelSize));
      && kernels.Some?
      && kernels.value.shape == [bs * n * heads, kernelSize, 1]
      && InBounds(kernels.value.shape, [HeadRow(n, heads, b, i, h), j, 0])
      && InBounds(kernelLayer.shape, [b, i, h * kernelSize + j])
      && kernels.value.At([HeadRow(n, heads, b, i, h), j, 0]) == kernelLayer.At([b, i, h * kernelSize + j])
  {
    KernelsShape(kernelLayer, bs, n, heads, kernelSize);
    var kernels := Tensor([bs * n * heads, kernelSize, 1], kernelLayer.data);
    var row := HeadRow(n, heads, b, i, h);
    HeadRowBound(bs, n, heads, b, i, h);
    MulAddBound(h, heads, j, kernelSize);
    Offset3(bs * n * heads, kernelSize, 1, row, j, 0);
    Offset3(bs, n, heads * kernelSize, b, i, h * kernelSize + j);
    KernelOffsets(b * n + i, heads, kernelSize, h, j);
    SameBufferAt(kernels, kernelLayer, [row, j, 0], [b, i, h * kernelSize + j]);
  }

  /** The `K` logits of head `h` at position `i` of sequence `b`. */
  function KernelLogits<T>(kernelLayer: Tensor<T>, kernelSize: nat, b: nat, i: nat, h: nat): (logits: seq<T>)
    requires kernelLayer.Valid() && |kernelLayer.shape| == 3
    requires b < kernelLayer.shape[0] && i < kernelLayer.shape[1] && (h + 1) * kernelSize <= kernelLayer.shape[2]
    ensures |logits| == kernelSize
  {
    seq(kernelSize, j requires 0 <= j < kernelSize =>
      assert h * kernelSize + j < kernelLayer.shape[2];
      kernelLayer.At([b, i, h * kernelSize + j]))
  }

  /** The normalised kernel of head `h` at position `i`. */
  function KernelWeights<T>(kernelLayer: Tensor<T>, kernelSize: nat, prob: (seq<T>, nat) -> T,
                            b: nat, i: nat, h: nat): (weights: seq<T>)
    requires kernelLayer.Valid() && |kernelLayer.shape| == 3
    requires b < kernelLayer.shape[0] && i < kernelLayer.shape[1] && (h + 1) * kernelSize <= kernelLayer.shape[2]
    ensures |weights| == kernelSize
  {
    var logits := KernelLogits(kernelLayer, kernelSize, b, i, h);
    seq(kernelSize, j requires 0 <= j < kernelSize => prob(logits, j))
  }

  lemma HeadEnd(heads: nat, kernelSize: nat, h: nat)
    requires h < heads
    ensures (h + 1) * kernelSize <= heads * kernelSize
  {
    MulMonotone(h + 1, heads, kernelSize);
  }

  /** Column `HeadRow(b, i, h)` of the normalised kernels is the softmax of
      head `h`'s own `K` logits at position `i`. */
  lemma KernelProbsAt<T>(kernelLayer: Tensor<T>, bs: nat, n: nat, heads: nat, kernelSize: nat,
                         prob: (seq<T>, nat) -> T, b: nat, i: nat, h: nat)
    requires kernelLayer.Valid() && kernelLayer.shape == [bs, n, heads * kernelSize] && kernelSize > 0
    requires b < bs && i < n && h < heads
    ensures var probs := KernelProbs(kernelLayer, kernelSize, prob);
      && probs.Some?
      && probs.value.shape == [bs * n * heads, kernelSize, 1]
      && HeadRow(n, heads, b, i, h) < bs * n * heads
      && MatColumn(probs.value, HeadRow(n, heads, b, i, h), 0)
         == (HeadEnd(heads, kernelSize, h); KernelWeights(kernelLayer, kernelSize, prob, b, i, h))
  {
    KernelsShape(kernelLayer, bs, n, heads, kernelSize);
    HeadEnd(heads, kernelSize, h);
    HeadRowBound(bs, n, heads, b, i, h);
    var kernels := Tensor([bs * n * heads, kernelSize, 1], kernelLayer.data);
    var row := HeadRow(n, heads, b, i, h);
    var line := Dim1Line(kernels, row, 0);
    forall j | 0 <= j < kernelSize
      ensures line[j] == KernelLogits(kernelLayer, kernelSize, b, i, h)[j]
    {
      KernelsAt(kernelLayer, bs, n, heads, kernelSize, b, i, h, j);
    }
    assert line == KernelLogits(kernelLayer, kernelSize, b, i, h);
    var probs := NormalizeDim1(kernels, prob);
    forall j | 0 <= j < kernelSize
      ensures MatColumn(probs, row, 0)[j] == prob(line, j)
    {
      NormalizeDim1At(kernels, prob, row, j, 0);
    }
  }

  // ---------------------------------------------------------------- windows (lines 116-129)

  /** `torch.reshape(conv_out_layer, [batch_size, -1, all_head_size])` (line 118). */
  function ValueSpec(batchSize: nat, allHeadSize: nat): seq<Dim>
  {
    [Fixed(batchSize), Infer, Fixed(allHeadSize)]
  }

  /** The padding `(K - 1) // 2` of line 127. Python's `//` rounds toward
      minus infinity, as Dafny's `/` does for a positive divisor. */
  function WindowPadding(kernelSize: nat): int
  {
    (kernelSize as int - 1) / 2
  }

  /** The window count along the sequence is the sequence length exactly for
      odd kernels, and one less for even ones. */
  lemma WindowCount(n: nat, kernelSize: nat)
    requires kernelSize > 0
    ensures kernelSize % 2 == 1 ==> SlidingCount(n, kernelSize, WindowPadding(kernelSize)) == n
    ensures kernelSize % 2 == 0 ==> SlidingCount(n, kernelSize, WindowPadding(kernelSize)) == n - 1
  {
  }

  /** Lines 118-129: the values as `(bs, A, n, 1)` channels, unfolded into
      zero-padded windows of `K` positions. */
  function ValueWindows<T>(valueLayer: Tensor<T>, batchSize: nat, allHeadSize: nat, kernelSize: nat, zero: T): (r: Option<Tensor<T>>)
    requires valueLayer.Valid()
    ensures r.Some? ==> r.value.Valid()
  {
    var v1 :- Reshape(valueLayer, ValueSpec(batchSize, allHeadSize));
    var v2 := Transpose(v1, 1, 2).value;
    Unfold(UnsqueezeLast(v2), kernelSize, WindowPadding(kernelSize), zero)
  }

  /** Offset `j` of the window at position `i`, channel `c`: the value at
      position `i + j - (K - 1) // 2` when that position exists, `zero`
      otherwise. Nothing wraps around and nothing outside the sequence is
      read. */
  function Window<T>(v: Tensor<T>, kernelSize: nat, zero: T, b: nat, i: nat, c: nat, j: nat): T
    requires v.Valid() && |v.shape| == 3 && b < v.shape[0] && c < v.shape[2]
  {
    var row := i + j - WindowPadding(kernelSize);
    if 0 <= row < v.shape[1] then v.At([b, row as nat, c]) else zero
  }

  /** The `K` window entries of channel `c` at position `i`. */
  function WindowVector<T>(v: Tensor<T>, kernelSize: nat, zero: T, b: nat, i: nat, c: nat): (w: seq<T>)
    requires v.Valid() && |v.shape| == 3 && b < v.shape[0] && c < v.shape[2]
    ensures |w| == kernelSize
  {
    seq(kernelSize, j requires 0 <= j < kernelSize => Window(v, kernelSize, zero, b, i, c, j))
  }

  /** The reshape of line 118 on a `(bs, n, A)` input is the identity. */
  lemma ValuesShape<T>(valueLayer: Tensor<T>, bs: nat, n: nat, allHeadSize: nat)
    requires valueLayer.Valid() && valueLayer.shape == [bs, n, allHeadSize] && bs > 0 && allHeadSize > 0
    ensures Reshape(valueLayer, ValueSpec(bs, allHeadSize)) == Some(valueLayer)
  {
    var spec := ValueSpec(bs, allHeadSize);
    Known3(Fixed(bs), Infer, Fixed(allHeadSize));
    Size3(bs, n, allHeadSize);
    assert bs * 1 * allHeadSize * n == bs * n * allHeadSize;
    ReshapeOneHole(valueLayer, spec, 1, n);
    assert Fill(spec, n) == valueLayer.shape;
  }

  /** The unfolded values of a `(bs, n, A)` input: `SlidingCount` windows of
      `A * K` entries, when there is at least one window. */
  lemma ValueWindowsShape<T>(valueLayer: Tensor<T>, bs: nat, n: nat, allHeadSize: nat, kernelSize: nat, zero: T)
    requires valueLayer.Valid() && valueLayer.shape == [bs, n, allHeadSize]
    requires bs > 0 && allHeadSize > 0 && kernelSize > 0
    ensures var count := SlidingCount(n, kernelSize, WindowPadding(kernelSize));
      var windows := ValueWindows(valueLayer, bs, allHeadSize, kernelSize, zero);
      && (windows.Some? <==> count >= 1)
      && (windows.Some? ==> windows.value.shape == [bs, allHeadSize * kernelSize, count as nat])
  {
    ValuesShape(valueLayer, bs, n, allHeadSize);
    var v2 := Transpose(valueLayer, 1, 2).value;
    assert UnsqueezeLast(v2).shape == [bs, allHeadSize, n, 1];
  }

  /** Unfolding a tensor of single-column `(N, C, L, 1)` images: entry
      `[b, c*K + j, l]` is row `l + j - pad` of channel `c`, or `zero`. */
  lemma ColumnUnfoldAt<T>(t: Tensor<T>, kernelSize: nat, pad: int, zero: T, b: nat, c: nat, j: nat, l: nat)
    requires t.Valid() && |t.shape| == 4 && t.shape[2] > 0 && t.shape[3] == 1 && kernelSize > 0 && pad >= 0
    requires b < t.shape[0] && c < t.shape[1] && j < kernelSize && l < SlidingCount(t.shape[2], kernelSize, pad)
    ensures Unfold(t, kernelSize, pad, zero).Some?
    ensures InBounds(Unfold(t, kernelSize, pad, zero).value.shape, [b, Flat(kernelSize, c, j), l])
    ensures Unfold(t, kernelSize, pad, zero).value.At([b, Flat(kernelSize, c, j), l])
            == if 0 <= l + j - pad < t.shape[2] then t.At([b, c, (l + j - pad) as nat, 0]) else zero
  {
    UnfoldAt(t, kernelSize, pad, zero, b, c, j, l, 0);
    assert Flat(t.shape[3], l, 0) == l;
  }

  /** Entry `[b, c*K + j, i]` of the unfolded values is offset `j` of the
      window of channel `c` at position `i` (lines 120-130). */
  lemma ValueWindowsAt<T>(valueLayer: Tensor<T>, bs: nat, n: nat, allHeadSize: nat, kernelSize: nat, zero: T,
                          b: nat, c: nat, j: nat, i: nat)
    requires valueLayer.Valid() && valueLayer.shape == [bs, n, allHeadSize]
    requires b < bs && c < allHeadSize && j < kernelSize
    requires i < SlidingCount(n, kernelSize, WindowPadding(kernelSize))
    ensures var windows := ValueWindows(valueLayer, bs, allHeadSize, kernelSize, zero);
      && windows.Some?
      && InBounds(windows.value.shape, [b, Flat(kernelSize, c, j), i])
      && windows.value.At([b, Flat(kernelSize, c, j), i]) == Window(valueLayer, kernelSize, zero, b, i, c, j)
  {
    var pad := WindowPadding(kernelSize);
    var v3 := UnsqueezeLast(Transpose(valueLayer, 1, 2).value);
    assert v3.Valid() && v3.shape == [bs, allHeadSize, n, 1] by {
      TransposedColumnShape(valueLayer);
    }
    assert ValueWindows(valueLayer, bs, allHeadSize, kernelSize, zero) == Unfold(v3, kernelSize, pad, zero) by {
      ValuesShape(valueLayer, bs, n, allHeadSize);
    }
    ColumnUnfoldAt(v3, kernelSize, pad, zero, b, c, j, i);
    ColumnEntryIsWindow(valueLayer, kernelSize, zero, b, i, c, j);
  }

  /** Row `i + j - pad` of the transposed column image, or `zero` in the
      padding, is entry `j` of the window of channel `c` at position `i`. */
  lemma ColumnEntryIsWindow<T>(valueLayer: Tensor<T>, kernelSize: nat, zero: T, b: nat, i: nat, c: nat, j: nat)
    requires valueLayer.Valid() && |valueLayer.shape| == 3 && b < valueLayer.shape[0] && c < valueLayer.shape[2]
    ensures Transpose(valueLayer, 1, 2).Some?
    ensures var v3 := UnsqueezeLast(Transpose(valueLayer, 1, 2).value);
      var row := i + j - WindowPadding(kernelSize);
      (if 0 <= row < valueLayer.shape[1] then v3.At([b, c, row as nat, 0]) else zero)
      == Window(valueLayer, kernelSize, zero, b, i, c, j)
  {
    TransposedColumnShape(valueLayer);
    var row := i + j - WindowPadding(kernelSize);
    if 0 <= row < valueLayer.shape[1] {
      TransposedColumnAt(valueLayer, b, row as nat, c);
    }
  }

  lemma TransposedColumnShape<T>(t: Tensor<T>)
    requires t.Valid() && |t.shape| == 3
    ensures Transpose(t, 1, 2).Some?
    ensures UnsqueezeLast(Transpose(t, 1, 2).value).Valid()
    ensures UnsqueezeLast(Transpose(t, 1, 2).value).shape == [t.shape[0], t.shape[2], t.shape[1], 1]
  {
  }

  /** `t.transpose(1, 2).unsqueeze(-1)` (lines 120 and 124) at `[a, c, b, 0]`
      is `t[a][b][c]`. */
  lemma TransposedColumnAt<T>(t: Tensor<T>, a: nat, b: nat, c: nat)
    requires t.Valid() && |t.shape| == 3
    requires a < t.shape[0] && b < t.shape[1] && c < t.shape[2]
    ensures Transpose(t, 1, 2).Some?
    ensures InBounds(UnsqueezeLast(Transpose(t, 1, 2).value).shape, [a, c, b, 0])
    ensures UnsqueezeLast(Transpose(t, 1, 2).value).At([a, c, b, 0]) == t.At([a, b, c])
  {
    TransposeLastTwo3At(t, a, b, c);
    var t2 := Transpose(t, 1, 2).value;
    UnsqueezeLastAt(t2, [a, c, b]);
    assert [a, c, b] + [0] == [a, c, b, 0];
  }

  // ---------------------------------------------------------------- window rows (lines 131-135)

  /** `.reshape(batch_size, -1, all_head_size, conv_kernel_size)` (line 131). */
  function PositionSpec(batchSize: nat, allHeadSize: nat, kernelSize: nat): seq<Dim>
  {
    [Fixed(batchSize), Infer, Fixed(allHeadSize), Fixed(kernelSize)]
  }

  /** `torch.reshape(., [-1, attention_head_size, conv_kernel_size])` (line 135). */
  function RowSpec(headSize: nat, kernelSize: nat): seq<Dim>
  {
    [Infer, Fixed(headSize), Fixed(kernelSize)]
  }

  /** Lines 131-135: one `(d, K)` matrix of window entries per row. */
  function WindowRows<T>(windows: Tensor<T>, batchSize: nat, allHeadSize: nat, headSize: nat, kernelSize: nat): (r: Option<Tensor<T>>)
    requires windows.Valid()
    ensures r.Some? ==> r.value.Valid()
  {
    var w1 :- Transpose(windows, 1, 2);
    var w2 :- Reshape(w1, PositionSpec(batchSize, allHeadSize, kernelSize));
    Reshape(w2, RowSpec(headSize, kernelSize))
  }

  /** The reshape of line 131 on the `(bs, m, A*K)` transposed windows. */
  lemma PositionReshape<T>(w1: Tensor<T>, bs: nat, m: nat, a: nat, kernelSize: nat)
    requires w1.Valid() && w1.shape == [bs, m, a * kernelSize]
    requires bs > 0 && a > 0 && kernelSize > 0
    ensures Reshape(w1, PositionSpec(bs, a, kernelSize)) == Some(Tensor([bs, m, a, kernelSize], w1.data))
  {
    assert |w1.data| == bs * m * (a * kernelSize) by {
      Size3(bs, m, a * kernelSize);
    }
    assert KnownProduct(PositionSpec(bs, a, kernelSize)) == bs * a * kernelSize by {
      Known4(Fixed(bs), Infer, Fixed(a), Fixed(kernelSize));
    }
    assert bs * a * kernelSize * m == bs * m * (a * kernelSize);
    ReshapeOneHole(w1, PositionSpec(bs, a, kernelSize), 1, m);
    assert Fill(PositionSpec(bs, a, kernelSize), m) == [bs, m, a, kernelSize];
  }

  /** The reshape of line 135 on the `(bs, m, H*d, K)` windows. */
  lemma RowReshape<T>(w2: Tensor<T>, bs: nat, m: nat, heads: nat, headSize: nat, kernelSize: nat)
    requires w2.Valid() && w2.shape == [bs, m, heads * headSize, kernelSize]
    requires headSize > 0 && kernelSize > 0
    ensures Reshape(w2, RowSpec(headSize, kernelSize))
            == Some(Tensor([bs * m * heads, headSize, kernelSize], w2.data))
  {
    assert |w2.data| == bs * m * (heads * headSize) * kernelSize by {
      Size4(bs, m, heads * headSize, kernelSize);
    }
    assert KnownProduct(RowSpec(headSize, kernelSize)) == headSize * kernelSize by {
      Known3(Infer, Fixed(headSize), Fixed(kernelSize));
    }
    assert headSize * kernelSize * (bs * m * heads) == bs * m * (heads * headSize) * kernelSize;
    ReshapeOneHole(w2, RowSpec(headSize, kernelSize), 0, bs * m * heads);
    assert Fill(RowSpec(headSize, kernelSize), bs * m * heads) == [bs * m * heads, headSize, kernelSize];
  }

  /** The regrouping of `(bs, A*K, m)` windows: `bs * m * H` rows of `(d, K)`
      matrices over the buffer of the transposed windows. */
  lemma WindowRowsShape<T>(windows: Tensor<T>, bs: nat, m: nat, heads: nat, headSize: nat, kernelSize: nat)
    requires windows.Valid() && windows.shape == [bs, heads * headSize * kernelSize, m]
    requires bs > 0 && heads > 0 && headSize > 0 && kernelSize > 0
    ensures Transpose(windows, 1, 2).Some?
    ensures WindowRows(windows, bs, heads * headSize, headSize, kernelSize)
            == Some(Tensor([bs * m * heads, headSize, kernelSize], Transpose(windows, 1, 2).value.data))
  {
    var a := heads * headSize;
    var w1 := Transpose(windows, 1, 2).value;
    assert w1.shape == [bs, m, a * kernelSize];
    assert a > 0 by {
      MulMonotone(1, heads, headSize);
    }
    PositionReshape(w1, bs, m, a, kernelSize);
    RowReshape(Tensor([bs, m, a, kernelSize], w1.data), bs, m, heads, headSize, kernelSize);
  }

  lemma RowOffsets(pos: nat, heads: nat, headSize: nat, kernelSize: nat, h: nat, e: nat, j: nat)
    ensures ((pos * heads + h) * headSize + e) * kernelSize + j
            == pos * (heads * headSize * kernelSize) + Flat(kernelSize, Flat(headSize, h, e), j)
  {
    calc {
      ((pos * heads + h) * headSize + e) * kernelSize + j;
      { SplitOffset(pos, heads, headSize, h, e); }
      (pos * (heads * headSize) + (h * headSize + e)) * kernelSize + j;
      { SplitOffset(pos, heads * headSize, kernelSize, h * headSize + e, j); }
      pos * ((heads * headSize) * kernelSize) + ((h * headSize + e) * kernelSize + j);
    }
  }

  /** Where entry `[HeadRow(b, i, h), e, j]` of the window rows lies in the
      buffer of the `(bs, m, H*d*K)` transposed windows. */
  lemma RowsOffset(bs: nat, m: nat, heads: nat, headSize: nat, kernelSize: nat,
                   b: nat, i: nat, h: nat, e: nat, j: nat)
    requires b < bs && i < m && h < heads && e < headSize && j < kernelSize
    ensures Flat(headSize, h, e) < heads * headSize
    ensures InBounds([bs * m * heads, headSize, kernelSize], [HeadRow(m, heads, b, i, h), e, j])
    ensures InBounds([bs, m, heads * headSize * kernelSize], [b, i, Flat(kernelSize, Flat(headSize, h, e), j)])
    ensures Offset([bs * m * heads, headSize, kernelSize], [HeadRow(m, heads, b, i, h), e, j])
            == Offset([bs, m, heads * headSize * kernelSize], [b, i, Flat(kernelSize, Flat(headSize, h, e), j)])
  {
    var c := Flat(headSize, h, e);
    MulAddBound(h, heads, e, headSize);
    MulAddBound(c, heads * headSize, j, kernelSize);
    HeadRowBound(bs, m, heads, b, i, h);
    Offset3(bs * m * heads, headSize, kernelSize, HeadRow(m, heads, b, i, h), e, j);
    Offset3(bs, m, heads * headSize * kernelSize, b, i, Flat(kernelSize, c, j));
    RowOffsets(b * m + i, heads, headSize, kernelSize, h, e, j);
  }

  /** Row `(b*m + i)*H + h` of the window rows holds, at `[e, j]`, the entry
      of channel `h*d + e` of window `i`: the same sequence, position and
      head as row `HeadRow(b, i, h)` of the kernels. */
  lemma WindowRowsAt<T>(windows: Tensor<T>, bs: nat, m: nat, heads: nat, headSize: nat, kernelSize: nat,
                        b: nat, i: nat, h: nat, e: nat, j: nat)
    requires windows.Valid() && windows.shape == [bs, heads * headSize * kernelSize, m]
    requires b < bs && i < m && h < heads && e < headSize && j < kernelSize
    ensures var rows := WindowRows(windows, bs, heads * headSize, headSize, kernelSize);
      var c := Flat(kernelSize, Flat(headSize, h, e), j);
      && rows.Some?
      && rows.value.shape == [bs * m * heads, headSize, kernelSize]
      && InBounds(rows.value.shape, [HeadRow(m, heads, b, i, h), e, j])
      && InBounds(windows.shape, [b, c, i])
      && rows.value.At([HeadRow(m, heads, b, i, h), e, j]) == windows.At([b, c, i])
  {
    WindowRowsShape(windows, bs, m, heads, headSize, kernelSize);
    RowsOffset(bs, m, heads, headSize, kernelSize, b, i, h, e, j);
    var c := Flat(kernelSize, Flat(headSize, h, e), j);
    TransposeLastTwo3At(windows, b, c, i);
    var w1 := Transpose(windows, 1, 2).value;
    var rows := Tensor([bs * m * heads, headSize, kernelSize], w1.data);
    SameBufferAt(rows, w1, [HeadRow(m, heads, b, i, h), e, j], [b, i, c]);
  }

  /** Lines 116-135: the values regrouped into one `(d, K)` matrix of window
      entries per sequence, position and head. */
  function ValueRows<T>(valueLayer: Tensor<T>, s: Sizing, batchSize: nat, zero: T): (r: Option<Tensor<T>>)
    requires valueLayer.Valid()
    ensures r.Some? ==> r.value.Valid()
  {
    var windows :- ValueWindows(valueLayer, batchSize, s.allHeadSize, s.convKernelSize, zero);
    WindowRows(windows, batchSize, s.allHeadSize, s.attentionHeadSize, s.convKernelSize)
  }

  /** With `m >= 1` windows, the window rows of a `(bs, n, A)` input are
      `bs * m * H` matrices of shape `(d, K)`. */
  lemma ValueRowsCount<T>(valueLayer: Tensor<T>, s: Sizing, bs: nat, n: nat, m: nat, zero: T)
    requires valueLayer.Valid() && WellFormed(s) && valueLayer.shape == [bs, n, s.allHeadSize]
    requires bs > 0 && s.numAttentionHeads > 0 && s.attentionHeadSize > 0 && s.convKernelSize > 0
    requires SlidingCount(n, s.convKernelSize, WindowPadding(s.convKernelSize)) == m as int && m > 0
    ensures ValueRows(valueLayer, s, bs, zero).Some?
    ensures ValueRows(valueLayer, s, bs, zero).value.shape
            == [bs * m * s.numAttentionHeads, s.attentionHeadSize, s.convKernelSize]
  {
    var heads, d, k, a := s.numAttentionHeads, s.attentionHeadSize, s.convKernelSize, s.allHeadSize;
    assert a > 0 by {
      MulMonotone(1, heads, d);
    }
    ValueWindowsShape(valueLayer, bs, n, a, k, zero);
    var windows := ValueWindows(valueLayer, bs, a, k, zero).value;
    assert windows.shape == [bs, heads * d * k, m];
    WindowRowsShape(windows, bs, m, heads, d, k);
  }

  /** For an odd kernel there is one window per position: the window rows
      are `bs * n * H` matrices of shape `(d, K)`. */
  lemma ValueRowsShape<T>(valueLayer: Tensor<T>, s: Sizing, bs: nat, n: nat, zero: T)
    requires valueLayer.Valid() && WellFormed(s) && valueLayer.shape == [bs, n, s.allHeadSize]
    requires bs > 0 && n > 0 && s.numAttentionHeads > 0 && s.attentionHeadSize > 0
    requires s.convKernelSize % 2 == 1
    ensures ValueRows(valueLayer, s, bs, zero).Some?
    ensures ValueRows(valueLayer, s, bs, zero).value.shape
            == [bs * n * s.numAttentionHeads, s.attentionHeadSize, s.convKernelSize]
  {
    WindowCount(n, s.convKernelSize);
    ValueRowsCount(valueLayer, s, bs, n, n, zero);
  }

  /** Entry `[HeadRow(b, i, h), e, j]` of the window rows of an odd kernel
      is offset `j` of the window of channel `h*d + e` around position `i`. */
  lemma ValueRowsEntry<T>(valueLayer: Tensor<T>, s: Sizing, bs: nat, n: nat, zero: T,
                          b: nat, i: nat, h: nat, e: nat, j: nat)
    requires valueLayer.Valid() && WellFormed(s) && valueLayer.shape == [bs, n, s.allHeadSize]
    requires s.convKernelSize % 2 == 1
    requires b < bs && i < n && h < s.numAttentionHeads && e < s.attentionHeadSize && j < s.convKernelSize
    ensures ValueRows(valueLayer, s, bs, zero).Some?
    ensures ValueRows(valueLayer, s, bs, zero).value.shape
            == [bs * n * s.numAttentionHeads, s.attentionHeadSize, s.convKernelSize]
    ensures InBounds(ValueRows(valueLayer, s, bs, zero).value.shape, [HeadRow(n, s.numAttentionHeads, b, i, h), e, j])
    ensures Flat(s.attentionHeadSize, h, e) < s.allHeadSize
    ensures ValueRows(valueLayer, s, bs, zero).value.At([HeadRow(n, s.numAttentionHeads, b, i, h), e, j])
            == Window(valueLayer, s.convKernelSize, zero, b, i, Flat(s.attentionHeadSize, h, e), j)
  {
    var heads, d, k, a := s.numAttentionHeads, s.attentionHeadSize, s.convKernelSize, s.allHeadSize;
    ValueRowsShape(valueLayer, s, bs, n, zero);
    WindowCount(n, k);
    var windows := ValueWindows(valueLayer, bs, a, k, zero).value;
    assert windows.shape == [bs, heads * d * k, n] by {
      ValueWindowsShape(valueLayer, bs, n, a, k, zero);
    }
    RowsOffset(bs, n, heads, d, k, b, i, h, e, j);
    var c := Flat(d, h, e);
    WindowRowsAt(windows, bs, n, heads, d, k, b, i, h, e, j);
    ValueWindowsAt(valueLayer, bs, n, a, k, zero, b, c, j, i);
  }

  /** The window rows of an odd kernel: row `HeadRow(b, i, h)`, line `e` is
      the window of channel `h*d + e` around position `i`. */
  lemma ValueRowsAt<T>(valueLayer: Tensor<T>, s: Sizing, bs: nat, n: nat, zero: T, b: nat, i: nat, h: nat, e: nat)
    requires valueLayer.Valid() && WellFormed(s) && valueLayer.shape == [bs, n, s.allHeadSize]
    requires s.convKernelSize % 2 == 1
    requires b < bs && i < n && h < s.numAttentionHeads && e < s.attentionHeadSize
    ensures ValueRows(valueLayer, s, bs, zero).Some?
    ensures ValueRows(valueLayer, s, bs, zero).value.shape
            == [bs * n * s.numAttentionHeads, s.attentionHeadSize, s.convKernelSize]
    ensures HeadRow(n, s.numAttentionHeads, b, i, h) < bs * n * s.numAttentionHeads
    ensures Flat(s.attentionHeadSize, h, e) < s.allHeadSize
    ensures MatRow(ValueRows(valueLayer, s, bs, zero).value, HeadRow(n, s.numAttentionHeads, b, i, h), e)
            == WindowVector(valueLayer, s.convKernelSize, zero, b, i, Flat(s.attentionHeadSize, h, e))
  {
    var heads, d, k := s.numAttentionHeads, s.attentionHeadSize, s.convKernelSize;
    ValueRowsShape(valueLayer, s, bs, n, zero);
    HeadRowBound(bs, n, heads, b, i, h);
    MulAddBound(h, heads, e, d);
    var rows := ValueRows(valueLayer, s, bs, zero).value;
    var row := HeadRow(n, heads, b, i, h);
    var c := Flat(d, h, e);
    forall j | 0 <= j < k
      ensures MatRow(rows, row, e)[j] == WindowVector(valueLayer, k, zero, b, i, c)[j]
    {
      ValueRowsEntry(valueLayer, s, bs, n, zero, b, i, h, e, j);
    }
  }

  // ---------------------------------------------------------------- contraction (lines 138-141, 170)

  /** `torch.reshape(., [-1, all_head_size])` (line 140). */
  function FlatSpec(allHeadSize: nat): seq<Dim>
  {
    [Infer, Fixed(allHeadSize)]
  }

  /** `torch.reshape(., [batch_size, -1, H, d])` (line 170). */
  function HeadSpec(batchSize: nat, heads: nat, headSize: nat): seq<Dim>
  {
    [Fixed(batchSize), Infer, Fixed(heads), Fixed(headSize)]
  }

  /** Lines 108-138: the contraction of every row of window matrices with
      the normalised kernel of the same row. */
  function Contraction<T>(ring: Ring<T>, kernelLayer: Tensor<T>, valueLayer: Tensor<T>, s: Sizing,
                          batchSize: nat, prob: (seq<T>, nat) -> T): (r: Option<Tensor<T>>)
    requires kernelLayer.Valid() && valueLayer.Valid()
    ensures r.Some? ==> r.value.Valid()
  {
    var probs :- KernelProbs(kernelLayer, s.convKernelSize, prob);
    var rows :- ValueRows(valueLayer, s, batchSize, ring.zero);
    Matmul3(ring, rows, probs)
  }

  /** The convolution heads `conv_out` of line 170, from the kernel logits
      `conv_kernel_layer(conv_attn_layer)` of line 108 and the values
      `conv_out_layer(V)` of line 116. */
  function DynamicConvolution<T>(ring: Ring<T>, kernelLayer: Tensor<T>, valueLayer: Tensor<T>, s: Sizing,
                                 batchSize: nat, prob: (seq<T>, nat) -> T): (r: Option<Tensor<T>>)
    requires kernelLayer.Valid() && valueLayer.Valid()
    ensures r.Some? ==> r.value.Valid()
  {
    var out :- Contraction(ring, kernelLayer, valueLayer, s, batchSize, prob);
    var flat :- Reshape(out, FlatSpec(s.allHeadSize));
    Reshape(flat, HeadSpec(batchSize, s.numAttentionHeads, s.attentionHeadSize))
  }

  /** The two reshapes after the contraction keep the buffer and give it the
      shape `(bs, n, H, d)`. */
  lemma FoldBack<T>(out: Tensor<T>, bs: nat, n: nat, heads: nat, headSize: nat)
    requires out.Valid() && out.shape == [bs * n * heads, headSize, 1]
    requires bs > 0 && heads > 0 && headSize > 0
    ensures Reshape(out, FlatSpec(heads * headSize)).Some?
    ensures Reshape(Reshape(out, FlatSpec(heads * headSize)).value, HeadSpec(bs, heads, headSize))
            == Some(Tensor([bs, n, heads, headSize], out.data))
  {
    var a := heads * headSize;
    Size3(bs * n * heads, headSize, 1);
    Known2(Infer, Fixed(a));
    assert 1 * a * (bs * n) == bs * n * heads * headSize * 1;
    ReshapeOneHole(out, FlatSpec(a), 0, bs * n);
    assert Fill(FlatSpec(a), bs * n) == [bs * n, a];
    var flat := Tensor([bs * n, a], out.data);
    Known4(Fixed(bs), Infer, Fixed(heads), Fixed(headSize));
    assert bs * 1 * heads * headSize * n == bs * n * heads * headSize * 1;
    ReshapeOneHole(flat, HeadSpec(bs, heads, headSize), 1, n);
    assert Fill(HeadSpec(bs, heads, headSize), n) == [bs, n, heads, headSize];
  }

  /** Sizes under which the chain is traced: batch, sequence, heads and head
      size positive, and input widths as the linear layers of lines 66-69
      produce them. */
  predicate ChainInputs<T>(kernelLayer: Tensor<T>, valueLayer: Tensor<T>, s: Sizing, bs: nat, n: nat)
  {
    && WellFormed(s)
    && bs > 0 && n > 0 && s.numAttentionHeads > 0 && s.attentionHeadSize > 0
    && kernelLayer.shape == [bs, n, s.kernelLogitWidth]
    && valueLayer.shape == [bs, n, s.allHeadSize]
  }

  /** For an odd kernel the contraction yields one `(d, 1)` column per
      sequence, position and head. */
  lemma ContractionShape<T>(ring: Ring<T>, kernelLayer: Tensor<T>, valueLayer: Tensor<T>, s: Sizing,
                            bs: nat, n: nat, prob: (seq<T>, nat) -> T)
    requires kernelLayer.Valid() && valueLayer.Valid() && ChainInputs(kernelLayer, valueLayer, s, bs, n)
    requires s.convKernelSize % 2 == 1
    ensures Contraction(ring, kernelLayer, valueLayer, s, bs, prob).Some?
    ensures Contraction(ring, kernelLayer, valueLayer, s, bs, prob).value.shape
            == [bs * n * s.numAttentionHeads, s.attentionHeadSize, 1]
  {
    var heads, k := s.numAttentionHeads, s.convKernelSize;
    KernelsShape(kernelLayer, bs, n, heads, k);
    ValueRowsShape(valueLayer, s, bs, n, ring.zero);
    var probs := KernelProbs(kernelLayer, k, prob).value;
    assert probs.shape == [bs * n * heads, k, 1];
    var rows := ValueRows(valueLayer, s, bs, ring.zero).value;
    assert Matmul3Defined(rows, probs);
  }

  /** For an odd kernel `conv_out` has the shape `(bs, n, H, d)` over the
      buffer of the contraction. */
  lemma DynamicConvolutionShape<T>(ring: Ring<T>, kernelLayer: Tensor<T>, valueLayer: Tensor<T>, s: Sizing,
                                   bs: nat, n: nat, prob: (seq<T>, nat) -> T)
    requires kernelLayer.Valid() && valueLayer.Valid() && ChainInputs(kernelLayer, valueLayer, s, bs, n)
    requires s.convKernelSize % 2 == 1
    ensures Contraction(ring, kernelLayer, valueLayer, s, bs, prob).Some?
    ensures DynamicConvolution(ring, kernelLayer, valueLayer, s, bs, prob)
            == Some(Tensor([bs, n, s.numAttentionHeads, s.attentionHeadSize],
                           Contraction(ring, kernelLayer, valueLayer, s, bs, prob).value.data))
  {
    ContractionShape(ring, kernelLayer, valueLayer, s, bs, n, prob);
    var out := Contraction(ring, kernelLayer, valueLayer, s, bs, prob).value;
    FoldBack(out, bs, n, s.numAttentionHeads, s.attentionHeadSize);
  }

  /** The value `conv_out[b][i][h][e]` is meant to have: the normalised
      kernel of head `h` at position `i` applied to the zero-padded window of
      channel `h*d + e` around position `i`. */
  function ConvEntry<T>(ring: Ring<T>, kernelLayer: Tensor<T>, valueLayer: Tensor<T>, s: Sizing,
                        bs: nat, n: nat, prob: (seq<T>, nat) -> T, b: nat, i: nat, h: nat, e: nat): T
    requires kernelLayer.Valid() && valueLayer.Valid() && ChainInputs(kernelLayer, valueLayer, s, bs, n)
    requires b < bs && i < n && h < s.numAttentionHeads && e < s.attentionHeadSize
  {
    MulAddBound(h, s.numAttentionHeads, e, s.attentionHeadSize);
    HeadEnd(s.numAttentionHeads, s.convKernelSize, h);
    Dot(ring, WindowVector(valueLayer, s.convKernelSize, ring.zero, b, i, Flat(s.attentionHeadSize, h, e)),
              KernelWeights(kernelLayer, s.convKernelSize, prob, b, i, h))
  }

  /** Line 138 pairs row `HeadRow(b, i, h)` of the window matrices with the
      kernel of the same row. */
  lemma ContractionAt<T>(ring: Ring<T>, kernelLayer: Tensor<T>, valueLayer: Tensor<T>, s: Sizing,
                         bs: nat, n: nat, prob: (seq<T>, nat) -> T, b: nat, i: nat, h: nat, e: nat)
    requires kernelLayer.Valid() && valueLayer.Valid() && ChainInputs(kernelLayer, valueLayer, s, bs, n)
    requires s.convKernelSize % 2 == 1
    requires b < bs && i < n && h < s.numAttentionHeads && e < s.attentionHeadSize
    ensures Contraction(ring, kernelLayer, valueLayer, s, bs, prob).Some?
    ensures Contraction(ring, kernelLayer, valueLayer, s, bs, prob).value.shape
            == [bs * n * s.numAttentionHeads, s.attentionHeadSize, 1]
    ensures (Offset3Bound(bs, n, s.numAttentionHeads, s.attentionHeadSize, b, i, h, e);
             Contraction(ring, kernelLayer, valueLayer, s, bs, prob).value.At([HeadRow(n, s.numAttentionHeads, b, i, h), e, 0]))
            == ConvEntry(ring, kernelLayer, valueLayer, s, bs, n, prob, b, i, h, e)
  {
    var heads, k := s.numAttentionHeads, s.convKernelSize;
    ContractionShape(ring, kernelLayer, valueLayer, s, bs, n, prob);
    Offset3Bound(bs, n, heads, s.attentionHeadSize, b, i, h, e);
    var row := HeadRow(n, heads, b, i, h);
    assert Contraction(ring, kernelLayer, valueLayer, s, bs, prob).value.At([row, e, 0])
           == ConvEntry(ring, kernelLayer, valueLayer, s, bs, n, prob, b, i, h, e) by {
      KernelProbsAt(kernelLayer, bs, n, heads, k, prob, b, i, h);
      ValueRowsAt(valueLayer, s, bs, n, ring.zero, b, i, h, e);
      var probs := KernelProbs(kernelLayer, k, prob).value;
      var rows := ValueRows(valueLayer, s, bs, ring.zero).value;
      assert Contraction(ring, kernelLayer, valueLayer, s, bs, prob) == Matmul3(ring, rows, probs);
      Matmul3At(ring, rows, probs, row, e, 0);
    }
  }

  /** Entry `[HeadRow(b, i, h), e, 0]` of the contraction is in bounds. */
  lemma Offset3Bound(bs: nat, n: nat, heads: nat, headSize: nat, b: nat, i: nat, h: nat, e: nat)
    requires b < bs && i < n && h < heads && e < headSize
    ensures InBounds([bs * n * heads, headSize, 1], [HeadRow(n, heads, b, i, h), e, 0])
  {
    HeadRowBound(bs, n, heads, b, i, h);
  }

  /** Entry `[b, i, h, e]` of `conv_out` and entry `[HeadRow(b, i, h), e, 0]`
      of the contraction sit at the same offset. */
  lemma FoldOffset(bs: nat, n: nat, heads: nat, headSize: nat, b: nat, i: nat, h: nat, e: nat)
    requires b < bs && i < n && h < heads && e < headSize
    ensures InBounds([bs, n, heads, headSize], [b, i, h, e])
    ensures InBounds([bs * n * heads, headSize, 1], [HeadRow(n, heads, b, i, h), e, 0])
    ensures Offset([bs, n, heads, headSize], [b, i, h, e])
            == Offset([bs * n * heads, headSize, 1], [HeadRow(n, heads, b, i, h), e, 0])
  {
    HeadRowBound(bs, n, heads, b, i, h);
    Offset4(bs, n, heads, headSize, b, i, h, e);
    Offset3(bs * n * heads, headSize, 1, HeadRow(n, heads, b, i, h), e, 0);
  }

  /** `conv_out[b][i][h][e]` is the kernel of head `h` at position `i`
      applied to the window of channel `h*d + e` around position `i`: the
      chain of reshapes at lines 110-140 and 170 lines up the same sequence,
      position and head on both sides of the contraction. */
  lemma DynamicConvolutionAt<T>(ring: Ring<T>, kernelLayer: Tensor<T>, valueLayer: Tensor<T>, s: Sizing,
                                bs: nat, n: nat, prob: (seq<T>, nat) -> T, b: nat, i: nat, h: nat, e: nat)
    requires kernelLayer.Valid() && valueLayer.Valid() && ChainInputs(kernelLayer, valueLayer, s, bs, n)
    requires s.convKernelSize % 2 == 1
    requires b < bs && i < n && h < s.numAttentionHeads && e < s.attentionHeadSize
    ensures DynamicConvolution(ring, kernelLayer, valueLayer, s, bs, prob).Some?
    ensures DynamicConvolution(ring, kernelLayer, valueLayer, s, bs, prob).value.shape
            == [bs, n, s.numAttentionHeads, s.attentionHeadSize]
    ensures (FoldOffset(bs, n, s.numAttentionHeads, s.attentionHeadSize, b, i, h, e);
             DynamicConvolution(ring, kernelLayer, valueLayer, s, bs, prob).value.At([b, i, h, e]))
            == ConvEntry(ring, kernelLayer, valueLayer, s, bs, n, prob, b, i, h, e)
  {
    var heads, d := s.numAttentionHeads, s.attentionHeadSize;
    DynamicConvolutionShape(ring, kernelLayer, valueLayer, s, bs, n, prob);
    ContractionAt(ring, kernelLayer, valueLayer, s, bs, n, prob, b, i, h, e);
    var out := Contraction(ring, kernelLayer, valueLayer, s, bs, prob).value;
    var r := Tensor([bs, n, heads, d], out.data);
    FoldOffset(bs, n, heads, d, b, i, h, e);
    SameBufferAt(r, out, [b, i, h, e], [HeadRow(n, heads, b, i, h), e, 0]);
  }

  lemma BatchMismatch(bs: nat, n: nat, heads: nat)
    requires bs > 0 && n > 1 && heads > 0
    ensures bs * (n - 1) * heads < bs * n * heads
    ensures bs * n * heads != 1
  {
    assert bs * n * heads == bs * (n - 1) * heads + bs * heads;
    MulMonotone(1, bs, heads);
    assert bs * n * heads >= n * heads by {
      MulMonotone(1, bs, n * heads);
      assert bs * n * heads == bs * (n * heads);
    }
    MulMonotone(1, n, heads);
  }

  /** An even kernel leaves one window fewer than positions (line 127), so
      line 138 contracts `bs * (n-1) * H` window matrices against
      `bs * n * H` kernels, which `torch.matmul` rejects unless the window
      side is a single matrix it can broadcast. */
  lemma EvenKernelRejected<T>(ring: Ring<T>, kernelLayer: Tensor<T>, valueLayer: Tensor<T>, s: Sizing,
                              bs: nat, n: nat, prob: (seq<T>, nat) -> T)
    requires kernelLayer.Valid() && valueLayer.Valid() && ChainInputs(kernelLayer, valueLayer, s, bs, n)
    requires s.convKernelSize > 0 && s.convKernelSize % 2 == 0
    requires bs * (n - 1) * s.numAttentionHeads != 1
    ensures Contraction(ring, kernelLayer, valueLayer, s, bs, prob).None?
    ensures DynamicConvolution(ring, kernelLayer, valueLayer, s, bs, prob).None?
  {
    var heads, d, k, a := s.numAttentionHeads, s.attentionHeadSize, s.convKernelSize, s.allHeadSize;
    WindowCount(n, k);
    KernelsShape(kernelLayer, bs, n, heads, k);
    var probs := KernelProbs(kernelLayer, k, prob).value;
    assert probs.shape == [bs * n * heads, k, 1];
    if n == 1 {
      assert a > 0 by {
        MulMonotone(1, heads, d);
      }
      ValueWindowsShape(valueLayer, bs, n, a, k, ring.zero);
      assert ValueRows(valueLayer, s, bs, ring.zero).None?;
    } else {
      ValueRowsCount(valueLayer, s, bs, n, n - 1, ring.zero);
      var rows := ValueRows(valueLayer, s, bs, ring.zero).value;
      BatchMismatch(bs, n, heads);
      assert !Matmul3Defined(rows, probs);
    }
  }
}
