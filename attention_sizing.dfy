/** The sizes `ConvBertSelfAttention.__init__` derives from its arguments
    (src/models/convbert4kt_plus.py:37-73), and the configurations for which
    the later views and the residual add are size-consistent. */
module AttentionSizing {
  import opened Options

  datatype Sizing = Sizing(
    numAttentionHeads: nat,  // H: heads of each of the two sub-mechanisms
    headRatio: nat,
    convKernelSize: nat,     // K: the dynamic-convolution window
    attentionHeadSize: nat,  // d: channels per head
    allHeadSize: nat,        // H * d: width of the query/key/value projections
    kernelLogitWidth: nat,   // H * K: width of `conv_kernel_layer`
    unfoldPadding: int)      // padding of the `nn.Unfold` module built at line 71

  /** Python's `int(a / b)`: true division truncated toward zero. */
  function TruncDiv(a: int, b: nat): (q: int)
    requires b > 0
    ensures a >= 0 ==> q * b <= a < (q + 1) * b
    ensures a < 0 ==> (q - 1) * b < a <= q * b
  {
    if a >= 0 then a / b else -((-a) / b)
  }

  /** The relations between the sizes that the constructor establishes. */
  predicate WellFormed(s: Sizing)
  {
    && s.allHeadSize == s.numAttentionHeads * s.attentionHeadSize
    && s.kernelLogitWidth == s.numAttentionHeads * s.convKernelSize
  }

  /** A product of two sizes, itself a size. */
  function Times(a: nat, b: nat): nat
  {
    a * b
  }

  /** `ConvBertSelfAttention.__init__(hidden_size, n_splits, _, head_ratio,
      conv_kernel_size)`: `None` when a floor division by zero raises
      (lines 41 and 51), or when `hidden_size` is 0, where the depthwise
      `nn.Conv1d` of `SeparableConv1D` (lines 14 and 63) rejects `groups = 0`. */
  function NewSizing(hiddenSize: nat, nSplits: nat, headRatio: nat, convKernelSize: nat): (r: Option<Sizing>)
    ensures r.Some? <==> headRatio > 0 && nSplits > 0 && hiddenSize > 0
    ensures r.Some? ==> WellFormed(r.value)
    ensures r.Some? ==> r.value.headRatio == headRatio && r.value.convKernelSize == convKernelSize
    ensures r.Some? ==> var h := r.value.numAttentionHeads; h * headRatio <= nSplits < (h + 1) * headRatio
    ensures r.Some? ==> var d := r.value.attentionHeadSize; d * nSplits <= hiddenSize < (d + 1) * nSplits
  {
    if headRatio == 0 || nSplits == 0 || hiddenSize == 0 then None
    else
      var heads: nat := nSplits / headRatio;
      var headSize: nat := hiddenSize / nSplits;
      FloorDiv(nSplits, headRatio);
      FloorDiv(hiddenSize, nSplits);
      Some(Sizing(heads, headRatio, convKernelSize, headSize, Times(heads, headSize),
                  Times(heads, convKernelSize), TruncDiv(convKernelSize as int - 1, 2)))
  }

  /** The floor bounds of `a // b` for natural numbers. */
  lemma FloorDiv(a: nat, b: nat)
    requires b > 0
    ensures (a / b) * b <= a < (a / b + 1) * b
  {
  }

  /** `EncoderBlock` builds its attention with the defaults `head_ratio = 2`
      and `conv_kernel_size = 9` (line 239). */
  function EncoderSizing(hiddenSize: nat, nSplits: nat): (r: Option<Sizing>)
    ensures r.Some? <==> hiddenSize > 0 && nSplits > 0
    ensures r.Some? ==> r.value.headRatio == 2 && r.value.convKernelSize == 9 && r.value.unfoldPadding == 4
    ensures r.Some? ==> r.value.numAttentionHeads == nSplits / 2 && r.value.kernelLogitWidth == 9 * (nSplits / 2)
  {
    NewSizing(hiddenSize, nSplits, 2, 9)
  }

  /** The sizes the comments at lines 40-55 and 67 give for hidden size 512
      and 16 splits. */
  lemma DefaultSizes()
    ensures EncoderSizing(512, 16) == Some(Sizing(8, 2, 9, 32, 256, 72, 4))
  {
  }

  /** Attention and convolution heads are concatenated into `2 * H` heads of
      `d` channels, and line 180 views them as `head_ratio * all_head_size`
      channels: the view is size-consistent exactly when `head_ratio == 2`
      (or there are no channels at all). */
  lemma {:induction false} MergedViewConsistent(s: Sizing)
    requires WellFormed(s)
    ensures 2 * s.numAttentionHeads * s.attentionHeadSize == s.headRatio * s.allHeadSize
            <==> s.headRatio == 2 || s.allHeadSize == 0
  {
    var a := s.allHeadSize;
    assert 2 * s.numAttentionHeads * s.attentionHeadSize == 2 * a;
    if s.headRatio != 2 && a != 0 {
      if s.headRatio < 2 {
        assert s.headRatio * a < 2 * a;
      } else {
        assert s.headRatio * a >= 3 * a;
      }
    }
  }

  /** The split `hidden = n * d + rem` with `0 <= rem < n`: `width * d`
      recovers `hidden > 0` for `width` either `n` or `n - 1` exactly when
      `width == n` and `rem == 0`. */
  lemma WidthRecoversHidden(hidden: nat, n: nat, d: nat, rem: nat, width: nat)
    requires hidden > 0 && rem < n && hidden == n * d + rem
    requires width == n || width + 1 == n
    ensures width * d == hidden <==> width == n && rem == 0
  {
    if width + 1 == n {
      assert n * d == width * d + d;
    }
  }

  /** With the default head ratio the merged width `2 * H * d` equals
      `hidden_size`, as the residual add at line 260 requires, exactly when
      `n_splits` is even and divides `hidden_size`. */
  lemma MergedWidthIsHidden(hiddenSize: nat, nSplits: nat, convKernelSize: nat)
    requires hiddenSize > 0 && nSplits > 0
    ensures NewSizing(hiddenSize, nSplits, 2, convKernelSize).Some?
    ensures var s := NewSizing(hiddenSize, nSplits, 2, convKernelSize).value;
      s.headRatio * s.allHeadSize == hiddenSize <==> nSplits % 2 == 0 && hiddenSize % nSplits == 0
  {
    var s := NewSizing(hiddenSize, nSplits, 2, convKernelSize).value;
    var h, d := nSplits / 2, hiddenSize / nSplits;
    assert s.headRatio * s.allHeadSize == (2 * h) * d;
    WidthRecoversHidden(hiddenSize, nSplits, d, hiddenSize % nSplits, 2 * h);
  }

  /** The `nn.Unfold` module's padding `int((K - 1) / 2)` (line 72) agrees with
      the `(K - 1) // 2` that `forward` passes to the functional unfold
      (line 127) for every kernel size but 0. */
  lemma UnfoldPaddingAgrees(hiddenSize: nat, nSplits: nat, headRatio: nat, convKernelSize: nat)
    requires headRatio > 0 && nSplits > 0 && hiddenSize > 0
    ensures var s := NewSizing(hiddenSize, nSplits, headRatio, convKernelSize).value;
      (s.unfoldPadding == (convKernelSize as int - 1) / 2) <==> convKernelSize > 0
  {
  }
}
