# ConvBERT knowledge tracing: shapes, indices and data splits

`ConvBert4ktPlus` is a knowledge-tracing model. It embeds a student's
question/response history and passes it through a stack of encoder blocks.
Each block runs a ConvBERT-style mixed self-attention, `ConvBertSelfAttention`:
half of its heads do scaled dot-product attention and half do a span-based
dynamic convolution. The two halves are concatenated back to the hidden
width. `get_loaders` turns a dataset into train and test sets: either five
contiguous folds with one held out, or two sizes for a random split.

This project models the parts of that code that are pure index and shape
plumbing, and proves that the plumbing does what the comments beside it
say.

- **Tensors.** A tensor is a row-major `Tensor<T>(shape, data)`. The PyTorch
  operations the core uses are modelled as functions returning `Option`:
  `view`, `reshape` with `-1`, `permute`, `transpose`, `unsqueeze`,
  `expand`, `cat`, `unfold` and batched `matmul`. `None` stands for the
  shape error PyTorch raises. The element proofs of the core rest on
  `…At` lemmas that give the elements of a result in terms of its input,
  for the ranks and cases the core uses (`SplitLastAt` and `MergeLastAt`
  for views, `Matmul3At` for equal batches).
- **Sizing** (`AttentionSizing`). The head counts and sizes that
  `ConvBertSelfAttention.__init__` derives with Python's `//` and `int()`.
- **Mask** (`AttentionMask`). `get_extended_attention_mask` proved to mask
  score `[b, h, q, k]` exactly when key `k` of sequence `b` is masked.
  `masked_fill_` is an in-place loop over the score buffer, proved against
  a pure specification.
- **Heads** (`AttentionHeads`). `transpose_for_scores` and its inverse;
  the score and context products; the head concatenation and the final
  view.
- **Dynamic convolution** (`DynamicConv`). The chain of lines 108-170.
  Every output element `[b, i, h, e]` is proved to be the dot product of
  the `K` softmax weights of position `i`, head `h` with the
  zero-padded window of value channel `h*d+e` centred on `i`, for an odd
  kernel. An even kernel is proved to make the chain raise, except when
  `bs = H = 1` and `n = 2`.
- **Separable convolution** (`SeparableConv`). The output shape of
  `SeparableConv1D`, and its `x += self.bias` as an in-place loop.
- **Encoder** (`Encoder`). `EncoderBlock` hands the mask on unchanged;
  `MySequential` threads `(x, mask)` through the blocks in order; and
  the positional indices stay inside the position table.
- **Loaders** (`Loaders`). `get_loaders`: choosing the dataset, the
  five-fold split (a partition of the indices, test fold in order, train
  folds in order), the random-split sizes, and the two `UnboundLocalError`
  paths.

Element arithmetic is taken from a `Ring<T>` parameter. A softmax is taken
from a parameter `prob(line, j)`: the weight of entry `j` of a line. The
layers whose values are learned weights (`Linear`, `Conv1d`, `LayerNorm`,
embeddings) appear only as the tensors they produce, which are inputs to
the model.

Where the comments and the code differ, the model follows the code.
`EncoderBlock.forward` documents its mask as `(bs, n, n)`, but
`ConvBert4ktPlus.forward` passes the `(bs, n)` padding mask (line 375), and
`get_extended_attention_mask` needs exactly that. The mask builder permutes
to `(bs, H, q, k)`, the axis order of the scores, so it masks key columns
(`ExtendedMaskAt`, `ScoresMaskedByKey`). The code checks no shapes on
entry and does not detect a sequence with every key masked. The only
failures modelled are those of the PyTorch operation that raises.

## Model

| member | source | states |
|---|---|---|
| Tensors.Reshape | src/models/convbert4kt_plus.py:110 | `torch.reshape` with `-1` entries succeeds iff the spec resolves against the element count; the result keeps the buffer and gets the resolved shape |
| Tensors.ResolveShape | src/models/convbert4kt_plus.py:110 | a resolved shape has the spec's rank, the element count as its size, and every fixed extent in place |
| Tensors.ReshapeOneHole | src/models/convbert4kt_plus.py:135 | a spec with one `-1` whose fixed extents divide the count resolves by filling the hole with the quotient |
| Tensors.View | src/models/convbert4kt_plus.py:218 | `view(s)` succeeds iff `s` has as many elements as the tensor, and reinterprets the same buffer |
| Tensors.SplitLastAt | src/models/convbert4kt_plus.py:211-218 | viewing the last axis `c*d` as `(c, d)` puts old entry `[i, j, k*d+l]` at `[i, j, k, l]` |
| Tensors.MergeLastAt | src/models/convbert4kt_plus.py:179-182 | viewing the last two axes as one puts entry `[i, j, k, l]` at `[i, j, k*d+l]` |
| Tensors.UnsqueezeLast | src/models/convbert4kt_plus.py:120 | `unsqueeze(-1)` appends an axis of extent 1 and keeps the buffer |
| Tensors.UnsqueezeLastAt | src/models/convbert4kt_plus.py:198 | `[idx, 0]` of the unsqueezed tensor is `[idx]` of the original |
| Tensors.UnsqueezeFirst | src/models/convbert4kt_plus.py:349 | `unsqueeze(0)` prepends an axis of extent 1 and keeps the buffer |
| Tensors.Permute | src/models/convbert4kt_plus.py:221 | `permute(p)` succeeds iff `p` is a permutation of the axes; the shape is permuted accordingly |
| Tensors.PermuteAt | src/models/convbert4kt_plus.py:167 | each element of the permuted tensor is the source element at the un-permuted index |
| Tensors.Transpose | src/models/convbert4kt_plus.py:146 | `transpose(d0, d1)` accepts negative axes from the end, succeeds iff both are in range, and swaps those two extents |
| Tensors.TransposeLastTwo3At | src/models/convbert4kt_plus.py:92 | `transpose(1, 2)` of a 3-D tensor puts `[a, b, c]` at `[a, c, b]` |
| Tensors.Expand | src/models/convbert4kt_plus.py:198 | `expand` succeeds iff every extent is kept or grown from 1; the result has the requested shape |
| Tensors.ExpandAt | src/models/convbert4kt_plus.py:349 | each element of the expanded tensor is the source element with broadcast axes read at 0 |
| Tensors.MapElements | src/models/convbert4kt_plus.py:198 | an elementwise conversion (`.bool()`) keeps the shape and maps every element |
| Tensors.Cat | src/models/convbert4kt_plus.py:176 | `cat` succeeds iff the ranks agree and all other extents match; the joined axis is the sum |
| Tensors.CatAt | src/models/convbert4kt_plus.py:176 | elements below the first tensor's extent come from it, the rest from the second, shifted |
| Tensors.Unfold | src/models/convbert4kt_plus.py:123-129 | `unfold` with kernel `[K, 1]` and padding `[p, 0]` succeeds iff the input `(N, C, L, W)` is 4-D, `K > 0`, `p >= 0`, `C`, `L` and `W` are positive (only the batch may be empty) and at least one window fits; its shape is `(N, C*K, (L+2p-K+1)*W)` |
| Tensors.UnfoldAt | src/models/convbert4kt_plus.py:123-129 | entry `[b, c*K+j, l*W+w]` is input `[b, c, l+j-p, w]`, or zero where that row falls in the padding |
| Tensors.Extensionality | src/models/convbert4kt_plus.py:218 | two valid tensors with the same shape and the same element at every index are equal |
| Products.Matmul3 | src/models/convbert4kt_plus.py:138 | batched `matmul` of `(B, m, k)` by `(B', k, n)` succeeds iff the inner extents agree and the batches are equal or one is 1 |
| Products.Matmul3At | src/models/convbert4kt_plus.py:138 | entry `[x, i, j]` is the dot product of row `i` of the left and column `j` of the right matrix of batch `x` |
| Products.Matmul4 | src/models/convbert4kt_plus.py:146 | 4-D `matmul` succeeds iff both batch axes agree and the inner extents agree |
| Products.Matmul4At | src/models/convbert4kt_plus.py:165 | entry `[x1, x2, i, j]` is the dot product of row `i` and column `j` of batch `(x1, x2)` |
| Products.NormalizeDim1 | src/models/convbert4kt_plus.py:112 | softmax over axis 1 keeps the shape |
| Products.NormalizeDim1At | src/models/convbert4kt_plus.py:112 | entry `[x, j, c]` is the weight of entry `j` within its own axis-1 line |
| AttentionSizing.TruncDiv | src/models/convbert4kt_plus.py:72 | `int(a / b)` truncates toward zero, for negative numerators too |
| AttentionSizing.NewSizing | src/models/convbert4kt_plus.py:14-73 | the constructor fails iff `head_ratio`, `n_splits` or `hidden_size` is 0 (the first two divide; the depthwise `nn.Conv1d` rejects zero groups); otherwise heads `= n_splits // head_ratio`, head size `= hidden // n_splits`, all-head size their product, kernel rows `= heads * K` |
| AttentionSizing.EncoderSizing | src/models/convbert4kt_plus.py:239 | the sizing of an encoder block's attention exists iff `hidden_size` and `n_splits` are positive, with head ratio 2, kernel 9, unfold padding 4, `n_splits // 2` heads and `9 * (n_splits // 2)` kernel rows |
| AttentionSizing.DefaultSizes | src/models/convbert4kt_plus.py:239 | an encoder block with hidden size 512 and 16 splits gets 8 heads of 32, all-head size 256, 72 kernel rows and unfold padding 4 |
| AttentionSizing.MergedViewConsistent | src/models/convbert4kt_plus.py:176-182 | the concatenated `2*H` heads of size `d` hold exactly `head_ratio * all_head_size` channels iff `head_ratio == 2` or `all_head_size == 0`; otherwise the final view raises |
| AttentionSizing.MergedWidthIsHidden | src/models/convbert4kt_plus.py:260 | with head ratio 2 the block output is `hidden` wide, as the residual add needs, iff `n_splits` is even and divides `hidden` |
| AttentionSizing.UnfoldPaddingAgrees | src/models/convbert4kt_plus.py:71-73 | the padding `int((K-1)/2)` of the unused `self.unfold` equals the `(K-1)//2` used at line 127 iff `K > 0`; at `K = 0` truncation and floor differ |
| AttentionMask.MaskEncoding | src/models/convbert4kt_plus.py:198 | the unsqueezed, expanded, `.bool()`ed mask has shape `(bs, n, n*H)` |
| AttentionMask.MaskEncodingAt | src/models/convbert4kt_plus.py:198 | every entry `[b, k, j]` of the encoding is the truth value of `mask[b, k]` |
| AttentionMask.ExtendedAttentionMask | src/models/convbert4kt_plus.py:194-204 | the mask builder succeeds iff the mask is 2-D, and gives shape `(bs, H, n, n)` |
| AttentionMask.HeadMajorEncodingAt | src/models/convbert4kt_plus.py:201 | the view to `(bs, n, n, H)` puts encoding entry `[b, k, q*H+h]` at `[b, k, q, h]` |
| AttentionMask.ExtendedMaskAt | src/models/convbert4kt_plus.py:194-204 | extended entry `[b, h, q, k]` is the truth value of `mask[b, k]`, for every head and query |
| AttentionMask.FillWhere | src/models/convbert4kt_plus.py:157 | the filled buffer keeps the length of the scores |
| AttentionMask.MaskedFillInPlace | src/models/convbert4kt_plus.py:157 | the in-place loop leaves the score buffer equal to the specification: the fill value where the mask is set, the old score elsewhere |
| AttentionMask.MaskedFill | src/models/convbert4kt_plus.py:157 | `masked_fill_` succeeds iff mask and scores have the same shape, and keeps that shape |
| AttentionMask.MaskedFillAt | src/models/convbert4kt_plus.py:157 | each filled element is the fill value where the mask is true and the old score where it is false |
| AttentionMask.MaskedFillIdempotent | src/models/convbert4kt_plus.py:157 | filling twice with the same mask and value is filling once |
| AttentionMask.ScoresMaskedByKey | src/models/convbert4kt_plus.py:152-157 | after the fill with the extended mask, score `[b, h, q, k]` is the fill value iff key `k` of sequence `b` is masked, otherwise unchanged |
| AttentionHeads.TransposeForScores | src/models/convbert4kt_plus.py:207-221 | the head split succeeds iff the input is 3-D with `bs*n*H*d` elements, and gives shape `(bs, H, n, d)` |
| AttentionHeads.TransposeForScoresDefined | src/models/convbert4kt_plus.py:211-218 | for a non-empty batch and sequence, the split succeeds iff the last extent is `H*d` |
| AttentionHeads.TransposeForScoresAt | src/models/convbert4kt_plus.py:207-221 | split entry `[b, h, i, e]` is input `[b, i, h*d+e]` |
| AttentionHeads.MergeHeads | src/models/convbert4kt_plus.py:167-182 | merging heads (`permute(0, 2, 1, 3)` then flattening the last two axes) succeeds iff the input is 4-D, and gives shape `(bs, n, H*d)` |
| AttentionHeads.MergeHeadsAt | src/models/convbert4kt_plus.py:167-182 | merged entry `[b, i, h*d+e]` is head entry `[b, h, i, e]` |
| AttentionHeads.MergeAfterSplit | src/models/convbert4kt_plus.py:207-221 | merging the heads of a split gives back the original tensor |
| AttentionHeads.MergeAfterSplitAt | src/models/convbert4kt_plus.py:207-221 | element by element, merge after split is the identity |
| AttentionHeads.SplitAfterMerge | src/models/convbert4kt_plus.py:207-221 | splitting a merged 4-D tensor with its own head count and size gives it back |
| AttentionHeads.TransposeLastTwoAt | src/models/convbert4kt_plus.py:146 | `key_layer.transpose(-1, -2)` has shape `(bs, H, d, n)`, with `[b, h, e, j]` holding key `[b, h, j, e]` |
| AttentionHeads.AttentionScores | src/models/convbert4kt_plus.py:146 | the unscaled scores `matmul(query, key.transpose(-1, -2))`; a result is a valid tensor, and `AttentionScoresAt` gives its shape and every score |
| AttentionHeads.HeadVector | src/models/convbert4kt_plus.py:146 | the vector of one query, key or value has the head size as its length |
| AttentionHeads.AttentionScoresAt | src/models/convbert4kt_plus.py:146 | the scores have shape `(bs, H, n, n)`; score `[b, h, i, j]` is the dot product of query `i` and key `j` of head `h` |
| AttentionHeads.ContextAt | src/models/convbert4kt_plus.py:165 | context `[b, h, i, e]` is the dot product of the weights of query `i` with column `e` of the head's values |
| AttentionHeads.ConcatHeads | src/models/convbert4kt_plus.py:167-176 | the context permuted to `(bs, n, H, d)` and concatenated with the convolution heads along axis 2; a result is a valid tensor, and `ConcatenatedHeads`/`ConcatenatedHeadsAt` give its shape and elements |
| AttentionHeads.MergeContexts | src/models/convbert4kt_plus.py:167-182 | the concatenation viewed as `head_ratio * all_head_size` channels; a result is a valid tensor, `MergeContextsDefined` says when it exists and `MergeContextsAt` what each channel holds |
| AttentionHeads.ConcatenatedHeads | src/models/convbert4kt_plus.py:167-176 | the permuted context and the convolution heads concatenate to shape `(bs, n, 2H, d)` |
| AttentionHeads.ConcatenatedHeadsAt | src/models/convbert4kt_plus.py:167-176 | heads `h < H` of the concatenation are attention context `[b, h, i, e]`; heads `h >= H` are convolution output `[b, i, h-H, e]` |
| AttentionHeads.MergeContextsDefined | src/models/convbert4kt_plus.py:179-182 | for a non-empty batch and sequence, the final view succeeds iff `head_ratio * all_head_size == 2*H*d` |
| AttentionHeads.MergeContextsHeadAt | src/models/convbert4kt_plus.py:176-182 | channel `h*d+e` of the output is head `h`, element `e` of the concatenation |
| AttentionHeads.MergeContextsIsView | src/models/convbert4kt_plus.py:179-182 | the output is the concatenation's buffer viewed as `(bs, n, 2*H*d)` |
| AttentionHeads.MergedChannel | src/models/convbert4kt_plus.py:167-182 | reference definition, independent of the tensor operations, of what merged channel `c` holds: attention head `c/d` below `H*d`, convolution head `(c-H*d)/d` above; `MergeContextsAt` proves the chain agrees with it |
| AttentionHeads.MergeContextsAt | src/models/convbert4kt_plus.py:167-182 | output channel `c < H*d` is attention context `[b, c/d, i, c%d]`; channel `c >= H*d` is convolution output `[b, i, (c-H*d)/d, c%d]` |
| DynamicConv.KernelsShape | src/models/convbert4kt_plus.py:110 | the kernel layer `(bs, n, H*K)` reshaped `[-1, K, 1]` has shape `(bs*n*H, K, 1)` |
| DynamicConv.KernelsAt | src/models/convbert4kt_plus.py:110 | reshaped kernel row `(b*n+i)*H+h`, entry `j` is kernel-layer `[b, i, h*K+j]` |
| DynamicConv.KernelProbs | src/models/convbert4kt_plus.py:110-112 | the logits reshaped to `[-1, K, 1]` and normalised along the `K` axis; a result is a valid 3-D tensor, `KernelsShape` gives its shape and `KernelProbsAt` its columns |
| DynamicConv.KernelLogits | src/models/convbert4kt_plus.py:108-110 | the logits of one position and head are `K` long |
| DynamicConv.KernelWeights | src/models/convbert4kt_plus.py:112 | the softmax weights of one position and head are `K` long |
| DynamicConv.KernelProbsAt | src/models/convbert4kt_plus.py:110-112 | the column of kernel row `(b*n+i)*H+h` is the softmax of that position's and head's `K` logits |
| DynamicConv.WindowCount | src/models/convbert4kt_plus.py:123-129 | with padding `(K-1)//2`, unfold gives `n` windows for an odd kernel and `n-1` for an even one |
| DynamicConv.WindowVector | src/models/convbert4kt_plus.py:123-129 | the window of one position and channel has `K` entries |
| DynamicConv.ValuesShape | src/models/convbert4kt_plus.py:118 | the reshape `[bs, -1, all_head_size]` of a `(bs, n, all_head_size)` value layer is the identity |
| DynamicConv.ValueWindows | src/models/convbert4kt_plus.py:118-129 | the values reshaped, transposed, unsqueezed and unfolded; a result is a valid tensor, `ValueWindowsShape` says when it exists and its shape, `ValueWindowsAt` its entries |
| DynamicConv.Window | src/models/convbert4kt_plus.py:118-129 | reference definition of window entry `j` at position `i`: the value at position `i + j - (K-1)//2` inside the sequence, zero outside; `ValueWindowsAt` proves the unfold chain agrees with it |
| DynamicConv.ValueWindowsShape | src/models/convbert4kt_plus.py:118-129 | the unfolded values have shape `(bs, all_head_size*K, windows)` |
| DynamicConv.ColumnUnfoldAt | src/models/convbert4kt_plus.py:123-129 | unfolding a one-column image reads entry `[b, c*K+j, l]` from row `l+j-p`, or zero in the padding |
| DynamicConv.ValueWindowsAt | src/models/convbert4kt_plus.py:118-129 | unfolded entry `[b, c*K+j, i]` is value `[b, i+j-(K-1)//2, c]`, or zero outside the sequence |
| DynamicConv.TransposedColumnShape | src/models/convbert4kt_plus.py:120 | `transpose(1, 2).unsqueeze(-1)` of `(bs, n, C)` has shape `(bs, C, n, 1)` |
| DynamicConv.TransposedColumnAt | src/models/convbert4kt_plus.py:120 | its entry `[a, c, b, 0]` is input `[a, b, c]` |
| DynamicConv.PositionReshape | src/models/convbert4kt_plus.py:131-133 | the reshape `[bs, -1, all_head_size, K]` of the transposed windows gives `(bs, windows, all_head_size, K)` over the same buffer |
| DynamicConv.WindowRows | src/models/convbert4kt_plus.py:131-135 | the unfolded windows transposed and reshaped into `(d, K)` matrices; a result is a valid tensor, `WindowRowsShape` gives its shape and `WindowRowsAt` its entries |
| DynamicConv.RowReshape | src/models/convbert4kt_plus.py:135 | the reshape `[-1, d, K]` of that tensor gives `(bs*windows*H, d, K)` over the same buffer |
| DynamicConv.WindowRowsShape | src/models/convbert4kt_plus.py:131-135 | lines 131-135 take `(bs, H*d*K, m)` windows to `(bs*m*H, d, K)` rows |
| DynamicConv.WindowRowsAt | src/models/convbert4kt_plus.py:131-135 | row `(b*m+i)*H+h`, entry `[e, j]` is unfolded entry `[b, (h*d+e)*K+j, i]` |
| DynamicConv.ValueRowsCount | src/models/convbert4kt_plus.py:116-135 | with `m >= 1` windows the value chain yields `(bs*m*H, d, K)` |
| DynamicConv.ValueRows | src/models/convbert4kt_plus.py:116-135 | lines 118-135 composed; a result is a valid tensor, and `ValueRowsShape`/`ValueRowsAt` give its shape and rows |
| DynamicConv.ValueRowsShape | src/models/convbert4kt_plus.py:116-135 | for an odd kernel and a non-empty sequence the value chain yields `(bs*n*H, d, K)` |
| DynamicConv.ValueRowsEntry | src/models/convbert4kt_plus.py:116-135 | value-row entry `[(b*n+i)*H+h, e, j]` is window entry `j` of channel `h*d+e` at position `i` |
| DynamicConv.ValueRowsAt | src/models/convbert4kt_plus.py:116-135 | row `e` of matrix `(b*n+i)*H+h` is the zero-padded window of channel `h*d+e` centred on position `i` |
| DynamicConv.FoldBack | src/models/convbert4kt_plus.py:140-170 | the reshapes `[-1, all_head_size]` then `[bs, -1, H, d]` take `(bs*n*H, d, 1)` to `(bs, n, H, d)` over the same buffer |
| DynamicConv.Contraction | src/models/convbert4kt_plus.py:138 | the batched matmul of the value rows with the normalised kernels; a result is a valid tensor, `ContractionShape` gives its shape and `ContractionAt` its entries |
| DynamicConv.DynamicConvolution | src/models/convbert4kt_plus.py:108-170 | the whole convolution branch; a result is a valid tensor, `DynamicConvolutionShape` says when it exists, `DynamicConvolutionAt` what it holds and `EvenKernelRejected` when it raises |
| DynamicConv.ContractionShape | src/models/convbert4kt_plus.py:138 | for an odd kernel the matmul of value rows by kernel weights yields `(bs*n*H, d, 1)` |
| DynamicConv.DynamicConvolutionShape | src/models/convbert4kt_plus.py:108-170 | for an odd kernel the whole convolution branch succeeds with shape `(bs, n, H, d)` |
| DynamicConv.ContractionAt | src/models/convbert4kt_plus.py:138 | product entry `[(b*n+i)*H+h, e, 0]` is the dot product of the window of channel `h*d+e` at `i` with the softmax weights of head `h` at `i` |
| DynamicConv.ConvEntry | src/models/convbert4kt_plus.py:108-170 | reference definition of `conv_out[b, i, h, e]`, independent of the reshapes: the dot product of `Window` entries of channel `h*d+e` around `i` with the softmax of head `h`'s `K` logits at `i`; `DynamicConvolutionAt` proves the chain agrees with it |
| DynamicConv.DynamicConvolutionAt | src/models/convbert4kt_plus.py:108-170 | `conv_out[b, i, h, e]` is the softmax-weighted sum over the `K` sequence positions centred on `i` of value channel `h*d+e`, with zeros beyond the ends |
| DynamicConv.EvenKernelRejected | src/models/convbert4kt_plus.py:131-138 | an even kernel leaves `n-1` windows, so the matmul at line 138 raises a batch mismatch and the branch fails |
| SeparableConv.SeparableShape | src/models/convbert4kt_plus.py:14-27 | for the batched 3-D input of line 92, the two convolutions accept it exactly when it has `input_filters` channels, `K > 0` and at least one output position, and give `(bs, output_filters, len + 2*(K//2) - K + 1)` |
| SeparableConv.DepthwiseKeepsLength | src/models/convbert4kt_plus.py:14 | padding `K // 2` keeps the length iff `K` is odd; an even kernel adds one position |
| SeparableConv.SeparableShapeOdd | src/models/convbert4kt_plus.py:21-30 | with an odd kernel, `(bs, input_filters, n)` maps to `(bs, output_filters, n)` |
| SeparableConv.BiasAdded | src/models/convbert4kt_plus.py:30 | adding the bias keeps the shape |
| SeparableConv.BiasAddedAt | src/models/convbert4kt_plus.py:16-30 | element `[b, c, l]` gains `bias[c]`, the bias of its own channel, broadcast over batch and positions |
| SeparableConv.ChannelOfOffset | src/models/convbert4kt_plus.py:30 | the channel of flat position `o` of an `(N, C, L)` buffer is `(o / L) % C` |
| SeparableConv.AddBiasInPlace | src/models/convbert4kt_plus.py:30 | after the in-place loop the buffer equals the specification's sum |
| Encoder.BlockForward | src/models/convbert4kt_plus.py:251-269 | a block returns the mask it was given |
| Encoder.Stack | src/models/convbert4kt_plus.py:275-283 | the stack of blocks returns the mask it was given |
| Encoder.SequentialForward | src/models/convbert4kt_plus.py:275-283 | the loop over the modules computes the in-order composition of the blocks, and its mask output is the input mask |
| Encoder.StackAppend | src/models/convbert4kt_plus.py:280-281 | running two stacks in sequence is running their concatenation |
| Encoder.LastBlockLast | src/models/convbert4kt_plus.py:280-281 | the last block runs once, last, on the output of all the earlier blocks |
| Encoder.StackAppliesEachBlockOnce | src/models/convbert4kt_plus.py:275-283 | with `n` blocks that each append their own index, the stack outputs `0, 1, .., n-1`: each block runs exactly once, in list order, on the previous block's output |
| Encoder.Arange | src/models/convbert4kt_plus.py:349 | `torch.arange(n)` is a 1-D tensor of length `n` |
| Encoder.Positions | src/models/convbert4kt_plus.py:349 | the position tensor has the shape of `q` |
| Encoder.PositionsAt | src/models/convbert4kt_plus.py:349 | every sequence of the batch gets positions `0 .. n-1`: entry `[b, i]` is `i` |
| Encoder.PositionsInTable | src/models/convbert4kt_plus.py:323-352 | for a non-empty batch, every position indexes one of the `max_seq_len` rows of `emb_p` iff `n <= max_seq_len` |
| Loaders.Range | src/get_modules/get_loaders.py:23-27 | `range(lo, hi)` has `hi - lo` elements (none when `hi <= lo`), the `k`-th being `lo + k` |
| Loaders.SelectDataset | src/get_modules/get_loaders.py:10-15 | a dataset is chosen iff the name is `"assist2015"` or `"assist2009"`, and it is the one the name gives |
| Loaders.Bounds | src/get_modules/get_loaders.py:23-27 | the six chunk boundaries start at 0 and end at the dataset length |
| Loaders.Chunks | src/get_modules/get_loaders.py:23-27 | there are five chunks |
| Loaders.ConcatMembers | src/get_modules/get_loaders.py:32-44 | `Concat`, the model of `ConcatDataset`, holds an index iff one of its chunks holds it |
| Loaders.FoldSelect | src/get_modules/get_loaders.py:31-45 | the branch chain selects a pair iff `idx` is one of 0..4, and its test set is chunk `idx` |
| Loaders.GetLoaders | src/get_modules/get_loaders.py:7-70 | `get_loaders` fails iff the dataset name is unknown or, with `fivefold`, `idx` is not one of 0..4; a success is a five-fold split iff `fivefold` is set |
| Loaders.UnknownDatasetFails | src/get_modules/get_loaders.py:10-18 | the function fails with `dataset` unbound iff the name is neither `"assist2015"` nor `"assist2009"` |
| Loaders.BadFoldFails | src/get_modules/get_loaders.py:21-58 | with a known dataset and `fivefold`, it fails with `train_dataset` unbound iff `idx` is not one of 0..4 |
| Loaders.CountsPassThrough | src/get_modules/get_loaders.py:18-19 | a successful call returns the chosen dataset's `num_q` and `num_r` |
| Loaders.RandomSizesSum | src/get_modules/get_loaders.py:46-54 | without `fivefold` the two sizes given to `random_split` add up to the dataset length |
| Loaders.FoldSelectRule | src/get_modules/get_loaders.py:31-45 | the five branches follow one rule: fold `k` tests on chunk `k` and trains on the other four in order |
| Loaders.RangeAppend | src/get_modules/get_loaders.py:23-27 | adjacent ranges concatenate to one range |
| Loaders.ConcatAppend | src/get_modules/get_loaders.py:32-44 | `ConcatDataset` of two lists of chunks is the concatenation of the two |
| Loaders.ConcatSingle | src/get_modules/get_loaders.py:32-44 | `ConcatDataset` of one chunk is that chunk |
| Loaders.ChunkPrefix | src/get_modules/get_loaders.py:23-27 | the first `j` chunks together are the indices below boundary `j` |
| Loaders.ChunkSuffix | src/get_modules/get_loaders.py:23-27 | the chunks from `j` on are the indices from boundary `j` to the length |
| Loaders.FoldSets | src/get_modules/get_loaders.py:21-45 | fold `k` tests on `range(b_k, b_(k+1))` and trains on `range(0, b_k) + range(b_(k+1), len)` |
| Loaders.HoldOut | src/get_modules/get_loaders.py:21-45 | removing one range from `[0, len)` leaves a remainder that is disjoint from it and together with it holds every index once |
| Loaders.FoldPartition | src/get_modules/get_loaders.py:21-45 | every successful five-fold call splits `[0, len)` into disjoint train and test sets that together hold each index once and whose sizes add up to `len` |
| Loaders.FoldOrder | src/get_modules/get_loaders.py:31-45 | the test set is chunk `k`; the training indices are strictly increasing |

## Left out

- Learned layers: `nn.Linear`, `nn.Conv1d` weights, `nn.LayerNorm`, `nn.Embedding`, GELU/LeakyReLU, the sigmoid generator and weight initialisation (lines 14-19, 58-69, 240-248, 318-341). Their values are floating point, so only the tensors they produce appear, as inputs.
- Dropout (lines 162, 241, 249, 260-266, 324). It is random and does not change shapes.
- The scaling by `1/sqrt(d)` at line 148. It is floating-point and touches no index.
- The elementwise multiply at line 106 and the separable convolution's numeric output at lines 88-92. The kernel layer of line 108 is an input of the model.
- The residual updates inside `EncoderBlock.forward` (lines 256-266). The block's update of `x` is a parameter `body(x, mask)`; only the width check of line 260 is proved (`MergedWidthIsHidden`).
- The embedding sum of line 352 and the `num_r + 2` table size of line 303. The embeddings are learned; only the position indices are modelled.
- Products.NormalizeDim1: softmax is a parameter `prob(line, j)`. The model does not prove that the weights are positive or add up to 1.
- The softmax at line 160 is not modelled separately: the same parameter stands for it, and `ContextAt` takes the weights as given.
- Products.Matmul4: size-1 batch broadcasting is not modelled; the batch axes must be equal. Every 4-D product in the core has equal batch axes.
- AttentionMask.MaskedFill: requires mask and scores of the same shape; broadcasting is not modelled. The extended mask has exactly the score shape.
- AttentionMask.ExtendedMaskAt: the meaning of a true mask entry (padding or real position) comes from the data pipeline, which is not part of this model. The mask's truth values are a parameter `truthy`.
- AttentionSizing.NewSizing: the other errors the constructor's `nn.Linear`, `nn.Conv1d`, `nn.Unfold` and `nn.Dropout` may raise on unusual arguments (a dropout probability outside [0, 1], an empty kernel) are not modelled; only the divisions and the zero-groups case are.
- SeparableConv.SeparableShape: only the batched `(N, C, L)` input is modelled, the form line 92 passes. `nn.Conv1d` also accepts an unbatched `(C, L)` input, for which the model answers `None`.
- Encoder.Positions: modelled only for the 2-D `q` that `forward` passes.
- Tensors.Expand: modelled only for expansion to the same rank, which is the only kind the core uses.
- Tensor strides, `.contiguous()`, devices (`.to(device)`) and `@torch.no_grad()`. Every tensor is its contiguous row-major buffer.
- DynamicConv.EvenKernelRejected: excludes `bs = H = 1, n = 2`. There the batch of 1 broadcasts in `matmul` and the chain goes on. In the full forward pass that corner never reaches line 108: for an even kernel the depthwise convolution yields `n + 1` positions (`SeparableConv.DepthwiseKeepsLength`), so the multiply at line 106 raises for every `n >= 2`. For an even kernel the output is not otherwise characterised; the core always uses `K = 9`.
- Loaders: the dataset classes `ASSIST2015`/`ASSIST2009`, `random_split`'s shuffle, `DataLoader`, `collate_fn` and batch sizes. Only the selected indices and sizes are modelled.
- Loaders.GetLoaders: the fold boundaries `int(len * 0.2k)` and `int(len * train_ratio)` are floating point, so they are parameters (`cuts`, `trainSize`). `FoldPartition` and `FoldOrder` assume the boundaries are non-decreasing and at most the length, which the floating-point products satisfy.
- The printed message at line 15 is left out, since it is I/O. The error is the `UnboundLocalError` at line 18.
- Training, model selection and the trainers are not part of this model.
