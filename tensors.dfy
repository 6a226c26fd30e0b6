/** Tensors as a shape plus a flat row-major buffer, and the PyTorch shape
    operations the attention layer uses. `view` and `reshape` leave the flat
    buffer as it is; `permute`, `transpose`, `expand`, `cat` and `unfold` are
    index maps. An operation that PyTorch rejects yields `None`. */
module Tensors {
  import opened Options
  import opened Shapes

  datatype Tensor<T> = Tensor(shape: seq<nat>, data: seq<T>) {
    /** The buffer holds exactly one element per index tuple. */
    predicate Valid() { |data| == Size(shape) }

    /** `t[idx]`. */
    function At(idx: seq<nat>): T
      requires Valid() && InBounds(shape, idx)
    {
      data[Offset(shape, idx)]
    }
  }

  /** A tensor is determined by its shape and its elements. */
  lemma {:induction false} Extensionality<T>(t: Tensor<T>, u: Tensor<T>)
    requires t.Valid() && u.Valid() && t.shape == u.shape
    requires forall idx :: InBounds(t.shape, idx) ==> t.At(idx) == u.At(idx)
    ensures t == u
  {
    forall o | 0 <= o < |t.data|
      ensures t.data[o] == u.data[o]
    {
      var idx := Unravel(t.shape, o);
      assert t.At(idx) == u.At(idx);
    }
  }

  /** Two tensors sharing one buffer: an element of the one is the element of
      the other that has the same flat offset. */
  lemma SameBufferAt<T>(t: Tensor<T>, u: Tensor<T>, ti: seq<nat>, ui: seq<nat>)
    requires t.Valid() && u.Valid() && t.data == u.data
    requires InBounds(t.shape, ti) && InBounds(u.shape, ui)
    requires Offset(t.shape, ti) == Offset(u.shape, ui)
    ensures t.At(ti) == u.At(ui)
  {
  }

  // ---------------------------------------------------------------- view / reshape

  /** One entry of a shape passed to `reshape`/`view`: a size, or `-1`. */
  datatype Dim = Fixed(n: nat) | Infer

  /** Product of the sizes given explicitly. */
  function KnownProduct(spec: seq<Dim>): nat
  {
    if spec == [] then 1
    else
      var last := spec[|spec| - 1];
      KnownProduct(spec[..|spec| - 1]) * (if last.Fixed? then last.n else 1)
  }

  /** Number of `-1` entries. */
  function InferCount(spec: seq<Dim>): nat
  {
    if spec == [] then 0
    else InferCount(spec[..|spec| - 1]) + (if spec[|spec| - 1].Infer? then 1 else 0)
  }

  /** `spec` with every `-1` replaced by `v`. */
  function Fill(spec: seq<Dim>, v: nat): (s: seq<nat>)
    ensures |s| == |spec|
    ensures forall k :: 0 <= k < |spec| ==> s[k] == if spec[k].Fixed? then spec[k].n else v
  {
    seq(|spec|, k requires 0 <= k < |spec| => if spec[k].Fixed? then spec[k].n else v)
  }

  lemma {:induction false} FillSize(spec: seq<Dim>, v: nat)
    requires InferCount(spec) <= 1
    ensures Size(Fill(spec, v)) == KnownProduct(spec) * (if InferCount(spec) == 1 then v else 1)
    decreases |spec|
  {
    if spec != [] {
      var last := |spec| - 1;
      assert Fill(spec, v)[..last] == Fill(spec[..last], v);
      FillSize(spec[..last], v);
      var k := KnownProduct(spec[..last]);
      var w := if spec[last].Fixed? then spec[last].n else 1;
      var x := if InferCount(spec[..last]) == 1 then v else 1;
      assert Size(Fill(spec, v)) == (k * x) * Fill(spec, v)[last];
      if spec[last].Infer? {
        assert InferCount(spec[..last]) == 0;
        assert (k * 1) * v == (k * 1) * v;
      } else {
        assert (k * x) * w == (k * w) * x;
      }
    }
  }

  /** The shape `reshape(spec)` resolves to for a tensor of `total` elements.
      PyTorch raises when the sizes do not multiply to `total`, when there is
      more than one `-1`, or when a `-1` cannot be inferred uniquely. */
  function ResolveShape(total: nat, spec: seq<Dim>): (r: Option<seq<nat>>)
    ensures r.Some? ==> |r.value| == |spec| && Size(r.value) == total
    ensures r.Some? ==> forall k :: 0 <= k < |spec| && spec[k].Fixed? ==> r.value[k] == spec[k].n
  {
    var known := KnownProduct(spec);
    var holes := InferCount(spec);
    if holes == 0 then
      if known == total then FillSize(spec, 0); Some(Fill(spec, 0)) else None
    else if holes == 1 && known != 0 && total % known == 0 then
      FillSize(spec, total / known);
      Some(Fill(spec, total / known))
    else None
  }

  /** `torch.reshape(t, spec)` / `t.view(spec)`: same buffer, new shape. */
  function Reshape<T>(t: Tensor<T>, spec: seq<Dim>): (r: Option<Tensor<T>>)
    requires t.Valid()
    ensures r.Some? <==> ResolveShape(|t.data|, spec).Some?
    ensures r.Some? ==> r.value == Tensor(ResolveShape(|t.data|, spec).value, t.data) && r.value.Valid()
  {
    match ResolveShape(|t.data|, spec)
    case None => None
    case Some(s) => Some(Tensor(s, t.data))
  }

  /** The spec made of explicit sizes only. */
  function Sizes(s: seq<nat>): (spec: seq<Dim>)
    ensures |spec| == |s| && InferCount(spec) == 0 && KnownProduct(spec) == Size(s)
    ensures Fill(spec, 0) == s
  {
    if s == [] then []
    else
      var spec := Sizes(s[..|s| - 1]) + [Fixed(s[|s| - 1])];
      assert spec[..|s| - 1] == Sizes(s[..|s| - 1]);
      spec
  }

  /** `t.view(s)` with explicit sizes: succeeds exactly when the sizes agree. */
  function View<T>(t: Tensor<T>, s: seq<nat>): (r: Option<Tensor<T>>)
    requires t.Valid()
    ensures r.Some? <==> Size(s) == |t.data|
    ensures r.Some? ==> r.value == Tensor(s, t.data)
  {
    Reshape(t, Sizes(s))
  }

  lemma SplitOffset(row: nat, c: nat, d: nat, k: nat, l: nat)
    ensures (row * c + k) * d + l == row * (c * d) + (k * d + l)
  {
    calc {
      (row * c + k) * d + l;
      row * c * d + k * d + l;
      row * (c * d) + (k * d + l);
    }
  }

  /** Viewing `(a, b, c*d)` as `(a, b, c, d)` splits the last index:
      `u[i][j][k][l] == t[i][j][k*d + l]`. */
  lemma SplitLastAt<T>(t: Tensor<T>, c: nat, d: nat, i: nat, j: nat, k: nat, l: nat)
    requires t.Valid() && |t.shape| == 3 && t.shape[2] == c * d
    requires i < t.shape[0] && j < t.shape[1] && k < c && l < d
    ensures View(t, [t.shape[0], t.shape[1], c, d]).Some?
    ensures InBounds(t.shape, [i, j, Flat(d, k, l)])
    ensures View(t, [t.shape[0], t.shape[1], c, d]).value.At([i, j, k, l]) == t.At([i, j, Flat(d, k, l)])
  {
    var s0, s1 := t.shape[0], t.shape[1];
    assert t.shape == [s0, s1, c * d];
    Size3(s0, s1, c * d);
    Size4(s0, s1, c, d);
    assert s0 * s1 * (c * d) == s0 * s1 * c * d;
    var u := Tensor([s0, s1, c, d], t.data);
    MulAddBound(k, c, l, d);
    var m := Flat(d, k, l);
    Offset4(s0, s1, c, d, i, j, k, l);
    Offset3(s0, s1, c * d, i, j, m);
    SplitOffset(Flat(s1, i, j), c, d, k, l);
    SameBufferAt(u, t, [i, j, k, l], [i, j, m]);
  }

  /** Viewing `(a, b, c, d)` as `(a, b, c*d)` merges the last two indices:
      `w[i][j][k*d + l] == u[i][j][k][l]`. */
  lemma MergeLastAt<T>(u: Tensor<T>, i: nat, j: nat, k: nat, l: nat)
    requires u.Valid() && |u.shape| == 4
    requires i < u.shape[0] && j < u.shape[1] && k < u.shape[2] && l < u.shape[3]
    ensures var s := [u.shape[0], u.shape[1], u.shape[2] * u.shape[3]];
      && View(u, s).Some?
      && InBounds(s, [i, j, Flat(u.shape[3], k, l)])
      && View(u, s).value.At([i, j, Flat(u.shape[3], k, l)]) == u.At([i, j, k, l])
  {
    var s0, s1, c, d := u.shape[0], u.shape[1], u.shape[2], u.shape[3];
    assert u.shape == [s0, s1, c, d];
    Size3(s0, s1, c * d);
    Size4(s0, s1, c, d);
    assert s0 * s1 * (c * d) == s0 * s1 * c * d;
    var w := Tensor([s0, s1, c * d], u.data);
    MulAddBound(k, c, l, d);
    var m := Flat(d, k, l);
    Offset4(s0, s1, c, d, i, j, k, l);
    Offset3(s0, s1, c * d, i, j, m);
    SplitOffset(Flat(s1, i, j), c, d, k, l);
    SameBufferAt(w, u, [i, j, m], [i, j, k, l]);
  }

  /** Reshaping `[x, K, 1]`-style: a single `-1` next to explicit sizes whose
      product divides the total resolves to the quotient. */
  lemma ResolveOneHole(total: nat, spec: seq<Dim>, hole: nat, q: nat)
    requires hole < |spec| && spec[hole].Infer?
    requires forall k :: 0 <= k < |spec| && k != hole ==> spec[k].Fixed?
    requires KnownProduct(spec) * q == total && KnownProduct(spec) != 0
    ensures InferCount(spec) == 1
    ensures ResolveShape(total, spec) == Some(Fill(spec, q))
  {
    OneHoleCount(spec, hole);
    var known := KnownProduct(spec);
    assert total / known == q && total % known == 0 by {
      DivModOfMulAdd(q, 0, known);
      assert q * known + 0 == total;
    }
  }

  /** A reshape with a single `-1` keeps the buffer and fills the hole with
      the quotient. */
  lemma ReshapeOneHole<T>(t: Tensor<T>, spec: seq<Dim>, hole: nat, q: nat)
    requires t.Valid()
    requires hole < |spec| && spec[hole].Infer?
    requires forall k :: 0 <= k < |spec| && k != hole ==> spec[k].Fixed?
    requires KnownProduct(spec) * q == |t.data| && KnownProduct(spec) != 0
    ensures Reshape(t, spec) == Some(Tensor(Fill(spec, q), t.data))
  {
    ResolveOneHole(|t.data|, spec, hole, q);
  }

  /** The factor an entry contributes to `KnownProduct`. */
  function Extent(d: Dim): nat
  {
    if d.Fixed? then d.n else 1
  }

  // The product of the explicit sizes of a spec of length 1 to 4.

  lemma Known1(d0: Dim)
    ensures KnownProduct([d0]) == Extent(d0)
  {
    assert [d0][..0] == [];
  }

  lemma Known2(d0: Dim, d1: Dim)
    ensures KnownProduct([d0, d1]) == Extent(d0) * Extent(d1)
  {
    assert [d0, d1][..1] == [d0];
    Known1(d0);
  }

  lemma Known3(d0: Dim, d1: Dim, d2: Dim)
    ensures KnownProduct([d0, d1, d2]) == Extent(d0) * Extent(d1) * Extent(d2)
  {
    assert [d0, d1, d2][..2] == [d0, d1];
    Known2(d0, d1);
  }

  lemma Known4(d0: Dim, d1: Dim, d2: Dim, d3: Dim)
    ensures KnownProduct([d0, d1, d2, d3]) == Extent(d0) * Extent(d1) * Extent(d2) * Extent(d3)
  {
    assert [d0, d1, d2, d3][..3] == [d0, d1, d2];
    Known3(d0, d1, d2);
  }

  lemma {:induction false} OneHoleCount(spec: seq<Dim>, hole: nat)
    requires hole < |spec| && spec[hole].Infer?
    requires forall k :: 0 <= k < |spec| && k != hole ==> spec[k].Fixed?
    ensures InferCount(spec) == 1
    decreases |spec|
  {
    var last := |spec| - 1;
    if hole == last {
      NoHoleCount(spec[..last]);
    } else {
      OneHoleCount(spec[..last], hole);
    }
  }

  lemma {:induction false} NoHoleCount(spec: seq<Dim>)
    requires forall k :: 0 <= k < |spec| ==> spec[k].Fixed?
    ensures InferCount(spec) == 0
    decreases |spec|
  {
    if spec != [] {
      NoHoleCount(spec[..|spec| - 1]);
    }
  }

  // ---------------------------------------------------------------- unsqueeze

  /** `t.unsqueeze(-1)`: a trailing dimension of extent 1, same buffer. */
  function UnsqueezeLast<T>(t: Tensor<T>): (r: Tensor<T>)
    requires t.Valid()
    ensures r.Valid() && r.shape == t.shape + [1] && r.data == t.data
  {
    SizeAppendOne(t.shape);
    Tensor(t.shape + [1], t.data)
  }

  /** Element `idx + [0]` of `t.unsqueeze(-1)` is element `idx` of `t`. */
  lemma UnsqueezeLastAt<T>(t: Tensor<T>, idx: seq<nat>)
    requires t.Valid() && InBounds(t.shape, idx)
    ensures InBounds(UnsqueezeLast(t).shape, idx + [0])
    ensures UnsqueezeLast(t).At(idx + [0]) == t.At(idx)
  {
    var u := UnsqueezeLast(t);
    assert u.shape[..|t.shape|] == t.shape;
    assert (idx + [0])[..|t.shape|] == idx;
    assert Offset(u.shape, idx + [0]) == Offset(t.shape, idx) * 1 + 0;
  }

  /** `t.unsqueeze(0)`: a leading dimension of extent 1, same buffer. */
  function UnsqueezeFirst<T>(t: Tensor<T>): (r: Tensor<T>)
    requires t.Valid()
    ensures r.Valid() && r.shape == [1] + t.shape && r.data == t.data
  {
    SizePrependOne(t.shape);
    Tensor([1] + t.shape, t.data)
  }

  // ---------------------------------------------------------------- permute

  /** `p` lists every dimension `0 .. |p|-1` exactly once. */
  predicate IsPermutation(p: seq<nat>)
  {
    && (forall k :: 0 <= k < |p| ==> p[k] < |p|)
    && (forall j, k :: 0 <= j < k < |p| ==> p[j] != p[k])
    && (forall m :: 0 <= m < |p| ==> m in p)
  }

  function IndexOf(p: seq<nat>, m: nat): (k: nat)
    requires m in p
    ensures k < |p| && p[k] == m
  {
    if p[0] == m then 0 else 1 + IndexOf(p[1..], m)
  }

  /** Shape of `t.permute(p)`: output dimension `k` is input dimension `p[k]`. */
  function PermutedShape(s: seq<nat>, p: seq<nat>): (r: seq<nat>)
    requires |p| == |s| && IsPermutation(p)
    ensures |r| == |s|
  {
    seq(|p|, k requires 0 <= k < |p| => s[p[k]])
  }

  /** The input index read for output index `idx` of `t.permute(p)`. */
  function SourceIndex(s: seq<nat>, p: seq<nat>, idx: seq<nat>): (src: seq<nat>)
    requires |p| == |s| && IsPermutation(p) && InBounds(PermutedShape(s, p), idx)
    ensures InBounds(s, src)
    ensures forall k :: 0 <= k < |p| ==> src[p[k]] == idx[k]
  {
    var src := seq(|p|, m requires 0 <= m < |p| => idx[IndexOf(p, m)]);
    assert forall k :: 0 <= k < |p| ==> IndexOf(p, p[k]) == k;
    src
  }

  /** `t.permute(p)`. */
  function Permute<T>(t: Tensor<T>, p: seq<nat>): (r: Option<Tensor<T>>)
    requires t.Valid()
    ensures r.Some? <==> |p| == |t.shape| && IsPermutation(p)
    ensures r.Some? ==> r.value.Valid() && r.value.shape == PermutedShape(t.shape, p)
  {
    if |p| != |t.shape| || !IsPermutation(p) then None
    else
      var ns := PermutedShape(t.shape, p);
      Some(Tensor(ns, seq(Size(ns), o requires 0 <= o < Size(ns) =>
        t.At(SourceIndex(t.shape, p, Unravel(ns, o))))))
  }

  lemma PermuteAt<T>(t: Tensor<T>, p: seq<nat>, idx: seq<nat>)
    requires t.Valid() && Permute(t, p).Some?
    requires InBounds(PermutedShape(t.shape, p), idx)
    ensures Permute(t, p).value.At(idx) == t.At(SourceIndex(t.shape, p, idx))
  {
    UnravelOffset(PermutedShape(t.shape, p), idx);
  }

  /** The permutation exchanging dimensions `i` and `j` of a rank-`n` tensor. */
  function SwapDims(n: nat, i: nat, j: nat): (p: seq<nat>)
    requires i < n && j < n
    ensures |p| == n && IsPermutation(p)
  {
    var p := seq(n, k requires 0 <= k < n => if k == i then j else if k == j then i else k);
    assert forall a, b :: 0 <= a < b < n ==> p[a] != p[b];
    assert forall m :: 0 <= m < n ==> m in p by {
      forall m | 0 <= m < n ensures m in p {
        var k := if m == i then j else if m == j then i else m;
        assert p[k] == m;
      }
    }
    p
  }

  /** A dimension argument as PyTorch reads it: negative counts from the end. */
  function NormalizeDim(rank: nat, d: int): (r: Option<nat>)
    ensures r.Some? ==> r.value < rank
  {
    if 0 <= d < rank then Some(d as nat)
    else if -(rank as int) <= d < 0 then Some((rank + d) as nat)
    else None
  }

  /** `t.transpose(d0, d1)`. */
  function Transpose<T>(t: Tensor<T>, d0: int, d1: int): (r: Option<Tensor<T>>)
    requires t.Valid()
    ensures r.Some? <==> NormalizeDim(|t.shape|, d0).Some? && NormalizeDim(|t.shape|, d1).Some?
    ensures r.Some? ==> r.value.Valid()
    ensures r.Some? ==> var i, j := NormalizeDim(|t.shape|, d0).value, NormalizeDim(|t.shape|, d1).value;
      r.value.shape == t.shape[i := t.shape[j]][j := t.shape[i]]
  {
    var i :- NormalizeDim(|t.shape|, d0);
    var j :- NormalizeDim(|t.shape|, d1);
    Permute(t, SwapDims(|t.shape|, i, j))
  }

  /** `t.transpose(1, 2)` on a 3-D tensor swaps the last two indices. */
  lemma TransposeLastTwo3At<T>(t: Tensor<T>, a: nat, b: nat, c: nat)
    requires t.Valid() && |t.shape| == 3
    requires a < t.shape[0] && b < t.shape[1] && c < t.shape[2]
    ensures Transpose(t, 1, 2).Some?
    ensures Transpose(t, 1, 2).value.shape == [t.shape[0], t.shape[2], t.shape[1]]
    ensures InBounds(Transpose(t, 1, 2).value.shape, [a, c, b])
    ensures Transpose(t, 1, 2).value.At([a, c, b]) == t.At([a, b, c])
  {
    var p := SwapDims(3, 1, 2);
    assert p == [0, 2, 1];
    assert Transpose(t, 1, 2) == Permute(t, p);
    assert PermutedShape(t.shape, p) == [t.shape[0], t.shape[2], t.shape[1]];
    PermuteAt(t, p, [a, c, b]);
    assert SourceIndex(t.shape, p, [a, c, b]) == [a, b, c];
  }

  // ---------------------------------------------------------------- expand

  /** `s` can be expanded to `ns`: equal extents, or extent 1 broadcast. */
  predicate ExpandsTo(s: seq<nat>, ns: seq<nat>)
  {
    |s| == |ns| && forall k :: 0 <= k < |s| ==> s[k] == ns[k] || s[k] == 1
  }

  /** The input index read by `expand`: broadcast dimensions read index 0. */
  function ExpandSource(s: seq<nat>, ns: seq<nat>, idx: seq<nat>): (src: seq<nat>)
    requires ExpandsTo(s, ns) && InBounds(ns, idx)
    ensures InBounds(s, src)
  {
    seq(|s|, k requires 0 <= k < |s| => if s[k] == 1 then 0 else idx[k])
  }

  /** `t.expand(ns)` (same rank). */
  function Expand<T>(t: Tensor<T>, ns: seq<nat>): (r: Option<Tensor<T>>)
    requires t.Valid()
    ensures r.Some? <==> ExpandsTo(t.shape, ns)
    ensures r.Some? ==> r.value.Valid() && r.value.shape == ns
  {
    if !ExpandsTo(t.shape, ns) then None
    else Some(Tensor(ns, seq(Size(ns), o requires 0 <= o < Size(ns) =>
      t.At(ExpandSource(t.shape, ns, Unravel(ns, o))))))
  }

  lemma ExpandAt<T>(t: Tensor<T>, ns: seq<nat>, idx: seq<nat>)
    requires t.Valid() && ExpandsTo(t.shape, ns) && InBounds(ns, idx)
    ensures Expand(t, ns).value.At(idx) == t.At(ExpandSource(t.shape, ns, idx))
  {
    UnravelOffset(ns, idx);
  }

  // ---------------------------------------------------------------- elementwise

  /** An elementwise conversion such as `.bool()`. */
  function MapElements<T, U>(t: Tensor<T>, f: T -> U): (r: Tensor<U>)
    requires t.Valid()
    ensures r.Valid() && r.shape == t.shape
    ensures forall idx :: InBounds(t.shape, idx) ==> r.At(idx) == f(t.At(idx))
  {
    Tensor(t.shape, seq(|t.data|, o requires 0 <= o < |t.data| => f(t.data[o])))
  }

  // ---------------------------------------------------------------- cat

  /** `torch.cat([a, b], dim)` accepts shapes that differ only along `dim`. */
  predicate CatCompatible(sa: seq<nat>, sb: seq<nat>, dim: nat)
  {
    |sa| == |sb| && dim < |sa| && forall k :: 0 <= k < |sa| && k != dim ==> sa[k] == sb[k]
  }

  function CatShape(sa: seq<nat>, sb: seq<nat>, dim: nat): (s: seq<nat>)
    requires CatCompatible(sa, sb, dim)
    ensures |s| == |sa|
  {
    sa[dim := sa[dim] + sb[dim]]
  }

  /** Element `idx` of the concatenation: from `a` below `a`'s extent along
      `dim`, from `b` (shifted back) above it. */
  function CatElement<T>(a: Tensor<T>, b: Tensor<T>, dim: nat, idx: seq<nat>): T
    requires a.Valid() && b.Valid() && CatCompatible(a.shape, b.shape, dim)
    requires InBounds(CatShape(a.shape, b.shape, dim), idx)
  {
    if idx[dim] < a.shape[dim] then a.At(idx)
    else b.At(idx[dim := idx[dim] - a.shape[dim]])
  }

  function Cat<T>(a: Tensor<T>, b: Tensor<T>, dim: nat): (r: Option<Tensor<T>>)
    requires a.Valid() && b.Valid()
    ensures r.Some? <==> CatCompatible(a.shape, b.shape, dim)
    ensures r.Some? ==> r.value.Valid() && r.value.shape == CatShape(a.shape, b.shape, dim)
  {
    if !CatCompatible(a.shape, b.shape, dim) then None
    else
      var ns := CatShape(a.shape, b.shape, dim);
      Some(Tensor(ns, seq(Size(ns), o requires 0 <= o < Size(ns) =>
        CatElement(a, b, dim, Unravel(ns, o)))))
  }

  lemma CatAt<T>(a: Tensor<T>, b: Tensor<T>, dim: nat, idx: seq<nat>)
    requires a.Valid() && b.Valid() && CatCompatible(a.shape, b.shape, dim)
    requires InBounds(CatShape(a.shape, b.shape, dim), idx)
    ensures Cat(a, b, dim).value.At(idx) == CatElement(a, b, dim, idx)
  {
    UnravelOffset(CatShape(a.shape, b.shape, dim), idx);
  }

  // ---------------------------------------------------------------- unfold

  /** Number of window positions of `unfold` along an extent `len` with
      kernel `kernel`, padding `pad`, stride 1 and dilation 1. */
  function SlidingCount(len: nat, kernel: nat, pad: int): int
  {
    len + 2 * pad - kernel + 1
  }

  /** Shape of the `unfold` result for a `(N, C, L, W)` input. */
  function UnfoldShape(s: seq<nat>, kernel: nat, pad: int): seq<nat>
    requires |s| == 4 && SlidingCount(s[2], kernel, pad) >= 1
  {
    [s[0], s[1] * kernel, SlidingCount(s[2], kernel, pad) as nat * s[3]]
  }

  /** Element `[b, c*K + j, l*W + w]` of the `unfold` result: input row
      `l + j - pad` of channel `c`, or `zero` where that row is padding. */
  function UnfoldElement<T>(t: Tensor<T>, kernel: nat, pad: int, zero: T, idx: seq<nat>): T
    requires t.Valid() && |t.shape| == 4 && kernel > 0 && t.shape[3] > 0
    requires SlidingCount(t.shape[2], kernel, pad) >= 1
    requires InBounds(UnfoldShape(t.shape, kernel, pad), idx)
  {
    var width := t.shape[3];
    var c, j := idx[1] / kernel, idx[1] % kernel;
    var l, w := idx[2] / width, idx[2] % width;
    DivBelow(idx[1], t.shape[1], kernel);
    var row := l + j - pad;
    if 0 <= row < t.shape[2] then t.At([idx[0], c, row as nat, w]) else zero
  }

  /** `nn.functional.unfold(t, kernel_size=[K, 1], dilation=1, padding=[pad, 0],
      stride=1)` on a 4-D input. PyTorch rejects an empty kernel, a negative
      padding, an input with no channels, rows or columns (only the batch
      may be empty) and an input with no complete window. */
  function Unfold<T>(t: Tensor<T>, kernel: nat, pad: int, zero: T): (r: Option<Tensor<T>>)
    requires t.Valid()
    ensures r.Some? <==> |t.shape| == 4 && kernel > 0 && pad >= 0
                         && t.shape[1] > 0 && t.shape[2] > 0 && t.shape[3] > 0
                         && SlidingCount(t.shape[2], kernel, pad) >= 1
    ensures r.Some? ==> r.value.Valid() && r.value.shape == UnfoldShape(t.shape, kernel, pad)
  {
    if |t.shape| != 4 || kernel == 0 || pad < 0 || t.shape[1] == 0 || t.shape[2] == 0 || t.shape[3] == 0
       || SlidingCount(t.shape[2], kernel, pad) < 1 then None
    else
      var ns := UnfoldShape(t.shape, kernel, pad);
      Some(Tensor(ns, seq(Size(ns), o requires 0 <= o < Size(ns) =>
        UnfoldElement(t, kernel, pad, zero, Unravel(ns, o)))))
  }

  /** Window `l`, offset `j` in `[0, K)` of channel `c` reads input row
      `l + j - pad` when it exists and is zero otherwise: no wrap-around. */
  lemma UnfoldAt<T>(t: Tensor<T>, kernel: nat, pad: int, zero: T, b: nat, c: nat, j: nat, l: nat, w: nat)
    requires t.Valid() && Unfold(t, kernel, pad, zero).Some?
    requires b < t.shape[0] && c < t.shape[1] && j < kernel
    requires l < SlidingCount(t.shape[2], kernel, pad) && w < t.shape[3]
    ensures var s := UnfoldShape(t.shape, kernel, pad);
      && InBounds(s, [b, Flat(kernel, c, j), Flat(t.shape[3], l, w)])
      && Unfold(t, kernel, pad, zero).value.At([b, Flat(kernel, c, j), Flat(t.shape[3], l, w)])
         == if 0 <= l + j - pad < t.shape[2] then t.At([b, c, (l + j - pad) as nat, w]) else zero
  {
    var s := UnfoldShape(t.shape, kernel, pad);
    var count := SlidingCount(t.shape[2], kernel, pad) as nat;
    MulAddBound(c, t.shape[1], j, kernel);
    MulAddBound(l, count, w, t.shape[3]);
    var idx := [b, Flat(kernel, c, j), Flat(t.shape[3], l, w)];
    assert InBounds(s, idx);
    DivModOfMulAdd(c, j, kernel);
    DivModOfMulAdd(l, w, t.shape[3]);
    UnravelOffset(s, idx);
  }
}
