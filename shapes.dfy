/** Row-major layout of PyTorch tensors: the number of elements of a shape,
    the flat offset of an index tuple, and its inverse. A contiguous tensor
    stores element `idx` at flat position `Offset(shape, idx)`. */
module Shapes {

  /** Number of elements of a tensor of shape `s` (1 for a scalar). */
  function Size(s: seq<nat>): nat
  {
    if s == [] then 1 else Size(s[..|s| - 1]) * s[|s| - 1]
  }

  /** `idx` addresses an element of a tensor of shape `s`. */
  predicate InBounds(s: seq<nat>, idx: seq<nat>)
  {
    |idx| == |s| && forall k :: 0 <= k < |s| ==> idx[k] < s[k]
  }

  /** Position `k * d + l`: element `l` of block `k` when the blocks hold `d`
      elements each, as when a last axis of `c * d` is read as `(c, d)`. */
  function Flat(d: nat, k: nat, l: nat): nat
  {
    k * d + l
  }

  lemma MulAddBound(p: nat, bound: nat, i: nat, width: nat)
    requires p < bound && i < width
    ensures p * width + i < bound * width
  {
    assert (p + 1) * width <= bound * width by {
      MulMonotone(p + 1, bound, width);
    }
  }

  lemma MulMonotone(a: nat, b: nat, c: nat)
    requires a <= b
    ensures a * c <= b * c
  {
  }

  /** An offset below `bound * width` has its row below `bound`. */
  lemma DivBelow(o: nat, bound: nat, width: nat)
    requires o < bound * width
    ensures width > 0 && o / width < bound
  {
    if width == 0 || o / width >= bound {
      MulMonotone(bound, o / width, width);
      assert false;
    }
  }

  /** Division by `width` recovers the two parts of `p * width + i`. */
  lemma DivModOfMulAdd(p: nat, i: nat, width: nat)
    requires i < width
    ensures (p * width + i) / width == p && (p * width + i) % width == i
  {
    var o := p * width + i;
    var q, r := o / width, o % width;
    assert o == q * width + r;
    if q < p {
      MulMonotone(q + 1, p, width);
      assert false;
    } else if q > p {
      MulMonotone(p + 1, q, width);
      assert false;
    }
  }

  /** The row-major flat position of `idx` in a tensor of shape `s`. */
  function Offset(s: seq<nat>, idx: seq<nat>): (o: nat)
    requires InBounds(s, idx)
    ensures o < Size(s)
    decreases |s|
  {
    if s == [] then 0
    else
      var last := |s| - 1;
      assert InBounds(s[..last], idx[..last]);
      var p := Offset(s[..last], idx[..last]);
      MulAddBound(p, Size(s[..last]), idx[last], s[last]);
      p * s[last] + idx[last]
  }

  /** The index tuple stored at flat position `o`; the inverse of `Offset`. */
  function Unravel(s: seq<nat>, o: nat): (idx: seq<nat>)
    requires o < Size(s)
    ensures InBounds(s, idx) && Offset(s, idx) == o
    decreases |s|
  {
    if s == [] then []
    else
      var last := |s| - 1;
      var width := s[last];
      DivBelow(o, Size(s[..last]), width);
      var front := Unravel(s[..last], o / width);
      var idx := front + [o % width];
      assert idx[..last] == front;
      idx
  }

  lemma {:induction false} UnravelOffset(s: seq<nat>, idx: seq<nat>)
    requires InBounds(s, idx)
    ensures Unravel(s, Offset(s, idx)) == idx
    decreases |s|
  {
    if s != [] {
      var last := |s| - 1;
      assert InBounds(s[..last], idx[..last]);
      var p := Offset(s[..last], idx[..last]);
      DivModOfMulAdd(p, idx[last], s[last]);
      UnravelOffset(s[..last], idx[..last]);
      assert idx == idx[..last] + [idx[last]];
    }
  }

  /** Distinct in-bounds indices sit at distinct flat positions. */
  lemma OffsetInjective(s: seq<nat>, i1: seq<nat>, i2: seq<nat>)
    requires InBounds(s, i1) && InBounds(s, i2) && Offset(s, i1) == Offset(s, i2)
    ensures i1 == i2
  {
    UnravelOffset(s, i1);
    UnravelOffset(s, i2);
  }

  // Closed forms for the ranks the model uses.

  lemma Size1(a: nat)
    ensures Size([a]) == a
  {
    assert [a][..0] == [];
  }

  lemma Size2(a: nat, b: nat)
    ensures Size([a, b]) == a * b
  {
    assert [a, b][..1] == [a];
    Size1(a);
  }

  lemma Size3(a: nat, b: nat, c: nat)
    ensures Size([a, b, c]) == a * b * c
  {
    assert [a, b, c][..2] == [a, b];
    Size2(a, b);
  }

  lemma Size4(a: nat, b: nat, c: nat, d: nat)
    ensures Size([a, b, c, d]) == a * b * c * d
  {
    assert [a, b, c, d][..3] == [a, b, c];
    Size3(a, b, c);
  }

  lemma Offset1(a: nat, i: nat)
    requires i < a
    ensures InBounds([a], [i]) && Offset([a], [i]) == i
  {
    assert [a][..0] == [] && [i][..0] == [];
  }

  lemma Offset2(a: nat, b: nat, i: nat, j: nat)
    requires i < a && j < b
    ensures InBounds([a, b], [i, j]) && Offset([a, b], [i, j]) == i * b + j
  {
    assert [a, b][..1] == [a] && [i, j][..1] == [i];
    Offset1(a, i);
  }

  lemma Offset3(a: nat, b: nat, c: nat, i: nat, j: nat, k: nat)
    requires i < a && j < b && k < c
    ensures InBounds([a, b, c], [i, j, k])
    ensures Offset([a, b, c], [i, j, k]) == (i * b + j) * c + k
  {
    assert [a, b, c][..2] == [a, b] && [i, j, k][..2] == [i, j];
    Offset2(a, b, i, j);
  }

  lemma Offset4(a: nat, b: nat, c: nat, d: nat, i: nat, j: nat, k: nat, l: nat)
    requires i < a && j < b && k < c && l < d
    ensures InBounds([a, b, c, d], [i, j, k, l])
    ensures Offset([a, b, c, d], [i, j, k, l]) == ((i * b + j) * c + k) * d + l
  {
    assert [a, b, c, d][..3] == [a, b, c] && [i, j, k, l][..3] == [i, j, k];
    Offset3(a, b, c, i, j, k);
  }

  // Index tuples of small ranks, used to read off a position from a flat offset.

  lemma InBounds2(a: nat, b: nat, idx: seq<nat>)
    requires InBounds([a, b], idx)
    ensures idx == [idx[0], idx[1]] && idx[0] < a && idx[1] < b
  {
  }

  lemma InBounds3(a: nat, b: nat, c: nat, idx: seq<nat>)
    requires InBounds([a, b, c], idx)
    ensures idx == [idx[0], idx[1], idx[2]] && idx[0] < a && idx[1] < b && idx[2] < c
  {
  }

  lemma InBounds4(a: nat, b: nat, c: nat, d: nat, idx: seq<nat>)
    requires InBounds([a, b, c, d], idx)
    ensures idx == [idx[0], idx[1], idx[2], idx[3]]
    ensures idx[0] < a && idx[1] < b && idx[2] < c && idx[3] < d
  {
  }

  /** Appending or prepending a dimension of extent 1 keeps the size. */
  lemma SizeAppendOne(s: seq<nat>)
    ensures Size(s + [1]) == Size(s)
  {
    assert (s + [1])[..|s|] == s;
  }

  lemma {:induction false} SizePrependOne(s: seq<nat>)
    ensures Size([1] + s) == Size(s)
    decreases |s|
  {
    if s != [] {
      var last := |s| - 1;
      assert ([1] + s)[..|s|] == [1] + s[..last];
      SizePrependOne(s[..last]);
    } else {
      Size1(1);
    }
  }
}
