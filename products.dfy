/** Batched matrix products and row-wise normalisation over an abstract
    element type. The arithmetic is a parameter (`Ring`), so no floating point
    enters the model; what is modelled is which elements are combined. */
module Products {
  import opened Options
  import opened Shapes
  import opened Tensors

  /** The scalar operations a contraction needs. */
  datatype Ring<!T> = Ring(zero: T, add: (T, T) -> T, mul: (T, T) -> T)

  /** `sum_t xs[t] * ys[t]`, accumulated from the first term on. */
  function Dot<T>(ring: Ring<T>, xs: seq<T>, ys: seq<T>): T
    requires |xs| == |ys|
  {
    if xs == [] then ring.zero
    else ring.add(Dot(ring, xs[..|xs| - 1], ys[..|ys| - 1]), ring.mul(xs[|xs| - 1], ys[|ys| - 1]))
  }

  /** Row `i` of matrix `x` of the batch operand `a` (shape `(R, m, k)`). */
  function MatRow<T>(a: Tensor<T>, x: nat, i: nat): (row: seq<T>)
    requires a.Valid() && |a.shape| == 3 && x < a.shape[0] && i < a.shape[1]
    ensures |row| == a.shape[2]
  {
    seq(a.shape[2], t requires 0 <= t < a.shape[2] => a.At([x, i, t]))
  }

  /** Column `j` of matrix `x` of the batch operand `b` (shape `(R, k, q)`). */
  function MatColumn<T>(b: Tensor<T>, x: nat, j: nat): (column: seq<T>)
    requires b.Valid() && |b.shape| == 3 && x < b.shape[0] && j < b.shape[2]
    ensures |column| == b.shape[1]
  {
    seq(b.shape[1], t requires 0 <= t < b.shape[1] => b.At([x, t, j]))
  }

  /** Batch extents of `torch.matmul` on 3-D operands: equal, or one of them 1. */
  predicate BatchBroadcasts(ra: nat, rb: nat)
  {
    ra == rb || ra == 1 || rb == 1
  }

  /** The batch extent of the product. */
  function BatchOf(ra: nat, rb: nat): nat
  {
    if ra == 1 then rb else ra
  }

  /** Matrix `x` of the product uses matrix `x` of an operand whose batch
      extent is not 1, and matrix 0 of one whose extent is 1. */
  function Broadcast(extent: nat, x: nat): nat
  {
    if extent == 1 then 0 else x
  }

  predicate Matmul3Defined<T>(a: Tensor<T>, b: Tensor<T>)
  {
    |a.shape| == 3 && |b.shape| == 3 && a.shape[2] == b.shape[1]
    && BatchBroadcasts(a.shape[0], b.shape[0])
  }

  function Matmul3Shape<T>(a: Tensor<T>, b: Tensor<T>): seq<nat>
    requires Matmul3Defined(a, b)
  {
    [BatchOf(a.shape[0], b.shape[0]), a.shape[1], b.shape[2]]
  }

  function Matmul3Element<T>(ring: Ring<T>, a: Tensor<T>, b: Tensor<T>, idx: seq<nat>): T
    requires a.Valid() && b.Valid() && Matmul3Defined(a, b)
    requires InBounds(Matmul3Shape(a, b), idx)
  {
    Dot(ring, MatRow(a, Broadcast(a.shape[0], idx[0]), idx[1]),
              MatColumn(b, Broadcast(b.shape[0], idx[0]), idx[2]))
  }

  /** `torch.matmul(a, b)` on 3-D operands (a batch of matrices each). */
  function Matmul3<T>(ring: Ring<T>, a: Tensor<T>, b: Tensor<T>): (r: Option<Tensor<T>>)
    requires a.Valid() && b.Valid()
    ensures r.Some? <==> Matmul3Defined(a, b)
    ensures r.Some? ==> r.value.Valid() && r.value.shape == Matmul3Shape(a, b)
  {
    if !Matmul3Defined(a, b) then None
    else
      var ns := Matmul3Shape(a, b);
      Some(Tensor(ns, seq(Size(ns), o requires 0 <= o < Size(ns) =>
        Matmul3Element(ring, a, b, Unravel(ns, o)))))
  }

  /** With equal batch extents, matrix `x` of the product pairs matrix `x`
      of `a` with matrix `x` of `b`. */
  lemma Matmul3At<T>(ring: Ring<T>, a: Tensor<T>, b: Tensor<T>, x: nat, i: nat, j: nat)
    requires a.Valid() && b.Valid() && Matmul3Defined(a, b) && a.shape[0] == b.shape[0]
    requires x < a.shape[0] && i < a.shape[1] && j < b.shape[2]
    ensures InBounds(Matmul3Shape(a, b), [x, i, j])
    ensures Matmul3(ring, a, b).value.At([x, i, j]) == Dot(ring, MatRow(a, x, i), MatColumn(b, x, j))
  {
    UnravelOffset(Matmul3Shape(a, b), [x, i, j]);
  }

  /** Row `i` of matrix `[x1, x2]` of a 4-D operand. */
  function MatRow4<T>(a: Tensor<T>, x1: nat, x2: nat, i: nat): (row: seq<T>)
    requires a.Valid() && |a.shape| == 4 && x1 < a.shape[0] && x2 < a.shape[1] && i < a.shape[2]
    ensures |row| == a.shape[3]
  {
    seq(a.shape[3], t requires 0 <= t < a.shape[3] => a.At([x1, x2, i, t]))
  }

  /** Column `j` of matrix `[x1, x2]` of a 4-D operand. */
  function MatColumn4<T>(b: Tensor<T>, x1: nat, x2: nat, j: nat): (column: seq<T>)
    requires b.Valid() && |b.shape| == 4 && x1 < b.shape[0] && x2 < b.shape[1] && j < b.shape[3]
    ensures |column| == b.shape[2]
  {
    seq(b.shape[2], t requires 0 <= t < b.shape[2] => b.At([x1, x2, t, j]))
  }

  predicate Matmul4Defined<T>(a: Tensor<T>, b: Tensor<T>)
  {
    |a.shape| == 4 && |b.shape| == 4 && a.shape[0] == b.shape[0] && a.shape[1] == b.shape[1]
    && a.shape[3] == b.shape[2]
  }

  function Matmul4Shape<T>(a: Tensor<T>, b: Tensor<T>): seq<nat>
    requires Matmul4Defined(a, b)
  {
    [a.shape[0], a.shape[1], a.shape[2], b.shape[3]]
  }

  /** `torch.matmul(a, b)` on 4-D operands with the same two batch extents:
      matrix `[x1, x2]` of the product is the product of the matrices
      `[x1, x2]` of the operands. */
  function Matmul4<T>(ring: Ring<T>, a: Tensor<T>, b: Tensor<T>): (r: Option<Tensor<T>>)
    requires a.Valid() && b.Valid()
    ensures r.Some? <==> Matmul4Defined(a, b)
    ensures r.Some? ==> r.value.Valid() && r.value.shape == Matmul4Shape(a, b)
  {
    if !Matmul4Defined(a, b) then None
    else
      var ns := Matmul4Shape(a, b);
      Some(Tensor(ns, seq(Size(ns), o requires 0 <= o < Size(ns) =>
        var idx := Unravel(ns, o);
        Dot(ring, MatRow4(a, idx[0], idx[1], idx[2]), MatColumn4(b, idx[0], idx[1], idx[3])))))
  }

  /** `(a @ b)[x1][x2][i][j] = sum_t a[x1][x2][i][t] * b[x1][x2][t][j]`. */
  lemma Matmul4At<T>(ring: Ring<T>, a: Tensor<T>, b: Tensor<T>, x1: nat, x2: nat, i: nat, j: nat)
    requires a.Valid() && b.Valid() && Matmul4Defined(a, b)
    requires x1 < a.shape[0] && x2 < a.shape[1] && i < a.shape[2] && j < b.shape[3]
    ensures InBounds(Matmul4Shape(a, b), [x1, x2, i, j])
    ensures Matmul4(ring, a, b).value.At([x1, x2, i, j])
            == Dot(ring, MatRow4(a, x1, x2, i), MatColumn4(b, x1, x2, j))
  {
    UnravelOffset(Matmul4Shape(a, b), [x1, x2, i, j]);
  }

  // ---------------------------------------------------------------- row-wise normalisation

  /** The line of a 3-D tensor along dimension 1 through `[x, _, c]`. */
  function Dim1Line<T>(t: Tensor<T>, x: nat, c: nat): (line: seq<T>)
    requires t.Valid() && |t.shape| == 3 && x < t.shape[0] && c < t.shape[2]
    ensures |line| == t.shape[1]
  {
    seq(t.shape[1], j requires 0 <= j < t.shape[1] => t.At([x, j, c]))
  }

  /** `torch.softmax(t, dim=1)` on a 3-D tensor, with the numeric part left
      abstract: `prob(line, j)` is the `j`-th output of softmax over `line`.
      Each output element depends only on its own line. */
  function NormalizeDim1<T>(t: Tensor<T>, prob: (seq<T>, nat) -> T): (r: Tensor<T>)
    requires t.Valid() && |t.shape| == 3
    ensures r.Valid() && r.shape == t.shape
  {
    Tensor(t.shape, seq(Size(t.shape), o requires 0 <= o < Size(t.shape) =>
      var idx := Unravel(t.shape, o);
      prob(Dim1Line(t, idx[0], idx[2]), idx[1])))
  }

  lemma NormalizeDim1At<T>(t: Tensor<T>, prob: (seq<T>, nat) -> T, x: nat, j: nat, c: nat)
    requires t.Valid() && |t.shape| == 3
    requires x < t.shape[0] && j < t.shape[1] && c < t.shape[2]
    ensures InBounds(t.shape, [x, j, c])
    ensures NormalizeDim1(t, prob).At([x, j, c]) == prob(Dim1Line(t, x, c), j)
  {
    UnravelOffset(t.shape, [x, j, c]);
  }
}
