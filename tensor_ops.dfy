/**
 * The index utilities of the beam-search decoders: `batch_gather`, `torch.topk`
 * over one row, and `top_k_nd`, which flattens trailing dimensions, takes the
 * top k and decomposes each flat index back into coordinates.
 *
 * A `[Batch, Width]` tensor is a `seq<seq<T>>` (one inner sequence per batch row).
 */
module TensorOps {
  import opened Wrappers

  /** `t` is a rectangular `[rows, width]` tensor. */
  ghost predicate Rect<T>(t: seq<seq<T>>, rows: nat, width: nat)
  {
    |t| == rows && forall b :: 0 <= b < rows ==> |t[b]| == width
  }

  /** Every entry of `indices` row `b` is a valid slot of `values` row `b`, and the batch sizes agree. */
  ghost predicate IndicesInRange<T>(values: seq<seq<T>>, indices: seq<seq<nat>>)
  {
    && |indices| == |values|
    && forall b, i :: 0 <= b < |indices| && 0 <= i < |indices[b]| ==> indices[b][i] < |values[b]|
  }

  // ---------------------------------------------------------------------------
  // batch_gather
  // ---------------------------------------------------------------------------

  /**
   * `batch_gather(values, indices)` with one index dimension: output row `b`
   * picks, slot by slot, the entries of `values` row `b` named by `indices` row `b`.
   * The source asserts that both have the same batch size.
   */
  function BatchGather<T>(values: seq<seq<T>>, indices: seq<seq<nat>>): (out: seq<seq<T>>)
    requires IndicesInRange(values, indices)
    ensures |out| == |indices|
    ensures forall b :: 0 <= b < |out| ==> |out[b]| == |indices[b]|
    ensures forall b, i :: 0 <= b < |out| && 0 <= i < |out[b]| ==> out[b][i] == values[b][indices[b][i]]
  {
    seq(|indices|, b requires 0 <= b < |indices| =>
      seq(|indices[b]|, i requires 0 <= i < |indices[b]| => values[b][indices[b][i]]))
  }

  /** `batch_gather` with no index dimension of its own (`indices` of shape `[Batch]`): the squeezed case. */
  function BatchGatherScalar<T>(values: seq<seq<T>>, indices: seq<nat>): (out: seq<T>)
    requires |indices| == |values|
    requires forall b :: 0 <= b < |indices| ==> indices[b] < |values[b]|
    ensures |out| == |indices|
    ensures forall b :: 0 <= b < |out| ==> out[b] == values[b][indices[b]]
  {
    seq(|indices|, b requires 0 <= b < |indices| => values[b][indices[b]])
  }

  /** The squeezed case is the one-index case with the index dimension removed again. */
  lemma ScalarGatherIsSqueezedGather<T>(values: seq<seq<T>>, indices: seq<nat>)
    requires |indices| == |values|
    requires forall b :: 0 <= b < |indices| ==> indices[b] < |values[b]|
    ensures var col := seq(|indices|, b requires 0 <= b < |indices| => [indices[b]]);
            IndicesInRange(values, col) &&
            forall b :: 0 <= b < |indices| ==> BatchGather(values, col)[b] == [BatchGatherScalar(values, indices)[b]]
  {
  }

  /**
   * No cross-row mixing: row `b` of the output depends on nothing but row `b`
   * of `values` and row `b` of `indices`.
   */
  lemma {:induction false} GatherRowsIndependent<T>(values: seq<seq<T>>, indices: seq<seq<nat>>,
                                                    values': seq<seq<T>>, indices': seq<seq<nat>>, b: nat)
    requires IndicesInRange(values, indices) && IndicesInRange(values', indices')
    requires b < |values| && b < |values'|
    requires values[b] == values'[b] && indices[b] == indices'[b]
    ensures BatchGather(values, indices)[b] == BatchGather(values', indices')[b]
  {
    var r, r' := BatchGather(values, indices)[b], BatchGather(values', indices')[b];
    assert |r| == |r'|;
    forall i | 0 <= i < |r| ensures r[i] == r'[i] {
      assert r[i] == values[b][indices[b][i]];
    }
  }

  /**
   * Gathering twice is gathering once through the composed index map. This is what
   * makes backtracking through recorded backrefs well defined.
   */
  lemma GatherCompose<T>(values: seq<seq<T>>, first: seq<seq<nat>>, second: seq<seq<nat>>)
    requires IndicesInRange(values, first)
    requires IndicesInRange(first, second)
    ensures IndicesInRange(values, BatchGather(first, second))
    ensures BatchGather(BatchGather(values, first), second) == BatchGather(values, BatchGather(first, second))
  {
    var lhs := BatchGather(BatchGather(values, first), second);
    var rhs := BatchGather(values, BatchGather(first, second));
    forall b | 0 <= b < |lhs| ensures lhs[b] == rhs[b] {
      assert |lhs[b]| == |rhs[b]|;
    }
  }

  // ---------------------------------------------------------------------------
  // torch.topk on one row (largest, sorted)
  // ---------------------------------------------------------------------------

  ghost predicate Distinct(s: seq<nat>)
  {
    forall j, j' :: 0 <= j < j' < |s| ==> s[j] != s[j']
  }

  /**
   * `vals`/`idx` is a top-k of `xs`: k distinct positions, their values in
   * non-increasing order, and no position left out has a larger value than a
   * chosen one. Ties may be resolved in any order.
   */
  ghost predicate IsTopK(xs: seq<real>, k: nat, vals: seq<real>, idx: seq<nat>)
  {
    && |vals| == k && |idx| == k
    && (forall j :: 0 <= j < k ==> idx[j] < |xs| && vals[j] == xs[idx[j]])
    && Distinct(idx)
    && (forall j, j' :: 0 <= j < j' < k ==> vals[j] >= vals[j'])
    && (forall p, j :: 0 <= p < |xs| && p !in idx && 0 <= j < k ==> xs[p] <= vals[j])
  }

  /** The set of entries of `s`. */
  function Elems(s: seq<nat>): set<nat>
  {
    set x | x in s
  }

  lemma {:induction false} DistinctSetCard(s: seq<nat>)
    requires Distinct(s)
    ensures |Elems(s)| == |s|
  {
    if |s| > 0 {
      var rest := s[1..];
      DistinctSetCard(rest);
      assert s[0] !in rest;
      assert Elems(s) == Elems(rest) + {s[0]};
    }
  }

  /** The positions `0 .. n-1` in order. */
  function Iota(n: nat): (r: seq<nat>)
    ensures |r| == n && forall i :: 0 <= i < n ==> r[i] == i
  {
    seq(n, i requires 0 <= i < n => i)
  }

  lemma SubsetCard<X>(a: set<X>, b: set<X>)
    requires a <= b
    ensures |a| <= |b|
  {
    assert b == a + (b - a);
    assert a * (b - a) == {};
  }

  /** Pigeonhole: fewer than `n` distinct positions below `n` leave one out. */
  lemma UnchosenExists(idx: seq<nat>, n: nat)
    requires Distinct(idx) && |idx| < n
    requires forall j :: 0 <= j < |idx| ==> idx[j] < n
    ensures exists p :: 0 <= p < n && p !in idx
  {
    var used := Elems(idx);
    var all := Elems(Iota(n));
    DistinctSetCard(idx);
    DistinctSetCard(Iota(n));
    if forall p :: 0 <= p < n ==> p in idx {
      assert all <= used;
      SubsetCard(all, used);
      assert false;
    }
  }

  /** `torch.topk(xs, k, largest=True, sorted=True)`; the source raises when `k` exceeds the row width. */
  method TopK(xs: seq<real>, k: nat) returns (vals: seq<real>, idx: seq<nat>)
    requires k <= |xs|
    ensures IsTopK(xs, k, vals, idx)
  {
    vals, idx := [], [];
    while |idx| < k
      invariant |idx| <= k
      invariant IsTopK(xs, |idx|, vals, idx)
      decreases k - |idx|
    {
      UnchosenExists(idx, |xs|);
      var best: int := -1;
      var p := 0;
      while p < |xs|
        invariant 0 <= p <= |xs|
        invariant best == -1 ==> forall q :: 0 <= q < p ==> q in idx
        invariant best != -1 ==> 0 <= best < p && best !in idx
        invariant best != -1 ==> forall q :: 0 <= q < p && q !in idx ==> xs[q] <= xs[best]
      {
        if p !in idx && (best == -1 || xs[p] > xs[best]) {
          best := p;
        }
        p := p + 1;
      }
      if best == -1 {
        assert false;
      }
      vals := vals + [xs[best]];
      idx := idx + [best];
    }
  }

  // ---------------------------------------------------------------------------
  // top_k_nd: mixed-radix decomposition of a flat index
  // ---------------------------------------------------------------------------

  /** Number of entries of a tensor of shape `dims`. */
  function Product(dims: seq<nat>): nat
  {
    if dims == [] then 1 else dims[0] * Product(dims[1..])
  }

  /** Row-major flat index of `coords` in a tensor of shape `dims` (last dimension fastest). */
  function Ravel(coords: seq<nat>, dims: seq<nat>): nat
    requires |coords| == |dims|
  {
    if dims == [] then 0 else coords[0] * Product(dims[1..]) + Ravel(coords[1..], dims[1..])
  }

  ghost predicate InShape(coords: seq<nat>, dims: seq<nat>)
  {
    |coords| == |dims| && forall d :: 0 <= d < |dims| ==> coords[d] < dims[d]
  }

  lemma {:induction false} ProductPositive(dims: seq<nat>)
    requires forall d :: 0 <= d < |dims| ==> dims[d] > 0
    ensures Product(dims) > 0
  {
    if dims != [] {
      ProductPositive(dims[1..]);
    }
  }

  /** `q * m + r == q' * m + r'` with both remainders below `m` fixes quotient and remainder. */
  lemma QuotientUnique(q: nat, r: nat, q': nat, r': nat, m: nat)
    requires r < m && r' < m
    requires q * m + r == q' * m + r'
    ensures q == q' && r == r'
  {
    if q < q' {
      MulStep(q, q' - q, m);
    } else if q' < q {
      MulStep(q', q - q', m);
    }
  }

  lemma MulStep(a: nat, d: nat, m: nat)
    requires d >= 1
    ensures (a + d) * m >= a * m + m
  {
    assert (a + d) * m == a * m + d * m;
  }

  /** Coordinates inside the shape have a flat index inside the tensor. */
  lemma {:induction false} RavelBound(coords: seq<nat>, dims: seq<nat>)
    requires InShape(coords, dims)
    ensures Ravel(coords, dims) < Product(dims)
  {
    if dims != [] {
      RavelBound(coords[1..], dims[1..]);
      var p := Product(dims[1..]);
      assert coords[0] * p + Ravel(coords[1..], dims[1..]) < (coords[0] + 1) * p <= dims[0] * p;
    }
  }

  /** Distinct in-shape coordinates have distinct flat indices. */
  lemma {:induction false} RavelInjective(c: seq<nat>, c': seq<nat>, dims: seq<nat>)
    requires InShape(c, dims) && InShape(c', dims)
    requires Ravel(c, dims) == Ravel(c', dims)
    ensures c == c'
  {
    if dims != [] {
      RavelBound(c[1..], dims[1..]);
      RavelBound(c'[1..], dims[1..]);
      QuotientUnique(c[0], Ravel(c[1..], dims[1..]), c'[0], Ravel(c'[1..], dims[1..]), Product(dims[1..]));
      RavelInjective(c[1..], c'[1..], dims[1..]);
      assert c == [c[0]] + c[1..];
      assert c' == [c'[0]] + c'[1..];
    }
  }

  lemma RavelPair(h: nat, v: nat, width: nat, vocab: nat)
    ensures Ravel([h, v], [width, vocab]) == h * vocab + v
  {
    assert [h, v][1..] == [v];
    assert [width, vocab][1..] == [vocab];
    assert [v][1..] == [] && [vocab][1..] == [];
    assert Product([vocab]) == vocab;
    assert Ravel([v], [vocab]) == v;
  }

  /** Prepending the coordinate of dimension `i` to the coordinates of the later dimensions. */
  lemma RavelFront(c: nat, coords: seq<nat>, dims: seq<nat>, i: nat)
    requires i < |dims| && |coords| == |dims| - i - 1
    ensures Product(dims[i..]) == dims[i] * Product(dims[i + 1..])
    ensures Ravel([c] + coords, dims[i..]) == c * Product(dims[i + 1..]) + Ravel(coords, dims[i + 1..])
  {
    assert dims[i..][1..] == dims[i + 1..];
    assert ([c] + coords)[1..] == coords;
  }

  lemma DivModRegroup(rest: nat, d: nat, p: nat, r: nat)
    requires d > 0
    ensures rest * p + r == (rest / d) * (d * p) + ((rest % d) * p + r)
  {
    var q, c := rest / d, rest % d;
    assert rest == q * d + c;
    assert rest * p == (q * d + c) * p == q * (d * p) + c * p;
  }

  /**
   * The index loop of `top_k_nd`, as the source evidently intends it: walking the
   * flattened dimensions from the last to the first, each coordinate is the
   * remainder modulo that dimension and the index is divided by it.
   */
  method UnravelIndex(flat: nat, dims: seq<nat>) returns (coords: seq<nat>)
    requires forall d :: 0 <= d < |dims| ==> dims[d] > 0
    ensures InShape(coords, dims)
    ensures flat < Product(dims) ==> Ravel(coords, dims) == flat
  {
    coords := [];
    var rest: nat := flat;
    var i := |dims|;
    while i > 0
      invariant 0 <= i <= |dims|
      invariant InShape(coords, dims[i..])
      invariant flat == rest * Product(dims[i..]) + Ravel(coords, dims[i..])
    {
      i := i - 1;
      var d := dims[i];
      var c := rest % d;
      var q := rest / d;
      RavelFront(c, coords, dims, i);
      DivModRegroup(rest, d, Product(dims[i + 1..]), Ravel(coords, dims[i + 1..]));
      coords := [c] + coords;
      rest := q;
    }
    assert dims[0..] == dims;
    assert flat == rest * Product(dims) + Ravel(coords, dims);
    if flat < Product(dims) && rest != 0 {
      MulStep(0, rest, Product(dims));
    }
  }

  /** A Python value of the source's index loop: a list of index tensors, or one index tensor. */
  datatype PyIndices = IndexList(items: seq<nat>) | IndexTensor(value: nat)

  /** `obj.insert(0, item)`: defined on lists; on a tensor the attribute lookup raises. */
  function PyInsertFront(obj: PyIndices, item: PyIndices): Result<PyIndices, string>
  {
    match obj
    case IndexList(items) =>
      (match item
       case IndexTensor(v) => Success(IndexList([v] + items))
       case IndexList(_) => Failure("TypeError"))
    case IndexTensor(_) => Failure("AttributeError: 'Tensor' object has no attribute 'insert'")
  }

  /**
   * The first pass of `top_k_nd`'s index loop as written: `indices_out` is rebound
   * to the remainder of the last dimension, and then `indices_out.insert(0, indices_out)`
   * looks up `insert` on that tensor.
   */
  function FirstPassAsWritten(flat: nat, dims: seq<nat>): Result<PyIndices, string>
    requires |dims| > 0 && dims[|dims| - 1] > 0
  {
    var indicesOut := IndexTensor(flat % dims[|dims| - 1]);
    PyInsertFront(indicesOut, indicesOut)
  }

  /**
   * As written, `top_k_nd` raises on its first pass for every non-empty list of
   * dimensions; with the list and the remainder kept in two variables, the same
   * pass yields the last coordinate, as `UnravelIndex` does.
   */
  lemma UnravelAsWrittenRaises(flat: nat, dims: seq<nat>)
    requires |dims| > 0 && dims[|dims| - 1] > 0
    ensures FirstPassAsWritten(flat, dims).Failure?
    ensures PyInsertFront(IndexList([]), IndexTensor(flat % dims[|dims| - 1]))
            == Success(IndexList([flat % dims[|dims| - 1]]))
  {
    var c := flat % dims[|dims| - 1];
    assert [c] + [] == [c];
  }

  // ---------------------------------------------------------------------------
  // top_k_nd over the two trailing dimensions [InBeam, Vocab] of one batch row
  // ---------------------------------------------------------------------------

  /** `source.flatten()` of a `[rows, vocab]` tensor: row-major concatenation. */
  function Flatten(src: seq<seq<real>>): seq<real>
  {
    if src == [] then [] else src[0] + Flatten(src[1..])
  }

  lemma {:induction false} FlattenAt(src: seq<seq<real>>, vocab: nat, h: nat, v: nat)
    requires forall r :: 0 <= r < |src| ==> |src[r]| == vocab
    requires h < |src| && v < vocab
    ensures |Flatten(src)| == |src| * vocab
    ensures h * vocab + v < |Flatten(src)| && Flatten(src)[h * vocab + v] == src[h][v]
  {
    FlattenLength(src, vocab);
    if h > 0 {
      FlattenAt(src[1..], vocab, h - 1, v);
      assert (h - 1) * vocab + v == h * vocab + v - vocab;
    }
  }

  lemma {:induction false} FlattenLength(src: seq<seq<real>>, vocab: nat)
    requires forall r :: 0 <= r < |src| ==> |src[r]| == vocab
    ensures |Flatten(src)| == |src| * vocab
  {
    if src != [] {
      FlattenLength(src[1..], vocab);
    }
  }

  /** Some of the `k` selected (beam, label) pairs is `(h, v)`. */
  ghost predicate PairChosen(beams: seq<nat>, labels: seq<nat>, h: nat, v: nat)
    requires |beams| == |labels|
  {
    exists j :: 0 <= j < |beams| && beams[j] == h && labels[j] == v
  }

  /**
   * `(vals, beams, labels)` is a top-k of the `[rows, vocab]` row `src` over both
   * dimensions together.
   */
  ghost predicate IsTopKNd(src: seq<seq<real>>, vocab: nat, k: nat, vals: seq<real>, beams: seq<nat>, labels: seq<nat>)
  {
    && |vals| == k && |beams| == k && |labels| == k
    && (forall j :: 0 <= j < k ==> beams[j] < |src| && labels[j] < vocab && labels[j] < |src[beams[j]]|)
    && (forall j :: 0 <= j < k ==> vals[j] == src[beams[j]][labels[j]])
    && (forall j, j' :: 0 <= j < j' < k ==> beams[j] != beams[j'] || labels[j] != labels[j'])
    && (forall j, j' :: 0 <= j < j' < k ==> vals[j] >= vals[j'])
    && (forall h, v, j :: 0 <= h < |src| && 0 <= v < vocab && 0 <= j < k && v < |src[h]| && !PairChosen(beams, labels, h, v)
          ==> src[h][v] <= vals[j])
  }

  /**
   * `top_k_nd(source, k, dim=[1, 2])` on one batch row: flatten `[InBeam, Vocab]`,
   * take the top k, and split each flat index into (beam, label) with the label
   * varying fastest.
   */
  method TopKNd(src: seq<seq<real>>, vocab: nat, k: nat) returns (vals: seq<real>, beams: seq<nat>, labels: seq<nat>)
    requires |src| > 0 && vocab > 0
    requires forall r :: 0 <= r < |src| ==> |src[r]| == vocab
    requires k <= |src| * vocab
    ensures IsTopKNd(src, vocab, k, vals, beams, labels)
  {
    var flat := Flatten(src);
    FlattenLength(src, vocab);
    var idx;
    vals, idx := TopK(flat, k);
    beams, labels := [], [];
    var dims := [|src|, vocab];
    var j := 0;
    while j < k
      invariant 0 <= j <= k
      invariant |beams| == j && |labels| == j
      invariant forall j' :: 0 <= j' < j ==> beams[j'] < |src| && labels[j'] < vocab
      invariant forall j' :: 0 <= j' < j ==> idx[j'] == beams[j'] * vocab + labels[j']
    {
      var coords := UnravelIndex(idx[j], dims);
      assert Product(dims) == |src| * vocab by {
        assert dims[1..] == [vocab];
        assert Product([vocab]) == vocab;
      }
      RavelPair(coords[0], coords[1], |src|, vocab);
      assert coords == [coords[0], coords[1]];
      beams := beams + [coords[0]];
      labels := labels + [coords[1]];
      j := j + 1;
    }
    TopKNdFromFlat(src, vocab, k, vals, idx, beams, labels);
  }

  /** The top-k of the flattened row, split into (beam, label) pairs, is a top-k over both dimensions. */
  lemma TopKNdFromFlat(src: seq<seq<real>>, vocab: nat, k: nat, vals: seq<real>, idx: seq<nat>,
                       beams: seq<nat>, labels: seq<nat>)
    requires vocab > 0
    requires forall r :: 0 <= r < |src| ==> |src[r]| == vocab
    requires IsTopK(Flatten(src), k, vals, idx)
    requires |beams| == k && |labels| == k
    requires forall j :: 0 <= j < k ==> beams[j] < |src| && labels[j] < vocab
    requires forall j :: 0 <= j < k ==> idx[j] == beams[j] * vocab + labels[j]
    ensures IsTopKNd(src, vocab, k, vals, beams, labels)
  {
    forall j | 0 <= j < k ensures vals[j] == src[beams[j]][labels[j]] {
      FlattenAt(src, vocab, beams[j], labels[j]);
    }
    forall j1, j2 | 0 <= j1 < j2 < k ensures beams[j1] != beams[j2] || labels[j1] != labels[j2] {
      assert idx[j1] != idx[j2];
    }
    forall h, v, j | 0 <= h < |src| && 0 <= v < vocab && 0 <= j < k && !PairChosen(beams, labels, h, v)
      ensures src[h][v] <= vals[j]
    {
      NotChosenPairIsBelow(src, vocab, k, vals, idx, beams, labels, h, v, j);
    }
  }

  lemma NotChosenPairIsBelow(src: seq<seq<real>>, vocab: nat, k: nat, vals: seq<real>, idx: seq<nat>,
                             beams: seq<nat>, labels: seq<nat>, h: nat, v: nat, j: nat)
    requires vocab > 0
    requires forall r :: 0 <= r < |src| ==> |src[r]| == vocab
    requires IsTopK(Flatten(src), k, vals, idx)
    requires |beams| == k && |labels| == k
    requires forall j :: 0 <= j < k ==> beams[j] < |src| && labels[j] < vocab
    requires forall j :: 0 <= j < k ==> idx[j] == beams[j] * vocab + labels[j]
    requires h < |src| && v < vocab && j < k && !PairChosen(beams, labels, h, v)
    ensures src[h][v] <= vals[j]
  {
    FlattenAt(src, vocab, h, v);
    var f := h * vocab + v;
    if f in idx {
      var m :| 0 <= m < k && idx[m] == f;
      QuotientUnique(h, v, beams[m], labels[m], vocab);
      assert PairChosen(beams, labels, h, v);
    }
  }

  /** `top_k_nd(source, k, dim=[1, 2])` on a `[Batch, InBeam, Vocab]` tensor: rows are processed independently. */
  method TopKNdBatch(src: seq<seq<seq<real>>>, width: nat, vocab: nat, k: nat)
    returns (vals: seq<seq<real>>, beams: seq<seq<nat>>, labels: seq<seq<nat>>)
    requires width > 0 && vocab > 0 && k <= width * vocab
    requires Rect(src, |src|, width)
    requires forall b, h :: 0 <= b < |src| && 0 <= h < width ==> |src[b][h]| == vocab
    ensures Rect(vals, |src|, k) && Rect(beams, |src|, k) && Rect(labels, |src|, k)
    ensures forall b :: 0 <= b < |src| ==> IsTopKNd(src[b], vocab, k, vals[b], beams[b], labels[b])
  {
    vals, beams, labels := [], [], [];
    var b := 0;
    while b < |src|
      invariant 0 <= b <= |src|
      invariant |vals| == b && |beams| == b && |labels| == b
      invariant forall b' :: 0 <= b' < b ==> IsTopKNd(src[b'], vocab, k, vals[b'], beams[b'], labels[b'])
    {
      var v, h, l := TopKNd(src[b], vocab, k);
      vals, beams, labels := vals + [v], beams + [h], labels + [l];
      b := b + 1;
    }
  }
}
