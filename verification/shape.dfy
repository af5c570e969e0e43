/** The array-shape operations the transform performs: `itertools.chain`
    flattening a list of vectors into one flat list, and numpy's
    `reshape(flat, (rows, -1))` cutting a flat list back into rows of equal
    width. Arrays are sequences of sequences. */
module Shape {

  import opened Wrappers

  /** The concatenation of the vectors of `vs`, in order. A value occurs in
      it exactly when it occurs in one of the vectors. */
  function Flatten<T(!new)>(vs: seq<seq<T>>): (r: seq<T>)
    ensures forall x :: x in r <==> exists i :: 0 <= i < |vs| && x in vs[i]
  {
    if vs == [] then []
    else
      var rest := Flatten(vs[1..]);
      assert forall i :: 1 <= i < |vs| ==> vs[i] == vs[1..][i - 1];
      vs[0] + rest
  }

  /** Every vector of `vs` has `w` entries. */
  predicate Uniform<T>(vs: seq<seq<T>>, w: nat)
  {
    forall i :: 0 <= i < |vs| ==> |vs[i]| == w
  }

  /** `k` consecutive rows of width `w` cut from `flat`. */
  function Chunks<T>(flat: seq<T>, w: nat, k: nat): (r: seq<seq<T>>)
    requires |flat| == k * w
    ensures |r| == k
    ensures Uniform(r, w)
    decreases k
  {
    if k == 0 then []
    else
      assert |flat| == (k - 1) * w + w;
      [flat[..w]] + Chunks(flat[w..], w, k - 1)
  }

  /** numpy's reshape to `(rows, -1)`: the width is inferred as
      `|flat| / rows`. numpy refuses when it cannot infer a width: when
      `rows` is 0 (even for an empty array) or does not divide the size. */
  function Reshape<T>(flat: seq<T>, rows: nat): (r: Option<seq<seq<T>>>)
    ensures r.Some? <==> rows > 0 && |flat| % rows == 0
    ensures r.Some? ==> |r.value| == rows && Uniform(r.value, |flat| / rows)
  {
    if rows == 0 || |flat| % rows != 0 then None
    else
      var w := |flat| / rows;
      assert |flat| == rows * w;
      Some(Chunks(flat, w, rows))
  }

  /** A flat sequence of `rows * w` values always reshapes into exactly
      `rows` rows of width `w` when there is at least one row. */
  lemma ReshapeExact<T>(flat: seq<T>, rows: nat, w: nat)
    requires |flat| == rows * w
    requires rows > 0
    ensures Reshape(flat, rows).Some?
    ensures |Reshape(flat, rows).value| == rows
    ensures Uniform(Reshape(flat, rows).value, w)
  {
    assert |flat| / rows == w by {
      DivExact(rows, w);
    }
  }

  lemma DivExact(rows: nat, w: nat)
    requires rows > 0
    ensures (rows * w) / rows == w
    ensures (rows * w) % rows == 0
  {
    var q, m := (rows * w) / rows, (rows * w) % rows;
    assert rows * w == rows * q + m && 0 <= m < rows;
    MulGap(rows, q, w);
    MulGap(rows, w, q);
  }

  /** Multiples of a positive `a` are at least `a` apart. */
  lemma MulGap(a: nat, x: nat, y: nat)
    ensures x < y ==> a * y >= a * x + a
  {
    if x < y {
      var d := y - x;
      assert a * y == a * x + a * d;
      MulAtLeast(a, d);
    }
  }

  lemma MulAtLeast(a: nat, b: nat)
    requires b >= 1
    ensures a * b >= a
  {
  }

  /** The length of a flattening of uniform vectors. */
  lemma {:induction false} FlattenUniformLength<T(!new)>(vs: seq<seq<T>>, w: nat)
    requires Uniform(vs, w)
    ensures |Flatten(vs)| == |vs| * w
  {
    if vs != [] {
      FlattenUniformLength(vs[1..], w);
      assert |vs| * w == w + (|vs| - 1) * w;
    }
  }

  /** Cutting a flat sequence into rows and flattening them gives the flat
      sequence back. */
  lemma {:induction false} FlattenChunks<T(!new)>(flat: seq<T>, w: nat, k: nat)
    requires |flat| == k * w
    ensures Flatten(Chunks(flat, w, k)) == flat
    decreases k
  {
    if k > 0 {
      assert |flat| == (k - 1) * w + w;
      var r := Chunks(flat, w, k);
      assert r[1..] == Chunks(flat[w..], w, k - 1);
      FlattenChunks(flat[w..], w, k - 1);
      assert flat == flat[..w] + flat[w..];
    }
  }

  /** Flattening uniform rows and cutting them again gives the rows back. */
  lemma {:induction false} ChunksFlatten<T(!new)>(vs: seq<seq<T>>, w: nat)
    requires Uniform(vs, w)
    ensures |Flatten(vs)| == |vs| * w
    ensures Chunks(Flatten(vs), w, |vs|) == vs
  {
    FlattenUniformLength(vs, w);
    if vs != [] {
      FlattenUniformLength(vs[1..], w);
      ChunksFlatten(vs[1..], w);
      var f := Flatten(vs);
      assert f[..w] == vs[0];
      assert f[w..] == Flatten(vs[1..]);
      assert vs == [vs[0]] + vs[1..];
    }
  }

  /** Reshape round trip: a successful reshape loses nothing. */
  lemma FlattenReshape<T(!new)>(flat: seq<T>, rows: nat)
    requires Reshape(flat, rows).Some?
    ensures Flatten(Reshape(flat, rows).value) == flat
  {
    var w := |flat| / rows;
    assert |flat| == rows * w;
    FlattenChunks(flat, w, rows);
  }

  /** Reshape round trip the other way: at least one row, all of width `w`,
      flattened and reshaped to the same row count, come back unchanged. */
  lemma ReshapeFlatten<T(!new)>(vs: seq<seq<T>>, w: nat)
    requires |vs| > 0
    requires Uniform(vs, w)
    ensures Reshape(Flatten(vs), |vs|) == Some(vs)
  {
    ChunksFlatten(vs, w);
    DivExact(|vs|, w);
  }
}
