/** Dense row-major tensors as ONNX Runtime's `DenseTensor<T>` lays them out, and the channel-planar fill. */
module Tensors {
  import opened Wrappers
  import opened Imaging

  datatype Tensor<T> = Tensor(dims: seq<nat>, data: seq<T>)

  function Product(dims: seq<nat>): nat {
    if |dims| == 0 then 1 else dims[0] * Product(dims[1..])
  }

  /** The buffer holds exactly one element per coordinate. */
  predicate Valid<T>(t: Tensor<T>) {
    |t.data| == Product(t.dims)
  }

  /** `t[i, j]`: None (an index exception) unless the tensor has rank 2 and each coordinate is inside its dimension. */
  function At2<T>(t: Tensor<T>, i: int, j: int): Option<T> {
    if |t.dims| == 2 && 0 <= i < t.dims[0] && 0 <= j < t.dims[1] && i * t.dims[1] + j < |t.data|
    then Some(t.data[i * t.dims[1] + j])
    else None
  }

  /** `t[i, j, k]` on a rank-3 tensor. */
  function At3<T>(t: Tensor<T>, i: int, j: int, k: int): Option<T> {
    if |t.dims| == 3 && 0 <= i < t.dims[0] && 0 <= j < t.dims[1] && 0 <= k < t.dims[2]
       && (i * t.dims[1] + j) * t.dims[2] + k < |t.data|
    then Some(t.data[(i * t.dims[1] + j) * t.dims[2] + k])
    else None
  }

  /** `t[i, j, k, l]` on a rank-4 tensor. */
  function At4<T>(t: Tensor<T>, i: int, j: int, k: int, l: int): Option<T> {
    if |t.dims| == 4 && 0 <= i < t.dims[0] && 0 <= j < t.dims[1] && 0 <= k < t.dims[2] && 0 <= l < t.dims[3]
       && ((i * t.dims[1] + j) * t.dims[2] + k) * t.dims[3] + l < |t.data|
    then Some(t.data[((i * t.dims[1] + j) * t.dims[2] + k) * t.dims[3] + l])
    else None
  }

  lemma MulLeft(a: int, b: int, m: nat)
    requires a <= b
    ensures a * m <= b * m
  {
  }

  /** Euclidean division recovers quotient and remainder of `q * m + r`. */
  lemma DivModOf(q: nat, r: nat, m: nat)
    requires r < m
    ensures (q * m + r) / m == q
    ensures (q * m + r) % m == r
  {
    var n := q * m + r;
    var q' := n / m;
    var r' := n % m;
    assert n == q' * m + r';
    if q' < q {
      MulLeft(q' + 1, q, m);
      assert false;
    } else if q' > q {
      MulLeft(q + 1, q', m);
      assert false;
    }
  }

  /** The offset of `[c, y, x]` in a C x H x W buffer lies inside it and decodes back to (c, y, x). */
  lemma {:induction false} PlanarOffset(c: nat, y: nat, x: nat, chans: nat, h: nat, w: nat)
    requires c < chans && y < h && x < w
    ensures (c * h + y) * w + x < chans * h * w
    ensures ((c * h + y) * w + x) % w == x
    ensures ((c * h + y) * w + x) / w == c * h + y
    ensures (((c * h + y) * w + x) / w) % h == y
    ensures (((c * h + y) * w + x) / w) / h == c
  {
    MulLeft(c + 1, chans, h);
    assert c * h + y < chans * h;
    MulLeft(c * h + y + 1, chans * h, w);
    DivModOf(c * h + y, x, w);
    DivModOf(c, y, h);
  }

  /** The value stored at flat offset `n` of the planar tensor of `img`. */
  function PlanarValue(img: Image, divisor: real, n: nat): real
    requires divisor != 0.0
  {
    if img.width == 0 || img.height == 0 then 0.0
    else
      var row := n / img.width;
      Channel(img.pixel(row % img.height, n % img.width), row / img.height) as real / divisor
  }

  lemma ProductOfThree(a: nat, b: nat, c: nat)
    ensures Product([a, b, c]) == a * b * c
  {
    assert [a, b, c][1..] == [b, c];
    assert [b, c][1..] == [c];
    assert [c][1..] == [];
    assert Product([c]) == c;
    assert Product([b, c]) == b * c;
  }

  /** Reading `[c, y, x]` of a planar buffer finds the channel value of pixel (y, x). */
  lemma PlanarRead(img: Image, divisor: real, t: Tensor<real>, c: nat, y: nat, x: nat)
    requires divisor != 0.0
    requires t.dims == [3, img.height, img.width]
    requires |t.data| == 3 * img.height * img.width
    requires forall n | 0 <= n < |t.data| :: t.data[n] == PlanarValue(img, divisor, n)
    requires c < 3 && y < img.height && x < img.width
    ensures At3(t, c, y, x) == Some(Channel(img.pixel(y, x), c) as real / divisor)
  {
    PlanarOffset(c, y, x, 3, img.height, img.width);
  }

  /** The `float[3, H, W]` filled by the per-row loops: `[c, y, x] = pixel(y, x)[c] / divisor`. */
  function Planar(img: Image, divisor: real): (t: Tensor<real>)
    requires divisor != 0.0
    ensures t.dims == [3, img.height, img.width] && Valid(t)
    ensures forall c: int, y: int, x: int | 0 <= c < 3 && 0 <= y < img.height && 0 <= x < img.width ::
              At3(t, c, y, x) == Some(Channel(img.pixel(y, x), c) as real / divisor)
  {
    var size := 3 * img.height * img.width;
    var t := Tensor([3, img.height, img.width], seq(size, n requires 0 <= n < size => PlanarValue(img, divisor, n)));
    ProductOfThree(3, img.height, img.width);
    forall c: int, y: int, x: int | 0 <= c < 3 && 0 <= y < img.height && 0 <= x < img.width
      ensures At3(t, c, y, x) == Some(Channel(img.pixel(y, x), c) as real / divisor)
    {
      PlanarRead(img, divisor, t, c, y, x);
    }
    t
  }

  /** `Reshape(new int[] {1, 3, H, W})`: the same buffer under a leading batch axis of one. */
  function WithBatchAxis<T>(t: Tensor<T>): (r: Tensor<T>)
    requires |t.dims| == 3
    ensures r.dims == [1] + t.dims && r.data == t.data
    ensures Valid(t) ==> Valid(r)
    ensures forall i: int, j: int, k: int | true :: At4(r, 0, i, j, k) == At3(t, i, j, k)
  {
    var r := Tensor([1] + t.dims, t.data);
    assert r.dims[1..] == t.dims;
    r
  }
}
