/** Shape of an image stack: a row-major buffer whose last two dimensions are
    the height and width of one image plane and whose leading dimensions are
    collapsed into a single image count. Also the index arithmetic shared by
    both kernels. */
module StackShape {

  /** Product of dimension sizes; 1 for no dimensions. */
  function Product(s: seq<nat>): nat
  {
    if s == [] then 1 else s[0] * Product(s[1..])
  }

  /** Rows of one image plane (`N` in the kernels). */
  function Height(dims: seq<nat>): nat
    requires |dims| >= 2
  {
    dims[|dims| - 2]
  }

  /** Columns of one image plane (`M` in the kernels). */
  function Width(dims: seq<nat>): nat
    requires |dims| >= 2
  {
    dims[|dims| - 1]
  }

  /** Number of images in the stack: the product of every dimension before
      the last two, hence 1 for a bare two-dimensional image. */
  function ImageCount(dims: seq<nat>): nat
    requires |dims| >= 2
  {
    Product(dims[..|dims| - 2])
  }

  /** The image count the kernels compute as written: they start from
      `dims[0]` and multiply in `dims[1] .. dims[ndims-3]`, so for two
      dimensions the result is the height. */
  function ImageCountAsWritten(dims: seq<nat>): nat
    requires |dims| >= 2
  {
    if |dims| == 2 then dims[0] else dims[0] * Product(dims[1..|dims| - 2])
  }

  lemma {:induction false} ProductAppend(a: seq<nat>, b: seq<nat>)
    ensures Product(a + b) == Product(a) * Product(b)
  {
    if a == [] {
      assert a + b == b;
    } else {
      assert (a + b)[1..] == a[1..] + b;
      ProductAppend(a[1..], b);
      assert Product(a + b) == a[0] * (Product(a[1..]) * Product(b));
    }
  }

  /** The stack invariant: image count times plane size is the number of
      elements of the whole buffer. */
  lemma StackSize(dims: seq<nat>)
    requires |dims| >= 2
    ensures ImageCount(dims) * (Height(dims) * Width(dims)) == Product(dims)
  {
    var k := |dims| - 2;
    assert dims == dims[..k] + [dims[k], dims[k + 1]];
    ProductAppend(dims[..k], [dims[k], dims[k + 1]]);
    assert [dims[k], dims[k + 1]][1..] == [dims[k + 1]];
    assert Product([dims[k + 1]]) == dims[k + 1];
  }

  /** With at least one leading dimension besides the first, the count as
      written is the intended one. */
  lemma AsWrittenAgrees(dims: seq<nat>)
    requires |dims| >= 3
    ensures ImageCountAsWritten(dims) == ImageCount(dims)
  {
    var k := |dims| - 2;
    assert dims[..k][1..] == dims[1..k];
  }

  /** For a bare two-dimensional image of height at least 2 and positive
      width, the count as written makes the rotation loop run past the end
      of the input buffer, and it differs from the intended count of 1. */
  lemma AsWrittenOverreads(dims: seq<nat>)
    requires |dims| == 2 && dims[0] >= 2 && dims[1] >= 1
    ensures ImageCount(dims) == 1
    ensures ImageCountAsWritten(dims) * (Height(dims) * Width(dims)) > Product(dims)
  {
    var h, w := dims[0], dims[1];
    assert dims[..0] == [];
    assert Product(dims) == h * w by {
      assert dims[1..] == [w];
      assert dims[1..][1..] == [];
      assert Product([]) == 1;
      assert Product([w]) == w * Product([]);
      assert Product(dims) == h * Product(dims[1..]);
    }
    assert h * (h * w) >= 2 * (h * w);
  }

  /** The loop of the kernels that collapses the leading dimensions, as
      written. */
  method CountImagesAsWritten(dims: seq<nat>) returns (nimages: nat)
    requires |dims| >= 2
    ensures nimages == ImageCountAsWritten(dims)
  {
    nimages := dims[0];
    var x := 1;
    while x < |dims| - 2
      invariant 1 <= x <= if |dims| > 2 then |dims| - 2 else 1
      invariant nimages == Product(dims[..x])
    {
      ProductAppend(dims[..x], [dims[x]]);
      assert dims[..x + 1] == dims[..x] + [dims[x]];
      nimages := nimages * dims[x];
      x := x + 1;
    }
    if |dims| > 2 {
      AsWrittenAgrees(dims);
    }
  }

  /** The same loop started from an empty product, as the kernels' callers
      evidently intend: it yields 1 for a bare two-dimensional image. */
  method CountImages(dims: seq<nat>) returns (nimages: nat)
    requires |dims| >= 2
    ensures nimages == ImageCount(dims)
    ensures nimages * (Height(dims) * Width(dims)) == Product(dims)
  {
    nimages := 1;
    var x := 0;
    while x < |dims| - 2
      invariant 0 <= x <= |dims| - 2
      invariant nimages == Product(dims[..x])
    {
      ProductAppend(dims[..x], [dims[x]]);
      assert dims[..x + 1] == dims[..x] + [dims[x]];
      nimages := nimages * dims[x];
      x := x + 1;
    }
    StackSize(dims);
  }

  /** Position `j` of image `i` lies inside a stack of `n` planes of `m`
      elements. */
  lemma StackIndexBound(i: nat, j: nat, n: nat, m: nat)
    requires i < n && j < m
    ensures i * m + j < n * m
  {
    assert i * m + j < i * m + m == (i + 1) * m;
    assert (i + 1) * m <= n * m;
  }

  /** Division by a positive divisor is determined by a quotient and a
      remainder in range. */
  lemma DivModUnique(x: nat, d: nat, q: nat, r: nat)
    requires 0 <= r < d && x == q * d + r
    ensures x / d == q && x % d == r
  {
    var q', r' := x / d, x % d;
    assert x == q' * d + r';
    if q' > q {
      MulMono(q + 1, q', d);
      assert false;
    } else if q' < q {
      MulMono(q' + 1, q, d);
      assert false;
    }
  }

  lemma MulMono(a: nat, b: nat, d: nat)
    requires a <= b
    ensures a * d <= b * d
  {
  }

  /** A position in a stack of `n` planes of `m` elements splits into an
      image below `n` and an offset below `m`. */
  lemma SplitIndex(k: nat, n: nat, m: nat)
    requires k < n * m
    ensures m > 0 && k / m < n && k % m < m
    ensures k == (k / m) * m + k % m
  {
  }
}
