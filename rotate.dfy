/** The rotation kernel: every plane of a stack is turned by 90 degrees
    through one permutation map that sends each position of the rotated
    plane to its source position in the input plane. */
module Rotate {
  import opened StackShape

  /** Entry `i` of the map for an input plane of `N` rows and `M` columns.
      Position `i` of the rotated plane (which has `M` rows and `N` columns)
      reads the returned position of the input plane. `ccw` is the kernel's
      nonzero `sense`. */
  function MapEntry(N: nat, M: nat, ccw: bool, i: nat): (k: nat)
    requires i < N * M
    ensures k < N * M
  {
    PlaneIndexSplit(N, M, i);
    var a := if ccw then M - 1 - i / N else i / N;
    var b := if ccw then i % N else N - 1 - i % N;
    PlaneIndexBound(N, M, b, a);
    M * b + a
  }

  /** Position `i` of the rotated plane splits into a row below `M` and a
      column below `N`. */
  lemma PlaneIndexSplit(N: nat, M: nat, i: nat)
    requires i < N * M
    ensures N > 0 && i / N < M && i % N < N
  {
    SplitIndex(i, M, N);
  }

  /** Row `b`, column `a` of the input plane lies inside it. */
  lemma PlaneIndexBound(N: nat, M: nat, b: nat, a: nat)
    requires b < N && a < M
    ensures M * b + a < N * M
  {
    StackIndexBound(b, a, N, M);
  }

  /** The whole map for one plane. */
  function RotationMap(N: nat, M: nat, ccw: bool): seq<nat>
  {
    seq(N * M, i requires 0 <= i < N * M => MapEntry(N, M, ccw, i))
  }

  /** A sequence of positions that maps `[0, |m|)` one-to-one into itself. */
  ghost predicate IsPermutation(m: seq<nat>)
  {
    && (forall i :: 0 <= i < |m| ==> m[i] < |m|)
    && (forall i, j :: 0 <= i < j < |m| ==> m[i] != m[j])
  }

  /** The map read as geometry: with sense set, the pixel at row `r`, column
      `c` of the rotated plane is input pixel (`c`, `M-1-r`), a
      counter-clockwise turn; without it, input pixel (`N-1-c`, `r`), a
      clockwise turn. */
  lemma MapGeometry(N: nat, M: nat, r: nat, c: nat)
    requires r < M && c < N
    ensures r * N + c < N * M
    ensures MapEntry(N, M, true, r * N + c) == c * M + (M - 1 - r)
    ensures MapEntry(N, M, false, r * N + c) == (N - 1 - c) * M + r
  {
    StackIndexBound(r, c, M, N);
    DivModUnique(r * N + c, N, r, c);
  }

  /** The two senses undo each other: rotating the `M`-row plane one way and
      the result the other way lands every position where it started. */
  lemma MapInverse(N: nat, M: nat, ccw: bool, k: nat)
    requires k < M * N
    ensures MapEntry(N, M, ccw, MapEntry(M, N, !ccw, k)) == k
  {
    SplitIndex(k, N, M);
    var p, q := k / M, k % M;
    assert k == p * M + q;
    MapGeometry(M, N, p, q);
    if ccw {
      var j := (M - 1 - q) * N + p;
      assert MapEntry(M, N, false, k) == j;
      MapGeometry(N, M, M - 1 - q, p);
      assert MapEntry(N, M, true, j) == p * M + q;
    } else {
      var j := q * N + (N - 1 - p);
      assert MapEntry(M, N, true, k) == j;
      MapGeometry(N, M, q, N - 1 - p);
      assert MapEntry(N, M, false, j) == p * M + q;
    }
  }

  /** No two positions of the rotated plane read the same source position. */
  lemma MapInjective(N: nat, M: nat, ccw: bool, i: nat, j: nat)
    requires i < N * M && j < N * M
    requires MapEntry(N, M, ccw, i) == MapEntry(N, M, ccw, j)
    ensures i == j
  {
    MapInverse(M, N, !ccw, i);
    MapInverse(M, N, !ccw, j);
  }

  /** Every source position is read by some position of the rotated plane. */
  lemma MapSurjective(N: nat, M: nat, ccw: bool, k: nat)
    requires k < N * M
    ensures exists i: nat :: i < N * M && MapEntry(N, M, ccw, i) == k
  {
    MapInverse(N, M, ccw, k);
    var i := MapEntry(M, N, !ccw, k);
    assert i < N * M && MapEntry(N, M, ccw, i) == k;
  }

  /** For both senses the map is a permutation of one plane. */
  lemma RotationMapIsPermutation(N: nat, M: nat, ccw: bool)
    ensures |RotationMap(N, M, ccw)| == N * M
    ensures IsPermutation(RotationMap(N, M, ccw))
  {
    var m := RotationMap(N, M, ccw);
    forall i, j | 0 <= i < j < |m|
      ensures m[i] != m[j]
    {
      if m[i] == m[j] {
        MapInjective(N, M, ccw, i, j);
      }
    }
  }

  /** One plane of `N` rows and `M` columns, rotated: `M` rows, `N` columns. */
  function RotatePlane<T>(p: seq<T>, N: nat, M: nat, ccw: bool): (r: seq<T>)
    requires |p| == N * M
  {
    seq(N * M, i requires 0 <= i < N * M => p[MapEntry(N, M, ccw, i)])
  }

  /** Image `k` of a stack of planes of `imsize` elements. */
  function Image<T>(s: seq<T>, imsize: nat, k: nat): seq<T>
    requires (k + 1) * imsize <= |s|
  {
    s[k * imsize..(k + 1) * imsize]
  }

  lemma ImageLength<T>(s: seq<T>, imsize: nat, k: nat)
    requires (k + 1) * imsize <= |s|
    ensures |Image(s, imsize, k)| == imsize
  {
    assert (k + 1) * imsize == k * imsize + imsize;
  }

  lemma ImageAt<T>(s: seq<T>, imsize: nat, k: nat, t: nat)
    requires (k + 1) * imsize <= |s| && t < imsize
    ensures k * imsize + t < |s| && |Image(s, imsize, k)| == imsize
    ensures Image(s, imsize, k)[t] == s[k * imsize + t]
  {
    ImageLength(s, imsize, k);
  }

  /** The whole stack after the map is applied position by position: output
      position `n` reads the input image `n / imsize` at the map entry for
      `n % imsize`. */
  function RotateStack<T>(s: seq<T>, nimages: nat, N: nat, M: nat, ccw: bool): (r: seq<T>)
    requires |s| == nimages * (N * M)
    ensures |r| == |s|
  {
    var imsize := N * M;
    if imsize == 0 then s
    else
      seq(|s|, n requires 0 <= n < |s| =>
        SplitIndex(n, nimages, imsize);
        StackIndexBound(n / imsize, MapEntry(N, M, ccw, n % imsize), nimages, imsize);
        s[imsize * (n / imsize) + MapEntry(N, M, ccw, n % imsize)])
  }

  /** Rotating a plane one way and then the other reproduces it. */
  lemma RotatePlaneRoundTrip<T>(p: seq<T>, N: nat, M: nat, ccw: bool)
    requires |p| == N * M
    ensures RotatePlane(RotatePlane(p, N, M, ccw), M, N, !ccw) == p
  {
    var r1 := RotatePlane(p, N, M, ccw);
    var r2 := RotatePlane(r1, M, N, !ccw);
    forall k | 0 <= k < |p|
      ensures r2[k] == p[k]
    {
      MapInverse(N, M, ccw, k);
    }
  }

  /** Position `t` of output image `k` reads position `MapEntry(t)` of input
      image `k`. */
  lemma RotateStackAt<T>(s: seq<T>, nimages: nat, N: nat, M: nat, ccw: bool, k: nat, t: nat)
    requires |s| == nimages * (N * M) && k < nimages && t < N * M
    ensures k * (N * M) + t < |s| && k * (N * M) + MapEntry(N, M, ccw, t) < |s|
    ensures RotateStack(s, nimages, N, M, ccw)[k * (N * M) + t]
            == s[k * (N * M) + MapEntry(N, M, ccw, t)]
  {
    var imsize := N * M;
    var e := MapEntry(N, M, ccw, t);
    StackIndexBound(k, t, nimages, imsize);
    StackIndexBound(k, e, nimages, imsize);
    DivModUnique(k * imsize + t, imsize, k, t);
    assert imsize * k == k * imsize;
  }

  /** Output image `k` is the rotation of input image `k` alone: it draws
      from no other image. */
  lemma RotateStackImage<T>(s: seq<T>, nimages: nat, N: nat, M: nat, ccw: bool, k: nat)
    requires |s| == nimages * (N * M) && k < nimages
    ensures (k + 1) * (N * M) <= |s|
    ensures Image(RotateStack(s, nimages, N, M, ccw), N * M, k)
            == RotatePlane(Image(s, N * M, k), N, M, ccw)
  {
    var imsize := N * M;
    MulMono(k + 1, nimages, imsize);
    var r := RotateStack(s, nimages, N, M, ccw);
    var lhs := Image(r, imsize, k);
    var img := Image(s, imsize, k);
    var rhs := RotatePlane(img, N, M, ccw);
    ImageLength(s, imsize, k);
    ImageLength(r, imsize, k);
    forall t | 0 <= t < imsize
      ensures lhs[t] == rhs[t]
    {
      RotateStackAt(s, nimages, N, M, ccw, k, t);
      var e := MapEntry(N, M, ccw, t);
      ImageAt(r, imsize, k, t);
      ImageAt(s, imsize, k, e);
    }
    assert lhs == rhs;
  }

  /** Identical input images give identical rotated images. */
  lemma RotateStackUniform<T>(s: seq<T>, nimages: nat, N: nat, M: nat, ccw: bool, k1: nat, k2: nat)
    requires |s| == nimages * (N * M) && k1 < nimages && k2 < nimages
    requires (k1 + 1) * (N * M) <= |s| && (k2 + 1) * (N * M) <= |s|
    requires Image(s, N * M, k1) == Image(s, N * M, k2)
    ensures Image(RotateStack(s, nimages, N, M, ccw), N * M, k1)
            == Image(RotateStack(s, nimages, N, M, ccw), N * M, k2)
  {
    RotateStackImage(s, nimages, N, M, ccw, k1);
    RotateStackImage(s, nimages, N, M, ccw, k2);
  }

  /** Rotating the whole stack one way and then the other reproduces it. */
  lemma RotateStackRoundTrip<T>(s: seq<T>, nimages: nat, N: nat, M: nat, ccw: bool)
    requires |s| == nimages * (N * M)
    ensures RotateStack(RotateStack(s, nimages, N, M, ccw), nimages, M, N, !ccw) == s
  {
    var imsize := N * M;
    assert M * N == imsize;
    var r1 := RotateStack(s, nimages, N, M, ccw);
    var r2 := RotateStack(r1, nimages, M, N, !ccw);
    forall n | 0 <= n < |s|
      ensures r2[n] == s[n]
    {
      SplitIndex(n, nimages, imsize);
      var k, t := n / imsize, n % imsize;
      var u := MapEntry(M, N, !ccw, t);
      RotateStackAt(r1, nimages, M, N, !ccw, k, t);
      RotateStackAt(s, nimages, N, M, ccw, k, u);
      MapInverse(N, M, ccw, t);
    }
  }

  /** Two quarter turns in the same sense send row `r`, column `c` of an
      `N`-row, `M`-column plane to row `N-1-r`, column `M-1-c`: a half turn,
      whichever the sense. */
  lemma HalfTurn(N: nat, M: nat, ccw: bool, r: nat, c: nat)
    requires r < N && c < M
    ensures r * M + c < N * M
    ensures MapEntry(N, M, ccw, MapEntry(M, N, ccw, r * M + c)) == (N - 1 - r) * M + (M - 1 - c)
  {
    MapGeometry(M, N, r, c);
    if ccw {
      MapGeometry(N, M, c, N - 1 - r);
    } else {
      MapGeometry(N, M, M - 1 - c, r);
    }
  }

  /** Position `i` of an `N`-row, `M`-column plane turned by half a turn. */
  function Opposite(N: nat, M: nat, i: nat): (j: nat)
    requires i < N * M
    ensures j < N * M
  {
    SplitIndex(i, N, M);
    StackIndexBound(N - 1 - i / M, M - 1 - i % M, N, M);
    (N - 1 - i / M) * M + (M - 1 - i % M)
  }

  lemma OppositeInvolution(N: nat, M: nat, i: nat)
    requires i < N * M
    ensures Opposite(N, M, Opposite(N, M, i)) == i
  {
    SplitIndex(i, N, M);
    var r, c := i / M, i % M;
    DivModUnique(Opposite(N, M, i), M, N - 1 - r, M - 1 - c);
  }

  /** Two quarter turns of a plane in the same sense are a half turn. */
  lemma TwoQuarterTurns<T>(p: seq<T>, N: nat, M: nat, ccw: bool, i: nat)
    requires |p| == N * M && i < N * M
    ensures |RotatePlane(RotatePlane(p, N, M, ccw), M, N, ccw)| == N * M
    ensures RotatePlane(RotatePlane(p, N, M, ccw), M, N, ccw)[i] == p[Opposite(N, M, i)]
  {
    SplitIndex(i, N, M);
    HalfTurn(N, M, ccw, i / M, i % M);
  }

  /** Four quarter turns in the same sense reproduce the plane. */
  lemma RotatePlaneFullTurn<T>(p: seq<T>, N: nat, M: nat, ccw: bool)
    requires |p| == N * M
    ensures RotatePlane(RotatePlane(RotatePlane(RotatePlane(p, N, M, ccw), M, N, ccw), N, M, ccw), M, N, ccw) == p
  {
    var p2 := RotatePlane(RotatePlane(p, N, M, ccw), M, N, ccw);
    var p4 := RotatePlane(RotatePlane(p2, N, M, ccw), M, N, ccw);
    forall i | 0 <= i < |p|
      ensures p4[i] == p[i]
    {
      TwoQuarterTurns(p2, N, M, ccw, i);
      TwoQuarterTurns(p, N, M, ccw, Opposite(N, M, i));
      OppositeInvolution(N, M, i);
    }
  }

  /** A worked example: the 2x2 plane 1 2 / 3 4 turned
      clockwise is 3 1 / 4 2, and counter-clockwise 2 4 / 1 3. */
  lemma SmallPlaneExample()
    ensures RotatePlane([1, 2, 3, 4], 2, 2, false) == [3, 1, 4, 2]
    ensures RotatePlane([1, 2, 3, 4], 2, 2, true) == [2, 4, 1, 3]
  {
    MapGeometry(2, 2, 0, 0);
    MapGeometry(2, 2, 0, 1);
    MapGeometry(2, 2, 1, 0);
    MapGeometry(2, 2, 1, 1);
  }

  /** The first loop of `rotate90`: one map entry per position of the
      rotated plane. */
  method BuildMap(N: nat, M: nat, ccw: bool) returns (m: array<nat>)
    ensures fresh(m) && m[..] == RotationMap(N, M, ccw)
    ensures m.Length == N * M && forall t :: 0 <= t < m.Length ==> m[t] == MapEntry(N, M, ccw, t)
  {
    var imsize := N * M;
    m := new nat[imsize];
    var i := 0;
    while i < imsize
      invariant 0 <= i <= imsize
      invariant forall t :: 0 <= t < i ==> m[t] == MapEntry(N, M, ccw, t)
    {
      PlaneIndexSplit(N, M, i);
      var a, b;
      if ccw {
        a := M - 1 - i / N;
        b := i % N;
      } else {
        a := i / N;
        b := N - 1 - i % N;
      }
      assert M * b + a == MapEntry(N, M, ccw, i);
      m[i] := M * b + a;
      i := i + 1;
    }
    assert m[..] == RotationMap(N, M, ccw);
  }

  /** The second loop of `rotate90`: output position `n` receives the input
      element of image `n / imsize` that the map names for `n % imsize`. */
  method ApplyMap<T>(input: array<T>, output: array<T>, m: array<nat>, nimages: nat, N: nat, M: nat, ccw: bool)
    requires input.Length == nimages * (N * M) && output.Length == input.Length
    requires m.Length == N * M && forall t :: 0 <= t < m.Length ==> m[t] == MapEntry(N, M, ccw, t)
    requires input != output && m as object != output
    modifies output
    ensures output[..] == RotateStack(input[..], nimages, N, M, ccw)
  {
    var imsize := N * M;
    ghost var want := RotateStack(input[..], nimages, N, M, ccw);
    var n := 0;
    while n < nimages * imsize
      invariant 0 <= n <= nimages * imsize
      invariant forall t :: 0 <= t < n ==> output[t] == want[t]
      invariant forall t :: n <= t < output.Length ==> output[t] == old(output[t])
    {
      SplitIndex(n, nimages, imsize);
      var t := n % imsize;
      assert t < m.Length;
      var e := m[t];
      assert e == MapEntry(N, M, ccw, t);
      assert e < imsize;
      StackIndexBound(n / imsize, e, nimages, imsize);
      output[n] := input[imsize * (n / imsize) + e];
      assert output[n] == want[n];
      n := n + 1;
    }
    assert output[..] == want;
  }

  /** `rotate90`: build the map for one plane, then fill every output
      position from the input through it. When the map cannot be allocated
      the kernel returns without touching the output. */
  method Rotate90<T>(input: array<T>, output: array<T>, dims: seq<nat>, sense: int, mapAllocated: bool)
    requires |dims| >= 2
    requires input.Length == ImageCount(dims) * (Height(dims) * Width(dims))
    requires output.Length == input.Length
    requires input != output
    modifies output
    ensures !mapAllocated ==> output[..] == old(output[..])
    ensures mapAllocated ==>
      output[..] == RotateStack(input[..], ImageCount(dims), Height(dims), Width(dims), sense != 0)
  {
    var nimages := CountImages(dims);
    var M := dims[|dims| - 1];
    var N := dims[|dims| - 2];
    var imsize := N * M;
    if !mapAllocated {
      return;
    }
    var ccw := sense != 0;

    var m := BuildMap(N, M, ccw);

    ApplyMap(input, output, m, nimages, N, M, ccw);
  }
}
