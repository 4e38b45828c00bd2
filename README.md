# Image-stack kernels of csxtools, modelled in Dafny

csxtools holds two C kernels that work on stacks of 2-D images. A stack is one
flat row-major buffer. Its last two dimensions are the height `N` and width `M`
of an image plane. All leading dimensions are multiplied together into an
image count.

- `rotate90` turns every plane of a stack by 90 degrees. It first builds a
  permutation map for one plane. Entry `i` is the input position that
  position `i` of the rotated plane reads. It then writes
  `out[n] = in[imsize*(n/imsize) + map[n%imsize]]` for every `n`. A nonzero
  `sense` turns counter-clockwise and zero turns clockwise. The output plane
  has `M` rows and `N` columns.
- `stackmean` is a NaN-aware reduction across the stack. Each worker of the
  thread team keeps a private sum and count per plane position. It adds every
  non-NaN sample of the images it is given. The private pairs are then folded
  into worker 0's in worker order. Finally the count and either the mean or the
  raw sum are written per position. A position with no valid sample gets mean
  0 and count 0 under normalisation. The status is 1 when a pointer table
  cannot be allocated, 2 when the cleanup loop finds a missing per-worker
  array, and 0 otherwise.

The project has three modules:

- `StackShape` (shape.dfy): the image count, the stack-size invariant and the
  index arithmetic both kernels share.
- `Rotate` (rotate.dfy): the map as a function (`MapEntry`), the map-building
  loop (`BuildMap`), the map-applying loop (`ApplyMap`) and the kernel
  (`Rotate90`). Alongside them are the permutation, inverse, per-image and
  round-trip lemmas.
- `StackMean` (stackmean.dfy): samples are `NaN | Val(real)`. Specification
  functions give the sequential count and sum (`ValidCount`, `ValidSum`), one
  worker's private count and sum (`WorkerCount`, `WorkerSum`) and their fold
  over workers (`MergedCount`, `MergedSum`). There are methods for the
  accumulation loop, the merge loop and the cleanup loop, plus the kernel
  `StackMeanKernel` with its output loop. The lemmas show that the merge
  equals the sequential pass for every split of images among workers.

The assignment of images to workers is an explicit parameter `owner`, where
`owner[i]` is the worker that handles image `i`. Each allocation that can fail
is a boolean parameter.

- The kernels use the intended image count, which is 1 for a bare 2-D image.
  They do not use the count as written, which is the height there (see
  Findings).
- `sense` is an `int` tested for nonzero, as in the code.

## Model

| member | source | states |
|---|---|---|
| `StackShape.StackSize` | src/image.c:46-54 | image count times plane size equals the number of elements of the whole shaped buffer |
| `StackShape.CountImages` | src/image.c:46-54 | the leading-dimension loop (corrected to start from an empty product) yields the product of all dimensions before the last two, and that count times the plane size is the buffer size |
| `StackShape.CountImagesAsWritten` | src/image.c:46-54 | the loop as written yields `dims[0]` times `dims[1..ndims-3]`, which is `dims[0]` when there are only two dimensions |
| `StackShape.AsWrittenAgrees` | src/image.c:46-54 | with three or more dimensions the count as written equals the intended product |
| `StackShape.AsWrittenOverreads` | src/image.c:46-54 | for a bare 2-D image of height at least 2, the intended count is 1, but the count as written times the plane size exceeds the buffer, so the copy loop at line 80 reads past the input |
| `Rotate.MapEntry` | src/image.c:65-76 | every map entry for a position below `N*M` lies in `[0, N*M)` |
| `Rotate.MapGeometry` | src/image.c:68-75 | with sense set, output pixel (r, c) reads input pixel (c, M-1-r), a counter-clockwise turn; without it, it reads input pixel (N-1-c, r), a clockwise turn |
| `Rotate.MapInverse` | src/image.c:68-75 | the map of one sense for an `N`x`M` plane, composed with the map of the other sense for the `M`x`N` plane, is the identity |
| `Rotate.MapInjective` | src/image.c:65-76 | two positions with the same map entry are the same position, in both senses |
| `Rotate.MapSurjective` | src/image.c:65-76 | every position of the input plane is the map entry of some position of the rotated plane |
| `Rotate.RotationMapIsPermutation` | src/image.c:65-76 | the whole map has `N*M` entries, all in range and pairwise distinct |
| `Rotate.BuildMap` | src/image.c:61-76 | the map-filling loop leaves a fresh array equal to the map for the given sense |
| `Rotate.ApplyMap` | src/image.c:78-85 | the copy loop leaves the output equal to the input with the map applied to each image |
| `Rotate.Rotate90` | src/image.c:45-88 | if the map allocation fails the output is unchanged; otherwise the output is the rotated stack for the image count, plane shape and sense |
| `Rotate.RotateStackAt` | src/image.c:80-85 | position `t` of output image `k` holds position `map[t]` of input image `k` |
| `Rotate.RotateStackImage` | src/image.c:80-85 | output image `k` is the rotation of input image `k` alone and draws from no other image |
| `Rotate.RotateStackUniform` | src/image.c:80-85 | identical input images give identical rotated images |
| `Rotate.RotatePlaneRoundTrip` | src/image.c:65-85 | rotating an `N`x`M` plane one way and the resulting `M`x`N` plane the other way reproduces it element for element |
| `Rotate.RotateStackRoundTrip` | src/image.c:65-85 | the same round trip holds for a whole stack |
| `Rotate.HalfTurn` | src/image.c:68-75 | two quarter turns in the same sense send row r, column c to row N-1-r, column M-1-c, whichever the sense |
| `Rotate.TwoQuarterTurns` | src/image.c:65-85 | two rotations of a plane in the same sense are a half turn of it |
| `Rotate.RotatePlaneFullTurn` | src/image.c:65-85 | four rotations in the same sense reproduce the plane |
| `Rotate.SmallPlaneExample` | src/image.c:65-85 | plane 1 2 / 3 4 becomes 3 1 / 4 2 clockwise and 2 4 / 1 3 counter-clockwise |
| `StackMean.ValidCountBound` | src/image.c:140-148 | the number of non-NaN samples at a position never exceeds the number of images |
| `StackMean.AllNaNPosition` | src/image.c:164-171 | a position that is NaN in every image has count 0 and sum 0, so it reports mean 0 and not NaN |
| `StackMean.MergedZero` | src/image.c:157-162 | the fold over any number of workers of accumulators that have seen no image is zero, the base case of the merge |
| `StackMean.MergedStep` | src/image.c:139-162 | one more image changes the folded count and sum by its sample exactly once, when its worker is among the folded ones |
| `StackMean.MergeIsSequential` | src/image.c:139-162 | folding the private accumulators of all workers gives the count and sum of one sequential pass over all images, for every assignment of images to workers |
| `StackMean.OutputPolicy` | src/image.c:164-176 | with `norm` and a positive count the mean times the count is the sum; with `norm` and count 0 the mean is 0; without `norm` the raw sum is written |
| `StackMean.ThreeImageExample` | src/image.c:139-176 | three 2x2 images whose first pixels are 1, NaN and 3 give count 2 and normalised mean 2 there |
| `StackMean.Accumulate` | src/image.c:120-152 | after the parallel region, worker `w`'s private sum and count at each position cover exactly the non-NaN samples of the images assigned to `w` |
| `StackMean.Merge` | src/image.c:156-162 | after the fold, worker 0's arrays hold the element-wise total of all workers' arrays, and the arrays of workers 1 onwards are unchanged |
| `StackMean.ReleaseWorkers` | src/image.c:180-191 | the cleanup loop returns 2 if any per-worker array is missing and the incoming status otherwise |
| `StackMean.StackMeanKernel` | src/image.c:91-197 | status is 1 with both outputs untouched if a pointer table is missing, else 0; in the latter case every count is the number of non-NaN samples at that position, and every mean output is sum/count, or 0 for count 0, under `norm`, or the raw sum without it |

## Left out

- Parallelism: the OpenMP regions, `schedule(dynamic, imsize)`, `omp single`, barriers and thread counts are not modelled. Loops run sequentially and the split of images among workers is the parameter `owner`. The thread team's size is the parameter `nworkers`. The pointer tables are sized by `omp_get_max_threads()`, which is not modelled.
- Floating point: samples are exact reals, and `isnan` is the `NaN` constructor. Rounding of sums and of the division is not modelled, so the order of the fold cannot change a result here.
- Per-worker `calloc` failure (src/image.c:129-135) is not modelled. In the C code, when `imsize > 0` and there are two or more workers, the merge (lines 159-160) dereferences any missing array before cleanup could report it. With one worker there is no merge. The output loop reads `nvalues[0]` at line 165, and reads `mean[0]` only at line 168 (with `norm` and a nonzero count) or line 174 (without `norm`). So with one worker, `_mean` missing, `_nvalues` present and `norm` set, nothing missing is read: the skipped accumulation (line 135) leaves every count 0, every count and mean output is written as 0 (lines 170-171) whatever the data, and the status is 2. With `imsize == 0` neither loop dereferences anything, and where `calloc(0, …)` returns NULL the cleanup loop returns status 2. The model allocates every worker's pair, so `StackMeanKernel` only ever returns 0 or 1. Status 2 is modelled only by `ReleaseWorkers` on its own.
- Per-worker arrays: each worker's separately allocated pair of arrays is modelled as one row of a two-dimensional array per kind. Pointer identity and the `free` calls are not modelled.
- Allocation failure is a boolean parameter: `mapAllocated` for `rotate90`, and one flag per pointer table for `stackmean`. Nothing else about `malloc`/`free` is modelled.
- Integer widths: `index_t`, `int` loop counters and `long int` counts are unbounded integers. Overflow of `i * imsize + j` and of `nimages * imsize` is not modelled.
- Rotate.ApplyMap: "every output index is written exactly once" is not part of its contract. It holds as a loop invariant: positions below `n` hold their final value and positions from `n` on are untouched.
- `rotate90` and `stackmean` take the corrected image count (see Findings), so they accept `|dims| >= 2`. A 2-D input is treated as one image.
- Aliasing of `in` and `out` in `rotate90` is excluded by a precondition. The kernel is only meaningful on distinct buffers.
- csxtools/image/dask.py is not part of this model. It is a wrapper around `dask.array.rot90`, whose behaviour is not visible here. Its only logic maps "ccw"/"cw" to k = 1/-1 and raises ValueError otherwise.

## Findings

| source | as written | input that shows it | evidently intended | confidence | as-written member | corrected member |
|---|---|---|---|---|---|---|
| src/image.c:46-54 | the image count starts from `dims[0]` and multiplies in `dims[1..ndims-3]`, so with `ndims == 2` it is the height, not 1 | `dims = [2, 3]`: the count is 2, so `rotate90` copies 2*6 = 12 elements from a 6-element input (the same count is used at src/image.c:92-107) | the count is the product of the leading dimensions, 1 when there are none, so that count times plane size is the buffer size | medium (callers document a 3-D `(N, y, x)` input); not executed | `StackShape.CountImagesAsWritten`, exhibited by `StackShape.AsWrittenOverreads` | `StackShape.CountImages`, with `StackShape.StackSize` |
